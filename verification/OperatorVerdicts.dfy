// What the readiness verdict on a custom resource means, from the fields of its document,
// and what it means for a resource that is warming up.
module OperatorVerdicts {
  import opened Wrappers
  import opened Json
  import opened Document
  import opened PointerText
  import opened Clock
  import opened CustomResource
  import opened ResourceLifecycle
  import opened Readiness
  import opened Integrations

  const OBSERVED: Path := ["status", "observedGeneration"]
  const GENERATION: Path := ["metadata", "generation"]
  const CONDITIONS: Path := ["status", "conditions"]

  /** The operator reports having seen an older generation than the stored one; a document
      without a generation counts as generation zero. */
  ghost predicate Lags(doc: Json) {
    exists observed: int, generation: int {:trigger Int(observed), Int(generation)} ::
      Get(doc, OBSERVED) == Some(Int(observed)) && observed < generation &&
      (Get(doc, GENERATION) == Some(Int(generation)) || (generation == 0 && !HasInt(doc, GENERATION)))
  }

  predicate HasInt(doc: Json, p: Path) {
    Get(doc, p).Some? && Get(doc, p).value.Int?
  }

  predicate TypedReady(c: Json) {
    c.Obj? && "type" in c.fields && c.fields["type"] == Str("Ready")
  }

  predicate SaysTrue(c: Json) {
    c.Obj? && "status" in c.fields && c.fields["status"] == Str("True")
  }

  /** Without readyWhen, an operator that lags is never ready, whatever its conditions say. */
  lemma LaggingIsNotReady(doc: Json)
    requires Lags(doc)
    ensures OperatorVerdict(doc, []) == Some(false)
  {
    var observed, generation :| Get(doc, OBSERVED) == Some(Int(observed)) && observed < generation &&
      (Get(doc, GENERATION) == Some(Int(generation)) || (generation == 0 && !HasInt(doc, GENERATION)));
    assert IntAt(doc, ["status", "observedGeneration"]) == Some(observed);
    assert ["metadata", "generation"] == GENERATION;
  }

  lemma BehindLags(doc: Json)
    requires Behind(doc)
    ensures Lags(doc)
  {
    var observed := IntAt(doc, OBSERVED).value;
    var generation := if IntAt(doc, GENERATION).Some? then IntAt(doc, GENERATION).value else 0;
    assert Get(doc, OBSERVED) == Some(Int(observed)) && observed < generation;
    assert Get(doc, GENERATION) == Some(Int(generation)) || (generation == 0 && !HasInt(doc, GENERATION));
  }

  /** Without readyWhen, one that has caught up, or reports no generation, is as ready as the
      first condition of type Ready says, and reports nothing without one. */
  lemma CaughtUpReports(doc: Json)
    requires !Lags(doc)
    ensures match Get(doc, CONDITIONS)
            case Some(Arr(conditions)) =>
              (forall i :: FirstOfType(conditions, i) ==> OperatorVerdict(doc, []) == Some(SaysTrue(conditions[i]))) &&
              ((forall i :: 0 <= i < |conditions| ==> !TypedReady(conditions[i])) ==> OperatorVerdict(doc, []) == None)
            case _ => OperatorVerdict(doc, []) == None
  {
    if Behind(doc) { BehindLags(doc); }
    match Get(doc, CONDITIONS)
    case Some(Arr(conditions)) =>
      forall i | FirstOfType(conditions, i) ensures FirstReady(conditions) == Some(SaysTrue(conditions[i])) {
        FirstReadyDecides(conditions, i);
      }
      if forall i :: 0 <= i < |conditions| ==> !TypedReady(conditions[i]) { NoneOfType(conditions); }
    case _ =>
  }

  predicate FirstOfType(conditions: seq<Json>, i: int) {
    0 <= i < |conditions| && TypedReady(conditions[i]) && forall j :: 0 <= j < i ==> !TypedReady(conditions[j])
  }

  lemma {:induction false} NoneOfType(conditions: seq<Json>)
    requires forall i :: 0 <= i < |conditions| ==> !TypedReady(conditions[i])
    ensures FirstReady(conditions) == None
  {
    if conditions != [] {
      assert !TypedReady(conditions[0]);
      NoneOfType(conditions[1..]);
    }
  }

  /** The match holds, from the document: its pointer and value parse, it fits some place, and
      every place it fits holds the value. */
  ghost predicate Matches(doc: Json, m: FieldMatch) {
    Parse(m.path).Some? && m.value.Some? &&
    (exists p :: Place(doc, Parse(m.path).value, p)) &&
    forall p :: Place(doc, Parse(m.path).value, p) ==>
      Get(doc, p).Some? && SameValue(m.value.value, Get(doc, p).value) && Normal(Get(doc, p).value)
  }

  lemma HoldsIsMatch(doc: Json, m: FieldMatch)
    requires m.value.Some? ==> IntsFit(m.value.value)
    ensures Holds(doc, m) <==> Matches(doc, m)
  {
    if Parse(m.path).Some? && m.value.Some? {
      HoldsMeans(doc, m);
      forall p | Get(doc, p).Some?
        ensures Get(doc, p) == Some(Normalize(m.value.value)) <==>
                SameValue(m.value.value, Get(doc, p).value) && Normal(Get(doc, p).value)
      {
        NormalizeExactly(m.value.value, Get(doc, p).value);
      }
    }
  }

  /** With readyWhen the verdict is whether every declared match holds; neither generations
      nor conditions play a part. */
  lemma DeclaredDecides(doc: Json, readyWhen: seq<FieldMatch>)
    requires readyWhen != [] && forall i :: 0 <= i < |readyWhen| ==> (readyWhen[i].value.Some? ==> IntsFit(readyWhen[i].value.value))
    ensures OperatorVerdict(doc, readyWhen).Some?
    ensures OperatorVerdict(doc, readyWhen).value <==> forall i :: 0 <= i < |readyWhen| ==> Matches(doc, readyWhen[i])
  {
    forall i | 0 <= i < |readyWhen| ensures Holds(doc, readyWhen[i]) <==> Matches(doc, readyWhen[i]) {
      HoldsIsMatch(doc, readyWhen[i]);
    }
  }

  // ---- a warming resource ---------------------------------------------------------------------

  /** Warming up under the schedule, with its timeout not yet over; without a recorded start
      it does not run. */
  predicate WithinTimeout(s: Resource, check: Check) {
    s.managedBy == Some(check.schedule) && s.state == Some(WARMING_UP) &&
    if s.warmingUpSince.Some? then check.now - s.warmingUpSince.value < check.timeout else 0 < check.timeout
  }

  /** A warming resource whose operator lags is not released before its timeout, however
      ready its namespace is, and its first entry holds the workloads up for it. */
  lemma LaggingHoldsUp(entries: seq<Entry>, r: LiveResource, s: Resource, check: Check, around: Surroundings)
    requires WithinTimeout(s, check) && Lags(s.doc)
    requires FirstToJudge(entries, r).Some? && FirstToJudge(entries, r).value.readyWhen == []
    ensures HoldsUp(entries, r, s, check, around)
    ensures forall e: Entry {:trigger Judged(r, s, e, check, around)} :: e.readyWhen == [] ==> Judged(r, s, e, check, around) == s
  {
    LaggingIsNotReady(s.doc);
  }

  /** One whose declared matches do not all hold is not released before its timeout either. */
  lemma UnmatchedHoldsUp(entries: seq<Entry>, r: LiveResource, s: Resource, check: Check, around: Surroundings, m: FieldMatch)
    requires WithinTimeout(s, check) && (m.value.Some? ==> IntsFit(m.value.value)) && !Matches(s.doc, m)
    requires FirstToJudge(entries, r).Some? && m in FirstToJudge(entries, r).value.readyWhen
    ensures HoldsUp(entries, r, s, check, around)
  {
    HoldsIsMatch(s.doc, m);
  }

  /** Once its timeout is over, a resource is released by whatever entry judges it, if and only
      if its namespace can be scanned and the API takes the write; it is waited for otherwise. */
  lemma TimeoutReleases(r: LiveResource, s: Resource, e: Entry, check: Check, around: Surroundings)
    requires s.managedBy == Some(check.schedule) && s.state == Some(WARMING_UP)
    requires s.warmingUpSince.Some? && check.now - s.warmingUpSince.value >= check.timeout
    ensures var releases := around.scan(around.namespaceOf(r)).Some? && around.accepts(r);
            Judged(r, s, e, check, around) == (if releases then Cleared(s) else s) && WaitsFor(r, s, e, check, around) == !releases
  {
  }

  /** Before it, one is released exactly when its namespace has workloads, all ready, and its
      operator does not say otherwise. */
  lemma ReadyReleases(r: LiveResource, s: Resource, e: Entry, check: Check, around: Surroundings)
    requires WithinTimeout(s, check) && around.accepts(r)
    ensures Judged(r, s, e, check, around) != s <==>
              around.scan(around.namespaceOf(r)) == Some((true, true)) && OperatorVerdict(s.doc, e.readyWhen) != Some(false)
    ensures Judged(r, s, e, check, around) == s <==> WaitsFor(r, s, e, check, around)
  {
  }
}
