// Whether a restored custom resource is ready, by its operator's own account.
module Readiness {
  import opened Wrappers
  import opened Json
  import opened PointerText
  import opened Document
  import LiveDocument

  /** One readyWhen match; a value of None is text that is not JSON. */
  datatype FieldMatch = FieldMatch(path: string, value: Option<Json>)

  /** The pattern resolves to some path, and every path it resolves to holds the value. */
  predicate Holds(doc: Json, m: FieldMatch) {
    var tokens := Parse(m.path);
    tokens.Some? && m.value.Some? &&
    var paths := Expand(doc, tokens.value);
    paths != [] && forall i :: 0 <= i < |paths| ==> Get(doc, paths[i]) == Some(Normalize(m.value.value))
  }

  method MatchesReadyWhen(doc: Json, matches: seq<FieldMatch>) returns (ready: bool)
    ensures ready <==> forall i :: 0 <= i < |matches| ==> Holds(doc, matches[i])
  {
    var obj := new LiveDocument.LiveDocument(doc);
    for i := 0 to |matches|
      invariant obj.root == doc
      invariant forall j :: 0 <= j < i ==> Holds(doc, matches[j])
    {
      var tokens := Parse(matches[i].path);
      if tokens.None? || matches[i].value.None? { return false; }
      var want := Normalize(matches[i].value.value);
      var paths := obj.ExpandPattern(tokens.value);
      if |paths| == 0 { return false; }
      for j := 0 to |paths|
        invariant obj.root == doc
        invariant forall l :: 0 <= l < j ==> Get(doc, paths[l]) == Some(want)
      {
        var got := obj.GetValue(paths[j]);
        if got != Some(want) { return false; }
      }
    }
    return true;
  }

  /** A match holds when the document has a place the pattern fits, and nothing but the
      wanted value at any such place. An absent field never holds. */
  lemma HoldsMeans(doc: Json, m: FieldMatch)
    requires Parse(m.path).Some? && m.value.Some?
    ensures Holds(doc, m) <==>
            (exists p :: Place(doc, Parse(m.path).value, p)) &&
            forall p :: Place(doc, Parse(m.path).value, p) ==> Get(doc, p) == Some(Normalize(m.value.value))
  {
    var pattern := Parse(m.path).value;
    var paths := Expand(doc, pattern);
    forall p ensures p in paths <==> Place(doc, pattern, p) { ExpandExact(doc, pattern, p); }
    if paths != [] { assert Place(doc, pattern, paths[0]); }
    forall i | 0 <= i < |paths| ensures Place(doc, pattern, paths[i]) { assert paths[i] in paths; }
  }

  predicate Place(doc: Json, pattern: Path, p: Path) {
    Fits(pattern, p) && Reachable(doc, p) && WildcardsResolve(doc, pattern, p)
  }

  /** The integer at a path, when there is one. */
  function IntAt(doc: Json, p: Path): Option<int> {
    match Get(doc, p)
    case Some(Int(n)) => Some(n)
    case _ => None
  }

  /** The operator has not caught up with the restored spec. */
  predicate Behind(doc: Json) {
    var observed := IntAt(doc, ["status", "observedGeneration"]);
    var generation := IntAt(doc, ["metadata", "generation"]);
    observed.Some? && observed.value < (if generation.Some? then generation.value else 0)
  }

  predicate IsReadyCondition(c: Json) {
    c.Obj? && Field(c.fields, "type") == Some(Str("Ready"))
  }

  predicate ReportsTrue(c: Json)
    requires IsReadyCondition(c)
  {
    Field(c.fields, "status") == Some(Str("True"))
  }

  /** The status of the first condition of type Ready. */
  function FirstReady(conditions: seq<Json>): Option<bool> {
    if conditions == [] then None
    else if IsReadyCondition(conditions[0]) then Some(ReportsTrue(conditions[0]))
    else FirstReady(conditions[1..])
  }

  /** customResourceReady: None when nothing is reported. */
  function OperatorVerdict(doc: Json, readyWhen: seq<FieldMatch>): Option<bool> {
    if readyWhen != [] then Some(forall i :: 0 <= i < |readyWhen| ==> Holds(doc, readyWhen[i]))
    else if Behind(doc) then Some(false)
    else
      match Get(doc, ["status", "conditions"])
      case Some(Arr(conditions)) => FirstReady(conditions)
      case _ => None
  }

  method CustomResourceReady(doc: Json, readyWhen: seq<FieldMatch>) returns (verdict: Option<bool>)
    ensures verdict == OperatorVerdict(doc, readyWhen)
  {
    if |readyWhen| > 0 {
      var ready := MatchesReadyWhen(doc, readyWhen);
      return Some(ready);
    }
    var observed := IntAt(doc, ["status", "observedGeneration"]);
    var generation := IntAt(doc, ["metadata", "generation"]);
    if observed.Some? && observed.value < (if generation.Some? then generation.value else 0) {
      return Some(false);
    }
    var found := Get(doc, ["status", "conditions"]);
    if found.None? || !found.value.Arr? { return None; }
    var conditions := found.value.items;
    for i := 0 to |conditions|
      invariant FirstReady(conditions) == FirstReady(conditions[i..])
    {
      assert conditions[i..][1..] == conditions[i + 1..];
      if IsReadyCondition(conditions[i]) {
        return Some(ReportsTrue(conditions[i]));
      }
    }
    return None;
  }

  /** The first Ready condition decides, whatever stands before and after it. */
  lemma {:induction false} FirstReadyDecides(conditions: seq<Json>, i: nat)
    requires i < |conditions| && IsReadyCondition(conditions[i])
    requires forall j :: 0 <= j < i ==> !IsReadyCondition(conditions[j])
    ensures FirstReady(conditions) == Some(ReportsTrue(conditions[i]))
  {
    if i > 0 { FirstReadyDecides(conditions[1..], i - 1); }
  }
}
