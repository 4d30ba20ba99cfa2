// A custom resource over its whole life under lightsout: turned down, restored, warming
// up, released, or cleaned up when its schedule goes away.
module ResourceLifecycle {
  import opened Wrappers
  import opened Json
  import opened Document
  import opened Restoration
  import opened PointerText
  import opened CustomResource
  import opened Clock
  import LiveDocument

  /** The resource: its document and the metadata keys lightsout owns. */
  datatype Resource = Resource(
    doc: Json,
    managedBy: Option<string>,
    state: Option<string>,
    log: Option<Log>,
    warmingUpSince: Option<Instant>)

  // Failed covers every returned error; the stored resource is then unchanged.
  datatype Outcome = Skipped | Failed | Done

  // ---- the four operations on values ----------------------------------------------------

  function Cleared(r: Resource): Resource {
    Resource(r.doc, None, None, None, None)
  }

  /** TurnCustomResourceDown; writeOk says whether the API accepts the update. */
  function Down(r: Resource, fields: seq<SetField>, schedule: string, writeOk: bool): (Outcome, Resource) {
    if r.managedBy.Some? && r.managedBy.value != schedule then (Skipped, r)
    else if r.state == Some(DOWN) && r.managedBy == Some(schedule) then (Skipped, r)
    else
      match TurnDown(r.doc, fields)
      case None => (Failed, r)
      case Some(w) =>
        if w.log == map[] then (Skipped, r)
        else if !writeOk then (Failed, r)
        else (Done, Resource(w.doc, Some(schedule), Some(DOWN), Some(w.log), None))
  }

  /** RestoreCustomResourceFields, visiting the captured fields in the given order. */
  function Up(r: Resource, schedule: string, now: Instant, order: seq<string>, writeOk: bool): (Outcome, Resource)
    requires r.log.Some? ==> forall k :: k in order ==> k in r.log.value
  {
    if r.managedBy != Some(schedule) || r.state != Some(DOWN) then (Skipped, r)
    else if r.log.None? then (if writeOk then (Skipped, Cleared(r)) else (Failed, r))
    else
      match PutBackAll(r.doc, r.log.value, order)
      case None => (Failed, r)
      case Some(d) =>
        if writeOk then (Done, Resource(d, r.managedBy, Some(WARMING_UP), None, Some(Stored(now))))
        else (Failed, r)
  }

  /** clearCustomResourceState, as the warmup handler calls it. */
  function Release(r: Resource, schedule: string, writeOk: bool): Resource {
    if r.managedBy == Some(schedule) && r.state == Some(WARMING_UP) && writeOk then Cleared(r) else r
  }

  /** restoreAllCustomResources on one resource: restore, then clear whatever is left. */
  function CleanUp(r: Resource, schedule: string, now: Instant, order: seq<string>, restoreOk: bool, clearOk: bool): Resource
    requires r.log.Some? ==> forall k :: k in order ==> k in r.log.value
  {
    if r.managedBy != Some(schedule) then r
    else
      var (outcome, restored) := Up(r, schedule, now, order, restoreOk);
      if outcome == Failed || !clearOk then restored else Cleared(restored)
  }

  // ---- the same operations on the live object ----------------------------------------------

  class LiveResource {
    var doc: Json
    var managedBy: Option<string>
    var state: Option<string>
    var log: Option<Log>
    var warmingUpSince: Option<Instant>

    function Snapshot(): Resource
      reads this
    {
      Resource(doc, managedBy, state, log, warmingUpSince)
    }

    method TurnResourceDown(fields: seq<SetField>, schedule: string, writeOk: bool) returns (outcome: Outcome)
      modifies this
      ensures (outcome, Snapshot()) == Down(old(Snapshot()), fields, schedule, writeOk)
    {
      if managedBy.Some? && managedBy.value != schedule { return Skipped; }
      if state == Some(DOWN) && managedBy == Some(schedule) { return Skipped; }

      var obj := new LiveDocument.LiveDocument(doc);
      var captured: Log := map[];
      ghost var start := Writing(doc, map[], []);
      ghost var written: seq<Path> := [];
      for i := 0 to |fields|
        invariant fresh(obj) && unchanged(this)
        invariant WriteFields(Writing(obj.root, captured, written), fields[i..]) == WriteFields(start, fields)
      {
        var field := fields[i];
        assert fields[i..][1..] == fields[i + 1..];
        var tokens := Parse(field.path);
        if tokens.None? || field.value.None? { return Failed; }
        var value := Normalize(field.value.value);
        var paths := obj.ExpandPattern(tokens.value);
        ghost var before := Writing(obj.root, captured, written);
        for j := 0 to |paths|
          invariant fresh(obj) && unchanged(this)
          invariant WritePaths(Writing(obj.root, captured, written), paths[j..], value) == WritePaths(before, paths, value)
        {
          var path := paths[j];
          assert paths[j..][1..] == paths[j + 1..];
          var previous := obj.GetValue(path);
          captured := captured[Format(path) :=
            match previous case Some(v) => CapturedField(true, v) case None => CapturedField(false, Null)];
          var ok := obj.SetValue(path, value);
          if !ok {
            RootIsNotWritten(tokens.value, before, paths, j);
            return Failed;
          }
          written := written + [path];
        }
      }

      if captured == map[] { return Skipped; }
      if !writeOk { return Failed; }
      doc, managedBy, state := obj.root, Some(schedule), Some(DOWN);
      log, warmingUpSince := Some(captured), None;
      return Done;
    }

    method RestoreFields(schedule: string, now: Instant, writeOk: bool) returns (outcome: Outcome, ghost order: seq<string>)
      modifies this
      ensures old(log).Some? ==> forall k :: k in order ==> k in old(log).value
      ensures old(log).Some? && outcome == Done ==> Lists(order, old(log).value.Keys)
      ensures exists visited: set<string> :: Lists(order, visited)
      ensures (outcome, Snapshot()) == Up(old(Snapshot()), schedule, now, order, writeOk)
    {
      order := [];
      assert Lists(order, {});
      if managedBy != Some(schedule) { return Skipped, order; }
      if state != Some(DOWN) { return Skipped, order; }
      if log.None? {
        if !writeOk { return Failed, order; }
        managedBy, state, log, warmingUpSince := None, None, None, None;
        return Skipped, order;
      }

      var captured := log.value;
      var obj := new LiveDocument.LiveDocument(doc);
      var remaining := captured.Keys;
      while remaining != {}
        invariant fresh(obj) && unchanged(this)
        invariant remaining <= captured.Keys
        invariant Lists(order, captured.Keys - remaining)
        invariant PutBackAll(doc, captured, order) == Some(obj.root)
        decreases remaining
      {
        var pointer :| pointer in remaining;
        remaining := remaining - {pointer};
        var field := captured[pointer];
        ghost var visited := order;
        PutBackAllAppend(doc, captured, order, pointer);
        order := order + [pointer];
        assert Lists(order, captured.Keys - remaining);
        var tokens := Parse(pointer);
        if tokens.None? { return Failed, order; }
        var ok: bool;
        if field.present {
          ok := obj.SetValue(tokens.value, Normalize(Recode(field.value)));
        } else {
          ok := obj.DeleteValue(tokens.value);
        }
        if !ok { return Failed, order; }
      }

      if !writeOk { return Failed, order; }
      doc, state := obj.root, Some(WARMING_UP);
      log, warmingUpSince := None, Some(Stored(now));
      return Done, order;
    }

    method ClearState(writeOk: bool) returns (ok: bool)
      modifies this
      ensures ok == writeOk
      ensures Snapshot() == if writeOk then Cleared(old(Snapshot())) else old(Snapshot())
    {
      if writeOk {
        managedBy, state, log, warmingUpSince := None, None, None, None;
      }
      return writeOk;
    }

    method CleanUpResource(schedule: string, now: Instant, restoreOk: bool, clearOk: bool) returns (ghost order: seq<string>)
      modifies this
      ensures old(log).Some? ==> forall k :: k in order ==> k in old(log).value
      ensures Snapshot() == CleanUp(old(Snapshot()), schedule, now, order, restoreOk, clearOk)
    {
      order := [];
      if managedBy != Some(schedule) { return; }
      var outcome;
      outcome, order := RestoreFields(schedule, now, restoreOk);
      if outcome != Failed {
        var _ := ClearState(clearOk);
      }
    }
  }

  /** An expanded path is never the document root, so writing it never fails for that. */
  lemma RootIsNotWritten(pattern: Path, before: Writing, paths: seq<Path>, j: nat)
    requires pattern != [] && paths == Expand(before.doc, pattern) && j < |paths|
    ensures paths[j] != []
  {
    ExpandExact(before.doc, pattern, paths[j]);
  }

  lemma {:induction false} PutBackAllAppend(d: Json, log: Log, order: seq<string>, k: string)
    requires (forall j :: j in order ==> j in log) && k in log
    ensures forall j :: j in order + [k] ==> j in log
    ensures PutBackAll(d, log, order + [k]) ==
            match PutBackAll(d, log, order) case Some(e) => PutBack(e, k, log[k]) case None => None
    decreases |order|
  {
    if order == [] {
      assert [] + [k] == [k];
      match PutBack(d, k, log[k])
      case Some(e) => assert PutBackAll(e, log, [k][1..]) == Some(e);
      case None =>
    } else {
      assert (order + [k])[1..] == order[1..] + [k];
      match PutBack(d, order[0], log[order[0]])
      case Some(e) => PutBackAllAppend(e, log, order[1..], k);
      case None =>
    }
  }

  // ---- every run --------------------------------------------------------------------------

  /** One thing that can happen to the resource. The configuration may differ from one
      downscale to the next, several schedules may act, and any write may be refused. */
  datatype Step =
    | DownStep(fields: seq<SetField>, schedule: string, writeOk: bool)
    | UpStep(schedule: string, now: Instant, order: seq<string>, writeOk: bool)
    | ReleaseStep(schedule: string, writeOk: bool)
    | CleanUpStep(schedule: string, now: Instant, order: seq<string>, restoreOk: bool, clearOk: bool)

  /** A step the model speaks about: a downscale whose written paths part and whose
      captured values can be recorded, a restore that visits each captured field once. */
  ghost predicate Possible(r: Resource, step: Step) {
    match step
    case DownStep(fields, _, _) => CanTurnDown(r.doc, fields)
    case UpStep(_, _, order, _) => r.log.Some? ==> Lists(order, r.log.value.Keys)
    case ReleaseStep(_, _) => true
    case CleanUpStep(_, _, order, _, _) => r.log.Some? ==> Lists(order, r.log.value.Keys)
  }

  ghost function Next(r: Resource, step: Step): Resource
    requires Possible(r, step)
  {
    match step
    case DownStep(fields, schedule, writeOk) => Down(r, fields, schedule, writeOk).1
    case UpStep(schedule, now, order, writeOk) => Up(r, schedule, now, order, writeOk).1
    case ReleaseStep(schedule, writeOk) => Release(r, schedule, writeOk)
    case CleanUpStep(schedule, now, order, restoreOk, clearOk) => CleanUp(r, schedule, now, order, restoreOk, clearOk)
  }

  ghost predicate IsRun(history: seq<Resource>, steps: seq<Step>) {
    |history| == |steps| + 1 &&
    forall i :: 0 <= i < |steps| ==> Possible(history[i], steps[i]) && history[i + 1] == Next(history[i], steps[i])
  }

  /** The document held by the log is the original one, up to empty parents. */
  ghost predicate HoldsOriginal(original: Json, doc: Json, log: Log) {
    exists d: Json, captured: set<Path> :: SameButHollow(original, d) && Held(d, doc, log, captured)
  }

  /** What every reachable resource satisfies.
      - It is down exactly while it carries captured fields, warming up exactly while it
        carries a start time, and owned exactly while it is in one of the two.
      - Its effective document, the one restoring gives or the one it shows, is the
        original up to empty parents. */
  ghost predicate Conserved(original: Json, r: Resource) {
    (r.state == Some(DOWN) <==> r.log.Some?) &&
    (r.state == Some(WARMING_UP) <==> r.warmingUpSince.Some?) &&
    (r.managedBy.Some? <==> r.state.Some?) &&
    (r.state.Some? ==> r.state.value == DOWN || r.state.value == WARMING_UP) &&
    (r.log.None? ==> SameButHollow(original, r.doc)) &&
    (r.log.Some? ==> HoldsOriginal(original, r.doc, r.log.value))
  }

  lemma UpConserves(original: Json, r: Resource, schedule: string, now: Instant, order: seq<string>, writeOk: bool)
    requires Conserved(original, r) && (r.log.Some? ==> Lists(order, r.log.value.Keys))
    ensures Conserved(original, Up(r, schedule, now, order, writeOk).1)
    ensures Up(r, schedule, now, order, writeOk).0 == Failed ==> !writeOk
    ensures writeOk && r.managedBy == Some(schedule) ==> Up(r, schedule, now, order, writeOk).1.log.None?
  {
    if r.log.Some? {
      var d, captured :| SameButHollow(original, d) && Held(d, r.doc, r.log.value, captured);
      RestoreHeld(d, r.doc, r.log.value, captured, order);
      var back := PutBackAll(r.doc, r.log.value, order).value;
      RestoredIsSame(Some(d), back, captured);
      SameTransitive(original, d, back);
    }
  }

  lemma StepConserves(original: Json, r: Resource, step: Step)
    requires Conserved(original, r) && Possible(r, step)
    ensures Conserved(original, Next(r, step))
  {
    match step
    case DownStep(fields, schedule, writeOk) =>
      if Down(r, fields, schedule, writeOk).0 == Done {
        TurnDownHolds(r.doc, fields);
        var w := TurnDown(r.doc, fields).value;
        assert SameButHollow(original, r.doc) && Held(r.doc, w.doc, w.log, PathSet(w.paths));
      }
    case UpStep(schedule, now, order, writeOk) => UpConserves(original, r, schedule, now, order, writeOk);
    case ReleaseStep(_, _) =>
    case CleanUpStep(schedule, now, order, restoreOk, clearOk) =>
      UpConserves(original, r, schedule, now, order, restoreOk);
  }

  /** Over every run, from an unmanaged resource, by any schedules and with any writes
      refused, the original document is conserved. */
  lemma {:induction false} RunConserves(history: seq<Resource>, steps: seq<Step>, i: nat)
    requires IsRun(history, steps) && i < |history|
    requires history[0] == Cleared(history[0])
    ensures Conserved(history[0].doc, history[i])
  {
    if i == 0 {
      SameIsReflexive(history[0].doc);
      SameIsSameButHollow(history[0].doc, history[0].doc);
    } else {
      RunConserves(history, steps, i - 1);
      StepConserves(history[0].doc, history[i - 1], steps[i - 1]);
    }
  }

  /** Whenever a downscale captures anything, also when it repeats or interrupts a warmup,
      the document it reads from is the original one: lightsout never captures a value
      it wrote itself. */
  lemma CapturesOriginals(history: seq<Resource>, steps: seq<Step>, i: nat)
    requires IsRun(history, steps) && i < |steps|
    requires history[0] == Cleared(history[0])
    requires steps[i].DownStep? && history[i + 1] != history[i]
    ensures SameButHollow(history[0].doc, history[i].doc)
    ensures history[i + 1].log.Some?
    ensures var w := TurnDown(history[i].doc, steps[i].fields);
            w.Some? && Records(history[i].doc, history[i + 1].log.value, PathSet(w.value.paths))
  {
    RunConserves(history, steps, i);
    TurnDownHolds(history[i].doc, steps[i].fields);
  }

  /** At any point of any run the owning schedule can give the resource back: one accepted
      cleanup leaves no mark and the original document, up to empty parents. */
  lemma CleanUpReturnsOriginal(history: seq<Resource>, steps: seq<Step>, i: nat, schedule: string, now: Instant, order: seq<string>)
    requires IsRun(history, steps) && i < |history|
    requires history[0] == Cleared(history[0])
    requires history[i].managedBy == Some(schedule)
    requires history[i].log.Some? ==> Lists(order, history[i].log.value.Keys)
    ensures var r := CleanUp(history[i], schedule, now, order, true, true);
            r == Cleared(r) && SameButHollow(history[0].doc, r.doc)
  {
    RunConserves(history, steps, i);
    UpConserves(history[0].doc, history[i], schedule, now, order, true);
  }

  // ---- where the round trip does not hold ---------------------------------------------------

  /** A captured field below an empty object key can never be restored: its printed
      pointer is refused by the parser, whatever the order. */
  lemma {:induction false} EmptyKeyBlocksRestore(d: Json, log: Log, order: seq<string>, p: Path)
    requires (forall k :: k in order ==> k in log) && Format(p) in order && p != [] && !NonEmptyTokens(p)
    ensures PutBackAll(d, log, order).None?
    decreases |order|
  {
    ParseFormat(p);
    if order[0] != Format(p) {
      assert order == [order[0]] + order[1..];
      match PutBack(d, order[0], log[order[0]])
      case Some(e) => EmptyKeyBlocksRestore(e, log, order[1..], p);
      case None =>
    }
  }
}
