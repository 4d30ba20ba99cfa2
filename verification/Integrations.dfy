// Start-up order: databases and brokers are restored and waited for before any workload
// is scaled up, and the GitOps warmup starts once every workload has been visited.
module Integrations {
  import opened Wrappers
  import opened Clock
  import opened CustomResource
  import Restoration
  import opened ResourceLifecycle
  import opened Readiness
  import opened SyncWave
  import opened Batcher

  /** One configured entry. The resources it matches are listed twice in a reconcile, to
      restore them and to judge their warmup; None is a listing that failed. */
  datatype Entry = Entry(
    delete: bool,
    readyWhen: seq<FieldMatch>,
    toRestore: Option<seq<LiveResource>>,
    toJudge: Option<seq<LiveResource>>)

  /** The cluster as one reconcile finds it: where a resource lives, whether the API
      accepts a write to it, and what the workload scan of a namespace says: whether they
      are ready and whether there are any, or that it failed. */
  datatype Surroundings = Surroundings(
    namespaceOf: LiveResource -> string,
    accepts: LiveResource -> bool,
    scan: string -> Option<(bool, bool)>)

  /** The schedule's resources still turned off, and still warming up. */
  predicate IsDown(s: Resource, schedule: string) {
    s.managedBy == Some(schedule) && s.state == Some(DOWN)
  }

  predicate IsWarming(s: Resource, schedule: string) {
    s.managedBy == Some(schedule) && s.state == Some(WARMING_UP)
  }

  // ---- restoring ----------------------------------------------------------------------------

  /** The captured fields can be put back, in whatever order. */
  ghost predicate Restorable(s: Resource) {
    s.log.Some? ==> forall order :: Lists(order, s.log.value.Keys) ==> PutBackAll(s.doc, s.log.value, order).Some?
  }

  lemma {:induction false} StaysFailed(s: Resource, order: seq<string>, full: seq<string>)
    requires s.log.Some? && (forall k :: k in full ==> k in s.log.value) && order <= full
    requires forall k :: k in order ==> k in s.log.value
    requires PutBackAll(s.doc, s.log.value, order).None?
    ensures PutBackAll(s.doc, s.log.value, full).None?
  {
    if |order| < |full| {
      var front, last := full[..|full| - 1], full[|full| - 1];
      assert full == front + [last] && order <= front;
      StaysFailed(s, order, front);
      PutBackAllAppend(s.doc, s.log.value, front, last);
    } else {
      assert order == full;
    }
  }

  /** The resource was down and has been restored, visiting its captured fields in some
      order. */
  ghost predicate RestoredFrom(before: Resource, after: Resource, schedule: string, now: Instant) {
    IsDown(before, schedule) &&
    if before.log.None? then after == Cleared(before)
    else exists order :: RestoredBy(before, after, schedule, now, order)
  }

  ghost predicate RestoredBy(before: Resource, after: Resource, schedule: string, now: Instant, order: seq<string>)
    requires before.log.Some?
  {
    Lists(order, before.log.value.Keys) && Up(before, schedule, now, order, true) == (Done, after)
  }

  /** A restore of a restorable resource fails only when its write is refused; otherwise
      the resource is no longer down. A resource is warming up afterwards, and was not
      before, exactly when the restore went through. */
  lemma RestoreOutcome(s: Resource, schedule: string, now: Instant, order: seq<string>, writeOk: bool)
    requires s.log.Some? ==> forall k :: k in order ==> k in s.log.value
    requires exists seen :: Lists(order, seen)
    requires s.log.Some? && Up(s, schedule, now, order, writeOk).0 == Done ==> Lists(order, s.log.value.Keys)
    ensures var (outcome, after) := Up(s, schedule, now, order, writeOk);
            (after == s || RestoredFrom(s, after, schedule, now)) &&
            (IsDown(after, schedule) ==> after == s && !(writeOk && Restorable(s))) &&
            (!writeOk ==> after == s) &&
            (outcome == Done <==> IsDown(s, schedule) && IsWarming(after, schedule))
  {
    if IsDown(s, schedule) && s.log.Some? && PutBackAll(s.doc, s.log.value, order).None? {
      var seen :| Lists(order, seen);
      assert seen <= s.log.value.Keys;
      var full := Complete(order, seen, s.log.value.Keys);
      StaysFailed(s, order, full);
    }
    if IsDown(s, schedule) && s.log.Some? && Up(s, schedule, now, order, writeOk).0 == Done {
      assert RestoredBy(s, Up(s, schedule, now, order, writeOk).1, schedule, now, order);
    }
  }

  /** Down before, warming up after: just restored. */
  predicate Transitioned(before: Resource, after: Resource, schedule: string) {
    IsDown(before, schedule) && IsWarming(after, schedule)
  }

  /** A resource that is down after the restore loop was down before it, and could not be
      restored or its write was refused. */
  ghost predicate Excused(s: Resource, accepted: bool) {
    !(accepted && Restorable(s))
  }

  /** What restoring may do to a resource: nothing, above all when its write is refused, or
      restore it. */
  ghost predicate MayRestore(before: Resource, after: Resource, schedule: string, now: Instant, accepted: bool) {
    after == before || (accepted && RestoredFrom(before, after, schedule, now))
  }

  /** Restoring twice is restoring once. */
  lemma MayRestoreAgain(a: Resource, b: Resource, c: Resource, schedule: string, now: Instant, accepted: bool)
    requires MayRestore(a, b, schedule, now, accepted) && MayRestore(b, c, schedule, now, accepted)
    ensures MayRestore(a, c, schedule, now, accepted)
    ensures Transitioned(a, c, schedule) <==> Transitioned(a, b, schedule) || Transitioned(b, c, schedule)
    ensures IsDown(c, schedule) ==> c == b
  {
    if RestoredFrom(a, b, schedule, now) { RestoredIsUp(a, b, schedule, now); }
    if RestoredFrom(b, c, schedule, now) { RestoredIsUp(b, c, schedule, now); }
  }

  lemma RestoredIsUp(before: Resource, after: Resource, schedule: string, now: Instant)
    requires RestoredFrom(before, after, schedule, now)
    ensures !IsDown(after, schedule)
  {
    if before.log.Some? {
      var order :| RestoredBy(before, after, schedule, now, order);
    }
  }

  /** Restoring one listed resource; done says whether it went through. */
  method RestoreOne(obj: LiveResource, schedule: string, now: Instant, accepted: bool) returns (done: bool)
    modifies obj
    ensures MayRestore(old(obj.Snapshot()), obj.Snapshot(), schedule, now, accepted)
    ensures IsDown(obj.Snapshot(), schedule) ==> Excused(obj.Snapshot(), accepted)
    ensures done <==> Transitioned(old(obj.Snapshot()), obj.Snapshot(), schedule)
  {
    var outcome, order := obj.RestoreFields(schedule, now, accepted);
    RestoreOutcome(old(obj.Snapshot()), schedule, now, order, accepted);
    return outcome == Done;
  }

  /** customResourcesUp for the resources of one entry; moved are those it restored. */
  method RestoreMatches(matched: seq<LiveResource>, schedule: string, now: Instant, around: Surroundings,
                        ghost all: set<LiveResource>) returns (transitioned: bool, ghost moved: set<LiveResource>)
    requires forall r :: r in matched ==> r in all
    modifies all
    ensures forall r :: r in all ==> MayRestore(old(r.Snapshot()), r.Snapshot(), schedule, now, around.accepts(r))
    ensures forall r :: r in matched && IsDown(r.Snapshot(), schedule) ==> Excused(r.Snapshot(), around.accepts(r))
    ensures forall r :: r in all && r !in matched ==> r.Snapshot() == old(r.Snapshot())
    ensures moved <= all && (transitioned <==> moved != {})
    ensures forall r :: r in all ==> (r in moved <==> Transitioned(old(r.Snapshot()), r.Snapshot(), schedule))
  {
    transitioned, moved := false, {};
    for i := 0 to |matched|
      invariant forall r :: r in all && r !in matched[..i] ==> r.Snapshot() == old(r.Snapshot())
      invariant forall r :: r in all ==> MayRestore(old(r.Snapshot()), r.Snapshot(), schedule, now, around.accepts(r))
      invariant forall r :: r in matched[..i] && IsDown(r.Snapshot(), schedule) ==> Excused(r.Snapshot(), around.accepts(r))
      invariant moved <= all && (transitioned <==> moved != {})
      invariant forall r :: r in all ==> (r in moved <==> Transitioned(old(r.Snapshot()), r.Snapshot(), schedule))
    {
      var obj := matched[i];
      label Turn:
      var done := RestoreOne(obj, schedule, now, around.accepts(obj));
      assert forall r :: r in all && r != obj ==> r.Snapshot() == old@Turn(r.Snapshot());
      MayRestoreAgain(old(obj.Snapshot()), old@Turn(obj.Snapshot()), obj.Snapshot(), schedule, now, around.accepts(obj));
      transitioned := transitioned || done;
      moved := if done then moved + {obj} else moved;
    }
    assert matched[..|matched|] == matched;
  }

  predicate Within(entries: seq<Entry>, all: set<LiveResource>) {
    forall e :: e in entries ==>
      (e.toRestore.Some? ==> forall r :: r in e.toRestore.value ==> r in all) &&
      (e.toJudge.Some? ==> forall r :: r in e.toJudge.value ==> r in all)
  }

  /** No entry lists the resource but delete entries, whose resources the operator rebuilds. */
  predicate OnlyDeleted(entries: seq<Entry>, r: LiveResource) {
    forall e :: e in entries && !e.delete ==>
      (e.toRestore.Some? ==> r !in e.toRestore.value) && (e.toJudge.Some? ==> r !in e.toJudge.value)
  }

  /** The resource was listed to be restored. */
  predicate ToRestore(e: Entry, r: LiveResource) {
    !e.delete && e.toRestore.Some? && r in e.toRestore.value
  }

  /** customResourcesUp */
  method CustomResourcesUp(entries: seq<Entry>, schedule: string, now: Instant, around: Surroundings,
                           ghost all: set<LiveResource>) returns (transitioned: bool)
    requires Within(entries, all)
    modifies all
    ensures forall r :: r in all ==> MayRestore(old(r.Snapshot()), r.Snapshot(), schedule, now, around.accepts(r))
    ensures forall e, r :: e in entries && ToRestore(e, r) && IsDown(r.Snapshot(), schedule) ==> Excused(r.Snapshot(), around.accepts(r))
    ensures transitioned <==> exists r :: r in all && Transitioned(old(r.Snapshot()), r.Snapshot(), schedule)
    ensures forall r :: r in all && OnlyDeleted(entries, r) ==> r.Snapshot() == old(r.Snapshot())
  {
    transitioned := false;
    ghost var moved: set<LiveResource> := {};
    for i := 0 to |entries|
      invariant forall r :: r in all ==> MayRestore(old(r.Snapshot()), r.Snapshot(), schedule, now, around.accepts(r))
      invariant forall e, r :: e in entries[..i] && ToRestore(e, r) && IsDown(r.Snapshot(), schedule) ==>
                  Excused(r.Snapshot(), around.accepts(r))
      invariant moved <= all && (transitioned <==> moved != {})
      invariant forall r :: r in all ==> (r in moved <==> Transitioned(old(r.Snapshot()), r.Snapshot(), schedule))
      invariant forall r :: r in all && OnlyDeleted(entries, r) ==> r.Snapshot() == old(r.Snapshot())
    {
      var entry := entries[i];
      if entry.toRestore.Some? && !entry.delete {
        label Entry:
        var some;
        ghost var more;
        some, more := RestoreMatches(entry.toRestore.value, schedule, now, around, all);
        forall r | r in all
          ensures MayRestore(old(r.Snapshot()), r.Snapshot(), schedule, now, around.accepts(r))
          ensures r in moved + more <==> Transitioned(old(r.Snapshot()), r.Snapshot(), schedule)
          ensures IsDown(r.Snapshot(), schedule) ==> r.Snapshot() == old@Entry(r.Snapshot())
        {
          MayRestoreAgain(old(r.Snapshot()), old@Entry(r.Snapshot()), r.Snapshot(), schedule, now, around.accepts(r));
        }
        transitioned, moved := transitioned || some, moved + more;
      }
    }
    assert entries[..|entries|] == entries;
  }

  // ---- warming up ----------------------------------------------------------------------------

  function Since(s: Resource, now: Instant): Instant {
    if s.warmingUpSince.Some? then s.warmingUpSince.value else now
  }

  /** The namespace's workloads are ready, and there are some. */
  predicate NamespaceUp(scanned: Option<(bool, bool)>) {
    scanned.Some? && scanned.value.0 && scanned.value.1
  }

  /** Scan and operator agree that the resource is ready. */
  predicate IsReady(s: Resource, readyWhen: seq<FieldMatch>, scanned: Option<(bool, bool)>) {
    NamespaceUp(scanned) && OperatorVerdict(s.doc, readyWhen) != Some(false)
  }

  /** Why a resource may be released: it is ready, or its warmup timed out. */
  predicate Earned(s: Resource, readyWhen: seq<FieldMatch>, scanned: Option<(bool, bool)>, now: Instant, timeout: Duration) {
    IsReady(s, readyWhen, scanned) || now - Since(s, now) >= timeout
  }

  /** The clock and the configuration of one warmup check. */
  datatype Check = Check(schedule: string, now: Instant, timeout: Duration)

  /** Why a reconcile waits for a resource: it is warming up, and its namespace could not
      be scanned, or it has not earned its release, or the release was refused. */
  predicate Waits(s: Resource, readyWhen: seq<FieldMatch>, check: Check, scanned: Option<(bool, bool)>, accepted: bool) {
    IsWarming(s, check.schedule) &&
    (scanned.None? || !Earned(s, readyWhen, scanned, check.now, check.timeout) || !accepted)
  }

  predicate WaitsFor(r: LiveResource, s: Resource, e: Entry, check: Check, around: Surroundings) {
    Waits(s, e.readyWhen, check, around.scan(around.namespaceOf(r)), around.accepts(r))
  }

  /** What the warmup check of one resource leaves: it is released unless it is not warming
      up or waited for. */
  function Judged(r: LiveResource, s: Resource, e: Entry, check: Check, around: Surroundings): Resource {
    if IsWarming(s, check.schedule) && !WaitsFor(r, s, e, check, around) then Cleared(s) else s
  }

  /** The readiness found so far is what the scans said. */
  predicate Agrees(readiness: map<string, bool>, around: Surroundings) {
    forall ns :: ns in readiness ==> around.scan(ns).Some? && readiness[ns] == NamespaceUp(around.scan(ns))
  }

  /** The warmup check of one resource. */
  method JudgeOne(obj: LiveResource, entry: Entry, check: Check, around: Surroundings, readiness: map<string, bool>)
    returns (waiting: bool, seen: map<string, bool>)
    requires Agrees(readiness, around)
    modifies obj
    ensures Agrees(seen, around)
    ensures waiting <==> WaitsFor(obj, old(obj.Snapshot()), entry, check, around)
    ensures obj.Snapshot() == Judged(obj, old(obj.Snapshot()), entry, check, around)
  {
    seen := readiness;
    if obj.managedBy != Some(check.schedule) { return false, seen; }
    if obj.state != Some(WARMING_UP) { return false, seen; }
    var warmingUpSince := if obj.warmingUpSince.Some? then obj.warmingUpSince.value else check.now;
    var timedOut := check.now - warmingUpSince >= check.timeout;
    var ns := around.namespaceOf(obj);
    if ns !in seen {
      var scanned := around.scan(ns);
      if scanned.None? { return true, seen; }
      seen := seen[ns := scanned.value.0 && scanned.value.1];
    }
    var ready := seen[ns];
    var verdict := CustomResourceReady(obj.doc, entry.readyWhen);
    if verdict.Some? { ready := ready && verdict.value; }
    if !ready && !timedOut { return true, seen; }
    var cleared := obj.ClearState(around.accepts(obj));
    return !cleared, seen;
  }

  /** handleCustomResourceWarmup for the resources of one entry: each listed one is judged
      as it was found, and the entry waits exactly when one of them is waited for. */
  method JudgeMatches(matched: seq<LiveResource>, entry: Entry, check: Check, around: Surroundings, readiness: map<string, bool>,
                      ghost all: set<LiveResource>)
    returns (waiting: bool, seen: map<string, bool>)
    requires Agrees(readiness, around)
    requires forall r :: r in matched ==> r in all
    modifies all
    ensures Agrees(seen, around)
    ensures waiting <==> exists r :: r in matched && WaitsFor(r, old(r.Snapshot()), entry, check, around)
    ensures forall r :: r in all ==>
              r.Snapshot() == if r in matched then Judged(r, old(r.Snapshot()), entry, check, around) else old(r.Snapshot())
  {
    waiting, seen := false, readiness;
    for i := 0 to |matched|
      invariant Agrees(seen, around)
      invariant waiting <==> exists r :: r in matched[..i] && WaitsFor(r, old(r.Snapshot()), entry, check, around)
      invariant forall r :: r in all ==>
                  r.Snapshot() == if r in matched[..i] then Judged(r, old(r.Snapshot()), entry, check, around) else old(r.Snapshot())
    {
      var obj := matched[i];
      label Turn:
      var one;
      one, seen := JudgeOne(obj, entry, check, around, seen);
      assert forall r :: r in all && r != obj ==> r.Snapshot() == old@Turn(r.Snapshot());
      assert matched[..i + 1] == matched[..i] + [obj];
      waiting := waiting || one;
    }
    assert matched[..|matched|] == matched;
  }

  /** The resource was listed to be judged. */
  predicate ToJudge(e: Entry, r: LiveResource) {
    !e.delete && e.toJudge.Some? && r in e.toJudge.value
  }

  /** The resource after all entries that list it have judged it, one after the other, and
      whether one of them waits for it. */
  function JudgedBy(entries: seq<Entry>, r: LiveResource, s: Resource, check: Check, around: Surroundings): (Resource, bool) {
    if entries == [] then (s, false)
    else
      var (before, waited) := JudgedBy(entries[..|entries| - 1], r, s, check, around);
      var last := entries[|entries| - 1];
      if ToJudge(last, r) then (Judged(r, before, last, check, around), waited || WaitsFor(r, before, last, check, around))
      else (before, waited)
  }

  /** The first entry that lists the resource. */
  function FirstToJudge(entries: seq<Entry>, r: LiveResource): Option<Entry> {
    if entries == [] then None
    else
      match FirstToJudge(entries[..|entries| - 1], r)
      case Some(e) => Some(e)
      case None => if ToJudge(entries[|entries| - 1], r) then Some(entries[|entries| - 1]) else None
  }

  /** The resource holds the workloads up: the first entry that lists it waits for it. */
  predicate HoldsUp(entries: seq<Entry>, r: LiveResource, s: Resource, check: Check, around: Surroundings) {
    var first := FirstToJudge(entries, r);
    first.Some? && WaitsFor(r, s, first.value, check, around)
  }

  predicate ReleasedFor(before: Resource, after: Resource, e: Entry, r: LiveResource, check: Check, around: Surroundings) {
    IsWarming(before, check.schedule) && after == Cleared(before) && ToJudge(e, r) &&
    Earned(before, e.readyWhen, around.scan(around.namespaceOf(r)), check.now, check.timeout)
  }

  /** The resource was warming up and some entry that lists it earned its release. */
  ghost predicate Released(before: Resource, after: Resource, entries: seq<Entry>, r: LiveResource, check: Check, around: Surroundings) {
    exists e :: e in entries && ReleasedFor(before, after, e, r, check, around)
  }

  /** No entry that lists the resource leaves it warming up. */
  ghost predicate DoneWarming(entries: seq<Entry>, r: LiveResource, s: Resource, check: Check) {
    forall e :: e in entries && ToJudge(e, r) ==> !IsWarming(s, check.schedule)
  }

  /** Judging by all entries: the resource is as it was found or was released after earning
      it; something waits for it exactly when the first entry that lists it does; and if
      nothing does, it is not left warming up. */
  lemma {:induction false} JudgedByMeans(entries: seq<Entry>, r: LiveResource, s: Resource, check: Check, around: Surroundings)
    ensures var (after, waited) := JudgedBy(entries, r, s, check, around);
            (after == s || Released(s, after, entries, r, check, around)) &&
            (waited <==> HoldsUp(entries, r, s, check, around)) &&
            (!waited ==> DoneWarming(entries, r, after, check)) &&
            (!around.accepts(r) ==> after == s)
    ensures FirstToJudge(entries, r).None? ==>
              JudgedBy(entries, r, s, check, around).0 == s && forall e :: e in entries ==> !ToJudge(e, r)
    ensures FirstToJudge(entries, r).Some? ==> FirstToJudge(entries, r).value in entries && ToJudge(FirstToJudge(entries, r).value, r)
  {
    if entries != [] {
      var front, last := entries[..|entries| - 1], entries[|entries| - 1];
      assert entries == front + [last];
      JudgedByMeans(front, r, s, check, around);
      var (before, _) := JudgedBy(front, r, s, check, around);
      if before != s {
        var e :| e in front && ReleasedFor(s, before, e, r, check, around);
        assert e in entries;
      } else if ToJudge(last, r) && IsWarming(s, check.schedule) && !WaitsFor(r, s, last, check, around) {
        assert last in entries && ReleasedFor(s, Cleared(s), last, r, check, around);
      }
    }
  }

  lemma {:induction false} DeletedIsNotJudged(entries: seq<Entry>, r: LiveResource)
    requires OnlyDeleted(entries, r)
    ensures FirstToJudge(entries, r).None?
  {
    if entries != [] {
      var front, last := entries[..|entries| - 1], entries[|entries| - 1];
      assert entries == front + [last];
      DeletedIsNotJudged(front, r);
    }
  }

  /** handleCustomResourceWarmup: the warmup goes on exactly when some resource holds the
      workloads up; whatever changed was released after earning it; and what nothing waits
      for is no longer warming up. */
  method HandleWarmup(entries: seq<Entry>, check: Check, around: Surroundings, ghost all: set<LiveResource>)
    returns (stillWarmingUp: bool)
    requires Within(entries, all)
    modifies all
    ensures stillWarmingUp <==> exists r :: r in all && HoldsUp(entries, r, old(r.Snapshot()), check, around)
    ensures forall r :: r in all ==>
              (r.Snapshot() == old(r.Snapshot()) || Released(old(r.Snapshot()), r.Snapshot(), entries, r, check, around))
    ensures forall r :: r in all && !HoldsUp(entries, r, old(r.Snapshot()), check, around) ==>
              DoneWarming(entries, r, r.Snapshot(), check)
    ensures forall r :: r in all && (!around.accepts(r) || OnlyDeleted(entries, r)) ==> r.Snapshot() == old(r.Snapshot())
  {
    stillWarmingUp := false;
    var readiness: map<string, bool> := map[];
    for i := 0 to |entries|
      invariant Agrees(readiness, around)
      invariant stillWarmingUp <==> exists r :: r in all && JudgedBy(entries[..i], r, old(r.Snapshot()), check, around).1
      invariant forall r :: r in all ==> r.Snapshot() == JudgedBy(entries[..i], r, old(r.Snapshot()), check, around).0
    {
      var entry := entries[i];
      assert entries[..i + 1][..i] == entries[..i];
      if !entry.delete && entry.toJudge.Some? {
        var waiting;
        waiting, readiness := JudgeMatches(entry.toJudge.value, entry, check, around, readiness, all);
        stillWarmingUp := stillWarmingUp || waiting;
      }
    }
    assert entries[..|entries|] == entries;
    forall r | r in all
      ensures JudgedBy(entries, r, old(r.Snapshot()), check, around).1 <==> HoldsUp(entries, r, old(r.Snapshot()), check, around)
      ensures r.Snapshot() == old(r.Snapshot()) || Released(old(r.Snapshot()), r.Snapshot(), entries, r, check, around)
      ensures !HoldsUp(entries, r, old(r.Snapshot()), check, around) ==> DoneWarming(entries, r, r.Snapshot(), check)
      ensures !around.accepts(r) || OnlyDeleted(entries, r) ==> r.Snapshot() == old(r.Snapshot())
    {
      JudgedByMeans(entries, r, old(r.Snapshot()), check, around);
      if OnlyDeleted(entries, r) { DeletedIsNotJudged(entries, r); }
    }
  }

  // ---- the up phases of a reconcile --------------------------------------------------------------

  /** Both listings of the entry came back with the resource in them. */
  predicate Covers(e: Entry, r: LiveResource) {
    ToRestore(e, r) && ToJudge(e, r)
  }

  /** The resource no longer stands in the way of the workloads: it is not warming up, and
      it is down only if it could not be restored. */
  ghost predicate OutOfTheWay(s: Resource, schedule: string, accepted: bool) {
    !IsWarming(s, schedule) && (IsDown(s, schedule) ==> Excused(s, accepted))
  }

  /** How the up phases may leave a resource: as it was, restored, or released. */
  ghost predicate Progressed(before: Resource, after: Resource, entries: seq<Entry>, r: LiveResource, check: Check, around: Surroundings) {
    MayRestore(before, after, check.schedule, check.now, around.accepts(r)) ||
    (around.accepts(r) && Released(before, after, entries, r, check, around))
  }

  /** integrationsUp. It defers exactly when some resource was just restored or one holds
      the workloads up; in particular a refused restore does not make it defer. Whether it
      defers or not, every listed resource that can be restored no longer is down. Unless
      it defers, every covered resource is out of the way. */
  method IntegrationsUp(entries: seq<Entry>, check: Check, around: Surroundings, ghost all: set<LiveResource>) returns (deferred: bool)
    requires Within(entries, all)
    modifies all
    ensures deferred <==>
              (exists r :: r in all && Transitioned(old(r.Snapshot()), r.Snapshot(), check.schedule)) ||
              exists r :: r in all && HoldsUp(entries, r, old(r.Snapshot()), check, around)
    ensures forall e, r :: e in entries && ToRestore(e, r) && IsDown(r.Snapshot(), check.schedule) ==>
              Excused(r.Snapshot(), around.accepts(r))
    ensures !deferred ==> forall e, r :: e in entries && Covers(e, r) ==> OutOfTheWay(r.Snapshot(), check.schedule, around.accepts(r))
    ensures forall r :: r in all ==> Progressed(old(r.Snapshot()), r.Snapshot(), entries, r, check, around)
    ensures forall r :: r in all && OnlyDeleted(entries, r) ==> r.Snapshot() == old(r.Snapshot())
  {
    if |entries| == 0 { return false; }
    var transitioned := CustomResourcesUp(entries, check.schedule, check.now, around, all);
    if transitioned { return true; }
    label Restored:
    assert forall r :: r in all && (IsWarming(old(r.Snapshot()), check.schedule) || IsWarming(r.Snapshot(), check.schedule)) ==>
        r.Snapshot() == old(r.Snapshot());
    deferred := HandleWarmup(entries, check, around, all);
    forall r | r in all
      ensures HoldsUp(entries, r, old(r.Snapshot()), check, around) <==> HoldsUp(entries, r, old@Restored(r.Snapshot()), check, around)
      ensures !Transitioned(old(r.Snapshot()), r.Snapshot(), check.schedule)
      ensures IsDown(r.Snapshot(), check.schedule) ==> r.Snapshot() == old@Restored(r.Snapshot())
      ensures Progressed(old(r.Snapshot()), r.Snapshot(), entries, r, check, around)
    {
    }
  }

  /** warmupMayStart */
  predicate WarmupMayStart(up: bool, deferred: bool, stop: Stop) {
    up && !deferred && stop == Finished
  }

  /** What an up reconcile did with the workloads. */
  datatype Scaled = Scaled(after: Cluster, progress: Option<Progress>, stop: Stop, warmup: bool)

  /** The up phases of Reconcile, in their order. The workloads are visited, by the pass,
      exactly when no resource was just restored and none holds them up; then every covered
      resource is out of the way. The GitOps warmup starts only after a pass that visited
      them all. A deferred reconcile touches no workload and stores no record. */
  method ReconcileUp(entries: seq<Entry>, check: Check, around: Surroundings,
                     cfg: Config, cluster: Cluster, order: seq<Id>, carried: Option<Progress>, ghost all: set<LiveResource>)
    returns (deferred: bool, result: Scaled)
    requires Within(entries, all) && cfg.up && AllIn(order, cluster)
    modifies all
    ensures deferred <==>
              (exists r :: r in all && Transitioned(old(r.Snapshot()), r.Snapshot(), check.schedule)) ||
              exists r :: r in all && HoldsUp(entries, r, old(r.Snapshot()), check, around)
    ensures forall e, r :: e in entries && ToRestore(e, r) && IsDown(r.Snapshot(), check.schedule) ==>
              Excused(r.Snapshot(), around.accepts(r))
    ensures deferred ==> result == Scaled(cluster, None, Finished, false)
    ensures !deferred ==>
              var (end, stop) := Pass(cfg, cluster, order, carried);
              result == Scaled(end.cluster, end.progress, stop, stop == Finished)
    ensures !deferred ==> forall e, r :: e in entries && Covers(e, r) ==> OutOfTheWay(r.Snapshot(), check.schedule, around.accepts(r))
    ensures forall r :: r in all ==> Progressed(old(r.Snapshot()), r.Snapshot(), entries, r, check, around)
    ensures forall r :: r in all && OnlyDeleted(entries, r) ==> r.Snapshot() == old(r.Snapshot())
  {
    deferred := IntegrationsUp(entries, check, around, all);
    if deferred {
      result := Scaled(cluster, None, Finished, WarmupMayStart(true, deferred, Finished));
    } else {
      var stop, after, progress, processed, skipped, failed := RunPass(cfg, cluster, order, carried);
      result := Scaled(after, progress, stop, WarmupMayStart(cfg.up, deferred, stop));
    }
  }

  // ---- how long a release waits --------------------------------------------------------------------

  /** In every run of a resource, a start time it carries is the stored instant of an
      earlier restore. */
  lemma {:induction false} WarmupStartIsStored(history: seq<Resource>, steps: seq<Step>, i: nat)
    requires IsRun(history, steps) && i < |history| && history[0] == Cleared(history[0])
    ensures history[i].warmingUpSince.Some? ==> exists k :: 0 <= k < i && StartedAt(steps[k], history[i].warmingUpSince.value)
  {
    if i > 0 {
      WarmupStartIsStored(history, steps, i - 1);
      var step := steps[i - 1];
      assert Possible(history[i - 1], step) && history[i] == Next(history[i - 1], step);
      if history[i].warmingUpSince.Some? && history[i].warmingUpSince != history[i - 1].warmingUpSince {
        assert StartedAt(step, history[i].warmingUpSince.value);
      }
    }
  }

  predicate StartedAt(step: Step, since: Instant) {
    (step.UpStep? || step.CleanUpStep?) && since == Stored(step.now)
  }

  /** A release without readiness comes after the timeout, counted from an earlier restore
      of this resource, less the fraction of a second its stored start lost. */
  lemma TimeoutReleaseWaits(history: seq<Resource>, steps: seq<Step>, i: nat, readyWhen: seq<FieldMatch>,
                            scanned: Option<(bool, bool)>, now: Instant, timeout: Duration)
    requires IsRun(history, steps) && i < |history| && history[0] == Cleared(history[0])
    requires history[i].warmingUpSince.Some? && Earned(history[i], readyWhen, scanned, now, timeout)
    ensures IsReady(history[i], readyWhen, scanned) ||
            exists k :: 0 <= k < i && (steps[k].UpStep? || steps[k].CleanUpStep?) && now - steps[k].now > timeout - SECOND
  {
    WarmupStartIsStored(history, steps, i);
    var k :| 0 <= k < i && StartedAt(steps[k], history[i].warmingUpSince.value);
  }

  /** In every run from an unmanaged resource the captured fields can be put back, so only
      a refused write excuses a resource that stays down. */
  lemma AlwaysRestorable(history: seq<Resource>, steps: seq<Step>, i: nat)
    requires IsRun(history, steps) && i < |history| && history[0] == Cleared(history[0])
    ensures Restorable(history[i])
  {
    RunConserves(history, steps, i);
    var s := history[i];
    if s.log.Some? {
      var d, captured :| Restoration.SameButHollow(history[0].doc, d) && Held(d, s.doc, s.log.value, captured);
      forall order | Lists(order, s.log.value.Keys) ensures PutBackAll(s.doc, s.log.value, order).Some? {
        RestoreHeld(d, s.doc, s.log.value, captured, order);
      }
    }
  }
}
