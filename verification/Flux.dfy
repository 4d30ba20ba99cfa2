// Flux resources: suspended for the down window, kept suspended while warming up, and
// resumed once their workloads are ready or the warmup times out.
module Flux {
  import opened Wrappers
  import opened Json
  import opened Patch
  import opened Scaler
  import opened ScalerRuns
  import opened Clock
  import Decimal

  const STATE: string := "lightsout.techsupport.mk/state"
  const WARMING_UP_SINCE: string := "lightsout.techsupport.mk/warming-up-since"
  const DOWN: string := "down"
  const WARMING_UP: string := "warming-up"

  lemma FluxKeysDistinct()
    ensures STATE != MANAGED_BY && DOWN != WARMING_UP && DOWN != "" && WARMING_UP != ""
  {
    assert |STATE| != |MANAGED_BY| && |DOWN| != |WARMING_UP|;
  }

  function Label(o: Object, k: string): string {
    if k in o.labels then o.labels[k] else ""
  }

  predicate ManagedByOther(o: Object, schedule: string) {
    MANAGED_BY in o.labels && o.labels[MANAGED_BY] != schedule
  }

  // ---- the patches ------------------------------------------------------------------------

  function SuspendFluxPatch(schedule: string): ObjectPatch {
    ObjectPatch(map[STATE := DOWN, MANAGED_BY := schedule], map[], [WARMING_UP_SINCE], [], map[SUSPEND := Bool(true)])
  }

  /** The start is stored with whole seconds; its text is taken as the decimal instant. */
  function WarmingUpPatch(schedule: string, now: Instant): ObjectPatch {
    ObjectPatch(map[STATE := WARMING_UP, MANAGED_BY := schedule], map[WARMING_UP_SINCE := Decimal.Itoa(Stored(now))], [], [], map[])
  }

  function ResumeFluxPatch(): ObjectPatch {
    ObjectPatch(map[], map[], [WARMING_UP_SINCE], [STATE, MANAGED_BY], map[SUSPEND := Bool(false)])
  }

  // ---- the decisions ------------------------------------------------------------------------

  /** SuspendFluxResource */
  function DecideSuspendFlux(o: Object, schedule: string): Option<ObjectPatch> {
    if ManagedByOther(o, schedule) then None
    else if Suspended(o) && Label(o, MANAGED_BY) == "" then None
    else if Suspended(o) && Label(o, STATE) == DOWN && Label(o, MANAGED_BY) == schedule then None
    else Some(SuspendFluxPatch(schedule))
  }

  /** TransitionFluxResourceToWarmingUp */
  function DecideWarmingUp(o: Object, schedule: string, now: Instant): Option<ObjectPatch> {
    if ManagedByOther(o, schedule) then None
    else if Label(o, STATE) == WARMING_UP && Label(o, MANAGED_BY) == schedule then None
    else Some(WarmingUpPatch(schedule, now))
  }

  /** When the warmup started: the recorded instant, or now if it is missing or malformed. */
  function WarmingSince(o: Object, now: Instant): Instant {
    if WARMING_UP_SINCE !in o.annotations then now
    else
      match Decimal.Atoi(o.annotations[WARMING_UP_SINCE])
      case Some(t) => t
      case None => now
  }

  /** What handleFluxCDWarmup makes of one resource. ready is the verdict on its target
      namespace, None when that cannot be read. */
  datatype Warmup = NotOurs | Waiting | Write(patch: ObjectPatch, done: bool)

  function DecideWarmup(o: Object, schedule: string, now: Instant, timeout: Duration, ready: Option<bool>): Warmup {
    if Label(o, MANAGED_BY) != schedule then NotOurs
    else if Label(o, STATE) == WARMING_UP then
      if now - WarmingSince(o, now) >= timeout || ready == Some(true) then Write(ResumeFluxPatch(), true) else Waiting
    else
      match DecideWarmingUp(o, schedule, now)
      case Some(p) => Write(p, false)
      case None => Waiting
  }

  /** ResumeFluxResource, at cleanup. */
  function DecideResumeFlux(o: Object, schedule: string): Option<ObjectPatch> {
    if MANAGED_BY !in o.labels || o.labels[MANAGED_BY] != schedule then None else Some(ResumeFluxPatch())
  }

  // ---- the warmup loop -------------------------------------------------------------------------

  /** The resource after its turn, and whether it keeps the reconciler polling. */
  function Handled(o: Object, schedule: string, now: Instant, timeout: Duration, ready: Option<bool>, ok: bool): (Object, bool) {
    match DecideWarmup(o, schedule, now, timeout, ready)
    case NotOurs => (o, false)
    case Waiting => (o, true)
    case Write(p, done) => (if ok then Patched(o, p) else o, !done || !ok)
  }

  method HandleOne(obj: ApiObject, schedule: string, now: Instant, timeout: Duration, ready: Option<bool>, accept: bool)
    returns (waiting: bool)
    modifies obj
    ensures (obj.content, waiting) == Handled(old(obj.content), schedule, now, timeout, ready, accept)
  {
    match DecideWarmup(obj.content, schedule, now, timeout, ready)
    case NotOurs => waiting := false;
    case Waiting => waiting := true;
    case Write(p, done) =>
      var ok := obj.ApplyMergePatch(p, accept);
      waiting := !done || !ok;
  }

  /** handleFluxCDWarmup over the discovered resources; ready and accept give, resource by
      resource, the readiness read and whether its patch is accepted. */
  method HandleFluxWarmup(resources: seq<ApiObject>, schedule: string, now: Instant, timeout: Duration,
                          ready: seq<Option<bool>>, accept: seq<bool>)
    returns (stillWarmingUp: bool)
    requires |ready| == |accept| == |resources|
    requires forall i, j :: 0 <= i < j < |resources| ==> resources[i] != resources[j]
    modifies resources
    ensures forall i :: 0 <= i < |resources| ==>
              resources[i].content == Handled(old(resources[i].content), schedule, now, timeout, ready[i], accept[i]).0
    ensures stillWarmingUp <==>
            exists i :: 0 <= i < |resources| && Handled(old(resources[i].content), schedule, now, timeout, ready[i], accept[i]).1
  {
    ghost var results := seq(|resources|, i requires 0 <= i < |resources| reads resources =>
      Handled(resources[i].content, schedule, now, timeout, ready[i], accept[i]));
    stillWarmingUp := false;
    for n := 0 to |resources|
      invariant forall i :: n <= i < |resources| ==> resources[i].content == old(resources[i].content)
      invariant forall i :: 0 <= i < n ==> resources[i].content == results[i].0
      invariant stillWarmingUp <==> exists i :: 0 <= i < n && results[i].1
    {
      var obj := resources[n];
      assert forall i :: 0 <= i < |resources| && i != n ==> resources[i] != obj;
      ghost var expected := Handled(obj.content, schedule, now, timeout, ready[n], accept[n]);
      assert results[n] == expected;
      var waiting := HandleOne(obj, schedule, now, timeout, ready[n], accept[n]);
      assert obj.content == expected.0 && waiting == expected.1;
      stillWarmingUp := stillWarmingUp || waiting;
    }
  }

  // ---- every run -----------------------------------------------------------------------------------

  datatype FluxAction =
    | SuspendAction(schedule: string, read: nat, ok: bool)
    | WarmupAction(schedule: string, read: nat, now: Instant, timeout: Duration, ready: Option<bool>, ok: bool)
    | CleanUpAction(schedule: string, read: nat, ok: bool)

  function PatchOf(read: Object, a: FluxAction): Option<ObjectPatch> {
    match a
    case SuspendAction(schedule, _, _) => DecideSuspendFlux(read, schedule)
    case WarmupAction(schedule, _, now, timeout, ready, _) =>
      var w := DecideWarmup(read, schedule, now, timeout, ready);
      if w.Write? then Some(w.patch) else None
    case CleanUpAction(schedule, _, _) => DecideResumeFlux(read, schedule)
  }

  function FluxAct(read: Object, stored: Object, a: FluxAction): Object {
    var p := PatchOf(read, a);
    if p.Some? && a.ok then Patched(stored, p.value) else stored
  }

  predicate IsFluxRun(history: seq<Object>, actions: seq<FluxAction>) {
    |history| == |actions| + 1 &&
    forall i :: 0 <= i < |actions| ==>
      actions[i].schedule != "" && actions[i].read <= i &&
      history[i + 1] == FluxAct(history[actions[i].read], history[i], actions[i])
  }

  lemma FluxPatches(o: Object, schedule: string, now: Instant)
    ensures var down := Patched(o, SuspendFluxPatch(schedule));
            MANAGED_BY in down.labels && down.labels[MANAGED_BY] == schedule && Label(down, STATE) == DOWN && Suspended(down)
    ensures var warming := Patched(o, WarmingUpPatch(schedule, now));
            MANAGED_BY in warming.labels && warming.labels[MANAGED_BY] == schedule &&
            Label(warming, STATE) == WARMING_UP && warming.spec == o.spec &&
            WARMING_UP_SINCE in warming.annotations && warming.annotations[WARMING_UP_SINCE] == Decimal.Itoa(Stored(now))
    ensures var up := Patched(o, ResumeFluxPatch());
            MANAGED_BY !in up.labels && STATE !in up.labels && WARMING_UP_SINCE !in up.annotations && !Suspended(up)
  {
    FluxKeysDistinct();
    SpecScalar(o.spec, SUSPEND, Bool(true));
    SpecScalar(o.spec, SUSPEND, Bool(false));
    SpecKept(o.spec);
    assert ResumeFluxPatch().removeLabels[0] == STATE && ResumeFluxPatch().removeLabels[1] == MANAGED_BY;
    assert ResumeFluxPatch().removeAnnotations[0] == WARMING_UP_SINCE;
  }

  lemma PatchCases(read: Object, a: FluxAction)
    requires PatchOf(read, a).Some?
    ensures PatchOf(read, a).value == SuspendFluxPatch(a.schedule) ||
            (a.WarmupAction? && PatchOf(read, a).value == WarmingUpPatch(a.schedule, a.now)) ||
            PatchOf(read, a).value == ResumeFluxPatch()
  {
  }

  /** A resource its user suspended is never written, by any schedules on copies of any
      age. */
  lemma {:induction false} UserSuspendedUntouched(history: seq<Object>, actions: seq<FluxAction>, i: nat)
    requires IsFluxRun(history, actions) && i < |history|
    requires MANAGED_BY !in history[0].labels && Suspended(history[0])
    ensures forall j :: 0 <= j <= i ==> history[j] == history[0]
  {
    if i > 0 {
      UserSuspendedUntouched(history, actions, i - 1);
      assert history[i] == FluxAct(history[actions[i - 1].read], history[i - 1], actions[i - 1]);
    }
  }

  predicate MarkedWhileSuspended(o: Object) {
    if MANAGED_BY in o.labels then o.labels[MANAGED_BY] != "" else !Suspended(o)
  }

  lemma MarkStep(stored: Object, read: Object, a: FluxAction)
    requires MarkedWhileSuspended(stored) && a.schedule != ""
    ensures MarkedWhileSuspended(FluxAct(read, stored, a))
  {
    if PatchOf(read, a).Some? {
      PatchCases(read, a);
      FluxPatches(stored, a.schedule, if a.WarmupAction? then a.now else 0);
    }
  }

  /** A resource its user left running is, at every point of every run, running or under
      some schedule's mark: lightsout never leaves one suspended that nothing resumes. */
  lemma {:induction false} SuspendedOnlyUnderMark(history: seq<Object>, actions: seq<FluxAction>, i: nat)
    requires IsFluxRun(history, actions) && i < |history|
    requires MANAGED_BY !in history[0].labels && !Suspended(history[0])
    ensures MarkedWhileSuspended(history[i])
  {
    if i > 0 {
      SuspendedOnlyUnderMark(history, actions, i - 1);
      MarkStep(history[i - 1], history[actions[i - 1].read], actions[i - 1]);
    }
  }

  predicate FreshReads(actions: seq<FluxAction>) {
    forall i :: 0 <= i < |actions| ==> actions[i].read == i
  }

  /** The text is the stored instant of one of the first n actions, a warmup. */
  ghost predicate WarmupBegan(actions: seq<FluxAction>, n: nat, text: string)
    requires n <= |actions|
  {
    exists k :: 0 <= k < n && actions[k].WarmupAction? && text == Decimal.Itoa(Stored(actions[k].now))
  }

  /** Marked means suspended, and down or warming up; a warming-up resource carries the
      stored instant of a warmup action. */
  ghost predicate HeldSuspended(o: Object, actions: seq<FluxAction>, n: nat)
    requires n <= |actions|
  {
    if MANAGED_BY in o.labels then
      Suspended(o) &&
      (Label(o, STATE) == DOWN ||
       (Label(o, STATE) == WARMING_UP && WARMING_UP_SINCE in o.annotations &&
        WarmupBegan(actions, n, o.annotations[WARMING_UP_SINCE])))
    else !Suspended(o)
  }

  /** What the three patches make of a resource that is held as above. */
  lemma PatchedStaysHeld(o: Object, actions: seq<FluxAction>, n: nat, p: ObjectPatch)
    requires n < |actions| && HeldSuspended(o, actions, n)
    requires var a := actions[n];
             p == SuspendFluxPatch(a.schedule) || p == ResumeFluxPatch() ||
             (a.WarmupAction? && MANAGED_BY in o.labels && p == WarmingUpPatch(a.schedule, a.now))
    ensures HeldSuspended(Patched(o, p), actions, n + 1)
  {
    var a := actions[n];
    FluxPatches(o, a.schedule, if a.WarmupAction? then a.now else 0);
  }

  lemma WarmingNeedsMark(o: Object, a: FluxAction)
    requires a.WarmupAction? && a.schedule != "" && PatchOf(o, a) == Some(WarmingUpPatch(a.schedule, a.now))
    ensures MANAGED_BY in o.labels
  {
    FluxPatches(o, a.schedule, a.now);
  }

  lemma StaysHeld(o: Object, actions: seq<FluxAction>, n: nat)
    requires n < |actions| && actions[n].schedule != "" && HeldSuspended(o, actions, n)
    ensures HeldSuspended(FluxAct(o, o, actions[n]), actions, n + 1)
  {
    var a, p := actions[n], PatchOf(o, actions[n]);
    if p.Some? && a.ok {
      PatchCases(o, a);
      if a.WarmupAction? && p.value == WarmingUpPatch(a.schedule, a.now) { WarmingNeedsMark(o, a); }
      PatchedStaysHeld(o, actions, n, p.value);
    }
  }

  /** On fresh reads a resource lightsout took stays suspended, through down and warming
      up, until a release takes mark and suspension away together. */
  lemma {:induction false} StaysSuspended(history: seq<Object>, actions: seq<FluxAction>, i: nat)
    requires IsFluxRun(history, actions) && FreshReads(actions) && i < |history|
    requires MANAGED_BY !in history[0].labels && !Suspended(history[0])
    ensures HeldSuspended(history[i], actions, i)
  {
    if i > 0 {
      StaysSuspended(history, actions, i - 1);
      StaysHeld(history[i - 1], actions, i - 1);
      assert history[i] == FluxAct(history[i - 1], history[i - 1], actions[i - 1]);
    }
  }

  /** Taken down by the schedule, or warming up under its mark. */
  predicate IsIn(o: Object, schedule: string, state: string) {
    Label(o, MANAGED_BY) == schedule && Label(o, STATE) == state
  }

  lemma TakenDown(o: Object, a: FluxAction) returns (down: Object)
    requires a.SuspendAction? && a.ok && a.schedule != "" && MANAGED_BY !in o.labels && !Suspended(o)
    ensures FluxAct(o, o, a) == down && IsIn(down, a.schedule, DOWN)
  {
    FluxKeysDistinct();
    FluxPatches(o, a.schedule, 0);
    down := Patched(o, SuspendFluxPatch(a.schedule));
  }

  /** A warmup decided on a copy that is down marks whatever is stored as warming up. */
  lemma MarkedWarming(read: Object, stored: Object, a: FluxAction) returns (after: Object)
    requires a.WarmupAction? && a.ok && a.schedule != "" && IsIn(read, a.schedule, DOWN)
    ensures FluxAct(read, stored, a) == after && IsIn(after, a.schedule, WARMING_UP) && after.spec == stored.spec
  {
    FluxKeysDistinct();
    FluxPatches(stored, a.schedule, a.now);
    after := Patched(stored, WarmingUpPatch(a.schedule, a.now));
  }

  lemma ReadyIsReleased(o: Object, a: FluxAction) returns (after: Object)
    requires a.WarmupAction? && a.ok && a.schedule != "" && a.ready == Some(true) && IsIn(o, a.schedule, WARMING_UP)
    ensures FluxAct(o, o, a) == after && MANAGED_BY !in after.labels && !Suspended(after)
  {
    FluxPatches(o, a.schedule, a.now);
    after := Patched(o, ResumeFluxPatch());
  }

  /** On stale copies it may not: a warmup decided on a copy from before the release marks a
      resource that already runs again. */
  lemma StaleWarmupMarksRunning(o: Object, schedule: string, now: Instant)
    returns (history: seq<Object>, actions: seq<FluxAction>)
    requires schedule != "" && MANAGED_BY !in o.labels && !Suspended(o)
    ensures IsFluxRun(history, actions) && |history| == 5 && history[0] == o
    ensures MANAGED_BY !in history[3].labels && !Suspended(history[3])
    ensures IsIn(history[4], schedule, WARMING_UP) && !Suspended(history[4])
  {
    history, actions := DownThenWarming(o, schedule, now);
    var release, again := WarmupAction(schedule, 2, now, SECOND, Some(true), true), WarmupAction(schedule, 1, now, SECOND, Some(true), true);
    var released := ReadyIsReleased(history[2], release);
    var marked := MarkedWarming(history[1], released, again);
    history, actions := RunGrows(history, actions, release, released);
    history, actions := RunGrows(history, actions, again, marked);
  }

  lemma DownThenWarming(o: Object, schedule: string, now: Instant)
    returns (history: seq<Object>, actions: seq<FluxAction>)
    requires schedule != "" && MANAGED_BY !in o.labels && !Suspended(o)
    ensures IsFluxRun(history, actions) && |history| == 3 && history[0] == o
    ensures IsIn(history[1], schedule, DOWN) && IsIn(history[2], schedule, WARMING_UP)
  {
    var take, warm := SuspendAction(schedule, 0, true), WarmupAction(schedule, 1, now, SECOND, Some(true), true);
    var down := TakenDown(o, take);
    var warming := MarkedWarming(down, down, warm);
    history, actions := RunGrows([o], [], take, down);
    history, actions := RunGrows(history, actions, warm, warming);
  }

  /** One more action continues a run. */
  lemma RunGrows(history: seq<Object>, actions: seq<FluxAction>, a: FluxAction, next: Object)
    returns (longer: seq<Object>, more: seq<FluxAction>)
    requires IsFluxRun(history, actions) && a.schedule != "" && a.read < |history|
    requires next == FluxAct(history[a.read], history[|history| - 1], a)
    ensures longer == history + [next] && more == actions + [a] && IsFluxRun(longer, more)
  {
    longer, more := history + [next], actions + [a];
    forall i | 0 <= i < |more|
      ensures more[i].schedule != "" && more[i].read <= i && longer[i + 1] == FluxAct(longer[more[i].read], longer[i], more[i])
    {
      if i < |actions| {
        assert actions[i].schedule != "" && history[i + 1] == FluxAct(history[actions[i].read], history[i], actions[i]);
      }
    }
  }

  // ---- release ---------------------------------------------------------------------------------------

  /** Marked and warming up means the start of some earlier warmup action is recorded. */
  ghost predicate StartRecorded(o: Object, actions: seq<FluxAction>, n: nat)
    requires n <= |actions|
  {
    MANAGED_BY in o.labels && Label(o, STATE) == WARMING_UP ==>
      WARMING_UP_SINCE in o.annotations && WarmupBegan(actions, n, o.annotations[WARMING_UP_SINCE])
  }

  lemma PatchedKeepsStart(stored: Object, actions: seq<FluxAction>, n: nat, p: ObjectPatch)
    requires n < |actions| && StartRecorded(stored, actions, n)
    requires var a := actions[n];
             p == SuspendFluxPatch(a.schedule) || p == ResumeFluxPatch() ||
             (a.WarmupAction? && p == WarmingUpPatch(a.schedule, a.now))
    ensures StartRecorded(Patched(stored, p), actions, n + 1)
  {
    var a := actions[n];
    FluxKeysDistinct();
    FluxPatches(stored, a.schedule, if a.WarmupAction? then a.now else 0);
  }

  lemma {:induction false} StartsAreRecorded(history: seq<Object>, actions: seq<FluxAction>, i: nat)
    requires IsFluxRun(history, actions) && i < |history| && MANAGED_BY !in history[0].labels
    ensures forall j {:trigger history[j]} :: 0 <= j <= i ==> StartRecorded(history[j], actions, i)
  {
    if i > 0 {
      StartsAreRecorded(history, actions, i - 1);
      var a, read, stored := actions[i - 1], history[actions[i - 1].read], history[i - 1];
      assert history[i] == FluxAct(read, stored, a);
      if PatchOf(read, a).Some? && a.ok {
        PatchCases(read, a);
        PatchedKeepsStart(stored, actions, i - 1, PatchOf(read, a).value);
      } else {
        assert history[i] == stored;
      }
    }
  }

  /** One action that ends a suspension is a resume decided on the copy it read. */
  lemma EndsOnlyByRelease(read: Object, stored: Object, a: FluxAction)
    requires Suspended(stored) && !Suspended(FluxAct(read, stored, a))
    ensures PatchOf(read, a) == Some(ResumeFluxPatch()) && a.ok && FluxAct(read, stored, a) == Patched(stored, ResumeFluxPatch())
  {
    if PatchOf(read, a).Some? {
      PatchCases(read, a);
      FluxPatches(stored, a.schedule, if a.WarmupAction? then a.now else 0);
    }
  }

  /** A resume outside cleanup is decided on a copy of the schedule's own, warming up, with
      the namespace ready or the timeout over. */
  lemma ResumeNeedsWarmup(read: Object, a: FluxAction)
    requires a.WarmupAction? && PatchOf(read, a) == Some(ResumeFluxPatch())
    ensures Label(read, MANAGED_BY) == a.schedule && Label(read, STATE) == WARMING_UP
    ensures a.ready == Some(true) || a.now - WarmingSince(read, a.now) >= a.timeout
  {
    assert SUSPEND in ResumeFluxPatch().spec && SUSPEND !in WarmingUpPatch(a.schedule, a.now).spec;
  }

  /** Over every run of any schedules on copies of any age: the step at which a resource
      stops being suspended removes every mark with the suspension, and is decided on a
      copy that carries the schedule's own mark. */
  lemma ReleaseTakesMarksAway(history: seq<Object>, actions: seq<FluxAction>, i: nat)
    requires IsFluxRun(history, actions) && i < |actions|
    requires Suspended(history[i]) && !Suspended(history[i + 1])
    ensures var o := history[i + 1];
            MANAGED_BY !in o.labels && STATE !in o.labels && WARMING_UP_SINCE !in o.annotations
    ensures !actions[i].SuspendAction? && actions[i].ok && Label(history[actions[i].read], MANAGED_BY) == actions[i].schedule
  {
    var a, read := actions[i], history[actions[i].read];
    EndsOnlyByRelease(read, history[i], a);
    FluxPatches(history[i], a.schedule, 0);
    if a.WarmupAction? { ResumeNeedsWarmup(read, a); }
    assert ResumeFluxPatch().spec[SUSPEND] != SuspendFluxPatch(a.schedule).spec[SUSPEND];
  }

  /** Over every such run a release outside cleanup is earned: the namespace was read ready,
      or the timeout has passed since the stored instant of an earlier warmup action. */
  lemma ReleaseIsEarned(history: seq<Object>, actions: seq<FluxAction>, i: nat)
    requires IsFluxRun(history, actions) && i < |actions|
    requires MANAGED_BY !in history[0].labels
    requires actions[i].WarmupAction? && Suspended(history[i]) && !Suspended(history[i + 1])
    ensures actions[i].ready == Some(true) ||
            exists k :: 0 <= k < i && actions[k].WarmupAction? && actions[i].now - Stored(actions[k].now) >= actions[i].timeout
  {
    var a, read := actions[i], history[actions[i].read];
    EndsOnlyByRelease(read, history[i], a);
    ResumeNeedsWarmup(read, a);
    StartsAreRecorded(history, actions, i);
    assert StartRecorded(read, actions, i);
    var k :| 0 <= k < i && actions[k].WarmupAction? &&
      read.annotations[WARMING_UP_SINCE] == Decimal.Itoa(Stored(actions[k].now));
    Decimal.AtoiInvertsItoa(Stored(actions[k].now));
  }
}
