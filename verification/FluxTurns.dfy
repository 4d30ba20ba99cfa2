// What one turn makes of a Flux resource, and how long lightsout can hold one.
module FluxTurns {
  import opened Wrappers
  import opened Json
  import opened Patch
  import opened Clock
  import opened Scaler
  import opened ScalerRuns
  import opened Flux
  import Decimal

  /** The labels name the schedule and the state. */
  predicate InState(o: Object, schedule: string, state: string) {
    MANAGED_BY in o.labels && o.labels[MANAGED_BY] == schedule && STATE in o.labels && o.labels[STATE] == state
  }

  predicate StartedAt(o: Object, since: Instant) {
    WARMING_UP_SINCE in o.annotations && o.annotations[WARMING_UP_SINCE] == Decimal.Itoa(since)
  }

  /** Running, with no mark left. */
  predicate RunsFree(o: Object) {
    Field(o.spec, SUSPEND) == Some(Bool(false)) && MANAGED_BY !in o.labels && STATE !in o.labels && WARMING_UP_SINCE !in o.annotations
  }

  predicate SpecElsewhere(before: Object, after: Object) {
    after.spec - {SUSPEND} == before.spec - {SUSPEND}
  }

  lemma ResumeFrees(o: Object)
    ensures RunsFree(Patched(o, ResumeFluxPatch())) && SpecElsewhere(o, Patched(o, ResumeFluxPatch()))
  {
    var p := ResumeFluxPatch();
    SpecOthersKept(o.spec, SUSPEND, Bool(false));
    assert p.removeLabels[0] == STATE && p.removeLabels[1] == MANAGED_BY && p.removeAnnotations[0] == WARMING_UP_SINCE;
  }

  lemma SuspendHolds(o: Object, schedule: string)
    ensures var after := Patched(o, SuspendFluxPatch(schedule));
            InState(after, schedule, DOWN) && Field(after.spec, SUSPEND) == Some(Bool(true)) && SpecElsewhere(o, after) &&
            WARMING_UP_SINCE !in after.annotations
  {
    FluxKeysDistinct();
    SpecOthersKept(o.spec, SUSPEND, Bool(true));
    assert SuspendFluxPatch(schedule).removeAnnotations[0] == WARMING_UP_SINCE;
  }

  lemma WarmingStarts(o: Object, schedule: string, now: Instant)
    ensures var after := Patched(o, WarmingUpPatch(schedule, now));
            InState(after, schedule, WARMING_UP) && StartedAt(after, Stored(now)) && after.spec == o.spec
  {
    FluxKeysDistinct();
    SpecKept(o.spec);
  }

  /** One accepted turn of the schedule's own resource in its warmup: it runs again, with no
      mark left and not waited for, if and only if its namespace was read ready or the
      timeout has passed since the recorded start. Otherwise it is as it was, and waited
      for. A namespace that cannot be read is not ready. */
  lemma WarmupEndsExactly(o: Object, schedule: string, since: Instant, now: Instant, timeout: Duration, ready: Option<bool>)
    requires schedule != "" && InState(o, schedule, WARMING_UP) && StartedAt(o, since)
    ensures var (after, waiting) := Handled(o, schedule, now, timeout, ready, true);
            (RunsFree(after) && !waiting <==> ready == Some(true) || now - since >= timeout) &&
            (if RunsFree(after) then SpecElsewhere(o, after) else after == o && waiting)
  {
    Decimal.AtoiInvertsItoa(since);
    ResumeFrees(o);
  }

  /** No start that reads as an instant is recorded. */
  predicate Unstarted(o: Object) {
    WARMING_UP_SINCE in o.annotations ==> Decimal.Atoi(o.annotations[WARMING_UP_SINCE]).None?
  }

  /** Without a start that can be read only the namespace ends the warmup: the timeout does
      not run. */
  lemma UnstartedWaits(o: Object, schedule: string, now: Instant, timeout: Duration, ready: Option<bool>)
    requires schedule != "" && InState(o, schedule, WARMING_UP) && Unstarted(o) && timeout > 0
    ensures var (after, waiting) := Handled(o, schedule, now, timeout, ready, true);
            if ready == Some(true) then RunsFree(after) && !waiting else after == o && waiting
  {
    ResumeFrees(o);
  }

  /** Cleanup frees exactly the schedule's own resources. */
  lemma CleanUpFrees(o: Object, schedule: string, read: nat)
    ensures var after := FluxAct(o, o, CleanUpAction(schedule, read, true));
            if MANAGED_BY in o.labels && o.labels[MANAGED_BY] == schedule then RunsFree(after) && SpecElsewhere(o, after)
            else after == o
  {
    ResumeFrees(o);
  }

  /** One accepted turn in any other state starts a warmup, and keeps it polled for. */
  lemma WarmupBegins(o: Object, schedule: string, now: Instant, timeout: Duration, ready: Option<bool>)
    requires schedule != "" && MANAGED_BY in o.labels && o.labels[MANAGED_BY] == schedule && !InState(o, schedule, WARMING_UP)
    ensures var (after, waiting) := Handled(o, schedule, now, timeout, ready, true);
            InState(after, schedule, WARMING_UP) && StartedAt(after, Stored(now)) && after.spec == o.spec && waiting
  {
    FluxKeysDistinct();
    WarmingStarts(o, schedule, now);
  }

  /** What another schedule marked, or nobody did, is left alone and not waited for; what
      the API refuses is left as it was and waited for if it is the schedule's. */
  lemma OthersAndRefusals(o: Object, schedule: string, now: Instant, timeout: Duration, ready: Option<bool>)
    requires schedule != ""
    ensures MANAGED_BY !in o.labels || o.labels[MANAGED_BY] != schedule ==> forall ok :: Handled(o, schedule, now, timeout, ready, ok) == (o, false)
    ensures MANAGED_BY in o.labels && o.labels[MANAGED_BY] == schedule ==> Handled(o, schedule, now, timeout, ready, false) == (o, true)
  {
  }

  /** What suspending makes of a resource that nobody else marked: suspended and down, with
      no warmup start. One its user suspended, and one already down, is left as it is. */
  lemma SuspendsExactly(o: Object, schedule: string, read: nat)
    requires schedule != "" && (MANAGED_BY in o.labels ==> o.labels[MANAGED_BY] == schedule)
    ensures var after := FluxAct(o, o, SuspendAction(schedule, read, true));
            Field(after.spec, SUSPEND) == Some(Bool(true)) && SpecElsewhere(o, after) &&
            if Field(o.spec, SUSPEND) == Some(Bool(true)) && (MANAGED_BY !in o.labels || InState(o, schedule, DOWN)) then after == o
            else InState(after, schedule, DOWN) && WARMING_UP_SINCE !in after.annotations
  {
    SuspendHolds(o, schedule);
  }

  // ---- how long a hold lasts -----------------------------------------------------------------

  /** The schedule's own accepted suspend. */
  predicate Suspends(a: FluxAction, schedule: string) {
    a.SuspendAction? && a.schedule == schedule && a.ok
  }

  /** Somewhere between the two points the resource ran free. */
  ghost predicate Ended(history: seq<Object>, from: nat, to: nat) {
    exists m {:trigger history[m]} :: from <= m <= to && m < |history| && RunsFree(history[m])
  }

  /** One fresh action on a warming resource leaves it, or frees it, unless it is the
      schedule's own suspend. */
  lemma WarmingTurn(o: Object, a: FluxAction, schedule: string, since: Instant)
    requires schedule != "" && a.schedule != "" && InState(o, schedule, WARMING_UP) && StartedAt(o, since) && !Suspends(a, schedule)
    ensures FluxAct(o, o, a) == o || RunsFree(FluxAct(o, o, a))
  {
    ResumeFrees(o);
  }

  lemma {:induction false} WarmingUntilEnded(history: seq<Object>, actions: seq<FluxAction>, schedule: string, since: Instant, i: nat, k: nat)
    requires IsFluxRun(history, actions) && FreshReads(actions) && i <= k < |history| && schedule != ""
    requires InState(history[i], schedule, WARMING_UP) && StartedAt(history[i], since)
    requires forall j :: i <= j < k ==> !Suspends(actions[j], schedule)
    ensures Ended(history, i, k) || history[k] == history[i]
  {
    if k > i {
      WarmingUntilEnded(history, actions, schedule, since, i, k - 1);
      if history[k - 1] == history[i] {
        WarmingTurn(history[k - 1], actions[k - 1], schedule, since);
        assert history[k] == FluxAct(history[k - 1], history[k - 1], actions[k - 1]);
      }
    }
  }

  /** Every hold ends: in a run on fresh copies, once a warmup action of the schedule has
      begun a warmup, the first accepted one at least the timeout later finds the resource
      running free, or frees it itself, whatever is read of the namespace, unless the
      schedule suspends it again in between. */
  lemma TimeoutEndsHold(history: seq<Object>, actions: seq<FluxAction>, schedule: string, i: nat, k: nat)
    requires IsFluxRun(history, actions) && FreshReads(actions) && i < k < |actions| && schedule != ""
    requires MANAGED_BY in history[i].labels && history[i].labels[MANAGED_BY] == schedule && !InState(history[i], schedule, WARMING_UP)
    requires actions[i].WarmupAction? && actions[i].schedule == schedule && actions[i].ok
    requires actions[k].WarmupAction? && actions[k].schedule == schedule && actions[k].ok
    requires actions[k].now - actions[i].now >= actions[k].timeout
    requires forall j :: i < j < k ==> !Suspends(actions[j], schedule)
    ensures Ended(history, i + 1, k + 1)
  {
    var begin, end := actions[i], actions[k];
    var since := Stored(begin.now);
    WarmupBegins(history[i], schedule, begin.now, begin.timeout, begin.ready);
    WarmupActIsTurn(history[i], begin);
    assert history[i + 1] == FluxAct(history[i], history[i], begin);
    WarmingUntilEnded(history, actions, schedule, since, i + 1, k);
    if history[k] == history[i + 1] {
      WarmupEndsExactly(history[k], schedule, since, end.now, end.timeout, end.ready);
      WarmupActIsTurn(history[k], end);
      assert history[k + 1] == FluxAct(history[k], history[k], end);
    }
  }

  /** A warmup action on a fresh copy is such a turn. */
  lemma WarmupActIsTurn(o: Object, a: FluxAction)
    requires a.WarmupAction?
    ensures FluxAct(o, o, a) == Handled(o, a.schedule, a.now, a.timeout, a.ready, a.ok).0
  {
  }
}
