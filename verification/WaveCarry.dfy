// How the wave record travels from one reconcile to the next through the schedule's
// status, and when the reconciles of one direction form a window of their own.
module WaveCarry {
  import opened Wrappers
  import opened Clock
  import opened SyncWave
  import opened Batcher
  import opened WaveSafety

  /** The part of the schedule's status that concerns waves: the last stored direction and
      record. */
  datatype Status = Status(up: Option<bool>, progress: Option<Progress>)

  /** carriedWaveProgress: only a record of the same direction is carried. */
  function Carried(status: Status, up: bool): Option<Progress> {
    if status.up != Some(up) then None else status.progress
  }

  /** A stored record keeps its wave and loses less than a second of its start. */
  lemma StoredKeepsWave(p: Progress)
    ensures var stored := StoredProgress(Some(p));
            stored.Some? && stored.value.wave == p.wave && stored.value.since % SECOND == 0 &&
            p.since - SECOND < stored.value.since <= p.since
  {
  }

  function StatusAfter(status: Status, r: WaveRound): Status {
    if r.persisted then Status(Some(r.cfg.up), StoredProgress(r.after.progress)) else status
  }

  /** Reconciles of one schedule, in both directions, none of them deferred. */
  ghost predicate IsReconcileRun(rounds: seq<WaveRound>, statuses: seq<Status>) {
    |statuses| == |rounds| + 1 && statuses[0] == Status(None, None) &&
    forall i {:trigger Reconciled(rounds, statuses, i)} :: 0 <= i < |rounds| ==> Reconciled(rounds, statuses, i)
  }

  ghost predicate Reconciled(rounds: seq<WaveRound>, statuses: seq<Status>, i: nat)
    requires i < |rounds| && |statuses| == |rounds| + 1
  {
    rounds[i].carried == Carried(statuses[i], rounds[i].cfg.up) && statuses[i + 1] == StatusAfter(statuses[i], rounds[i])
  }

  /** The last reconcile before n whose status was stored. */
  function LastStored(rounds: seq<WaveRound>, n: nat): (c: Option<nat>)
    requires n <= |rounds|
    ensures match c
            case Some(k) => k < n && rounds[k].persisted && forall i {:trigger rounds[i]} :: k < i < n ==> !rounds[i].persisted
            case None => forall i {:trigger rounds[i]} :: 0 <= i < n ==> !rounds[i].persisted
  {
    if n == 0 then None else if rounds[n - 1].persisted then Some(n - 1) else LastStored(rounds, n - 1)
  }

  /** What reconcile n carries: the record of the last reconcile before it whose status was
      stored, if that one ran in the same direction. */
  lemma {:induction false} CarriedExactly(rounds: seq<WaveRound>, statuses: seq<Status>, n: nat)
    requires IsReconcileRun(rounds, statuses) && n < |rounds|
    ensures rounds[n].carried ==
            match LastStored(rounds, n)
            case Some(c) => if rounds[c].cfg.up == rounds[n].cfg.up then StoredProgress(rounds[c].after.progress) else None
            case None => None
  {
    StatusBefore(rounds, statuses, n);
    assert Reconciled(rounds, statuses, n);
  }

  lemma {:induction false} StatusBefore(rounds: seq<WaveRound>, statuses: seq<Status>, n: nat)
    requires IsReconcileRun(rounds, statuses) && n <= |rounds|
    ensures statuses[n] ==
            match LastStored(rounds, n)
            case Some(c) => Status(Some(rounds[c].cfg.up), StoredProgress(rounds[c].after.progress))
            case None => Status(None, None)
  {
    if n > 0 {
      assert Reconciled(rounds, statuses, n - 1);
      StatusBefore(rounds, statuses, n - 1);
    }
  }

  /** Reconciles a to b - 1 run in one direction over one collection. */
  ghost predicate IsSegment(win: Window, rounds: seq<WaveRound>, a: nat, b: nat) {
    a < b <= |rounds| && forall i {:trigger WellRun(win, rounds[i])} :: a <= i < b ==> WellRun(win, rounds[i])
  }

  /** Reconcile a starts without a record: none was stored before it, or the last stored
      status is of the other direction or holds none. */
  predicate StartsAfresh(rounds: seq<WaveRound>, a: nat)
    requires a < |rounds|
  {
    var c := LastStored(rounds, a);
    c.None? || rounds[c.value].cfg.up != rounds[a].cfg.up || rounds[c.value].after.progress.None?
  }

  /** Such reconciles form a window, for which the wave guarantees hold, exactly when the
      first of them starts without a record. Losing statuses inside the window does no
      harm, nor does losing some of those before it. */
  lemma SegmentIsWindow(win: Window, rounds: seq<WaveRound>, statuses: seq<Status>, a: nat, b: nat)
    requires IsReconcileRun(rounds, statuses) && IsSegment(win, rounds, a, b)
    ensures IsWindow(win, rounds[a..b]) <==> StartsAfresh(rounds, a)
  {
    FreshMeansNone(rounds, statuses, a);
    SegmentChains(win, rounds, statuses, a, b);
    assert rounds[a..b][0] == rounds[a];
    WindowIf(win, rounds[a..b]);
  }

  lemma FreshMeansNone(rounds: seq<WaveRound>, statuses: seq<Status>, a: nat)
    requires IsReconcileRun(rounds, statuses) && a < |rounds|
    ensures rounds[a].carried == None <==> StartsAfresh(rounds, a)
  {
    CarriedExactly(rounds, statuses, a);
  }

  lemma SegmentChains(win: Window, rounds: seq<WaveRound>, statuses: seq<Status>, a: nat, b: nat)
    requires IsReconcileRun(rounds, statuses) && IsSegment(win, rounds, a, b)
    ensures Chained(win, rounds[a..b])
  {
    var segment := rounds[a..b];
    forall i | 0 <= i < |segment| ensures WellRun(win, segment[i]) {
      assert WellRun(win, rounds[a + i]);
    }
    forall i | 0 < i < |segment| ensures CarriesOn(segment, i) {
      SegmentCarries(win, rounds, statuses, a, b, i);
    }
  }

  predicate CarriesOn(rounds: seq<WaveRound>, i: nat)
    requires 0 < i < |rounds|
  {
    rounds[i].carried == CarriedAfter(rounds[i - 1])
  }

  /** Well run, and each carrying on from the one before. */
  ghost predicate Chained(win: Window, rounds: seq<WaveRound>) {
    (forall i {:trigger WellRun(win, rounds[i])} :: 0 <= i < |rounds| ==> WellRun(win, rounds[i])) &&
    forall i {:trigger CarriesOn(rounds, i)} :: 0 < i < |rounds| ==> CarriesOn(rounds, i)
  }

  lemma SegmentCarries(win: Window, rounds: seq<WaveRound>, statuses: seq<Status>, a: nat, b: nat, i: nat)
    requires IsReconcileRun(rounds, statuses) && IsSegment(win, rounds, a, b) && 0 < i < b - a
    ensures rounds[a..b][i].carried == CarriedAfter(rounds[a..b][i - 1])
  {
    assert WellRun(win, rounds[a + i]) && WellRun(win, rounds[a + i - 1]);
    CarriesItsOwn(rounds, statuses, a + i);
  }

  lemma WindowIf(win: Window, rounds: seq<WaveRound>)
    requires rounds != [] && Chained(win, rounds)
    ensures IsWindow(win, rounds) <==> rounds[0].carried == None
  {
    forall i | 0 < i < |rounds| ensures rounds[i].carried == CarriedAfter(rounds[i - 1]) {
      assert CarriesOn(rounds, i);
    }
  }

  lemma CarriesItsOwn(rounds: seq<WaveRound>, statuses: seq<Status>, n: nat)
    requires IsReconcileRun(rounds, statuses) && 0 < n < |rounds| && rounds[n].cfg.up == rounds[n - 1].cfg.up
    ensures rounds[n].carried == CarriedAfter(rounds[n - 1])
  {
    assert Reconciled(rounds, statuses, n) && Reconciled(rounds, statuses, n - 1);
  }

  /** If no reconcile of the other direction stored its status, the next window takes up
      the record of the one before it. */
  lemma LostStatusesCarryOldRecord(rounds: seq<WaveRound>, statuses: seq<Status>, a: nat, b: nat)
    requires IsReconcileRun(rounds, statuses) && a < b < |rounds|
    requires rounds[a].persisted && rounds[b].cfg.up == rounds[a].cfg.up
    requires forall i {:trigger rounds[i]} :: a < i < b ==> !rounds[i].persisted
    ensures rounds[b].carried == StoredProgress(rounds[a].after.progress)
  {
    CarriedExactly(rounds, statuses, b);
  }

  // ---- what an old record does ---------------------------------------------------------------

  /** The record lies at or after the carried wave, and no evaluation in the log is of a
      wave before it. */
  predicate NothingEarlier(st: PassState, carried: int, up: bool) {
    st.progress.Some? && !Before(st.progress.value.wave, carried, up) &&
    forall k :: 0 <= k < |st.log| && st.log[k].Evaluated? ==> !Before(st.log[k].wave, carried, up)
  }

  lemma StepEvaluatesNothingEarlier(cfg: Config, st: PassState, id: Id, more: bool, carried: int, next: PassState, stop: Option<Stop>)
    requires id in st.cluster && AllIn(st.members, st.cluster) && NothingEarlier(st, carried, cfg.up)
    requires (next, stop) == Step(cfg, st, id, more)
    ensures NothingEarlier(next, carried, cfg.up)
  {
    var (entered, held) := Enter(cfg, st, id);
    assert NothingEarlier(entered, carried, cfg.up);
    if !held { VisitLog(cfg, entered, id); }
  }

  lemma {:induction false} PassEvaluatesNothingEarlier(cfg: Config, order: seq<Id>, i: nat, st: PassState, carried: int)
    requires i <= |order| && AllIn(order, st.cluster) && AllIn(st.members, st.cluster)
    requires NothingEarlier(st, carried, cfg.up)
    ensures NothingEarlier(PassFrom(cfg, order, i, st).0, carried, cfg.up)
    decreases |order| - i
  {
    if i < |order| {
      var next, stop := Turn(cfg, order, i, st);
      StepEvaluatesNothingEarlier(cfg, st, order[i], i < |order| - 1, carried, next, stop);
      if stop.None? { PassEvaluatesNothingEarlier(cfg, order, i + 1, next, carried); }
    }
  }

  /** A reconcile that carries a record judges no wave before the recorded one. When the
      record is an old one, those waves are never judged in this window, and every move of
      a later wave finds them uncleared. */
  lemma OldRecordSkipsWaves(win: Window, r: WaveRound, m: nat, id: Id)
    requires WellRun(win, r) && r.carried.Some?
    requires m < |r.after.log| && r.after.log[m].Moved?
    requires id in win.waves && Before(win.waves[id], r.carried.value.wave, win.up)
    requires Before(win.waves[id], r.after.log[m].wave, win.up)
    ensures !ClearedBefore(win, r.after.log[..m], r.after.log[m].wave)
  {
    PassEvaluatesNothingEarlier(r.cfg, r.order, 0, Start(r.cfg, r.listed, r.order, r.carried), r.carried.value.wave);
    assert forall k :: 0 <= k < m ==> r.after.log[..m][k] == r.after.log[k];
    assert !Cleared(win, r.after.log[..m], win.waves[id]);
  }
}
