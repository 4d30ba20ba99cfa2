// Bounded waiting: a wave that never settles delays the next one by its timeout at most,
// once, so the last wave is reached within a fixed time.
module WaveWaiting {
  import opened Wrappers
  import opened Clock
  import opened Scaler
  import opened SyncWave
  import opened Batcher
  import opened WaveSafety

  // ---- how a pass holds -----------------------------------------------------------------------

  /** The record a pass works with is still the carried one, or one it made itself for an
      earlier wave, which then lies behind the carried wave too. */
  predicate Advanced(win: Window, st: PassState, carried: Option<Progress>) {
    st.progress == carried ||
    (st.progress.Some? && Before(st.progress.value.wave, st.gateWave, win.up) &&
     (carried.Some? ==> Before(carried.value.wave, st.gateWave, win.up)))
  }

  predicate AtWave(win: Window, order: seq<Id>, i: nat, st: PassState)
    requires i <= |order| && InWaveOrder(win, order)
  {
    HasWaves(win, st.cluster) && AllIn(st.members, st.cluster) &&
    (order != [] ==> st.gateWave == win.waves[order[if i == 0 then 0 else i - 1]])
  }

  /** The shape of a held pass: it waits for a wave that is not the last one, at or after
      the carried wave, within the timeout, on a clock the carried record keeps. */
  predicate HeldShape(win: Window, cfg: Config, carried: Option<Progress>, order: seq<Id>, end: PassState)
    requires InWaveOrder(win, order)
  {
    end.progress.Some? &&
    var p := end.progress.value;
    (exists j, l :: 0 <= j < |order| && 0 <= l < |order| && win.waves[order[j]] == p.wave && Before(p.wave, win.waves[order[l]], win.up)) &&
    !PassedBefore(carried, p.wave, win.up) &&
    p.since == GateSince(carried, p.wave, cfg.now) &&
    cfg.now - p.since < win.timeout
  }

  lemma EnterHolds(win: Window, cfg: Config, carried: Option<Progress>, order: seq<Id>, i: nat, st: PassState)
    requires Fits(win, cfg) && InWaveOrder(win, order) && i < |order|
    requires AtWave(win, order, i, st) && Advanced(win, st, carried)
    ensures var (e, held) := Enter(cfg, st, order[i]);
            if held then HeldShape(win, cfg, carried, order, e)
            else e.cluster == st.cluster && AllIn(e.members, e.cluster) && e.gateWave == win.waves[order[i]] && Advanced(win, e, carried)
  {
    var prev := if i == 0 then 0 else i - 1;
    var (e, held) := Enter(cfg, st, order[i]);
    if win.waves[order[i]] != st.gateWave {
      assert i > 0 && !Before(win.waves[order[i]], win.waves[order[prev]], win.up);
      assert Before(st.gateWave, win.waves[order[i]], win.up);
      if held {
        assert win.waves[order[prev]] == e.progress.value.wave && Before(e.progress.value.wave, win.waves[order[i]], win.up);
      }
    }
  }

  lemma VisitStays(win: Window, cfg: Config, e: PassState, id: Id, carried: Option<Progress>)
    requires Fits(win, cfg) && HasWaves(win, e.cluster) && AllIn(e.members, e.cluster) && id in e.cluster
    requires Advanced(win, e, carried)
    ensures var v := Visit(cfg, e, id);
            HasWaves(win, v.cluster) && AllIn(v.members, v.cluster) && v.gateWave == e.gateWave && Advanced(win, v, carried)
  {
    VisitMembers(win, cfg, e, id);
    VisitLog(cfg, e, id);
  }

  lemma StepHolds(win: Window, cfg: Config, carried: Option<Progress>, order: seq<Id>, i: nat, st: PassState, more: bool,
                  next: PassState, stop: Option<Stop>)
    requires Fits(win, cfg) && InWaveOrder(win, order) && i < |order| && AllIn(order, st.cluster)
    requires AtWave(win, order, i, st) && Advanced(win, st, carried) && st.budget == -1
    requires (next, stop) == Step(cfg, st, order[i], more)
    ensures if stop.Some? then stop.value == WaveGate && HeldShape(win, cfg, carried, order, next)
            else AtWave(win, order, i + 1, next) && Advanced(win, next, carried) && next.budget == -1
  {
    EnterHolds(win, cfg, carried, order, i, st);
    var (entered, held) := Enter(cfg, st, order[i]);
    EnterBudget(cfg, st, order[i]);
    if !held {
      VisitStays(win, cfg, entered, order[i], carried);
      VisitBudget(cfg, entered, order[i]);
    }
  }

  lemma EnterBudget(cfg: Config, st: PassState, id: Id)
    requires id in st.cluster && AllIn(st.members, st.cluster)
    ensures Enter(cfg, st, id).0.budget == st.budget && Enter(cfg, st, id).0.cluster == st.cluster
  {
  }

  lemma VisitBudget(cfg: Config, e: PassState, id: Id)
    requires id in e.cluster && e.budget == -1
    ensures Visit(cfg, e, id).budget == -1 && !Exhausted(cfg, e, id)
  {
  }

  /** Without a rate limit a pass visits every workload or holds at a wave in the shape
      above. */
  lemma {:induction false} PassHolds(win: Window, cfg: Config, carried: Option<Progress>, order: seq<Id>, i: nat, st: PassState)
    requires Fits(win, cfg) && InWaveOrder(win, order) && i <= |order| && AllIn(order, st.cluster)
    requires AtWave(win, order, i, st) && Advanced(win, st, carried) && st.budget == -1
    ensures var (end, reason) := PassFrom(cfg, order, i, st);
            reason == Finished || (reason == WaveGate && HeldShape(win, cfg, carried, order, end))
    decreases |order| - i
  {
    if i < |order| {
      var next, stop := Turn(cfg, order, i, st);
      StepHolds(win, cfg, carried, order, i, st, i < |order| - 1, next, stop);
      if stop.None? { PassHolds(win, cfg, carried, order, i + 1, next); }
    }
  }

  lemma RoundHolds(win: Window, r: WaveRound)
    requires WellRun(win, r) && r.cfg.batch.None?
    ensures r.stop == Finished || (r.stop == WaveGate && HeldShape(win, r.cfg, r.carried, r.order, r.after))
  {
    var start := Start(r.cfg, r.listed, r.order, r.carried);
    assert AtWave(win, r.order, 0, start);
    PassHolds(win, r.cfg, r.carried, r.order, 0, start);
  }

  // ---- ranks ---------------------------------------------------------------------------------------

  function WaveSet(win: Window): set<int> {
    set id | id in win.waves :: win.waves[id]
  }

  function Earlier(win: Window, wave: int): set<int> {
    set v | v in WaveSet(win) && Before(v, wave, win.up)
  }

  function Rank(win: Window, wave: int): nat {
    |Earlier(win, wave)|
  }

  lemma SubsetSize<T>(a: set<T>, b: set<T>)
    requires a <= b
    ensures |a| <= |b|
  {
    assert b == a + (b - a);
  }

  lemma RankGrows(win: Window, a: int, b: int)
    requires a in WaveSet(win) && Before(a, b, win.up)
    ensures Rank(win, a) + 1 <= Rank(win, b)
  {
    SubsetSize(Earlier(win, a) + {a}, Earlier(win, b));
  }

  lemma RankOfNonLast(win: Window, a: int, b: int)
    requires a in WaveSet(win) && b in WaveSet(win) && Before(a, b, win.up)
    ensures Rank(win, a) + 2 <= |WaveSet(win)|
  {
    RankGrows(win, a, b);
    SubsetSize(Earlier(win, b) + {b}, WaveSet(win));
  }

  // ---- the wait ---------------------------------------------------------------------------------------

  /** A window without rate limit, on a clock that does not run backwards, reconciling at
      most gap apart. Status updates may be lost. */
  ghost predicate Polled(win: Window, rounds: seq<WaveRound>, gap: Duration) {
    IsWindow(win, rounds) && gap >= 0 && win.timeout >= 0 &&
    (forall i {:trigger Unlimited(rounds[i])} :: 0 <= i < |rounds| ==> Unlimited(rounds[i])) &&
    forall i {:trigger Ticks(rounds, i, gap)} :: 0 < i < |rounds| ==> Ticks(rounds, i, gap)
  }

  predicate Unlimited(r: WaveRound) {
    r.cfg.batch.None?
  }

  predicate Ticks(rounds: seq<WaveRound>, i: nat, gap: Duration)
    requires 0 < i < |rounds|
  {
    rounds[i - 1].cfg.now <= rounds[i].cfg.now <= rounds[i - 1].cfg.now + gap
  }

  /** How many of the first n status updates were lost. */
  function Lost(rounds: seq<WaveRound>, n: nat): nat
    requires n <= |rounds|
  {
    if n == 0 then 0 else Lost(rounds, n - 1) + (if rounds[n - 1].persisted then 0 else 1)
  }

  /** The first n reconciles all stopped at a wave. */
  predicate AllHold(rounds: seq<WaveRound>, n: nat)
    requires n <= |rounds|
  {
    forall i {:trigger rounds[i]} :: 0 <= i < n ==> rounds[i].stop == WaveGate
  }

  /** What a held reconcile waits for. */
  lemma HeldRound(win: Window, r: WaveRound) returns (p: Progress)
    requires WellRun(win, r) && Unlimited(r) && r.stop == WaveGate
    ensures r.after.progress == Some(p)
    ensures p.wave in WaveSet(win) && Rank(win, p.wave) + 2 <= |WaveSet(win)|
    ensures !PassedBefore(r.carried, p.wave, win.up)
    ensures p.since == GateSince(r.carried, p.wave, r.cfg.now) && r.cfg.now - p.since < win.timeout
  {
    RoundHolds(win, r);
    p := r.after.progress.value;
    var j, l :| 0 <= j < |r.order| && 0 <= l < |r.order| && win.waves[r.order[j]] == p.wave && Before(p.wave, win.waves[r.order[l]], win.up);
    assert win.waves[r.order[j]] in WaveSet(win) && win.waves[r.order[l]] in WaveSet(win);
    RankOfNonLast(win, p.wave, win.waves[r.order[l]]);
  }

  /** n waves, each waited for the timeout and then noticed a polling gap later, and a
      polling gap for each lost status update. */
  function Allowance(n: nat, timeout: Duration, gap: Duration, lost: nat): Duration
    decreases n, lost
  {
    if n > 0 then Allowance(n - 1, timeout, gap, lost) + timeout + gap
    else if lost > 0 then Allowance(n, timeout, gap, lost - 1) + gap
    else 0
  }

  lemma {:induction false} AllowanceIs(n: nat, timeout: Duration, gap: Duration, lost: nat)
    ensures Allowance(n, timeout, gap, lost) == n * (timeout + gap) + lost * gap
    decreases n, lost
  {
    if n > 0 {
      AllowanceIs(n - 1, timeout, gap, lost);
      assert n * (timeout + gap) == (n - 1) * (timeout + gap) + (timeout + gap);
    } else if lost > 0 {
      AllowanceIs(n, timeout, gap, lost - 1);
      assert lost * gap == (lost - 1) * gap + gap;
    }
  }

  lemma {:induction false} AllowanceGrows(n: nat, m: nat, timeout: Duration, gap: Duration, lost: nat)
    requires n < m && timeout >= 0 && gap >= 0
    ensures Allowance(n, timeout, gap, lost) + timeout + gap <= Allowance(m, timeout, gap, lost)
    decreases m - n
  {
    if n < m - 1 {
      AllowanceGrows(n, m - 1, timeout, gap, lost);
    }
  }

  lemma {:induction false} AllowanceLost(n: nat, timeout: Duration, gap: Duration, lost: nat)
    ensures Allowance(n, timeout, gap, lost + 1) == Allowance(n, timeout, gap, lost) + gap
  {
    if n > 0 {
      AllowanceLost(n - 1, timeout, gap, lost);
    }
  }

  lemma {:induction false} AllowanceIsPositive(n: nat, timeout: Duration, gap: Duration, lost: nat)
    requires timeout >= 0 && gap >= 0
    ensures Allowance(n, timeout, gap, lost) >= Allowance(0, timeout, gap, lost) >= 0
    decreases n, lost
  {
    if n > 0 {
      AllowanceIsPositive(n - 1, timeout, gap, lost);
    } else if lost > 0 {
      AllowanceIsPositive(0, timeout, gap, lost - 1);
    }
  }

  /** Where the clock stands before the n-th reconcile: a carried record started no later
      than its rank allows, and that wave's timeout and one gap are not yet over. */
  predicate OnTime(win: Window, start: Instant, carried: Option<Progress>, now: Instant, gap: Duration, lost: nat) {
    match carried
    case None => now <= start + Allowance(0, win.timeout, gap, lost)
    case Some(q) =>
      q.wave in WaveSet(win) &&
      q.since <= start + Allowance(Rank(win, q.wave), win.timeout, gap, lost) &&
      now <= start + Allowance(Rank(win, q.wave), win.timeout, gap, lost) + win.timeout + gap
  }

  /** A held reconcile that starts on time waits for a wave whose clock started on time. */
  lemma HeldOnTime(win: Window, start: Instant, r: WaveRound, gap: Duration, lost: nat) returns (p: Progress)
    requires WellRun(win, r) && Unlimited(r) && r.stop == WaveGate && gap >= 0 && win.timeout >= 0
    requires OnTime(win, start, r.carried, r.cfg.now, gap, lost)
    ensures r.after.progress == Some(p)
    ensures p.wave in WaveSet(win) && Rank(win, p.wave) + 2 <= |WaveSet(win)|
    ensures r.cfg.now - p.since < win.timeout
    ensures p.since <= start + Allowance(Rank(win, p.wave), win.timeout, gap, lost)
  {
    p := HeldRound(win, r);
    AllowanceIsPositive(Rank(win, p.wave), win.timeout, gap, lost);
    if r.carried.Some? && r.carried.value.wave != p.wave {
      RankGrows(win, r.carried.value.wave, p.wave);
      AllowanceGrows(Rank(win, r.carried.value.wave), Rank(win, p.wave), win.timeout, gap, lost);
    }
  }

  /** The next reconcile starts on time again, with one more loss to allow for if this one's
      status was lost. */
  lemma NextOnTime(win: Window, start: Instant, carried: Option<Progress>, p: Progress, now: Instant, next: Instant, gap: Duration, lost: nat)
    requires gap >= 0 && win.timeout >= 0 && next <= now + gap
    requires OnTime(win, start, carried, now, gap, lost)
    requires p.wave in WaveSet(win) && now - p.since < win.timeout
    requires p.since <= start + Allowance(Rank(win, p.wave), win.timeout, gap, lost)
    ensures OnTime(win, start, StoredProgress(Some(p)), next, gap, lost)
    ensures OnTime(win, start, carried, next, gap, lost + 1)
  {
    AllowanceLost(if carried.Some? then Rank(win, carried.value.wave) else 0, win.timeout, gap, lost);
  }

  lemma TurnOnTime(win: Window, start: Instant, r: WaveRound, next: Instant, gap: Duration, lost: nat)
    requires WellRun(win, r) && Unlimited(r) && r.stop == WaveGate && gap >= 0 && win.timeout >= 0
    requires OnTime(win, start, r.carried, r.cfg.now, gap, lost) && next <= r.cfg.now + gap
    ensures OnTime(win, start, CarriedAfter(r), next, gap, if r.persisted then lost else lost + 1)
  {
    var p := HeldOnTime(win, start, r, gap, lost);
    NextOnTime(win, start, r.carried, p, r.cfg.now, next, gap, lost);
  }

  /** What one reconcile of the window says about the next. */
  lemma Neighbours(win: Window, rounds: seq<WaveRound>, gap: Duration, n: nat)
    requires Polled(win, rounds, gap) && 0 < n < |rounds|
    ensures WellRun(win, rounds[n - 1]) && Unlimited(rounds[n - 1]) && Ticks(rounds, n, gap)
    ensures rounds[n].carried == CarriedAfter(rounds[n - 1]) && gap >= 0 && win.timeout >= 0
  {
    assert WellRun(win, rounds[n - 1]) && Unlimited(rounds[n - 1]) && Ticks(rounds, n, gap);
  }

  ghost predicate OnTimeAt(win: Window, rounds: seq<WaveRound>, gap: Duration, n: nat)
    requires n < |rounds|
  {
    OnTime(win, rounds[0].cfg.now, rounds[n].carried, rounds[n].cfg.now, gap, Lost(rounds, n))
  }

  lemma {:induction false} StartsOnTime(win: Window, rounds: seq<WaveRound>, gap: Duration, n: nat)
    requires Polled(win, rounds, gap) && n < |rounds| && AllHold(rounds, n)
    ensures OnTimeAt(win, rounds, gap, n)
  {
    if n > 0 {
      StartsOnTime(win, rounds, gap, n - 1);
      Neighbours(win, rounds, gap, n);
      TurnOnTime(win, rounds[0].cfg.now, rounds[n - 1], rounds[n].cfg.now, gap, Lost(rounds, n - 1));
    }
  }

  /** The clock of the wave a reconcile holds at started no later than its rank, and the
      status updates lost before, allow. */
  lemma ClockBound(win: Window, rounds: seq<WaveRound>, gap: Duration, n: nat) returns (p: Progress)
    requires Polled(win, rounds, gap) && n < |rounds| && AllHold(rounds, n + 1)
    ensures rounds[n].after.progress == Some(p)
    ensures p.wave in WaveSet(win) && Rank(win, p.wave) + 2 <= |WaveSet(win)|
    ensures rounds[n].cfg.now - p.since < win.timeout
    ensures p.since <= rounds[0].cfg.now + Allowance(Rank(win, p.wave), win.timeout, gap, Lost(rounds, n))
  {
    StartsOnTime(win, rounds, gap, n);
    assert WellRun(win, rounds[n]) && Unlimited(rounds[n]);
    p := HeldOnTime(win, rounds[0].cfg.now, rounds[n], gap, Lost(rounds, n));
  }

  lemma HoldBound(win: Window, rounds: seq<WaveRound>, gap: Duration, n: nat)
    requires Polled(win, rounds, gap) && n < |rounds| && AllHold(rounds, n + 1)
    ensures |WaveSet(win)| >= 1
    ensures rounds[n].cfg.now + gap < rounds[0].cfg.now + Allowance(|WaveSet(win)| - 1, win.timeout, gap, Lost(rounds, n))
  {
    var p := ClockBound(win, rounds, gap, n);
    AllowanceGrows(Rank(win, p.wave), |WaveSet(win)| - 1, win.timeout, gap, Lost(rounds, n));
  }

  /** How long k waves can take, with so many lost status updates. */
  function WaitingBound(k: nat, timeout: Duration, gap: Duration, lost: nat): Duration {
    (k - 1) * (timeout + gap) + lost * gap
  }

  lemma WaitingBoundIs(k: nat, timeout: Duration, gap: Duration, lost: nat)
    requires k > 0
    ensures WaitingBound(k, timeout, gap, lost) == Allowance(k - 1, timeout, gap, lost)
  {
    AllowanceIs(k - 1, timeout, gap, lost);
  }

  /** Bounded waiting: while reconciles hold at waves, the clock stays short of k - 1
      times the timeout plus the polling gap, for k waves, plus one polling gap for each
      status update lost on the way; so the first reconcile that does not hold comes within
      that time, and it visits every workload, the last wave included. */
  lemma BoundedWaiting(win: Window, rounds: seq<WaveRound>, gap: Duration, n: nat) returns (bound: Duration)
    requires Polled(win, rounds, gap) && n < |rounds| && AllHold(rounds, n) && |WaveSet(win)| > 0
    ensures bound == WaitingBound(|WaveSet(win)|, win.timeout, gap, Lost(rounds, n))
    ensures rounds[n].stop == Finished || rounds[n].stop == WaveGate
    ensures rounds[n].cfg.now <= rounds[0].cfg.now + bound
    ensures rounds[n].stop == WaveGate ==> rounds[n].cfg.now + gap < rounds[0].cfg.now + bound
  {
    bound := Allowance(|WaveSet(win)| - 1, win.timeout, gap, Lost(rounds, n));
    WaitingBoundIs(|WaveSet(win)|, win.timeout, gap, Lost(rounds, n));
    assert WellRun(win, rounds[n]) && Unlimited(rounds[n]);
    RoundHolds(win, rounds[n]);
    ReachedInTime(win, rounds, gap, n);
    if rounds[n].stop == WaveGate { HoldBound(win, rounds, gap, n); }
  }

  lemma ReachedInTime(win: Window, rounds: seq<WaveRound>, gap: Duration, n: nat)
    requires Polled(win, rounds, gap) && n < |rounds| && AllHold(rounds, n) && |WaveSet(win)| > 0
    ensures rounds[n].cfg.now <= rounds[0].cfg.now + Allowance(|WaveSet(win)| - 1, win.timeout, gap, Lost(rounds, n))
  {
    var k := |WaveSet(win)| - 1;
    if n == 0 {
      AllowanceIsPositive(k, win.timeout, gap, 0);
    } else {
      HoldBound(win, rounds, gap, n - 1);
      assert Ticks(rounds, n, gap);
      AllowanceLost(k, win.timeout, gap, Lost(rounds, n - 1));
    }
  }

  // ---- the polling gap ------------------------------------------------------------------------------

  const WARMUP_CHECK_INTERVAL: Duration := 30 * SECOND
  const TERMINATION_CHECK_INTERVAL: Duration := 5 * MINUTE

  function Min(a: Duration, b: Duration): Duration {
    if a < b then a else b
  }

  function Max(a: Duration, b: Duration): Duration {
    if a > b then a else b
  }

  /** calculateRequeueAfter; untilNext is the time to the transition that ends the window. */
  function RequeueAfter(untilNext: Duration, stop: Stop, delay: Option<Duration>, stillWarmingUp: bool): Duration {
    if stop == BatchLimit then Max(if delay.Some? then Min(delay.value, untilNext) else untilNext, SECOND)
    else if stillWarmingUp || stop == WaveGate then Max(Min(WARMUP_CHECK_INTERVAL, untilNext), SECOND)
    else Max(untilNext, MINUTE)
  }

  /** applyTerminationRequeue */
  function TerminationRequeue(requeueAfter: Duration, terminating: nat, justScaledDown: bool): Duration {
    if terminating == 0 && !justScaledDown then requeueAfter else Min(requeueAfter, TERMINATION_CHECK_INTERVAL)
  }

  /** While a wave holds, the next reconcile is asked for within thirty seconds, and not
      later than a second past the end of the window. */
  lemma HoldingPollsSoon(untilNext: Duration, delay: Option<Duration>, stillWarmingUp: bool, terminating: nat, justScaledDown: bool)
    ensures var after := TerminationRequeue(RequeueAfter(untilNext, WaveGate, delay, stillWarmingUp), terminating, justScaledDown);
            SECOND <= after <= WARMUP_CHECK_INTERVAL && after <= Max(untilNext, SECOND)
  {
  }

  /** After a pass that visited everything the next reconcile is asked for at the next
      transition, though not within a minute, and while pods terminate within five minutes;
      during a warmup it polls as at a wave. */
  lemma FinishedPolls(untilNext: Duration, delay: Option<Duration>, stillWarmingUp: bool, terminating: nat, justScaledDown: bool)
    ensures var after := TerminationRequeue(RequeueAfter(untilNext, Finished, delay, stillWarmingUp), terminating, justScaledDown);
            if stillWarmingUp then SECOND <= after <= WARMUP_CHECK_INTERVAL && (untilNext >= SECOND ==> after <= untilNext)
            else
              after >= MINUTE && (untilNext >= MINUTE ==> after <= untilNext) &&
              (if terminating > 0 || justScaledDown then after <= 5 * MINUTE else after >= untilNext)
  {
  }

  /** After a pass a rate limit cut short it is asked for after the limit's delay, unless
      the next transition comes first, and never within a second. */
  lemma LimitedPolls(untilNext: Duration, delay: Duration, stillWarmingUp: bool)
    ensures var after := RequeueAfter(untilNext, BatchLimit, Some(delay), stillWarmingUp);
            after >= SECOND && (SECOND <= delay <= untilNext ==> after == delay) && (SECOND <= untilNext <= delay ==> after == untilNext)
  {
  }

  // ---- waves switched off --------------------------------------------------------------------------

  lemma {:induction false} NoWaves(cfg: Config, order: seq<Id>, i: nat, st: PassState)
    requires !cfg.waves && i <= |order| && AllIn(order, st.cluster) && AllIn(st.members, st.cluster) && st.progress == None
    ensures PassFrom(cfg, order, i, st).0.progress == None && PassFrom(cfg, order, i, st).1 != WaveGate
    decreases |order| - i
  {
    if i < |order| {
      var next, stop := Turn(cfg, order, i, st);
      if stop.None? { NoWaves(cfg, order, i + 1, next); }
    }
  }

  /** With waves off a pass holds at none, and drops the record it was carrying. */
  lemma WavesOffForgets(cfg: Config, cluster: Cluster, order: seq<Id>, carried: Option<Progress>)
    requires !cfg.waves && AllIn(order, cluster)
    ensures Pass(cfg, cluster, order, carried).0.progress == None && Pass(cfg, cluster, order, carried).1 != WaveGate
  {
    NoWaves(cfg, order, 0, Start(cfg, cluster, order, carried));
  }
}
