// One run in which lost status updates let a wave start before the wave ahead of it was
// ever judged.
module LostStatus {
  import opened Wrappers
  import opened Json
  import opened Patch
  import opened Clock
  import opened Scaler
  import opened SyncWave
  import opened Batcher
  import opened WaveSafety
  import opened WaveCarry
  import opened WaveWaiting
  import opened WorkloadScaling
  import opened DownscaleWaves

  const NIGHT: string := "night"
  const WEB: Id := Id(Deployment, "shop", "web")
  const API: Id := Id(Deployment, "shop", "api")
  const DB: Id := Id(Deployment, "shop", "db")
  const ORDER: seq<Id> := [WEB, API, DB]

  lemma NamesDiffer()
    ensures WEB != API && API != DB && WEB != DB
  {
    assert "web"[0] != "api"[0] && "api"[0] != "db"[0] && "web"[0] != "db"[0];
  }

  /** Held down for the night, with no pod left. */
  function Asleep(id: Id, wave: int): Workload {
    Workload(id, wave, Pair(Object(map[], map[ORIGINAL_REPLICAS := "1", MANAGED_BY := NIGHT], map[REPLICAS := Int(0)]), None), 1, 1, 0, 0)
  }

  /** Running one pod. */
  function Awake(id: Id, wave: int): Workload {
    Workload(id, wave, Pair(Object(map[], map[], map[REPLICAS := Int(1)]), None), 1, 1, 1, 1)
  }

  const ASLEEP: Cluster := map[WEB := Asleep(WEB, 2), API := Asleep(API, 1), DB := Asleep(DB, 0)]
  const AWAKE: Cluster := map[WEB := Awake(WEB, 2), API := Awake(API, 1), DB := Awake(DB, 0)]
  const WAVES: map<Id, int> := map[WEB := 2, API := 1, DB := 0]
  const TIMEOUT: Duration := 5 * MINUTE

  function NightWindow(): Window {
    Window(WAVES, false, TIMEOUT, Ours(NIGHT))
  }

  /** No write is refused. */
  function Always(): Id -> bool {
    (id: Id) => true
  }

  function DownAt(now: Instant, batch: Option<nat>): Config {
    Config(false, true, TIMEOUT, now, batch, DownWith(NIGHT, Always(), Always()))
  }

  function UpAt(now: Instant): Config {
    Config(true, true, TIMEOUT, now, None, Scaling(true, NIGHT))
  }

  /** The first evening, a morning whose status update is lost, the second evening. */
  function Evening(): WaveRound {
    var (after, stop) := Pass(DownAt(0, None), ASLEEP, ORDER, None);
    WaveRound(DownAt(0, None), ORDER, None, ASLEEP, after, stop, true)
  }

  function Morning(): WaveRound {
    var (after, stop) := Pass(UpAt(12 * HOUR), ASLEEP, ORDER, None);
    WaveRound(UpAt(12 * HOUR), ORDER, None, ASLEEP, after, stop, false)
  }

  function SecondEvening(): WaveRound {
    var (after, stop) := Pass(DownAt(24 * HOUR, Some(2)), AWAKE, ORDER, Some(Progress(1, 0)));
    WaveRound(DownAt(24 * HOUR, Some(2)), ORDER, Some(Progress(1, 0)), AWAKE, after, stop, true)
  }

  lemma AsleepIsSkipped(id: Id, wave: int)
    requires id.kind == Deployment
    ensures DownWith(NIGHT, Always(), Always())(Asleep(id, wave)) == (Asleep(id, wave), Skipped(AlreadyDown))
    ensures Gates(Asleep(id, wave), Skipped(AlreadyDown)) && Settled(Asleep(id, wave), false)
  {
    KeysDistinct();
    var w := Asleep(id, wave);
    assert DecideDown(w.pair.workload, NIGHT) == Skip(AlreadyDown);
    assert ScaleListed(false, NIGHT, w, true, true) == (w, Skipped(AlreadyDown));
  }

  lemma AwakeIsScaled(id: Id, wave: int)
    requires id.kind == Deployment
    ensures var (after, result) := DownWith(NIGHT, Always(), Always())(Awake(id, wave));
            result.Scaled? && after.wave == wave && after.id == id && after.pods == 1
  {
    var w := Awake(id, wave);
    assert DecideDown(w.pair.workload, NIGHT).Send?;
    assert ScaleListed(false, NIGHT, w, true, true).1.Scaled?;
  }

  /** The workload is skipped as it is, gates, and has settled. */
  predicate Rests(cfg: Config, w: Workload) {
    cfg.scale(w) == (w, Skipped(AlreadyDown)) && Gates(w, Skipped(AlreadyDown)) && Settled(w, false)
  }

  /** A downscale pass over three settled waves records the middle one. */
  lemma RestingPass(cfg: Config, c: Cluster)
    requires !cfg.up && cfg.waves && cfg.batch.None? && c.Keys == {WEB, API, DB}
    requires c[WEB].wave == 2 && c[API].wave == 1 && c[DB].wave == 0
    requires Rests(cfg, c[WEB]) && Rests(cfg, c[API]) && Rests(cfg, c[DB])
    ensures Pass(cfg, c, ORDER, None).0.progress == Some(Progress(1, cfg.now))
  {
    var s0 := Start(cfg, c, ORDER, None);
    assert c[WEB := c[WEB]] == c && c[API := c[API]] == c && c[DB := c[DB]] == c;
    var s1, t1 := Turn(cfg, ORDER, 0, s0);
    assert s1 == s0.(members := [WEB], skipped := 1) && t1.None?;
    var s2, t2 := Turn(cfg, ORDER, 1, s1);
    assert s2.cluster == c && s2.gateWave == 1 && s2.members == [API] && s2.progress == Some(Progress(2, cfg.now)) && t2.None?;
    var s3, t3 := Turn(cfg, ORDER, 2, s2);
    assert s3.progress == Some(Progress(1, cfg.now)) && t3.None?;
  }

  lemma EveningRecord()
    ensures Evening().after.progress == Some(Progress(1, 0))
  {
    NamesDiffer();
    AsleepIsSkipped(WEB, 2);
    AsleepIsSkipped(API, 1);
    AsleepIsSkipped(DB, 0);
    RestingPass(DownAt(0, None), ASLEEP);
  }

  predicate Moves(cfg: Config, w: Workload) {
    var (after, result) := cfg.scale(w);
    result.Scaled? && after.wave == w.wave && after.id == w.id && after.pods == w.pods
  }

  /** A pass with a budget of two that carries the record of the middle wave moves it right
      after the first one. */
  lemma SkippingPass(cfg: Config, c: Cluster, since: Instant)
    requires !cfg.up && cfg.waves && cfg.batch == Some(2) && c.Keys == {WEB, API, DB} && WEB != API
    requires c[WEB].wave == 2 && c[API].wave == 1 && Moves(cfg, c[WEB]) && Moves(cfg, c[API])
    ensures var (after, stop) := Pass(cfg, c, ORDER, Some(Progress(1, since)));
            after.log == [Moved(WEB, 2), Moved(API, 1)] && after.cluster[WEB].pods == c[WEB].pods
  {
    var s0 := Start(cfg, c, ORDER, Some(Progress(1, since)));
    var s1, t1 := Turn(cfg, ORDER, 0, s0);
    assert s1.log == [Moved(WEB, 2)] && s1.cluster[API] == c[API] && s1.cluster[WEB].pods == c[WEB].pods;
    assert s1.gateWave == 2 && s1.progress == Some(Progress(1, since)) && s1.budget == 1 && t1.None?;
    var s2, t2 := Turn(cfg, ORDER, 1, s1);
    assert s2.log == [Moved(WEB, 2), Moved(API, 1)] && t2 == Some(BatchLimit);
  }

  lemma SecondEveningMoves()
    ensures SecondEvening().after.log == [Moved(WEB, 2), Moved(API, 1)]
    ensures SecondEvening().after.cluster.Keys == {WEB, API, DB} && SecondEvening().after.cluster[WEB].pods == 1
  {
    NamesDiffer();
    AwakeIsScaled(WEB, 2);
    AwakeIsScaled(API, 1);
    SkippingPass(DownAt(24 * HOUR, Some(2)), AWAKE, 0);
  }

  lemma OrderedWaves(win: Window)
    requires win.waves == WAVES && !win.up
    ensures InWaveOrder(win, ORDER)
  {
    NamesDiffer();
    assert ORDER[0] == WEB && ORDER[1] == API && ORDER[2] == DB;
  }

  lemma AwakeHasWaves(win: Window)
    requires win.waves == WAVES
    ensures HasWaves(win, AWAKE) && AllIn(ORDER, AWAKE)
  {
    NamesDiffer();
  }

  lemma SecondEveningIsWellRun()
    ensures WellRun(NightWindow(), SecondEvening())
  {
    var win := NightWindow();
    OrderedWaves(win);
    AwakeHasWaves(win);
    DownIsHonest(win, NIGHT, Always(), Always());
    IsPass(SecondEvening(), win);
  }

  lemma IsPass(r: WaveRound, win: Window)
    requires Fits(win, r.cfg) && InWaveOrder(win, r.order) && HasWaves(win, r.listed) && AllIn(r.order, r.listed)
    requires r.after == Pass(r.cfg, r.listed, r.order, r.carried).0 && r.stop == Pass(r.cfg, r.listed, r.order, r.carried).1
    ensures WellRun(win, r)
  {
  }

  /** Wave order is broken: the middle wave moves while the first one, still running a
      pod, was neither judged nor waited for in this window. */
  lemma LostStatusBreaksWaveOrder() returns (rounds: seq<WaveRound>, statuses: seq<Status>)
    ensures rounds == [Evening(), Morning(), SecondEvening()] && IsReconcileRun(rounds, statuses)
    ensures WellRun(NightWindow(), rounds[2]) && !StartsAfresh(rounds, 2)
    ensures rounds[2].after.log == [Moved(WEB, 2), Moved(API, 1)]
    ensures WEB in rounds[2].after.cluster && rounds[2].after.cluster[WEB].pods == 1
    ensures !ClearedBefore(NightWindow(), rounds[2].after.log[..1], 1)
  {
    var evening, morning, second := Evening(), Morning(), SecondEvening();
    EveningRecord();
    SecondEveningMoves();
    SecondEveningIsWellRun();
    rounds := [evening, morning, second];
    statuses := ThreeStatuses(evening, morning, second);
    NamesDiffer();
    OldRecordSkipsWaves(NightWindow(), second, 1, WEB);
  }

  /** The statuses around such three reconciles. */
  lemma ThreeStatuses(evening: WaveRound, morning: WaveRound, second: WaveRound) returns (statuses: seq<Status>)
    requires evening.persisted && !morning.persisted && second.persisted
    requires !evening.cfg.up && morning.cfg.up && !second.cfg.up
    requires evening.carried == None && morning.carried == None
    requires evening.after.progress.Some? && second.carried == StoredProgress(evening.after.progress)
    ensures IsReconcileRun([evening, morning, second], statuses) && !StartsAfresh([evening, morning, second], 2)
  {
    var rounds := [evening, morning, second];
    var stored := Status(Some(false), StoredProgress(evening.after.progress));
    statuses := [Status(None, None), stored, stored, StatusAfter(stored, second)];
    assert Reconciled(rounds, statuses, 0) && Reconciled(rounds, statuses, 1) && Reconciled(rounds, statuses, 2);
    assert LastStored(rounds, 1) == Some(0) && LastStored(rounds, 2) == Some(0);
  }

  // ---- a wait that starts over -------------------------------------------------------------

  const PAIR_ORDER: seq<Id> := [WEB, DB]
  const PAIR_WAVES: map<Id, int> := map[WEB := 1, DB := 0]
  const GAP: Duration := 30 * SECOND

  function PairWindow(): Window {
    Window(PAIR_WAVES, false, GAP, Ours(NIGHT))
  }

  function PairAt(now: Instant): Config {
    Config(false, true, GAP, now, None, DownWith(NIGHT, Always(), Always()))
  }

  /** Held down, with one pod that does not go away. */
  function Draining(id: Id, wave: int): Workload {
    Asleep(id, wave).(pods := 1)
  }

  const RUNNING: Cluster := map[WEB := Awake(WEB, 1), DB := Awake(DB, 0)]
  const DRAINING: Cluster := map[WEB := Draining(WEB, 1), DB := Awake(DB, 0)]

  function PairRound(now: Instant, listed: Cluster, carried: Option<Progress>, persisted: bool): WaveRound
    requires AllIn(PAIR_ORDER, listed)
  {
    var (after, stop) := Pass(PairAt(now), listed, PAIR_ORDER, carried);
    WaveRound(PairAt(now), PAIR_ORDER, carried, listed, after, stop, persisted)
  }

  /** A pass whose first workload gates and does not settle holds behind it. */
  lemma HoldingPass(cfg: Config, c: Cluster, carried: Option<Progress>)
    requires !cfg.up && cfg.waves && cfg.batch.None? && c.Keys == {WEB, DB} && WEB != DB
    requires c[WEB].wave == 1 && c[DB].wave == 0
    requires var (after, result) := cfg.scale(c[WEB]);
             !result.Failed? && Gates(after, result) && !Settled(after, false)
    requires carried.Some? ==> carried.value.wave == 1
    requires cfg.now - GateSince(carried, 1, cfg.now) < cfg.timeout
    ensures var (end, stop) := Pass(cfg, c, PAIR_ORDER, carried);
            stop == WaveGate && end.progress == Some(Progress(1, GateSince(carried, 1, cfg.now)))
  {
    var s0 := Start(cfg, c, PAIR_ORDER, carried);
    var s1, t1 := Turn(cfg, PAIR_ORDER, 0, s0);
    assert s1.members == [WEB] && s1.gateWave == 1 && s1.progress == carried && s1.cluster[DB] == c[DB] && t1.None?;
    var s2, t2 := Turn(cfg, PAIR_ORDER, 1, s1);
    assert s1.cluster[s1.members[0]] == cfg.scale(c[WEB]).0 && !WaveSettled(s1.cluster, s1.members, false);
    assert t2 == Some(WaveGate);
  }

  lemma AwakeGates(id: Id, wave: int)
    requires id.kind == Deployment
    ensures var (after, result) := DownWith(NIGHT, Always(), Always())(Awake(id, wave));
            !result.Failed? && Gates(after, result) && !Settled(after, false)
  {
    AwakeIsScaled(id, wave);
  }

  lemma DrainingGates(id: Id, wave: int)
    requires id.kind == Deployment
    ensures var (after, result) := DownWith(NIGHT, Always(), Always())(Draining(id, wave));
            !result.Failed? && Gates(after, result) && !Settled(after, false)
  {
    KeysDistinct();
    var w := Draining(id, wave);
    assert DecideDown(w.pair.workload, NIGHT) == Skip(AlreadyDown);
    assert ScaleListed(false, NIGHT, w, true, true) == (w, Skipped(AlreadyDown));
  }

  lemma PairIsListed(c: Cluster)
    requires c == RUNNING || c == DRAINING
    ensures HasWaves(PairWindow(), c) && AllIn(PAIR_ORDER, c) && c.Keys == {WEB, DB}
    ensures InWaveOrder(PairWindow(), PAIR_ORDER)
  {
    NamesDiffer();
    assert PAIR_ORDER[0] == WEB && PAIR_ORDER[1] == DB;
  }

  /** One of the two reconciles: it holds at the first wave. */
  lemma PairHolds(now: Instant, c: Cluster, carried: Option<Progress>, persisted: bool) returns (r: WaveRound)
    requires c == RUNNING || c == DRAINING
    requires carried.Some? ==> carried.value.wave == 1
    requires now - GateSince(carried, 1, now) < GAP
    ensures r.cfg == PairAt(now) && r.listed == c && r.order == PAIR_ORDER && r.carried == carried && r.persisted == persisted
    ensures WellRun(PairWindow(), r) && r.stop == WaveGate
    ensures r.after.progress == Some(Progress(1, GateSince(carried, 1, now)))
  {
    NamesDiffer();
    PairIsListed(c);
    if c == RUNNING { AwakeGates(WEB, 1); } else { DrainingGates(WEB, 1); }
    HoldingPass(PairAt(now), c, carried);
    r := PairRound(now, c, carried, persisted);
    DownIsHonest(PairWindow(), NIGHT, Always(), Always());
    IsPass(r, PairWindow());
  }

  lemma TwoWaves()
    ensures WaveSet(PairWindow()) == {0, 1} && |WaveSet(PairWindow())| == 2
  {
    NamesDiffer();
    var win := PairWindow();
    assert WEB in win.waves && win.waves[WEB] == 1 && DB in win.waves && win.waves[DB] == 0;
    assert WaveSet(win) == {0, 1};
  }

  /** The first status is lost, so the second reconcile, a timeout later, starts the clock
      of the first wave again and still holds: with nothing lost it would have gone on. */
  lemma LostStatusDelays() returns (rounds: seq<WaveRound>)
    ensures Polled(PairWindow(), rounds, GAP) && |rounds| == 2 && AllHold(rounds, 2) && Lost(rounds, 1) == 1
    ensures rounds[1].cfg.now - rounds[0].cfg.now >= PairWindow().timeout
    ensures |WaveSet(PairWindow())| == 2
    ensures rounds[1].cfg.now + GAP >= rounds[0].cfg.now + (2 - 1) * (PairWindow().timeout + GAP)
  {
    TwoWaves();
    var first, second := BothHold();
    rounds := TwoHeld(PairWindow(), first, second, GAP);
  }

  lemma BothHold() returns (first: WaveRound, second: WaveRound)
    ensures WellRun(PairWindow(), first) && WellRun(PairWindow(), second)
    ensures first.cfg == PairAt(0) && first.carried == None && !first.persisted && first.stop == WaveGate
    ensures second.cfg == PairAt(GAP) && second.carried == None && second.stop == WaveGate
  {
    first := PairHolds(0, RUNNING, None, false);
    second := PairHolds(GAP, DRAINING, None, true);
  }

  lemma TwoHeld(win: Window, first: WaveRound, second: WaveRound, gap: Duration) returns (rounds: seq<WaveRound>)
    requires WellRun(win, first) && WellRun(win, second) && win.timeout >= 0 && gap >= 0
    requires Unlimited(first) && Unlimited(second) && first.cfg.now <= second.cfg.now <= first.cfg.now + gap
    requires first.stop == WaveGate && second.stop == WaveGate && !first.persisted
    requires first.carried == None && second.carried == None
    ensures rounds == [first, second] && Polled(win, rounds, gap) && AllHold(rounds, 2) && Lost(rounds, 1) == 1
  {
    rounds := WindowOfOne(win, first);
    rounds := WindowGrows(win, rounds, second);
    TwoArePolled(win, rounds, gap);
  }

  lemma TwoArePolled(win: Window, rounds: seq<WaveRound>, gap: Duration)
    requires IsWindow(win, rounds) && |rounds| == 2 && win.timeout >= 0 && gap >= 0
    requires Unlimited(rounds[0]) && Unlimited(rounds[1]) && Ticks(rounds, 1, gap)
    requires rounds[0].stop == WaveGate && rounds[1].stop == WaveGate && !rounds[0].persisted
    ensures Polled(win, rounds, gap) && AllHold(rounds, 2) && Lost(rounds, 1) == 1
  {
    assert Lost(rounds, 0) == 0;
  }

  lemma WindowOfOne(win: Window, r: WaveRound) returns (rounds: seq<WaveRound>)
    requires WellRun(win, r) && r.carried == None
    ensures rounds == [r] && IsWindow(win, rounds)
  {
    rounds := [r];
    assert rounds[0] == r;
  }

  lemma WindowGrows(win: Window, rounds: seq<WaveRound>, r: WaveRound) returns (longer: seq<WaveRound>)
    requires IsWindow(win, rounds) && WellRun(win, r) && rounds != [] && r.carried == CarriedAfter(rounds[|rounds| - 1])
    ensures longer == rounds + [r] && IsWindow(win, longer)
  {
    longer := rounds + [r];
    forall i | 0 <= i < |longer| ensures WellRun(win, longer[i]) {
      if i < |rounds| { assert WellRun(win, rounds[i]) && longer[i] == rounds[i]; }
    }
    forall i | 0 < i < |longer| ensures longer[i].carried == CarriedAfter(longer[i - 1]) {
      if i < |rounds| { assert rounds[i].carried == CarriedAfter(rounds[i - 1]); }
    }
  }
}
