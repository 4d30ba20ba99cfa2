// One run in which a wave starts on the way up while the wave ahead of it, restored a
// reconcile earlier, is neither ready nor waited out.
module RestoredEarlier {
  import opened Wrappers
  import opened Json
  import opened Clock
  import opened Patch
  import opened Scaler
  import opened ScalerRuns
  import opened SyncWave
  import opened Batcher
  import opened WaveSafety
  import opened WaveWaiting
  import opened WorkloadScaling
  import opened DownscaleWaves
  import opened UpscaleWaves
  import opened LostStatus
  import opened BatchRefinement
  import Decimal

  const UP_ORDER: seq<Id> := [DB, WEB]
  const WARMUP: Duration := 10 * MINUTE

  function MorningWindow(): Window {
    Window(PAIR_WAVES, true, WARMUP, Nobody())
  }

  function MorningAt(now: Instant): Config {
    Config(true, true, WARMUP, now, None, UpWith(NIGHT, Always(), Always()))
  }

  /** Both workloads held down for the night. */
  const NIGHT_OVER: Cluster := map[DB := Asleep(DB, 0), WEB := Asleep(WEB, 1)]

  /** What restoring leaves, its new spec observed and no pod ready yet. */
  function Starting(w: Workload): Workload {
    var (after, _) := ScaleListed(true, NIGHT, w, true, true);
    after.(observedGeneration := after.generation)
  }

  /** Half a minute later: the database is starting. */
  function HalfUp(): Cluster {
    map[DB := Starting(Asleep(DB, 0)), WEB := Asleep(WEB, 1)]
  }

  function MorningRound(now: Instant, listed: Cluster, carried: Option<Progress>): WaveRound
    requires AllIn(UP_ORDER, listed)
  {
    var (after, stop) := Pass(MorningAt(now), listed, UP_ORDER, carried);
    WaveRound(MorningAt(now), UP_ORDER, carried, listed, after, stop, true)
  }

  lemma IsListed(c: Cluster)
    requires c.Keys == {WEB, DB} && c[DB].wave == 0 && c[WEB].wave == 1 && c[DB].id == DB && c[WEB].id == WEB
    ensures HasWaves(MorningWindow(), c) && AllIn(UP_ORDER, c) && InWaveOrder(MorningWindow(), UP_ORDER) && NoRepeats(UP_ORDER)
  {
    NamesDiffer();
    assert UP_ORDER[0] == DB && UP_ORDER[1] == WEB;
  }

  lemma AsleepIsRestored(id: Id, wave: int)
    requires id.kind == Deployment
    ensures var w := Asleep(id, wave);
            HeldBy(w, NIGHT) && ReplicasOf(w.pair.workload) == 0 && RestoredCount(Annotation(w.pair.workload, ORIGINAL_REPLICAS)) == 1
  {
    KeysDistinct();
    assert Decimal.ParseInt32("1") == Some(1);
  }

  /** What restoring the sleeping database gives, and that restoring again changes nothing. */
  lemma StartingIsUnready(id: Id, wave: int) returns (w: Workload)
    requires id.kind == Deployment
    ensures w == Starting(Asleep(id, wave)) && w.id == id && w.wave == wave
    ensures ScaleListed(true, NIGHT, Asleep(id, wave), true, true).1 == Scaled
    ensures !Settled(ScaleListed(true, NIGHT, Asleep(id, wave), true, true).0, true) && !Settled(w, true)
    ensures ScaleListed(true, NIGHT, w, true, true) == (w, Skipped(NotManaged))
  {
    var asleep := Asleep(id, wave);
    w := Starting(asleep);
    AsleepIsRestored(id, wave);
    RestoredIsUnready(NIGHT, asleep, true, true);
    UpPatchKeeps(asleep.pair.workload, asleep.pair.workload);
    assert w.pair == Pair(Patched(asleep.pair.workload, UpPatch(asleep.pair.workload)), None);
  }

  /** A first pass that restores the database holds behind it. */
  lemma FirstHolds(cfg: Config, c: Cluster)
    requires cfg.up && cfg.waves && cfg.batch.None? && c.Keys == {WEB, DB} && WEB != DB && DB.kind != CronJob && cfg.timeout > 0
    requires c[DB].wave == 0 && c[WEB].wave == 1
    requires var (after, result) := cfg.scale(c[DB]); result.Scaled? && after.id == DB && after.wave == 0 && !Settled(after, true)
    ensures var (end, stop) := Pass(cfg, c, UP_ORDER, None);
            stop == WaveGate && end.progress == Some(Progress(0, cfg.now)) && end.cluster == c[DB := cfg.scale(c[DB]).0]
  {
    var s0 := Start(cfg, c, UP_ORDER, None);
    var s1, t1 := Turn(cfg, UP_ORDER, 0, s0);
    assert s1.members == [DB] && s1.gateWave == 0 && s1.progress == None && t1.None?;
    assert s1.cluster == c[DB := cfg.scale(c[DB]).0];
    var s2, t2 := Turn(cfg, UP_ORDER, 1, s1);
    assert s1.cluster[s1.members[0]] == cfg.scale(c[DB]).0 && !WaveSettled(s1.cluster, s1.members, true);
    assert t2 == Some(WaveGate);
  }

  lemma IsUpRound(now: Instant, listed: Cluster, carried: Option<Progress>)
    requires listed.Keys == {WEB, DB} && listed[DB].wave == 0 && listed[WEB].wave == 1 && listed[DB].id == DB && listed[WEB].id == WEB
    ensures AllIn(UP_ORDER, listed)
    ensures UpRound(MorningWindow(), NIGHT, MorningRound(now, listed, carried), Answers(Always(), Always()))
  {
    IsListed(listed);
  }

  lemma NothingBlocks(win: Window, cfg: Config, carried: Option<Progress>, listed: Cluster, id: Id)
    requires win.waves == PAIR_WAVES && WEB != DB && DB in listed && !cfg.scale(listed[DB]).1.Scaled?
    ensures !Blocks(win, cfg, carried, listed, id)
  {
  }

  /** A reconcile that finds the database started earlier, the application still down, and
      nothing to wait for goes on to the end, whatever the database's readiness. */
  lemma SecondGoesOn(win: Window, r: WaveRound, api: Answers)
    requires UpRound(win, NIGHT, r, api) && r.cfg.batch.None? && r.order == UP_ORDER && win.waves == PAIR_WAVES && WEB != DB
    requires DB in r.listed && WEB in r.listed
    requires r.cfg.scale(r.listed[DB]) == (r.listed[DB], Skipped(NotManaged)) && r.cfg.scale(r.listed[WEB]).1.Scaled?
    ensures r.stop == Finished && Moved(WEB, 1) in r.after.log
    ensures DB in r.after.cluster && r.after.cluster[DB] == r.listed[DB]
  {
    UpFits(win, NIGHT, r, api);
    RoundHolds(win, r);
    UpHoldsExactly(win, NIGHT, r, api);
    forall id ensures !Blocks(win, r.cfg, r.carried, r.listed, id) {
      NothingBlocks(win, r.cfg, r.carried, r.listed, id);
    }
    RoundUp(win, NIGHT, r, api);
    assert r.order[0] == DB && r.order[1] == WEB;
  }

  lemma HalfUpIsLater(c: Cluster)
    requires WEB != DB && c == NIGHT_OVER[DB := ScaleListed(true, NIGHT, Asleep(DB, 0), true, true).0]
    ensures SameObjects(c, HalfUp())
  {
  }

  lemma FirstMorning() returns (first: WaveRound)
    ensures UpRound(MorningWindow(), NIGHT, first, Answers(Always(), Always()))
    ensures first.carried == None && first.stop == WaveGate && CarriedAfter(first) == Some(Progress(0, 0))
    ensures SameObjects(first.after.cluster, HalfUp())
  {
    NamesDiffer();
    var db := StartingIsUnready(DB, 0);
    IsUpRound(0, NIGHT_OVER, None);
    first := MorningRound(0, NIGHT_OVER, None);
    FirstHolds(MorningAt(0), NIGHT_OVER);
    HalfUpIsLater(first.after.cluster);
  }

  lemma SecondMorning(carried: Option<Progress>, db: Workload) returns (second: WaveRound)
    requires db == Starting(Asleep(DB, 0)) && db.id == DB && db.wave == 0
    requires ScaleListed(true, NIGHT, db, true, true) == (db, Skipped(NotManaged))
    ensures UpRound(MorningWindow(), NIGHT, second, Answers(Always(), Always()))
    ensures second.listed == HalfUp() && second.carried == carried && second.cfg == MorningAt(30 * SECOND)
    ensures second.stop == Finished && Moved(WEB, 1) in second.after.log
    ensures DB in second.after.cluster && second.after.cluster[DB] == db
  {
    NamesDiffer();
    var web := StartingIsUnready(WEB, 1);
    IsUpRound(30 * SECOND, HalfUp(), carried);
    second := MorningRound(30 * SECOND, HalfUp(), carried);
    SecondGoesOn(MorningWindow(), second, Answers(Always(), Always()));
  }

  /** Two reconciles, half a minute apart, of one morning. The first restores the database
      and holds behind it; the second starts the application, although the database is not
      ready and its wave has been waited for no more than that half minute of the ten. */
  lemma StartsOverUnready() returns (first: WaveRound, second: WaveRound)
    ensures UpRound(MorningWindow(), NIGHT, first, Answers(Always(), Always()))
    ensures UpRound(MorningWindow(), NIGHT, second, Answers(Always(), Always()))
    ensures first.carried == None && first.stop == WaveGate && second.carried == CarriedAfter(first)
    ensures second.carried == Some(Progress(0, 0)) && second.cfg.now == 30 * SECOND < MorningWindow().timeout
    ensures SameObjects(first.after.cluster, second.listed)
    ensures second.stop == Finished && Moved(WEB, 1) in second.after.log
    ensures DB in second.after.cluster && !Settled(second.after.cluster[DB], true) && MorningWindow().waves[DB] == 0
  {
    first := FirstMorning();
    var db := StartingIsUnready(DB, 0);
    second := SecondMorning(CarriedAfter(first), db);
  }
}
