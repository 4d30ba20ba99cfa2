// Wave safety for the controller's own downscale: what earlier waves look like when a
// workload is zeroed.
module DownscaleWaves {
  import opened Wrappers
  import opened Clock
  import opened Scaler
  import opened SyncWave
  import opened Batcher
  import opened WaveSafety
  import opened HpaRuns
  import opened WorkloadScaling

  /** A downscale pass in which the API refuses an arbitrary set of writes. */
  function DownWith(schedule: string, ok: Id -> bool, hpaOk: Id -> bool): ScaleFn {
    (w: Workload) => ScaleListed(false, schedule, w, ok(w.id), hpaOk(w.id))
  }

  /** Held down by this schedule, or by none in particular. */
  predicate HeldBy(o: Workload, schedule: string) {
    HeldDown(o.pair.workload) && !OwnedByOther(o.pair.workload, schedule)
  }

  function Ours(schedule: string): Workload -> bool {
    (w: Workload) => HeldBy(w, schedule)
  }

  lemma DownIsHonest(win: Window, schedule: string, ok: Id -> bool, hpaOk: Id -> bool)
    requires win.ours == Ours(schedule)
    ensures Honest(win, DownWith(schedule, ok, hpaOk))
  {
    forall w: Workload ensures HonestAt(win, DownWith(schedule, ok, hpaOk), w) {
      DownIsHonestAt(win, schedule, ok, hpaOk, w);
    }
  }

  lemma DownIsHonestAt(win: Window, schedule: string, ok: Id -> bool, hpaOk: Id -> bool, w: Workload)
    requires win.ours == Ours(schedule)
    ensures HonestAt(win, DownWith(schedule, ok, hpaOk), w)
  {
    ListedKeepsIdentity(false, schedule, w, ok(w.id), hpaOk(w.id));
    if w.id.kind != CronJob {
      var after, result := HeldPairsGate(schedule, w.pair, ok(w.id), hpaOk(w.id));
      assert DownWith(schedule, ok, hpaOk)(w) == (Written(w, after), result);
    }
  }

  /** Nothing else gates: not what its user parked at zero, not what another schedule holds,
      and no CronJob. */
  lemma DownGatesExactly(schedule: string, w: Workload, ok: bool, hpaOk: bool)
    ensures var (after, result) := ScaleListed(false, schedule, w, ok, hpaOk);
            !result.Failed? ==> (Gates(after, result) <==> w.id.kind != CronJob && HeldBy(after, schedule))
    ensures w.id.kind != CronJob && HeldBy(w, schedule) ==> ScaleListed(false, schedule, w, ok, hpaOk) == (w, Skipped(AlreadyDown))
  {
    if w.id.kind != CronJob {
      var after, result := HeldPairsGate(schedule, w.pair, ok, hpaOk);
      if result.Scaled? {
        WorkloadMarkedBy(w.pair.workload, schedule);
        DownMarks(w.pair.workload, schedule);
      }
    }
  }

  lemma ListedKeepsIdentity(up: bool, schedule: string, w: Workload, ok: bool, hpaOk: bool)
    ensures var (after, _) := ScaleListed(up, schedule, w, ok, hpaOk); after.wave == w.wave && after.id == w.id
  {
  }

  /** After a downscale, what this schedule holds down was just scaled or was down already. */
  lemma HeldPairsGate(schedule: string, p: Pair, ok: bool, hpaOk: bool) returns (after: Pair, result: Result)
    ensures (after, result) == Scale(false, schedule, p, p, ok, hpaOk)
    ensures HeldDown(after.workload) && !OwnedByOther(after.workload, schedule) ==>
              !result.Failed? &&
              (result.Skipped? ==> result.reason != DifferentSchedule && result.reason != NotManaged && result.reason != UserParked)
  {
    var scaled := Scale(false, schedule, p, p, ok, hpaOk);
    after, result := scaled.0, scaled.1;
  }

  /** Every workload of the wave that the schedule holds down has its write observed and
      no pod left. */
  predicate WaveIsDown(win: Window, schedule: string, wave: int, c: Cluster) {
    forall id :: id in win.waves && id in c && win.waves[id] == wave && id.kind != CronJob && HeldBy(c[id], schedule) ==>
      c[id].observedGeneration >= c[id].generation && c[id].pods == 0
  }

  /** The wave was evaluated at two instants of the log, up to position k, that lie the
      timeout apart; a stored start may be up to a second early. */
  ghost predicate WaitedOut(win: Window, log: seq<Event>, k: nat, wave: int)
    requires k < |log|
  {
    log[k].Evaluated? &&
    exists j :: 0 <= j <= k && log[j].Evaluated? && log[j].wave == wave &&
      (log[k].now - log[j].now >= win.timeout || log[k].now - Stored(log[j].now) >= win.timeout)
  }

  /** At position k of the log scaling was let past the wave: it was down, or waited out. */
  ghost predicate LetPast(win: Window, schedule: string, log: seq<Event>, k: nat, wave: int)
    requires k < |log|
  {
    log[k].Evaluated? && log[k].wave == wave && !log[k].held &&
    (WaveIsDown(win, schedule, wave, log[k].cluster) || WaitedOut(win, log, k, wave))
  }

  ghost predicate WaveWasLetPast(win: Window, schedule: string, log: seq<Event>, wave: int) {
    exists k :: 0 <= k < |log| && LetPast(win, schedule, log, k, wave)
  }

  lemma OpenedIsLetPast(win: Window, schedule: string, log: seq<Event>, k: nat, wave: int)
    requires !win.up && win.ours == Ours(schedule) && k < |log| && Opened(win, log, k, wave)
    ensures LetPast(win, schedule, log, k, wave)
  {
    var e := log[k];
    if WaveSettled(e.cluster, e.members, win.up) {
      forall j | j in win.waves && j in e.cluster && win.waves[j] == wave && j.kind != CronJob && HeldBy(e.cluster[j], schedule)
        ensures e.cluster[j].observedGeneration >= e.cluster[j].generation && e.cluster[j].pods == 0
      {
        SettledWorkload(win, e, j);
      }
    } else {
      var j :| 0 <= j < k + 1 && log[j].Evaluated? && log[j].wave == wave && (e.since == log[j].now || e.since == Stored(log[j].now));
      assert WaitedOut(win, log, k, wave);
    }
  }

  // ---- the controller's own downscale ----------------------------------------------------------

  /** The API's answers to the writes of one reconcile. */
  datatype Answers = Answers(ok: Id -> bool, hpaOk: Id -> bool)

  /** A downscale reconcile of the controller, whatever the API answers. */
  ghost predicate DownRound(win: Window, schedule: string, r: WaveRound, api: Answers) {
    !r.cfg.up && r.cfg.waves && r.cfg.timeout == win.timeout && r.cfg.scale == DownWith(schedule, api.ok, api.hpaOk) &&
    InWaveOrder(win, r.order) && HasWaves(win, r.listed) && AllIn(r.order, r.listed) &&
    (r.after, r.stop) == Pass(r.cfg, r.listed, r.order, r.carried)
  }

  /** The reconciles of one down window of a schedule. */
  ghost predicate IsDownWindow(win: Window, schedule: string, rounds: seq<WaveRound>, api: seq<Answers>) {
    !win.up && win.ours == Ours(schedule) && |api| == |rounds| &&
    (forall i {:trigger DownRound(win, schedule, rounds[i], api[i])} :: 0 <= i < |rounds| ==> DownRound(win, schedule, rounds[i], api[i])) &&
    (rounds != [] ==> rounds[0].carried == None) &&
    forall i {:trigger rounds[i].carried} :: 0 < i < |rounds| ==> rounds[i].carried == CarriedAfter(rounds[i - 1])
  }

  lemma DownWindowIsWindow(win: Window, schedule: string, rounds: seq<WaveRound>, api: seq<Answers>)
    requires IsDownWindow(win, schedule, rounds, api)
    ensures IsWindow(win, rounds)
  {
    forall i | 0 <= i < |rounds| ensures WellRun(win, rounds[i]) {
      assert DownRound(win, schedule, rounds[i], api[i]);
      DownIsHonest(win, schedule, api[i].ok, api[i].hpaOk);
    }
  }

  // ---- what a downscale waits for ----------------------------------------------------------------

  predicate MembersHeld(schedule: string, members: seq<Id>, c: Cluster) {
    forall id :: id in members ==> id.kind != CronJob && id in c && HeldBy(c[id], schedule)
  }

  predicate JudgesHeld(schedule: string, log: seq<Event>) {
    forall k :: 0 <= k < |log| && log[k].Evaluated? ==> MembersHeld(schedule, log[k].members, log[k].cluster)
  }

  /** The last event is an evaluation that held. */
  predicate EndsHeld(log: seq<Event>) {
    log != [] && log[|log| - 1].Evaluated? && log[|log| - 1].held
  }

  lemma EnterJudgesHeld(cfg: Config, schedule: string, st: PassState, id: Id)
    requires id in st.cluster && AllIn(st.members, st.cluster)
    requires MembersHeld(schedule, st.members, st.cluster) && JudgesHeld(schedule, st.log)
    ensures var (e, held) := Enter(cfg, st, id);
            e.cluster == st.cluster && MembersHeld(schedule, e.members, e.cluster) && JudgesHeld(schedule, e.log) &&
            (held ==> EndsHeld(e.log))
  {
  }

  lemma VisitJudgesHeld(cfg: Config, schedule: string, api: Answers, st: PassState, id: Id)
    requires cfg.scale == DownWith(schedule, api.ok, api.hpaOk) && id in st.cluster && st.cluster[id].id == id
    requires MembersHeld(schedule, st.members, st.cluster) && JudgesHeld(schedule, st.log)
    ensures var v := Visit(cfg, st, id); MembersHeld(schedule, v.members, v.cluster) && JudgesHeld(schedule, v.log)
  {
    DownGatesExactly(schedule, st.cluster[id], api.ok(id), api.hpaOk(id));
    ListedKeepsIdentity(false, schedule, st.cluster[id], api.ok(id), api.hpaOk(id));
  }

  lemma {:induction false} PassJudgesHeld(win: Window, cfg: Config, schedule: string, api: Answers, order: seq<Id>, i: nat, st: PassState)
    requires cfg.scale == DownWith(schedule, api.ok, api.hpaOk) && Fits(win, cfg) && HasWaves(win, st.cluster)
    requires i <= |order| && AllIn(order, st.cluster) && AllIn(st.members, st.cluster)
    requires MembersHeld(schedule, st.members, st.cluster) && JudgesHeld(schedule, st.log)
    ensures var (end, stop) := PassFrom(cfg, order, i, st); JudgesHeld(schedule, end.log) && (stop == WaveGate ==> EndsHeld(end.log))
    decreases |order| - i
  {
    if i < |order| {
      var next, stop := Turn(cfg, order, i, st);
      EnterJudgesHeld(cfg, schedule, st, order[i]);
      var (entered, held) := Enter(cfg, st, order[i]);
      if !held {
        VisitJudgesHeld(cfg, schedule, api, entered, order[i]);
        VisitMembers(win, cfg, entered, order[i]);
      }
      if stop.None? { PassJudgesHeld(win, cfg, schedule, api, order, i + 1, next); }
    }
  }

  /** A downscale judges, and so waits for, nothing but Deployments and StatefulSets the
      schedule itself holds down: in particular nothing its user parked at zero, nothing
      another schedule holds, and no CronJob. */
  lemma DownWaitsOnlyForHeld(win: Window, schedule: string, r: WaveRound, api: Answers)
    requires DownRound(win, schedule, r, api) && !win.up && win.ours == Ours(schedule)
    ensures JudgesHeld(schedule, r.after.log)
    ensures r.stop == WaveGate ==> EndsHeld(r.after.log)
  {
    DownIsHonest(win, schedule, api.ok, api.hpaOk);
    PassJudgesHeld(win, r.cfg, schedule, api, r.order, 0, Start(r.cfg, r.listed, r.order, r.carried));
  }

  /** A workload is changed only by a scaling that is counted as one. */
  ghost predicate MovesWhatItChanges(scale: ScaleFn) {
    forall w: Workload {:trigger scale(w)} ::
      w.id.kind != CronJob && scale(w).0.pair.workload != w.pair.workload ==> scale(w).1.Scaled?
  }

  lemma DownMovesWhatItChanges(schedule: string, api: Answers)
    ensures MovesWhatItChanges(DownWith(schedule, api.ok, api.hpaOk))
  {
  }

  /** The log says the workload moved. */
  ghost predicate HasMoved(log: seq<Event>, id: Id, wave: int) {
    Moved(id, wave) in log
  }

  lemma StepMovesWhatItChanges(win: Window, cfg: Config, st: PassState, visited: Id, id: Id, more: bool, next: PassState, stop: Option<Stop>)
    requires Fits(win, cfg) && MovesWhatItChanges(cfg.scale) && HasWaves(win, st.cluster) && AllIn(st.members, st.cluster)
    requires visited in st.cluster && id in st.cluster && id.kind != CronJob
    requires (next, stop) == Step(cfg, st, visited, more)
    ensures HasWaves(win, next.cluster) && AllIn(next.members, next.cluster) && st.log <= next.log
    ensures next.cluster[id].pair.workload == st.cluster[id].pair.workload || HasMoved(next.log, id, win.waves[id])
  {
    var (entered, held) := Enter(cfg, st, visited);
    assert entered.cluster == st.cluster && st.log <= entered.log && AllIn(entered.members, entered.cluster);
    if !held {
      VisitMembers(win, cfg, entered, visited);
      VisitLog(cfg, entered, visited);
    }
  }

  lemma {:induction false} PassMovesWhatItChanges(win: Window, cfg: Config, order: seq<Id>, i: nat, st: PassState, id: Id)
    requires Fits(win, cfg) && MovesWhatItChanges(cfg.scale) && HasWaves(win, st.cluster)
    requires i <= |order| && AllIn(order, st.cluster) && AllIn(st.members, st.cluster)
    requires id in st.cluster && id.kind != CronJob
    ensures var end := PassFrom(cfg, order, i, st).0;
            st.log <= end.log &&
            (end.cluster[id].pair.workload == st.cluster[id].pair.workload || HasMoved(end.log, id, win.waves[id]))
    decreases |order| - i
  {
    if i < |order| {
      var next, stop := Turn(cfg, order, i, st);
      StepMovesWhatItChanges(win, cfg, st, order[i], id, i < |order| - 1, next, stop);
      if stop.None? { PassMovesWhatItChanges(win, cfg, order, i + 1, next, id); }
    }
  }

  /** The reconcile found the workload with replicas and left it without. */
  predicate Zeroed(r: WaveRound, id: Id) {
    id in r.listed && id in r.after.cluster && id.kind != CronJob &&
    ReplicasOf(r.listed[id].pair.workload) != 0 && ReplicasOf(r.after.cluster[id].pair.workload) == 0
  }

  /** Whenever a downscale reconcile zeroes a workload, it did so at a point of its log at
      which each earlier wave had, in this window, a gate evaluation that did not hold; and
      at that one every workload of the wave the schedule holds down had no pods left, or
      the wave had been waited out. */
  lemma ZeroingWaitsForEarlierWaves(win: Window, schedule: string, rounds: seq<WaveRound>, api: seq<Answers>, n: nat, zeroed: Id, id: Id)
    returns (m: nat)
    requires IsDownWindow(win, schedule, rounds, api) && n < |rounds| && Zeroed(rounds[n], zeroed)
    requires id in win.waves && zeroed in win.waves && win.waves[id] > win.waves[zeroed]
    ensures m < |rounds[n].after.log| && rounds[n].after.log[m] == Moved(zeroed, win.waves[zeroed])
    ensures WaveWasLetPast(win, schedule, History(rounds, n) + rounds[n].after.log[..m], win.waves[id])
  {
    var r := rounds[n];
    DownWindowIsWindow(win, schedule, rounds, api);
    assert DownRound(win, schedule, r, api[n]) && WellRun(win, r);
    DownMovesWhatItChanges(schedule, api[n]);
    PassMovesWhatItChanges(win, r.cfg, r.order, 0, Start(r.cfg, r.listed, r.order, r.carried), zeroed);
    assert HasMoved(r.after.log, zeroed, win.waves[zeroed]);
    m :| 0 <= m < |r.after.log| && r.after.log[m] == Moved(zeroed, win.waves[zeroed]);
    MovesWaitForEarlierWaves(win, rounds, n, m, id);
    var log := History(rounds, n) + r.after.log[..m];
    var k :| 0 <= k < |log| && Opened(win, log, k, win.waves[id]);
    OpenedIsLetPast(win, schedule, log, k, win.waves[id]);
    assert WaveWasLetPast(win, schedule, log, win.waves[id]);
  }
}
