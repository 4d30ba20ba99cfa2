// One scaling pass: workloads in wave order, a budget of scale operations, and a stop at
// the first wave boundary that does not let scaling move on.
module Batcher {
  import opened Wrappers
  import opened Clock
  import opened Scaler
  import opened SyncWave

  /** Scaling one workload, as a function: the direction, the schedule and the API's
      answers are already in it. */
  type ScaleFn = Workload -> (Workload, Result)

  datatype Config = Config(
    up: bool,
    waves: bool,             // sync waves enabled
    timeout: Duration,       // how long one wave is waited for
    now: Instant,
    batch: Option<nat>,      // the rate limit's batch size; none, or zero, is unlimited
    scale: ScaleFn)

  /** What a pass did, in order: the wave gates it evaluated, with the cluster and the
      members it judged, and the workloads it moved. */
  datatype Event =
    | Evaluated(wave: int, cluster: Cluster, members: seq<Id>, since: Instant, now: Instant, held: bool)
    | Moved(id: Id, wave: int)

  datatype Stop = Finished | BatchLimit | WaveGate

  datatype PassState = PassState(
    cluster: Cluster,
    gateWave: int,
    members: seq<Id>,
    progress: Option<Progress>,
    budget: int,
    processed: nat,
    skipped: nat,
    failed: nat,
    log: seq<Event>)

  /** waveGate at the boundary the pass has reached, and whether it holds. */
  function AtGate(cfg: Config, st: PassState): (PassState, bool)
    requires AllIn(st.members, st.cluster)
  {
    if PassedBefore(st.progress, st.gateWave, cfg.up) then (st, false)
    else
      var since := GateSince(st.progress, st.gateWave, cfg.now);
      var held := !WaveSettled(st.cluster, st.members, cfg.up) && cfg.now - since < cfg.timeout;
      (st.(progress := Some(Progress(st.gateWave, since)),
           log := st.log + [Evaluated(st.gateWave, st.cluster, st.members, since, cfg.now, held)]),
       held)
  }

  /** The part of the loop before scaling: at a new wave the gate is asked. */
  function Enter(cfg: Config, st: PassState, id: Id): (PassState, bool)
    requires id in st.cluster && AllIn(st.members, st.cluster)
  {
    var wave := st.cluster[id].wave;
    if !cfg.waves || wave == st.gateWave then (st, false)
    else
      var (gated, held) := AtGate(cfg, st);
      if held then (gated, true) else (gated.(gateWave := wave, members := []), false)
  }

  /** The part of the loop that scales one workload and keeps count. */
  function Visit(cfg: Config, st: PassState, id: Id): PassState
    requires id in st.cluster
  {
    var (w, r) := cfg.scale(st.cluster[id]);
    var after := st.(cluster := st.cluster[id := w]);
    if r.Failed? then after.(failed := st.failed + 1)
    else
      var gated := if cfg.waves && Gates(w, r) then after.(members := st.members + [id]) else after;
      if r.Skipped? then gated.(skipped := st.skipped + 1)
      else
        gated.(processed := st.processed + 1,
               budget := if st.budget > 0 then st.budget - 1 else st.budget,
               log := st.log + [Moved(id, st.cluster[id].wave)])
  }

  /** The budget ran out on this workload. */
  predicate Exhausted(cfg: Config, st: PassState, id: Id)
    requires id in st.cluster
  {
    st.budget == 1 && cfg.scale(st.cluster[id]).1.Scaled?
  }

  /** One turn of the loop, and the reason to return early if it gives one. */
  function Step(cfg: Config, st: PassState, id: Id, moreRemain: bool): (PassState, Option<Stop>)
    requires id in st.cluster && AllIn(st.members, st.cluster)
  {
    var (entered, held) := Enter(cfg, st, id);
    if held then (entered, Some(WaveGate))
    else (Visit(cfg, entered, id), if Exhausted(cfg, entered, id) && moreRemain then Some(BatchLimit) else None)
  }

  lemma StepKeepsIds(cfg: Config, st: PassState, id: Id, moreRemain: bool)
    requires id in st.cluster && AllIn(st.members, st.cluster)
    ensures var next := Step(cfg, st, id, moreRemain).0;
            next.cluster.Keys == st.cluster.Keys && AllIn(next.members, next.cluster)
  {
  }

  function PassFrom(cfg: Config, order: seq<Id>, i: nat, st: PassState): (r: (PassState, Stop))
    requires i <= |order| && AllIn(order, st.cluster) && AllIn(st.members, st.cluster)
    ensures r.0.cluster.Keys == st.cluster.Keys
    decreases |order| - i
  {
    if i == |order| then (st, Finished)
    else
      StepKeepsIds(cfg, st, order[i], i < |order| - 1);
      var (next, stop) := Step(cfg, st, order[i], i < |order| - 1);
      if stop.Some? then (next, stop.value) else PassFrom(cfg, order, i + 1, next)
  }

  /** One turn of a pass, by its result. */
  lemma Turn(cfg: Config, order: seq<Id>, i: nat, st: PassState) returns (next: PassState, stop: Option<Stop>)
    requires i < |order| && AllIn(order, st.cluster) && AllIn(st.members, st.cluster)
    ensures (next, stop) == Step(cfg, st, order[i], i < |order| - 1)
    ensures AllIn(order, next.cluster) && AllIn(next.members, next.cluster)
    ensures PassFrom(cfg, order, i, st) == if stop.Some? then (next, stop.value) else PassFrom(cfg, order, i + 1, next)
  {
    StepKeepsIds(cfg, st, order[i], i < |order| - 1);
    var step := Step(cfg, st, order[i], i < |order| - 1);
    next, stop := step.0, step.1;
  }

  function Start(cfg: Config, cluster: Cluster, order: seq<Id>, prev: Option<Progress>): PassState
    requires AllIn(order, cluster)
  {
    PassState(
      cluster,
      if cfg.waves && order != [] then cluster[order[0]].wave else 0,
      [],
      if cfg.waves then prev else None,
      if cfg.batch.Some? && cfg.batch.value > 0 then cfg.batch.value else -1,
      0, 0, 0, [])
  }

  /** scaleWorkloads over the collected workloads, already in processing order. */
  function Pass(cfg: Config, cluster: Cluster, order: seq<Id>, prev: Option<Progress>): (r: (PassState, Stop))
    requires AllIn(order, cluster)
    ensures r.0.cluster.Keys == cluster.Keys
  {
    PassFrom(cfg, order, 0, Start(cfg, cluster, order, prev))
  }

  // ---- the pass as a loop ------------------------------------------------------------------------

  /** The mutable state of one scaleWorkloads call. */
  class ScalingPass {
    var workloads: Cluster
    var gateWave: int
    var gateMembers: seq<Id>
    var waveProgress: Option<Progress>
    var budget: int
    var totalProcessed: nat
    var totalSkipped: nat
    var totalFailed: nat
    ghost var log: seq<Event>

    ghost function State(): PassState
      reads this
    {
      PassState(workloads, gateWave, gateMembers, waveProgress, budget, totalProcessed, totalSkipped, totalFailed, log)
    }

    constructor (cfg: Config, cluster: Cluster, order: seq<Id>, prev: Option<Progress>)
      requires AllIn(order, cluster)
      ensures State() == Start(cfg, cluster, order, prev)
    {
      workloads := cluster;
      budget := if cfg.batch.Some? && cfg.batch.value > 0 then cfg.batch.value else -1;
      waveProgress := if cfg.waves then prev else None;
      gateWave := if cfg.waves && |order| > 0 then cluster[order[0]].wave else 0;
      gateMembers := [];
      totalProcessed, totalSkipped, totalFailed, log := 0, 0, 0, [];
    }

    /** waveSettled: stops at the first member that has not settled. */
    method MembersSettled(up: bool) returns (settled: bool)
      requires AllIn(gateMembers, workloads)
      ensures settled == WaveSettled(workloads, gateMembers, up)
    {
      for i := 0 to |gateMembers|
        invariant forall j :: 0 <= j < i ==> Settled(workloads[gateMembers[j]], up)
      {
        if !Settled(workloads[gateMembers[i]], up) { return false; }
      }
      return true;
    }

    /** waveGate */
    method AskGate(cfg: Config) returns (hold: bool)
      requires AllIn(gateMembers, workloads)
      modifies this
      ensures (State(), hold) == AtGate(cfg, old(State()))
    {
      if waveProgress.Some? && Before(gateWave, waveProgress.value.wave, cfg.up) {
        return false;
      }
      var since := cfg.now;
      if waveProgress.Some? && waveProgress.value.wave == gateWave {
        since := waveProgress.value.since;
      }
      var settled := MembersSettled(cfg.up);
      waveProgress := Some(Progress(gateWave, since));
      hold := !settled && cfg.now - since < cfg.timeout;
      log := log + [Evaluated(gateWave, workloads, gateMembers, since, cfg.now, hold)];
    }

    /** The wave boundary in front of one workload. */
    method EnterWave(cfg: Config, id: Id) returns (hold: bool)
      requires id in workloads && AllIn(gateMembers, workloads)
      modifies this
      ensures (State(), hold) == Enter(cfg, old(State()), id)
    {
      hold := false;
      if cfg.waves {
        var wave := workloads[id].wave;
        if wave != gateWave {
          hold := AskGate(cfg);
          if !hold {
            gateWave := wave;
            gateMembers := [];
          }
        }
      }
    }

    /** Scaling one workload; exhausted says whether it took the last of the budget. */
    method ScaleOne(cfg: Config, id: Id) returns (exhausted: bool)
      requires id in workloads
      modifies this
      ensures State() == Visit(cfg, old(State()), id)
      ensures exhausted == Exhausted(cfg, old(State()), id)
    {
      var wave := workloads[id].wave;
      var (w, result) := cfg.scale(workloads[id]);
      workloads := workloads[id := w];
      exhausted := false;
      if result.Failed? {
        totalFailed := totalFailed + 1;
        return;
      }
      if cfg.waves && Gates(w, result) {
        gateMembers := gateMembers + [id];
      }
      if result.Skipped? {
        totalSkipped := totalSkipped + 1;
        return;
      }
      totalProcessed := totalProcessed + 1;
      log := log + [Moved(id, wave)];
      if budget > 0 {
        budget := budget - 1;
        exhausted := budget == 0;
      }
    }

    /** One turn of the loop. */
    method ScaleNext(cfg: Config, id: Id, moreRemain: bool) returns (stop: Option<Stop>)
      requires id in workloads && AllIn(gateMembers, workloads)
      modifies this
      ensures (State(), stop) == Step(cfg, old(State()), id, moreRemain)
    {
      var hold := EnterWave(cfg, id);
      if hold { return Some(WaveGate); }
      var exhausted := ScaleOne(cfg, id);
      return if exhausted && moreRemain then Some(BatchLimit) else None;
    }

    /** The loop of scaleWorkloads over the collected workloads in processing order: the
        state and the verdict are those of the pass, wherever it stopped. */
    method ScaleWorkloads(cfg: Config, order: seq<Id>) returns (stop: Stop)
      requires AllIn(order, workloads) && AllIn(gateMembers, workloads)
      modifies this
      ensures (State(), stop) == PassFrom(cfg, order, 0, old(State()))
    {
      for i := 0 to |order|
        invariant workloads.Keys == old(workloads).Keys && AllIn(gateMembers, workloads)
        invariant PassFrom(cfg, order, i, State()) == PassFrom(cfg, order, 0, old(State()))
      {
        assert order[i] in old(workloads);
        StepKeepsIds(cfg, State(), order[i], i < |order| - 1);
        var early := ScaleNext(cfg, order[i], i < |order| - 1);
        if early.Some? { return early.value; }
      }
      return Finished;
    }
  }

  method RunPass(cfg: Config, cluster: Cluster, order: seq<Id>, prev: Option<Progress>)
    returns (stop: Stop, after: Cluster, progress: Option<Progress>, processed: nat, skipped: nat, failed: nat)
    requires AllIn(order, cluster)
    ensures var (st, s) := Pass(cfg, cluster, order, prev);
            stop == s && after == st.cluster && progress == st.progress &&
            processed == st.processed && skipped == st.skipped && failed == st.failed
  {
    var pass := new ScalingPass(cfg, cluster, order, prev);
    stop := pass.ScaleWorkloads(cfg, order);
    return stop, pass.workloads, pass.waveProgress, pass.totalProcessed, pass.totalSkipped, pass.totalFailed;
  }
}
