// Wave order on the way up. A restored workload gates in the reconcile that restored it
// and in no later one, so the gate is a promise about single passes.
module UpscaleWaves {
  import opened Wrappers
  import opened Clock
  import opened Scaler
  import opened ScalerRuns
  import opened SyncWave
  import opened Batcher
  import opened WaveSafety
  import opened WaveWaiting
  import opened WorkloadScaling
  import opened DownscaleWaves

  /** An upscale pass in which the API refuses an arbitrary set of writes. */
  function UpWith(schedule: string, ok: Id -> bool, hpaOk: Id -> bool): ScaleFn {
    (w: Workload) => ScaleListed(true, schedule, w, ok(w.id), hpaOk(w.id))
  }

  function Nobody(): Workload -> bool {
    (w: Workload) => false
  }

  /** What gates is exactly what was just scaled, CronJobs apart. */
  ghost predicate CountsMoves(scale: ScaleFn) {
    forall w: Workload {:trigger CountsMove(scale, w)} :: CountsMove(scale, w)
  }

  ghost predicate CountsMove(scale: ScaleFn, w: Workload) {
    var (after, result) := scale(w);
    after.wave == w.wave && after.id == w.id &&
    (!result.Failed? ==> (Gates(after, result) <==> result.Scaled? && w.id.kind != CronJob))
  }

  /** On the way up only what the pass itself moved gates: a workload restored before is
      reported as not managed. */
  lemma UpCountsMoves(schedule: string, ok: Id -> bool, hpaOk: Id -> bool)
    ensures CountsMoves(UpWith(schedule, ok, hpaOk))
  {
    forall w: Workload ensures CountsMove(UpWith(schedule, ok, hpaOk), w) {
      ListedKeepsIdentity(true, schedule, w, ok(w.id), hpaOk(w.id));
      UpReports(schedule, w, ok(w.id), hpaOk(w.id));
    }
  }

  lemma UpReports(schedule: string, w: Workload, ok: bool, hpaOk: bool)
    ensures var (after, result) := ScaleListed(true, schedule, w, ok, hpaOk);
            !result.Failed? ==> (Gates(after, result) <==> result.Scaled? && w.id.kind != CronJob)
  {
  }

  // ---- the log of a pass ------------------------------------------------------------------

  /** The evaluation judged the workloads moved in its wave so far, on a clock the carried
      record keeps; its wave does not lie before that record. */
  ghost predicate Evaluates(win: Window, now: Instant, carried: Option<Progress>, past: seq<Event>, e: Event)
    requires e.Evaluated?
  {
    AllIn(e.members, e.cluster) && Judged(win, e) &&
    e.now == now && e.since == GateSince(carried, e.wave, now) && !PassedBefore(carried, e.wave, true) &&
    forall id :: id in e.members <==> id.kind != CronJob && Moved(id, e.wave) in past
  }

  /** At position k the wave was let go with this workload among those judged. */
  predicate LetGo(log: seq<Event>, k: nat, wave: int, id: Id)
    requires k < |log|
  {
    log[k].Evaluated? && log[k].wave == wave && !log[k].held && id in log[k].members
  }

  ghost predicate WasLetGo(log: seq<Event>, wave: int, id: Id) {
    exists k {:trigger LetGo(log, k, wave, id)} :: 0 <= k < |log| && LetGo(log, k, wave, id)
  }

  /** What gates was moved in an earlier wave that the carried record does not skip. */
  predicate MovedEarlier(win: Window, carried: Option<Progress>, log: seq<Event>, wave: int, id: Id) {
    id in win.waves && id.kind != CronJob && win.waves[id] < wave && Moved(id, win.waves[id]) in log &&
    !PassedBefore(carried, win.waves[id], true)
  }

  ghost predicate EarlierLetGo(win: Window, carried: Option<Progress>, log: seq<Event>, wave: int) {
    forall id {:trigger MovedEarlier(win, carried, log, wave, id)} ::
      MovedEarlier(win, carried, log, wave, id) ==> WasLetGo(log, win.waves[id], id)
  }

  /** Waves come in order: no event of a wave after this one, no gate of this one yet. */
  predicate UpTo(log: seq<Event>, wave: int) {
    forall i :: 0 <= i < |log| ==> if log[i].Moved? then log[i].wave <= wave else log[i].wave < wave
  }

  /** The move is of the collection, in wave order, with the earlier waves let go. */
  ghost predicate Moves(win: Window, carried: Option<Progress>, past: seq<Event>, e: Event)
    requires e.Moved?
  {
    e.id in win.waves && win.waves[e.id] == e.wave && UpTo(past, e.wave) && EarlierLetGo(win, carried, past, e.wave)
  }

  ghost predicate EventSound(win: Window, now: Instant, carried: Option<Progress>, log: seq<Event>, k: nat)
    requires k < |log|
  {
    if log[k].Moved? then Moves(win, carried, log[..k], log[k]) else Evaluates(win, now, carried, log[..k], log[k])
  }

  ghost predicate LogSound(win: Window, now: Instant, carried: Option<Progress>, log: seq<Event>) {
    forall k {:trigger EventSound(win, now, carried, log, k)} :: 0 <= k < |log| ==> EventSound(win, now, carried, log, k)
  }

  lemma EventAppended(win: Window, now: Instant, carried: Option<Progress>, log: seq<Event>, e: Event)
    requires LogSound(win, now, carried, log)
    requires if e.Moved? then Moves(win, carried, log, e) else Evaluates(win, now, carried, log, e)
    ensures LogSound(win, now, carried, log + [e])
  {
    var longer := log + [e];
    forall k | 0 <= k < |longer| ensures EventSound(win, now, carried, longer, k) {
      if k < |log| {
        assert EventSound(win, now, carried, log, k) && longer[k] == log[k] && longer[..k] == log[..k];
      } else {
        assert longer[..k] == log;
      }
    }
  }

  lemma LetGoMonotone(log: seq<Event>, e: Event, wave: int, id: Id)
    requires WasLetGo(log, wave, id)
    ensures WasLetGo(log + [e], wave, id)
  {
    var k :| 0 <= k < |log| && LetGo(log, k, wave, id);
    assert (log + [e])[k] == log[k] && LetGo(log + [e], k, wave, id);
  }

  /** Before the next event in this wave: the log so far, with every earlier wave let go. */
  ghost predicate InWave(win: Window, now: Instant, carried: Option<Progress>, log: seq<Event>, wave: int) {
    LogSound(win, now, carried, log) && UpTo(log, wave) && EarlierLetGo(win, carried, log, wave)
  }

  lemma MoveAppended(win: Window, now: Instant, carried: Option<Progress>, log: seq<Event>, wave: int, id: Id)
    requires InWave(win, now, carried, log, wave) && id in win.waves && win.waves[id] == wave
    ensures InWave(win, now, carried, log + [Moved(id, wave)], wave)
  {
    var e := Moved(id, wave);
    EventAppended(win, now, carried, log, e);
    forall other | MovedEarlier(win, carried, log + [e], wave, other) ensures WasLetGo(log + [e], win.waves[other], other) {
      assert MovedEarlier(win, carried, log, wave, other);
      LetGoMonotone(log, e, win.waves[other], other);
    }
  }

  /** An evaluation that lets the wave go, and the wave after it. */
  lemma EvaluationAppended(win: Window, now: Instant, carried: Option<Progress>, log: seq<Event>, wave: int, e: Event, next: int)
    requires InWave(win, now, carried, log, wave) && wave < next
    requires e.Evaluated? && e.wave == wave && !e.held && Evaluates(win, now, carried, log, e)
    ensures InWave(win, now, carried, log + [e], next)
  {
    var longer := log + [e];
    EventAppended(win, now, carried, log, e);
    forall id | MovedEarlier(win, carried, longer, next, id) ensures WasLetGo(longer, win.waves[id], id) {
      assert Moved(id, win.waves[id]) in log;
      MovedWave(win, log, wave, id);
      if win.waves[id] == wave {
        assert longer[|log|] == e && LetGo(longer, |log|, wave, id);
      } else {
        assert MovedEarlier(win, carried, log, wave, id);
        LetGoMonotone(log, e, win.waves[id], id);
      }
    }
  }

  lemma MovedWave(win: Window, log: seq<Event>, wave: int, id: Id)
    requires UpTo(log, wave) && id in win.waves && Moved(id, win.waves[id]) in log
    ensures win.waves[id] <= wave
  {
    var m :| 0 <= m < |log| && log[m] == Moved(id, win.waves[id]);
  }

  /** A wave the carried record skips is passed without an evaluation. */
  lemma WaveSkipped(win: Window, now: Instant, carried: Option<Progress>, log: seq<Event>, wave: int, next: int)
    requires InWave(win, now, carried, log, wave) && wave < next && PassedBefore(carried, wave, true)
    ensures InWave(win, now, carried, log, next)
  {
    forall id ensures !MovedEarlier(win, carried, log, next, id) {
      if id in win.waves && Moved(id, win.waves[id]) in log { MovedWave(win, log, wave, id); }
    }
  }

  // ---- what the pass moves ------------------------------------------------------------------

  /** Scaling this workload as listed restores it. */
  predicate Restores(cfg: Config, listed: Cluster, id: Id) {
    id in listed && cfg.scale(listed[id]).1.Scaled?
  }

  /** These were restored from what was listed, and stand in the cluster as that left them. */
  predicate AsRestored(cfg: Config, listed: Cluster, members: seq<Id>, c: Cluster) {
    forall id :: id in members ==> id.kind != CronJob && Restores(cfg, listed, id) && id in c && c[id] == cfg.scale(listed[id]).0
  }

  predicate JudgedAsRestored(cfg: Config, listed: Cluster, log: seq<Event>) {
    forall k :: 0 <= k < |log| && log[k].Evaluated? ==> AsRestored(cfg, listed, log[k].members, log[k].cluster)
  }

  /** Before the i-th workload: those up to here stand as scaling leaves them, the rest as
      listed. */
  predicate Stands(cfg: Config, listed: Cluster, order: seq<Id>, i: nat, c: Cluster)
    requires i <= |order|
  {
    forall j :: 0 <= j < |order| ==>
      order[j] in listed && order[j] in c &&
      c[order[j]] == if j < i then cfg.scale(listed[order[j]]).0 else listed[order[j]]
  }

  /** What had to be restored up to here was moved. */
  predicate RestoredUpTo(win: Window, cfg: Config, listed: Cluster, order: seq<Id>, i: nat, log: seq<Event>)
    requires i <= |order| && InWaveOrder(win, order)
  {
    forall j :: 0 <= j < i && Restores(cfg, listed, order[j]) ==> Moved(order[j], win.waves[order[j]]) in log
  }

  /** The members are the workloads moved in the wave being processed. */
  ghost predicate MembersMoved(st: PassState) {
    forall id :: id in st.members <==> id.kind != CronJob && Moved(id, st.gateWave) in st.log
  }

  predicate NoRepeats(order: seq<Id>) {
    forall i, j :: 0 <= i < j < |order| ==> order[i] != order[j]
  }

  ghost predicate FitsUp(win: Window, cfg: Config) {
    win.up && Fits(win, cfg) && CountsMoves(cfg.scale)
  }

  predicate Visited(order: seq<Id>, i: nat, id: Id)
    requires i <= |order|
  {
    exists j :: 0 <= j < i && order[j] == id
  }

  predicate AllVisited(order: seq<Id>, i: nat, ids: seq<Id>)
    requires i <= |order|
  {
    forall id {:trigger Visited(order, i, id)} :: id in ids ==> Visited(order, i, id)
  }

  /** What a pass has kept to before the i-th workload. */
  ghost predicate Kept(win: Window, cfg: Config, carried: Option<Progress>, listed: Cluster, order: seq<Id>, i: nat, st: PassState)
    requires i <= |order| && InWaveOrder(win, order)
  {
    Advanced(win, st, carried) && MembersMoved(st) && InWave(win, cfg.now, carried, st.log, st.gateWave) &&
    Stands(cfg, listed, order, i, st.cluster) && RestoredUpTo(win, cfg, listed, order, i, st.log) &&
    AllVisited(order, i, st.members) &&
    AsRestored(cfg, listed, st.members, st.cluster) && JudgedAsRestored(cfg, listed, st.log)
  }

  ghost predicate UpSound(win: Window, cfg: Config, carried: Option<Progress>, listed: Cluster, order: seq<Id>, i: nat, st: PassState)
    requires i <= |order| && InWaveOrder(win, order)
  {
    AtWave(win, order, i, st) && Kept(win, cfg, carried, listed, order, i, st)
  }

  /** In front of the i-th workload, in its wave. */
  ghost predicate UpEntered(win: Window, cfg: Config, carried: Option<Progress>, listed: Cluster, order: seq<Id>, i: nat, e: PassState)
    requires i < |order| && InWaveOrder(win, order)
  {
    HasWaves(win, e.cluster) && AllIn(e.members, e.cluster) && e.gateWave == win.waves[order[i]] &&
    Kept(win, cfg, carried, listed, order, i, e)
  }

  /** The last event is a gate that held in front of a later wave. */
  ghost predicate StandsHeld(win: Window, log: seq<Event>) {
    log != [] && log[|log| - 1].Evaluated? && log[|log| - 1].held &&
    exists later :: later in win.waves && win.waves[later] > log[|log| - 1].wave
  }

  /** What holds of the log wherever the pass ends. */
  ghost predicate LogKept(win: Window, cfg: Config, carried: Option<Progress>, listed: Cluster, log: seq<Event>) {
    LogSound(win, cfg.now, carried, log) && JudgedAsRestored(cfg, listed, log)
  }

  // ---- a turn of the pass ---------------------------------------------------------------------

  /** The clock of the gate is the one the carried record keeps. */
  lemma ClockKept(win: Window, st: PassState, carried: Option<Progress>, now: Instant)
    requires win.up && Advanced(win, st, carried)
    ensures GateSince(st.progress, st.gateWave, now) == GateSince(carried, st.gateWave, now)
    ensures PassedBefore(st.progress, st.gateWave, true) <==> PassedBefore(carried, st.gateWave, true)
  {
  }

  /** The evaluation at the end of a wave. */
  lemma GateEvent(win: Window, cfg: Config, carried: Option<Progress>, st: PassState) returns (e: Event, held: bool)
    requires FitsUp(win, cfg) && Advanced(win, st, carried) && AllIn(st.members, st.cluster) && MembersMoved(st)
    requires !PassedBefore(carried, st.gateWave, true)
    ensures AtGate(cfg, st).1 == held && AtGate(cfg, st).0.log == st.log + [e]
    ensures e.Evaluated? && e.wave == st.gateWave && e.cluster == st.cluster && e.members == st.members && e.held == held
    ensures Evaluates(win, cfg.now, carried, st.log, e)
  {
    ClockKept(win, st, carried, cfg.now);
    var gate := AtGate(cfg, st);
    held := gate.1;
    e := Evaluated(st.gateWave, st.cluster, st.members, GateSince(st.progress, st.gateWave, cfg.now), cfg.now, held);
  }

  /** Nothing of a later wave has moved yet. */
  lemma NextIsUnmoved(log: seq<Event>, wave: int, next: int)
    requires UpTo(log, wave) && wave < next
    ensures forall id :: Moved(id, next) !in log
  {
  }

  lemma EventTracked(cfg: Config, listed: Cluster, log: seq<Event>, e: Event)
    requires JudgedAsRestored(cfg, listed, log)
    requires e.Evaluated? ==> AsRestored(cfg, listed, e.members, e.cluster)
    ensures JudgedAsRestored(cfg, listed, log + [e])
  {
  }

  lemma EnterUp(win: Window, cfg: Config, carried: Option<Progress>, listed: Cluster, order: seq<Id>, i: nat, st: PassState)
    returns (e: PassState, held: bool)
    requires FitsUp(win, cfg) && InWaveOrder(win, order) && i < |order| && UpSound(win, cfg, carried, listed, order, i, st)
    ensures (e, held) == Enter(cfg, st, order[i])
    ensures !held ==> UpEntered(win, cfg, carried, listed, order, i, e)
    ensures held ==> StandsHeld(win, e.log) && LogKept(win, cfg, carried, listed, e.log)
  {
    EnterHolds(win, cfg, carried, order, i, st);
    var entered := Enter(cfg, st, order[i]);
    e, held := entered.0, entered.1;
    if win.waves[order[i]] != st.gateWave {
      LaterWave(win, order, i, st);
      CrossUp(win, cfg, carried, listed, order[i], st, e, held);
    }
  }

  lemma CrossUp(win: Window, cfg: Config, carried: Option<Progress>, listed: Cluster, id: Id, st: PassState, e: PassState, held: bool)
    requires FitsUp(win, cfg) && Advanced(win, st, carried) && AllIn(st.members, st.cluster) && MembersMoved(st)
    requires InWave(win, cfg.now, carried, st.log, st.gateWave)
    requires AsRestored(cfg, listed, st.members, st.cluster) && JudgedAsRestored(cfg, listed, st.log)
    requires id in st.cluster && id in win.waves && st.cluster[id].wave == win.waves[id] > st.gateWave && (e, held) == Enter(cfg, st, id)
    ensures LogKept(win, cfg, carried, listed, e.log) && st.log <= e.log
    ensures if held then StandsHeld(win, e.log) else e.members == [] && MembersMoved(e) && InWave(win, cfg.now, carried, e.log, e.gateWave)
  {
    var next := win.waves[id];
    ClockKept(win, st, carried, cfg.now);
    if PassedBefore(carried, st.gateWave, true) {
      WaveSkipped(win, cfg.now, carried, st.log, st.gateWave, next);
      NextIsUnmoved(st.log, st.gateWave, next);
    } else {
      var event, h := GateEvent(win, cfg, carried, st);
      EventTracked(cfg, listed, st.log, event);
      EventAppended(win, cfg.now, carried, st.log, event);
      if !held {
        EvaluationAppended(win, cfg.now, carried, st.log, st.gateWave, event, next);
        NextIsUnmoved(st.log, st.gateWave, next);
      }
    }
  }

  lemma LaterWave(win: Window, order: seq<Id>, i: nat, st: PassState)
    requires win.up && InWaveOrder(win, order) && i < |order| && AtWave(win, order, i, st) && win.waves[order[i]] != st.gateWave
    ensures st.gateWave < win.waves[order[i]]
  {
    var prev := if i == 0 then 0 else i - 1;
    assert !Before(win.waves[order[i]], win.waves[order[prev]], win.up);
  }

  lemma VisitUp(cfg: Config, e: PassState, id: Id) returns (v: PassState, moved: bool)
    requires cfg.waves && CountsMoves(cfg.scale) && id in e.cluster && e.cluster[id].id == id
    ensures v == Visit(cfg, e, id) && moved == cfg.scale(e.cluster[id]).1.Scaled?
    ensures v.cluster == e.cluster[id := cfg.scale(e.cluster[id]).0]
    ensures v.gateWave == e.gateWave && v.progress == e.progress
    ensures v.log == if moved then e.log + [Moved(id, e.cluster[id].wave)] else e.log
    ensures v.members == if moved && id.kind != CronJob then e.members + [id] else e.members
  {
    assert CountsMove(cfg.scale, e.cluster[id]);
    v, moved := Visit(cfg, e, id), cfg.scale(e.cluster[id]).1.Scaled?;
  }

  /** The members after a visit are again what was moved in the wave. */
  lemma MembersGrow(e: PassState, id: Id, v: PassState, moved: bool)
    requires MembersMoved(e) && v.gateWave == e.gateWave
    requires v.log == if moved then e.log + [Moved(id, e.gateWave)] else e.log
    requires v.members == if moved && id.kind != CronJob then e.members + [id] else e.members
    ensures MembersMoved(v)
  {
  }

  lemma VisitStands(cfg: Config, listed: Cluster, order: seq<Id>, i: nat, c: Cluster, id: Id)
    requires NoRepeats(order) && i < |order| && id == order[i] && Stands(cfg, listed, order, i, c)
    ensures Stands(cfg, listed, order, i + 1, c[id := cfg.scale(c[id]).0])
  {
  }

  lemma MembersStand(cfg: Config, listed: Cluster, order: seq<Id>, i: nat, members: seq<Id>, c: Cluster, id: Id, moved: bool)
    returns (after: seq<Id>)
    requires NoRepeats(order) && i < |order| && id == order[i] && Stands(cfg, listed, order, i, c)
    requires AsRestored(cfg, listed, members, c) && AllVisited(order, i, members)
    requires moved == cfg.scale(c[id]).1.Scaled?
    ensures after == if moved && id.kind != CronJob then members + [id] else members
    ensures AsRestored(cfg, listed, after, c[id := cfg.scale(c[id]).0]) && AllVisited(order, i + 1, after)
  {
    after := if moved && id.kind != CronJob then members + [id] else members;
    forall m | m in after
      ensures m == id || m in members
      ensures Visited(order, i + 1, m)
    {
      if m in members {
        assert Visited(order, i, m);
      } else {
        assert order[i] == m;
      }
    }
  }

  lemma VisitSound(win: Window, cfg: Config, carried: Option<Progress>, listed: Cluster, order: seq<Id>, i: nat, e: PassState)
    requires FitsUp(win, cfg) && InWaveOrder(win, order) && NoRepeats(order) && i < |order| && UpEntered(win, cfg, carried, listed, order, i, e)
    ensures UpSound(win, cfg, carried, listed, order, i + 1, Visit(cfg, e, order[i]))
  {
    var id := order[i];
    var v, moved := VisitUp(cfg, e, id);
    VisitStays(win, cfg, e, id, carried);
    MembersGrow(e, id, v, moved);
    VisitStands(cfg, listed, order, i, e.cluster, id);
    var _ := MembersStand(cfg, listed, order, i, e.members, e.cluster, id, moved);
    if moved {
      MoveAppended(win, cfg.now, carried, e.log, e.gateWave, id);
      EventTracked(cfg, listed, e.log, Moved(id, e.gateWave));
    }
  }

  lemma StepUp(win: Window, cfg: Config, carried: Option<Progress>, listed: Cluster, order: seq<Id>, i: nat, st: PassState, more: bool,
               next: PassState, stop: Option<Stop>)
    requires FitsUp(win, cfg) && InWaveOrder(win, order) && NoRepeats(order) && i < |order|
    requires UpSound(win, cfg, carried, listed, order, i, st) && order[i] in st.cluster
    requires (next, stop) == Step(cfg, st, order[i], more)
    ensures LogKept(win, cfg, carried, listed, next.log)
    ensures if stop == Some(WaveGate) then StandsHeld(win, next.log) else UpSound(win, cfg, carried, listed, order, i + 1, next)
    ensures stop != Some(Finished)
  {
    var e, held := EnterUp(win, cfg, carried, listed, order, i, st);
    if !held { VisitSound(win, cfg, carried, listed, order, i, e); }
  }

  /** The turn of the k-th workload leads from one state to the next. */
  predicate Goes(cfg: Config, order: seq<Id>, k: nat, st: PassState, next: PassState) {
    k < |order| && order[k] in st.cluster && AllIn(st.members, st.cluster) &&
    (next, None) == Step(cfg, st, order[k], k < |order| - 1)
  }

  predicate GoesAt(cfg: Config, order: seq<Id>, i: nat, trace: seq<PassState>, k: nat)
    requires k + 1 < |trace|
  {
    Goes(cfg, order, i + k, trace[k], trace[k + 1])
  }

  /** The states of a pass from the i-th workload up to where it stops. */
  predicate IsTrace(cfg: Config, order: seq<Id>, i: nat, trace: seq<PassState>) {
    trace != [] && i + |trace| <= |order| + 1 &&
    forall k {:trigger GoesAt(cfg, order, i, trace, k)} :: 0 <= k < |trace| - 1 ==> GoesAt(cfg, order, i, trace, k)
  }

  /** The pass ended in the turn of the j-th workload, or past the last one. */
  predicate EndsIn(cfg: Config, order: seq<Id>, j: nat, last: PassState, end: PassState, reason: Stop) {
    j <= |order| &&
    if j == |order| then end == last && reason == Finished
    else
      order[j] in last.cluster && AllIn(last.members, last.cluster) &&
      (end, Some(reason)) == Step(cfg, last, order[j], j < |order| - 1)
  }

  /** The states from this one up to the last, before the j-th workload. */
  predicate Traces(cfg: Config, order: seq<Id>, i: nat, st: PassState, trace: seq<PassState>, j: nat, last: PassState) {
    IsTrace(cfg, order, i, trace) && trace[0] == st && trace[|trace| - 1] == last && j == i + |trace| - 1
  }

  lemma {:induction false} PassTrace(cfg: Config, order: seq<Id>, i: nat, st: PassState, end: PassState, reason: Stop)
    returns (trace: seq<PassState>, j: nat, last: PassState)
    requires i <= |order| && AllIn(order, st.cluster) && AllIn(st.members, st.cluster)
    requires (end, reason) == PassFrom(cfg, order, i, st)
    ensures Traces(cfg, order, i, st, trace, j, last) && EndsIn(cfg, order, j, last, end, reason)
    decreases |order| - i
  {
    trace, j, last := [st], i, st;
    if i < |order| {
      var next, stop := Turn(cfg, order, i, st);
      if stop.None? {
        var rest;
        rest, j, last := PassTrace(cfg, order, i + 1, next, end, reason);
        trace := TraceGrows(cfg, order, i, st, next, rest, j, last);
      }
    }
  }

  lemma TraceGrows(cfg: Config, order: seq<Id>, i: nat, st: PassState, next: PassState, rest: seq<PassState>, j: nat, last: PassState)
    returns (trace: seq<PassState>)
    requires Traces(cfg, order, i + 1, next, rest, j, last) && Goes(cfg, order, i, st, next)
    ensures Traces(cfg, order, i, st, trace, j, last)
  {
    trace := [st] + rest;
    forall k | 0 <= k < |trace| - 1 ensures GoesAt(cfg, order, i, trace, k) {
      if k > 0 { assert GoesAt(cfg, order, i + 1, rest, k - 1); }
    }
  }

  /** Every state of the pass is as it should be. */
  lemma {:induction false} TraceUp(win: Window, cfg: Config, carried: Option<Progress>, listed: Cluster, order: seq<Id>,
                                   trace: seq<PassState>, k: nat)
    requires FitsUp(win, cfg) && InWaveOrder(win, order) && NoRepeats(order) && IsTrace(cfg, order, 0, trace) && k < |trace|
    requires UpSound(win, cfg, carried, listed, order, 0, trace[0])
    ensures UpSound(win, cfg, carried, listed, order, k, trace[k])
  {
    if k > 0 {
      TraceUp(win, cfg, carried, listed, order, trace, k - 1);
      assert GoesAt(cfg, order, 0, trace, k - 1);
      StepUp(win, cfg, carried, listed, order, k - 1, trace[k - 1], k - 1 < |order| - 1, trace[k], None);
    }
  }

  // ---- the controller's own upscale ------------------------------------------------------------

  /** An upscale reconcile of the controller, whatever the API answers. The listing names
      every workload once. On the way up nothing counts as the schedule's own beforehand. */
  ghost predicate UpRound(win: Window, schedule: string, r: WaveRound, api: Answers) {
    win.up && win.ours == Nobody() &&
    r.cfg.up && r.cfg.waves && r.cfg.timeout == win.timeout && r.cfg.scale == UpWith(schedule, api.ok, api.hpaOk) &&
    InWaveOrder(win, r.order) && NoRepeats(r.order) && HasWaves(win, r.listed) && AllIn(r.order, r.listed) &&
    (r.after, r.stop) == Pass(r.cfg, r.listed, r.order, r.carried)
  }

  lemma UpFits(win: Window, schedule: string, r: WaveRound, api: Answers)
    requires UpRound(win, schedule, r, api)
    ensures FitsUp(win, r.cfg)
  {
    UpCountsMoves(schedule, api.ok, api.hpaOk);
    forall w: Workload ensures HonestAt(win, r.cfg.scale, w) {
      assert CountsMove(r.cfg.scale, w);
    }
  }

  lemma StartUp(win: Window, r: WaveRound)
    requires win.up && r.cfg.waves && InWaveOrder(win, r.order) && HasWaves(win, r.listed) && AllIn(r.order, r.listed)
    ensures UpSound(win, r.cfg, r.carried, r.listed, r.order, 0, Start(r.cfg, r.listed, r.order, r.carried))
  {
  }

  lemma RoundTrace(r: WaveRound) returns (start: PassState, trace: seq<PassState>, j: nat, last: PassState)
    requires AllIn(r.order, r.listed) && (r.after, r.stop) == Pass(r.cfg, r.listed, r.order, r.carried)
    ensures start == Start(r.cfg, r.listed, r.order, r.carried)
    ensures Traces(r.cfg, r.order, 0, start, trace, j, last) && EndsIn(r.cfg, r.order, j, last, r.after, r.stop)
  {
    start := Start(r.cfg, r.listed, r.order, r.carried);
    trace, j, last := PassTrace(r.cfg, r.order, 0, start, r.after, r.stop);
  }

  lemma RoundReaches(win: Window, schedule: string, r: WaveRound, api: Answers) returns (j: nat, last: PassState)
    requires UpRound(win, schedule, r, api)
    ensures EndsIn(r.cfg, r.order, j, last, r.after, r.stop) && UpSound(win, r.cfg, r.carried, r.listed, r.order, j, last)
  {
    UpFits(win, schedule, r, api);
    var start, trace;
    start, trace, j, last := RoundTrace(r);
    StartUp(win, r);
    TraceUp(win, r.cfg, r.carried, r.listed, r.order, trace, j);
  }

  /** How an upscale reconcile ended. */
  lemma RoundUp(win: Window, schedule: string, r: WaveRound, api: Answers)
    requires UpRound(win, schedule, r, api)
    ensures LogKept(win, r.cfg, r.carried, r.listed, r.after.log)
    ensures r.stop == Finished ==> UpSound(win, r.cfg, r.carried, r.listed, r.order, |r.order|, r.after)
    ensures r.stop == WaveGate ==> StandsHeld(win, r.after.log)
  {
    var j, last := RoundReaches(win, schedule, r, api);
    UpFits(win, schedule, r, api);
    if j < |r.order| {
      StepUp(win, r.cfg, r.carried, r.listed, r.order, j, last, j < |r.order| - 1, r.after, Some(r.stop));
    }
  }

  /** Wave safety on the way up, within one reconcile and with any writes refused: between
      the move of a Deployment or StatefulSet and a move of a later wave lies a gate
      evaluation of the earlier wave that did not hold. It judged that workload, and found
      it ready or the wave waited for the timeout since the instant the carried record
      keeps. Only a wave before the carried record is passed without one. */
  lemma UpscaleWaits(win: Window, schedule: string, r: WaveRound, api: Answers, first: nat, m: nat, id: Id) returns (k: nat)
    requires UpRound(win, schedule, r, api)
    requires first < |r.after.log| && m < |r.after.log| && r.after.log[first].Moved? && r.after.log[m].Moved?
    requires r.after.log[first].id == id && id.kind != CronJob
    requires r.after.log[first].wave < r.after.log[m].wave && !PassedBefore(r.carried, r.after.log[first].wave, true)
    ensures first < k < m
    ensures var e := r.after.log[k];
            e.Evaluated? && e.wave == r.after.log[first].wave && !e.held && id in e.members && id in e.cluster &&
            e.now == r.cfg.now && e.since == GateSince(r.carried, e.wave, r.cfg.now) &&
            (Settled(e.cluster[id], true) || e.now - e.since >= win.timeout)
  {
    RoundUp(win, schedule, r, api);
    k := GateBetween(win, r.cfg.now, r.carried, r.after.log, first, m, id);
    var e := r.after.log[k];
    var i :| 0 <= i < |e.members| && e.members[i] == id;
    assert e.members[i] in e.cluster;
  }

  lemma GateBetween(win: Window, now: Instant, carried: Option<Progress>, log: seq<Event>, first: nat, m: nat, id: Id) returns (k: nat)
    requires LogSound(win, now, carried, log) && first < |log| && m < |log| && log[first].Moved? && log[m].Moved?
    requires log[first].id == id && id.kind != CronJob
    requires log[first].wave < log[m].wave && !PassedBefore(carried, log[first].wave, true)
    ensures first < k < m && LetGo(log, k, log[first].wave, id) && Evaluates(win, now, carried, log[..k], log[k])
  {
    assert EventSound(win, now, carried, log, m) && EventSound(win, now, carried, log, first);
    LookBack(log, first, m);
    assert log[..m][first] == log[first];
    assert MovedEarlier(win, carried, log[..m], log[m].wave, id);
    k :| 0 <= k < m && LetGo(log[..m], k, log[first].wave, id);
    assert log[..m][k] == log[k] && EventSound(win, now, carried, log, k);
    LookBack(log, k, first);
  }

  /** In a log in wave order, an event of an earlier wave, or a gate of the same one, does
      not come first. */
  lemma LookBack(log: seq<Event>, i: nat, j: nat)
    requires i < |log| && j < |log| && log[j].Moved? && UpTo(log[..j], log[j].wave)
    requires log[i].Moved? ==> UpTo(log[..i], log[i].wave)
    ensures i < j ==> if log[i].Moved? then log[i].wave <= log[j].wave else log[i].wave < log[j].wave
    ensures j < i && log[i].Moved? ==> log[j].wave <= log[i].wave
  {
    assert i < j ==> log[..j][i] == log[i];
    assert j < i ==> log[..i][j] == log[j];
  }

  // ---- when an upscale holds ---------------------------------------------------------------------

  /** A wave that is not the last one, not before the carried record, and not waited out. */
  predicate StillWaits(win: Window, carried: Option<Progress>, now: Instant, wave: int) {
    (exists later :: later in win.waves && win.waves[later] > wave) &&
    !PassedBefore(carried, wave, true) && now - GateSince(carried, wave, now) < win.timeout
  }

  /** This pass restores the workload, and that does not leave it ready at once. */
  predicate LeftUnready(cfg: Config, listed: Cluster, id: Id) {
    id.kind != CronJob && Restores(cfg, listed, id) && !Settled(cfg.scale(listed[id]).0, true)
  }

  predicate Blocks(win: Window, cfg: Config, carried: Option<Progress>, listed: Cluster, id: Id) {
    id in win.waves && LeftUnready(cfg, listed, id) && StillWaits(win, carried, cfg.now, win.waves[id])
  }

  lemma HeldIsBlocked(win: Window, cfg: Config, carried: Option<Progress>, listed: Cluster, log: seq<Event>) returns (id: Id)
    requires win.up && StandsHeld(win, log) && LogKept(win, cfg, carried, listed, log)
    ensures Blocks(win, cfg, carried, listed, id)
  {
    var last := |log| - 1;
    var e := log[last];
    assert EventSound(win, cfg.now, carried, log, last);
    var i :| 0 <= i < |e.members| && !Settled(e.cluster[e.members[i]], true);
    id := e.members[i];
    var m :| 0 <= m < last && log[..last][m] == Moved(id, e.wave);
    assert EventSound(win, cfg.now, carried, log, m);
  }

  lemma FinishedIsUnblocked(win: Window, cfg: Config, carried: Option<Progress>, listed: Cluster, order: seq<Id>, end: PassState, id: Id)
    requires win.up && InWaveOrder(win, order) && UpSound(win, cfg, carried, listed, order, |order|, end)
    ensures !Blocks(win, cfg, carried, listed, id)
  {
    if Blocks(win, cfg, carried, listed, id) {
      LastWaveReached(win, order, end, id);
      var j :| 0 <= j < |order| && order[j] == id;
      assert MovedEarlier(win, carried, end.log, end.gateWave, id);
      var k :| 0 <= k < |end.log| && LetGo(end.log, k, win.waves[id], id);
      LetGoReady(win, cfg, carried, listed, end.log, k, id);
    }
  }

  lemma LastWaveReached(win: Window, order: seq<Id>, end: PassState, id: Id)
    requires win.up && InWaveOrder(win, order) && AtWave(win, order, |order|, end)
    requires id in win.waves && exists later :: later in win.waves && win.waves[later] > win.waves[id]
    ensures win.waves[id] < end.gateWave
  {
    var later :| later in win.waves && win.waves[later] > win.waves[id];
    var j :| 0 <= j < |order| && order[j] == later;
    var last := |order| - 1;
    if j < last { assert !Before(win.waves[order[last]], win.waves[order[j]], win.up); }
  }

  lemma LetGoReady(win: Window, cfg: Config, carried: Option<Progress>, listed: Cluster, log: seq<Event>, k: nat, id: Id)
    requires win.up && id in win.waves && k < |log| && LetGo(log, k, win.waves[id], id)
    requires LogKept(win, cfg, carried, listed, log)
    ensures !(LeftUnready(cfg, listed, id) && StillWaits(win, carried, cfg.now, win.waves[id]))
  {
    var e := log[k];
    assert EventSound(win, cfg.now, carried, log, k) && AsRestored(cfg, listed, e.members, e.cluster);
    var i :| 0 <= i < |e.members| && e.members[i] == id;
    assert WaveSettled(e.cluster, e.members, true) ==> Settled(e.cluster[e.members[i]], true);
  }

  /** Exactly when an upscale reconcile without rate limit holds: when it itself restores
      some Deployment or StatefulSet that is not ready at once, in a wave that is not the
      last one and still waits. What earlier reconciles restored plays no part, however
      unready it is. */
  lemma UpHoldsExactly(win: Window, schedule: string, r: WaveRound, api: Answers)
    requires UpRound(win, schedule, r, api) && r.stop != BatchLimit
    ensures r.stop == WaveGate <==>
              exists id :: Blocks(win, r.cfg, r.carried, r.listed, id)
  {
    RoundUp(win, schedule, r, api);
    if r.stop == WaveGate {
      var id := HeldIsBlocked(win, r.cfg, r.carried, r.listed, r.after.log);
      assert Blocks(win, r.cfg, r.carried, r.listed, id);
    } else {
      forall id ensures !Blocks(win, r.cfg, r.carried, r.listed, id) {
        FinishedIsUnblocked(win, r.cfg, r.carried, r.listed, r.order, r.after, id);
      }
    }
  }

  /** The listing shows it at zero, to be restored to some other count, and its controller
      has seen no later spec than the stored one. */
  predicate AtZero(w: Workload) {
    ReplicasOf(w.pair.workload) == 0 && RestoredCount(Annotation(w.pair.workload, ORIGINAL_REPLICAS)) != 0 &&
    w.observedGeneration <= w.generation
  }

  /** The schedule holds it down, or no schedule in particular does, and the API takes the
      write that restores it. */
  predicate RestoredNow(schedule: string, r: WaveRound, api: Answers, id: Id) {
    id.kind != CronJob && id in r.listed && HeldBy(r.listed[id], schedule) && api.ok(id)
  }

  /** Restoring what stands at zero bumps its generation, so it is never ready at once. */
  lemma RestoredIsUnready(schedule: string, w: Workload, ok: bool, hpaOk: bool)
    requires w.id.kind != CronJob
    ensures var (after, result) := ScaleListed(true, schedule, w, ok, hpaOk);
            (result.Scaled? <==> HeldBy(w, schedule) && ok) && (result.Scaled? && AtZero(w) ==> !Settled(after, true))
  {
    UpPatchKeeps(w.pair.workload, w.pair.workload);
  }

  /** So when what the schedule holds down stands at zero, readiness plays no part at all:
      the reconcile that restores a wave holds behind it, and one that restores nothing of
      the waves still waited for goes on to the end. */
  lemma ReadinessPlaysNoPart(win: Window, schedule: string, r: WaveRound, api: Answers)
    requires UpRound(win, schedule, r, api) && r.stop != BatchLimit
    requires forall id :: id in r.listed && id.kind != CronJob && HeldBy(r.listed[id], schedule) ==> AtZero(r.listed[id])
    ensures r.stop == WaveGate <==>
              exists id :: RestoredNow(schedule, r, api, id) && StillWaits(win, r.carried, r.cfg.now, win.waves[id])
  {
    UpHoldsExactly(win, schedule, r, api);
    forall id | id in r.listed && id.kind != CronJob
      ensures LeftUnready(r.cfg, r.listed, id) <==> RestoredNow(schedule, r, api, id)
    {
      RestoredIsUnready(schedule, r.listed[id], api.ok(id), api.hpaOk(id));
    }
    forall id ensures Blocks(win, r.cfg, r.carried, r.listed, id) <==>
                        RestoredNow(schedule, r, api, id) && StillWaits(win, r.carried, r.cfg.now, win.waves[id])
    {
    }
  }

  lemma AllStand(win: Window, cfg: Config, listed: Cluster, order: seq<Id>, c: Cluster, id: Id)
    requires InWaveOrder(win, order) && id in win.waves && Stands(cfg, listed, order, |order|, c)
    ensures id in listed && id in c && c[id] == cfg.scale(listed[id]).0
  {
    var j :| 0 <= j < |order| && order[j] == id;
  }

  lemma FinishedState(win: Window, schedule: string, r: WaveRound, api: Answers, id: Id)
    requires UpRound(win, schedule, r, api) && r.stop == Finished && id in win.waves
    ensures !Blocks(win, r.cfg, r.carried, r.listed, id)
    ensures id in r.listed && id in r.after.cluster && r.after.cluster[id] == r.cfg.scale(r.listed[id]).0
  {
    RoundUp(win, schedule, r, api);
    FinishedIsUnblocked(win, r.cfg, r.carried, r.listed, r.order, r.after, id);
    AllStand(win, r.cfg, r.listed, r.order, r.after.cluster, id);
  }

  /** A reconcile that reaches the end past a workload that is unready and not waited out
      did not restore it itself, or the carried record skips its wave. */
  lemma FinishedOverUnready(win: Window, schedule: string, r: WaveRound, api: Answers, id: Id)
    requires UpRound(win, schedule, r, api) && r.stop == Finished
    requires id in win.waves && id.kind != CronJob && exists later :: later in win.waves && win.waves[later] > win.waves[id]
    requires id in r.after.cluster && !Settled(r.after.cluster[id], true)
    requires r.cfg.now - GateSince(r.carried, win.waves[id], r.cfg.now) < win.timeout
    ensures !Restores(r.cfg, r.listed, id) || PassedBefore(r.carried, win.waves[id], true)
  {
    FinishedState(win, schedule, r, api, id);
  }
}
