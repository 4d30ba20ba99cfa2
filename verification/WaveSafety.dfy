// Wave order over whole runs: no workload moves before every earlier wave was judged
// settled, or was waited on for the timeout, at this or an earlier reconcile of the same
// window.
module WaveSafety {
  import opened Wrappers
  import opened Clock
  import opened Scaler
  import opened SyncWave
  import opened Batcher

  /** What stays the same through one window: the collected workloads with their waves,
      the direction, the timeout, and which workloads count as this schedule's own. */
  datatype Window = Window(waves: map<Id, int>, up: bool, timeout: Duration, ours: Workload -> bool)

  /** The pass visits the whole collection in wave order. */
  predicate InWaveOrder(win: Window, order: seq<Id>) {
    (forall id :: id in win.waves ==> id in order) &&
    (forall i :: 0 <= i < |order| ==> order[i] in win.waves) &&
    forall i, j :: 0 <= i < j < |order| ==> !Before(win.waves[order[j]], win.waves[order[i]], win.up)
  }

  function Ids(ws: seq<Workload>): seq<Id> {
    seq(|ws|, i requires 0 <= i < |ws| => ws[i].id)
  }

  /** The listed workloads are those of the window. */
  predicate ListsWindow(win: Window, ws: seq<Workload>) {
    (forall w :: w in ws ==> w.id in win.waves && win.waves[w.id] == w.wave) &&
    forall id :: id in win.waves ==> id in Ids(ws)
  }

  lemma SortedListIsInOrder(win: Window, ws: seq<Workload>)
    requires ListsWindow(win, ws) && SortedFor(ws, win.up)
    ensures InWaveOrder(win, Ids(ws))
  {
    forall i | 0 <= i < |ws| ensures Ids(ws)[i] in win.waves && win.waves[Ids(ws)[i]] == ws[i].wave {
      assert ws[i] in ws;
    }
    forall i, j | 0 <= i < j < |ws| ensures !Before(win.waves[ws[j].id], win.waves[ws[i].id], win.up) {
      assert Precedes(ws[i], ws[j], win.up) && Ids(ws)[i] == ws[i].id && Ids(ws)[j] == ws[j].id;
    }
  }

  lemma SameMembersListWindow(win: Window, ws: seq<Workload>, sorted: seq<Workload>)
    requires ListsWindow(win, ws) && multiset(sorted) == multiset(ws)
    ensures ListsWindow(win, sorted)
  {
    forall w | w in sorted ensures w in ws { assert w in multiset(sorted); }
    forall id | id in win.waves ensures id in Ids(sorted) {
      var i :| 0 <= i < |ws| && Ids(ws)[i] == id;
      assert ws[i] in multiset(ws);
      var j :| 0 <= j < |sorted| && sorted[j] == ws[i];
      assert Ids(sorted)[j] == id;
    }
  }

  /** Sorting the collection gives a pass such an order. */
  lemma SortedIsInWaveOrder(win: Window, ws: seq<Workload>)
    requires ListsWindow(win, ws)
    ensures InWaveOrder(win, Ids(SortByWave(ws, win.up)))
  {
    var sorted := SortByWave(ws, win.up);
    SortIsStable(ws, win.up);
    SameMembersListWindow(win, ws, sorted);
    SortedListIsInOrder(win, sorted);
  }

  predicate HasWaves(win: Window, c: Cluster) {
    c.Keys == win.waves.Keys && forall id :: id in c ==> c[id].wave == win.waves[id] && c[id].id == id
  }

  /** Scaling keeps identity and wave, and reports its own workloads as gating: what it
      just moved, or found already in the asked-for state. */
  ghost predicate Honest(win: Window, scale: ScaleFn) {
    forall w: Workload :: HonestAt(win, scale, w)
  }

  ghost predicate HonestAt(win: Window, scale: ScaleFn, w: Workload) {
    var (after, result) := scale(w);
    after.wave == w.wave && after.id == w.id &&
    (win.ours(after) && after.id.kind != CronJob ==> !result.Failed? && Gates(after, result))
  }

  ghost predicate Fits(win: Window, cfg: Config) {
    cfg.up == win.up && cfg.waves && cfg.timeout == win.timeout && Honest(win, cfg.scale)
  }

  // ---- evidence ---------------------------------------------------------------------------

  /** The wait was measured from the instant some evaluation of this wave happened, or
      from that instant as stored. */
  ghost predicate Dated(log: seq<Event>, n: nat, wave: int, since: Instant)
    requires n <= |log|
  {
    exists j :: 0 <= j < n && log[j].Evaluated? && log[j].wave == wave &&
                (since == log[j].now || since == Stored(log[j].now))
  }

  /** The evaluation saw every workload of the wave this schedule has in the asked-for
      state. */
  predicate SawAll(win: Window, e: Event)
    requires e.Evaluated?
  {
    HasWaves(win, e.cluster) && AllIn(e.members, e.cluster) &&
    forall id :: id in win.waves && win.waves[id] == e.wave && id.kind != CronJob && win.ours(e.cluster[id]) ==>
      id in e.members
  }

  /** At position k the gate of the wave was judged open: all its own workloads settled,
      or waited on for the timeout since an evaluation of this window. */
  ghost predicate Opened(win: Window, log: seq<Event>, k: nat, wave: int)
    requires k < |log|
  {
    log[k].Evaluated? && log[k].wave == wave && !log[k].held && SawAll(win, log[k]) &&
    (WaveSettled(log[k].cluster, log[k].members, win.up) ||
     (log[k].now - log[k].since >= win.timeout && Dated(log, k + 1, wave, log[k].since)))
  }

  ghost predicate Cleared(win: Window, log: seq<Event>, wave: int) {
    exists k {:trigger Opened(win, log, k, wave)} :: 0 <= k < |log| && Opened(win, log, k, wave)
  }

  /** Every earlier wave of the collection has been cleared. */
  ghost predicate ClearedBefore(win: Window, log: seq<Event>, wave: int) {
    forall id {:trigger Cleared(win, log, win.waves[id])} ::
      id in win.waves && Before(win.waves[id], wave, win.up) ==> Cleared(win, log, win.waves[id])
  }

  lemma DatedMonotone(log: seq<Event>, more: seq<Event>, n: nat, wave: int, since: Instant)
    requires n <= |log| && Dated(log, n, wave, since)
    ensures Dated(log + more, n, wave, since)
  {
    var j :| 0 <= j < n && log[j].Evaluated? && log[j].wave == wave && (since == log[j].now || since == Stored(log[j].now));
    assert (log + more)[j] == log[j];
  }

  lemma ClearedMonotone(win: Window, log: seq<Event>, more: seq<Event>, wave: int)
    requires Cleared(win, log, wave)
    ensures Cleared(win, log + more, wave)
  {
    var k :| 0 <= k < |log| && Opened(win, log, k, wave);
    assert (log + more)[k] == log[k];
    if log[k].now - log[k].since >= win.timeout && Dated(log, k + 1, wave, log[k].since) {
      DatedMonotone(log, more, k + 1, wave, log[k].since);
    }
    assert Opened(win, log + more, k, wave);
  }

  lemma ClearedBeforeMonotone(win: Window, log: seq<Event>, more: seq<Event>, wave: int)
    requires ClearedBefore(win, log, wave)
    ensures ClearedBefore(win, log + more, wave)
  {
    forall id | id in win.waves && Before(win.waves[id], wave, win.up) ensures Cleared(win, log + more, win.waves[id]) {
      ClearedMonotone(win, log, more, win.waves[id]);
    }
  }

  // ---- what a pass keeps ------------------------------------------------------------------------

  /** A carried record is backed by the log: everything before its wave is cleared, and
      its clock started at an evaluation of its wave. */
  ghost predicate Backed(win: Window, log: seq<Event>, progress: Option<Progress>) {
    progress.Some? ==>
      ClearedBefore(win, log, progress.value.wave) && Dated(log, |log|, progress.value.wave, progress.value.since)
  }

  lemma BackedMonotone(win: Window, log: seq<Event>, more: seq<Event>, progress: Option<Progress>)
    requires Backed(win, log, progress)
    ensures Backed(win, log + more, progress)
  {
    if progress.Some? {
      ClearedBeforeMonotone(win, log, more, progress.value.wave);
      var wave, since := progress.value.wave, progress.value.since;
      var j :| 0 <= j < |log| && log[j].Evaluated? && log[j].wave == wave && (since == log[j].now || since == Stored(log[j].now));
      assert (log + more)[j] == log[j];
    }
  }

  /** Every move in the log found the waves before its own cleared by then. */
  ghost predicate Orderly(win: Window, log: seq<Event>) {
    forall m {:trigger log[..m]} :: 0 <= m < |log| && log[m].Moved? ==> ClearedBefore(win, log[..m], log[m].wave)
  }

  lemma OrderlyAppend(win: Window, log: seq<Event>, e: Event)
    requires Orderly(win, log) && (e.Moved? ==> ClearedBefore(win, log, e.wave))
    ensures Orderly(win, log + [e])
  {
    forall m | 0 <= m < |log + [e]| && (log + [e])[m].Moved? ensures ClearedBefore(win, (log + [e])[..m], (log + [e])[m].wave) {
      if m < |log| {
        assert (log + [e])[..m] == log[..m];
      } else {
        assert (log + [e])[..m] == log;
      }
    }
  }

  /** The state of a pass before its i-th workload; past is the log of earlier passes. */
  ghost predicate Sound(win: Window, past: seq<Event>, order: seq<Id>, i: nat, st: PassState)
    requires i <= |order| && InWaveOrder(win, order)
  {
    HasWaves(win, st.cluster) && AllIn(st.members, st.cluster) &&
    (order != [] ==> st.gateWave == win.waves[order[if i == 0 then 0 else i - 1]]) &&
    ClearedBefore(win, past + st.log, st.gateWave) &&
    Backed(win, past + st.log, st.progress) &&
    Orderly(win, past + st.log) &&
    MembersUpTo(win, order, i, st)
  }

  /** The gate evaluation at the end of a wave has all its workloads behind it. */
  lemma WaveIsComplete(win: Window, past: seq<Event>, order: seq<Id>, i: nat, st: PassState)
    requires InWaveOrder(win, order) && i < |order| && Sound(win, past, order, i, st)
    requires win.waves[order[i]] != st.gateWave
    ensures forall id :: id in win.waves && win.waves[id] == st.gateWave && id.kind != CronJob && win.ours(st.cluster[id]) ==>
              id in st.members
    ensures Before(st.gateWave, win.waves[order[i]], win.up)
    ensures forall id :: id in win.waves && Before(win.waves[id], win.waves[order[i]], win.up) ==>
              win.waves[id] == st.gateWave || Before(win.waves[id], st.gateWave, win.up)
  {
    forall id | id in win.waves
      ensures win.waves[id] == st.gateWave && id.kind != CronJob && win.ours(st.cluster[id]) ==> id in st.members
      ensures Before(win.waves[id], win.waves[order[i]], win.up) ==>
                win.waves[id] == st.gateWave || Before(win.waves[id], st.gateWave, win.up)
    {
      var j :| 0 <= j < |order| && order[j] == id;
      assert i > 0;
      assert !Before(win.waves[order[i]], win.waves[order[i - 1]], win.up);
      if j < i - 1 {
        assert !Before(win.waves[order[i - 1]], win.waves[order[j]], win.up);
      } else if j > i {
        assert !Before(win.waves[order[j]], win.waves[order[i]], win.up);
      }
    }
  }

  /** The gate holds exactly for an unsettled wave within its timeout. */
  predicate Judged(win: Window, e: Event)
    requires e.Evaluated? && AllIn(e.members, e.cluster)
  {
    e.held == (!WaveSettled(e.cluster, e.members, win.up) && e.now - e.since < win.timeout)
  }

  /** One more evaluation in the log backs the record it leaves, and clears its wave
      unless it holds. */
  lemma EvaluationBacks(win: Window, log: seq<Event>, progress: Option<Progress>, e: Event)
    requires Backed(win, log, progress) && Orderly(win, log)
    requires e.Evaluated? && ClearedBefore(win, log, e.wave) && e.since == GateSince(progress, e.wave, e.now)
    ensures var after := log + [e];
            Backed(win, after, Some(Progress(e.wave, e.since))) && Orderly(win, after) && ClearedBefore(win, after, e.wave)
    ensures SawAll(win, e) && Judged(win, e) && !e.held ==> Cleared(win, log + [e], e.wave)
  {
    var after := log + [e];
    OrderlyAppend(win, log, e);
    ClearedBeforeMonotone(win, log, [e], e.wave);
    assert after[|log|] == e;
    EvaluationIsDated(log, progress, e);
    if SawAll(win, e) && Judged(win, e) && !e.held {
      assert Opened(win, after, |log|, e.wave);
    }
  }

  lemma EvaluationIsDated(log: seq<Event>, progress: Option<Progress>, e: Event)
    requires e.Evaluated? && e.since == GateSince(progress, e.wave, e.now)
    requires progress.Some? ==> Dated(log, |log|, progress.value.wave, progress.value.since)
    ensures Dated(log + [e], |log| + 1, e.wave, e.since)
  {
    var after := log + [e];
    assert after[|log|] == e;
    if progress.Some? && progress.value.wave == e.wave {
      DatedMonotone(log, [e], |log|, e.wave, e.since);
    }
  }

  /** What the gate at the end of a wave leaves behind. */
  ghost predicate Gated(win: Window, past: seq<Event>, wave: int, gated: PassState, held: bool) {
    Backed(win, past + gated.log, gated.progress) && Orderly(win, past + gated.log) &&
    ClearedBefore(win, past + gated.log, wave) && (!held ==> Cleared(win, past + gated.log, wave))
  }

  lemma GateKeeps(win: Window, cfg: Config, past: seq<Event>, order: seq<Id>, i: nat, st: PassState)
    requires Fits(win, cfg) && InWaveOrder(win, order) && i < |order| && Sound(win, past, order, i, st)
    requires win.waves[order[i]] != st.gateWave
    ensures Gated(win, past, st.gateWave, AtGate(cfg, st).0, AtGate(cfg, st).1)
  {
    var (gated, held) := AtGate(cfg, st);
    if PassedBefore(st.progress, st.gateWave, cfg.up) {
      assert order[if i == 0 then 0 else i - 1] in win.waves;
    } else {
      WaveIsComplete(win, past, order, i, st);
      var e := Evaluated(st.gateWave, st.cluster, st.members, GateSince(st.progress, st.gateWave, cfg.now), cfg.now, held);
      assert SawAll(win, e);
      assert past + gated.log == (past + st.log) + [e];
      EvaluationBacks(win, past + st.log, st.progress, e);
    }
  }

  /** In the wave of the i-th workload, with every earlier wave cleared. */
  ghost predicate Entered(win: Window, past: seq<Event>, order: seq<Id>, i: nat, e: PassState)
    requires InWaveOrder(win, order) && i < |order|
  {
    HasWaves(win, e.cluster) && AllIn(e.members, e.cluster) && e.gateWave == win.waves[order[i]] &&
    Backed(win, past + e.log, e.progress) && Orderly(win, past + e.log) && ClearedBefore(win, past + e.log, e.gateWave) &&
    MembersUpTo(win, order, i, e)
  }

  predicate MembersUpTo(win: Window, order: seq<Id>, i: nat, st: PassState)
    requires InWaveOrder(win, order) && i <= |order| && HasWaves(win, st.cluster)
  {
    forall j :: 0 <= j < i && win.waves[order[j]] == st.gateWave && order[j].kind != CronJob && win.ours(st.cluster[order[j]]) ==>
      order[j] in st.members
  }

  lemma NextWaveIsFresh(win: Window, order: seq<Id>, i: nat)
    requires InWaveOrder(win, order) && 0 < i < |order|
    requires win.waves[order[i - 1]] != win.waves[order[i]]
    ensures forall j :: 0 <= j < i ==> win.waves[order[j]] != win.waves[order[i]]
  {
    assert !Before(win.waves[order[i]], win.waves[order[i - 1]], win.up);
    forall j | 0 <= j < i - 1 ensures win.waves[order[j]] != win.waves[order[i]] {
      assert !Before(win.waves[order[i - 1]], win.waves[order[j]], win.up);
    }
  }

  lemma NextWaveIsCleared(win: Window, past: seq<Event>, order: seq<Id>, i: nat, st: PassState, log: seq<Event>)
    requires InWaveOrder(win, order) && i < |order| && Sound(win, past, order, i, st)
    requires win.waves[order[i]] != st.gateWave
    requires ClearedBefore(win, log, st.gateWave) && Cleared(win, log, st.gateWave)
    ensures ClearedBefore(win, log, win.waves[order[i]])
  {
    WaveIsComplete(win, past, order, i, st);
  }

  /** Entering a workload's wave: the gate is passed with every earlier wave cleared, or
      holds with a record the log backs. */
  lemma EnterKeeps(win: Window, cfg: Config, past: seq<Event>, order: seq<Id>, i: nat, st: PassState)
    requires Fits(win, cfg) && InWaveOrder(win, order) && i < |order| && Sound(win, past, order, i, st)
    ensures var (e, held) := Enter(cfg, st, order[i]);
            Backed(win, past + e.log, e.progress) && Orderly(win, past + e.log) &&
            (!held ==> Entered(win, past, order, i, e))
  {
    if win.waves[order[i]] != st.gateWave {
      GateKeeps(win, cfg, past, order, i, st);
      var (gated, held) := AtGate(cfg, st);
      assert Gated(win, past, st.gateWave, gated, held);
      if !held {
        NextWaveIsFresh(win, order, i);
        NextWaveIsCleared(win, past, order, i, st, past + gated.log);
      }
    }
  }

  lemma VisitKeeps(win: Window, cfg: Config, past: seq<Event>, order: seq<Id>, i: nat, e: PassState)
    requires Fits(win, cfg) && InWaveOrder(win, order) && i < |order| && Entered(win, past, order, i, e)
    ensures Sound(win, past, order, i + 1, Visit(cfg, e, order[i]))
  {
    var id := order[i];
    var v := Visit(cfg, e, id);
    VisitLog(cfg, e, id);
    if v.log != e.log {
      var moved := Moved(id, e.cluster[id].wave);
      assert past + v.log == (past + e.log) + [moved];
      OrderlyAppend(win, past + e.log, moved);
      BackedMonotone(win, past + e.log, [moved], e.progress);
      ClearedBeforeMonotone(win, past + e.log, [moved], e.gateWave);
    }
    VisitMembers(win, cfg, e, id);
  }

  lemma VisitLog(cfg: Config, e: PassState, id: Id)
    requires id in e.cluster
    ensures var v := Visit(cfg, e, id);
            v.gateWave == e.gateWave && v.progress == e.progress &&
            (v.log == e.log || v.log == e.log + [Moved(id, e.cluster[id].wave)])
  {
  }

  lemma VisitMembers(win: Window, cfg: Config, e: PassState, id: Id)
    requires Fits(win, cfg) && id in e.cluster && HasWaves(win, e.cluster) && AllIn(e.members, e.cluster)
    ensures var v := Visit(cfg, e, id);
            HasWaves(win, v.cluster) && AllIn(v.members, v.cluster) &&
            (forall m :: m in e.members ==> m in v.members) &&
            (id.kind != CronJob && win.ours(v.cluster[id]) ==> id in v.members) &&
            forall j :: j in v.cluster && j != id ==> v.cluster[j] == e.cluster[j]
  {
    assert HonestAt(win, cfg.scale, e.cluster[id]);
    var v := Visit(cfg, e, id);
    assert v.members == e.members || v.members == e.members + [id];
  }

  lemma StepKeeps(win: Window, cfg: Config, past: seq<Event>, order: seq<Id>, i: nat, st: PassState, more: bool,
                  next: PassState, stop: Option<Stop>)
    requires Fits(win, cfg) && InWaveOrder(win, order) && i < |order| && Sound(win, past, order, i, st)
    requires (next, stop) == Step(cfg, st, order[i], more)
    ensures Accounted(win, past, next) && (stop != Some(WaveGate) ==> Sound(win, past, order, i + 1, next))
  {
    EnterKeeps(win, cfg, past, order, i, st);
    var (entered, held) := Enter(cfg, st, order[i]);
    if !held { VisitKeeps(win, cfg, past, order, i, entered); }
  }

  /** The log is orderly and backs the record the pass leaves. */
  ghost predicate Accounted(win: Window, past: seq<Event>, st: PassState) {
    Backed(win, past + st.log, st.progress) && Orderly(win, past + st.log)
  }

  lemma {:induction false} PassIsOrderly(win: Window, cfg: Config, past: seq<Event>, order: seq<Id>, i: nat, st: PassState)
    requires Fits(win, cfg) && InWaveOrder(win, order) && i <= |order| && Sound(win, past, order, i, st)
    requires AllIn(order, st.cluster)
    ensures Accounted(win, past, PassFrom(cfg, order, i, st).0)
    decreases |order| - i
  {
    if i < |order| {
      var next, stop := Turn(cfg, order, i, st);
      StepKeeps(win, cfg, past, order, i, st, i < |order| - 1, next, stop);
      if stop.None? { PassIsOrderly(win, cfg, past, order, i + 1, next); }
    }
  }

  // ---- the window -----------------------------------------------------------------------------------

  /** One reconcile of the window; persisted says whether its status update went through. */
  datatype WaveRound = WaveRound(cfg: Config, order: seq<Id>, carried: Option<Progress>, listed: Cluster,
                                 after: PassState, stop: Stop, persisted: bool)

  /** The record as status keeps it: whole seconds. */
  function StoredProgress(p: Option<Progress>): Option<Progress> {
    if p.Some? then Some(Progress(p.value.wave, Stored(p.value.since))) else None
  }

  function CarriedAfter(r: WaveRound): Option<Progress> {
    if r.persisted then StoredProgress(r.after.progress) else r.carried
  }

  ghost predicate IsWindow(win: Window, rounds: seq<WaveRound>) {
    (forall i {:trigger WellRun(win, rounds[i])} :: 0 <= i < |rounds| ==> WellRun(win, rounds[i])) &&
    (rounds != [] ==> rounds[0].carried == None) &&
    forall i {:trigger rounds[i].carried} :: 0 < i < |rounds| ==> rounds[i].carried == CarriedAfter(rounds[i - 1])
  }

  ghost predicate WellRun(win: Window, r: WaveRound) {
    Fits(win, r.cfg) && InWaveOrder(win, r.order) && HasWaves(win, r.listed) && AllIn(r.order, r.listed) &&
    (r.after, r.stop) == Pass(r.cfg, r.listed, r.order, r.carried)
  }

  /** The logs of the first n reconciles, one after the other. */
  function History(rounds: seq<WaveRound>, n: nat): seq<Event>
    requires n <= |rounds|
  {
    if n == 0 then [] else History(rounds, n - 1) + rounds[n - 1].after.log
  }

  lemma StartIsSound(win: Window, r: WaveRound, past: seq<Event>)
    requires WellRun(win, r) && Backed(win, past, r.carried) && Orderly(win, past)
    ensures Sound(win, past, r.order, 0, Start(r.cfg, r.listed, r.order, r.carried))
  {
    var st := Start(r.cfg, r.listed, r.order, r.carried);
    assert past + st.log == past;
    if r.order != [] {
      forall id | id in win.waves ensures !Before(win.waves[id], st.gateWave, win.up) {
        var j :| 0 <= j < |r.order| && r.order[j] == id;
        if j > 0 { assert !Before(win.waves[r.order[j]], win.waves[r.order[0]], win.up); }
      }
    } else {
      assert forall id :: id in win.waves ==> id in r.order;
    }
  }

  lemma StoredIsBacked(win: Window, log: seq<Event>, progress: Option<Progress>)
    requires Backed(win, log, progress)
    ensures Backed(win, log, StoredProgress(progress))
  {
    if progress.Some? {
      var wave, since := progress.value.wave, progress.value.since;
      var j :| 0 <= j < |log| && log[j].Evaluated? && log[j].wave == wave && (since == log[j].now || since == Stored(log[j].now));
      StoredOnce(log[j].now);
      assert Stored(since) == Stored(log[j].now);
    }
  }

  lemma {:induction false} WindowIsOrderly(win: Window, rounds: seq<WaveRound>, n: nat)
    requires IsWindow(win, rounds) && n <= |rounds|
    ensures Orderly(win, History(rounds, n))
    ensures n > 0 ==> Backed(win, History(rounds, n), rounds[n - 1].after.progress)
    ensures n < |rounds| ==> Backed(win, History(rounds, n), rounds[n].carried)
  {
    if n > 0 {
      var r, past := rounds[n - 1], History(rounds, n - 1);
      WindowIsOrderly(win, rounds, n - 1);
      assert WellRun(win, r);
      StartIsSound(win, r, past);
      PassIsOrderly(win, r.cfg, past, r.order, 0, Start(r.cfg, r.listed, r.order, r.carried));
      BackedMonotone(win, past, r.after.log, r.carried);
      StoredIsBacked(win, History(rounds, n), r.after.progress);
    }
  }

  /** Wave safety: whenever a pass moves a workload, every wave ordered before its own has
      by then been judged open in this window, at this or an earlier evaluation: all the
      workloads of it this schedule holds were settled, or it had been waited on for the
      timeout since a recorded evaluation. */
  lemma MovesWaitForEarlierWaves(win: Window, rounds: seq<WaveRound>, n: nat, m: nat, id: Id)
    requires IsWindow(win, rounds) && n < |rounds|
    requires m < |rounds[n].after.log| && rounds[n].after.log[m].Moved?
    requires id in win.waves && Before(win.waves[id], rounds[n].after.log[m].wave, win.up)
    ensures Cleared(win, History(rounds, n) + rounds[n].after.log[..m], win.waves[id])
  {
    WindowIsOrderly(win, rounds, n + 1);
    var past, log := History(rounds, n), rounds[n].after.log;
    assert (past + log)[|past| + m] == log[m];
    assert (past + log)[..|past| + m] == past + log[..m];
  }

  /** What being judged settled means for one workload the schedule holds. */
  lemma SettledWorkload(win: Window, e: Event, id: Id)
    requires e.Evaluated? && SawAll(win, e) && WaveSettled(e.cluster, e.members, win.up)
    requires id in win.waves && win.waves[id] == e.wave && id.kind != CronJob && win.ours(e.cluster[id])
    ensures var w := e.cluster[id];
            w.observedGeneration >= w.generation &&
            if win.up then w.readyReplicas >= ReplicasOf(w.pair.workload) else w.pods == 0
  {
    var i :| 0 <= i < |e.members| && e.members[i] == id;
    assert Settled(e.cluster[e.members[i]], win.up);
  }
}
