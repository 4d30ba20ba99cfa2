// Rate limits and sync waves change when workloads are scaled, never what they become,
// and a rate-limited run makes exactly its budget of progress each time it stops.
module BatchRefinement {
  import opened Wrappers
  import opened Clock
  import opened Scaler
  import opened SyncWave
  import opened Batcher

  /** What lightsout writes: the objects, without what their own controllers report. */
  datatype Core = Core(id: Id, wave: int, pair: Pair)

  function CoreOf(w: Workload): Core {
    Core(w.id, w.wave, w.pair)
  }

  /** What a scale function without API errors does: it depends on the objects only, never
      fails, and finds nothing left to do in its own result. */
  ghost predicate Steady(scale: ScaleFn) {
    (forall w: Workload, v: Workload :: SeesObjects(scale, w, v)) && forall w: Workload :: ScalesOnce(scale, w)
  }

  ghost predicate SeesObjects(scale: ScaleFn, w: Workload, v: Workload) {
    CoreOf(w) == CoreOf(v) ==> CoreOf(scale(w).0) == CoreOf(scale(v).0) && scale(w).1 == scale(v).1
  }

  ghost predicate ScalesOnce(scale: ScaleFn, w: Workload) {
    var (once, result) := scale(w);
    !result.Failed? && once.wave == w.wave && once.id == w.id &&
    CoreOf(scale(once).0) == CoreOf(once) && !scale(once).1.Scaled?
  }

  /** What collecting does to a workload, a re-stamp or nothing: it depends on the objects
      only and is done with after once, also when scaling came in between. */
  ghost predicate Stamps(collect: Workload -> Workload, scale: ScaleFn) {
    (forall w: Workload, v: Workload :: StampsObjects(collect, w, v)) &&
    forall w: Workload :: StampsOnce(collect, scale, w)
  }

  ghost predicate StampsObjects(collect: Workload -> Workload, w: Workload, v: Workload) {
    CoreOf(w) == CoreOf(v) ==> CoreOf(collect(w)) == CoreOf(collect(v))
  }

  ghost predicate StampsOnce(collect: Workload -> Workload, scale: ScaleFn, w: Workload) {
    CoreOf(collect(collect(w))) == CoreOf(collect(w)) &&
    CoreOf(collect(scale(collect(w)).0)) == CoreOf(scale(collect(w)).0)
  }

  function CollectAll(collect: Workload -> Workload, cluster: Cluster): Cluster {
    map id | id in cluster :: collect(cluster[id])
  }

  /** The environment between two passes: pods and observed generations move, objects do
      not. */
  ghost predicate SameObjects(a: Cluster, b: Cluster) {
    a.Keys == b.Keys && forall id :: id in a ==> CoreOf(a[id]) == CoreOf(b[id])
  }

  /** The order lists every collected workload. */
  predicate Covers(order: seq<Id>, cluster: Cluster) {
    AllIn(order, cluster) && forall id :: id in cluster ==> id in order
  }

  /** One reconcile: the cluster it lists, its configuration and order, and its outcome. */
  datatype Round = Round(cfg: Config, order: seq<Id>, prev: Option<Progress>, listed: Cluster, after: PassState, stop: Stop)

  /** Consecutive passes in one direction: the batch size, the wave setting, the clock,
      the carried record and the order may differ from pass to pass. */
  ghost predicate IsBatchedRun(rounds: seq<Round>, collect: Workload -> Workload, scale: ScaleFn) {
    (forall i {:trigger Performed(rounds[i], collect, scale)} :: 0 <= i < |rounds| ==> Performed(rounds[i], collect, scale)) &&
    forall i {:trigger Follows(rounds, i)} :: 0 <= i < |rounds| - 1 ==> Follows(rounds, i)
  }

  ghost predicate Follows(rounds: seq<Round>, i: nat)
    requires i + 1 < |rounds|
  {
    SameObjects(rounds[i].after.cluster, rounds[i + 1].listed)
  }

  ghost predicate Performed(r: Round, collect: Workload -> Workload, scale: ScaleFn) {
    r.cfg.scale == scale && Covers(r.order, r.listed) &&
    (r.after, r.stop) == Pass(r.cfg, CollectAll(collect, r.listed), r.order, r.prev)
  }

  // ---- the same result -----------------------------------------------------------------------

  predicate Waiting(start: Cluster, c: Cluster, id: Id)
    requires id in start && id in c
  {
    CoreOf(c[id]) == CoreOf(start[id])
  }

  predicate Reached(start: Cluster, c: Cluster, id: Id, scale: ScaleFn)
    requires id in start && id in c
  {
    CoreOf(c[id]) == CoreOf(scale(start[id]).0)
  }

  /** Every workload is as it was or as one scaling leaves it. */
  predicate OnTheWay(start: Cluster, c: Cluster, scale: ScaleFn) {
    c.Keys == start.Keys && forall id :: id in c ==> Waiting(start, c, id) || Reached(start, c, id, scale)
  }

  predicate ReachedAll(start: Cluster, c: Cluster, ids: seq<Id>, scale: ScaleFn)
    requires AllIn(ids, start) && AllIn(ids, c)
  {
    forall i :: 0 <= i < |ids| ==> Reached(start, c, ids[i], scale)
  }

  lemma VisitMoves(start: Cluster, cfg: Config, st: PassState, id: Id)
    requires Steady(cfg.scale) && OnTheWay(start, st.cluster, cfg.scale) && id in st.cluster
    ensures var c := Visit(cfg, st, id).cluster;
            OnTheWay(start, c, cfg.scale) && Reached(start, c, id, cfg.scale) &&
            forall j :: j in c && j != id ==> c[j] == st.cluster[j]
  {
    var w := st.cluster[id];
    assert Visit(cfg, st, id).cluster == st.cluster[id := cfg.scale(w).0];
    if Waiting(start, st.cluster, id) {
      assert SeesObjects(cfg.scale, w, start[id]);
    } else {
      assert SeesObjects(cfg.scale, w, cfg.scale(start[id]).0);
      assert ScalesOnce(cfg.scale, start[id]);
    }
  }

  lemma StepMoves(start: Cluster, cfg: Config, st: PassState, id: Id, moreRemain: bool)
    requires Steady(cfg.scale) && OnTheWay(start, st.cluster, cfg.scale)
    requires id in st.cluster && AllIn(st.members, st.cluster)
    ensures var (next, stop) := Step(cfg, st, id, moreRemain);
            OnTheWay(start, next.cluster, cfg.scale) &&
            (stop != Some(WaveGate) ==> Reached(start, next.cluster, id, cfg.scale)) &&
            (forall j :: j in next.cluster && j != id ==> next.cluster[j] == st.cluster[j])
  {
    var (entered, held) := Enter(cfg, st, id);
    assert entered.cluster == st.cluster;
    if !held { VisitMoves(start, cfg, entered, id); }
  }

  lemma ReachedOneMore(start: Cluster, c: Cluster, next: Cluster, order: seq<Id>, i: nat, scale: ScaleFn)
    requires i < |order| && AllIn(order, start) && c.Keys == next.Keys == start.Keys
    requires ReachedAll(start, c, order[..i], scale) && Reached(start, next, order[i], scale)
    requires forall id :: id in next && id != order[i] ==> next[id] == c[id]
    ensures ReachedAll(start, next, order[..i + 1], scale)
  {
    forall j | 0 <= j < i + 1 ensures Reached(start, next, order[j], scale) {
      if order[j] != order[i] {
        assert order[..i][j] == order[j];
        assert Reached(start, c, order[j], scale);
      }
    }
  }

  lemma {:induction false} PassMoves(start: Cluster, cfg: Config, order: seq<Id>, i: nat, st: PassState)
    requires i <= |order| && AllIn(order, st.cluster) && AllIn(st.members, st.cluster)
    requires Steady(cfg.scale) && OnTheWay(start, st.cluster, cfg.scale)
    requires ReachedAll(start, st.cluster, order[..i], cfg.scale)
    ensures var (end, stop) := PassFrom(cfg, order, i, st);
            OnTheWay(start, end.cluster, cfg.scale) &&
            (stop == Finished ==> ReachedAll(start, end.cluster, order, cfg.scale))
    decreases |order| - i
  {
    if i == |order| {
      assert order[..i] == order;
    } else {
      var more := i < |order| - 1;
      StepKeepsIds(cfg, st, order[i], more);
      StepMoves(start, cfg, st, order[i], more);
      var (next, stop) := Step(cfg, st, order[i], more);
      if stop.None? {
        ReachedOneMore(start, st.cluster, next.cluster, order, i, cfg.scale);
        PassMoves(start, cfg, order, i + 1, next);
      }
    }
  }

  /** One pass from a cluster on the way: still on the way, and arrived if it finished. */
  lemma RoundMoves(start: Cluster, r: Round, collect: Workload -> Workload, scale: ScaleFn)
    requires Steady(scale) && Performed(r, collect, scale)
    requires OnTheWay(start, CollectAll(collect, r.listed), scale)
    ensures OnTheWay(start, r.after.cluster, scale)
    ensures r.stop == Finished ==> forall id :: id in start ==> Reached(start, r.after.cluster, id, scale)
  {
    var collected := CollectAll(collect, r.listed);
    PassMoves(start, r.cfg, r.order, 0, Start(r.cfg, collected, r.order, r.prev));
    if r.stop == Finished {
      forall id | id in start ensures Reached(start, r.after.cluster, id, scale) {
        var i :| 0 <= i < |r.order| && r.order[i] == id;
      }
    }
  }

  /** Collecting a workload again, after a pass, leaves its objects as the pass did. */
  lemma CollectedAgain(start: Cluster, before: Cluster, w: Workload, first: Workload, id: Id, collect: Workload -> Workload, scale: ScaleFn)
    requires Stamps(collect, scale) && id in start && id in before
    requires start[id] == collect(first) && CoreOf(w) == CoreOf(before[id])
    requires Waiting(start, before, id) || Reached(start, before, id, scale)
    ensures CoreOf(collect(w)) == CoreOf(before[id])
  {
    assert StampsOnce(collect, scale, first);
    if Waiting(start, before, id) {
      assert StampsObjects(collect, w, collect(first));
    } else {
      assert StampsObjects(collect, w, scale(collect(first)).0);
    }
  }

  lemma {:induction false} RunOnTheWay(rounds: seq<Round>, collect: Workload -> Workload, scale: ScaleFn, n: nat)
    requires Steady(scale) && Stamps(collect, scale) && IsBatchedRun(rounds, collect, scale) && n < |rounds|
    ensures OnTheWay(CollectAll(collect, rounds[0].listed), CollectAll(collect, rounds[n].listed), scale)
  {
    if n > 0 {
      RunOnTheWay(rounds, collect, scale, n - 1);
      var start := CollectAll(collect, rounds[0].listed);
      assert Performed(rounds[n - 1], collect, scale) && Follows(rounds, n - 1);
      RoundMoves(start, rounds[n - 1], collect, scale);
      var before, c := rounds[n - 1].after.cluster, CollectAll(collect, rounds[n].listed);
      forall id | id in c ensures Waiting(start, c, id) || Reached(start, c, id, scale) {
        CollectedAgain(start, before, rounds[n].listed[id], rounds[0].listed[id], id, collect, scale);
      }
    }
  }

  /** The plain pass: no rate limit, no waves. */
  function Plain(cfg: Config): Config {
    cfg.(waves := false, batch := None)
  }

  lemma {:induction false} PlainFinishes(cfg: Config, order: seq<Id>, i: nat, st: PassState)
    requires i <= |order| && AllIn(order, st.cluster) && AllIn(st.members, st.cluster)
    requires !cfg.waves && st.budget == -1
    ensures PassFrom(cfg, order, i, st).1 == Finished
    decreases |order| - i
  {
    if i < |order| {
      StepKeepsIds(cfg, st, order[i], i < |order| - 1);
      var (next, stop) := Step(cfg, st, order[i], i < |order| - 1);
      assert stop.None? && next.budget == -1;
      PlainFinishes(cfg, order, i + 1, next);
    }
  }

  /** Batching refines the single pass. However a run of passes in one direction was cut
      up, by whatever batch sizes, waves, clocks and status changes, once a pass visits
      every workload each object is exactly what one unlimited pass without waves makes of
      the cluster the run began with, visited in any order. */
  lemma BatchingRefinesSinglePass(rounds: seq<Round>, collect: Workload -> Workload, scale: ScaleFn, cfg: Config, order: seq<Id>)
    requires Steady(scale) && Stamps(collect, scale) && IsBatchedRun(rounds, collect, scale) && rounds != []
    requires rounds[|rounds| - 1].stop == Finished
    requires cfg.scale == scale && Covers(order, rounds[0].listed)
    ensures var single := Pass(Plain(cfg), CollectAll(collect, rounds[0].listed), order, None);
            single.1 == Finished && SameObjects(rounds[|rounds| - 1].after.cluster, single.0.cluster)
  {
    var start := CollectAll(collect, rounds[0].listed);
    var last := rounds[|rounds| - 1];
    RunOnTheWay(rounds, collect, scale, |rounds| - 1);
    assert Performed(last, collect, scale);
    RoundMoves(start, last, collect, scale);
    PlainFinishes(Plain(cfg), order, 0, Start(Plain(cfg), start, order, None));
    var (end, stop) := Pass(Plain(cfg), start, order, None);
    var single := Round(Plain(cfg), order, None, rounds[0].listed, end, stop);
    RoundMoves(start, single, collect, scale);
    forall id | id in start ensures CoreOf(last.after.cluster[id]) == CoreOf(end.cluster[id]) {
      assert Reached(start, last.after.cluster, id, scale) && Reached(start, end.cluster, id, scale);
    }
  }

  // ---- progress ---------------------------------------------------------------------------------

  /** The workloads a pass would still move. */
  function Movable(c: Cluster, scale: ScaleFn): set<Id> {
    set id | id in c && scale(c[id]).1.Scaled?
  }

  /** How many workloads a pass finds to move, and how many it leaves. */
  function ToMove(r: Round, collect: Workload -> Workload, scale: ScaleFn): nat {
    |Movable(CollectAll(collect, r.listed), scale)|
  }

  function Left(r: Round, scale: ScaleFn): nat {
    |Movable(r.after.cluster, scale)|
  }

  lemma VisitCounts(cfg: Config, st: PassState, id: Id)
    requires Steady(cfg.scale) && id in st.cluster
    ensures var v := Visit(cfg, st, id);
            var moved := cfg.scale(st.cluster[id]).1.Scaled?;
            Movable(v.cluster, cfg.scale) == Movable(st.cluster, cfg.scale) - {id} &&
            v.processed == st.processed + (if moved then 1 else 0) &&
            |Movable(st.cluster, cfg.scale)| == |Movable(v.cluster, cfg.scale)| + (if moved then 1 else 0)
  {
    var v := Visit(cfg, st, id);
    assert v.cluster == st.cluster[id := cfg.scale(st.cluster[id]).0];
    assert ScalesOnce(cfg.scale, st.cluster[id]);
    var before, after := Movable(st.cluster, cfg.scale), Movable(v.cluster, cfg.scale);
    assert after == before - {id};
    if cfg.scale(st.cluster[id]).1.Scaled? {
      assert before == after + {id};
    } else {
      assert before == after;
    }
  }

  /** What is left of the budget and what was processed always add up to the batch size. */
  predicate BudgetKept(cfg: Config, st: PassState) {
    if cfg.batch.Some? && cfg.batch.value > 0 then st.budget >= 0 && st.budget + st.processed == cfg.batch.value
    else st.budget == -1
  }

  lemma EnterKeeps(cfg: Config, st: PassState, id: Id)
    requires id in st.cluster && AllIn(st.members, st.cluster)
    ensures var e := Enter(cfg, st, id).0;
            e.cluster == st.cluster && e.budget == st.budget && e.processed == st.processed
  {
  }

  lemma VisitBudget(cfg: Config, st: PassState, id: Id)
    requires Steady(cfg.scale) && id in st.cluster && BudgetKept(cfg, st) && st.budget != 0
    ensures var v := Visit(cfg, st, id);
            BudgetKept(cfg, v) && (Exhausted(cfg, st, id) <==> v.budget == 0)
  {
    assert ScalesOnce(cfg.scale, st.cluster[id]);
  }

  /** One turn takes what it processed off the list of those to move. */
  lemma StepCounts(cfg: Config, st: PassState, id: Id, more: bool)
    requires id in st.cluster && AllIn(st.members, st.cluster)
    requires Steady(cfg.scale) && BudgetKept(cfg, st) && st.budget != 0
    ensures var (next, stop) := Step(cfg, st, id, more);
            |Movable(st.cluster, cfg.scale)| - |Movable(next.cluster, cfg.scale)| == next.processed - st.processed &&
            BudgetKept(cfg, next) &&
            (stop == Some(BatchLimit) ==> next.budget == 0) && (stop.None? && more ==> next.budget != 0)
  {
    EnterKeeps(cfg, st, id);
    var (entered, held) := Enter(cfg, st, id);
    if !held {
      VisitCounts(cfg, entered, id);
      VisitBudget(cfg, entered, id);
    }
  }

  lemma {:induction false} PassCounts(cfg: Config, order: seq<Id>, i: nat, st: PassState)
    requires i <= |order| && AllIn(order, st.cluster) && AllIn(st.members, st.cluster)
    requires Steady(cfg.scale) && BudgetKept(cfg, st) && (st.budget == 0 ==> i == |order|)
    ensures var (end, stop) := PassFrom(cfg, order, i, st);
            |Movable(st.cluster, cfg.scale)| - |Movable(end.cluster, cfg.scale)| == end.processed - st.processed &&
            BudgetKept(cfg, end) && (stop == BatchLimit ==> end.budget == 0)
    decreases |order| - i
  {
    if i < |order| {
      var more := i < |order| - 1;
      StepKeepsIds(cfg, st, order[i], more);
      StepCounts(cfg, st, order[i], more);
      var (next, stop) := Step(cfg, st, order[i], more);
      if stop.None? { PassCounts(cfg, order, i + 1, next); }
    }
  }

  /** A pass takes exactly the workloads it processed off the list of those to move, and
      a pass stopped by the rate limit exactly a batch of them. */
  lemma RoundProgress(r: Round, collect: Workload -> Workload, scale: ScaleFn)
    requires Steady(scale) && Performed(r, collect, scale)
    ensures ToMove(r, collect, scale) == Left(r, scale) + r.after.processed
    ensures r.stop == BatchLimit ==> r.cfg.batch.Some? && r.after.processed == r.cfg.batch.value > 0
  {
    var start := Start(r.cfg, CollectAll(collect, r.listed), r.order, r.prev);
    PassCounts(r.cfg, r.order, 0, start);
  }

  lemma MovableKept(a: Cluster, b: Cluster, collect: Workload -> Workload, scale: ScaleFn)
    requires Steady(scale) && a.Keys == b.Keys
    requires forall id :: id in a ==> CoreOf(a[id]) == CoreOf(b[id])
    ensures Movable(a, scale) == Movable(b, scale)
  {
    forall id | id in a ensures scale(a[id]).1 == scale(b[id]).1 {
      assert SeesObjects(scale, a[id], b[id]);
    }
  }

  /** Between two passes nothing joins or leaves the list of those to move. */
  lemma MovableBetween(rounds: seq<Round>, collect: Workload -> Workload, scale: ScaleFn, n: nat)
    requires Steady(scale) && Stamps(collect, scale) && IsBatchedRun(rounds, collect, scale) && 0 < n < |rounds|
    ensures ToMove(rounds[n], collect, scale) == Left(rounds[n - 1], scale)
  {
    RunOnTheWay(rounds, collect, scale, n - 1);
    var start := CollectAll(collect, rounds[0].listed);
    var before, c := rounds[n - 1].after.cluster, CollectAll(collect, rounds[n].listed);
    assert Performed(rounds[n - 1], collect, scale) && Follows(rounds, n - 1);
    RoundMoves(start, rounds[n - 1], collect, scale);
    forall id | id in c ensures CoreOf(c[id]) == CoreOf(before[id]) {
      CollectedAgain(start, before, rounds[n].listed[id], rounds[0].listed[id], id, collect, scale);
    }
    MovableKept(c, before, collect, scale);
  }

  lemma LimitedRound(rounds: seq<Round>, collect: Workload -> Workload, scale: ScaleFn, batch: nat, n: nat)
    requires Steady(scale) && IsBatchedRun(rounds, collect, scale) && n < |rounds| && Limited(rounds[n], batch)
    ensures batch > 0 && ToMove(rounds[n], collect, scale) == Left(rounds[n], scale) + batch
  {
    assert Performed(rounds[n], collect, scale);
    RoundProgress(rounds[n], collect, scale);
  }

  /** The size of n batches. */
  function Batches(n: nat, batch: nat): nat {
    if n == 0 then 0 else Batches(n - 1, batch) + batch
  }

  lemma {:induction false} BatchesMoved(rounds: seq<Round>, collect: Workload -> Workload, scale: ScaleFn, batch: nat, n: nat)
    requires Steady(scale) && Stamps(collect, scale) && IsBatchedRun(rounds, collect, scale) && n < |rounds|
    requires forall i {:trigger Limited(rounds[i], batch)} :: 0 <= i <= n ==> Limited(rounds[i], batch)
    ensures batch > 0 && ToMove(rounds[0], collect, scale) == Left(rounds[n], scale) + Batches(n, batch) + batch
  {
    assert Limited(rounds[n], batch);
    LimitedRound(rounds, collect, scale, batch, n);
    if n > 0 {
      BatchesMoved(rounds, collect, scale, batch, n - 1);
      MovableBetween(rounds, collect, scale, n);
    }
  }

  /** Batched progress: n passes in a row stopped by a rate limit of the same size have
      moved n batches, so with m workloads to move at most m / batch such passes happen. */
  lemma BatchedProgress(rounds: seq<Round>, collect: Workload -> Workload, scale: ScaleFn, batch: nat, n: nat)
    requires Steady(scale) && Stamps(collect, scale) && IsBatchedRun(rounds, collect, scale) && 0 < n <= |rounds|
    requires forall i {:trigger Limited(rounds[i], batch)} :: 0 <= i < n ==> Limited(rounds[i], batch)
    ensures batch > 0 && ToMove(rounds[0], collect, scale) == Left(rounds[n - 1], scale) + n * batch
    ensures n <= ToMove(rounds[0], collect, scale) / batch
  {
    BatchesMoved(rounds, collect, scale, batch, n - 1);
    BatchesQuotient(n, batch, ToMove(rounds[0], collect, scale));
  }

  /** Without waves a pass visits every workload or stops at the rate limit. */
  lemma {:induction false} NoGateWithoutWaves(cfg: Config, order: seq<Id>, i: nat, st: PassState)
    requires i <= |order| && AllIn(order, st.cluster) && AllIn(st.members, st.cluster) && !cfg.waves
    ensures PassFrom(cfg, order, i, st).1 != WaveGate
    decreases |order| - i
  {
    if i < |order| {
      var next, stop := Turn(cfg, order, i, st);
      if stop.None? { NoGateWithoutWaves(cfg, order, i + 1, next); }
    }
  }

  predicate FinishesBy(rounds: seq<Round>, n: nat)
    requires n < |rounds|
  {
    exists i :: 0 <= i <= n && rounds[i].stop == Finished
  }

  /** How often a batch fits into m. */
  function WholeBatches(m: nat, batch: nat): nat
    requires batch > 0
  {
    m / batch
  }

  /** With waves off and a rate limit, m workloads to move are done with by pass number
      m / batch + 1. */
  lemma BatchedRunFinishes(rounds: seq<Round>, collect: Workload -> Workload, scale: ScaleFn, batch: nat)
    requires Steady(scale) && Stamps(collect, scale) && IsBatchedRun(rounds, collect, scale) && rounds != []
    requires batch > 0 && forall i {:trigger Rated(rounds[i], batch)} :: 0 <= i < |rounds| ==> Rated(rounds[i], batch)
    requires |rounds| > WholeBatches(ToMove(rounds[0], collect, scale), batch)
    ensures FinishesBy(rounds, WholeBatches(ToMove(rounds[0], collect, scale), batch))
  {
    var n := WholeBatches(ToMove(rounds[0], collect, scale), batch) + 1;
    forall i | 0 <= i < n ensures rounds[i].stop == Finished || Limited(rounds[i], batch) {
      assert Performed(rounds[i], collect, scale) && Rated(rounds[i], batch);
      NoGateWithoutWaves(rounds[i].cfg, rounds[i].order, 0,
                         Start(rounds[i].cfg, CollectAll(collect, rounds[i].listed), rounds[i].order, rounds[i].prev));
    }
    if !FinishesBy(rounds, n - 1) {
      BatchedProgress(rounds, collect, scale, batch, n);
    }
  }

  predicate Rated(r: Round, batch: nat) {
    !r.cfg.waves && r.cfg.batch == Some(batch)
  }

  lemma BatchesQuotient(n: nat, batch: nat, m: nat)
    requires batch > 0 && Batches(n, batch) <= m
    ensures Batches(n, batch) == n * batch && n <= m / batch
  {
    BatchesAreProduct(n, batch);
    QuotientBound(n, m, batch);
  }

  lemma {:induction false} BatchesAreProduct(n: nat, batch: nat)
    ensures Batches(n, batch) == n * batch
  {
    if n > 0 {
      BatchesAreProduct(n - 1, batch);
      assert n * batch == (n - 1) * batch + batch;
    }
  }

  predicate Limited(r: Round, batch: nat) {
    r.stop == BatchLimit && r.cfg.batch == Some(batch)
  }

  lemma QuotientBound(n: nat, m: nat, b: nat)
    requires b > 0 && n * b <= m
    ensures n <= m / b
  {
    if n >= m / b + 1 {
      TimesMonotone(m / b + 1, n, b);
    }
  }

  lemma TimesMonotone(x: nat, y: nat, b: nat)
    requires x <= y
    ensures x * b <= y * b
  {
  }
}
