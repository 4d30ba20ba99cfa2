// What the counts of a pass say: who had a turn, and how it ended.
module PassCounts {
  import opened Wrappers
  import opened Clock
  import opened Scaler
  import opened SyncWave
  import opened Batcher

  /** How many workloads have had their turn. */
  function Turns(st: PassState): nat {
    st.processed + st.skipped + st.failed
  }

  /** How many the pass moved. */
  function MovesIn(log: seq<Event>): nat {
    if log == [] then 0 else MovesIn(log[..|log| - 1]) + (if log[|log| - 1].Moved? then 1 else 0)
  }

  lemma OneMoreEvent(log: seq<Event>, e: Event)
    ensures MovesIn(log + [e]) == MovesIn(log) + (if e.Moved? then 1 else 0)
  {
    assert (log + [e])[..|log|] == log;
  }

  function Fails(cfg: Config, w: Workload): nat {
    if cfg.scale(w).1.Failed? then 1 else 0
  }

  function Skips(cfg: Config, w: Workload): nat {
    if cfg.scale(w).1.Skipped? then 1 else 0
  }

  /** How many of the first n listed workloads fail to scale, and how many are skipped. */
  function FailsUpTo(cfg: Config, listed: Cluster, order: seq<Id>, n: nat): nat
    requires n <= |order| && AllIn(order, listed)
  {
    if n == 0 then 0 else FailsUpTo(cfg, listed, order, n - 1) + Fails(cfg, listed[order[n - 1]])
  }

  function SkipsUpTo(cfg: Config, listed: Cluster, order: seq<Id>, n: nat): nat
    requires n <= |order| && AllIn(order, listed)
  {
    if n == 0 then 0 else SkipsUpTo(cfg, listed, order, n - 1) + Skips(cfg, listed[order[n - 1]])
  }

  lemma EnterTakesNoTurn(cfg: Config, st: PassState, id: Id)
    requires id in st.cluster && AllIn(st.members, st.cluster)
    ensures var e := Enter(cfg, st, id).0;
            e.cluster == st.cluster && Turns(e) == Turns(st) && e.processed == st.processed &&
            e.failed == st.failed && e.skipped == st.skipped && MovesIn(e.log) == MovesIn(st.log)
  {
    var e := Enter(cfg, st, id).0;
    if e.log != st.log { OneMoreEvent(st.log, e.log[|st.log|]); }
  }

  lemma VisitTakesTurn(cfg: Config, st: PassState, id: Id)
    requires id in st.cluster
    ensures var v := Visit(cfg, st, id);
            Turns(v) == Turns(st) + 1 && v.processed - st.processed == MovesIn(v.log) - MovesIn(st.log) &&
            v.failed - st.failed == Fails(cfg, st.cluster[id]) && v.skipped - st.skipped == Skips(cfg, st.cluster[id]) &&
            v.cluster.Keys == st.cluster.Keys && forall other :: other in st.cluster && other != id ==> v.cluster[other] == st.cluster[other]
  {
    OneMoreEvent(st.log, Moved(id, st.cluster[id].wave));
  }

  lemma TurnCounts(cfg: Config, st: PassState, id: Id, more: bool, next: PassState, stop: Option<Stop>)
    requires id in st.cluster && AllIn(st.members, st.cluster) && (next, stop) == Step(cfg, st, id, more)
    ensures Turns(next) == Turns(st) + (if stop == Some(WaveGate) then 0 else 1)
    ensures next.processed - st.processed == MovesIn(next.log) - MovesIn(st.log)
    ensures stop != Some(WaveGate) ==>
              next.failed - st.failed == Fails(cfg, st.cluster[id]) && next.skipped - st.skipped == Skips(cfg, st.cluster[id])
    ensures stop == Some(WaveGate) ==> next.failed == st.failed && next.skipped == st.skipped
    ensures next.cluster.Keys == st.cluster.Keys && forall other :: other in st.cluster && other != id ==> next.cluster[other] == st.cluster[other]
    ensures stop.Some? ==> stop == Some(WaveGate) || (stop == Some(BatchLimit) && more)
  {
    EnterTakesNoTurn(cfg, st, id);
    var (entered, held) := Enter(cfg, st, id);
    if !held { VisitTakesTurn(cfg, entered, id); }
  }

  /** The counts are those of the first n workloads. */
  predicate Tallied(cfg: Config, listed: Cluster, order: seq<Id>, n: nat, st: PassState)
    requires AllIn(order, listed)
  {
    n <= |order| && Turns(st) == n && st.processed == MovesIn(st.log) &&
    st.failed == FailsUpTo(cfg, listed, order, n) && st.skipped == SkipsUpTo(cfg, listed, order, n)
  }

  /** From the i-th workload on the cluster is as listed. */
  predicate RestListed(listed: Cluster, order: seq<Id>, i: nat, c: Cluster)
    requires AllIn(order, listed)
  {
    forall j :: i <= j < |order| ==> order[j] in c && c[order[j]] == listed[order[j]]
  }

  predicate ListsOnce(order: seq<Id>) {
    forall j, k :: 0 <= j < k < |order| ==> order[j] != order[k]
  }

  lemma TurnTallied(cfg: Config, listed: Cluster, order: seq<Id>, i: nat, st: PassState, next: PassState, stop: Option<Stop>)
    requires i < |order| && AllIn(order, listed) && ListsOnce(order) && order[i] in st.cluster && AllIn(st.members, st.cluster)
    requires Tallied(cfg, listed, order, i, st) && RestListed(listed, order, i, st.cluster)
    requires (next, stop) == Step(cfg, st, order[i], i < |order| - 1)
    ensures if stop == Some(WaveGate) then Tallied(cfg, listed, order, i, next) else Tallied(cfg, listed, order, i + 1, next)
    ensures RestListed(listed, order, i + 1, next.cluster)
    ensures stop.Some? ==> stop == Some(WaveGate) || (stop == Some(BatchLimit) && i < |order| - 1)
  {
    TurnCounts(cfg, st, order[i], i < |order| - 1, next, stop);
  }

  lemma {:induction false} PassTallied(cfg: Config, listed: Cluster, order: seq<Id>, i: nat, st: PassState)
    returns (n: nat, end: PassState, reason: Stop)
    requires i <= |order| && AllIn(order, listed) && ListsOnce(order) && AllIn(order, st.cluster) && AllIn(st.members, st.cluster)
    requires Tallied(cfg, listed, order, i, st) && RestListed(listed, order, i, st.cluster)
    ensures (end, reason) == PassFrom(cfg, order, i, st)
    ensures Tallied(cfg, listed, order, n, end) && (reason == Finished <==> n == |order|)
    decreases |order| - i
  {
    if i == |order| {
      n, end, reason := i, st, Finished;
      assert PassFrom(cfg, order, i, st) == (end, reason);
    } else {
      var next, stop := Turn(cfg, order, i, st);
      TurnTallied(cfg, listed, order, i, st, next, stop);
      if stop.Some? {
        n, end, reason := if stop.value == WaveGate then i else i + 1, next, stop.value;
        assert PassFrom(cfg, order, i, st) == (end, reason);
      } else {
        n, end, reason := PassTallied(cfg, listed, order, i + 1, next);
        assert PassFrom(cfg, order, i, st) == PassFrom(cfg, order, i + 1, next);
        assert PassFrom(cfg, order, i, st) == (end, reason);
      }
    }
  }

  /** Every workload that has its turn is counted once: as failed if scaling it as listed
      fails, as skipped if it is skipped, and otherwise as processed, which are those the
      pass moved. All have had their turn if and only if the pass says it finished: one that
      stops, at a wave or for its rate limit, leaves some. */
  lemma TurnsAreCounted(cfg: Config, listed: Cluster, order: seq<Id>, carried: Option<Progress>) returns (n: nat)
    requires AllIn(order, listed) && ListsOnce(order)
    ensures n <= |order|
    ensures var (end, stop) := Pass(cfg, listed, order, carried);
            n == end.processed + end.skipped + end.failed && end.processed == MovesIn(end.log) &&
            end.failed == FailsUpTo(cfg, listed, order, n) && end.skipped == SkipsUpTo(cfg, listed, order, n) &&
            (stop == Finished <==> n == |order|)
  {
    var end, reason;
    n, end, reason := PassTallied(cfg, listed, order, 0, Start(cfg, listed, order, carried));
  }
}
