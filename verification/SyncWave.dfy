// Sync waves: the order workloads are processed in, when a wave counts as settled, and
// whether scaling may move past it.
module SyncWave {
  import opened Wrappers
  import opened Ordering
  import opened Clock
  import opened Scaler

  datatype Kind = Deployment | StatefulSet | CronJob

  datatype Id = Id(kind: Kind, namespace: string, name: string)

  /** A workload as listed: the object lightsout writes, with the autoscaler targeting it,
      and what its own controller reports. wave is its parsed sync-wave annotation. */
  datatype Workload = Workload(
    id: Id,
    wave: int,
    pair: Pair,
    generation: int,
    observedGeneration: int,
    pods: int,
    readyReplicas: int)

  type Cluster = map<Id, Workload>

  /** waveBefore: ascending on the way up, descending on the way down. */
  predicate Before(a: int, b: int, up: bool) {
    if up then a < b else a > b
  }

  /** workloadSettled */
  predicate Settled(w: Workload, up: bool) {
    w.id.kind == CronJob ||
    (w.observedGeneration >= w.generation &&
     if up then w.readyReplicas >= ReplicasOf(w.pair.workload) else w.pods == 0)
  }

  /** waveGates */
  predicate Gates(w: Workload, r: Result) {
    w.id.kind != CronJob &&
    (r.Skipped? ==> r.reason != DifferentSchedule && r.reason != NotManaged && r.reason != UserParked)
  }

  predicate AllIn(ids: seq<Id>, cluster: Cluster) {
    forall i :: 0 <= i < |ids| ==> ids[i] in cluster
  }

  /** waveSettled */
  predicate WaveSettled(cluster: Cluster, members: seq<Id>, up: bool)
    requires AllIn(members, cluster)
  {
    forall i :: 0 <= i < |members| ==> Settled(cluster[members[i]], up)
  }

  /** CronJobs are never waited for. */
  lemma CronJobsSettle(cluster: Cluster, members: seq<Id>, up: bool)
    requires AllIn(members, cluster) && forall id :: id in members ==> cluster[id].id.kind == CronJob
    ensures WaveSettled(cluster, members, up)
  {
  }

  /** How far wave-ordered scaling got: the wave waited on, and since when. */
  datatype Progress = Progress(wave: int, since: Instant)

  /** waveGate's verdict on a boundary it does evaluate. */
  function GateSince(prev: Option<Progress>, wave: int, now: Instant): Instant {
    if prev.Some? && prev.value.wave == wave then prev.value.since else now
  }

  predicate PassedBefore(prev: Option<Progress>, wave: int, up: bool) {
    prev.Some? && Before(wave, prev.value.wave, up)
  }

  // ---- sorting -------------------------------------------------------------------------------

  /** The order of sortWorkloadsByWave: wave, then namespace, then name. */
  predicate Precedes(a: Workload, b: Workload, up: bool) {
    Before(a.wave, b.wave, up) ||
    (a.wave == b.wave &&
     ((a.id.namespace != b.id.namespace && StrLe(a.id.namespace, b.id.namespace)) ||
      (a.id.namespace == b.id.namespace && StrLe(a.id.name, b.id.name))))
  }

  lemma PrecedesTotal(a: Workload, b: Workload, up: bool)
    ensures Precedes(a, b, up) || Precedes(b, a, up)
  {
    StrTotal(a.id.namespace, b.id.namespace);
    StrTotal(a.id.name, b.id.name);
  }

  lemma PrecedesTransitive(a: Workload, b: Workload, c: Workload, up: bool)
    requires Precedes(a, b, up) && Precedes(b, c, up)
    ensures Precedes(a, c, up)
  {
    if a.wave == b.wave && b.wave == c.wave {
      if StrLe(a.id.namespace, b.id.namespace) && StrLe(b.id.namespace, c.id.namespace) {
        StrTransitive(a.id.namespace, b.id.namespace, c.id.namespace);
        if a.id.namespace == c.id.namespace { StrAntisymmetric(a.id.namespace, b.id.namespace); }
      }
      if a.id.namespace == b.id.namespace == c.id.namespace {
        StrTransitive(a.id.name, b.id.name, c.id.name);
      }
    }
  }

  predicate SortedFor(ws: seq<Workload>, up: bool) {
    forall i, j :: 0 <= i < j < |ws| ==> Precedes(ws[i], ws[j], up)
  }

  predicate SameRank(a: Workload, b: Workload) {
    a.wave == b.wave && a.id.namespace == b.id.namespace && a.id.name == b.id.name
  }

  /** w goes behind everything that precedes it, ties included. */
  function Insert(ws: seq<Workload>, w: Workload, up: bool): (r: seq<Workload>)
    ensures multiset(r) == multiset(ws) + multiset{w}
  {
    if ws == [] then [w]
    else
      var front, last := ws[..|ws| - 1], ws[|ws| - 1];
      assert ws == front + [last];
      if Precedes(last, w, up) then ws + [w] else Insert(front, w, up) + [last]
  }

  /** sortWorkloadsByWave, by what a stable sort returns. */
  function SortByWave(ws: seq<Workload>, up: bool): (r: seq<Workload>)
    ensures multiset(r) == multiset(ws)
  {
    if ws == [] then []
    else
      assert ws == ws[..|ws| - 1] + [ws[|ws| - 1]];
      Insert(SortByWave(ws[..|ws| - 1], up), ws[|ws| - 1], up)
  }

  lemma {:induction false} InsertSorted(ws: seq<Workload>, w: Workload, up: bool)
    requires SortedFor(ws, up)
    ensures SortedFor(Insert(ws, w, up), up)
  {
    if ws != [] {
      var front, last := ws[..|ws| - 1], ws[|ws| - 1];
      if Precedes(last, w, up) {
        forall i | 0 <= i < |ws| ensures Precedes(ws[i], w, up) {
          if i < |ws| - 1 { PrecedesTransitive(ws[i], last, w, up); }
        }
      } else {
        InsertSorted(front, w, up);
        PrecedesTotal(last, w, up);
        var r := Insert(front, w, up);
        forall i | 0 <= i < |r| ensures Precedes(r[i], last, up) {
          assert r[i] in multiset(r);
          assert r[i] == w || r[i] in multiset(front);
          if r[i] != w {
            var j :| 0 <= j < |front| && front[j] == r[i];
            assert ws[j] == r[i];
          }
        }
      }
    }
  }

  function Ranked(ws: seq<Workload>, like: Workload): seq<Workload> {
    if ws == [] then []
    else Ranked(ws[..|ws| - 1], like) + (if SameRank(ws[|ws| - 1], like) then [ws[|ws| - 1]] else [])
  }

  lemma RankedAppend(ws: seq<Workload>, w: Workload, like: Workload)
    ensures Ranked(ws + [w], like) == Ranked(ws, like) + (if SameRank(w, like) then [w] else [])
  {
    assert (ws + [w])[..|ws|] == ws;
  }

  lemma SameRankPrecedes(a: Workload, b: Workload, like: Workload, up: bool)
    requires SameRank(a, like) && SameRank(b, like)
    ensures Precedes(a, b, up)
  {
    StrTotal(a.id.name, b.id.name);
  }

  lemma OneIsEmpty(a: seq<Workload>, x: seq<Workload>, y: seq<Workload>)
    requires x == [] || y == []
    ensures a + x + y == a + y + x
  {
    assert a + [] == a;
  }

  lemma {:induction false} InsertStable(ws: seq<Workload>, w: Workload, up: bool, like: Workload)
    ensures Ranked(Insert(ws, w, up), like) == Ranked(ws, like) + (if SameRank(w, like) then [w] else [])
  {
    if ws == [] || Precedes(ws[|ws| - 1], w, up) {
      assert [] + [w] == [w];
      RankedAppend(ws, w, like);
    } else {
      var front, last := ws[..|ws| - 1], ws[|ws| - 1];
      assert ws == front + [last];
      InsertStable(front, w, up, like);
      RankedAppend(Insert(front, w, up), last, like);
      RankedAppend(front, last, like);
      if SameRank(last, like) && SameRank(w, like) { SameRankPrecedes(last, w, like, up); }
      OneIsEmpty(Ranked(front, like), if SameRank(w, like) then [w] else [], if SameRank(last, like) then [last] else []);
    }
  }

  /** The sort puts the waves in processing order, keeps every workload, and leaves
      workloads of equal wave, namespace and name in the order they were collected. */
  lemma {:induction false} SortIsStable(ws: seq<Workload>, up: bool)
    ensures SortedFor(SortByWave(ws, up), up)
    ensures multiset(SortByWave(ws, up)) == multiset(ws)
    ensures forall like :: Ranked(SortByWave(ws, up), like) == Ranked(ws, like)
  {
    if ws != [] {
      var front, last := ws[..|ws| - 1], ws[|ws| - 1];
      SortIsStable(front, up);
      InsertSorted(SortByWave(front, up), last, up);
      forall like ensures Ranked(SortByWave(ws, up), like) == Ranked(ws, like) {
        InsertStable(SortByWave(front, up), last, up, like);
      }
    }
  }
}
