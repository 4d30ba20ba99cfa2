// The scale function of a pass: ScaleDeployment, ScaleStatefulSet or ScaleCronJob on what
// was just listed, and the facts about it the pass-level results rest on.
module WorkloadScaling {
  import opened Wrappers
  import opened Json
  import opened Patch
  import opened Scaler
  import opened ScalerRuns
  import opened HpaRuns
  import opened CronJobRuns
  import opened SyncWave
  import opened Batcher
  import opened BatchRefinement

  /** The API server bumps the generation when a write changes the spec. */
  function Written(w: Workload, p: Pair): Workload {
    w.(pair := p, generation := if p.workload.spec == w.pair.workload.spec then w.generation else w.generation + 1)
  }

  /** Scaling one listed workload; ok and hpaOk are the API's answers. */
  function ScaleListed(up: bool, schedule: string, w: Workload, ok: bool, hpaOk: bool): (Workload, Result) {
    if w.id.kind == CronJob then
      var (job, result) := ScaleCronJob(up, schedule, w.pair.workload, w.pair.workload, ok);
      (Written(w, w.pair.(workload := job)), result)
    else
      var (pair, result) := Scale(up, schedule, w.pair, w.pair, ok, hpaOk);
      (Written(w, pair), result)
  }

  /** The scale function without API errors. */
  function Scaling(up: bool, schedule: string): ScaleFn {
    (w: Workload) => ScaleListed(up, schedule, w, true, true)
  }

  /** What collecting does: a namespace schedule re-stamps what another schedule owns. */
  function Collecting(transferOwnership: bool, schedule: string): Workload -> Workload {
    (w: Workload) =>
      if transferOwnership then
        Written(w, w.pair.(workload := Transfer(w.pair.workload, w.pair.workload, schedule, true)))
      else w
  }

  // ---- scaling finds nothing left to do in its own result -----------------------------------

  lemma DownOnce(schedule: string, p: Pair)
    requires schedule != ""
    ensures var (once, _) := Scale(false, schedule, p, p, true, true);
            Scale(false, schedule, once, once, true, true).0 == once && Scale(false, schedule, once, once, true, true).1.Skipped?
  {
    if DecideDown(p.workload, schedule).Send? {
      DownMarks(p.workload, schedule);
      HeldIsSkipped(schedule, Scale(false, schedule, p, p, true, true).0);
    } else {
      assert Scale(false, schedule, p, p, true, true).0 == p;
    }
  }

  lemma HeldIsSkipped(schedule: string, p: Pair)
    requires HeldDown(p.workload)
    ensures Scale(false, schedule, p, p, true, true).0 == p && Scale(false, schedule, p, p, true, true).1.Skipped?
  {
  }

  lemma DownMarks(o: Object, schedule: string)
    ensures var after := Patched(o, DownPatch(o, schedule));
            HeldDown(after) && Annotation(after, MANAGED_BY) == schedule && Label(after) == schedule
  {
    KeysDistinct();
  }

  function Label(o: Object): string {
    if MANAGED_BY in o.labels then o.labels[MANAGED_BY] else ""
  }

  lemma UpMarks(o: Object)
    ensures var after := Patched(o, UpPatch(o)); !HeldDown(after) && Label(after) == ""
  {
    UpPatchKeeps(o, o);
    assert UpPatch(o).removeLabels[0] == MANAGED_BY;
  }

  lemma HpaUpOnce(schedule: string, h: Option<Object>)
    ensures var once := HpaAfter(true, schedule, h, h, true); HpaAfter(true, schedule, once, once, true) == once
  {
    if h.Some? && DecideHpaUp(h.value, schedule).Some? {
      assert HpaUpPatch(h.value).removeAnnotations[1] == MANAGED_BY;
    }
  }

  lemma UpOnce(schedule: string, p: Pair)
    ensures var (once, _) := Scale(true, schedule, p, p, true, true);
            Scale(true, schedule, once, once, true, true).0 == once && Scale(true, schedule, once, once, true, true).1.Skipped?
  {
    HpaUpOnce(schedule, p.hpa);
    if DecideUp(p.workload, schedule).Send? {
      UpMarks(p.workload);
    }
  }

  lemma Suspension(o: Object, schedule: string)
    requires schedule != ""
    ensures DecideSuspend(Patched(o, SuspendPatch(schedule)), schedule).Skip?
    ensures Label(Patched(o, SuspendPatch(schedule))) == schedule
  {
    KeysDistinct();
    SuspendStep(o, schedule);
  }

  lemma Resumption(o: Object, schedule: string)
    ensures DecideResume(Patched(o, ResumePatch()), schedule).Skip?
    ensures Label(Patched(o, ResumePatch())) == ""
  {
    KeysDistinct();
    ResumeStep(o);
  }

  lemma UserMark(o: Object, schedule: string)
    ensures DecideResume(Patched(o, UserMarkPatch()), schedule).Skip?
    ensures Label(Patched(o, UserMarkPatch())) == Label(o)
  {
    KeysDistinct();
    UserMarkStep(o);
  }

  lemma JobOnce(up: bool, schedule: string, o: Object)
    requires schedule != ""
    ensures DecideCronJob(up, ScaleCronJob(up, schedule, o, o, true).0, schedule).Skip?
  {
    if DecideCronJob(up, o, schedule).Send? {
      if !up {
        Suspension(o, schedule);
      } else if SuspendedUnmarked(o) {
        UserMark(o, schedule);
      } else {
        Resumption(o, schedule);
      }
    }
  }

  lemma ScalesOnceConcretely(up: bool, schedule: string, w: Workload)
    requires schedule != ""
    ensures ScalesOnce(Scaling(up, schedule), w)
  {
    if w.id.kind == CronJob {
      JobOnce(up, schedule, w.pair.workload);
    } else if up {
      UpOnce(schedule, w.pair);
    } else {
      DownOnce(schedule, w.pair);
    }
  }

  /** The controller's scaling is steady, in either direction, for every schedule. */
  lemma ScalingIsSteady(up: bool, schedule: string)
    requires schedule != ""
    ensures Steady(Scaling(up, schedule))
  {
    forall w: Workload ensures ScalesOnce(Scaling(up, schedule), w) {
      ScalesOnceConcretely(up, schedule, w);
    }
    forall w: Workload, v: Workload ensures SeesObjects(Scaling(up, schedule), w, v) {
      SeesObjectsConcretely(up, schedule, w, v);
    }
  }

  lemma SeesObjectsConcretely(up: bool, schedule: string, w: Workload, v: Workload)
    ensures SeesObjects(Scaling(up, schedule), w, v)
  {
  }

  // ---- collecting re-stamps once ----------------------------------------------------------------

  predicate Stamped(o: Object, schedule: string) {
    Label(o) == "" || Label(o) == schedule
  }

  lemma TransferLabel(o: Object, schedule: string)
    requires schedule != ""
    ensures Stamped(Transfer(o, o, schedule, true), schedule)
    ensures Stamped(o, schedule) ==> Transfer(o, o, schedule, true) == o
  {
    match TransferPatch(o, schedule)
    case Some(p) => assert Patched(o, p).labels[MANAGED_BY] == schedule;
    case None =>
  }

  lemma JobLabel(up: bool, schedule: string, o: Object)
    requires schedule != "" && Stamped(o, schedule)
    ensures Stamped(ScaleCronJob(up, schedule, o, o, true).0, schedule)
  {
    if DecideCronJob(up, o, schedule).Send? {
      if !up {
        Suspension(o, schedule);
      } else if SuspendedUnmarked(o) {
        UserMark(o, schedule);
      } else {
        Resumption(o, schedule);
      }
    }
  }

  lemma PairLabel(up: bool, schedule: string, p: Pair)
    requires Stamped(p.workload, schedule)
    ensures Stamped(Scale(up, schedule, p, p, true, true).0.workload, schedule)
  {
    if Decide(up, p.workload, schedule).Send? {
      if up { UpMarks(p.workload); } else { DownMarks(p.workload, schedule); }
    }
  }

  lemma ScaledLabel(up: bool, schedule: string, w: Workload)
    requires schedule != "" && Stamped(w.pair.workload, schedule)
    ensures Stamped(ScaleListed(up, schedule, w, true, true).0.pair.workload, schedule)
  {
    if w.id.kind == CronJob {
      JobLabel(up, schedule, w.pair.workload);
    } else {
      PairLabel(up, schedule, w.pair);
    }
  }

  lemma StampsOnceConcretely(transferOwnership: bool, up: bool, schedule: string, w: Workload)
    requires schedule != ""
    ensures StampsOnce(Collecting(transferOwnership, schedule), Scaling(up, schedule), w)
  {
    var once := Collecting(transferOwnership, schedule)(w);
    if transferOwnership {
      TransferLabel(w.pair.workload, schedule);
      TransferLabel(once.pair.workload, schedule);
      ScaledLabel(up, schedule, once);
      TransferLabel(Scaling(up, schedule)(once).0.pair.workload, schedule);
    }
  }

  /** Collecting settles ownership once and is not disturbed by scaling. */
  lemma CollectingStamps(transferOwnership: bool, up: bool, schedule: string)
    requires schedule != ""
    ensures Stamps(Collecting(transferOwnership, schedule), Scaling(up, schedule))
  {
    forall w: Workload ensures StampsOnce(Collecting(transferOwnership, schedule), Scaling(up, schedule), w) {
      StampsOnceConcretely(transferOwnership, up, schedule, w);
    }
    forall w: Workload, v: Workload ensures StampsObjects(Collecting(transferOwnership, schedule), w, v) {
    }
  }

  /** For the controller's own scaling and collecting: a run cut up by rate limits and
      waves ends with the objects of one unlimited, wave-free pass. */
  lemma RateLimitsChangeWhenNotWhat(rounds: seq<Round>, transferOwnership: bool, up: bool, schedule: string, cfg: Config, order: seq<Id>)
    requires schedule != "" && rounds != []
    requires IsBatchedRun(rounds, Collecting(transferOwnership, schedule), Scaling(up, schedule))
    requires rounds[|rounds| - 1].stop == Finished
    requires cfg.scale == Scaling(up, schedule) && Covers(order, rounds[0].listed)
    ensures var single := Pass(Plain(cfg), CollectAll(Collecting(transferOwnership, schedule), rounds[0].listed), order, None);
            single.1 == Finished && SameObjects(rounds[|rounds| - 1].after.cluster, single.0.cluster)
  {
    ScalingIsSteady(up, schedule);
    CollectingStamps(transferOwnership, up, schedule);
    BatchingRefinesSinglePass(rounds, Collecting(transferOwnership, schedule), Scaling(up, schedule), cfg, order);
  }

  /** And each of its rate-limited passes moves exactly one batch. */
  lemma RateLimitProgress(rounds: seq<Round>, transferOwnership: bool, up: bool, schedule: string, batch: nat, n: nat)
    requires schedule != "" && 0 < n <= |rounds|
    requires IsBatchedRun(rounds, Collecting(transferOwnership, schedule), Scaling(up, schedule))
    requires forall i {:trigger Limited(rounds[i], batch)} :: 0 <= i < n ==> Limited(rounds[i], batch)
    ensures var m := ToMove(rounds[0], Collecting(transferOwnership, schedule), Scaling(up, schedule));
            batch > 0 && m == Left(rounds[n - 1], Scaling(up, schedule)) + n * batch && n <= m / batch
  {
    ScalingIsSteady(up, schedule);
    CollectingStamps(transferOwnership, up, schedule);
    BatchedProgress(rounds, Collecting(transferOwnership, schedule), Scaling(up, schedule), batch, n);
  }

  /** And with waves off, m workloads to move are done with by pass number m / batch + 1. */
  lemma RateLimitedRunFinishes(rounds: seq<Round>, collect: Workload -> Workload, scale: ScaleFn,
                               transferOwnership: bool, up: bool, schedule: string, batch: nat)
    requires collect == Collecting(transferOwnership, schedule) && scale == Scaling(up, schedule) && schedule != ""
    requires IsBatchedRun(rounds, collect, scale) && rounds != [] && batch > 0
    requires forall i {:trigger Rated(rounds[i], batch)} :: 0 <= i < |rounds| ==> Rated(rounds[i], batch)
    requires |rounds| > WholeBatches(ToMove(rounds[0], collect, scale), batch)
    ensures FinishesBy(rounds, WholeBatches(ToMove(rounds[0], collect, scale), batch))
  {
    ScalingIsSteady(up, schedule);
    CollectingStamps(transferOwnership, up, schedule);
    BatchedRunFinishes(rounds, collect, scale, batch);
  }
}
