// What one step brings about when the copy is fresh and the API takes the write: a down
// step turns off what it may, an up step turns it on again, and a new owner can do so too.
module Effects {
  import opened Wrappers
  import opened Json
  import opened Patch
  import opened Scaler
  import opened ScalerRuns
  import opened CronJobRuns
  import HpaRuns
  import Decimal

  /** The record and both of the schedule's marks. */
  predicate Marked(o: Object, schedule: string, record: string, text: string) {
    record in o.annotations && o.annotations[record] == text &&
    MANAGED_BY in o.annotations && o.annotations[MANAGED_BY] == schedule &&
    MANAGED_BY in o.labels && o.labels[MANAGED_BY] == schedule
  }

  predicate Unmarked(o: Object, record: string) {
    record !in o.annotations && MANAGED_BY !in o.annotations && MANAGED_BY !in o.labels
  }

  /** Nothing but the record, the marks and one spec field differs. */
  predicate OthersSame(before: Object, after: Object, record: string, field: string) {
    after.annotations - {record, MANAGED_BY} == before.annotations - {record, MANAGED_BY} &&
    after.labels - {MANAGED_BY} == before.labels - {MANAGED_BY} &&
    after.spec - {field} == before.spec - {field}
  }

  lemma PatchedOthers(o: Object, p: ObjectPatch, record: string, field: string, v: Json)
    requires p.spec == map[field := v] && !v.Obj? && !v.Null?
    requires p.setLabels.Keys <= {MANAGED_BY} && forall k :: k in p.removeLabels ==> k == MANAGED_BY
    requires p.setAnnotations.Keys <= {record, MANAGED_BY} && forall k :: k in p.removeAnnotations ==> k in {record, MANAGED_BY}
    ensures OthersSame(o, Patched(o, p), record, field) && Field(Patched(o, p).spec, field) == Some(v)
  {
    OthersKept(o.labels, p.setLabels, p.removeLabels, {MANAGED_BY});
    OthersKept(o.annotations, p.setAnnotations, p.removeAnnotations, {record, MANAGED_BY});
    SpecOthersKept(o.spec, field, v);
  }

  // ---- CronJobs -----------------------------------------------------------------------------

  /** The spec says so: suspend is present and true. An absent or false one is running. */
  predicate SaysSuspended(o: Object) {
    SUSPEND in o.spec && o.spec[SUSPEND] == Bool(true)
  }

  /** No other schedule owns it, going by the annotation; an empty one owns nothing. */
  predicate FreeFor(o: Object, schedule: string) {
    MANAGED_BY in o.annotations ==> o.annotations[MANAGED_BY] == "" || o.annotations[MANAGED_BY] == schedule
  }

  /** No record, or an empty one. */
  predicate Unrecorded(o: Object, record: string) {
    record in o.annotations ==> o.annotations[record] == ""
  }

  lemma SuspendPatched(o: Object, schedule: string)
    ensures var after := Patched(o, SuspendPatch(schedule));
            SaysSuspended(after) && Marked(after, schedule, ORIGINAL_SUSPEND, BY_LIGHTSOUT) &&
            OthersSame(o, after, ORIGINAL_SUSPEND, SUSPEND)
  {
    KeysDistinct();
    PatchedOthers(o, SuspendPatch(schedule), ORIGINAL_SUSPEND, SUSPEND, Bool(true));
  }

  lemma ResumePatched(o: Object)
    ensures var after := Patched(o, ResumePatch());
            Field(after.spec, SUSPEND) == Some(Bool(false)) && Unmarked(after, ORIGINAL_SUSPEND) &&
            OthersSame(o, after, ORIGINAL_SUSPEND, SUSPEND)
  {
    ResumeStep(o);
    PatchedOthers(o, ResumePatch(), ORIGINAL_SUSPEND, SUSPEND, Bool(false));
  }

  /** A down step on a CronJob that is free for the schedule and carries no record leaves it
      suspended: one that was running is marked as the schedule's and counted as scaled; one
      its user suspended is left as it is. Any other job is left as it is. */
  lemma SuspendsExactly(o: Object, schedule: string)
    ensures var (after, result) := ScaleCronJob(false, schedule, o, o, true);
            if FreeFor(o, schedule) && Unrecorded(o, ORIGINAL_SUSPEND) then
              SaysSuspended(after) &&
              if SaysSuspended(o) then after == o && result == Skipped(SuspendedByUser)
              else result == Scaled && Marked(after, schedule, ORIGINAL_SUSPEND, BY_LIGHTSOUT) &&
                   OthersSame(o, after, ORIGINAL_SUSPEND, SUSPEND)
            else after == o && result.Skipped?
  {
    SuspendPatched(o, schedule);
  }

  /** An up step resumes exactly the jobs lightsout suspended and no other schedule owns. A
      job suspended without a record is recorded as its user's, and stays suspended; any
      other is left as it is. */
  lemma ResumesExactly(o: Object, schedule: string)
    ensures var (after, result) := ScaleCronJob(true, schedule, o, o, true);
            if ORIGINAL_SUSPEND in o.annotations && o.annotations[ORIGINAL_SUSPEND] == BY_LIGHTSOUT && FreeFor(o, schedule) then
              result == Scaled && Field(after.spec, SUSPEND) == Some(Bool(false)) && Unmarked(after, ORIGINAL_SUSPEND) &&
              OthersSame(o, after, ORIGINAL_SUSPEND, SUSPEND)
            else if SaysSuspended(o) && Unrecorded(o, ORIGINAL_SUSPEND) then
              result == Skipped(MarkedByUser) && after == o.(annotations := o.annotations[ORIGINAL_SUSPEND := BY_USER])
            else result.Skipped? && after == o
  {
    KeysDistinct();
    ResumePatched(o);
    UserMarked(o);
  }

  lemma UserMarked(o: Object)
    ensures Patched(o, UserMarkPatch()) == o.(annotations := o.annotations[ORIGINAL_SUSPEND := BY_USER])
  {
    SpecKept(o.spec);
    var after := Patched(o, UserMarkPatch());
    assert after.labels == o.labels && after.annotations == o.annotations[ORIGINAL_SUSPEND := BY_USER];
  }

  /** An error-free night of a running CronJob nobody marked: suspended in between, and
      running and unmarked afterwards, with everything else as it was. */
  lemma JobNight(o: Object, schedule: string) returns (down: Object, up: Object)
    requires schedule != "" && Unmarked(o, ORIGINAL_SUSPEND) && !SaysSuspended(o)
    ensures ScaleCronJob(false, schedule, o, o, true) == (down, Scaled) && SaysSuspended(down)
    ensures ScaleCronJob(true, schedule, down, down, true) == (up, Scaled) && !SaysSuspended(up)
    ensures Unmarked(up, ORIGINAL_SUSPEND) && OthersSame(o, up, ORIGINAL_SUSPEND, SUSPEND)
  {
    SuspendsExactly(o, schedule);
    down := ScaleCronJob(false, schedule, o, o, true).0;
    ResumesExactly(down, schedule);
    up := ScaleCronJob(true, schedule, down, down, true).0;
  }

  // ---- replicas -------------------------------------------------------------------------------

  /** The desired count in the spec, one if it says nothing. */
  predicate Wants(o: Object, n: int) {
    Field(o.spec, REPLICAS) == Some(Int(n)) || (n == 1 && REPLICAS !in o.spec)
  }

  lemma DownPatched(o: Object, schedule: string, n: int)
    requires Wants(o, n)
    ensures var after := Patched(o, DownPatch(o, schedule));
            Wants(after, 0) && Marked(after, schedule, ORIGINAL_REPLICAS, Decimal.Itoa(n)) && OthersSame(o, after, ORIGINAL_REPLICAS, REPLICAS)
  {
    KeysDistinct();
    PatchedOthers(o, DownPatch(o, schedule), ORIGINAL_REPLICAS, REPLICAS, Int(0));
  }

  lemma UpPatched(o: Object, text: string)
    requires ORIGINAL_REPLICAS in o.annotations && o.annotations[ORIGINAL_REPLICAS] == text
    ensures var after := Patched(o, UpPatch(o));
            Wants(after, RestoredCount(text)) && Unmarked(after, ORIGINAL_REPLICAS) && OthersSame(o, after, ORIGINAL_REPLICAS, REPLICAS)
  {
    var patch := UpPatch(o);
    assert patch.removeAnnotations[0] == ORIGINAL_REPLICAS && patch.removeAnnotations[1] == MANAGED_BY;
    assert patch.removeLabels[0] == MANAGED_BY;
    PatchedOthers(o, patch, ORIGINAL_REPLICAS, REPLICAS, Int(RestoredCount(text)));
  }

  /** A down step zeroes exactly the workloads that want replicas, carry no record and are
      free for the schedule, and records their count. Any other one is left as it is. */
  lemma ZeroesExactly(p: Pair, schedule: string, n: int, hpaOk: bool)
    requires Wants(p.workload, n)
    ensures var (after, result) := Scale(false, schedule, p, p, true, hpaOk);
            if FreeFor(p.workload, schedule) && Unrecorded(p.workload, ORIGINAL_REPLICAS) && n != 0 then
              result == Scaled && Wants(after.workload, 0) && Marked(after.workload, schedule, ORIGINAL_REPLICAS, Decimal.Itoa(n)) &&
              OthersSame(p.workload, after.workload, ORIGINAL_REPLICAS, REPLICAS)
            else result.Skipped? && after == p
  {
    DownPatched(p.workload, schedule, n);
  }

  /** The count a record stands for: a text that is no int32 stands for one. */
  predicate Stands(text: string, n: int) {
    match Decimal.ParseInt32(text)
    case Some(m) => n == m
    case None => n == 1
  }

  /** An up step restores exactly the workloads that carry a record and are free for the
      schedule, to the recorded count. */
  lemma RestoresExactly(p: Pair, schedule: string, hpaOk: bool)
    ensures var (after, result) := Scale(true, schedule, p, p, true, hpaOk);
            var o := p.workload;
            if !Unrecorded(o, ORIGINAL_REPLICAS) && FreeFor(o, schedule) then
              result == Scaled && (forall n :: Stands(o.annotations[ORIGINAL_REPLICAS], n) ==> Wants(after.workload, n)) &&
              Unmarked(after.workload, ORIGINAL_REPLICAS) && OthersSame(o, after.workload, ORIGINAL_REPLICAS, REPLICAS)
            else result.Skipped? && after.workload == o
  {
    if !Unrecorded(p.workload, ORIGINAL_REPLICAS) { UpPatched(p.workload, p.workload.annotations[ORIGINAL_REPLICAS]); }
  }

  /** An error-free night of a workload nobody marked: at zero in between, and afterwards
      at its count, unmarked, with everything else as it was. */
  lemma ReplicasNight(p: Pair, schedule: string, n: int) returns (down: Pair, up: Pair)
    requires schedule != "" && Unmarked(p.workload, ORIGINAL_REPLICAS) && Wants(p.workload, n) && n != 0 && Decimal.IsInt32(n)
    ensures Scale(false, schedule, p, p, true, true) == (down, Scaled) && Wants(down.workload, 0)
    ensures Scale(true, schedule, down, down, true, true) == (up, Scaled) && Wants(up.workload, n)
    ensures Unmarked(up.workload, ORIGINAL_REPLICAS) && OthersSame(p.workload, up.workload, ORIGINAL_REPLICAS, REPLICAS)
  {
    ZeroesExactly(p, schedule, n, true);
    down := Scale(false, schedule, p, p, true, true).0;
    RestoresExactly(down, schedule, true);
    up := Scale(true, schedule, down, down, true, true).0;
    Decimal.ParseInt32InvertsItoa(n);
    assert Stands(Decimal.Itoa(n), n);
  }

  /** An up step whose workload write is refused leaves the autoscaler disabled as well,
      however old the copies: scale-up is never given back to a workload left at zero. */
  lemma RefusedUpLeavesBoth(read: Pair, stored: Pair, schedule: string, hpaOk: bool)
    requires !Unrecorded(read.workload, ORIGINAL_REPLICAS)
    ensures Scale(true, schedule, read, stored, false, hpaOk).0 == stored
    ensures Scale(true, schedule, read, stored, false, hpaOk).1 == if FreeFor(read.workload, schedule) then Failed else Skipped(DifferentSchedule)
  {
  }

  // ---- autoscalers ----------------------------------------------------------------------------

  predicate Names(h: Object, schedule: string) {
    MANAGED_BY in h.annotations && h.annotations[MANAGED_BY] == schedule
  }

  /** A down write disables exactly the autoscalers nobody marked and nobody disabled: the
      policy they had is recorded under the schedule's mark. */
  lemma DisablesExactly(h: Object, schedule: string)
    ensures var after := HpaAfter(false, schedule, Some(h), Some(h), true);
            if Unrecorded(h, MANAGED_BY) && PolicyOf(h) != DISABLED then
              after.Some? && PolicyOf(after.value) == DISABLED && Names(after.value, schedule) &&
              ORIGINAL_HPA_POLICY in after.value.annotations && after.value.annotations[ORIGINAL_HPA_POLICY] == PolicyOf(h)
            else after == Some(h)
  {
    HpaRuns.MarkedBy(h, schedule);
    HpaRuns.DisabledBy(h, schedule);
  }

  /** An up write releases exactly the autoscalers that carry the schedule's mark and a
      recorded policy, which they have again. */
  lemma ReleasesExactly(h: Object, schedule: string)
    requires schedule != ""
    ensures var after := HpaAfter(true, schedule, Some(h), Some(h), true);
            if Names(h, schedule) && ORIGINAL_HPA_POLICY in h.annotations then
              after.Some? && HpaRuns.Unmarked(after.value) && PolicyOf(after.value) == h.annotations[ORIGINAL_HPA_POLICY]
            else after == Some(h)
  {
    if Names(h, schedule) && ORIGINAL_HPA_POLICY in h.annotations {
      var after := HpaRuns.ReleasedHpa(h, schedule, h.annotations[ORIGINAL_HPA_POLICY]);
    }
  }
}
