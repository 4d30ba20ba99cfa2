// Ownership transfer: a namespace schedule takes over what another schedule holds, and
// gives it back when its own time comes.
module Ownership {
  import opened Wrappers
  import opened Json
  import opened Patch
  import opened Scaler
  import opened ScalerRuns
  import opened SyncWave
  import opened WorkloadScaling
  import opened Effects
  import HpaRuns

  /** Another schedule's label is on the object. */
  predicate LabelledByOther(o: Object, schedule: string) {
    MANAGED_BY in o.labels && o.labels[MANAGED_BY] != "" && o.labels[MANAGED_BY] != schedule
  }

  lemma Restamped(o: Object, schedule: string)
    ensures var after := Transfer(o, o, schedule, true);
            if LabelledByOther(o, schedule) then
              after == Object(o.labels[MANAGED_BY := schedule], o.annotations[MANAGED_BY := schedule], o.spec)
            else after == o
  {
    SpecKept(o.spec);
    if LabelledByOther(o, schedule) {
      var after := Transfer(o, o, schedule, true);
      assert after.labels == o.labels[MANAGED_BY := schedule] && after.annotations == o.annotations[MANAGED_BY := schedule];
    }
  }

  /** Collecting by a schedule that transfers ownership re-stamps exactly what carries
      another schedule's label: label and annotation both name the new owner then, and
      nothing else changes. One that does not transfer collects everything as it is. */
  lemma TransfersExactly(w: Workload, transferOwnership: bool, schedule: string)
    ensures var taken, o := Collecting(transferOwnership, schedule)(w), w.pair.workload;
            if transferOwnership && LabelledByOther(o, schedule) then
              taken == w.(pair := w.pair.(workload :=
                Object(o.labels[MANAGED_BY := schedule], o.annotations[MANAGED_BY := schedule], o.spec)))
            else taken == w
  {
    Restamped(w.pair.workload, schedule);
  }

  /** The workload as collected by its new owner. */
  lemma Taken(w: Workload, owner: string, next: string, record: string, text: string) returns (taken: Workload)
    requires Marked(w.pair.workload, owner, record, text) && record != MANAGED_BY && owner != "" && next != owner
    ensures taken == Collecting(true, next)(w) && taken.id == w.id && taken.pair.hpa == w.pair.hpa
    ensures Marked(taken.pair.workload, next, record, text) && taken.pair.workload.spec == w.pair.workload.spec
    ensures forall field :: OthersSame(w.pair.workload, taken.pair.workload, record, field)
  {
    TransfersExactly(w, true, next);
    taken := Collecting(true, next)(w);
  }

  /** What one schedule holds, another one's up step leaves alone. */
  lemma RefusedToOthers(w: Workload, owner: string, other: string, ok: bool, hpaOk: bool)
    requires owner != "" && other != owner
    requires if w.id.kind == CronJob then Marked(w.pair.workload, owner, ORIGINAL_SUSPEND, BY_LIGHTSOUT)
             else MANAGED_BY in w.pair.workload.annotations && w.pair.workload.annotations[MANAGED_BY] == owner &&
                  !Unrecorded(w.pair.workload, ORIGINAL_REPLICAS)
    ensures ScaleListed(true, other, w, ok, hpaOk) == (w, Skipped(DifferentSchedule))
  {
    KeysDistinct();
  }

  /** Who may act on it before and after. */
  lemma TakenFrom(w: Workload, owner: string, next: string, record: string, text: string, ok: bool, hpaOk: bool) returns (taken: Workload)
    requires Marked(w.pair.workload, owner, record, text) && owner != "" && next != "" && next != owner
    requires if w.id.kind == CronJob then record == ORIGINAL_SUSPEND && text == BY_LIGHTSOUT else record == ORIGINAL_REPLICAS && text != ""
    ensures taken == Collecting(true, next)(w) && taken.id == w.id && Marked(taken.pair.workload, next, record, text)
    ensures OthersSame(w.pair.workload, taken.pair.workload, record, if w.id.kind == CronJob then SUSPEND else REPLICAS)
    ensures ScaleListed(true, next, w, ok, hpaOk) == (w, Skipped(DifferentSchedule))
    ensures ScaleListed(true, owner, taken, ok, hpaOk) == (taken, Skipped(DifferentSchedule))
  {
    KeysDistinct();
    taken := Taken(w, owner, next, record, text);
    RefusedToOthers(w, owner, next, ok, hpaOk);
    RefusedToOthers(taken, next, owner, ok, hpaOk);
  }

  lemma UpRestores(w: Workload, schedule: string, text: string, hpaOk: bool) returns (up: Workload)
    requires w.id.kind != CronJob && Marked(w.pair.workload, schedule, ORIGINAL_REPLICAS, text) && text != ""
    ensures ScaleListed(true, schedule, w, true, hpaOk) == (up, Result.Scaled)
    ensures (forall n :: Stands(text, n) ==> Wants(up.pair.workload, n)) && Effects.Unmarked(up.pair.workload, ORIGINAL_REPLICAS)
    ensures OthersSame(w.pair.workload, up.pair.workload, ORIGINAL_REPLICAS, REPLICAS)
  {
    RestoresExactly(w.pair, schedule, hpaOk);
    up := ScaleListed(true, schedule, w, true, hpaOk).0;
  }

  lemma UpResumes(w: Workload, schedule: string, hpaOk: bool) returns (up: Workload)
    requires w.id.kind == CronJob && Marked(w.pair.workload, schedule, ORIGINAL_SUSPEND, BY_LIGHTSOUT)
    ensures ScaleListed(true, schedule, w, true, hpaOk) == (up, Result.Scaled)
    ensures !SaysSuspended(up.pair.workload) && Effects.Unmarked(up.pair.workload, ORIGINAL_SUSPEND)
    ensures OthersSame(w.pair.workload, up.pair.workload, ORIGINAL_SUSPEND, SUSPEND)
  {
    ResumesExactly(w.pair.workload, schedule);
    up := ScaleListed(true, schedule, w, true, hpaOk).0;
  }

  lemma SameThrough(a: Object, b: Object, c: Object, record: string, field: string)
    requires OthersSame(a, b, record, field) && OthersSame(b, c, record, field)
    ensures OthersSame(a, c, record, field)
  {
  }

  /** A workload held down under another schedule's marks: until it is transferred, the new
      schedule's up step leaves it down. Once transferred, that step restores the recorded
      count and leaves no mark, and the former owner's up step leaves the workload alone. */
  lemma TakeoverRestores(w: Workload, owner: string, next: string, text: string, ok: bool, hpaOk: bool) returns (taken: Workload, up: Workload)
    requires w.id.kind != CronJob && Marked(w.pair.workload, owner, ORIGINAL_REPLICAS, text) && text != ""
    requires owner != "" && next != "" && next != owner
    ensures ScaleListed(true, next, w, ok, hpaOk) == (w, Skipped(DifferentSchedule))
    ensures taken == Collecting(true, next)(w)
    ensures ScaleListed(true, owner, taken, ok, hpaOk) == (taken, Skipped(DifferentSchedule))
    ensures ScaleListed(true, next, taken, true, hpaOk) == (up, Result.Scaled)
    ensures (forall n :: Stands(text, n) ==> Wants(up.pair.workload, n)) && Effects.Unmarked(up.pair.workload, ORIGINAL_REPLICAS)
    ensures OthersSame(w.pair.workload, up.pair.workload, ORIGINAL_REPLICAS, REPLICAS)
  {
    taken := TakenFrom(w, owner, next, ORIGINAL_REPLICAS, text, ok, hpaOk);
    up := UpRestores(taken, next, text, hpaOk);
    SameThrough(w.pair.workload, taken.pair.workload, up.pair.workload, ORIGINAL_REPLICAS, REPLICAS);
  }

  /** The same for a CronJob another schedule suspended. */
  lemma TakeoverResumes(w: Workload, owner: string, next: string, ok: bool, hpaOk: bool) returns (taken: Workload, up: Workload)
    requires w.id.kind == CronJob && Marked(w.pair.workload, owner, ORIGINAL_SUSPEND, BY_LIGHTSOUT)
    requires owner != "" && next != "" && next != owner
    ensures ScaleListed(true, next, w, ok, hpaOk) == (w, Skipped(DifferentSchedule))
    ensures taken == Collecting(true, next)(w)
    ensures ScaleListed(true, owner, taken, ok, hpaOk) == (taken, Skipped(DifferentSchedule))
    ensures ScaleListed(true, next, taken, true, hpaOk) == (up, Result.Scaled)
    ensures !SaysSuspended(up.pair.workload) && Effects.Unmarked(up.pair.workload, ORIGINAL_SUSPEND)
    ensures OthersSame(w.pair.workload, up.pair.workload, ORIGINAL_SUSPEND, SUSPEND)
  {
    KeysDistinct();
    taken := TakenFrom(w, owner, next, ORIGINAL_SUSPEND, BY_LIGHTSOUT, ok, hpaOk);
    up := UpResumes(taken, next, hpaOk);
    SameThrough(w.pair.workload, taken.pair.workload, up.pair.workload, ORIGINAL_SUSPEND, SUSPEND);
  }

  /** The transfer leaves the autoscaler with the former owner, whose next up step releases
      it once the new owner has restored the workload. */
  lemma FormerOwnerReleasesHpa(p: Pair, owner: string, recorded: string) returns (after: Object)
    requires owner != "" && Effects.Unmarked(p.workload, ORIGINAL_REPLICAS) && p.hpa.Some?
    requires MANAGED_BY in p.hpa.value.annotations && p.hpa.value.annotations[MANAGED_BY] == owner
    requires ORIGINAL_HPA_POLICY in p.hpa.value.annotations && p.hpa.value.annotations[ORIGINAL_HPA_POLICY] == recorded
    ensures Scale(true, owner, p, p, true, true) == (Pair(p.workload, Some(after)), Skipped(NotManaged))
    ensures HpaRuns.Unmarked(after) && PolicyOf(after) == recorded
  {
    after := HpaRuns.UpReleasesHpa(p, owner);
  }
}
