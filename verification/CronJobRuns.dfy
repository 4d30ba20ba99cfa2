// CronJobs over whole runs: what the user suspended is never resumed, what lightsout
// suspended stays suspended until it is released.
module CronJobRuns {
  import opened Wrappers
  import opened Json
  import opened Patch
  import opened Scaler
  import opened ScalerRuns

  datatype JobAction =
    | JobScale(up: bool, schedule: string, read: nat, ok: bool)
    | JobTransfer(schedule: string, read: nat, ok: bool)

  function JobAct(read: Object, stored: Object, a: JobAction): Object {
    match a
    case JobScale(up, schedule, _, ok) => ScaleCronJob(up, schedule, read, stored, ok).0
    case JobTransfer(schedule, _, ok) => Transfer(read, stored, schedule, ok)
  }

  predicate IsJobRun(history: seq<Object>, actions: seq<JobAction>) {
    |history| == |actions| + 1 &&
    forall i :: 0 <= i < |actions| ==>
      actions[i].schedule != "" && actions[i].read <= i &&
      history[i + 1] == JobAct(history[actions[i].read], history[i], actions[i])
  }

  /** The job as its user left it, possibly marked so, or held by lightsout. */
  predicate UserOrHeld(original: Object, o: Object) {
    if Suspended(original) then
      Suspended(o) && (Annotation(o, ORIGINAL_SUSPEND) == "" || Annotation(o, ORIGINAL_SUSPEND) == BY_USER)
    else if Annotation(o, ORIGINAL_SUSPEND) == BY_LIGHTSOUT then Suspended(o)
    else !Suspended(o) && Annotation(o, ORIGINAL_SUSPEND) == ""
  }

  lemma SuspendWritten(stored: Object, p: ObjectPatch, v: bool)
    requires p.spec == map[SUSPEND := Bool(v)]
    ensures Suspended(Patched(stored, p)) == v
  {
    SpecScalar(stored.spec, SUSPEND, Bool(v));
  }

  lemma SuspendStep(stored: Object, schedule: string)
    ensures var o := Patched(stored, SuspendPatch(schedule));
            Suspended(o) && Annotation(o, ORIGINAL_SUSPEND) == BY_LIGHTSOUT
  {
    KeysDistinct();
    SuspendWritten(stored, SuspendPatch(schedule), true);
  }

  lemma ResumeStep(stored: Object)
    ensures var o := Patched(stored, ResumePatch());
            !Suspended(o) && ORIGINAL_SUSPEND !in o.annotations && MANAGED_BY !in o.annotations && MANAGED_BY !in o.labels
  {
    SuspendWritten(stored, ResumePatch(), false);
    assert ResumePatch().removeAnnotations[0] == ORIGINAL_SUSPEND && ResumePatch().removeAnnotations[1] == MANAGED_BY;
    assert ResumePatch().removeLabels[0] == MANAGED_BY;
  }

  lemma UserMarkStep(stored: Object)
    ensures var o := Patched(stored, UserMarkPatch());
            o.spec == stored.spec && Annotation(o, ORIGINAL_SUSPEND) == BY_USER
  {
    SpecKept(stored.spec);
  }

  lemma ScaleStep(original: Object, stored: Object, read: Object, up: bool, schedule: string, ok: bool)
    requires UserOrHeld(original, stored) && UserOrHeld(original, read)
    ensures UserOrHeld(original, ScaleCronJob(up, schedule, read, stored, ok).0)
  {
    KeysDistinct();
    if DecideCronJob(up, read, schedule).Send? {
      if !up {
        SuspendStep(stored, schedule);
      } else if SuspendedUnmarked(read) {
        UserMarkStep(stored);
      } else {
        ResumeStep(stored);
      }
    }
  }

  lemma TransferStep(original: Object, stored: Object, read: Object, schedule: string, ok: bool)
    requires UserOrHeld(original, stored)
    ensures UserOrHeld(original, Transfer(read, stored, schedule, ok))
  {
    KeysDistinct();
    SpecKept(stored.spec);
  }

  /** At every point of every run, by any schedules on copies of any age: a job its user
      suspended is still suspended and never taken over; a job its user left running is
      running unmarked, or suspended under lightsout's mark. */
  lemma {:induction false} UserIntentKept(history: seq<Object>, actions: seq<JobAction>, i: nat)
    requires IsJobRun(history, actions) && i < |history|
    requires Annotation(history[0], ORIGINAL_SUSPEND) == ""
    ensures forall j :: 0 <= j <= i ==> UserOrHeld(history[0], history[j])
  {
    if i > 0 {
      UserIntentKept(history, actions, i - 1);
      var a := actions[i - 1];
      match a
      case JobScale(up, schedule, read, ok) => ScaleStep(history[0], history[i - 1], history[read], up, schedule, ok);
      case JobTransfer(schedule, read, ok) => TransferStep(history[0], history[i - 1], history[read], schedule, ok);
    }
  }

  /** A resume by a schedule the job is not withheld from ends the hold: running again and
      unmarked. Any other fresh up step leaves a held job as it is. */
  lemma HeldUntilReleased(job: Object, schedule: string)
    requires Suspended(job) && Annotation(job, ORIGINAL_SUSPEND) == BY_LIGHTSOUT
    ensures var after := ScaleCronJob(true, schedule, job, job, true).0;
            if OwnedByOther(job, schedule) then after == job
            else !Suspended(after) && ORIGINAL_SUSPEND !in after.annotations && MANAGED_BY !in after.annotations &&
                 MANAGED_BY !in after.labels
    ensures ScaleCronJob(false, schedule, job, job, true).0 == job
  {
    KeysDistinct();
    ResumeStep(job);
  }

  /** One action that ends a suspension is a resume, decided on a copy with lightsout's mark
      and no other owner. */
  lemma EndsOnlyByResume(read: Object, stored: Object, a: JobAction)
    requires Suspended(stored) && !Suspended(JobAct(read, stored, a))
    ensures a.JobScale? && a.up && a.ok && JobAct(read, stored, a) == Patched(stored, ResumePatch())
    ensures Annotation(read, ORIGINAL_SUSPEND) == BY_LIGHTSOUT && !OwnedByOther(read, a.schedule)
  {
    SuspendStep(stored, a.schedule);
    UserMarkStep(stored);
    SpecKept(stored.spec);
  }

  /** Over every run of any schedules on copies of any age: the step at which a job stops
      being suspended takes lightsout's marks away with the suspension; the job was held by
      lightsout until then; and the step is an accepted up step of a schedule whose copy of
      the job carried lightsout's mark and no other owner's. */
  lemma ReleaseTakesMarksAway(history: seq<Object>, actions: seq<JobAction>, i: nat)
    requires IsJobRun(history, actions) && i < |actions|
    requires Annotation(history[0], ORIGINAL_SUSPEND) == ""
    requires Suspended(history[i]) && !Suspended(history[i + 1])
    ensures !Suspended(history[0]) && Annotation(history[i], ORIGINAL_SUSPEND) == BY_LIGHTSOUT
    ensures var o := history[i + 1];
            ORIGINAL_SUSPEND !in o.annotations && MANAGED_BY !in o.annotations && MANAGED_BY !in o.labels
    ensures var read := history[actions[i].read];
            actions[i].JobScale? && actions[i].up && actions[i].ok &&
            Annotation(read, ORIGINAL_SUSPEND) == BY_LIGHTSOUT && !OwnedByOther(read, actions[i].schedule)
  {
    UserIntentKept(history, actions, i + 1);
    EndsOnlyByResume(history[actions[i].read], history[i], actions[i]);
    ResumeStep(history[i]);
  }
}
