// Scaling one workload: what a schedule decides from the copy it read, and what the
// patches it then sends do to the stored objects. The copy may be older than what is
// stored, and a merge patch carries no version, so it lands on whatever is stored.
module Scaler {
  import opened Wrappers
  import opened Json
  import opened Patch
  import Decimal

  const ORIGINAL_REPLICAS: string := "lightsout.techsupport.mk/original-replicas"
  const ORIGINAL_SUSPEND: string := "lightsout.techsupport.mk/original-suspend"
  const ORIGINAL_HPA_POLICY: string := "lightsout.techsupport.mk/original-hpa-scale-up-policy"
  const MANAGED_BY: string := "lightsout.techsupport.mk/managed-by"
  const REPLICAS: string := "replicas"
  const SUSPEND: string := "suspend"
  const BY_LIGHTSOUT: string := "lightsout"
  const BY_USER: string := "user"
  const DISABLED: string := "Disabled"

  lemma KeysDistinct()
    ensures ORIGINAL_REPLICAS != MANAGED_BY && ORIGINAL_SUSPEND != MANAGED_BY && ORIGINAL_HPA_POLICY != MANAGED_BY
    ensures BY_LIGHTSOUT != BY_USER && BY_LIGHTSOUT != "" && BY_USER != ""
  {
    assert |ORIGINAL_REPLICAS| != |MANAGED_BY| && |ORIGINAL_SUSPEND| != |MANAGED_BY| && |ORIGINAL_HPA_POLICY| != |MANAGED_BY|;
    assert |BY_LIGHTSOUT| != |BY_USER|;
  }

  datatype SkipReason = DifferentSchedule | NotManaged | UserParked | AlreadyDown | AlreadyManaged | SuspendedByUser | MarkedByUser

  datatype Result = Skipped(reason: SkipReason) | Scaled | Failed

  /** What a schedule makes of the copy it read: leave it, or send a patch. */
  datatype Decision = Skip(reason: SkipReason) | Send(patch: ObjectPatch)

  function Annotation(o: Object, k: string): string {
    if k in o.annotations then o.annotations[k] else ""
  }

  // ---- Deployments and StatefulSets -----------------------------------------------------

  /** ptr.Deref(Spec.Replicas, 1) */
  function ReplicasOf(o: Object): int {
    match Field(o.spec, REPLICAS)
    case Some(Int(n)) => n
    case _ => 1
  }

  /** The count an annotation restores: a value ParseInt refuses counts as 1. */
  function RestoredCount(text: string): int {
    match Decimal.ParseInt32(text)
    case Some(n) => n
    case None => 1
  }

  predicate OwnedByOther(o: Object, schedule: string) {
    Annotation(o, MANAGED_BY) != "" && Annotation(o, MANAGED_BY) != schedule
  }

  predicate HeldDown(o: Object) {
    Annotation(o, ORIGINAL_REPLICAS) != ""
  }

  function DownPatch(o: Object, schedule: string): ObjectPatch {
    ObjectPatch(
      map[MANAGED_BY := schedule],
      map[ORIGINAL_REPLICAS := Decimal.Itoa(ReplicasOf(o)), MANAGED_BY := schedule],
      [], [],
      map[REPLICAS := Int(0)])
  }

  function UpPatch(o: Object): ObjectPatch {
    ObjectPatch(
      map[], map[],
      [ORIGINAL_REPLICAS, MANAGED_BY], [MANAGED_BY],
      map[REPLICAS := Int(RestoredCount(Annotation(o, ORIGINAL_REPLICAS)))])
  }

  /** scaleReplicasDown */
  function DecideDown(o: Object, schedule: string): Decision {
    if OwnedByOther(o, schedule) then Skip(DifferentSchedule)
    else if HeldDown(o) then Skip(AlreadyDown)
    else if ReplicasOf(o) == 0 then Skip(UserParked)
    else Send(DownPatch(o, schedule))
  }

  /** scaleReplicasUp */
  function DecideUp(o: Object, schedule: string): Decision {
    if !HeldDown(o) then Skip(NotManaged)
    else if OwnedByOther(o, schedule) then Skip(DifferentSchedule)
    else Send(UpPatch(o))
  }

  function Decide(up: bool, o: Object, schedule: string): Decision {
    if up then DecideUp(o, schedule) else DecideDown(o, schedule)
  }

  /** The re-stamp a namespace schedule sends for an object another schedule's label is
      on, when it collects its workloads. */
  function TransferPatch(o: Object, schedule: string): Option<ObjectPatch> {
    if MANAGED_BY in o.labels && o.labels[MANAGED_BY] != "" && o.labels[MANAGED_BY] != schedule then
      Some(ObjectPatch(map[MANAGED_BY := schedule], map[MANAGED_BY := schedule], [], [], map[]))
    else None
  }

  // ---- CronJobs ---------------------------------------------------------------------------

  predicate Suspended(o: Object) {
    Field(o.spec, SUSPEND) == Some(Bool(true))
  }

  predicate SuspendedUnmarked(o: Object) {
    Suspended(o) && Annotation(o, ORIGINAL_SUSPEND) == ""
  }

  function SuspendPatch(schedule: string): ObjectPatch {
    ObjectPatch(
      map[MANAGED_BY := schedule],
      map[ORIGINAL_SUSPEND := BY_LIGHTSOUT, MANAGED_BY := schedule],
      [], [],
      map[SUSPEND := Bool(true)])
  }

  function ResumePatch(): ObjectPatch {
    ObjectPatch(map[], map[], [ORIGINAL_SUSPEND, MANAGED_BY], [MANAGED_BY], map[SUSPEND := Bool(false)])
  }

  function UserMarkPatch(): ObjectPatch {
    ObjectPatch(map[], map[ORIGINAL_SUSPEND := BY_USER], [], [], map[])
  }

  /** scaleCronJobDown */
  function DecideSuspend(o: Object, schedule: string): Decision {
    if OwnedByOther(o, schedule) then Skip(DifferentSchedule)
    else if Annotation(o, ORIGINAL_SUSPEND) != "" then Skip(AlreadyManaged)
    else if Suspended(o) then Skip(SuspendedByUser)
    else Send(SuspendPatch(schedule))
  }

  /** scaleCronJobUp; marking a job as suspended by its user is reported as a skip. */
  function DecideResume(o: Object, schedule: string): Decision {
    if SuspendedUnmarked(o) then Send(UserMarkPatch())
    else if Annotation(o, ORIGINAL_SUSPEND) == BY_USER then Skip(SuspendedByUser)
    else if Annotation(o, ORIGINAL_SUSPEND) != BY_LIGHTSOUT then Skip(NotManaged)
    else if OwnedByOther(o, schedule) then Skip(DifferentSchedule)
    else Send(ResumePatch())
  }

  function DecideCronJob(up: bool, o: Object, schedule: string): Decision {
    if up then DecideResume(o, schedule) else DecideSuspend(o, schedule)
  }

  // ---- HorizontalPodAutoscalers -------------------------------------------------------------

  const POLICY_PATH: seq<string> := ["behavior", "scaleUp", "selectPolicy"]

  /** spec.behavior.scaleUp.selectPolicy, "" when it is absent or no string. */
  function PolicyOf(h: Object): string {
    match Lookup(Some(Obj(h.spec)), POLICY_PATH)
    case Some(Str(s)) => s
    case _ => ""
  }

  /** scaleUpPolicySpec: a null policy removes the field. */
  function PolicySpec(policy: Json): map<string, Json> {
    map["behavior" := Obj(map["scaleUp" := Obj(map["selectPolicy" := policy])])]
  }

  function HpaDownPatch(h: Object, schedule: string): ObjectPatch {
    ObjectPatch(
      map[],
      map[ORIGINAL_HPA_POLICY := PolicyOf(h), MANAGED_BY := schedule],
      [], [],
      PolicySpec(Str(DISABLED)))
  }

  function HpaUpPatch(h: Object): ObjectPatch {
    var original := Annotation(h, ORIGINAL_HPA_POLICY);
    ObjectPatch(
      map[], map[],
      [ORIGINAL_HPA_POLICY, MANAGED_BY], [],
      PolicySpec(if original == "" then Null else Str(original)))
  }

  /** PatchHPAForDownscale */
  function DecideHpaDown(h: Object, schedule: string): Option<ObjectPatch> {
    if Annotation(h, MANAGED_BY) != "" then None
    else if PolicyOf(h) == DISABLED then None
    else Some(HpaDownPatch(h, schedule))
  }

  /** RestoreHPA */
  function DecideHpaUp(h: Object, schedule: string): Option<ObjectPatch> {
    if Annotation(h, MANAGED_BY) == "" || Annotation(h, MANAGED_BY) != schedule then None
    else if ORIGINAL_HPA_POLICY !in h.annotations then None
    else Some(HpaUpPatch(h))
  }

  function DecideHpa(up: bool, h: Object, schedule: string): Option<ObjectPatch> {
    if up then DecideHpaUp(h, schedule) else DecideHpaDown(h, schedule)
  }

  datatype HpaRef = HpaRef(targetKind: string, targetName: string, content: Object)

  /** findHPA: the first entry targeting the workload. */
  method FindHpa(list: seq<HpaRef>, kind: string, name: string) returns (found: Option<nat>)
    ensures match found
            case Some(i) =>
              i < |list| && list[i].targetKind == kind && list[i].targetName == name &&
              forall j :: 0 <= j < i ==> list[j].targetKind != kind || list[j].targetName != name
            case None => forall j :: 0 <= j < |list| ==> list[j].targetKind != kind || list[j].targetName != name
  {
    for i := 0 to |list|
      invariant forall j :: 0 <= j < i ==> list[j].targetKind != kind || list[j].targetName != name
    {
      if list[i].targetKind == kind && list[i].targetName == name { return Some(i); }
    }
    return None;
  }

  // ---- a workload together with its autoscaler -------------------------------------------------

  /** A workload and the HPA targeting it, if there is one. */
  datatype Pair = Pair(workload: Object, hpa: Option<Object>)

  /** The stored HPA after its write: the patch decided from the read copy, if the copy
      shows an HPA, one is stored, and the API accepts the write. */
  function HpaAfter(up: bool, schedule: string, read: Option<Object>, stored: Option<Object>, ok: bool): Option<Object> {
    if read.None? || stored.None? || !ok then stored
    else
      match DecideHpa(up, read.value, schedule)
      case Some(p) => Some(Patched(stored.value, p))
      case None => stored
  }

  /** scaleReplicas on what is stored: down, the HPA is written before the workload; up,
      after it. A failed HPA write is logged and passed over; after a failed workload
      write nothing more is sent. A crash is a suffix of failed writes. */
  function Scale(up: bool, schedule: string, read: Pair, stored: Pair, workloadOk: bool, hpaOk: bool): (Pair, Result) {
    var hpa := HpaAfter(up, schedule, read.hpa, stored.hpa, hpaOk);
    match Decide(up, read.workload, schedule)
    case Skip(NotManaged) => (stored.(hpa := hpa), Skipped(NotManaged))
    case Skip(reason) => (stored, Skipped(reason))
    case Send(p) =>
      if workloadOk then (Pair(Patched(stored.workload, p), hpa), Scaled)
      else if up then (stored, Failed)
      else (stored.(hpa := hpa), Failed)
  }

  function ScaleCronJob(up: bool, schedule: string, read: Object, stored: Object, ok: bool): (Object, Result) {
    match DecideCronJob(up, read, schedule)
    case Skip(reason) => (stored, Skipped(reason))
    case Send(p) =>
      if !ok then (stored, Failed)
      else (Patched(stored, p), if up && SuspendedUnmarked(read) then Skipped(MarkedByUser) else Scaled)
  }

  /** An object in the cluster: patches are applied to whatever is stored now. */
  class ApiObject {
    var content: Object

    constructor (o: Object)
      ensures content == o
    {
      content := o;
    }

    /** applyMergePatch; accept says whether the API takes the write. */
    method ApplyMergePatch(p: ObjectPatch, accept: bool) returns (ok: bool)
      modifies this
      ensures ok == accept
      ensures content == if accept then Patched(old(content), p) else old(content)
    {
      if accept {
        content := Patched(content, p);
      }
      return accept;
    }
  }

  function PairOf(workload: ApiObject, hpa: ApiObject?): Pair
    reads workload, hpa
  {
    Pair(workload.content, if hpa == null then None else Some(hpa.content))
  }

  method PatchHpaForDownscale(read: Option<Object>, hpa: ApiObject?, schedule: string, accept: bool)
    modifies hpa
    ensures hpa != null ==> Some(hpa.content) == HpaAfter(false, schedule, read, Some(old(hpa.content)), accept)
  {
    if read.None? || hpa == null { return; }
    var managedBy := Annotation(read.value, MANAGED_BY);
    if managedBy != "" && managedBy != schedule { return; }
    if managedBy == schedule && managedBy != "" { return; }
    if PolicyOf(read.value) == DISABLED { return; }
    var _ := hpa.ApplyMergePatch(HpaDownPatch(read.value, schedule), accept);
  }

  method RestoreHpa(read: Option<Object>, hpa: ApiObject?, schedule: string, accept: bool)
    modifies hpa
    ensures hpa != null ==> Some(hpa.content) == HpaAfter(true, schedule, read, Some(old(hpa.content)), accept)
  {
    if read.None? || hpa == null { return; }
    var managedBy := Annotation(read.value, MANAGED_BY);
    if managedBy == "" { return; }
    if managedBy != schedule { return; }
    if ORIGINAL_HPA_POLICY !in read.value.annotations { return; }
    var _ := hpa.ApplyMergePatch(HpaUpPatch(read.value), accept);
  }

  method ScaleReplicas(up: bool, schedule: string, read: Pair, workload: ApiObject, hpa: ApiObject?, workloadOk: bool, hpaOk: bool)
    returns (result: Result)
    requires hpa != workload
    modifies workload, hpa
    ensures (PairOf(workload, hpa), result) == Scale(up, schedule, read, old(PairOf(workload, hpa)), workloadOk, hpaOk)
  {
    if up {
      result := ScaleReplicasUp(schedule, read, workload, hpa, workloadOk, hpaOk);
    } else {
      result := ScaleReplicasDown(schedule, read, workload, hpa, workloadOk, hpaOk);
    }
  }

  method ScaleReplicasDown(schedule: string, read: Pair, workload: ApiObject, hpa: ApiObject?, workloadOk: bool, hpaOk: bool)
    returns (result: Result)
    requires hpa != workload
    modifies workload, hpa
    ensures (PairOf(workload, hpa), result) == Scale(false, schedule, read, old(PairOf(workload, hpa)), workloadOk, hpaOk)
  {
    if OwnedByOther(read.workload, schedule) { return Skipped(DifferentSchedule); }
    if HeldDown(read.workload) { return Skipped(AlreadyDown); }
    if ReplicasOf(read.workload) == 0 { return Skipped(UserParked); }
    PatchHpaForDownscale(read.hpa, hpa, schedule, hpaOk);
    var ok := workload.ApplyMergePatch(DownPatch(read.workload, schedule), workloadOk);
    return if ok then Scaled else Failed;
  }

  method ScaleReplicasUp(schedule: string, read: Pair, workload: ApiObject, hpa: ApiObject?, workloadOk: bool, hpaOk: bool)
    returns (result: Result)
    requires hpa != workload
    modifies workload, hpa
    ensures (PairOf(workload, hpa), result) == Scale(true, schedule, read, old(PairOf(workload, hpa)), workloadOk, hpaOk)
  {
    if !HeldDown(read.workload) {
      RestoreHpa(read.hpa, hpa, schedule, hpaOk);
      return Skipped(NotManaged);
    }
    if OwnedByOther(read.workload, schedule) { return Skipped(DifferentSchedule); }
    var ok := workload.ApplyMergePatch(UpPatch(read.workload), workloadOk);
    if !ok { return Failed; }
    RestoreHpa(read.hpa, hpa, schedule, hpaOk);
    return Scaled;
  }

  method ScaleStoredCronJob(up: bool, schedule: string, read: Object, job: ApiObject, accept: bool) returns (result: Result)
    modifies job
    ensures (job.content, result) == ScaleCronJob(up, schedule, read, old(job.content), accept)
  {
    var mark := Annotation(read, ORIGINAL_SUSPEND);
    if up {
      if SuspendedUnmarked(read) {
        var ok := job.ApplyMergePatch(UserMarkPatch(), accept);
        return if ok then Skipped(MarkedByUser) else Failed;
      }
      if mark == BY_USER { return Skipped(SuspendedByUser); }
      if mark != BY_LIGHTSOUT { return Skipped(NotManaged); }
      if OwnedByOther(read, schedule) { return Skipped(DifferentSchedule); }
      var ok := job.ApplyMergePatch(ResumePatch(), accept);
      return if ok then Scaled else Failed;
    } else {
      if OwnedByOther(read, schedule) { return Skipped(DifferentSchedule); }
      if mark != "" { return Skipped(AlreadyManaged); }
      if Suspended(read) { return Skipped(SuspendedByUser); }
      var ok := job.ApplyMergePatch(SuspendPatch(schedule), accept);
      return if ok then Scaled else Failed;
    }
  }
}
