// The hold-and-release protocol over whole runs: any number of schedules, each acting on
// arbitrarily old copies, with writes refused and crashes anywhere, and nobody else
// writing the objects.
module ScalerRuns {
  import opened Wrappers
  import opened Json
  import opened Patch
  import opened Scaler
  import Decimal

  // ---- patched fields ---------------------------------------------------------------------

  lemma SpecScalar(spec: map<string, Json>, k: string, v: Json)
    requires !v.Obj? && !v.Null?
    ensures MergePatch(Some(Obj(spec)), Obj(map[k := v])).fields == spec[k := v]
  {
    Scalar(Field(spec, k), v);
    assert MergePatch(Some(Obj(spec)), Obj(map[k := v])).fields == spec[k := v];
  }

  lemma SpecKept(spec: map<string, Json>)
    ensures MergePatch(Some(Obj(spec)), Obj(map[])).fields == spec
  {
    EmptyPatch(spec);
  }

  // ---- runs -----------------------------------------------------------------------------------

  /** One action of some schedule. The reads are positions in the history: how old the
      copies of the workload and of the HPA are. */
  datatype Action =
    | ScaleAction(up: bool, schedule: string, workloadRead: nat, hpaRead: nat, workloadOk: bool, hpaOk: bool)
    | TransferAction(schedule: string, workloadRead: nat, ok: bool)

  function Transfer(read: Object, stored: Object, schedule: string, ok: bool): Object {
    match TransferPatch(read, schedule)
    case Some(p) => if ok then Patched(stored, p) else stored
    case None => stored
  }

  /** The copies the action is decided on. */
  function ReadBy(history: seq<Pair>, a: Action): Pair
    requires a.workloadRead < |history| && (a.ScaleAction? ==> a.hpaRead < |history|)
  {
    Pair(history[a.workloadRead].workload, if a.ScaleAction? then history[a.hpaRead].hpa else None)
  }

  /** What the action leaves stored. */
  function Act(read: Pair, stored: Pair, a: Action): Pair {
    match a
    case ScaleAction(up, schedule, _, _, workloadOk, hpaOk) => Scale(up, schedule, read, stored, workloadOk, hpaOk).0
    case TransferAction(schedule, _, ok) => stored.(workload := Transfer(read.workload, stored.workload, schedule, ok))
  }

  predicate IsRun(history: seq<Pair>, actions: seq<Action>) {
    |history| == |actions| + 1 &&
    forall i :: 0 <= i < |actions| ==>
      actions[i].schedule != "" &&
      actions[i].workloadRead <= i && (actions[i].ScaleAction? ==> actions[i].hpaRead <= i) &&
      history[i + 1] == Act(ReadBy(history, actions[i]), history[i], actions[i])
  }

  // ---- replicas ---------------------------------------------------------------------------------

  /** What the workload is worth: the recorded count while it carries one, else its own. */
  function EffectiveReplicas(o: Object): int {
    if HeldDown(o) then RestoredCount(Annotation(o, ORIGINAL_REPLICAS)) else ReplicasOf(o)
  }

  lemma DownPatchKeeps(stored: Object, read: Object, schedule: string)
    requires Decimal.IsInt32(ReplicasOf(read))
    ensures var o := Patched(stored, DownPatch(read, schedule));
            EffectiveReplicas(o) == ReplicasOf(read) && HeldDown(o) && ReplicasOf(o) == 0
  {
    KeysDistinct();
    SpecScalar(stored.spec, REPLICAS, Int(0));
    Decimal.ParseInt32InvertsItoa(ReplicasOf(read));
  }

  lemma UpPatchKeeps(stored: Object, read: Object)
    ensures var o := Patched(stored, UpPatch(read));
            ReplicasOf(o) == RestoredCount(Annotation(read, ORIGINAL_REPLICAS)) && !HeldDown(o)
  {
    SpecScalar(stored.spec, REPLICAS, Int(RestoredCount(Annotation(read, ORIGINAL_REPLICAS))));
    assert UpPatch(read).removeAnnotations[0] == ORIGINAL_REPLICAS;
  }

  lemma TransferKeeps(read: Object, stored: Object, schedule: string, ok: bool)
    ensures var o := Transfer(read, stored, schedule, ok);
            o.spec == stored.spec && Annotation(o, ORIGINAL_REPLICAS) == Annotation(stored, ORIGINAL_REPLICAS)
  {
    KeysDistinct();
    SpecKept(stored.spec);
  }

  lemma ReplicasStep(n: int, read: Pair, stored: Pair, a: Action)
    requires Decimal.IsInt32(n) && EffectiveReplicas(read.workload) == n && EffectiveReplicas(stored.workload) == n
    ensures EffectiveReplicas(Act(read, stored, a).workload) == n
  {
    match a
    case ScaleAction(up, schedule, _, _, _, _) =>
      if up {
        UpPatchKeeps(stored.workload, read.workload);
      } else if !HeldDown(read.workload) {
        DownPatchKeeps(stored.workload, read.workload, schedule);
      }
    case TransferAction(schedule, _, ok) => TransferKeeps(read.workload, stored.workload, schedule, ok);
  }

  /** Replica conservation: no interleaving of downs, ups and transfers, however stale
      their reads, changes what the workload is worth. */
  lemma {:induction false} ReplicasConserved(history: seq<Pair>, actions: seq<Action>, i: nat)
    requires IsRun(history, actions) && i < |history|
    requires Decimal.IsInt32(ReplicasOf(history[0].workload))
    ensures forall j :: 0 <= j <= i ==> EffectiveReplicas(history[j].workload) == EffectiveReplicas(history[0].workload)
  {
    if i > 0 {
      ReplicasConserved(history, actions, i - 1);
      var a := actions[i - 1];
      ReplicasStep(EffectiveReplicas(history[0].workload), ReadBy(history, a), history[i - 1], a);
    }
  }

  /** Held for exactly the original count, or released with it; every field, label and
      annotation that is not lightsout's is the original one. */
  predicate HeldOrOriginal(original: Object, o: Object) {
    o.spec - {REPLICAS} == original.spec - {REPLICAS} &&
    o.labels - {MANAGED_BY} == original.labels - {MANAGED_BY} &&
    o.annotations - OWN == original.annotations - OWN &&
    if ORIGINAL_REPLICAS in o.annotations then
      o.annotations[ORIGINAL_REPLICAS] == Decimal.Itoa(ReplicasOf(original)) &&
      ReplicasOf(o) == 0 && ReplicasOf(original) != 0
    else ReplicasOf(o) == ReplicasOf(original)
  }

  /** A patch leaves every key alone that is not among the ones it names. */
  lemma OthersKept(current: map<string, string>, toSet: map<string, string>, remove: seq<string>, own: set<string>)
    requires toSet.Keys <= own && forall k :: k in remove ==> k in own
    ensures Remaining(current, toSet, remove) - own == current - own
  {
  }

  lemma SpecOthersKept(spec: map<string, Json>, k: string, v: Json)
    requires !v.Obj? && !v.Null?
    ensures var after := MergePatch(Some(Obj(spec)), Obj(map[k := v])).fields;
            after - {k} == spec - {k} && Field(after, k) == Some(v)
  {
    SpecScalar(spec, k, v);
  }

  const OWN: set<string> := {ORIGINAL_REPLICAS, MANAGED_BY}

  lemma PatchKeepsOthers(stored: Object, p: ObjectPatch)
    requires p.setLabels.Keys <= {MANAGED_BY} && forall k :: k in p.removeLabels ==> k == MANAGED_BY
    requires p.setAnnotations.Keys <= OWN && forall k :: k in p.removeAnnotations ==> k in OWN
    ensures Patched(stored, p).labels - {MANAGED_BY} == stored.labels - {MANAGED_BY}
    ensures Patched(stored, p).annotations - OWN == stored.annotations - OWN
  {
    OthersKept(stored.labels, p.setLabels, p.removeLabels, {MANAGED_BY});
    OthersKept(stored.annotations, p.setAnnotations, p.removeAnnotations, OWN);
  }

  lemma DownPatchShape(original: Object, stored: Object, read: Object, schedule: string)
    requires HeldOrOriginal(original, stored) && HeldOrOriginal(original, read)
    requires DecideDown(read, schedule).Send?
    ensures HeldOrOriginal(original, Patched(stored, DownPatch(read, schedule)))
  {
    KeysDistinct();
    SpecOthersKept(stored.spec, REPLICAS, Int(0));
    PatchKeepsOthers(stored, DownPatch(read, schedule));
  }

  lemma UpPatchShape(original: Object, stored: Object, read: Object, schedule: string)
    requires HeldOrOriginal(original, stored) && HeldOrOriginal(original, read)
    requires Decimal.IsInt32(ReplicasOf(original)) && DecideUp(read, schedule).Send?
    ensures HeldOrOriginal(original, Patched(stored, UpPatch(read)))
  {
    UpPatchKeeps(stored, read);
    Decimal.ParseInt32InvertsItoa(ReplicasOf(original));
    SpecOthersKept(stored.spec, REPLICAS, Int(RestoredCount(Annotation(read, ORIGINAL_REPLICAS))));
    assert UpPatch(read).removeAnnotations[0] == ORIGINAL_REPLICAS;
    PatchKeepsOthers(stored, UpPatch(read));
  }

  lemma TransferShape(original: Object, stored: Object, read: Object, schedule: string, ok: bool)
    requires HeldOrOriginal(original, stored)
    ensures HeldOrOriginal(original, Transfer(read, stored, schedule, ok))
  {
    KeysDistinct();
    SpecKept(stored.spec);
    match TransferPatch(read, schedule)
    case Some(p) => PatchKeepsOthers(stored, p);
    case None =>
  }

  lemma ShapeStep(original: Object, read: Pair, stored: Pair, a: Action)
    requires Decimal.IsInt32(ReplicasOf(original))
    requires HeldOrOriginal(original, read.workload) && HeldOrOriginal(original, stored.workload)
    ensures HeldOrOriginal(original, Act(read, stored, a).workload)
  {
    match a
    case ScaleAction(up, schedule, _, _, _, _) =>
      if up {
        if DecideUp(read.workload, schedule).Send? { UpPatchShape(original, stored.workload, read.workload, schedule); }
      } else {
        if DecideDown(read.workload, schedule).Send? { DownPatchShape(original, stored.workload, read.workload, schedule); }
      }
    case TransferAction(schedule, _, ok) => TransferShape(original, stored.workload, read.workload, schedule, ok);
  }

  /** A workload nobody held at the start is, at every point of every run, either held
      for its exact original count or exactly as it was apart from ownership marks. It
      is never left at zero without the record that brings it back. */
  lemma {:induction false} NeverStranded(history: seq<Pair>, actions: seq<Action>, i: nat)
    requires IsRun(history, actions) && i < |history|
    requires ORIGINAL_REPLICAS !in history[0].workload.annotations
    requires Decimal.IsInt32(ReplicasOf(history[0].workload))
    ensures forall j :: 0 <= j <= i ==> HeldOrOriginal(history[0].workload, history[j].workload)
  {
    if i > 0 {
      NeverStranded(history, actions, i - 1);
      var a := actions[i - 1];
      ShapeStep(history[0].workload, ReadBy(history, a), history[i - 1], a);
    }
  }

  /** A workload its user parked at zero is never claimed, whatever the schedules do. */
  lemma ParkedNeverClaimed(history: seq<Pair>, actions: seq<Action>, i: nat)
    requires IsRun(history, actions) && i < |history|
    requires ORIGINAL_REPLICAS !in history[0].workload.annotations && ReplicasOf(history[0].workload) == 0
    ensures !HeldDown(history[i].workload) && ReplicasOf(history[i].workload) == 0
  {
    NeverStranded(history, actions, i);
  }
}
