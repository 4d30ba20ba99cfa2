// The autoscaler's select policy over whole runs: disabled while its workload is held
// down, given back afterwards, through crashes and failed writes.
module HpaRuns {
  import opened Wrappers
  import opened Json
  import opened Patch
  import opened Restoration
  import opened Scaler
  import opened ScalerRuns

  // ---- patching the policy -----------------------------------------------------------------

  lemma PolicyNamed(policy: Json)
    ensures Names(Obj(PolicySpec(policy)), POLICY_PATH, policy)
  {
    assert POLICY_PATH[1..] == ["scaleUp", "selectPolicy"] && POLICY_PATH[1..][1..] == ["selectPolicy"];
    assert POLICY_PATH[1..][1..][1..] == [];
    assert Names(Obj(map["selectPolicy" := policy]), POLICY_PATH[1..][1..], policy);
    assert Names(Obj(map["scaleUp" := Obj(map["selectPolicy" := policy])]), POLICY_PATH[1..], policy);
  }

  /** The spec after a policy patch: RFC 7386 applied to it. */
  function WithPolicy(spec: map<string, Json>, policy: Json): map<string, Json> {
    MergePatch(Some(Obj(spec)), Obj(PolicySpec(policy))).fields
  }

  /** What stands at the policy's place, None when some field on the way is missing. */
  function PolicyAt(spec: map<string, Json>): Option<Json> {
    Lookup(Some(Obj(spec)), POLICY_PATH)
  }

  /** A policy patch sets the policy, or removes it when it is null, and leaves every path
      it does not run along as it was. */
  lemma PolicyPatched(spec: map<string, Json>, policy: Json)
    requires policy.Null? || policy.Str?
    ensures PolicyAt(WithPolicy(spec, policy)) == if policy.Str? then Some(policy) else None
    ensures forall keys :: Untouched(Obj(PolicySpec(Null)), keys) ==>
              Lookup(Some(Obj(WithPolicy(spec, policy))), keys) == Lookup(Some(Obj(spec)), keys)
  {
    PolicyNamed(policy);
    NamedKey(Some(Obj(spec)), Obj(PolicySpec(policy)), POLICY_PATH, policy);
    forall keys | Untouched(Obj(PolicySpec(Null)), keys)
      ensures Lookup(Some(Obj(WithPolicy(spec, policy))), keys) == Lookup(Some(Obj(spec)), keys)
    {
      SameUntouched(policy, keys);
      Frame(Some(Obj(spec)), Obj(PolicySpec(policy)), keys);
    }
  }

  lemma PatchedSpec(h: Object, p: ObjectPatch, policy: Json)
    requires p.spec == PolicySpec(policy) && (policy.Null? || policy.Str?)
    ensures Patched(h, p).spec == WithPolicy(h.spec, policy)
    ensures PolicyOf(Patched(h, p)) == if policy.Str? then policy.s else ""
  {
    PolicyPatched(h.spec, policy);
  }

  /** A patch of one field below another. */
  lemma OneKeyMerged(target: Option<Json>, k: string, x: Json)
    ensures var r := MergePatch(target, Obj(map[k := x]));
            r.Obj? &&
            r.fields == if x.Null? then FieldsOf(target) - {k} else FieldsOf(target)[k := MergePatch(Field(FieldsOf(target), k), x)]
  {
  }

  /** Of two policy patches only the later one leaves a trace. */
  lemma LastPolicyWins(spec: map<string, Json>, first: Json, last: Json)
    requires (first.Null? || first.Str?) && (last.Null? || last.Str?)
    ensures WithPolicy(WithPolicy(spec, first), last) == WithPolicy(spec, last)
  {
    var f0, f1, f2 := first, Obj(map["selectPolicy" := first]), Obj(map["scaleUp" := Obj(map["selectPolicy" := first])]);
    var l0, l1, l2 := last, Obj(map["selectPolicy" := last]), Obj(map["scaleUp" := Obj(map["selectPolicy" := last])]);
    var t2 := Field(spec, "behavior");
    var t1 := Field(FieldsOf(t2), "scaleUp");
    LeafTwice(t1, "selectPolicy", f0, l0);
    OneKeyTwice(t2, "scaleUp", f1, l1);
    OneKeyTwice(Some(Obj(spec)), "behavior", f2, l2);
  }

  lemma LeafTwice(t: Option<Json>, k: string, x: Json, y: Json)
    requires (x.Null? || x.Str?) && (y.Null? || y.Str?)
    ensures MergePatch(Some(MergePatch(t, Obj(map[k := x]))), Obj(map[k := y])) == MergePatch(t, Obj(map[k := y]))
  {
    OneKeyMerged(t, k, x);
    OneKeyMerged(Some(MergePatch(t, Obj(map[k := x]))), k, y);
    OneKeyMerged(t, k, y);
  }

  lemma OneKeyTwice(t: Option<Json>, k: string, x: Json, y: Json)
    requires x.Obj? && y.Obj?
    requires MergePatch(Some(MergePatch(Field(FieldsOf(t), k), x)), y) == MergePatch(Field(FieldsOf(t), k), y)
    ensures MergePatch(Some(MergePatch(t, Obj(map[k := x]))), Obj(map[k := y])) == MergePatch(t, Obj(map[k := y]))
  {
    var once := MergePatch(t, Obj(map[k := x]));
    OneKeyMerged(t, k, x);
    OneKeyMerged(t, k, y);
    SecondMerge(FieldsOf(t), once.fields, k, MergePatch(Field(FieldsOf(t), k), x), y);
  }

  lemma SecondMerge(base: map<string, Json>, once: map<string, Json>, k: string, inner: Json, y: Json)
    requires once == base[k := inner] && y.Obj?
    requires MergePatch(Some(inner), y) == MergePatch(Field(base, k), y)
    ensures MergePatch(Some(Obj(once)), Obj(map[k := y])) == Obj(base[k := MergePatch(Field(base, k), y)])
  {
    OneKeyMerged(Some(Obj(once)), k, y);
    assert base[k := inner][k := MergePatch(Some(inner), y)] == base[k := MergePatch(Field(base, k), y)];
  }

  lemma SameUntouched(policy: Json, keys: seq<string>)
    requires policy.Null? || policy.Str?
    requires Untouched(Obj(PolicySpec(Null)), keys)
    ensures Untouched(Obj(PolicySpec(policy)), keys)
  {
    var before, after := Obj(map["selectPolicy" := Null]), Obj(map["selectPolicy" := policy]);
    if keys[0] == "behavior" {
      var below := keys[1..];
      if below[0] == "scaleUp" { UntouchedStep("selectPolicy", Null, policy, below[1..]); }
      UntouchedStep("scaleUp", before, after, below);
    }
    UntouchedStep("behavior", Obj(map["scaleUp" := before]), Obj(map["scaleUp" := after]), keys);
  }

  lemma UntouchedStep(k: string, x: Json, y: Json, keys: seq<string>)
    requires Untouched(Obj(map[k := x]), keys)
    requires keys[0] == k && Untouched(x, keys[1..]) ==> Untouched(y, keys[1..])
    ensures Untouched(Obj(map[k := y]), keys)
  {
  }

  // ---- conservation -----------------------------------------------------------------------------

  /** The policy a release writes for the one it recorded: an empty text removes it. */
  function PolicyFor(recorded: string): Json {
    if recorded == "" then Null else Str(recorded)
  }

  /** The spec a release leaves. */
  function GivenBack(original: Object): map<string, Json> {
    WithPolicy(original.spec, PolicyFor(PolicyOf(original)))
  }

  /** Marked by some schedule, with the original policy recorded and the original spec with
      scale-up disabled; or unmarked, with the original spec or the one a release leaves. */
  ghost predicate DisabledOrOriginal(original: Object, h: Object) {
    if MANAGED_BY in h.annotations then
      h.annotations[MANAGED_BY] != "" &&
      ORIGINAL_HPA_POLICY in h.annotations && h.annotations[ORIGINAL_HPA_POLICY] == PolicyOf(original) &&
      PolicyOf(original) != DISABLED && h.spec == WithPolicy(original.spec, Str(DISABLED))
    else
      ORIGINAL_HPA_POLICY !in h.annotations && (h.spec == original.spec || h.spec == GivenBack(original))
  }

  /** In every such state the policy is the original one, or disabled with it recorded, and
      every path a policy patch does not run along reads as in the original. Once released,
      a spec with a policy text is exactly the original one. */
  lemma PolicyKnown(original: Object, h: Object)
    requires DisabledOrOriginal(original, h)
    ensures if MANAGED_BY in h.annotations then PolicyAt(h.spec) == Some(Str(DISABLED))
            else PolicyOf(h) == PolicyOf(original)
    ensures MANAGED_BY !in h.annotations && PolicyOf(original) != "" ==> h.spec == original.spec
    ensures forall keys :: Untouched(Obj(PolicySpec(Null)), keys) ==>
              Lookup(Some(Obj(h.spec)), keys) == Lookup(Some(Obj(original.spec)), keys)
  {
    PolicyPatched(original.spec, Str(DISABLED));
    PolicyPatched(original.spec, PolicyFor(PolicyOf(original)));
    if PolicyOf(original) != "" { PolicyWrittenAgain(original); }
  }

  predicate Unmarked(h: Object) {
    MANAGED_BY !in h.annotations && ORIGINAL_HPA_POLICY !in h.annotations
  }

  lemma Rewritten(original: Object, stored: Object, policy: Json)
    requires DisabledOrOriginal(original, stored) && (policy.Null? || policy.Str?)
    ensures WithPolicy(stored.spec, policy) == WithPolicy(original.spec, policy)
  {
    LastPolicyWins(original.spec, Str(DISABLED), policy);
    LastPolicyWins(original.spec, PolicyFor(PolicyOf(original)), policy);
  }

  lemma HpaDownShape(original: Object, stored: Object, read: Object, schedule: string)
    requires DisabledOrOriginal(original, stored) && DisabledOrOriginal(original, read)
    requires schedule != "" && DecideHpaDown(read, schedule).Some?
    ensures DisabledOrOriginal(original, Patched(stored, HpaDownPatch(read, schedule)))
  {
    KeysDistinct();
    PolicyKnown(original, read);
    PatchedSpec(stored, HpaDownPatch(read, schedule), Str(DISABLED));
    Rewritten(original, stored, Str(DISABLED));
  }

  lemma HpaUpShape(original: Object, stored: Object, read: Object, schedule: string)
    requires DisabledOrOriginal(original, stored) && DisabledOrOriginal(original, read)
    requires schedule != "" && DecideHpaUp(read, schedule).Some?
    ensures DisabledOrOriginal(original, Patched(stored, HpaUpPatch(read)))
    ensures Unmarked(Patched(stored, HpaUpPatch(read)))
  {
    var policy := PolicyFor(Annotation(read, ORIGINAL_HPA_POLICY));
    assert HpaUpPatch(read).removeAnnotations[0] == ORIGINAL_HPA_POLICY && HpaUpPatch(read).removeAnnotations[1] == MANAGED_BY;
    PatchedSpec(stored, HpaUpPatch(read), policy);
    Rewritten(original, stored, policy);
  }

  lemma HpaAfterShape(up: bool, original: Object, read: Object, stored: Object, schedule: string, ok: bool)
    requires DisabledOrOriginal(original, stored) && DisabledOrOriginal(original, read) && schedule != ""
    ensures DisabledOrOriginal(original, HpaAfter(up, schedule, Some(read), Some(stored), ok).value)
  {
    if DecideHpa(up, read, schedule).Some? {
      if up { HpaUpShape(original, stored, read, schedule); } else { HpaDownShape(original, stored, read, schedule); }
    }
  }

  /** Scaling leaves the autoscaler as it is or applies its one write. */
  lemma ScaleWritesHpaOnce(up: bool, schedule: string, read: Pair, stored: Pair, workloadOk: bool, hpaOk: bool)
    ensures var hpa := Scale(up, schedule, read, stored, workloadOk, hpaOk).0.hpa;
            hpa == stored.hpa || hpa == HpaAfter(up, schedule, read.hpa, stored.hpa, hpaOk)
  {
  }

  lemma StepConserves(original: Object, read: Pair, stored: Pair, a: Action)
    requires stored.hpa.Some? && DisabledOrOriginal(original, stored.hpa.value)
    requires read.hpa.Some? && DisabledOrOriginal(original, read.hpa.value)
    requires a.ScaleAction? && a.schedule != ""
    ensures var hpa := Scale(a.up, a.schedule, read, stored, a.workloadOk, a.hpaOk).0.hpa;
            hpa.Some? && DisabledOrOriginal(original, hpa.value)
  {
    ScaleWritesHpaOnce(a.up, a.schedule, read, stored, a.workloadOk, a.hpaOk);
    HpaAfterShape(a.up, original, read.hpa.value, stored.hpa.value, a.schedule, a.hpaOk);
  }

  /** HPA conservation: at every point of every run, by any schedules on copies of any
      age, with failed writes and crashes anywhere, the spec is the original one with scale-up
      disabled, and the policy recorded; or untouched; or the one a release leaves. */
  lemma {:induction false} PolicyConserved(history: seq<Pair>, actions: seq<Action>, i: nat)
    requires IsRun(history, actions) && i < |history|
    requires history[0].hpa.Some? && Unmarked(history[0].hpa.value)
    ensures forall j :: 0 <= j <= i ==> PolicyKept(history[0], history[j])
  {
    if i > 0 {
      PolicyConserved(history, actions, i - 1);
      var a := actions[i - 1];
      assert PolicyKept(history[0], history[i - 1]);
      if a.ScaleAction? {
        assert PolicyKept(history[0], history[a.hpaRead]);
        StepConserves(history[0].hpa.value, ReadBy(history, a), history[i - 1], a);
      }
    }
  }

  ghost predicate PolicyKept(first: Pair, p: Pair)
    requires first.hpa.Some?
  {
    p.hpa.Some? && DisabledOrOriginal(first.hpa.value, p.hpa.value)
  }

  /** An autoscaler whose scale-up the user disabled is never written at all. */
  lemma {:induction false} UserDisabledUntouched(history: seq<Pair>, actions: seq<Action>, i: nat)
    requires IsRun(history, actions) && i < |history|
    requires history[0].hpa.Some? && Unmarked(history[0].hpa.value) && PolicyOf(history[0].hpa.value) == DISABLED
    ensures forall j :: 0 <= j <= i ==> history[j].hpa == history[0].hpa
  {
    if i > 0 {
      UserDisabledUntouched(history, actions, i - 1);
      assert history[i] == Act(ReadBy(history, actions[i - 1]), history[i - 1], actions[i - 1]);
    }
  }

  // ---- recovery -----------------------------------------------------------------------------------

  /** What the release write makes of an autoscaler this schedule marked. */
  lemma ReleasedHpa(h: Object, schedule: string, recorded: string) returns (after: Object)
    requires schedule != "" && Annotation(h, MANAGED_BY) == schedule
    requires ORIGINAL_HPA_POLICY in h.annotations && h.annotations[ORIGINAL_HPA_POLICY] == recorded
    ensures HpaAfter(true, schedule, Some(h), Some(h), true) == Some(after)
    ensures Unmarked(after) && after.spec == WithPolicy(h.spec, PolicyFor(recorded)) && PolicyOf(after) == recorded
  {
    after := Patched(h, HpaUpPatch(h));
    assert HpaUpPatch(h).removeAnnotations[0] == ORIGINAL_HPA_POLICY && HpaUpPatch(h).removeAnnotations[1] == MANAGED_BY;
    PatchedSpec(h, HpaUpPatch(h), PolicyFor(recorded));
  }

  lemma HpaAfterUp(p: Pair, schedule: string)
    requires p.hpa.Some?
    ensures Scale(true, schedule, p, p, true, true).0.hpa ==
            if HeldDown(p.workload) && OwnedByOther(p.workload, schedule) then p.hpa
            else HpaAfter(true, schedule, p.hpa, p.hpa, true)
  {
  }

  /** One error-free up step by the schedule that disabled the autoscaler writes the
      recorded policy back exactly when no other schedule holds the workload down; whether
      the workload was already restored makes no difference. */
  lemma UpReleasesHpa(p: Pair, schedule: string) returns (after: Object)
    requires schedule != "" && p.hpa.Some?
    requires Annotation(p.hpa.value, MANAGED_BY) == schedule && ORIGINAL_HPA_POLICY in p.hpa.value.annotations
    ensures Scale(true, schedule, p, p, true, true).0.hpa == Some(after)
    ensures var recorded := p.hpa.value.annotations[ORIGINAL_HPA_POLICY];
            (Unmarked(after) && after.spec == WithPolicy(p.hpa.value.spec, PolicyFor(recorded)) && PolicyOf(after) == recorded) <==>
            !(HeldDown(p.workload) && OwnedByOther(p.workload, schedule))
  {
    HpaAfterUp(p, schedule);
    if HeldDown(p.workload) && OwnedByOther(p.workload, schedule) {
      after := p.hpa.value;
    } else {
      after := ReleasedHpa(p.hpa.value, schedule, p.hpa.value.annotations[ORIGINAL_HPA_POLICY]);
    }
  }

  /** The write itself, by its result. */
  lemma UpWrites(p: Pair, schedule: string, recorded: string) returns (after: Object)
    requires schedule != "" && p.hpa.Some? && !(HeldDown(p.workload) && OwnedByOther(p.workload, schedule))
    requires Annotation(p.hpa.value, MANAGED_BY) == schedule && ORIGINAL_HPA_POLICY in p.hpa.value.annotations
    requires p.hpa.value.annotations[ORIGINAL_HPA_POLICY] == recorded
    ensures Scale(true, schedule, p, p, true, true).0.hpa == Some(after)
    ensures Unmarked(after) && after.spec == WithPolicy(p.hpa.value.spec, PolicyFor(recorded)) && PolicyOf(after) == recorded
  {
    HpaAfterUp(p, schedule);
    after := ReleasedHpa(p.hpa.value, schedule, recorded);
  }

  /** The workload carries no other schedule's mark. */
  predicate OnlyMarkedBy(o: Object, schedule: string) {
    MANAGED_BY in o.annotations ==> o.annotations[MANAGED_BY] == schedule
  }

  predicate OneSchedule(actions: seq<Action>, schedule: string) {
    forall i :: 0 <= i < |actions| ==> actions[i].schedule == schedule && actions[i].ScaleAction?
  }

  lemma MarksStep(read: Pair, stored: Pair, a: Action)
    requires a.ScaleAction? && stored.hpa.Some? && read.hpa.Some?
    requires OnlyMarkedBy(stored.workload, a.schedule) && OnlyMarkedBy(stored.hpa.value, a.schedule)
    ensures var p := Act(read, stored, a);
            OnlyMarkedBy(p.workload, a.schedule) && p.hpa.Some? && OnlyMarkedBy(p.hpa.value, a.schedule)
  {
    KeysDistinct();
  }

  lemma {:induction false} OneScheduleMarks(history: seq<Pair>, actions: seq<Action>, schedule: string, i: nat)
    requires IsRun(history, actions) && i < |history| && OneSchedule(actions, schedule)
    requires OnlyMarkedBy(history[0].workload, schedule)
    requires history[0].hpa.Some? && Unmarked(history[0].hpa.value)
    ensures forall j :: 0 <= j <= i ==>
              OnlyMarkedBy(history[j].workload, schedule) && history[j].hpa.Some? && OnlyMarkedBy(history[j].hpa.value, schedule)
  {
    if i > 0 {
      OneScheduleMarks(history, actions, schedule, i - 1);
      var a := actions[i - 1];
      MarksStep(ReadBy(history, a), history[i - 1], a);
    }
  }

  /** With one schedule and no transfers, whatever crashed before, the next error-free up
      step on fresh copies leaves the autoscaler unmarked, with its original spec or the one
      a release leaves. */
  lemma CrashRecovery(history: seq<Pair>, actions: seq<Action>, schedule: string, i: nat)
    requires IsRun(history, actions) && i < |history| && OneSchedule(actions, schedule) && schedule != ""
    requires OnlyMarkedBy(history[0].workload, schedule)
    requires history[0].hpa.Some? && Unmarked(history[0].hpa.value)
    ensures var after := Scale(true, schedule, history[i], history[i], true, true).0.hpa;
            var original := history[0].hpa.value;
            after.Some? && Unmarked(after.value) && (after.value.spec == original.spec || after.value.spec == GivenBack(original))
  {
    var original := history[0].hpa.value;
    OneScheduleMarks(history, actions, schedule, i);
    PolicyConserved(history, actions, i);
    assert PolicyKept(history[0], history[i]);
    UpRecovers(original, history[i], schedule);
  }

  lemma UpRecovers(original: Object, p: Pair, schedule: string)
    requires p.hpa.Some? && DisabledOrOriginal(original, p.hpa.value) && schedule != ""
    requires OnlyMarkedBy(p.workload, schedule) && OnlyMarkedBy(p.hpa.value, schedule)
    ensures var after := Scale(true, schedule, p, p, true, true).0.hpa;
            after.Some? && Unmarked(after.value) && (after.value.spec == original.spec || after.value.spec == GivenBack(original))
  {
    if MANAGED_BY in p.hpa.value.annotations {
      var after := UpWrites(p, schedule, PolicyOf(original));
      Rewritten(original, p.hpa.value, PolicyFor(PolicyOf(original)));
    } else {
      UnmarkedStays(p, schedule);
    }
  }

  lemma UnmarkedStays(p: Pair, schedule: string)
    requires p.hpa.Some? && MANAGED_BY !in p.hpa.value.annotations
    ensures Scale(true, schedule, p, p, true, true).0.hpa == p.hpa
  {
  }

  // ---- how exact the release is -------------------------------------------------------------------

  /** The policy was absent, or a text that is not empty. */
  predicate Recordable(spec: map<string, Json>) {
    match PolicyAt(spec)
    case None => true
    case Some(Str(s)) => s != ""
    case _ => false
  }

  /** What stands on the way to the policy is an object, or missing. */
  predicate ObjectsOnTheWay(spec: map<string, Json>) {
    var behavior := Field(spec, "behavior");
    var scaleUp := Field(FieldsOf(behavior), "scaleUp");
    (behavior.Some? ==> behavior.value.Obj?) && (scaleUp.Some? ==> scaleUp.value.Obj?)
  }

  lemma PolicyAtByFields(spec: map<string, Json>)
    ensures PolicyAt(spec) == Field(FieldsOf(Field(FieldsOf(Field(spec, "behavior")), "scaleUp")), "selectPolicy")
  {
    assert POLICY_PATH[1..] == ["scaleUp", "selectPolicy"] && POLICY_PATH[1..][1..] == ["selectPolicy"];
    assert POLICY_PATH[1..][1..][1..] == [];
    var below := Field(FieldsOf(Field(spec, "behavior")), "scaleUp");
    assert Lookup(below, ["selectPolicy"]) == Field(FieldsOf(below), "selectPolicy");
  }

  /** A release gives the policy itself back exactly when it was absent or a text that is
      not empty. An empty text, a null or a policy that is no text is removed instead. */
  lemma PolicyGivenBackExactly(original: Object)
    ensures PolicyAt(GivenBack(original)) == PolicyAt(original.spec) <==> Recordable(original.spec)
  {
    PolicyPatched(original.spec, PolicyFor(PolicyOf(original)));
  }

  /** A release leaves the whole spec as it was, up to empty parent objects, exactly when
      the policy is given back and nothing but objects stood on the way to it. */
  lemma SpecGivenBackExactly(original: Object)
    ensures SameButHollow(Obj(original.spec), Obj(GivenBack(original))) <==>
            Recordable(original.spec) && ObjectsOnTheWay(original.spec)
  {
    var spec, policy := original.spec, PolicyFor(PolicyOf(original));
    PolicyAtByFields(spec);
    var behavior := Field(spec, "behavior");
    var scaleUp := Field(FieldsOf(behavior), "scaleUp");
    var x0 := Obj(map["selectPolicy" := policy]);
    LeafGivenBack(scaleUp, "selectPolicy", policy);
    KeyGivenBack(behavior, "scaleUp", x0);
    KeyGivenBack(Some(Obj(spec)), "behavior", Obj(map["scaleUp" := x0]));
  }

  /** The merged value differs from what stood there by hollow objects only. */
  predicate Returned(before: Option<Json>, after: Json) {
    if before.Some? then SameButHollow(before.value, after) else Hollow(after)
  }

  lemma SameAsItself(m: map<string, Json>)
    ensures forall k :: k in m ==> SameButHollow(m[k], m[k])
  {
    forall k | k in m ensures SameButHollow(m[k], m[k]) { SameIsReflexive(m[k]); SameIsSameButHollow(m[k], m[k]); }
  }

  lemma TextIsItself(v: Json, s: string)
    ensures SameButHollow(v, Str(s)) <==> v == Str(s)
  {
  }

  lemma LeafGivenBack(t: Option<Json>, k: string, policy: Json)
    requires policy.Null? || policy.Str?
    ensures Returned(t, MergePatch(t, Obj(map[k := policy]))) <==>
            (t.Some? ==> t.value.Obj?) &&
            (if policy.Null? then k !in FieldsOf(t) else Field(FieldsOf(t), k) == Some(policy))
  {
    OneKeyMerged(t, k, policy);
    SameAsItself(FieldsOf(t));
    var r := MergePatch(t, Obj(map[k := policy])).fields;
    if policy.Str? {
      assert k in r && r[k] == policy && !Hollow(r[k]);
      if k in FieldsOf(t) { TextIsItself(FieldsOf(t)[k], policy.s); }
    }
  }

  lemma KeyGivenBack(t: Option<Json>, k: string, x: Json)
    requires x.Obj?
    ensures Returned(t, MergePatch(t, Obj(map[k := x]))) <==>
            (t.Some? ==> t.value.Obj?) && Returned(Field(FieldsOf(t), k), MergePatch(Field(FieldsOf(t), k), x))
  {
    OneKeyMerged(t, k, x);
    SameAsItself(FieldsOf(t));
    var r := MergePatch(t, Obj(map[k := x])).fields;
    assert k in r;
  }

  /** A spec without any behaviour keeps the two parents the patches made. */
  lemma ParentsRemain(original: Object)
    requires "behavior" !in original.spec
    ensures GivenBack(original) == original.spec["behavior" := Obj(map["scaleUp" := Obj(map[])])]
  {
    PolicyAtByFields(original.spec);
    OneKeyMerged(None, "selectPolicy", Null);
    OneKeyMerged(None, "scaleUp", Obj(map["selectPolicy" := Null]));
    OneKeyMerged(Some(Obj(original.spec)), "behavior", Obj(map["scaleUp" := Obj(map["selectPolicy" := Null])]));
  }

  /** An empty policy text is lost: the release removes the field. */
  lemma EmptyTextIsRemoved(original: Object)
    requires original.spec == map["behavior" := Obj(map["scaleUp" := Obj(map["selectPolicy" := Str("")])])]
    ensures PolicyAt(original.spec) == Some(Str("")) && PolicyAt(GivenBack(original)) == None
  {
    PolicyAtByFields(original.spec);
    PolicyPatched(original.spec, Null);
  }

  /** A spec that has the policy already is not changed by writing it. */
  lemma PolicyWrittenAgain(original: Object)
    requires PolicyOf(original) != ""
    ensures GivenBack(original) == original.spec
  {
    var spec, policy := original.spec, Str(PolicyOf(original));
    PolicyAtByFields(spec);
    var behavior := Field(spec, "behavior").value;
    var scaleUp := Field(behavior.fields, "scaleUp").value;
    WrittenAgain(scaleUp.fields, "selectPolicy", policy);
    WrittenAgain(behavior.fields, "scaleUp", Obj(map["selectPolicy" := policy]));
    WrittenAgain(spec, "behavior", Obj(map["scaleUp" := Obj(map["selectPolicy" := policy])]));
  }

  lemma WrittenAgain(m: map<string, Json>, k: string, x: Json)
    requires k in m && !x.Null? && MergePatch(Some(m[k]), x) == m[k]
    ensures MergePatch(Some(Obj(m)), Obj(map[k := x])) == Obj(m)
  {
    OneKeyMerged(Some(Obj(m)), k, x);
    assert m[k := m[k]] == m;
  }

  /** One night: an error-free down and up of an unmarked autoscaler whose scale-up is not
      disabled ends in exactly that spec. */
  lemma NightGivesBack(p: Pair, schedule: string) returns (night: Pair, morning: Pair)
    requires schedule != "" && p.hpa.Some? && Unmarked(p.hpa.value) && PolicyOf(p.hpa.value) != DISABLED
    requires DecideDown(p.workload, schedule).Send?
    ensures night == Scale(false, schedule, p, p, true, true).0 && morning == Scale(true, schedule, night, night, true, true).0
    ensures night.hpa.Some? && PolicyAt(night.hpa.value.spec) == Some(Str(DISABLED))
    ensures morning.hpa.Some? && Unmarked(morning.hpa.value) && morning.hpa.value.spec == GivenBack(p.hpa.value)
  {
    night := Evening(p, schedule);
    var spec, policy := p.hpa.value.spec, PolicyFor(PolicyOf(p.hpa.value));
    var after := UpWrites(night, schedule, PolicyOf(p.hpa.value));
    LastPolicyWins(spec, Str(DISABLED), policy);
    PolicyPatched(spec, Str(DISABLED));
    morning := Scale(true, schedule, night, night, true, true).0;
  }

  /** The evening's part of it. */
  lemma Evening(p: Pair, schedule: string) returns (night: Pair)
    requires schedule != "" && p.hpa.Some? && Unmarked(p.hpa.value) && PolicyOf(p.hpa.value) != DISABLED
    requires DecideDown(p.workload, schedule).Send?
    ensures night == Scale(false, schedule, p, p, true, true).0 && night.hpa.Some?
    ensures !OwnedByOther(night.workload, schedule)
    ensures night.hpa.value.spec == WithPolicy(p.hpa.value.spec, Str(DISABLED))
    ensures Annotation(night.hpa.value, MANAGED_BY) == schedule && ORIGINAL_HPA_POLICY in night.hpa.value.annotations
    ensures night.hpa.value.annotations[ORIGINAL_HPA_POLICY] == PolicyOf(p.hpa.value)
  {
    var h := DisabledHpa(p.hpa.value, schedule);
    var o := ZeroedWorkload(p.workload, schedule);
    night := Pair(o, Some(h));
  }

  lemma DisabledHpa(h: Object, schedule: string) returns (after: Object)
    requires schedule != "" && Unmarked(h) && PolicyOf(h) != DISABLED
    ensures HpaAfter(false, schedule, Some(h), Some(h), true) == Some(after)
    ensures after.spec == WithPolicy(h.spec, Str(DISABLED))
    ensures Annotation(after, MANAGED_BY) == schedule
    ensures ORIGINAL_HPA_POLICY in after.annotations && after.annotations[ORIGINAL_HPA_POLICY] == PolicyOf(h)
  {
    after := Patched(h, HpaDownPatch(h, schedule));
    MarkedBy(h, schedule);
    PatchedSpec(h, HpaDownPatch(h, schedule), Str(DISABLED));
  }

  lemma ZeroedWorkload(o: Object, schedule: string) returns (after: Object)
    requires DecideDown(o, schedule).Send?
    ensures after == Patched(o, DownPatch(o, schedule)) && DecideDown(o, schedule) == Send(DownPatch(o, schedule))
    ensures !OwnedByOther(after, schedule)
  {
    after := Patched(o, DownPatch(o, schedule));
    WorkloadMarkedBy(o, schedule);
  }

  lemma WorkloadMarkedBy(o: Object, schedule: string)
    ensures Annotation(Patched(o, DownPatch(o, schedule)), MANAGED_BY) == schedule
  {
    KeysDistinct();
  }

  /** With two schedules it can take longer. One schedule disables the autoscaler and
      crashes before zeroing the workload; another then takes the workload. Until that
      one gives the workload back, the first schedule's up step leaves the autoscaler
      disabled, and so does the second schedule's. */
  lemma CrashThenTakeover(p: Pair, a: string, b: string) returns (crashed: Pair, taken: Pair, returned: Pair, done: Pair)
    requires a != "" && b != "" && a != b
    requires p.hpa.Some? && Unmarked(p.hpa.value) && PolicyOf(p.hpa.value) != DISABLED
    requires !HeldDown(p.workload) && Annotation(p.workload, MANAGED_BY) == "" && ReplicasOf(p.workload) != 0
    ensures crashed == Scale(false, a, p, p, false, true).0
    ensures taken == Scale(false, b, crashed, crashed, true, true).0
    ensures returned == Scale(true, b, taken, taken, true, true).0
    ensures done == Scale(true, a, returned, returned, true, true).0
    ensures Scale(true, a, taken, taken, true, true) == (taken, Skipped(DifferentSchedule))
    ensures taken.hpa.Some? && PolicyOf(taken.hpa.value) == DISABLED && returned.hpa == taken.hpa
    ensures done.hpa.Some? && Unmarked(done.hpa.value) && PolicyOf(done.hpa.value) == PolicyOf(p.hpa.value)
  {
    crashed := Crash(p, a);
    taken := Takeover(crashed, b);
    RefusedUp(taken, a, b);
    returned := GiveBack(taken, b);
    var after := UpWrites(returned, a, PolicyOf(p.hpa.value));
    done := Scale(true, a, returned, returned, true, true).0;
  }

  lemma Crash(p: Pair, a: string) returns (crashed: Pair)
    requires a != "" && p.hpa.Some? && Unmarked(p.hpa.value) && PolicyOf(p.hpa.value) != DISABLED
    requires !HeldDown(p.workload) && Annotation(p.workload, MANAGED_BY) == "" && ReplicasOf(p.workload) != 0
    ensures crashed == Scale(false, a, p, p, false, true).0
    ensures crashed.workload == p.workload && crashed.hpa.Some?
    ensures Annotation(crashed.hpa.value, MANAGED_BY) == a && PolicyOf(crashed.hpa.value) == DISABLED
    ensures Annotation(crashed.hpa.value, ORIGINAL_HPA_POLICY) == PolicyOf(p.hpa.value)
    ensures ORIGINAL_HPA_POLICY in crashed.hpa.value.annotations
  {
    CrashWritesHpa(p, a);
    MarkedBy(p.hpa.value, a);
    DisabledBy(p.hpa.value, a);
    crashed := Pair(p.workload, Some(Patched(p.hpa.value, HpaDownPatch(p.hpa.value, a))));
  }

  lemma CrashWritesHpa(p: Pair, a: string)
    requires p.hpa.Some? && Annotation(p.hpa.value, MANAGED_BY) == "" && PolicyOf(p.hpa.value) != DISABLED
    requires DecideDown(p.workload, a).Send?
    ensures Scale(false, a, p, p, false, true).0 == Pair(p.workload, Some(Patched(p.hpa.value, HpaDownPatch(p.hpa.value, a))))
  {
  }

  lemma MarkedBy(h: Object, a: string)
    ensures var marks := Patched(h, HpaDownPatch(h, a)).annotations;
            MANAGED_BY in marks && marks[MANAGED_BY] == a &&
            ORIGINAL_HPA_POLICY in marks && marks[ORIGINAL_HPA_POLICY] == PolicyOf(h)
  {
    KeysDistinct();
  }

  lemma DisabledBy(h: Object, a: string)
    ensures PolicyOf(Patched(h, HpaDownPatch(h, a))) == DISABLED
  {
    PatchedSpec(h, HpaDownPatch(h, a), Str(DISABLED));
  }

  lemma Takeover(p: Pair, b: string) returns (taken: Pair)
    requires b != "" && p.hpa.Some? && Annotation(p.hpa.value, MANAGED_BY) != "" && Annotation(p.hpa.value, MANAGED_BY) != b
    requires !HeldDown(p.workload) && Annotation(p.workload, MANAGED_BY) == "" && ReplicasOf(p.workload) != 0
    ensures taken == Scale(false, b, p, p, true, true).0
    ensures taken.hpa == p.hpa && HeldDown(taken.workload) && Annotation(taken.workload, MANAGED_BY) == b
  {
    KeysDistinct();
    taken := Pair(Patched(p.workload, DownPatch(p.workload, b)), p.hpa);
  }

  lemma RefusedUp(p: Pair, a: string, b: string)
    requires a != b && b != "" && HeldDown(p.workload) && Annotation(p.workload, MANAGED_BY) == b
    ensures Scale(true, a, p, p, true, true) == (p, Skipped(DifferentSchedule))
  {
  }

  lemma GiveBack(p: Pair, b: string) returns (returned: Pair)
    requires b != "" && HeldDown(p.workload) && Annotation(p.workload, MANAGED_BY) == b
    requires p.hpa.Some? && Annotation(p.hpa.value, MANAGED_BY) != b
    ensures returned == Scale(true, b, p, p, true, true).0
    ensures returned.hpa == p.hpa && !HeldDown(returned.workload)
  {
    UpPatchKeeps(p.workload, p.workload);
    returned := Pair(Patched(p.workload, UpPatch(p.workload)), p.hpa);
  }
}
