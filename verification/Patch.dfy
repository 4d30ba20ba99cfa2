// JSON merge patches: what the API server does with one (RFC 7386, section 2), and the
// patches the controller builds.
module Patch {
  import opened Wrappers
  import opened Json

  // ---- RFC 7386 -------------------------------------------------------------------------

  function FieldsOf(target: Option<Json>): map<string, Json> {
    if target.Some? && target.value.Obj? then target.value.fields else map[]
  }

  /** MergePatch(Target, Patch). A target of None is an undefined one. */
  function MergePatch(target: Option<Json>, patch: Json): (r: Json)
    decreases patch
  {
    match patch
    case Obj(m) =>
      var base := FieldsOf(target);
      Obj(map k | k in base.Keys + m.Keys && !(k in m && m[k].Null?) ::
        if k in m then MergePatch(Field(base, k), m[k]) else base[k])
    case _ => patch
  }

  /** The value reached through object keys only, None when some key is absent. */
  function Lookup(d: Option<Json>, keys: seq<string>): (r: Option<Json>)
    decreases |keys|
  {
    if keys == [] then d else Lookup(Field(FieldsOf(d), keys[0]), keys[1..])
  }

  /** The patch names nothing at, above or below this key path, except the objects on the
      way to where the path leaves the patch. */
  predicate Untouched(patch: Json, keys: seq<string>)
    decreases |keys|
  {
    patch.Obj? && keys != [] && (keys[0] in patch.fields ==> Untouched(patch.fields[keys[0]], keys[1..]))
  }

  /** Every key path a patch does not touch reads as before, at any depth. */
  lemma {:induction false} Frame(target: Option<Json>, patch: Json, keys: seq<string>)
    requires Untouched(patch, keys)
    ensures Lookup(Some(MergePatch(target, patch)), keys) == Lookup(target, keys)
    decreases |keys|
  {
    var k := keys[0];
    if k in patch.fields {
      assert !patch.fields[k].Null?;
      Frame(Field(FieldsOf(target), k), patch.fields[k], keys[1..]);
    }
  }

  /** The patch says what stands at this key path: a null deletes it, any other value
      that is no object replaces it. */
  predicate Names(patch: Json, keys: seq<string>, v: Json)
    decreases |keys|
  {
    if keys == [] then patch == v
    else patch.Obj? && keys[0] in patch.fields && Names(patch.fields[keys[0]], keys[1..], v)
  }

  /** A named key holds exactly the named value afterwards, or is gone if that is null. */
  lemma {:induction false} NamedKey(target: Option<Json>, patch: Json, keys: seq<string>, v: Json)
    requires keys != [] && Names(patch, keys, v) && !v.Obj?
    ensures Lookup(Some(MergePatch(target, patch)), keys) == if v.Null? then None else Some(v)
    decreases |keys|
  {
    var k := keys[0];
    var sub := patch.fields[k];
    if |keys| == 1 {
      assert keys[1..] == [];
    } else {
      assert sub.Obj? by { assert keys[1..] != []; }
      NamedKey(Field(FieldsOf(target), k), sub, keys[1..], v);
    }
  }

  /** Sending the same patch again changes nothing. */
  lemma {:induction false} Idempotent(target: Option<Json>, patch: Json)
    ensures MergePatch(Some(MergePatch(target, patch)), patch) == MergePatch(target, patch)
    decreases patch
  {
    match patch
    case Obj(m) =>
      var once := MergePatch(target, patch).fields;
      var twice := MergePatch(Some(Obj(once)), patch).fields;
      forall k | k in m && !m[k].Null? ensures twice[k] == once[k] {
        Idempotent(Field(FieldsOf(target), k), m[k]);
      }
      assert twice == once;
    case _ =>
  }

  /** Two patches touch disjoint key paths: a key both name holds an object in both, and
      below it they are disjoint again. */
  predicate Disjoint(p: Json, q: Json)
    decreases p
  {
    p.Obj? && q.Obj? && forall k :: k in p.fields && k in q.fields ==> Disjoint(p.fields[k], q.fields[k])
  }

  /** Patches touching disjoint key paths commute, on every target. */
  lemma {:induction false} Commute(target: Option<Json>, p: Json, q: Json)
    requires Disjoint(p, q)
    ensures MergePatch(Some(MergePatch(target, p)), q) == MergePatch(Some(MergePatch(target, q)), p)
    decreases p
  {
    var pq := MergePatch(Some(MergePatch(target, p)), q).fields;
    var qp := MergePatch(Some(MergePatch(target, q)), p).fields;
    forall k | k in p.fields && k in q.fields ensures k in pq && k in qp && pq[k] == qp[k] {
      assert Disjoint(p.fields[k], q.fields[k]);
      Commute(Field(FieldsOf(target), k), p.fields[k], q.fields[k]);
    }
    assert pq.Keys == qp.Keys;
    assert pq == qp;
  }

  // ---- the patches the controller builds ------------------------------------------------------

  /** objectPatch */
  datatype ObjectPatch = ObjectPatch(
    setLabels: map<string, string>,
    setAnnotations: map<string, string>,
    removeAnnotations: seq<string>,
    removeLabels: seq<string>,
    spec: map<string, Json>)

  function MergedKeys(toSet: map<string, string>, remove: seq<string>): map<string, Json> {
    map k | k in toSet.Keys + (set r | r in remove) :: if k in remove then Null else Str(toSet[k])
  }

  /** mergeKeys: the keys to write, then the keys to remove over them. */
  method MergeKeys(toSet: map<string, string>, remove: seq<string>) returns (merged: map<string, Json>)
    ensures merged == MergedKeys(toSet, remove)
  {
    merged := map[];
    var left := toSet.Keys;
    while left != {}
      invariant left <= toSet.Keys
      invariant merged == map k | k in toSet.Keys - left :: Str(toSet[k])
      decreases left
    {
      var k :| k in left;
      merged := merged[k := Str(toSet[k])];
      left := left - {k};
    }
    for i := 0 to |remove|
      invariant merged == MergedKeys(toSet, remove[..i])
    {
      merged := merged[remove[i] := Null];
      assert remove[..i + 1] == remove[..i] + [remove[i]];
    }
    assert remove[..|remove|] == remove;
  }

  /** Two keys holding objects, each left out when it would be empty. */
  function TwoParts(k1: string, part1: map<string, Json>, k2: string, part2: map<string, Json>): map<string, Json> {
    var one := if part1 == map[] then map[] else map[][k1 := Obj(part1)];
    if part2 == map[] then one else one[k2 := Obj(part2)]
  }

  const METADATA: string := "metadata"
  const SPEC: string := "spec"
  const LABELS: string := "labels"
  const ANNOTATIONS: string := "annotations"

  function BuiltMetadata(p: ObjectPatch): map<string, Json> {
    TwoParts(LABELS, MergedKeys(p.setLabels, p.removeLabels), ANNOTATIONS, MergedKeys(p.setAnnotations, p.removeAnnotations))
  }

  /** objectPatch.build: empty parts are left out. */
  function Build(p: ObjectPatch): Json {
    Obj(TwoParts(METADATA, BuiltMetadata(p), SPEC, p.spec))
  }

  method BuildPatch(p: ObjectPatch) returns (patch: Json)
    ensures patch == Build(p)
  {
    var metadata: map<string, Json> := map[];
    var labels := MergeKeys(p.setLabels, p.removeLabels);
    if labels != map[] {
      metadata := metadata[LABELS := Obj(labels)];
    }
    var annotations := MergeKeys(p.setAnnotations, p.removeAnnotations);
    if annotations != map[] {
      metadata := metadata[ANNOTATIONS := Obj(annotations)];
    }
    assert metadata == BuiltMetadata(p);
    var fields: map<string, Json> := map[];
    if metadata != map[] {
      fields := fields[METADATA := Obj(metadata)];
    }
    if p.spec != map[] {
      fields := fields[SPEC := Obj(p.spec)];
    }
    assert fields == TwoParts(METADATA, BuiltMetadata(p), SPEC, p.spec);
    return Obj(fields);
  }

  // ---- the typed view of an object -----------------------------------------------------------

  /** What the controller reads and writes of an object. An absent map is an empty one. */
  datatype Object = Object(labels: map<string, string>, annotations: map<string, string>, spec: map<string, Json>)

  function Strings(m: map<string, string>): map<string, Json> {
    map k | k in m :: Str(m[k])
  }

  function MetadataOf(o: Object, metadata: map<string, Json>): map<string, Json> {
    metadata[LABELS := Obj(Strings(o.labels))][ANNOTATIONS := Obj(Strings(o.annotations))]
  }

  /** The stored document: the object, other metadata, and other top-level fields. */
  function Document(o: Object, metadata: map<string, Json>, rest: map<string, Json>): Json {
    Obj(rest[METADATA := Obj(MetadataOf(o, metadata))][SPEC := Obj(o.spec)])
  }

  function Remaining(current: map<string, string>, toSet: map<string, string>, remove: seq<string>): map<string, string> {
    map k | k in current.Keys + toSet.Keys && k !in remove :: if k in toSet then toSet[k] else current[k]
  }

  /** What a patch does to an object: named keys are written, removed keys are gone even
      when they are also written, every other key is kept. */
  function Patched(o: Object, p: ObjectPatch): Object {
    Object(
      Remaining(o.labels, p.setLabels, p.removeLabels),
      Remaining(o.annotations, p.setAnnotations, p.removeAnnotations),
      MergePatch(Some(Obj(o.spec)), Obj(p.spec)).fields)
  }

  lemma Scalar(target: Option<Json>, v: Json)
    requires !v.Obj?
    ensures MergePatch(target, v) == v
  {
  }

  lemma KeysPatched(current: map<string, string>, toSet: map<string, string>, remove: seq<string>)
    ensures MergePatch(Some(Obj(Strings(current))), Obj(MergedKeys(toSet, remove))) ==
            Obj(Strings(Remaining(current, toSet, remove)))
  {
    var merged := MergedKeys(toSet, remove);
    var r := MergePatch(Some(Obj(Strings(current))), Obj(merged)).fields;
    var expected := Strings(Remaining(current, toSet, remove));
    assert r.Keys == expected.Keys;
    forall k | k in r ensures r[k] == expected[k] {
      if k in merged { Scalar(Field(Strings(current), k), Str(toSet[k])); }
    }
    assert r == expected;
  }

  lemma EmptyPatch(x: map<string, Json>)
    ensures MergePatch(Some(Obj(x)), Obj(map[])) == Obj(x)
  {
    assert MergePatch(Some(Obj(x)), Obj(map[])).fields == x;
  }

  /** One object-valued key of a patch, or a key the patch leaves out as empty. */
  lemma PartPatched(base: map<string, Json>, patch: map<string, Json>, k: string, x: map<string, Json>, part: map<string, Json>)
    requires k in base && base[k] == Obj(x)
    requires IsPart(patch, k, part)
    ensures var r := MergePatch(Some(Obj(base)), Obj(patch)).fields;
            k in r && r[k] == MergePatch(Some(Obj(x)), Obj(part))
  {
    EmptyPatch(x);
  }

  predicate IsPart(m: map<string, Json>, k: string, part: map<string, Json>) {
    if part == map[] then k !in m else k in m && m[k] == Obj(part)
  }

  lemma TwoPartsHold(k1: string, part1: map<string, Json>, k2: string, part2: map<string, Json>)
    requires k1 != k2
    ensures var patch := TwoParts(k1, part1, k2, part2);
            IsPart(patch, k1, part1) && IsPart(patch, k2, part2) &&
            forall k :: k in patch ==> (k == k1 || k == k2) && patch[k].Obj?
  {
  }

  /** A patch of two object-valued keys changes those two objects and nothing else. */
  lemma TwoPartsPatched(m: map<string, Json>, k1: string, x1: map<string, Json>, part1: map<string, Json>,
                        k2: string, x2: map<string, Json>, part2: map<string, Json>)
    requires k1 != k2
    ensures MergePatch(Some(Obj(m[k1 := Obj(x1)][k2 := Obj(x2)])), Obj(TwoParts(k1, part1, k2, part2))) ==
            Obj(m[k1 := MergePatch(Some(Obj(x1)), Obj(part1))][k2 := MergePatch(Some(Obj(x2)), Obj(part2))])
  {
    TwoPartsHold(k1, part1, k2, part2);
    BothPartsPatched(m, m[k1 := Obj(x1)][k2 := Obj(x2)], TwoParts(k1, part1, k2, part2), k1, x1, part1, k2, x2, part2);
  }

  lemma BothPartsPatched(m: map<string, Json>, base: map<string, Json>, patch: map<string, Json>,
                         k1: string, x1: map<string, Json>, part1: map<string, Json>,
                         k2: string, x2: map<string, Json>, part2: map<string, Json>)
    requires k1 != k2 && base == m[k1 := Obj(x1)][k2 := Obj(x2)]
    requires IsPart(patch, k1, part1) && IsPart(patch, k2, part2)
    requires forall k :: k in patch ==> (k == k1 || k == k2) && patch[k].Obj?
    ensures MergePatch(Some(Obj(base)), Obj(patch)) ==
            Obj(m[k1 := MergePatch(Some(Obj(x1)), Obj(part1))][k2 := MergePatch(Some(Obj(x2)), Obj(part2))])
  {
    PartPatched(base, patch, k1, x1, part1);
    PartPatched(base, patch, k2, x2, part2);
    OthersPatched(base, patch, k1, k2);
    TwoUpdates(m, k1, k2, MergePatch(Some(Obj(base)), Obj(patch)).fields);
  }

  lemma OthersPatched(base: map<string, Json>, patch: map<string, Json>, k1: string, k2: string)
    requires k1 in base && k2 in base && forall k :: k in patch ==> (k == k1 || k == k2) && patch[k].Obj?
    ensures var r := MergePatch(Some(Obj(base)), Obj(patch)).fields;
            r.Keys == base.Keys && forall k :: k in r && k != k1 && k != k2 ==> r[k] == base[k]
  {
  }

  lemma TwoUpdates<V>(m: map<string, V>, k1: string, k2: string, r: map<string, V>)
    requires r.Keys == m.Keys + {k1, k2} && k1 != k2
    requires forall k :: k in r && k != k1 && k != k2 ==> r[k] == m[k]
    ensures r == m[k1 := r[k1]][k2 := r[k2]]
  {
  }

  lemma MetadataPatched(o: Object, p: ObjectPatch, metadata: map<string, Json>)
    ensures MergePatch(Some(Obj(MetadataOf(o, metadata))), Obj(BuiltMetadata(p))) == Obj(MetadataOf(Patched(o, p), metadata))
  {
    KeysPatched(o.labels, p.setLabels, p.removeLabels);
    KeysPatched(o.annotations, p.setAnnotations, p.removeAnnotations);
    assert |LABELS| != |ANNOTATIONS|;
    TwoPartsPatched(metadata,
      LABELS, Strings(o.labels), MergedKeys(p.setLabels, p.removeLabels),
      ANNOTATIONS, Strings(o.annotations), MergedKeys(p.setAnnotations, p.removeAnnotations));
  }

  /** Applying the built patch to the stored document, by RFC 7386, is exactly the typed
      change: nothing else in the metadata or the document moves. */
  lemma BuiltPatchIsExact(o: Object, p: ObjectPatch, metadata: map<string, Json>, rest: map<string, Json>)
    ensures MergePatch(Some(Document(o, metadata, rest)), Build(p)) == Document(Patched(o, p), metadata, rest)
  {
    MetadataPatched(o, p, metadata);
    assert |METADATA| != |SPEC|;
    TwoPartsPatched(rest, METADATA, MetadataOf(o, metadata), BuiltMetadata(p), SPEC, o.spec, p.spec);
  }
}
