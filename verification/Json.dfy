// JSON values as the controller holds them after decoding, and the normalisation it
// applies before writing one into an object.
module Json {
  import opened Wrappers

  // Int is an integer field of an unstructured object, Float a number decoded from
  // JSON text. Rounding of float64 is outside the model, so Float carries a real.
  datatype Json =
    | Null
    | Bool(b: bool)
    | Int(n: int)
    | Float(x: real)
    | Str(s: string)
    | Arr(items: seq<Json>)
    | Obj(fields: map<string, Json>)

  const MIN_INT64: int := -0x8000_0000_0000_0000
  const MAX_INT64: int := 0x7fff_ffff_ffff_ffff

  predicate IsInt64(n: int) {
    MIN_INT64 <= n <= MAX_INT64
  }

  function Field(m: map<string, Json>, k: string): Option<Json> {
    if k in m then Some(m[k]) else None
  }

  /** jsonpointer.NormalizeValue: whole numbers become integers, at every depth. */
  function Normalize(v: Json): (r: Json)
  {
    match v
    case Float(x) => if x == x.Floor as real && IsInt64(x.Floor) then Int(x.Floor) else v
    case Arr(a) => Arr(seq(|a|, i requires 0 <= i < |a| => Normalize(a[i])))
    case Obj(m) => Obj(map k | k in m :: Normalize(m[k]))
    case _ => v
  }

  /** A value after it was marshalled to JSON text and decoded again: every number
      comes back as a float. */
  function Recode(v: Json): (r: Json)
  {
    match v
    case Int(n) => Float(n as real)
    case Arr(a) => Arr(seq(|a|, i requires 0 <= i < |a| => Recode(a[i])))
    case Obj(m) => Obj(map k | k in m :: Recode(m[k]))
    case _ => v
  }

  const EXACT_INTEGERS: int := 0x20_0000_0000_0000

  /** Every integer in the value is one a float64 holds exactly (magnitude up to 2^53). */
  predicate ExactNumbers(v: Json)
  {
    match v
    case Int(n) => -EXACT_INTEGERS <= n <= EXACT_INTEGERS
    case Arr(a) => forall i :: 0 <= i < |a| ==> ExactNumbers(a[i])
    case Obj(m) => forall k :: k in m ==> ExactNumbers(m[k])
    case _ => true
  }

  lemma {:induction false} NormalizeIdempotent(v: Json)
    ensures Normalize(Normalize(v)) == Normalize(v)
  {
    match v
    case Arr(a) =>
      forall i | 0 <= i < |a| { NormalizeIdempotent(a[i]); }
    case Obj(m) =>
      forall k | k in m ensures Normalize(Normalize(m[k])) == Normalize(m[k]) { NormalizeIdempotent(m[k]); }
    case _ =>
  }

  // ---- what a value is, however its numbers are held --------------------------------------

  function NumberOf(v: Json): Option<real> {
    match v
    case Int(n) => Some(n as real)
    case Float(x) => Some(x)
    case _ => None
  }

  /** The same JSON value: numbers by their size, arrays element by element, objects key by
      key. */
  predicate SameValue(a: Json, b: Json)
  {
    match a
    case Int(n) => NumberOf(b) == Some(n as real)
    case Float(x) => NumberOf(b) == Some(x)
    case Arr(xs) => b.Arr? && |xs| == |b.items| && forall i :: 0 <= i < |xs| ==> SameValue(xs[i], b.items[i])
    case Obj(m) => b.Obj? && m.Keys == b.fields.Keys && forall k :: k in m ==> SameValue(m[k], b.fields[k])
    case _ => a == b
  }

  ghost predicate IsWhole(x: real) {
    exists n: int {:trigger IsInt64(n)} :: IsInt64(n) && n as real == x
  }

  /** As the controller writes values: a number is an integer exactly when it is a whole one
      that fits into 64 bits. */
  ghost predicate Normal(v: Json)
  {
    match v
    case Int(n) => IsInt64(n)
    case Float(x) => !IsWhole(x)
    case Arr(a) => forall i :: 0 <= i < |a| ==> Normal(a[i])
    case Obj(m) => forall k :: k in m ==> Normal(m[k])
    case _ => true
  }

  /** Integer fields hold 64 bits. */
  predicate IntsFit(v: Json)
  {
    match v
    case Int(n) => IsInt64(n)
    case Arr(a) => forall i :: 0 <= i < |a| ==> IntsFit(a[i])
    case Obj(m) => forall k :: k in m ==> IntsFit(m[k])
    case _ => true
  }

  lemma {:induction false} SameIsReflexive(v: Json)
    ensures SameValue(v, v)
  {
    match v
    case Arr(a) => forall i | 0 <= i < |a| { SameIsReflexive(a[i]); }
    case Obj(m) => forall k | k in m ensures SameValue(m[k], m[k]) { SameIsReflexive(m[k]); }
    case _ =>
  }

  lemma {:induction false} SameIsSymmetric(a: Json, b: Json)
    requires SameValue(a, b)
    ensures SameValue(b, a)
  {
    match a
    case Arr(xs) => forall i | 0 <= i < |xs| ensures SameValue(b.items[i], xs[i]) { SameIsSymmetric(xs[i], b.items[i]); }
    case Obj(m) => forall k | k in m ensures SameValue(b.fields[k], m[k]) { SameIsSymmetric(m[k], b.fields[k]); }
    case _ =>
  }

  lemma {:induction false} SameIsTransitive(a: Json, b: Json, c: Json)
    requires SameValue(a, b) && SameValue(b, c)
    ensures SameValue(a, c)
  {
    match a
    case Arr(xs) =>
      forall i | 0 <= i < |xs| ensures SameValue(xs[i], c.items[i]) { SameIsTransitive(xs[i], b.items[i], c.items[i]); }
    case Obj(m) =>
      forall k | k in m ensures SameValue(m[k], c.fields[k]) { SameIsTransitive(m[k], b.fields[k], c.fields[k]); }
    case _ =>
  }

  /** Normalising changes no value, whole or not. */
  lemma {:induction false} NormalizeKeepsValue(v: Json)
    ensures SameValue(v, Normalize(v))
  {
    match v
    case Arr(a) => forall i | 0 <= i < |a| { NormalizeKeepsValue(a[i]); }
    case Obj(m) => forall k | k in m ensures SameValue(m[k], Normalize(m[k])) { NormalizeKeepsValue(m[k]); }
    case _ =>
  }

  lemma {:induction false} RecodeKeepsValue(v: Json)
    ensures SameValue(v, Recode(v))
  {
    match v
    case Arr(a) => forall i | 0 <= i < |a| { RecodeKeepsValue(a[i]); }
    case Obj(m) => forall k | k in m ensures SameValue(m[k], Recode(m[k])) { RecodeKeepsValue(m[k]); }
    case _ =>
  }

  lemma {:induction false} NormalizeIsNormal(v: Json)
    requires IntsFit(v)
    ensures Normal(Normalize(v))
  {
    match v
    case Float(x) => if IsWhole(x) { WholeIsItsFloor(x); }
    case Arr(a) => forall i | 0 <= i < |a| { NormalizeIsNormal(a[i]); }
    case Obj(m) => forall k | k in m ensures Normal(Normalize(m[k])) { NormalizeIsNormal(m[k]); }
    case _ =>
  }

  lemma WholeIsItsFloor(x: real)
    requires IsWhole(x)
    ensures x == x.Floor as real && IsInt64(x.Floor)
  {
  }

  /** Two normal values that are the same are equal. */
  lemma {:induction false} SameNormalIsEqual(a: Json, b: Json)
    requires SameValue(a, b) && Normal(a) && Normal(b)
    ensures a == b
  {
    match a
    case Arr(xs) => forall i | 0 <= i < |xs| ensures xs[i] == b.items[i] { SameNormalIsEqual(xs[i], b.items[i]); }
    case Obj(m) => forall k | k in m ensures m[k] == b.fields[k] { SameNormalIsEqual(m[k], b.fields[k]); }
    case _ =>
  }

  /** Normalising is the one way to hold the same value with every whole number an integer
      and every other one not. */
  lemma NormalizeExactly(v: Json, r: Json)
    requires IntsFit(v)
    ensures r == Normalize(v) <==> SameValue(v, r) && Normal(r)
  {
    NormalizeKeepsValue(v);
    NormalizeIsNormal(v);
    if SameValue(v, r) && Normal(r) {
      SameIsSymmetric(v, r);
      SameIsTransitive(r, v, Normalize(v));
      SameNormalIsEqual(r, Normalize(v));
    }
  }

  /** JSON text tells two values apart exactly when they are not the same. */
  lemma {:induction false} RecodeExactly(a: Json, b: Json)
    ensures Recode(a) == Recode(b) <==> SameValue(a, b)
  {
    match a
    case Arr(xs) =>
      if b.Arr? && |xs| == |b.items| {
        forall i | 0 <= i < |xs| ensures Recode(xs[i]) == Recode(b.items[i]) <==> SameValue(xs[i], b.items[i]) {
          RecodeExactly(xs[i], b.items[i]);
        }
        ArraysRecode(xs, b.items);
      } else if b.Arr? {
        assert |Recode(a).items| == |xs| && |Recode(b).items| == |b.items|;
      }
    case Obj(m) =>
      if b.Obj? && m.Keys == b.fields.Keys {
        forall k | k in m ensures Recode(m[k]) == Recode(b.fields[k]) <==> SameValue(m[k], b.fields[k]) {
          RecodeExactly(m[k], b.fields[k]);
        }
        ObjectsRecode(m, b.fields);
      } else if b.Obj? {
        assert Recode(a).fields.Keys == m.Keys && Recode(b).fields.Keys == b.fields.Keys;
      }
    case _ =>
  }

  lemma ArraysRecode(xs: seq<Json>, ys: seq<Json>)
    requires |xs| == |ys|
    ensures Recode(Arr(xs)) == Recode(Arr(ys)) <==> forall i :: 0 <= i < |xs| ==> Recode(xs[i]) == Recode(ys[i])
  {
    forall i | 0 <= i < |xs| ensures Recode(Arr(xs)).items[i] == Recode(xs[i]) && Recode(Arr(ys)).items[i] == Recode(ys[i]) {
    }
  }

  lemma ObjectsRecode(m: map<string, Json>, n: map<string, Json>)
    requires m.Keys == n.Keys
    ensures Recode(Obj(m)) == Recode(Obj(n)) <==> forall k :: k in m ==> Recode(m[k]) == Recode(n[k])
  {
    forall k | k in m ensures Recode(Obj(m)).fields[k] == Recode(m[k]) && Recode(Obj(n)).fields[k] == Recode(n[k]) {
    }
  }

  /** Normalising does not show in JSON text. */
  lemma RecodeOfNormalized(v: Json)
    ensures Recode(Normalize(v)) == Recode(v)
  {
    NormalizeKeepsValue(v);
    RecodeExactly(v, Normalize(v));
  }

  lemma {:induction false} RecodeHasNoInts(v: Json)
    ensures IntsFit(Recode(v))
  {
    match v
    case Arr(a) => forall i | 0 <= i < |a| { RecodeHasNoInts(a[i]); }
    case Obj(m) => forall k | k in m ensures IntsFit(Recode(m[k])) { RecodeHasNoInts(m[k]); }
    case _ =>
  }

  /** The value given back after it was stored as JSON text: the same value, and written as
      the controller writes values. */
  ghost predicate Returned(v: Json, w: Json) {
    SameValue(v, w) && Normal(w)
  }

  lemma RecodedIsReturned(v: Json)
    ensures Returned(v, Normalize(Recode(v)))
  {
    RecodeKeepsValue(v);
    NormalizeKeepsValue(Recode(v));
    SameIsTransitive(v, Recode(v), Normalize(Recode(v)));
    RecodeHasNoInts(v);
    NormalizeIsNormal(Recode(v));
  }

  /** Storing a value as JSON text loses nothing that normalisation does not, and that is
      nothing but whether a whole number is an integer. */
  lemma {:induction false} NormalizeAfterRecode(v: Json)
    requires ExactNumbers(v)
    ensures Normalize(Recode(v)) == Normalize(v) && Returned(v, Normalize(v))
  {
    RecodedIsReturned(v);
    match v
    case Arr(a) =>
      forall i | 0 <= i < |a| { NormalizeAfterRecode(a[i]); }
    case Obj(m) =>
      forall k | k in m ensures Normalize(Recode(m[k])) == Normalize(m[k]) { NormalizeAfterRecode(m[k]); }
    case _ =>
  }
}
