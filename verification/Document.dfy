// The JSON document a custom resource is, addressed by concrete token paths: reading,
// writing and deleting one field, and expanding a pattern with wildcards.
module Document {
  import opened Wrappers
  import opened Json
  import opened Ordering
  import Decimal

  type Path = seq<string>

  const WILDCARD: string := "*"

  // ---- specification --------------------------------------------------------------

  /** The array slot a token names, None when it is no index into n elements. */
  function Slot(token: string, n: nat): (r: Option<nat>)
    ensures r.Some? ==> r.value < n
  {
    match Decimal.Atoi(token)
    case Some(i) => if 0 <= i < n then Some(i) else None
    case None => None
  }

  /** The value at a path, None when the field is absent. */
  function Get(d: Json, p: Path): (r: Option<Json>)
  {
    if p == [] then Some(d)
    else
      match d
      case Obj(m) => if p[0] in m then Get(m[p[0]], p[1..]) else None
      case Arr(a) =>
        var slot := Slot(p[0], |a|);
        if slot.Some? then Get(a[slot.value], p[1..]) else None
      case _ => None
  }

  /** What a write descends into below key t: an absent or null child becomes an object. */
  function ChildToWrite(m: map<string, Json>, t: string): Json {
    if t in m && !m[t].Null? then m[t] else Obj(map[])
  }

  /** The document after writing v at p, None when the write fails. */
  function Put(d: Json, p: Path, v: Json): (r: Option<Json>)
    decreases |p|
  {
    if p == [] then Some(v)
    else
      match d
      case Obj(m) =>
        var child := Put(ChildToWrite(m, p[0]), p[1..], v);
        if child.Some? then Some(Obj(m[p[0] := child.value])) else None
      case Arr(a) =>
        var slot := Slot(p[0], |a|);
        if slot.None? then None
        else
          var child := Put(a[slot.value], p[1..], v);
          if child.Some? then Some(Arr(a[slot.value := child.value])) else None
      case _ => None
  }

  /** The document after deleting the field at p, None when the delete fails. A missing
      field, and an array element, are left alone. */
  function Remove(d: Json, p: Path): (r: Option<Json>)
    requires p != []
  {
    if |p| == 1 then
      match d
      case Obj(m) => Some(Obj(m - {p[0]}))
      case Arr(_) => Some(d)
      case _ => None
    else
      match d
      case Obj(m) =>
        if p[0] !in m then Some(d)
        else
          var child := Remove(m[p[0]], p[1..]);
          if child.Some? then Some(Obj(m[p[0] := child.value])) else None
      case Arr(a) =>
        var slot := Slot(p[0], |a|);
        if slot.None? then Some(d)
        else
          var child := Remove(a[slot.value], p[1..]);
          if child.Some? then Some(Arr(a[slot.value := child.value])) else None
      case _ => Some(d)
  }

  function Prefix(t: string, paths: seq<Path>): (r: seq<Path>)
    ensures |r| == |paths|
    ensures forall i :: 0 <= i < |r| ==> r[i] == [t] + paths[i]
  {
    seq(|paths|, i requires 0 <= i < |paths| => [t] + paths[i])
  }

  /** Every concrete path a pattern matches, in the order the document is walked. */
  function Expand(d: Json, pattern: Path): (paths: seq<Path>)
    decreases |pattern|, 0, 0
  {
    if pattern == [] then [[]]
    else
      match d
      case Obj(m) =>
        if pattern[0] == WILDCARD then ExpandKeys(m, SortedKeys(m.Keys), pattern[1..])
        else if pattern[0] in m then Prefix(pattern[0], Expand(m[pattern[0]], pattern[1..]))
        else if WILDCARD !in pattern[1..] then [pattern]
        else []
      case Arr(a) =>
        if pattern[0] == WILDCARD then ExpandSlots(a, 0, pattern[1..])
        else
          var slot := Slot(pattern[0], |a|);
          if slot.Some? then Prefix(pattern[0], Expand(a[slot.value], pattern[1..])) else []
      case _ => []
  }

  function ExpandKeys(m: map<string, Json>, keys: seq<string>, rest: Path): (paths: seq<Path>)
    requires forall k :: k in keys ==> k in m
    decreases |rest|, 1, |keys|
  {
    if keys == [] then []
    else Prefix(keys[0], Expand(m[keys[0]], rest)) + ExpandKeys(m, keys[1..], rest)
  }

  function ExpandSlots(a: seq<Json>, i: nat, rest: Path): (paths: seq<Path>)
    requires i <= |a|
    decreases |rest|, 1, |a| - i
  {
    if i == |a| then []
    else Prefix(Decimal.Itoa(i), Expand(a[i], rest)) + ExpandSlots(a, i + 1, rest)
  }

  // ---- which paths a write lands on, and which it leaves alone ------------------------

  /** The path resolves completely, or down to an object that lacks its next key. */
  predicate Reachable(d: Json, p: Path)
  {
    p == [] ||
    match d
    case Obj(m) => p[0] in m ==> Reachable(m[p[0]], p[1..])
    case Arr(a) => Slot(p[0], |a|).Some? && Reachable(a[Slot(p[0], |a|).value], p[1..])
    case _ => false
  }

  /** Two paths part ways in d: at some object they take different keys, or at some
      array different elements. Below a field d does not hold, everything is an object. */
  predicate Apart(d: Json, p: Path, q: Path)
    decreases |p|
  {
    p != [] && q != [] &&
    match d
    case Arr(a) =>
      var i, j := Slot(p[0], |a|), Slot(q[0], |a|);
      i != j || (i.Some? && Apart(a[i.value], p[1..], q[1..]))
    case Obj(m) => p[0] != q[0] || Apart(ChildToWrite(m, p[0]), p[1..], q[1..])
    case _ => p[0] != q[0] || Apart(Obj(map[]), p[1..], q[1..])
  }

  lemma {:induction false} ApartSymmetric(d: Json, p: Path, q: Path)
    requires Apart(d, p, q)
    ensures Apart(d, q, p)
    decreases |p|
  {
    match d
    case Arr(a) =>
      var i := Slot(p[0], |a|);
      if i == Slot(q[0], |a|) { ApartSymmetric(a[i.value], p[1..], q[1..]); }
    case Obj(m) =>
      if p[0] == q[0] { ApartSymmetric(ChildToWrite(m, p[0]), p[1..], q[1..]); }
    case _ =>
      if p[0] == q[0] { ApartSymmetric(Obj(map[]), p[1..], q[1..]); }
  }

  /** A value just written is what is read back. */
  lemma {:induction false} GetPut(d: Json, p: Path, v: Json)
    requires Put(d, p, v).Some?
    ensures Get(Put(d, p, v).value, p) == Some(v)
    decreases |p|
  {
    if p != [] {
      match d
      case Obj(m) => GetPut(ChildToWrite(m, p[0]), p[1..], v);
      case Arr(a) => GetPut(a[Slot(p[0], |a|).value], p[1..], v);
    }
  }

  /** A write changes nothing that is read through a path parting from it. */
  lemma {:induction false} PutFrame(d: Json, p: Path, v: Json, q: Path)
    requires Put(d, p, v).Some? && Apart(d, p, q)
    ensures Get(Put(d, p, v).value, q) == Get(d, q)
    decreases |p|
  {
    match d
    case Obj(m) =>
      if p[0] == q[0] {
        PutFrame(ChildToWrite(m, p[0]), p[1..], v, q[1..]);
        assert q[1..] != [];
      }
    case Arr(a) =>
      var i := Slot(p[0], |a|);
      if i == Slot(q[0], |a|) { PutFrame(a[i.value], p[1..], v, q[1..]); }
  }

  /** A delete changes nothing that is read through a path parting from it. */
  lemma {:induction false} RemoveFrame(d: Json, p: Path, q: Path)
    requires p != [] && Remove(d, p).Some? && Apart(d, p, q)
    ensures Get(Remove(d, p).value, q) == Get(d, q)
    decreases |p|
  {
    match d
    case Obj(m) =>
      if p[0] == q[0] && p[0] in m && |p| > 1 {
        if m[p[0]].Null? { NullApart(p[1..], q[1..]); }
        RemoveFrame(m[p[0]], p[1..], q[1..]);
      }
    case Arr(a) =>
      var i := Slot(p[0], |a|);
      if i == Slot(q[0], |a|) && |p| > 1 { RemoveFrame(a[i.value], p[1..], q[1..]); }
    case _ =>
  }

  lemma NullApart(p: Path, q: Path)
    requires Apart(Obj(map[]), p, q)
    ensures Apart(Null, p, q)
  {
  }

  /** Writing at a reachable path always succeeds. */
  lemma {:induction false} ReachablePut(d: Json, p: Path, v: Json)
    requires Reachable(d, p)
    ensures Put(d, p, v).Some?
    decreases |p|
  {
    if p != [] {
      match d
      case Obj(m) =>
        if p[0] in m && m[p[0]].Null? {
          EmptyReachable(p[1..]);
        } else if p[0] !in m {
          EmptyReachable(p[1..]);
        }
        ReachablePut(ChildToWrite(m, p[0]), p[1..], v);
      case Arr(a) => ReachablePut(a[Slot(p[0], |a|).value], p[1..], v);
    }
  }

  lemma EmptyReachable(p: Path)
    ensures Reachable(Obj(map[]), p)
  {
  }

  /** A reachable path whose field is absent ends under an object, or under something
      the write will create, never in an array. */
  lemma {:induction false} AbsentEndsUnderObject(d: Json, p: Path)
    requires p != [] && Reachable(d, p) && Get(d, p).None?
    ensures var parent := Get(d, p[..|p| - 1]); parent.Some? ==> parent.value.Obj? && p[|p| - 1] !in parent.value.fields
    decreases |p|
  {
    if |p| > 1 {
      assert p[..|p| - 1][0] == p[0] && p[..|p| - 1][1..] == p[1..][..|p| - 2];
      match d
      case Obj(m) =>
        if p[0] in m { AbsentEndsUnderObject(m[p[0]], p[1..]); }
      case Arr(a) => AbsentEndsUnderObject(a[Slot(p[0], |a|).value], p[1..]);
    } else {
      assert p[..0] == [];
    }
  }

  // ---- expansion ------------------------------------------------------------------------

  /** The path fits the pattern: same length, literal segments equal. */
  predicate Fits(pattern: Path, p: Path) {
    |p| == |pattern| && forall i :: 0 <= i < |p| ==> pattern[i] == WILDCARD || p[i] == pattern[i]
  }

  /** Each wildcard segment of the path names a field that exists, an array element by
      its canonical index. */
  predicate WildcardsResolve(d: Json, pattern: Path, p: Path)
  {
    p == [] || pattern == [] ||
    match d
    case Obj(m) =>
      if p[0] in m then WildcardsResolve(m[p[0]], pattern[1..], p[1..])
      else WILDCARD !in pattern
    case Arr(a) =>
      var slot := Slot(p[0], |a|);
      slot.Some? &&
      (pattern[0] == WILDCARD ==> p[0] == Decimal.Itoa(slot.value)) &&
      WildcardsResolve(a[slot.value], pattern[1..], p[1..])
    case _ => true
  }

  lemma InPrefix(t: string, paths: seq<Path>, p: Path)
    ensures p in Prefix(t, paths) <==> p != [] && p[0] == t && p[1..] in paths
  {
    if p != [] && p[0] == t && p[1..] in paths {
      var i :| 0 <= i < |paths| && paths[i] == p[1..];
      assert Prefix(t, paths)[i] == [t] + p[1..] == p;
    }
  }

  /** Expansion returns exactly the paths that fit the pattern, can be written, and
      whose wildcards name existing fields. */
  lemma {:induction false} ExpandExact(d: Json, pattern: Path, p: Path)
    ensures p in Expand(d, pattern) <==>
            Fits(pattern, p) && Reachable(d, p) && WildcardsResolve(d, pattern, p)
    decreases |pattern|, 0, 0
  {
    if pattern == [] {
    } else {
      match d
      case Obj(m) =>
        if pattern[0] == WILDCARD {
          ExpandKeysExact(m, SortedKeys(m.Keys), pattern[1..], p);
          assert WILDCARD in pattern;
        } else if pattern[0] in m {
          InPrefix(pattern[0], Expand(m[pattern[0]], pattern[1..]), p);
          if p != [] { ExpandExact(m[pattern[0]], pattern[1..], p[1..]); }
        } else {
          assert WILDCARD in pattern <==> WILDCARD in pattern[1..];
          if WILDCARD !in pattern && Fits(pattern, p) { FitsLiteral(pattern, p); }
        }
        FitsStep(pattern, p);
      case Arr(a) =>
        FitsStep(pattern, p);
        if pattern[0] == WILDCARD {
          ExpandSlotsExact(a, 0, pattern[1..], p);
        } else {
          var slot := Slot(pattern[0], |a|);
          if slot.Some? {
            InPrefix(pattern[0], Expand(a[slot.value], pattern[1..]), p);
            if p != [] { ExpandExact(a[slot.value], pattern[1..], p[1..]); }
          }
        }
      case _ =>
    }
  }

  lemma FitsStep(pattern: Path, p: Path)
    requires pattern != []
    ensures Fits(pattern, p) <==>
            p != [] && (pattern[0] == WILDCARD || p[0] == pattern[0]) && Fits(pattern[1..], p[1..])
  {
    if p != [] && (pattern[0] == WILDCARD || p[0] == pattern[0]) && Fits(pattern[1..], p[1..]) {
      forall i | 0 <= i < |p| ensures pattern[i] == WILDCARD || p[i] == pattern[i] {
        if i > 0 {
          assert pattern[1..][i - 1] == pattern[i] && p[1..][i - 1] == p[i];
        }
      }
    }
  }

  lemma FitsLiteral(pattern: Path, p: Path)
    requires Fits(pattern, p) && WILDCARD !in pattern
    ensures p == pattern
  {
    forall i | 0 <= i < |p| ensures p[i] == pattern[i] {
      assert pattern[i] in pattern;
    }
  }

  lemma {:induction false} ExpandKeysExact(m: map<string, Json>, keys: seq<string>, rest: Path, p: Path)
    requires forall k :: k in keys ==> k in m
    ensures p in ExpandKeys(m, keys, rest) <==>
            p != [] && p[0] in keys && Fits(rest, p[1..]) &&
            Reachable(m[p[0]], p[1..]) && WildcardsResolve(m[p[0]], rest, p[1..])
    decreases |rest|, 1, |keys|
  {
    if keys != [] {
      InPrefix(keys[0], Expand(m[keys[0]], rest), p);
      ExpandKeysExact(m, keys[1..], rest, p);
      if p != [] && p[0] == keys[0] { ExpandExact(m[keys[0]], rest, p[1..]); }
    }
  }

  /** The path goes through an element from slot i on, named canonically, and fits the
      rest of the pattern below it. */
  predicate FitsFrom(a: seq<Json>, i: nat, rest: Path, p: Path) {
    p != [] &&
    var slot := Slot(p[0], |a|);
    slot.Some? && i <= slot.value && p[0] == Decimal.Itoa(slot.value) &&
    Fits(rest, p[1..]) && Reachable(a[slot.value], p[1..]) && WildcardsResolve(a[slot.value], rest, p[1..])
  }

  lemma {:induction false} ExpandSlotsExact(a: seq<Json>, i: nat, rest: Path, p: Path)
    requires i <= |a|
    ensures p in ExpandSlots(a, i, rest) <==> FitsFrom(a, i, rest, p)
    decreases |rest|, 1, |a| - i
  {
    if i < |a| {
      var here := Prefix(Decimal.Itoa(i), Expand(a[i], rest));
      InPrefix(Decimal.Itoa(i), Expand(a[i], rest), p);
      ExpandSlotsExact(a, i + 1, rest, p);
      assert p in ExpandSlots(a, i, rest) <==> p in here || FitsFrom(a, i + 1, rest, p);
      Decimal.AtoiInvertsItoa(i);
      assert Slot(Decimal.Itoa(i), |a|) == Some(i);
      if p != [] && p[0] == Decimal.Itoa(i) { ExpandExact(a[i], rest, p[1..]); }
    }
  }

  predicate Distinct(paths: seq<Path>) {
    forall i, j :: 0 <= i < j < |paths| ==> paths[i] != paths[j]
  }

  /** Every path is returned once. */
  lemma {:induction false} ExpandDistinct(d: Json, pattern: Path)
    ensures Distinct(Expand(d, pattern))
    decreases |pattern|, 0, 0
  {
    if pattern != [] {
      match d
      case Obj(m) =>
        if pattern[0] == WILDCARD {
          ExpandKeysDistinct(m, SortedKeys(m.Keys), pattern[1..]);
        } else if pattern[0] in m {
          ExpandDistinct(m[pattern[0]], pattern[1..]);
          PrefixDistinct(pattern[0], Expand(m[pattern[0]], pattern[1..]));
        }
      case Arr(a) =>
        if pattern[0] == WILDCARD {
          ExpandSlotsDistinct(a, 0, pattern[1..]);
        } else {
          var slot := Slot(pattern[0], |a|);
          if slot.Some? {
            ExpandDistinct(a[slot.value], pattern[1..]);
            PrefixDistinct(pattern[0], Expand(a[slot.value], pattern[1..]));
          }
        }
      case _ =>
    }
  }

  lemma PrefixDistinct(t: string, paths: seq<Path>)
    requires Distinct(paths)
    ensures Distinct(Prefix(t, paths))
  {
    forall i, j | 0 <= i < j < |paths| ensures Prefix(t, paths)[i] != Prefix(t, paths)[j] {
      assert Prefix(t, paths)[i][1..] == paths[i] && Prefix(t, paths)[j][1..] == paths[j];
    }
  }

  lemma DistinctAppend(a: seq<Path>, b: seq<Path>)
    requires Distinct(a) && Distinct(b) && forall p :: p in a ==> p !in b
    ensures Distinct(a + b)
  {
    forall i, j | 0 <= i < j < |a + b| ensures (a + b)[i] != (a + b)[j] {
      if i < |a| <= j {
        assert (a + b)[i] in a && (a + b)[j] == b[j - |a|] && b[j - |a|] in b;
      }
    }
  }

  lemma {:induction false} ExpandKeysDistinct(m: map<string, Json>, keys: seq<string>, rest: Path)
    requires forall k :: k in keys ==> k in m
    requires forall i, j :: 0 <= i < j < |keys| ==> keys[i] != keys[j]
    ensures Distinct(ExpandKeys(m, keys, rest))
    decreases |rest|, 1, |keys|
  {
    if keys != [] {
      var here := Prefix(keys[0], Expand(m[keys[0]], rest));
      var later := ExpandKeys(m, keys[1..], rest);
      ExpandDistinct(m[keys[0]], rest);
      PrefixDistinct(keys[0], Expand(m[keys[0]], rest));
      ExpandKeysDistinct(m, keys[1..], rest);
      forall p | p in here ensures p !in later { ExpandKeysExact(m, keys[1..], rest, p); }
      DistinctAppend(here, later);
    }
  }

  lemma {:induction false} ExpandSlotsDistinct(a: seq<Json>, i: nat, rest: Path)
    requires i <= |a|
    ensures Distinct(ExpandSlots(a, i, rest))
    decreases |rest|, 1, |a| - i
  {
    if i < |a| {
      var here := Prefix(Decimal.Itoa(i), Expand(a[i], rest));
      var later := ExpandSlots(a, i + 1, rest);
      ExpandDistinct(a[i], rest);
      PrefixDistinct(Decimal.Itoa(i), Expand(a[i], rest));
      ExpandSlotsDistinct(a, i + 1, rest);
      forall p | p in here ensures p !in later {
        ExpandSlotsExact(a, i + 1, rest, p);
        if p in later { Decimal.ItoaInjective(i, Slot(p[0], |a|).value); }
      }
      DistinctAppend(here, later);
    }
  }

  /** Two different paths of one expansion part ways in the document, so writing one
      never disturbs another. */
  lemma {:induction false} ExpandedApart(d: Json, pattern: Path, p: Path, q: Path)
    requires p in Expand(d, pattern) && q in Expand(d, pattern) && p != q
    ensures Apart(d, p, q)
  {
    ExpandExact(d, pattern, p);
    ExpandExact(d, pattern, q);
    ResolvedApart(d, pattern, p, q);
  }

  lemma {:induction false} ResolvedApart(d: Json, pattern: Path, p: Path, q: Path)
    requires Fits(pattern, p) && Reachable(d, p) && WildcardsResolve(d, pattern, p)
    requires Fits(pattern, q) && Reachable(d, q) && WildcardsResolve(d, pattern, q)
    requires p != q
    ensures Apart(d, p, q)
    decreases |pattern|
  {
    if pattern == [] {
      assert false;
    } else {
      FitsStep(pattern, p);
      FitsStep(pattern, q);
      if p[0] == q[0] {
        assert p[1..] != q[1..] by {
          assert p == [p[0]] + p[1..] && q == [q[0]] + q[1..];
        }
      }
      match d
      case Obj(m) =>
        if p[0] == q[0] {
          if p[0] in m {
            ResolvedApart(m[p[0]], pattern[1..], p[1..], q[1..]);
          } else {
            FitsLiteral(pattern, p);
            FitsLiteral(pattern, q);
            assert false;
          }
        }
      case Arr(a) =>
        if Slot(p[0], |a|) == Slot(q[0], |a|) {
          ResolvedApart(a[Slot(p[0], |a|).value], pattern[1..], p[1..], q[1..]);
        }
    }
  }

  /** Every expanded path can be written; the value is then read back, and every other
      path the document distinguishes from it reads as before. */
  lemma ExpandedWrite(d: Json, pattern: Path, p: Path, v: Json)
    requires p in Expand(d, pattern)
    ensures |p| == |pattern|
    ensures Put(d, p, v).Some?
    ensures Get(Put(d, p, v).value, p) == Some(v)
    ensures forall q :: Apart(d, p, q) ==> Get(Put(d, p, v).value, q) == Get(d, q)
    ensures p != [] && Get(d, p).None? ==>
              var parent := Get(d, p[..|p| - 1]); parent.Some? ==> parent.value.Obj?
  {
    ExpandExact(d, pattern, p);
    ReachablePut(d, p, v);
    GetPut(d, p, v);
    forall q | Apart(d, p, q) ensures Get(Put(d, p, v).value, q) == Get(d, q) {
      PutFrame(d, p, v, q);
    }
    if p != [] && Get(d, p).None? { AbsentEndsUnderObject(d, p); }
  }

  // ---- when a write or a removal succeeds ------------------------------------------------------

  /** Token i can be stepped over on the way down: its container is an object, an array it
      names a slot of, or missing; a null counts as missing below an object. */
  predicate StepsDown(d: Json, p: Path, i: nat)
    requires i < |p|
  {
    match Get(d, p[..i])
    case None => true
    case Some(Obj(_)) => true
    case Some(Arr(a)) => Slot(p[i], |a|).Some?
    case Some(Null) => i > 0 && Get(d, p[..i - 1]).Some? && Get(d, p[..i - 1]).value.Obj?
    case Some(_) => false
  }

  lemma StepsBelow(d: Json, child: Json, p: Path, i: nat)
    requires p != [] && i < |p[1..]|
    requires if d.Obj? then p[0] in d.fields && child == d.fields[p[0]] && !child.Null?
             else d.Arr? && Slot(p[0], |d.items|).Some? && child == d.items[Slot(p[0], |d.items|).value]
    ensures StepsDown(d, p, i + 1) <==> StepsDown(child, p[1..], i)
  {
    GetBelow(d, child, p, i);
    if i > 0 { GetBelow(d, child, p, i - 1); }
    assert p[..0] == [] && p[1..][..0] == [];
  }

  lemma GetBelow(d: Json, child: Json, p: Path, i: nat)
    requires p != [] && i <= |p[1..]|
    requires if d.Obj? then p[0] in d.fields && child == d.fields[p[0]]
             else d.Arr? && Slot(p[0], |d.items|).Some? && child == d.items[Slot(p[0], |d.items|).value]
    ensures Get(d, p[..i + 1]) == Get(child, p[1..][..i])
  {
    assert p[..i + 1][1..] == p[1..][..i];
  }

  /** A write succeeds if and only if every token can be stepped over. */
  lemma {:induction false} PutExactly(d: Json, p: Path, v: Json)
    ensures Put(d, p, v).Some? <==> forall i :: 0 <= i < |p| ==> StepsDown(d, p, i)
    decreases |p|
  {
    if p != [] {
      assert p[..0] == [];
      match d
      case Obj(m) =>
        if p[0] !in m || m[p[0]].Null? {
          PutBelowNothing(d, p, v);
        } else {
          PutExactly(m[p[0]], p[1..], v);
          StepsSame(d, m[p[0]], p);
        }
      case Arr(a) =>
        if Slot(p[0], |a|).Some? {
          PutExactly(a[Slot(p[0], |a|).value], p[1..], v);
          StepsSame(d, a[Slot(p[0], |a|).value], p);
        } else {
          assert !StepsDown(d, p, 0);
        }
      case _ => assert !StepsDown(d, p, 0);
    }
  }

  lemma StepsSame(d: Json, child: Json, p: Path)
    requires p != []
    requires if d.Obj? then p[0] in d.fields && child == d.fields[p[0]] && !child.Null?
             else d.Arr? && Slot(p[0], |d.items|).Some? && child == d.items[Slot(p[0], |d.items|).value]
    ensures (forall i :: 0 <= i < |p| ==> StepsDown(d, p, i)) <==> forall i :: 0 <= i < |p[1..]| ==> StepsDown(child, p[1..], i)
  {
    assert p[..0] == [] && StepsDown(d, p, 0);
    forall i | 0 <= i < |p[1..]| ensures StepsDown(d, p, i + 1) <==> StepsDown(child, p[1..], i) {
      StepsBelow(d, child, p, i);
    }
    if forall i :: 0 <= i < |p| ==> StepsDown(d, p, i) {
      forall i | 0 <= i < |p[1..]| ensures StepsDown(child, p[1..], i) { assert StepsDown(d, p, i + 1); }
    }
    if forall i :: 0 <= i < |p[1..]| ==> StepsDown(child, p[1..], i) {
      forall i | 0 <= i < |p| ensures StepsDown(d, p, i) {
        if i > 0 { assert StepsDown(child, p[1..], i - 1) && StepsDown(d, p, (i - 1) + 1); }
      }
    }
  }

  lemma BelowNothing(d: Json, q: Path)
    requires q != [] && d.Obj? && (q[0] !in d.fields || d.fields[q[0]].Null?)
    ensures Get(d, q).None? || (|q| == 1 && Get(d, q) == Some(Null))
  {
    assert |q| > 1 ==> q[1..] != [];
  }

  lemma PutBelowNothing(d: Json, p: Path, v: Json)
    requires p != [] && d.Obj? && (p[0] !in d.fields || d.fields[p[0]].Null?)
    ensures Put(d, p, v).Some? && forall i :: 0 <= i < |p| ==> StepsDown(d, p, i)
  {
    EmptyReachable(p[1..]);
    ReachablePut(Obj(map[]), p[1..], v);
    forall i | 0 <= i < |p| ensures StepsDown(d, p, i) {
      assert p[..0] == [];
      if i > 0 { BelowNothing(d, p[..i]); }
      if i == 1 { assert p[..i - 1] == []; }
    }
  }
}
