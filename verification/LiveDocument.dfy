// The document as the controller edits it: one field replaced by another value, through a
// cursor that walks down one token at a time and stores the changed containers back.
module LiveDocument {
  import opened Wrappers
  import opened Json
  import opened Document
  import opened Ordering
  import Decimal

  class LiveDocument {
    var root: Json

    constructor (document: Json)
      ensures root == document
    {
      root := document;
    }

    /** jsonpointer.GetValue */
    method GetValue(tokens: Path) returns (found: Option<Json>)
      ensures found == Get(root, tokens)
    {
      var node := root;
      for i := 0 to |tokens|
        invariant Get(root, tokens) == Get(node, tokens[i..])
      {
        var token := tokens[i];
        assert tokens[i..][1..] == tokens[i + 1..];
        match node
        case Obj(m) =>
          if token !in m { return None; }
          node := m[token];
        case Arr(a) =>
          var index := Decimal.Atoi(token);
          if index.None? || index.value < 0 || index.value >= |a| { return None; }
          node := a[index.value];
        case _ => return None;
      }
      return Some(node);
    }

    /** jsonpointer.SetValue. The cursor walks down to the leaf's container, creating what
        is missing; the leaf is written, and the containers it was reached through are
        stored back from the inside out. A failed write leaves the document as it was. */
    method SetValue(tokens: Path, value: Json) returns (ok: bool)
      modifies this
      ensures ok <==> tokens != [] && Put(old(root), tokens, value).Some?
      ensures root == if ok then Put(old(root), tokens, value).value else old(root)
    {
      if tokens == [] { return false; }
      var n := |tokens| - 1;
      var node := root;
      var containers: seq<Json> := [];
      for i := 0 to n
        invariant |containers| == i
        invariant unchanged(this)
        invariant Put(root, tokens, value) == StoredBack(containers, tokens, Put(node, tokens[i..], value))
      {
        var token := tokens[i];
        assert tokens[i..][1..] == tokens[i + 1..];
        containers := containers + [node];
        match node
        case Obj(m) =>
          node := if token !in m || m[token].Null? then Obj(map[]) else m[token];
        case Arr(a) =>
          var index := Decimal.Atoi(token);
          if index.None? || index.value < 0 || index.value >= |a| { return false; }
          node := a[index.value];
        case _ => return false;
      }
      var leaf := tokens[n];
      assert tokens[n..][1..] == [];
      match node {
        case Obj(m) =>
          node := Obj(m[leaf := value]);
        case Arr(a) =>
          var index := Decimal.Atoi(leaf);
          if index.None? || index.value < 0 || index.value >= |a| { return false; }
          node := Arr(a[index.value := value]);
        case _ => return false;
      }
      root := StoreBack(containers, tokens, node);
      return true;
    }

    /** jsonpointer.DeleteValue. The parent without the leaf takes the parent's place. */
    method DeleteValue(tokens: Path) returns (ok: bool)
      modifies this
      ensures ok <==> tokens != [] && Remove(old(root), tokens).Some?
      ensures root == if ok then Remove(old(root), tokens).value else old(root)
    {
      if tokens == [] { return false; }
      var front, leaf := tokens[..|tokens| - 1], tokens[|tokens| - 1];
      var parent := GetValue(front);
      RemoveByParent(root, tokens);
      if parent.None? { return true; }
      match parent.value
      case Obj(m) =>
        var without := Obj(m - {leaf});
        if front == [] {
          root := without;
        } else {
          var stored := SetValue(front, without);
        }
        return true;
      case Arr(_) => return true;
      case _ => return false;
    }

    /** jsonpointer.Expand */
    method ExpandPattern(pattern: Path) returns (out: seq<Path>)
      ensures out == Expand(root, pattern)
    {
      out := WalkPointer(root, pattern, [], []);
      var paths := Expand(root, pattern);
      assert forall i :: 0 <= i < |paths| ==> [] + paths[i] == paths[i];
      assert Prefixed([], paths) == paths;
    }
  }

  /** The container with the child at the token. */
  function WithChild(container: Json, token: string, child: Json): Json {
    match container
    case Obj(m) => Obj(m[token := child])
    case Arr(a) => if Slot(token, |a|).Some? then Arr(a[Slot(token, |a|).value := child]) else container
    case _ => container
  }

  /** The outermost container after a child was stored below the innermost one, None when
      there is no child to store. */
  function StoredBack(containers: seq<Json>, tokens: Path, child: Option<Json>): Option<Json>
    requires |containers| <= |tokens|
  {
    if child.None? || containers == [] then child
    else
      var last := |containers| - 1;
      StoredBack(containers[..last], tokens, Some(WithChild(containers[last], tokens[last], child.value)))
  }

  method StoreBack(containers: seq<Json>, tokens: Path, child: Json) returns (outermost: Json)
    requires |containers| <= |tokens|
    ensures Some(outermost) == StoredBack(containers, tokens, Some(child))
  {
    outermost := child;
    var i := |containers|;
    assert containers[..i] == containers;
    while i > 0
      invariant 0 <= i <= |containers|
      invariant StoredBack(containers[..i], tokens, Some(outermost)) == StoredBack(containers, tokens, Some(child))
    {
      i := i - 1;
      assert containers[..i + 1][..i] == containers[..i];
      match containers[i] {
        case Obj(m) => outermost := Obj(m[tokens[i] := outermost]);
        case Arr(a) =>
          var index := Decimal.Atoi(tokens[i]);
          outermost := if index.Some? && 0 <= index.value < |a| then Arr(a[index.value := outermost]) else containers[i];
        case _ => outermost := containers[i];
      }
    }
  }

  /** Appends every path below the node to out, each behind the prefix walked so far. */
  method WalkPointer(node: Json, tokens: Path, prefix: Path, out: seq<Path>) returns (grown: seq<Path>)
    ensures grown == out + Prefixed(prefix, Expand(node, tokens))
    decreases |tokens|, 0
  {
    if tokens == [] {
      assert prefix + [] == prefix && Prefixed(prefix, [[]]) == [prefix];
      return out + [prefix];
    }
    var token, rest := tokens[0], tokens[1..];
    match node
    case Obj(m) =>
      if token == WILDCARD {
        grown := WalkKeys(m, rest, prefix, out);
      } else if token !in m {
        grown := if WILDCARD !in rest then out + [prefix + tokens] else out;
      } else {
        grown := WalkPointer(m[token], rest, prefix + [token], out);
        PrefixedPrefix(prefix, token, Expand(m[token], rest));
      }
    case Arr(a) =>
      if token == WILDCARD {
        grown := WalkSlots(a, rest, prefix, out);
      } else {
        var index := Decimal.Atoi(token);
        if index.None? || index.value < 0 || index.value >= |a| { return out; }
        grown := WalkPointer(a[index.value], rest, prefix + [token], out);
        PrefixedPrefix(prefix, token, Expand(a[index.value], rest));
      }
    case _ => grown := out;
  }

  /** The wildcard case over an object, key by key in sorted order. */
  method WalkKeys(m: map<string, Json>, rest: Path, prefix: Path, out: seq<Path>) returns (grown: seq<Path>)
    ensures grown == out + Prefixed(prefix, ExpandKeys(m, SortedKeys(m.Keys), rest))
    decreases |rest|, 1
  {
    var keys := SortedKeys(m.Keys);
    grown := out;
    for i := 0 to |keys|
      invariant grown + Prefixed(prefix, ExpandKeys(m, keys[i..], rest)) == out + Prefixed(prefix, ExpandKeys(m, keys, rest))
    {
      ghost var here, later := Expand(m[keys[i]], rest), ExpandKeys(m, keys[i + 1..], rest);
      assert keys[i..][1..] == keys[i + 1..];
      WalkStep(grown, prefix, keys[i], here, later);
      grown := WalkPointer(m[keys[i]], rest, prefix + [keys[i]], grown);
    }
    assert keys[|keys|..] == [];
  }

  /** The wildcard case over an array, element by element. */
  method WalkSlots(a: seq<Json>, rest: Path, prefix: Path, out: seq<Path>) returns (grown: seq<Path>)
    ensures grown == out + Prefixed(prefix, ExpandSlots(a, 0, rest))
    decreases |rest|, 1
  {
    grown := out;
    for i := 0 to |a|
      invariant grown + Prefixed(prefix, ExpandSlots(a, i, rest)) == out + Prefixed(prefix, ExpandSlots(a, 0, rest))
    {
      ghost var here, later := Expand(a[i], rest), ExpandSlots(a, i + 1, rest);
      WalkStep(grown, prefix, Decimal.Itoa(i), here, later);
      grown := WalkPointer(a[i], rest, prefix + [Decimal.Itoa(i)], grown);
    }
  }

  /** The paths below one child can be appended before those of the later children. */
  lemma WalkStep(out: seq<Path>, prefix: Path, t: string, here: seq<Path>, later: seq<Path>)
    ensures out + Prefixed(prefix, Prefix(t, here) + later) ==
            (out + Prefixed(prefix + [t], here)) + Prefixed(prefix, later)
  {
    PrefixedPrefix(prefix, t, here);
    assert Prefixed(prefix, Prefix(t, here) + later) == Prefixed(prefix, Prefix(t, here)) + Prefixed(prefix, later);
  }

  function Prefixed(prefix: Path, paths: seq<Path>): (r: seq<Path>)
    ensures |r| == |paths|
  {
    seq(|paths|, i requires 0 <= i < |paths| => prefix + paths[i])
  }

  lemma PrefixedPrefix(prefix: Path, t: string, here: seq<Path>)
    ensures Prefixed(prefix + [t], here) == Prefixed(prefix, Prefix(t, here))
  {
    assert forall i :: 0 <= i < |here| ==> (prefix + [t]) + here[i] == prefix + ([t] + here[i]);
  }

  lemma {:induction false} GetAppend(d: Json, p: Path, q: Path)
    ensures Get(d, p + q) == (if Get(d, p).Some? then Get(Get(d, p).value, q) else None)
    decreases |p|
  {
    if p == [] {
      assert p + q == q;
    } else {
      assert (p + q)[1..] == p[1..] + q;
      match d
      case Obj(m) => if p[0] in m { GetAppend(m[p[0]], p[1..], q); }
      case Arr(a) => if Slot(p[0], |a|).Some? { GetAppend(a[Slot(p[0], |a|).value], p[1..], q); }
      case _ =>
    }
  }

  /** Deleting looks only at the parent: nothing without one, a key of an object. What is
      left of the parent then takes its place. */
  lemma {:induction false} RemoveByParent(d: Json, p: Path)
    requires p != []
    ensures var parent := Get(d, p[..|p| - 1]);
            (parent.None? ==> Remove(d, p) == Some(d)) &&
            (parent.Some? && parent.value.Arr? ==> Remove(d, p) == Some(d)) &&
            (parent.Some? && !parent.value.Arr? ==> (Remove(d, p).Some? <==> parent.value.Obj?)) &&
            (parent.Some? && parent.value.Obj? ==>
               Remove(d, p) == Put(d, p[..|p| - 1], Obj(parent.value.fields - {p[|p| - 1]})))
    decreases |p|
  {
    var front := p[..|p| - 1];
    if |p| > 1 {
      assert front[0] == p[0] && front[1..] == p[1..][..|p| - 2];
      match d
      case Obj(m) =>
        if p[0] in m {
          RemoveByParent(m[p[0]], p[1..]);
          assert m[p[0] := m[p[0]]] == m;
        }
      case Arr(a) =>
        if Slot(p[0], |a|).Some? {
          var i := Slot(p[0], |a|).value;
          RemoveByParent(a[i], p[1..]);
          assert a[i := a[i]] == a;
        }
      case _ =>
    } else {
      assert front == [];
    }
  }
}
