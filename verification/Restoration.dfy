// Overwriting fields of a document and putting them back. One relation between the
// original document and the current one carries the whole argument: which paths were
// captured, and which of those are still overwritten.
module Restoration {
  import opened Wrappers
  import opened Json
  import opened Document

  // ---- sets of paths seen from one level down -----------------------------------------

  ghost function Under(paths: set<Path>, t: string): set<Path> {
    set p | p in paths && p != [] && p[0] == t :: p[1..]
  }

  ghost function UnderSlot(paths: set<Path>, i: nat, n: nat): set<Path> {
    set p | p in paths && p != [] && Slot(p[0], n) == Some(i) :: p[1..]
  }

  lemma UnderPlus(paths: set<Path>, p: Path, t: string)
    requires p != []
    ensures Under(paths + {p}, t) == if p[0] == t then Under(paths, t) + {p[1..]} else Under(paths, t)
  {
    forall r | r in Under(paths, t) + {p[1..]} && p[0] == t ensures r in Under(paths + {p}, t) {
      if r == p[1..] {
        assert p in paths + {p};
      } else {
        var q :| q in paths && q != [] && q[0] == t && q[1..] == r;
        assert q in paths + {p};
      }
    }
    forall r | r in Under(paths, t) ensures r in Under(paths + {p}, t) {
      var q :| q in paths && q != [] && q[0] == t && q[1..] == r;
      assert q in paths + {p};
    }
  }

  lemma UnderMinus(paths: set<Path>, p: Path, t: string)
    requires p != []
    ensures Under(paths - {p}, t) == if p[0] == t then Under(paths, t) - {p[1..]} else Under(paths, t)
  {
    forall r | r in Under(paths, t) && (p[0] == t ==> r != p[1..]) ensures r in Under(paths - {p}, t) {
      var q :| q in paths && q != [] && q[0] == t && q[1..] == r;
      assert q in paths - {p};
    }
    forall r | r in Under(paths - {p}, t) ensures p[0] == t ==> r != p[1..] {
      var q :| q in paths - {p} && q != [] && q[0] == t && q[1..] == r;
      assert q == [t] + r && p == [p[0]] + p[1..];
    }
  }

  lemma UnderSlotPlus(paths: set<Path>, p: Path, i: nat, n: nat)
    requires p != []
    ensures UnderSlot(paths + {p}, i, n) ==
            if Slot(p[0], n) == Some(i) then UnderSlot(paths, i, n) + {p[1..]} else UnderSlot(paths, i, n)
  {
    forall r | r in UnderSlot(paths, i, n) ensures r in UnderSlot(paths + {p}, i, n) {
      var q :| q in paths && q != [] && Slot(q[0], n) == Some(i) && q[1..] == r;
      assert q in paths + {p};
    }
    if Slot(p[0], n) == Some(i) {
      assert p in paths + {p};
    }
  }

  lemma UnderSlotMinus(paths: set<Path>, p: Path, i: nat, n: nat)
    requires p != []
    requires forall q :: q in paths && q != [] && q != p && Slot(q[0], n) == Slot(p[0], n) ==> q[1..] != p[1..]
    ensures UnderSlot(paths - {p}, i, n) ==
            if Slot(p[0], n) == Some(i) then UnderSlot(paths, i, n) - {p[1..]} else UnderSlot(paths, i, n)
  {
    forall r | r in UnderSlot(paths, i, n) && (Slot(p[0], n) == Some(i) ==> r != p[1..])
      ensures r in UnderSlot(paths - {p}, i, n)
    {
      var q :| q in paths && q != [] && Slot(q[0], n) == Some(i) && q[1..] == r;
      assert q in paths - {p};
    }
  }

  // ---- the relation ---------------------------------------------------------------------

  /** e is what became of d (None: absent) when the paths in `captured` were overwritten,
      with those in `open` not restored yet.
      - Off the captured paths the two are the same value.
      - At a captured path anything may stand while it is open; afterwards the original
        value does, whole numbers as integers.
      - On the way to a captured path nothing is lost, and what e holds without d holding
        it is an object made on the way to a captured path. */
  ghost predicate Became(d: Option<Json>, e: Json, captured: set<Path>, open: set<Path>)
    decreases e
  {
    if captured == {} then d == Some(e)
    else if [] in captured then [] in open || (d.Some? && Returned(d.value, e))
    else
      match e
      case Obj(m) =>
        (d.Some? ==> d.value.Obj? && d.value.fields.Keys <= m.Keys) &&
        forall k :: k in m ==> Became(FieldOf(d, k), m[k], Under(captured, k), Under(open, k))
      case Arr(b) =>
        d.Some? && d.value.Arr? && |d.value.items| == |b| &&
        forall i :: 0 <= i < |b| ==>
          Became(Some(d.value.items[i]), b[i], UnderSlot(captured, i, |b|), UnderSlot(open, i, |b|))
      case _ => false
  }

  function FieldOf(d: Option<Json>, k: string): Option<Json> {
    if d.Some? && d.value.Obj? then Field(d.value.fields, k) else None
  }

  function GetFrom(d: Option<Json>, p: Path): Option<Json> {
    if d.Some? then Get(d.value, p) else None
  }

  function OrEmpty(d: Option<Json>): Json {
    if d.Some? then d.value else Obj(map[])
  }

  ghost predicate ApartFrom(d: Option<Json>, p: Path, paths: set<Path>) {
    forall q :: q in paths ==> Apart(OrEmpty(d), p, q)
  }

  ghost predicate PairwiseApart(d: Json, paths: set<Path>) {
    forall p, q :: p in paths && q in paths && p != q ==> Apart(d, p, q)
  }

  lemma ApartUnder(d: Option<Json>, p: Path, paths: set<Path>)
    requires p != [] && ApartFrom(d, p, paths) && (d.Some? ==> d.value.Obj?)
    ensures ApartFrom(FieldOf(d, p[0]), p[1..], Under(paths, p[0]))
  {
    forall r | r in Under(paths, p[0]) ensures Apart(OrEmpty(FieldOf(d, p[0])), p[1..], r) {
      var q :| q in paths && q != [] && q[0] == p[0] && q[1..] == r;
      assert Apart(OrEmpty(d), p, q);
      var child := ChildToWrite(OrEmpty(d).fields, p[0]);
      assert Apart(child, p[1..], r);
      if OrEmpty(FieldOf(d, p[0])).Null? { NullApart(p[1..], r); }
    }
  }

  lemma ApartUnderSlot(d: Json, p: Path, paths: set<Path>)
    requires p != [] && d.Arr? && ApartFrom(Some(d), p, paths) && Slot(p[0], |d.items|).Some?
    ensures var i := Slot(p[0], |d.items|).value;
            ApartFrom(Some(d.items[i]), p[1..], UnderSlot(paths, i, |d.items|))
  {
    var i := Slot(p[0], |d.items|).value;
    forall r | r in UnderSlot(paths, i, |d.items|) ensures Apart(d.items[i], p[1..], r) {
      var q :| q in paths && q != [] && Slot(q[0], |d.items|) == Some(i) && q[1..] == r;
      assert Apart(d, p, q);
    }
  }

  lemma NotEmptyWhenApart(d: Option<Json>, p: Path, paths: set<Path>)
    requires ApartFrom(d, p, paths)
    ensures [] !in paths
    ensures paths != {} ==> p != []
  {
    forall q | q in paths ensures q != [] && p != [] {
      assert Apart(OrEmpty(d), p, q);
    }
  }

  // ---- overwriting -------------------------------------------------------------------------

  /** A field that parts from everything captured so far still reads as in the original
      document. */
  lemma {:induction false} OriginalRead(d: Option<Json>, e: Json, captured: set<Path>, open: set<Path>, p: Path)
    requires Became(d, e, captured, open) && ApartFrom(d, p, captured)
    ensures Get(e, p) == GetFrom(d, p)
    decreases e
  {
    NotEmptyWhenApart(d, p, captured);
    if captured != {} {
      match e
      case Obj(m) =>
        if p[0] in m {
          ApartUnder(d, p, captured);
          OriginalRead(FieldOf(d, p[0]), m[p[0]], Under(captured, p[0]), Under(open, p[0]), p[1..]);
        }
      case Arr(b) =>
        var slot := Slot(p[0], |b|);
        if slot.Some? {
          var i := slot.value;
          ApartUnderSlot(d.value, p, captured);
          OriginalRead(Some(d.value.items[i]), b[i], UnderSlot(captured, i, |b|), UnderSlot(open, i, |b|), p[1..]);
        }
    }
  }

  /** Objects created on the way to a new field belong to that field's path. */
  lemma {:induction false} CreatedParents(p: Path, v: Json, captured: set<Path>, open: set<Path>)
    requires ApartFrom(None, p, captured)
    ensures Put(Obj(map[]), p, v).Some?
    ensures Became(None, Put(Obj(map[]), p, v).value, captured + {p}, open + {p})
    decreases |p|
  {
    NotEmptyWhenApart(None, p, captured);
    if p != [] {
      ApartUnder(None, p, captured);
      CreatedParents(p[1..], v, Under(captured, p[0]), Under(open, p[0]));
      UnderPlus(captured, p, p[0]);
      UnderPlus(open, p, p[0]);
      assert p in captured + {p};
    }
  }

  /** Overwriting one more field: it joins the captured paths, still open. */
  lemma {:induction false} OverwriteStep(d: Option<Json>, e: Json, captured: set<Path>, open: set<Path>, p: Path, v: Json)
    requires Became(d, e, captured, open) && ApartFrom(d, p, captured) && Reachable(e, p)
    ensures Put(e, p, v).Some?
    ensures Became(d, Put(e, p, v).value, captured + {p}, open + {p})
    decreases e
  {
    NotEmptyWhenApart(d, p, captured);
    ReachablePut(e, p, v);
    assert p in captured + {p};
    if p != [] {
      match e
      case Obj(m) =>
        OverwriteInObject(d, m, captured, open, p, v);
      case Arr(b) =>
        var i := Slot(p[0], |b|).value;
        ApartUnderSlot(d.value, p, captured);
        UnderSlotEmpty(i, |b|);
        OverwriteStep(Some(d.value.items[i]), b[i], UnderSlot(captured, i, |b|), UnderSlot(open, i, |b|), p[1..], v);
        var after := Put(e, p, v).value.items;
        forall j | 0 <= j < |b|
          ensures Became(Some(d.value.items[j]), after[j], UnderSlot(captured + {p}, j, |b|), UnderSlot(open + {p}, j, |b|))
        {
          UnderSlotPlus(captured, p, j, |b|);
          UnderSlotPlus(open, p, j, |b|);
          UnderSlotEmpty(j, |b|);
        }
    }
  }

  lemma UnderSlotEmpty(i: nat, n: nat)
    ensures UnderSlot({}, i, n) == {}
  {
  }

  lemma OverwriteInObject(d: Option<Json>, m: map<string, Json>, captured: set<Path>, open: set<Path>, p: Path, v: Json)
    requires Became(d, Obj(m), captured, open) && ApartFrom(d, p, captured) && Reachable(Obj(m), p)
    requires p != [] && [] !in captured
    requires Put(Obj(m), p, v).Some?
    ensures Became(d, Put(Obj(m), p, v).value, captured + {p}, open + {p})
    decreases Obj(m), 0
  {
    var t := p[0];
    assert Under({}, t) == {};
    assert d.Some? ==> d.value.Obj?;
    ApartUnder(d, p, captured);
    if t in m {
      OverwriteStep(FieldOf(d, t), m[t], Under(captured, t), Under(open, t), p[1..], v);
    } else {
      CreatedParents(p[1..], v, Under(captured, t), Under(open, t));
    }
    var after := Put(Obj(m), p, v).value.fields;
    forall k | k in after
      ensures Became(FieldOf(d, k), after[k], Under(captured + {p}, k), Under(open + {p}, k))
    {
      UnderPlus(captured, p, k);
      UnderPlus(open, p, k);
    }
  }

  // ---- putting back --------------------------------------------------------------------------

  /** p is open, and every other captured path parts from it. */
  ghost predicate Outstanding(d: Option<Json>, captured: set<Path>, open: set<Path>, p: Path) {
    open <= captured && p in open && ApartFrom(d, p, captured - {p})
  }

  lemma OutstandingUnder(d: Option<Json>, captured: set<Path>, open: set<Path>, p: Path)
    requires Outstanding(d, captured, open, p) && p != [] && (d.Some? ==> d.value.Obj?)
    ensures [] !in captured
    ensures Outstanding(FieldOf(d, p[0]), Under(captured, p[0]), Under(open, p[0]), p[1..])
    ensures forall k :: Under(open - {p}, k) == if k == p[0] then Under(open, k) - {p[1..]} else Under(open, k)
  {
    NotEmptyWhenApart(d, p, captured - {p});
    ApartUnder(d, p, captured - {p});
    UnderMinus(captured, p, p[0]);
    forall k ensures Under(open - {p}, k) == if k == p[0] then Under(open, k) - {p[1..]} else Under(open, k) {
      UnderMinus(open, p, k);
    }
  }

  lemma OutstandingUnderSlot(d: Json, captured: set<Path>, open: set<Path>, p: Path)
    requires Outstanding(Some(d), captured, open, p) && p != [] && d.Arr? && Slot(p[0], |d.items|).Some?
    ensures var n := |d.items|;
            var i := Slot(p[0], n).value;
            [] !in captured &&
            Outstanding(Some(d.items[i]), UnderSlot(captured, i, n), UnderSlot(open, i, n), p[1..]) &&
            forall j :: 0 <= j < n ==>
              UnderSlot(open - {p}, j, n) == if j == i then UnderSlot(open, j, n) - {p[1..]} else UnderSlot(open, j, n)
  {
    var n := |d.items|;
    var i := Slot(p[0], n).value;
    NotEmptyWhenApart(Some(d), p, captured - {p});
    ApartUnderSlot(d, p, captured - {p});
    forall q | q in captured && q != [] && q != p && Slot(q[0], n) == Slot(p[0], n) ensures q[1..] != p[1..] {
      assert q in captured - {p} && Apart(OrEmpty(Some(d)), p, q);
      ApartIrreflexive(d.items[i], p[1..]);
    }
    UnderSlotMinus(captured, p, i, n);
    forall j | 0 <= j < n
      ensures UnderSlot(open - {p}, j, n) == if j == i then UnderSlot(open, j, n) - {p[1..]} else UnderSlot(open, j, n)
    {
      UnderSlotMinus(open, p, j, n);
    }
  }

  lemma {:induction false} ApartIrreflexive(d: Json, p: Path)
    ensures !Apart(d, p, p)
    decreases |p|
  {
    if p != [] {
      match d
      case Obj(m) => ApartIrreflexive(ChildToWrite(m, p[0]), p[1..]);
      case Arr(a) =>
        if Slot(p[0], |a|).Some? { ApartIrreflexive(a[Slot(p[0], |a|).value], p[1..]); }
      case _ => ApartIrreflexive(Obj(map[]), p[1..]);
    }
  }

  /** One field of the object changed; the paths below the others are as open as before. */
  lemma FieldChanged(d: Option<Json>, m: map<string, Json>, captured: set<Path>, open: set<Path>, after: set<Path>, t: string, child: Json)
    requires Became(d, Obj(m), captured, open) && captured != {} && [] !in captured && t in m
    requires Became(FieldOf(d, t), child, Under(captured, t), Under(after, t))
    requires forall k :: k != t ==> Under(after, k) == Under(open, k)
    ensures Became(d, Obj(m[t := child]), captured, after)
  {
  }

  lemma ItemChanged(d: Json, b: seq<Json>, captured: set<Path>, open: set<Path>, after: set<Path>, i: nat, child: Json)
    requires Became(Some(d), Arr(b), captured, open) && captured != {} && [] !in captured && i < |b|
    requires Became(Some(d.items[i]), child, UnderSlot(captured, i, |b|), UnderSlot(after, i, |b|))
    requires forall j :: 0 <= j < |b| && j != i ==> UnderSlot(after, j, |b|) == UnderSlot(open, j, |b|)
    ensures Became(Some(d), Arr(b[i := child]), captured, after)
  {
  }

  /** Writing the original value back at an open path closes it. */
  lemma {:induction false} PutBackStep(d: Option<Json>, e: Json, captured: set<Path>, open: set<Path>, p: Path, w: Json)
    requires Became(d, e, captured, open) && Outstanding(d, captured, open, p)
    requires GetFrom(d, p).Some? && Returned(GetFrom(d, p).value, w)
    ensures Put(e, p, w).Some?
    ensures Became(d, Put(e, p, w).value, captured, open - {p})
    decreases e
  {
    if p == [] {
      assert [] in captured;
    } else {
      NotEmptyWhenApart(d, p, captured - {p});
      match e
      case Obj(m) =>
        var t := p[0];
        OutstandingUnder(d, captured, open, p);
        assert p[1..] in Under(captured, t);
        PutBackStep(FieldOf(d, t), m[t], Under(captured, t), Under(open, t), p[1..], w);
        assert Put(m[t], p[1..], w) == Put(ChildToWrite(m, t), p[1..], w);
        FieldChanged(d, m, captured, open, open - {p}, t, Put(m[t], p[1..], w).value);
      case Arr(b) =>
        var i := Slot(p[0], |b|).value;
        OutstandingUnderSlot(d.value, captured, open, p);
        assert p[1..] in UnderSlot(captured, i, |b|);
        PutBackStep(Some(d.value.items[i]), b[i], UnderSlot(captured, i, |b|), UnderSlot(open, i, |b|), p[1..], w);
        ItemChanged(d.value, b, captured, open, open - {p}, i, Put(b[i], p[1..], w).value);
    }
  }

  /** Writing anything at an open path whose field the original holds succeeds and leaves
      the path open. */
  lemma {:induction false} PutOpenStep(d: Option<Json>, e: Json, captured: set<Path>, open: set<Path>, p: Path, w: Json)
    requires Became(d, e, captured, open) && Outstanding(d, captured, open, p) && GetFrom(d, p).Some?
    ensures Put(e, p, w).Some?
    ensures Became(d, Put(e, p, w).value, captured, open)
    decreases e
  {
    if p == [] {
      assert [] in captured;
    } else {
      NotEmptyWhenApart(d, p, captured - {p});
      match e
      case Obj(m) =>
        var t := p[0];
        OutstandingUnder(d, captured, open, p);
        assert p[1..] in Under(captured, t);
        PutOpenStep(FieldOf(d, t), m[t], Under(captured, t), Under(open, t), p[1..], w);
        assert Put(m[t], p[1..], w) == Put(ChildToWrite(m, t), p[1..], w);
        FieldChanged(d, m, captured, open, open, t, Put(m[t], p[1..], w).value);
      case Arr(b) =>
        var i := Slot(p[0], |b|).value;
        OutstandingUnderSlot(d.value, captured, open, p);
        assert p[1..] in UnderSlot(captured, i, |b|);
        PutOpenStep(Some(d.value.items[i]), b[i], UnderSlot(captured, i, |b|), UnderSlot(open, i, |b|), p[1..], w);
        ItemChanged(d.value, b, captured, open, open, i, Put(b[i], p[1..], w).value);
    }
  }

  /** What holds with some paths open holds with more of them open. */
  lemma {:induction false} OpenMore(d: Option<Json>, e: Json, captured: set<Path>, open: set<Path>, more: set<Path>)
    requires Became(d, e, captured, open) && open <= more
    ensures Became(d, e, captured, more)
    decreases e
  {
    if captured != {} && [] !in captured {
      match e
      case Obj(m) =>
        forall k | k in m ensures Became(FieldOf(d, k), m[k], Under(captured, k), Under(more, k)) {
          OpenMore(FieldOf(d, k), m[k], Under(captured, k), Under(open, k), Under(more, k));
        }
      case Arr(b) =>
        forall i | 0 <= i < |b|
          ensures Became(Some(d.value.items[i]), b[i], UnderSlot(captured, i, |b|), UnderSlot(more, i, |b|))
        {
          OpenMore(Some(d.value.items[i]), b[i], UnderSlot(captured, i, |b|), UnderSlot(open, i, |b|), UnderSlot(more, i, |b|));
        }
    }
  }

  lemma AbsentLeaf(d: Option<Json>, p: Path)
    requires |p| == 1 && GetFrom(d, p).None?
    ensures FieldOf(d, p[0]).None?
  {
    if d.Some? { LeafRead(d.value, p); }
  }

  lemma LeafRead(d: Json, p: Path)
    requires |p| == 1
    ensures d.Obj? ==> Get(d, p) == Field(d.fields, p[0])
  {
    assert p[1..] == [];
  }

  lemma AbsentBelowSlot(d: Json, p: Path)
    requires p != [] && d.Arr? && Slot(p[0], |d.items|).Some? && Get(d, p).None?
    ensures p[1..] != []
  {
  }

  /** Deleting a field that was absent closes its path. */
  lemma {:induction false} DeleteBackStep(d: Option<Json>, e: Json, captured: set<Path>, open: set<Path>, p: Path)
    requires Became(d, e, captured, open) && Outstanding(d, captured, open, p)
    requires p != [] && GetFrom(d, p).None?
    ensures Remove(e, p).Some?
    ensures Became(d, Remove(e, p).value, captured, open - {p})
    decreases e
  {
    NotEmptyWhenApart(d, p, captured - {p});
    assert p in captured;
    match e
    case Obj(m) =>
      var t := p[0];
      OutstandingUnder(d, captured, open, p);
      if |p| == 1 {
        AbsentLeaf(d, p);
      } else if t in m {
        assert p[1..] in Under(captured, t);
        DeleteBackStep(FieldOf(d, t), m[t], Under(captured, t), Under(open, t), p[1..]);
      }
    case Arr(b) =>
      if Slot(p[0], |b|).Some? {
        var i := Slot(p[0], |b|).value;
        OutstandingUnderSlot(d.value, captured, open, p);
        AbsentBelowSlot(d.value, p);
        assert p[1..] in UnderSlot(captured, i, |b|);
        DeleteBackStep(Some(d.value.items[i]), b[i], UnderSlot(captured, i, |b|), UnderSlot(open, i, |b|), p[1..]);
      } else {
        forall j | 0 <= j < |b| ensures UnderSlot(open - {p}, j, |b|) == UnderSlot(open, j, |b|) {
          forall r | r in UnderSlot(open, j, |b|) ensures r in UnderSlot(open - {p}, j, |b|) {
            var q :| q in open && q != [] && Slot(q[0], |b|) == Some(j) && q[1..] == r;
            assert q in open - {p};
          }
        }
      }
  }

  // ---- what a finished restore means -----------------------------------------------------------

  /** At a captured path the finished restore reads as the original did: the same value, or
      absent again. */
  lemma {:induction false} RestoredRead(d: Option<Json>, e: Json, captured: set<Path>, p: Path)
    requires Became(d, e, captured, {}) && p in captured && ApartFrom(d, p, captured - {p})
    ensures GetFrom(d, p).Some? <==> Get(e, p).Some?
    ensures GetFrom(d, p).Some? ==> Returned(GetFrom(d, p).value, Get(e, p).value)
    decreases e
  {
    if p != [] {
      NotEmptyWhenApart(d, p, captured - {p});
      match e
      case Obj(m) =>
        if p[0] in m {
          UnderMinus(captured, p, p[0]);
          ApartUnder(d, p, captured - {p});
          assert Under({}, p[0]) == {};
          RestoredRead(FieldOf(d, p[0]), m[p[0]], Under(captured, p[0]), p[1..]);
        }
      case Arr(b) =>
        if Slot(p[0], |b|).Some? {
          var i := Slot(p[0], |b|).value;
          assert Outstanding(d, captured, {p}, p) by { assert {p} <= captured; }
          OutstandingUnderSlot(d.value, captured, {p}, p);
          UnderSlotEmpty(i, |b|);
          RestoredRead(Some(d.value.items[i]), b[i], UnderSlot(captured, i, |b|), p[1..]);
        }
    }
  }

  /** An object holding nothing but such objects: what a write leaves behind of the
      parents it created. */
  predicate Hollow(v: Json)
  {
    v.Obj? && forall k :: k in v.fields ==> Hollow(v.fields[k])
  }

  /** The same document, except for additional hollow objects. */
  predicate SameButHollow(d: Json, e: Json)
  {
    match d
    case Obj(a) =>
      e.Obj? && a.Keys <= e.fields.Keys &&
      (forall k :: k in a ==> SameButHollow(a[k], e.fields[k])) &&
      forall k :: k in e.fields && k !in a ==> Hollow(e.fields[k])
    case Arr(a) =>
      e.Arr? && |a| == |e.items| && forall i :: 0 <= i < |a| ==> SameButHollow(a[i], e.items[i])
    case _ => !e.Obj? && !e.Arr? && SameValue(d, e)
  }

  lemma {:induction false} SameIsSameButHollow(d: Json, e: Json)
    requires SameValue(d, e)
    ensures SameButHollow(d, e)
  {
    match d
    case Obj(a) => forall k | k in a ensures SameButHollow(a[k], e.fields[k]) { SameIsSameButHollow(a[k], e.fields[k]); }
    case Arr(a) => forall i | 0 <= i < |a| ensures SameButHollow(a[i], e.items[i]) { SameIsSameButHollow(a[i], e.items[i]); }
    case _ =>
  }

  /** A finished restore differs from the original only by empty parent objects. */
  lemma {:induction false} RestoredIsSame(d: Option<Json>, e: Json, captured: set<Path>)
    requires Became(d, e, captured, {})
    ensures d.Some? ==> SameButHollow(d.value, e)
    ensures d.None? ==> Hollow(e)
    decreases e
  {
    if captured == {} || [] in captured {
      SameIsReflexive(e);
      SameIsSameButHollow(d.value, e);
    } else {
      match e
      case Obj(m) =>
        forall k | k in m
          ensures FieldOf(d, k).Some? ==> SameButHollow(FieldOf(d, k).value, m[k])
          ensures FieldOf(d, k).None? ==> Hollow(m[k])
        {
          assert Under({}, k) == {};
          RestoredIsSame(FieldOf(d, k), m[k], Under(captured, k));
        }
      case Arr(b) =>
        forall i | 0 <= i < |b| ensures SameButHollow(d.value.items[i], b[i]) {
          UnderSlotEmpty(i, |b|);
          RestoredIsSame(Some(d.value.items[i]), b[i], UnderSlot(captured, i, |b|));
        }
    }
  }

  lemma {:induction false} HollowKept(d: Json, e: Json)
    requires Hollow(d) && SameButHollow(d, e)
    ensures Hollow(e)
  {
    forall k | k in e.fields ensures Hollow(e.fields[k]) {
      if k in d.fields { HollowKept(d.fields[k], e.fields[k]); }
    }
  }

  lemma {:induction false} SameTransitive(a: Json, b: Json, c: Json)
    requires SameButHollow(a, b) && SameButHollow(b, c)
    ensures SameButHollow(a, c)
  {
    match a
    case Obj(m) =>
      forall k | k in c.fields
        ensures k in m ==> SameButHollow(m[k], c.fields[k])
        ensures k !in m ==> Hollow(c.fields[k])
      {
        if k in m {
          SameTransitive(m[k], b.fields[k], c.fields[k]);
        } else if k in b.fields {
          HollowKept(b.fields[k], c.fields[k]);
        }
      }
    case Arr(xs) =>
      forall i | 0 <= i < |xs| ensures SameButHollow(xs[i], c.items[i]) {
        SameTransitive(xs[i], b.items[i], c.items[i]);
      }
    case _ => SameIsTransitive(a, b, c);
  }
}
