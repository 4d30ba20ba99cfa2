// Where the round trip of configured fields ends: paths that do not part, and keys that
// cannot be written as a pointer.
module Overlap {
  import opened Wrappers
  import opened Json
  import opened Document
  import opened Restoration
  import opened PointerText
  import opened CustomResource
  import opened ResourceLifecycle
  import Decimal
  import LiveDocument

  // ---- empty keys -------------------------------------------------------------------------

  lemma {:induction false} WrittenIsNotRoot(w: Writing, fields: seq<SetField>)
    requires WriteFields(w, fields).Some? && forall i :: 0 <= i < |w.paths| ==> w.paths[i] != []
    ensures forall i :: 0 <= i < |WriteFields(w, fields).value.paths| ==> WriteFields(w, fields).value.paths[i] != []
    decreases |fields|
  {
    if fields != [] {
      var tokens := Parse(fields[0].path).value;
      var paths := Expand(w.doc, tokens);
      forall i | 0 <= i < |paths| ensures paths[i] != [] { RootIsNotWritten(tokens, w, paths, i); }
      WritePathsExtends(w, paths, Normalize(fields[0].value.value));
      WrittenIsNotRoot(WriteField(w, fields[0]).value, fields[1..]);
    }
  }

  /** The pointer of a path that parses back can be restored at any point, whatever was
      recorded: the document stays one in which all captured paths may still be open. */
  lemma PutBackGoesOn(d: Json, e: Json, log: Log, captured: set<Path>, p: Path)
    requires PairwiseApart(d, captured) && Records(d, log, captured) && p in captured && p != [] && NonEmptyTokens(p)
    requires Became(Some(d), e, captured, captured)
    ensures var next := PutBack(e, Format(p), log[Format(p)]);
            next.Some? && Became(Some(d), next.value, captured, captured)
  {
    ParseFormat(p);
    forall q | q in captured - {p} ensures Apart(OrEmpty(Some(d)), p, q) {}
    match Get(d, p)
    case Some(v) => PutOpenStep(Some(d), e, captured, captured, p, Normalize(Recode(v)));
    case None =>
      DeleteBackStep(Some(d), e, captured, captured, p);
      OpenMore(Some(d), Remove(e, p).value, captured, captured - {p}, captured);
  }

  lemma {:induction false} PutBackAllGoesOn(d: Json, e: Json, log: Log, captured: set<Path>, order: seq<string>)
    requires PairwiseApart(d, captured) && Records(d, log, captured)
    requires forall p :: p in captured ==> p != [] && NonEmptyTokens(p)
    requires Became(Some(d), e, captured, captured) && forall k :: k in order ==> k in log
    ensures PutBackAll(e, log, order).Some?
    decreases |order|
  {
    if order != [] {
      assert order[0] in order;
      var p :| p in captured && Format(p) == order[0];
      PutBackGoesOn(d, e, log, captured, p);
      PutBackAllGoesOn(d, PutBack(e, order[0], log[order[0]]).value, log, captured, order[1..]);
    }
  }

  ghost predicate AlwaysRestores(w: Writing) {
    forall order :: Lists(order, w.log.Keys) ==> PutBackAll(w.doc, w.log, order).Some?
  }

  ghost predicate NeverRestores(w: Writing) {
    forall order :: Lists(order, w.log.Keys) ==> PutBackAll(w.doc, w.log, order).None?
  }

  /** When the written paths part pairwise, restoring succeeds, in every order, exactly
      when none of them has an empty token; otherwise it fails in every order. */
  lemma RestorableExactly(d: Json, fields: seq<SetField>)
    requires TurnDown(d, fields).Some? && PathsApart(d, TurnDown(d, fields).value.paths)
    ensures var w := TurnDown(d, fields).value;
            (AlwaysRestores(w) <==> forall i :: 0 <= i < |w.paths| ==> NonEmptyTokens(w.paths[i])) &&
            (AlwaysRestores(w) || NeverRestores(w))
  {
    var w := TurnDown(d, fields).value;
    var captured := PathSet(w.paths);
    assert Tracks(d, Writing(d, map[], []));
    WriteFieldsTracks(d, Writing(d, map[], []), fields);
    ApartPairs(d, w.paths);
    WrittenIsNotRoot(Writing(d, map[], []), fields);
    if i :| 0 <= i < |w.paths| && !NonEmptyTokens(w.paths[i]) {
      assert w.paths[i] in captured;
      forall order | Lists(order, w.log.Keys) ensures PutBackAll(w.doc, w.log, order).None? {
        EmptyKeyBlocksRestore(w.doc, w.log, order, w.paths[i]);
      }
      var order := Complete([], {}, w.log.Keys);
      assert PutBackAll(w.doc, w.log, order).None?;
    } else {
      forall order | Lists(order, w.log.Keys) ensures PutBackAll(w.doc, w.log, order).Some? {
        PutBackAllGoesOn(d, w.doc, w.log, captured, order);
      }
    }
  }

  // ---- wrong captures ---------------------------------------------------------------------

  /** The path reads as in the original: absent again, or the same value. */
  predicate ReadsBack(d: Json, back: Json, p: Path) {
    var before, after := Get(d, p), Get(back, p);
    (before.Some? <==> after.Some?) && (before.Some? ==> SameValue(before.value, after.value))
  }

  predicate GivesBack(d: Json, w: Writing, order: seq<string>)
    requires forall k :: k in order ==> k in w.log
  {
    var back := PutBackAll(w.doc, w.log, order);
    back.Some? && forall i :: 0 <= i < |w.paths| ==> ReadsBack(d, back.value, w.paths[i])
  }

  /** Restoring gives every written path back, in whatever order. */
  ghost predicate RoundTrips(d: Json, fields: seq<SetField>) {
    var w := TurnDown(d, fields);
    w.Some? && forall order :: Lists(order, w.value.log.Keys) ==> GivesBack(d, w.value, order)
  }

  /** An order that visits the key last. */
  lemma VisitsLast(w: Writing, key: string) returns (front: seq<string>, order: seq<string>)
    requires key in w.log
    ensures Lists(order, w.log.Keys) && order == front + [key] && forall k :: k in front ==> k in w.log
    ensures PutBackAll(w.doc, w.log, order) ==
            match PutBackAll(w.doc, w.log, front) case Some(e) => PutBack(e, key, w.log[key]) case None => None
  {
    front := Complete([], {}, w.log.Keys - {key});
    order := front + [key];
    PutBackAllAppend(w.doc, w.log, front, key);
  }

  lemma WrittenDiffers(before: Json, captured: Json)
    requires !SameValue(before, captured)
    ensures !SameValue(before, Normalize(Recode(captured)))
  {
    var written := Normalize(Recode(captured));
    RecodedIsReturned(captured);
    SameIsSymmetric(captured, written);
    if SameValue(before, written) { SameIsTransitive(before, written, captured); }
  }

  /** A captured value that is not the original one is written over whatever else was
      restored when its turn comes last. */
  lemma WrongCaptureBreaks(d: Json, fields: seq<SetField>, p: Path)
    requires TurnDown(d, fields).Some? && p in TurnDown(d, fields).value.paths && p != [] && NonEmptyTokens(p)
    requires var log := TurnDown(d, fields).value.log;
             Format(p) in log && log[Format(p)].present &&
             (Get(d, p).None? || !SameValue(Get(d, p).value, log[Format(p)].value))
    ensures !RoundTrips(d, fields)
  {
    var w := TurnDown(d, fields).value;
    var key := Format(p);
    var front, order := VisitsLast(w, key);
    assert !GivesBack(d, w, order) ==> !RoundTrips(d, fields);
    ParseFormat(p);
    var captured := w.log[key].value;
    if Get(d, p).Some? { WrittenDiffers(Get(d, p).value, captured); }
    match PutBackAll(w.doc, w.log, front)
    case Some(e) => if Put(e, p, Normalize(Recode(captured))).Some? { GetPut(e, p, Normalize(Recode(captured))); }
    case None =>
  }

  /** The last token is no array index. */
  predicate EndsInKey(p: Path) {
    p != [] && Decimal.Atoi(p[|p| - 1]).None?
  }

  lemma {:induction false} RemovedIsAbsent(d: Json, p: Path)
    requires EndsInKey(p) && Remove(d, p).Some?
    ensures Get(Remove(d, p).value, p).None?
    decreases |p|
  {
    if |p| > 1 {
      match d
      case Obj(m) => if p[0] in m { RemovedIsAbsent(m[p[0]], p[1..]); }
      case Arr(a) => if Slot(p[0], |a|).Some? { RemovedIsAbsent(a[Slot(p[0], |a|).value], p[1..]); }
      case _ =>
    } else {
      assert p[1..] == [];
    }
  }

  /** A field recorded as absent that the original has is deleted again when its turn
      comes last. Only an array slot could survive: those are left alone. */
  lemma WrongAbsenceBreaks(d: Json, fields: seq<SetField>, p: Path)
    requires TurnDown(d, fields).Some? && p in TurnDown(d, fields).value.paths && NonEmptyTokens(p) && EndsInKey(p)
    requires var log := TurnDown(d, fields).value.log;
             Format(p) in log && !log[Format(p)].present && Get(d, p).Some?
    ensures !RoundTrips(d, fields)
  {
    var w := TurnDown(d, fields).value;
    var key := Format(p);
    var front, order := VisitsLast(w, key);
    assert !GivesBack(d, w, order) ==> !RoundTrips(d, fields);
    ParseFormat(p);
    match PutBackAll(w.doc, w.log, front)
    case Some(e) => if Remove(e, p).Some? { RemovedIsAbsent(e, p); }
    case None =>
  }

  /** What was recorded for the path is what the original holds there. */
  predicate CapturedRightly(d: Json, log: Log, p: Path) {
    Format(p) in log &&
    var captured := log[Format(p)];
    if captured.present then Get(d, p).Some? && SameValue(Get(d, p).value, captured.value)
    else EndsInKey(p) ==> Get(d, p).None?
  }

  /** However many fields are configured, with wildcards or without: what restoring gives
      back in every order was captured rightly at every written path. */
  lemma RoundTripNeedsRightCaptures(d: Json, fields: seq<SetField>, p: Path)
    requires RoundTrips(d, fields) && p in TurnDown(d, fields).value.paths && p != [] && NonEmptyTokens(p)
    requires Format(p) in TurnDown(d, fields).value.log
    ensures CapturedRightly(d, TurnDown(d, fields).value.log, p)
  {
    var log := TurnDown(d, fields).value.log;
    if !CapturedRightly(d, log, p) {
      if log[Format(p)].present {
        WrongCaptureBreaks(d, fields, p);
      } else {
        WrongAbsenceBreaks(d, fields, p);
      }
    }
  }

  // ---- two configured fields ------------------------------------------------------------------

  /** A path that can be configured as it stands: no empty token, no wildcard. */
  predicate Literal(p: Path) {
    p != [] && NonEmptyTokens(p) && WILDCARD !in p
  }

  function TwoFields(p: Path, v: Json, q: Path, u: Json): seq<SetField> {
    [SetField(Format(p), Some(v)), SetField(Format(q), Some(u))]
  }

  lemma {:induction false} LiteralResolves(d: Json, p: Path)
    requires WILDCARD !in p && Reachable(d, p)
    ensures WildcardsResolve(d, p, p)
    decreases |p|
  {
    if p != [] {
      match d
      case Obj(m) => if p[0] in m { LiteralResolves(m[p[0]], p[1..]); }
      case Arr(a) => LiteralResolves(a[Slot(p[0], |a|).value], p[1..]);
      case _ =>
    }
  }

  lemma LiteralExpands(d: Json, p: Path)
    requires Literal(p) && Reachable(d, p)
    ensures Expand(d, p) == [p]
  {
    var paths := Expand(d, p);
    LiteralResolves(d, p);
    ExpandExact(d, p, p);
    ExpandDistinct(d, p);
    forall i | 0 <= i < |paths| ensures paths[i] == p {
      ExpandExact(d, p, paths[i]);
    }
  }

  /** A literal field is written where it can be, and skipped where it cannot. */
  lemma WritesOneOrNone(w: Writing, p: Path, v: Json) returns (next: Writing)
    requires Literal(p)
    ensures WriteField(w, SetField(Format(p), Some(v))) == Some(next)
    ensures next.paths == if Reachable(w.doc, p) then w.paths + [p] else w.paths
  {
    if Reachable(w.doc, p) {
      WritesOne(w, p, v);
      next := WritePath(w, p, Normalize(v)).value;
    } else {
      ParseFormat(p);
      UnreachableExpands(w.doc, p);
      next := w;
    }
  }

  lemma UnreachableExpands(d: Json, p: Path)
    requires Literal(p) && !Reachable(d, p)
    ensures Expand(d, p) == []
  {
    var paths := Expand(d, p);
    if paths != [] {
      var q := paths[0];
      ExpandExact(d, p, q);
      assert q in paths;
      LiteralFits(p, q);
    }
  }

  lemma LiteralFits(p: Path, q: Path)
    requires Fits(p, q) && WILDCARD !in p
    ensures q == p
  {
    assert forall i :: 0 <= i < |p| ==> p[i] in p;
  }

  lemma WritesOne(w: Writing, p: Path, v: Json)
    requires Literal(p) && Reachable(w.doc, p)
    ensures WriteField(w, SetField(Format(p), Some(v))) == WritePath(w, p, Normalize(v))
    ensures WritePath(w, p, Normalize(v)).Some?
  {
    ParseFormat(p);
    LiteralExpands(w.doc, p);
    ReachablePut(w.doc, p, Normalize(v));
    var next := WritePath(w, p, Normalize(v)).value;
    assert WritePaths(next, [p][1..], Normalize(v)) == Some(next);
  }

  /** The downscale of two literal fields, the second reachable after the first write. */
  lemma TwoFieldsDown(d: Json, p: Path, v: Json, q: Path, u: Json) returns (mid: Json, w: Writing)
    requires Literal(p) && Literal(q) && Reachable(d, p)
    requires Put(d, p, Normalize(v)).Some? ==> Reachable(Put(d, p, Normalize(v)).value, q)
    ensures Put(d, p, Normalize(v)) == Some(mid) && TurnDown(d, TwoFields(p, v, q, u)) == Some(w)
    ensures Put(mid, q, Normalize(u)) == Some(w.doc) && w.paths == [p, q]
    ensures w.log == map[Format(p) := Capture(d, p)][Format(q) := Capture(mid, q)]
  {
    var fields := TwoFields(p, v, q, u);
    var start := Writing(d, map[], []);
    WritesOne(start, p, v);
    var first := WritePath(start, p, Normalize(v)).value;
    mid := first.doc;
    WritesOne(first, q, u);
    w := WritePath(first, q, Normalize(u)).value;
    assert fields[1..] == [fields[1]] && fields[1..][1..] == [];
    assert WriteFields(first, fields[1..]) == Some(w);
    assert [] + [p] + [q] == [p, q];
  }

  lemma {:induction false} ExactRead(d: Json, p: Path)
    requires ExactNumbers(d) && Get(d, p).Some?
    ensures ExactNumbers(Get(d, p).value)
    decreases |p|
  {
    if p != [] {
      match d
      case Obj(m) => ExactRead(m[p[0]], p[1..]);
      case Arr(a) => ExactRead(a[Slot(p[0], |a|).value], p[1..]);
    }
  }

  /** What a downscale of two literal fields writes. */
  lemma TwoFieldsWritten(d: Json, p: Path, v: Json, q: Path, u: Json) returns (w: Writing)
    requires Literal(p) && Literal(q)
    ensures TurnDown(d, TwoFields(p, v, q, u)) == Some(w)
    ensures w.paths == [] || w.paths == [p] || w.paths == [q] || w.paths == [p, q]
    ensures w.paths == [p, q] ==> Reachable(d, p)
  {
    var fields := TwoFields(p, v, q, u);
    var start := Writing(d, map[], []);
    var first := WritesOneOrNone(start, p, v);
    w := WritesOneOrNone(first, q, u);
    assert fields[1..] == [fields[1]] && fields[1..][1..] == [];
    assert WriteFields(first, fields[1..]) == Some(w);
    if !Reachable(d, p) { assert [] + [q] == [q] && |w.paths| <= 1; }
    assert [] + [p] + [q] == [p, q];
  }

  lemma RecordableRead(d: Json, p: Path)
    requires Literal(p) && ExactNumbers(d)
    ensures Recordable(d, p)
  {
    if Get(d, p).Some? { ExactRead(d, p); }
  }

  /** Two literal paths that part, or of which the first is skipped, are given back,
      whatever is written there. */
  lemma PartingFieldsRoundTrip(d: Json, p: Path, v: Json, q: Path, u: Json)
    requires Literal(p) && Literal(q) && ExactNumbers(d) && (Apart(d, p, q) || !Reachable(d, p))
    ensures RoundTrips(d, TwoFields(p, v, q, u))
  {
    var w := TwoFieldsWritten(d, p, v, q, u);
    RecordableRead(d, p);
    RecordableRead(d, q);
    WrittenRoundTrips(d, TwoFields(p, v, q, u), w);
  }

  /** The round trip, for all orders. */
  lemma WrittenRoundTrips(d: Json, fields: seq<SetField>, w: Writing)
    requires TurnDown(d, fields) == Some(w) && PathsApart(d, w.paths)
    requires forall i :: 0 <= i < |w.paths| ==> Recordable(d, w.paths[i])
    ensures RoundTrips(d, fields)
  {
    forall order | Lists(order, w.log.Keys) ensures GivesBack(d, w, order) {
      RoundTrip(d, fields, order);
    }
  }

  // ---- paths that do not part -------------------------------------------------------------------

  /** The second path lies at or below the first: it reads inside what is written there. */
  lemma {:induction false} SeesWrite(d: Json, p: Path, w: Json, q: Path)
    requires !Apart(d, p, q) && Reachable(d, p) && |p| <= |q| && Put(d, p, w).Some? && Reachable(w, q[|p|..])
    ensures Get(Put(d, p, w).value, q) == Get(w, q[|p|..]) && Reachable(Put(d, p, w).value, q)
    decreases |p|
  {
    if p == [] {
      assert q[0..] == q;
    } else {
      assert q[|p|..] == q[1..][|p[1..]|..];
      match d
      case Obj(m) =>
        if p[0] !in m || m[p[0]].Null? { EmptyReachable(p[1..]); }
        SeesWrite(ChildToWrite(m, p[0]), p[1..], w, q[1..]);
      case Arr(a) => SeesWrite(a[Slot(p[0], |a|).value], p[1..], w, q[1..]);
    }
  }

  /** The second path lies at or above the first: what is written is seen inside it. */
  lemma {:induction false} SeenFromAbove(d: Json, p: Path, v: Json, q: Path)
    requires !Apart(d, p, q) && Reachable(d, p) && |q| <= |p| && Put(d, p, v).Some?
    ensures var seen := Get(Put(d, p, v).value, q);
            seen.Some? && Get(seen.value, p[|q|..]) == Some(v) && Reachable(Put(d, p, v).value, q)
    decreases |q|
  {
    if q == [] {
      assert p[0..] == p;
      GetPut(d, p, v);
    } else {
      assert p[|q|..] == p[1..][|q[1..]|..];
      match d
      case Obj(m) =>
        if p[0] !in m || m[p[0]].Null? { EmptyReachable(p[1..]); }
        SeenFromAbove(ChildToWrite(m, p[0]), p[1..], v, q[1..]);
      case Arr(a) => SeenFromAbove(a[Slot(p[0], |a|).value], p[1..], v, q[1..]);
    }
  }

  /** Reading the lower path is reading on from the upper one. */
  lemma {:induction false} ReadsThrough(d: Json, p: Path, q: Path)
    requires !Apart(d, p, q) && Reachable(d, p) && |q| <= |p| && Get(d, q).Some?
    ensures Get(d, p) == Get(Get(d, q).value, p[|q|..])
    decreases |q|
  {
    if q == [] {
      assert p[0..] == p;
    } else {
      assert p[|q|..] == p[1..][|q[1..]|..];
      match d
      case Obj(m) =>
        if m[q[0]].Null? {
          NullReads(p[1..], q[1..]);
        } else {
          ReadsThrough(m[q[0]], p[1..], q[1..]);
        }
      case Arr(a) => ReadsThrough(a[Slot(q[0], |a|).value], p[1..], q[1..]);
    }
  }

  lemma NullReads(p: Path, q: Path)
    requires |q| <= |p| && Get(Null, q).Some?
    ensures Get(Null, p) == Get(Get(Null, q).value, p[|q|..])
  {
    assert p[0..] == p;
  }

  lemma {:induction false} GetNormalized(d: Json, p: Path)
    ensures Get(Normalize(d), p) == if Get(d, p).Some? then Some(Normalize(Get(d, p).value)) else None
    decreases |p|
  {
    if p != [] {
      match d
      case Obj(m) => if p[0] in m { GetNormalized(m[p[0]], p[1..]); }
      case Arr(a) => if Slot(p[0], |a|).Some? { GetNormalized(a[Slot(p[0], |a|).value], p[1..]); }
      case _ =>
    }
  }

  lemma {:induction false} GetRecoded(d: Json, p: Path)
    ensures Get(Recode(d), p) == if Get(d, p).Some? then Some(Recode(Get(d, p).value)) else None
    decreases |p|
  {
    if p != [] {
      match d
      case Obj(m) => if p[0] in m { GetRecoded(m[p[0]], p[1..]); }
      case Arr(a) => if Slot(p[0], |a|).Some? { GetRecoded(a[Slot(p[0], |a|).value], p[1..]); }
      case _ =>
    }
  }

  lemma {:induction false} SameReads(a: Json, b: Json, p: Path)
    requires SameValue(a, b) && Get(b, p).Some?
    ensures Get(a, p).Some? && SameValue(Get(a, p).value, Get(b, p).value)
    decreases |p|
  {
    if p != [] {
      match b
      case Obj(m) => SameReads(a.fields[p[0]], m[p[0]], p[1..]);
      case Arr(xs) => SameReads(a.items[Slot(p[0], |xs|).value], xs[Slot(p[0], |xs|).value], p[1..]);
    }
  }

  /** A value holding x at the path, with objects on the way. */
  function Wrapped(p: Path, x: Json): Json {
    if p == [] then x else Obj(map[p[0] := Wrapped(p[1..], x)])
  }

  lemma {:induction false} WrappedReads(p: Path, b: bool)
    ensures var w := Wrapped(p, Bool(b)); Normalize(w) == w && Get(w, p) == Some(Bool(b)) && Reachable(w, p)
    decreases |p|
  {
    if p != [] { WrappedReads(p[1..], b); }
  }

  lemma FlagIsItself(v: Json, b: bool)
    ensures SameValue(v, Bool(b)) <==> v == Bool(b)
  {
  }

  /** A value the field did not hold. */
  function Other(d: Json, p: Path): bool {
    Get(d, p) != Some(Bool(true))
  }

  /** Two literal paths that do not part, the first reachable: for some values to write, some order of
      restoring fails or leaves a value that is not the original one. */
  lemma OverlapBreaks(d: Json, p: Path, q: Path) returns (v: Json, u: Json)
    requires Literal(p) && Literal(q) && Reachable(d, p) && !Apart(d, p, q)
    ensures !RoundTrips(d, TwoFields(p, v, q, u))
  {
    u := Null;
    if |p| <= |q| {
      v := Wrapped(q[|p|..], Bool(Other(d, q)));
      LowerOverlapBreaks(d, p, q, v, u);
    } else {
      v := Bool(Other(d, p));
      UpperOverlapBreaks(d, p, q, v, u);
    }
  }

  lemma LowerOverlapBreaks(d: Json, p: Path, q: Path, v: Json, u: Json)
    requires Literal(p) && Literal(q) && Reachable(d, p) && !Apart(d, p, q)
    requires |p| <= |q| && v == Wrapped(q[|p|..], Bool(Other(d, q)))
    ensures !RoundTrips(d, TwoFields(p, v, q, u))
  {
    var b := Other(d, q);
    WrappedReads(q[|p|..], b);
    ReachablePut(d, p, v);
    SeesWrite(d, p, v, q);
    var mid, w := TwoFieldsDown(d, p, v, q, u);
    assert Capture(mid, q) == CapturedField(true, Bool(b)) && w.log[Format(q)] == Capture(mid, q);
    if Get(d, q).Some? { FlagIsItself(Get(d, q).value, b); }
    assert w.paths[1] == q;
    WrongCaptureBreaks(d, TwoFields(p, v, q, u), q);
  }

  lemma UpperOverlapBreaks(d: Json, p: Path, q: Path, v: Json, u: Json)
    requires Literal(p) && Literal(q) && Reachable(d, p) && !Apart(d, p, q)
    requires |q| <= |p| && v == Bool(Other(d, p))
    ensures !RoundTrips(d, TwoFields(p, v, q, u))
  {
    var b, rest := Other(d, p), p[|q|..];
    ReachablePut(d, p, v);
    SeenFromAbove(d, p, v, q);
    var mid, w := TwoFieldsDown(d, p, v, q, u);
    var seen := Get(mid, q).value;
    assert w.log[Format(q)] == CapturedField(true, seen);
    if Get(d, q).Some? {
      var x := Get(d, q).value;
      ReadsThrough(d, p, q);
      if SameValue(x, seen) {
        SameReads(x, seen, rest);
        FlagIsItself(Get(x, rest).value, b);
      }
    }
    assert w.paths[1] == q;
    WrongCaptureBreaks(d, TwoFields(p, v, q, u), q);
  }

  /** Two configured literal paths are given back for all values and in every order exactly
      when they part in the original document, or the first one cannot be written and is
      skipped. */
  lemma TwoFieldsExactly(d: Json, p: Path, q: Path)
    requires Literal(p) && Literal(q) && ExactNumbers(d)
    ensures (forall v, u :: RoundTrips(d, TwoFields(p, v, q, u))) <==> Apart(d, p, q) || !Reachable(d, p)
  {
    if Apart(d, p, q) || !Reachable(d, p) {
      forall v, u ensures RoundTrips(d, TwoFields(p, v, q, u)) { PartingFieldsRoundTrip(d, p, v, q, u); }
    } else {
      var v, u := OverlapBreaks(d, p, q);
    }
  }

  lemma {:induction false} PrefixDoesNotPart(d: Json, outer: Path, inner: Path)
    ensures !Apart(d, outer + inner, outer)
    decreases |outer|
  {
    if outer != [] {
      assert (outer + inner)[1..] == outer[1..] + inner;
      match d
      case Obj(m) => PrefixDoesNotPart(ChildToWrite(m, outer[0]), outer[1..], inner);
      case Arr(a) =>
        if Slot(outer[0], |a|).Some? { PrefixDoesNotPart(a[Slot(outer[0], |a|).value], outer[1..], inner); }
      case _ => PrefixDoesNotPart(Obj(map[]), outer[1..], inner);
    }
  }

  /** When a field inside another configured field is written first, the outer field's
      captured value holds what lightsout wrote inside it. A restore that visits the outer
      field last fails before, or leaves lightsout's own value. */
  lemma OverlapKeepsOwnWrite(d: Json, outer: Path, inner: Path, u: Json, v: Json, order: seq<string>) returns (w: Writing)
    requires Literal(outer) && Literal(outer + inner) && Reachable(d, outer + inner)
    requires TurnDown(d, TwoFields(outer + inner, u, outer, v)).Some?
    requires Lists(order, TurnDown(d, TwoFields(outer + inner, u, outer, v)).value.log.Keys)
    requires order != [] && order[|order| - 1] == Format(outer)
    ensures TurnDown(d, TwoFields(outer + inner, u, outer, v)) == Some(w)
    ensures var back := PutBackAll(w.doc, w.log, order);
            back.Some? ==> Get(back.value, outer + inner) == Some(Normalize(Recode(Normalize(u))))
  {
    var path := outer + inner;
    PrefixDoesNotPart(d, outer, inner);
    ReachablePut(d, path, Normalize(u));
    SeenFromAbove(d, path, Normalize(u), outer);
    assert path[|outer|..] == inner;
    var mid;
    mid, w := TwoFieldsDown(d, path, u, outer, v);
    var seen := Get(mid, outer).value;
    var front := order[..|order| - 1];
    assert order == front + [Format(outer)];
    PutBackAllAppend(w.doc, w.log, front, Format(outer));
    ParseFormat(outer);
    var back := PutBackAll(w.doc, w.log, order);
    if back.Some? {
      var e := PutBackAll(w.doc, w.log, front).value;
      GetPut(e, outer, Normalize(Recode(seen)));
      LiveDocument.GetAppend(back.value, outer, inner);
      GetRecoded(seen, inner);
      GetNormalized(Recode(seen), inner);
    }
  }

  // ---- one input for each failure ------------------------------------------------------------------

  const A: Path := ["a"]
  const AB: Path := ["a", "b"]

  lemma Pointers()
    ensures Format(A) == "/a" && Format(AB) == "/a/b" && Literal(A) && Literal(AB)
  {
    assert Format(["b"]) == "/b";
    assert AB[1..] == ["b"];
    assert WILDCARD[0] == '*';
  }

  lemma OneField(m: map<string, Json>, k: string, v: Json)
    ensures Put(Obj(m), [k], v) == Some(Obj(m[k := v])) && Get(Obj(m), [k]) == Field(m, k)
    ensures Reachable(Obj(m), [k]) && WildcardsResolve(Obj(m), [WILDCARD], [k]) == (k in m)
  {
    assert [k][1..] == [] && [WILDCARD][1..] == [];
  }

  lemma FieldBelow(m: map<string, Json>, v: Json)
    ensures Put(Obj(map["a" := Obj(m)]), AB, v) == Some(Obj(map["a" := Obj(m["b" := v])]))
    ensures Get(Obj(map["a" := Obj(m)]), AB) == Field(m, "b")
  {
    OneField(m, "b", v);
    assert AB[1..] == ["b"] && map["a" := Obj(m)]["a" := Obj(m["b" := v])] == map["a" := Obj(m["b" := v])];
  }

  /** Restoring in two steps. */
  lemma TwoSteps(doc: Json, log: Log, first: string, second: string)
    requires first in log && second in log
    ensures PutBackAll(doc, log, [first, second]) ==
            match PutBack(doc, first, log[first]) case Some(e) => PutBack(e, second, log[second]) case None => None
  {
    PutBackAllAppend(doc, log, [first], second);
    assert [first] + [second] == [first, second];
    match PutBack(doc, first, log[first])
    case Some(e) => assert PutBackAll(e, log, [first][1..]) == Some(e);
    case None =>
  }

  function NestedB(m: map<string, Json>): Json {
    Obj(map["a" := Obj(m)])
  }

  lemma TwoRecords(log: Log, first: string, x: CapturedField, second: string, y: CapturedField)
    requires first != second && log == map[first := x][second := y]
    ensures log.Keys == {first, second} && log[first] == x && log[second] == y
  {
  }

  lemma NestedWrites(m: map<string, Json>, u: int, v: Json)
    ensures Reachable(NestedB(m), AB) && Put(NestedB(m), AB, Int(u)) == Some(NestedB(m["b" := Int(u)]))
    ensures Get(NestedB(m), AB) == Field(m, "b")
    ensures var mid := NestedB(m["b" := Int(u)]);
            Reachable(mid, A) && Put(mid, A, v) == Some(Obj(map["a" := v])) && Get(mid, A) == Some(Obj(m["b" := Int(u)]))
  {
    FieldBelow(m, Int(u));
    assert AB[1..] == ["b"];
    OneField(m, "b", Int(u));
    var base := map["a" := Obj(m["b" := Int(u)])];
    OneField(base, "a", v);
    assert base["a" := v] == map["a" := v];
  }

  /** Setting /a/b and then /a of an object nested under "a". */
  lemma DownOfNested(m: map<string, Json>, u: int, v: Json) returns (w: Writing)
    requires Normalize(v) == v
    ensures TurnDown(NestedB(m), TwoFields(AB, Int(u), A, v)) == Some(w)
    ensures w.doc == Obj(map["a" := v]) && w.log.Keys == {"/a/b", "/a"}
    ensures w.log["/a"] == CapturedField(true, Obj(m["b" := Int(u)]))
    ensures w.log["/a/b"] == if "b" in m then CapturedField(true, m["b"]) else CapturedField(false, Null)
  {
    Pointers();
    NestedWrites(m, u, v);
    var mid;
    mid, w := TwoFieldsDown(NestedB(m), AB, Int(u), A, v);
    assert |"/a"| != |"/a/b"|;
    TwoRecords(w.log, "/a/b", Capture(NestedB(m), AB), "/a", Capture(mid, A));
  }

  lemma ListsBoth(keys: set<string>)
    requires keys == {"/a/b", "/a"}
    ensures Lists(["/a/b", "/a"], keys)
  {
    assert |"/a"| != |"/a/b"|;
  }

  /** No token is empty, and yet restoring fails: the field /a/b of {"a": {}} is set, then
      /a itself is set to 5, and /a/b cannot be deleted below a number. */
  lemma OverlapBlocks() returns (w: Writing)
    ensures TurnDown(NestedB(map[]), TwoFields(AB, Int(1), A, Int(5))) == Some(w)
    ensures Lists(["/a/b", "/a"], w.log.Keys) && PutBackAll(w.doc, w.log, ["/a/b", "/a"]).None?
  {
    w := DownOfNested(map[], 1, Int(5));
    ListsBoth(w.log.Keys);
    NothingBelowNumber(5);
    TwoSteps(w.doc, w.log, "/a/b", "/a");
  }

  lemma NothingBelowNumber(n: int)
    ensures PutBack(Obj(map["a" := Int(n)]), "/a/b", CapturedField(false, Null)).None?
  {
    Pointers();
    ParseFormat(AB);
    assert AB[1..] == ["b"] && Remove(Int(n), ["b"]).None?;
  }

  /** Restoring succeeds and leaves lightsout's own value: /a/b of {"a": {"b": 0}} is set
      to 1, then /a to {}, and what was captured at /a holds the 1. */
  lemma OverlapLeavesOwnValue() returns (w: Writing)
    ensures TurnDown(NestedB(map["b" := Int(0)]), TwoFields(AB, Int(1), A, Obj(map[]))) == Some(w)
    ensures Lists(["/a/b", "/a"], w.log.Keys)
    ensures PutBackAll(w.doc, w.log, ["/a/b", "/a"]) == Some(NestedB(map["b" := Int(1)]))
  {
    w := DownOfNested(map["b" := Int(0)], 1, Obj(map[]));
    assert map["b" := Int(0)]["b" := Int(1)] == map["b" := Int(1)];
    ListsBoth(w.log.Keys);
    PutBackB(map[], 0);
    PutBackA(Obj(map["b" := Int(0)]), 1);
    TwoSteps(w.doc, w.log, "/a/b", "/a");
  }

  lemma PutBackB(m: map<string, Json>, n: int)
    requires IsInt64(n)
    ensures PutBack(NestedB(m), "/a/b", CapturedField(true, Int(n))) == Some(NestedB(m["b" := Int(n)]))
  {
    Pointers();
    ParseFormat(AB);
    RecodedInt(n);
    FieldBelow(m, Int(n));
  }

  lemma PutBackA(x: Json, n: int)
    requires IsInt64(n)
    ensures PutBack(Obj(map["a" := x]), "/a", CapturedField(true, Obj(map["b" := Int(n)]))) == Some(NestedB(map["b" := Int(n)]))
  {
    Pointers();
    ParseFormat(A);
    RecodedField(n);
    OneField(map["a" := x], "a", Obj(map["b" := Int(n)]));
    assert map["a" := x]["a" := Obj(map["b" := Int(n)])] == map["a" := Obj(map["b" := Int(n)])];
  }

  lemma RecodedInt(n: int)
    requires IsInt64(n)
    ensures Normalize(Recode(Int(n))) == Int(n)
  {
    assert (n as real).Floor == n;
  }

  lemma RecodedField(n: int)
    requires IsInt64(n)
    ensures Normalize(Recode(Obj(map["b" := Int(n)]))) == Obj(map["b" := Int(n)])
  {
    RecodedInt(n);
    assert Recode(Obj(map["b" := Int(n)])) == Obj(map["b" := Recode(Int(n))]);
  }

  /** Setting /a and then /a/b of {"a": {"b": 0}}. */
  lemma DownOfOuter() returns (w: Writing)
    ensures TurnDown(NestedB(map["b" := Int(0)]), TwoFields(A, Obj(map[]), AB, Int(1))) == Some(w)
    ensures w.doc == NestedB(map["b" := Int(1)]) && w.log.Keys == {"/a/b", "/a"} && w.paths == [A, AB]
    ensures w.log["/a"] == CapturedField(true, Obj(map["b" := Int(0)])) && w.log["/a/b"] == CapturedField(false, Null)
  {
    Pointers();
    OuterWrites();
    var d := NestedB(map["b" := Int(0)]);
    var mid;
    mid, w := TwoFieldsDown(d, A, Obj(map[]), AB, Int(1));
    assert |"/a"| != |"/a/b"|;
    TwoRecords(w.log, "/a", Capture(d, A), "/a/b", Capture(mid, AB));
  }

  lemma OuterWrites()
    ensures var d, mid := NestedB(map["b" := Int(0)]), NestedB(map[]);
            Reachable(d, A) && Put(d, A, Obj(map[])) == Some(mid) && Get(d, A) == Some(Obj(map["b" := Int(0)])) &&
            Reachable(mid, AB) && Put(mid, AB, Int(1)) == Some(NestedB(map["b" := Int(1)])) && Get(mid, AB) == None
  {
    var d := NestedB(map["b" := Int(0)]);
    OneField(d.fields, "a", Obj(map[]));
    assert d.fields["a" := Obj(map[])] == map["a" := Obj(map[])];
    FieldBelow(map[], Int(1));
    ReachableBelow();
  }

  lemma ReachableBelow()
    ensures Reachable(NestedB(map[]), AB)
  {
    assert AB[1..] == ["b"];
    OneField(map[], "b", Null);
  }

  /** A field recorded as absent is lost: /a of {"a": {"b": 0}} is set to {}, so /a/b, set
      next, is recorded as absent, and restoring it last deletes it. */
  lemma AbsenceLosesValue() returns (w: Writing)
    ensures TurnDown(NestedB(map["b" := Int(0)]), TwoFields(A, Obj(map[]), AB, Int(1))) == Some(w)
    ensures Lists(["/a", "/a/b"], w.log.Keys)
    ensures PutBackAll(w.doc, w.log, ["/a", "/a/b"]) == Some(NestedB(map[]))
    ensures !RoundTrips(NestedB(map["b" := Int(0)]), TwoFields(A, Obj(map[]), AB, Int(1)))
  {
    w := DownOfOuter();
    RestoresWithoutB(w.doc, w.log);
    BIsMissing();
    assert w.paths[1] == AB;
    OneOrderFails(NestedB(map["b" := Int(0)]), TwoFields(A, Obj(map[]), AB, Int(1)), w, ["/a", "/a/b"], 1);
  }

  lemma RestoresWithoutB(doc: Json, log: Log)
    requires doc == NestedB(map["b" := Int(1)]) && log.Keys == {"/a/b", "/a"}
    requires log["/a"] == CapturedField(true, Obj(map["b" := Int(0)])) && log["/a/b"] == CapturedField(false, Null)
    ensures Lists(["/a", "/a/b"], log.Keys) && PutBackAll(doc, log, ["/a", "/a/b"]) == Some(NestedB(map[]))
  {
    assert |"/a"| != |"/a/b"|;
    PutBackA(Obj(map["b" := Int(1)]), 0);
    DeleteB();
    TwoSteps(doc, log, "/a", "/a/b");
  }

  lemma OneOrderFails(d: Json, fields: seq<SetField>, w: Writing, order: seq<string>, i: nat)
    requires TurnDown(d, fields) == Some(w) && Lists(order, w.log.Keys) && i < |w.paths|
    requires PutBackAll(w.doc, w.log, order).Some? && !ReadsBack(d, PutBackAll(w.doc, w.log, order).value, w.paths[i])
    ensures !RoundTrips(d, fields)
  {
    assert !GivesBack(d, w, order);
  }

  lemma DeleteB()
    ensures PutBack(NestedB(map["b" := Int(0)]), "/a/b", CapturedField(false, Null)) == Some(NestedB(map[]))
  {
    Pointers();
    ParseFormat(AB);
    assert AB[1..] == ["b"] && map["b" := Int(0)] - {"b"} == map[];
    assert Remove(Obj(map["b" := Int(0)]), ["b"]) == Some(Obj(map[]));
    assert NestedB(map["b" := Int(0)]).fields["a" := Obj(map[])] == map["a" := Obj(map[])];
  }

  /** The restored document is not the original one. */
  lemma BIsMissing()
    ensures !ReadsBack(NestedB(map["b" := Int(0)]), NestedB(map[]), AB)
  {
    FieldBelow(map["b" := Int(0)], Null);
    FieldBelow(map[], Null);
  }

  /** A downscale records an empty key, and restoring then fails: a lone wildcard names the
      key "" of {"": 1}, whose pointer is "/". */
  lemma EmptyKeyBlocks() returns (w: Writing)
    ensures TurnDown(Obj(map["" := Int(1)]), [SetField("/*", Some(Int(0)))]) == Some(w)
    ensures w.paths == [[""]] && w.log == map["/" := CapturedField(true, Int(1))] && PutBackAll(w.doc, w.log, ["/"]).None?
  {
    w := EmptyKeyWritten();
    assert Encode("") == "" && Format([""]) == "/";
    EmptyKeyBlocksRestore(w.doc, w.log, ["/"], [""]);
  }

  lemma EmptyKeyWritten() returns (w: Writing)
    ensures TurnDown(Obj(map["" := Int(1)]), [SetField("/*", Some(Int(0)))]) == Some(w)
    ensures w.paths == [[""]] && w.log == map["/" := CapturedField(true, Int(1))]
  {
    var d := Obj(map["" := Int(1)]);
    StarPointer();
    WildcardExpands(d);
    w := EmptyKeyOverwritten(Writing(d, map[], []));
    OneFieldTurn(d, SetField("/*", Some(Int(0))), w);
  }

  lemma StarPointer()
    ensures Parse("/*") == Some([WILDCARD]) && Format([""]) == "/"
  {
    assert Encode("*") == "*" && Encode("") == "";
    assert Format([WILDCARD]) == "/*";
    ParseFormat([WILDCARD]);
  }

  lemma EmptyKeyOverwritten(start: Writing) returns (w: Writing)
    requires start == Writing(Obj(map["" := Int(1)]), map[], []) && Format([""]) == "/"
    ensures WritePaths(start, [[""]], Int(0)) == Some(w)
    ensures w.paths == [[""]] && w.log == map["/" := CapturedField(true, Int(1))]
  {
    OneField(map["" := Int(1)], "", Int(0));
    w := WritePath(start, [""], Int(0)).value;
    assert WritePaths(w, [[""]][1..], Int(0)) == Some(w);
    assert [] + [[""]] == [[""]];
  }

  lemma OneFieldTurn(d: Json, f: SetField, w: Writing)
    requires WriteField(Writing(d, map[], []), f) == Some(w)
    ensures TurnDown(d, [f]) == Some(w)
  {
    assert WriteFields(w, [f][1..]) == Some(w);
  }

  lemma WildcardExpands(d: Json)
    requires d == Obj(map["" := Int(1)])
    ensures Expand(d, [WILDCARD]) == [[""]]
  {
    var paths := Expand(d, [WILDCARD]);
    OneField(map["" := Int(1)], "", Int(0));
    ExpandExact(d, [WILDCARD], [""]);
    assert [""] in paths;
    ExpandDistinct(d, [WILDCARD]);
    forall i | 0 <= i < |paths| ensures paths[i] == [""] {
      ExpandExact(d, [WILDCARD], paths[i]);
      assert paths[i] == [paths[i][0]];
      OneField(map["" := Int(1)], paths[i][0], Int(0));
    }
    OnlyOne(paths, [""]);
  }

  lemma OnlyOne(paths: seq<Path>, p: Path)
    requires Distinct(paths) && p in paths && forall i :: 0 <= i < |paths| ==> paths[i] == p
    ensures paths == [p]
  {
    FirstTwoDiffer(paths);
  }

  lemma FirstTwoDiffer(paths: seq<Path>)
    requires Distinct(paths)
    ensures |paths| > 1 ==> paths[0] != paths[1]
  {
  }
}
