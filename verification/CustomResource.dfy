// Turning an operator's custom resource off for the night and giving it back: the
// configured fields are overwritten, their original values recorded on the resource,
// and written back on the way up.
//
// The resource is held as its document plus the four metadata keys lightsout owns. A
// configured path never addresses those keys.
module CustomResource {
  import opened Wrappers
  import opened Json
  import opened Document
  import opened Restoration
  import opened PointerText

  const DOWN: string := "down"
  const WARMING_UP: string := "warming-up"

  /** What a field looked like before it was overwritten. */
  datatype CapturedField = CapturedField(present: bool, value: Json)

  /** The captured fields by printed pointer. */
  type Log = map<string, CapturedField>

  /** One configured field; value is None when the configured JSON does not decode. */
  datatype SetField = SetField(path: string, value: Option<Json>)

  // ---- downscale: capture and overwrite ------------------------------------------------

  /** The document being overwritten, what was captured, and the paths written so far. */
  datatype Writing = Writing(doc: Json, log: Log, paths: seq<Path>)

  function Capture(d: Json, p: Path): CapturedField {
    match Get(d, p)
    case Some(v) => CapturedField(true, v)
    case None => CapturedField(false, Null)
  }

  function WritePath(w: Writing, p: Path, v: Json): Option<Writing> {
    match Put(w.doc, p, v)
    case Some(d) => Some(Writing(d, w.log[Format(p) := Capture(w.doc, p)], w.paths + [p]))
    case None => None
  }

  function WritePaths(w: Writing, paths: seq<Path>, v: Json): (r: Option<Writing>)
    decreases |paths|
  {
    if paths == [] then Some(w)
    else
      match WritePath(w, paths[0], v)
      case Some(next) => WritePaths(next, paths[1..], v)
      case None => None
  }

  function WriteField(w: Writing, f: SetField): Option<Writing> {
    match (Parse(f.path), f.value)
    case (Some(tokens), Some(raw)) => WritePaths(w, Expand(w.doc, tokens), Normalize(raw))
    case _ => None
  }

  function WriteFields(w: Writing, fields: seq<SetField>): (r: Option<Writing>)
    decreases |fields|
  {
    if fields == [] then Some(w)
    else
      match WriteField(w, fields[0])
      case Some(next) => WriteFields(next, fields[1..])
      case None => None
  }

  // ---- upscale: write back ----------------------------------------------------------------

  function PutBack(d: Json, pointer: string, f: CapturedField): Option<Json> {
    match Parse(pointer)
    case None => None
    case Some(tokens) =>
      if f.present then Put(d, tokens, Normalize(Recode(f.value))) else Remove(d, tokens)
  }

  /** Writing the captured fields back in the given order. */
  function PutBackAll(d: Json, log: Log, order: seq<string>): (r: Option<Json>)
    requires forall k :: k in order ==> k in log
    decreases |order|
  {
    if order == [] then Some(d)
    else
      match PutBack(d, order[0], log[order[0]])
      case Some(next) => PutBackAll(next, log, order[1..])
      case None => None
  }

  /** The order visits every key once. A Go map is walked in any such order. */
  ghost predicate Lists(order: seq<string>, keys: set<string>) {
    (forall k :: k in order <==> k in keys) &&
    forall i, j :: 0 <= i < j < |order| ==> order[i] != order[j]
  }

  /** Any partial visit can be completed. */
  lemma Complete(order: seq<string>, seen: set<string>, keys: set<string>) returns (full: seq<string>)
    requires Lists(order, seen) && seen <= keys
    ensures Lists(full, keys) && order <= full
    decreases keys - seen
  {
    if keys - seen == {} {
      assert seen == keys;
      full := order;
    } else {
      var k :| k in keys - seen;
      assert Lists(order + [k], seen + {k});
      full := Complete(order + [k], seen + {k}, keys);
    }
  }

  // ---- overwriting never fails half-way -----------------------------------------------------

  lemma {:induction false} ReachableKept(d: Json, p: Path, v: Json, q: Path)
    requires Put(d, p, v).Some? && Apart(d, p, q) && Reachable(d, q)
    ensures Reachable(Put(d, p, v).value, q)
    decreases |p|
  {
    match d
    case Obj(m) =>
      if p[0] == q[0] {
        if p[0] !in m || m[p[0]].Null? { EmptyReachable(q[1..]); }
        ReachableKept(ChildToWrite(m, p[0]), p[1..], v, q[1..]);
      }
    case Arr(a) =>
      if Slot(p[0], |a|) == Slot(q[0], |a|) { ReachableKept(a[Slot(p[0], |a|).value], p[1..], v, q[1..]); }
  }

  lemma {:induction false} ApartKept(d: Json, p: Path, v: Json, q: Path, r: Path)
    requires Put(d, p, v).Some? && Apart(d, p, q) && Apart(d, p, r) && Apart(d, q, r)
    ensures Apart(Put(d, p, v).value, q, r)
    decreases |p|
  {
    match d
    case Obj(m) =>
      if p[0] == q[0] == r[0] {
        ApartKept(ChildToWrite(m, p[0]), p[1..], v, q[1..], r[1..]);
        assert !Put(ChildToWrite(m, p[0]), p[1..], v).value.Null?;
      }
    case Arr(a) =>
      var i := Slot(p[0], |a|);
      if i == Slot(q[0], |a|) == Slot(r[0], |a|) { ApartKept(a[i.value], p[1..], v, q[1..], r[1..]); }
  }

  /** Paths that can each be written, and that part pairwise. */
  predicate Writable(d: Json, paths: seq<Path>) {
    (forall i :: 0 <= i < |paths| ==> Reachable(d, paths[i])) &&
    forall i, j :: 0 <= i < j < |paths| ==> Apart(d, paths[i], paths[j])
  }

  lemma WritableNext(d: Json, paths: seq<Path>, v: Json)
    requires paths != [] && Writable(d, paths)
    ensures Put(d, paths[0], v).Some?
    ensures Writable(Put(d, paths[0], v).value, paths[1..])
  {
    ReachablePut(d, paths[0], v);
    var e := Put(d, paths[0], v).value;
    var rest := paths[1..];
    forall i | 0 <= i < |rest| ensures Reachable(e, rest[i]) {
      assert Apart(d, paths[0], paths[i + 1]);
      ReachableKept(d, paths[0], v, rest[i]);
    }
    forall i, j | 0 <= i < j < |rest| ensures Apart(e, rest[i], rest[j]) {
      assert Apart(d, paths[0], paths[i + 1]) && Apart(d, paths[0], paths[j + 1]) && Apart(d, paths[i + 1], paths[j + 1]);
      ApartKept(d, paths[0], v, rest[i], rest[j]);
    }
  }

  lemma ExpandWritable(d: Json, pattern: Path)
    ensures Writable(d, Expand(d, pattern))
  {
    var paths := Expand(d, pattern);
    ExpandDistinct(d, pattern);
    forall i | 0 <= i < |paths| ensures Reachable(d, paths[i]) {
      ExpandExact(d, pattern, paths[i]);
    }
    forall i, j | 0 <= i < j < |paths| ensures Apart(d, paths[i], paths[j]) {
      ExpandedApart(d, pattern, paths[i], paths[j]);
    }
  }

  lemma {:induction false} WritePathsTotal(w: Writing, paths: seq<Path>, v: Json)
    requires Writable(w.doc, paths)
    ensures WritePaths(w, paths, v).Some?
    decreases |paths|
  {
    if paths != [] {
      WritableNext(w.doc, paths, v);
      WritePathsTotal(WritePath(w, paths[0], v).value, paths[1..], v);
    }
  }

  /** Overwriting the configured fields fails exactly when one of them has a malformed
      path or value; writing an expanded path never does. */
  lemma {:induction false} WriteFieldsFailure(w: Writing, fields: seq<SetField>)
    ensures WriteFields(w, fields).Some? <==>
            forall i :: 0 <= i < |fields| ==> Parse(fields[i].path).Some? && fields[i].value.Some?
    decreases |fields|
  {
    if fields != [] {
      var f := fields[0];
      if Parse(f.path).Some? && f.value.Some? {
        ExpandWritable(w.doc, Parse(f.path).value);
        WritePathsTotal(w, Expand(w.doc, Parse(f.path).value), Normalize(f.value.value));
        WriteFieldsFailure(WriteField(w, f).value, fields[1..]);
        assert forall i :: 0 < i < |fields| ==> fields[i] == fields[1..][i - 1];
      }
    }
  }

  // ---- what a captured log means --------------------------------------------------------------

  function PathSet(paths: seq<Path>): set<Path> {
    set i | 0 <= i < |paths| :: paths[i]
  }

  /** The log records, under each captured path's pointer, what the original held there. */
  ghost predicate Records(d: Json, log: Log, captured: set<Path>) {
    (forall k :: k in log ==> exists p :: p in captured && Format(p) == k) &&
    forall p :: p in captured ==> Format(p) in log && log[Format(p)] == Capture(d, p)
  }

  ghost predicate Tracks(d: Json, w: Writing) {
    Became(Some(d), w.doc, PathSet(w.paths), PathSet(w.paths)) && Records(d, w.log, PathSet(w.paths))
  }

  /** The paths written in one downscale part pairwise in the original document: none is
      a prefix of another and none is written twice. */
  predicate PathsApart(d: Json, paths: seq<Path>) {
    forall i, j :: 0 <= i < j < |paths| ==> Apart(d, paths[i], paths[j])
  }

  lemma RecordOne(d: Json, log: Log, captured: set<Path>, p: Path)
    requires Records(d, log, captured)
    ensures Records(d, log[Format(p) := Capture(d, p)], captured + {p})
  {
    var next := log[Format(p) := Capture(d, p)];
    forall q | q in captured + {p} ensures Format(q) in next && next[Format(q)] == Capture(d, q) {
      if Format(q) == Format(p) { FormatInjective(q, p); }
    }
    forall k | k in next ensures exists q :: q in captured + {p} && Format(q) == k {
      if k == Format(p) {
        assert p in captured + {p};
      } else {
        var q :| q in captured && Format(q) == k;
        assert q in captured + {p};
      }
    }
  }

  lemma ApartFromWritten(d: Json, paths: seq<Path>, p: Path)
    requires PathsApart(d, paths + [p])
    ensures ApartFrom(Some(d), p, PathSet(paths))
  {
    forall q | q in PathSet(paths) ensures Apart(OrEmpty(Some(d)), p, q) {
      var i :| 0 <= i < |paths| && paths[i] == q;
      assert (paths + [p])[i] == q && (paths + [p])[|paths|] == p;
      ApartSymmetric(d, q, p);
    }
  }

  lemma WritePathTracks(d: Json, w: Writing, p: Path, v: Json)
    requires Tracks(d, w) && Reachable(w.doc, p) && PathsApart(d, w.paths + [p])
    ensures WritePath(w, p, v).Some? && Tracks(d, WritePath(w, p, v).value)
  {
    var captured := PathSet(w.paths);
    ApartFromWritten(d, w.paths, p);
    OverwriteStep(Some(d), w.doc, captured, captured, p, v);
    OriginalRead(Some(d), w.doc, captured, captured, p);
    assert Capture(w.doc, p) == Capture(d, p);
    RecordOne(d, w.log, captured, p);
    PathSetAppend(w.paths, p);
  }

  lemma PathSetAppend(paths: seq<Path>, p: Path)
    ensures PathSet(paths + [p]) == PathSet(paths) + {p}
  {
    forall q | q in PathSet(paths) + {p} ensures q in PathSet(paths + [p]) {
      if q == p {
        assert (paths + [p])[|paths|] == p;
      } else {
        var i :| 0 <= i < |paths| && paths[i] == q;
        assert (paths + [p])[i] == q;
      }
    }
  }

  lemma {:induction false} WritePathsTracks(d: Json, w: Writing, paths: seq<Path>, v: Json)
    requires Tracks(d, w) && Writable(w.doc, paths)
    requires WritePaths(w, paths, v).Some? && PathsApart(d, WritePaths(w, paths, v).value.paths)
    ensures Tracks(d, WritePaths(w, paths, v).value)
    decreases |paths|
  {
    if paths != [] {
      WritePathsExtends(w, paths, v);
      var all := WritePaths(w, paths, v).value.paths;
      assert w.paths + [paths[0]] == all[..|w.paths| + 1];
      assert PathsApart(d, w.paths + [paths[0]]);
      WritePathTracks(d, w, paths[0], v);
      WritableNext(w.doc, paths, v);
      WritePathsTracks(d, WritePath(w, paths[0], v).value, paths[1..], v);
    }
  }

  lemma {:induction false} WritePathsExtends(w: Writing, paths: seq<Path>, v: Json)
    requires WritePaths(w, paths, v).Some?
    ensures WritePaths(w, paths, v).value.paths == w.paths + paths
    decreases |paths|
  {
    if paths != [] {
      WritePathsExtends(WritePath(w, paths[0], v).value, paths[1..], v);
      assert paths == [paths[0]] + paths[1..];
    }
  }

  lemma {:induction false} WriteFieldsExtends(w: Writing, fields: seq<SetField>)
    requires WriteFields(w, fields).Some?
    ensures w.paths <= WriteFields(w, fields).value.paths
    decreases |fields|
  {
    if fields != [] {
      WritePathsExtends(w, Expand(w.doc, Parse(fields[0].path).value), Normalize(fields[0].value.value));
      WriteFieldsExtends(WriteField(w, fields[0]).value, fields[1..]);
    }
  }

  lemma {:induction false} WriteFieldsTracks(d: Json, w: Writing, fields: seq<SetField>)
    requires Tracks(d, w)
    requires WriteFields(w, fields).Some? && PathsApart(d, WriteFields(w, fields).value.paths)
    ensures Tracks(d, WriteFields(w, fields).value)
    decreases |fields|
  {
    if fields != [] {
      var tokens := Parse(fields[0].path).value;
      var next := WriteField(w, fields[0]).value;
      WriteFieldsExtends(next, fields[1..]);
      assert PathsApart(d, next.paths);
      ExpandWritable(w.doc, tokens);
      WritePathsTracks(d, w, Expand(w.doc, tokens), Normalize(fields[0].value.value));
      WriteFieldsTracks(d, next, fields[1..]);
    }
  }

  /** The whole downscale write, from an untouched document. */
  function TurnDown(d: Json, fields: seq<SetField>): Option<Writing> {
    WriteFields(Writing(d, map[], []), fields)
  }

  /** What the captured values must be for the recorded text to hold them: paths whose
      pointer parses back, numbers a float64 holds exactly. */
  predicate Recordable(d: Json, p: Path) {
    p != [] && NonEmptyTokens(p) && (Get(d, p).Some? ==> ExactNumbers(Get(d, p).value))
  }

  /** The current document is the original with the captured fields overwritten, and the
      log says how to undo it. */
  ghost predicate Held(d: Json, doc: Json, log: Log, captured: set<Path>) {
    PairwiseApart(d, captured) &&
    (forall p :: p in captured ==> Recordable(d, p)) &&
    Records(d, log, captured) &&
    Became(Some(d), doc, captured, captured)
  }

  /** A downscale can be undone when the paths it writes part pairwise and are recordable. */
  predicate CanTurnDown(d: Json, fields: seq<SetField>) {
    var w := TurnDown(d, fields);
    w.Some? ==> PathsApart(d, w.value.paths) && forall i :: 0 <= i < |w.value.paths| ==> Recordable(d, w.value.paths[i])
  }

  lemma TurnDownHolds(d: Json, fields: seq<SetField>)
    requires TurnDown(d, fields).Some? && CanTurnDown(d, fields)
    ensures var w := TurnDown(d, fields).value; Held(d, w.doc, w.log, PathSet(w.paths))
  {
    var w := TurnDown(d, fields).value;
    assert Tracks(d, Writing(d, map[], []));
    WriteFieldsTracks(d, Writing(d, map[], []), fields);
    ApartPairs(d, w.paths);
    forall p | p in PathSet(w.paths) ensures Recordable(d, p) {
      var i :| 0 <= i < |w.paths| && w.paths[i] == p;
    }
  }

  lemma ApartPairs(d: Json, paths: seq<Path>)
    requires PathsApart(d, paths)
    ensures PairwiseApart(d, PathSet(paths))
  {
    forall p, q | p in PathSet(paths) && q in PathSet(paths) && p != q ensures Apart(d, p, q) {
      var i :| 0 <= i < |paths| && paths[i] == p;
      var j :| 0 <= j < |paths| && paths[j] == q;
      if j < i { ApartSymmetric(d, q, p); }
    }
  }

  // ---- restoring undoes it, in any order --------------------------------------------------------

  lemma PutBackOne(d: Json, e: Json, log: Log, captured: set<Path>, open: set<Path>, p: Path)
    requires PairwiseApart(d, captured) && Records(d, log, captured) && Recordable(d, p)
    requires Became(Some(d), e, captured, open) && open <= captured && p in open
    ensures var next := PutBack(e, Format(p), log[Format(p)]);
            next.Some? && Became(Some(d), next.value, captured, open - {p})
  {
    ParseFormat(p);
    forall q | q in captured - {p} ensures Apart(OrEmpty(Some(d)), p, q) {}
    match Get(d, p)
    case Some(v) =>
      RecodedIsReturned(v);
      PutBackStep(Some(d), e, captured, open, p, Normalize(Recode(v)));
    case None =>
      DeleteBackStep(Some(d), e, captured, open, p);
  }

  ghost function Pointers(paths: set<Path>): set<string> {
    set p | p in paths :: Format(p)
  }

  lemma ListsNext(order: seq<string>, open: set<Path>, p: Path)
    requires Lists(order, Pointers(open)) && order != [] && p in open && Format(p) == order[0]
    ensures Lists(order[1..], Pointers(open - {p}))
  {
    forall k | k in Pointers(open - {p}) ensures k in order[1..] {
      var q :| q in open - {p} && Format(q) == k;
      if k == order[0] { FormatInjective(p, q); }
      assert k in order && order == [order[0]] + order[1..];
    }
    forall k | k in order[1..] ensures k in Pointers(open - {p}) {
      var i :| 0 <= i < |order[1..]| && order[1..][i] == k;
      assert order[i + 1] == k && k in order;
      var q :| q in open && Format(q) == k;
      assert q != p && q in open - {p};
    }
  }

  lemma {:induction false} PutBackAllCloses(d: Json, e: Json, log: Log, captured: set<Path>, open: set<Path>, order: seq<string>)
    requires PairwiseApart(d, captured) && Records(d, log, captured)
    requires forall p :: p in captured ==> Recordable(d, p)
    requires Became(Some(d), e, captured, open) && open <= captured
    requires Lists(order, Pointers(open)) && forall k :: k in order ==> k in log
    ensures PutBackAll(e, log, order).Some?
    ensures Became(Some(d), PutBackAll(e, log, order).value, captured, {})
    decreases |order|
  {
    if order == [] {
      forall p | p in open ensures Format(p) in order {}
      assert open == {};
    } else {
      assert order[0] in order;
      var p :| p in open && Format(p) == order[0];
      PutBackOne(d, e, log, captured, open, p);
      ListsNext(order, open, p);
      PutBackAllCloses(d, PutBack(e, order[0], log[order[0]]).value, log, captured, open - {p}, order[1..]);
    }
  }

  lemma RecordsKeys(d: Json, log: Log, captured: set<Path>)
    requires Records(d, log, captured)
    ensures log.Keys == Pointers(captured)
  {
  }

  /** Restoring a held document succeeds in every order and leaves nothing open. */
  lemma RestoreHeld(d: Json, doc: Json, log: Log, captured: set<Path>, order: seq<string>)
    requires Held(d, doc, log, captured) && Lists(order, log.Keys)
    ensures PutBackAll(doc, log, order).Some?
    ensures Became(Some(d), PutBackAll(doc, log, order).value, captured, {})
  {
    RecordsKeys(d, log, captured);
    PutBackAllCloses(d, doc, log, captured, captured, order);
  }

  /** Round trip: after downscale and restore, in whatever order the captured fields are
      visited,
      - every captured path reads as it did before: absent again, or the same value, whole
        numbers as integers; a value that was held so already is back unchanged;
      - every path that parts from the captured ones reads exactly as before;
      - the whole document differs only by empty parent objects. */
  lemma RoundTrip(d: Json, fields: seq<SetField>, order: seq<string>)
    requires TurnDown(d, fields).Some? && CanTurnDown(d, fields)
    requires Lists(order, TurnDown(d, fields).value.log.Keys)
    ensures var w := TurnDown(d, fields).value;
            var back := PutBackAll(w.doc, w.log, order);
            back.Some? &&
            (forall i :: 0 <= i < |w.paths| ==>
               var before, after := Get(d, w.paths[i]), Get(back.value, w.paths[i]);
               (before.Some? <==> after.Some?) &&
               (before.Some? ==> SameValue(before.value, after.value) && (Normal(before.value) ==> before == after))) &&
            (forall q :: (forall i :: 0 <= i < |w.paths| ==> Apart(d, q, w.paths[i])) ==> Get(back.value, q) == Get(d, q)) &&
            SameButHollow(d, back.value)
  {
    var w := TurnDown(d, fields).value;
    var captured := PathSet(w.paths);
    TurnDownHolds(d, fields);
    RestoreHeld(d, w.doc, w.log, captured, order);
    var back := PutBackAll(w.doc, w.log, order).value;
    forall i | 0 <= i < |w.paths|
      ensures Get(d, w.paths[i]).Some? <==> Get(back, w.paths[i]).Some?
      ensures Get(d, w.paths[i]).Some? ==> SameValue(Get(d, w.paths[i]).value, Get(back, w.paths[i]).value)
      ensures Get(d, w.paths[i]).Some? && Normal(Get(d, w.paths[i]).value) ==> Get(d, w.paths[i]) == Get(back, w.paths[i])
    {
      var p := w.paths[i];
      forall q | q in captured - {p} ensures Apart(OrEmpty(Some(d)), p, q) {}
      RestoredRead(Some(d), back, captured, p);
      if Get(d, p).Some? && Normal(Get(d, p).value) { SameNormalIsEqual(Get(d, p).value, Get(back, p).value); }
    }
    forall q | forall i :: 0 <= i < |w.paths| ==> Apart(d, q, w.paths[i]) ensures Get(back, q) == Get(d, q) {
      forall p | p in captured ensures Apart(OrEmpty(Some(d)), q, p) {
        var i :| 0 <= i < |w.paths| && w.paths[i] == p;
      }
      OriginalRead(Some(d), back, captured, {}, q);
    }
    RestoredIsSame(Some(d), back, captured);
  }
}
