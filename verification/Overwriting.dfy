// What a downscale of a custom resource puts in place of what it captures: every place a
// configured field fits holds the configured value at the end.
module Overwriting {
  import opened Wrappers
  import opened Json
  import opened Document
  import opened PointerText
  import opened Restoration
  import opened CustomResource

  /** A write leaves any two of the paths apart that were, its own among them. */
  lemma {:induction false} ApartAfterPut(d: Json, p: Path, v: Json, q: Path, r: Path)
    requires Put(d, p, v).Some? && Apart(d, q, r)
    requires (p == q || Apart(d, p, q)) && (p == r || Apart(d, p, r))
    ensures Apart(Put(d, p, v).value, q, r)
    decreases |p|
  {
    if p != [] {
      match d
      case Obj(m) =>
        if p[0] == q[0] == r[0] {
          ApartAfterPut(ChildToWrite(m, p[0]), p[1..], v, q[1..], r[1..]);
          if p[1..] != [] { assert !Put(ChildToWrite(m, p[0]), p[1..], v).value.Null?; }
        }
      case Arr(a) =>
        var i := Slot(p[0], |a|);
        if i == Slot(q[0], |a|) == Slot(r[0], |a|) { ApartAfterPut(a[i.value], p[1..], v, q[1..], r[1..]); }
    }
  }

  lemma ApartOfPair(d: Json, all: seq<Path>, p: Path, q: Path)
    requires PathsApart(d, all) && p in all && q in all && p != q
    ensures Apart(d, p, q)
  {
    var i :| 0 <= i < |all| && all[i] == p;
    var j :| 0 <= j < |all| && all[j] == q;
    if j < i { ApartSymmetric(d, q, p); }
  }

  lemma PutStandsApart(d: Json, p: Path, v: Json, all: seq<Path>)
    requires PathsApart(d, all) && p in all && Put(d, p, v).Some?
    ensures var e := Put(d, p, v).value;
            PathsApart(e, all) && Get(e, p) == Some(v) && forall q :: q in all && q != p ==> Get(e, q) == Get(d, q)
  {
    var e := Put(d, p, v).value;
    GetPut(d, p, v);
    forall i, j | 0 <= i < j < |all| ensures Apart(e, all[i], all[j]) {
      if p != all[i] { ApartOfPair(d, all, p, all[i]); }
      if p != all[j] { ApartOfPair(d, all, p, all[j]); }
      ApartAfterPut(d, p, v, all[i], all[j]);
    }
    forall q | q in all && q != p ensures Get(e, q) == Get(d, q) {
      ApartOfPair(d, all, p, q);
      PutFrame(d, p, v, q);
    }
  }

  /** The written paths read as written, the others of the downscale as before. */
  ghost predicate Stand(before: Json, after: Json, paths: seq<Path>, v: Json, all: seq<Path>) {
    PathsApart(after, all) && (forall p :: p in paths ==> Get(after, p) == Some(v)) &&
    forall q :: q in all && q !in paths ==> Get(after, q) == Get(before, q)
  }

  lemma {:induction false} WritePathsStand(w: Writing, paths: seq<Path>, v: Json, all: seq<Path>)
    requires WritePaths(w, paths, v).Some? && PathsApart(w.doc, all)
    requires (forall p :: p in paths ==> p in all) && Distinct(paths)
    ensures Stand(w.doc, WritePaths(w, paths, v).value.doc, paths, v, all)
    decreases |paths|
  {
    if paths != [] {
      var next, rest := WritePath(w, paths[0], v).value, paths[1..];
      PutStandsApart(w.doc, paths[0], v, all);
      WritePathsStand(next, rest, v, all);
      FirstNotAgain(paths);
    }
  }

  lemma FirstNotAgain(paths: seq<Path>)
    requires paths != [] && Distinct(paths)
    ensures paths[0] !in paths[1..] && forall p :: p in paths <==> p == paths[0] || p in paths[1..]
  {
    assert paths == [paths[0]] + paths[1..];
  }

  /** What was written so far is left alone by the fields still to come. */
  lemma {:induction false} WriteFieldsStand(w: Writing, fields: seq<SetField>, all: seq<Path>)
    requires WriteFields(w, fields).Some? && WriteFields(w, fields).value.paths <= all && PathsApart(w.doc, all)
    ensures var after := WriteFields(w, fields).value.doc;
            PathsApart(after, all) && forall q :: q in w.paths ==> Get(after, q) == Get(w.doc, q)
    decreases |fields|
  {
    if fields != [] {
      var next, paths := FieldWrites(w, fields[0]);
      WriteFieldsExtends(next, fields[1..]);
      TailOfApart(w.doc, w.paths, paths, all);
      WritePathsStand(w, paths, Normalize(fields[0].value.value), all);
      WriteFieldsStand(next, fields[1..], all);
    }
  }

  /** The paths one field writes. */
  lemma FieldWrites(w: Writing, f: SetField) returns (next: Writing, paths: seq<Path>)
    requires WriteField(w, f).Some?
    ensures Parse(f.path).Some? && f.value.Some? && paths == Expand(w.doc, Parse(f.path).value)
    ensures WriteField(w, f) == Some(next) && WritePaths(w, paths, Normalize(f.value.value)) == Some(next)
    ensures next.paths == w.paths + paths && Distinct(paths)
  {
    next, paths := WriteField(w, f).value, Expand(w.doc, Parse(f.path).value);
    WritePathsExtends(w, paths, Normalize(f.value.value));
    ExpandDistinct(w.doc, Parse(f.path).value);
  }

  /** Paths written later are not among those written before. */
  lemma TailOfApart(d: Json, front: seq<Path>, paths: seq<Path>, all: seq<Path>)
    requires PathsApart(d, all) && front + paths <= all
    ensures (forall p :: p in paths ==> p in all) && forall q :: q in front ==> q in all && q !in paths
  {
    forall p | p in paths ensures p in all && p !in front {
      var j :| 0 <= j < |paths| && paths[j] == p;
      assert all[|front| + j] == p;
      forall i | 0 <= i < |front| ensures front[i] != p {
        assert all[i] == front[i] && Apart(d, all[i], all[|front| + j]);
        ApartIrreflexive(d, p);
      }
    }
    forall q | q in front ensures q in all {
      var i :| 0 <= i < |front| && front[i] == q;
      assert all[i] == q;
    }
  }

  lemma {:induction false} FieldsSplit(w: Writing, fields: seq<SetField>, j: nat) returns (mid: Writing)
    requires WriteFields(w, fields).Some? && j <= |fields|
    ensures WriteFields(w, fields[..j]) == Some(mid) && WriteFields(mid, fields[j..]) == WriteFields(w, fields)
    decreases j
  {
    if j == 0 {
      mid := w;
      assert fields[0..] == fields;
    } else {
      mid := FieldsSplit(WriteField(w, fields[0]).value, fields[1..], j - 1);
      assert fields[1..][..j - 1] == fields[..j][1..] && fields[1..][j - 1..] == fields[j..];
    }
  }

  /** When the written paths part pairwise, every place a configured field fits, in the
      document its turn finds, holds the configured value once the resource is down. */
  lemma DownTakesEffect(d: Json, fields: seq<SetField>, j: nat) returns (mid: Writing)
    requires TurnDown(d, fields).Some? && PathsApart(d, TurnDown(d, fields).value.paths) && j < |fields|
    ensures TurnDown(d, fields[..j]) == Some(mid) && Parse(fields[j].path).Some? && fields[j].value.Some?
    ensures var w := TurnDown(d, fields).value;
            forall p :: p in Expand(mid.doc, Parse(fields[j].path).value) ==>
              p in w.paths && Get(w.doc, p).Some? && SameValue(fields[j].value.value, Get(w.doc, p).value)
  {
    var w := TurnDown(d, fields).value;
    mid := FieldsSplit(Writing(d, map[], []), fields, j);
    WriteFieldsExtends(mid, fields[j..]);
    WriteFieldsStand(Writing(d, map[], []), fields[..j], w.paths);
    assert fields[j..][0] == fields[j];
    var next, paths := FieldWrites(mid, fields[j]);
    WriteFieldsExtends(next, fields[j..][1..]);
    TailOfApart(mid.doc, mid.paths, paths, w.paths);
    WritePathsStand(mid, paths, Normalize(fields[j].value.value), w.paths);
    WriteFieldsStand(next, fields[j..][1..], w.paths);
    NormalizeKeepsValue(fields[j].value.value);
  }
}
