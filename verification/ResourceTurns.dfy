// What one turn makes of a custom resource when the API takes the write.
module ResourceTurns {
  import opened Wrappers
  import opened Json
  import opened Document
  import opened Restoration
  import opened CustomResource
  import opened Overwriting
  import PointerText
  import opened Clock
  import opened ResourceLifecycle

  predicate OwnedByOther(r: Resource, schedule: string) {
    r.managedBy.Some? && r.managedBy.value != schedule
  }

  predicate InState(r: Resource, schedule: string, state: string) {
    r.managedBy == Some(schedule) && r.state == Some(state)
  }

  lemma {:induction false} WrittenIsLogged(w: Writing, fields: seq<SetField>)
    requires WriteFields(w, fields).Some? && (w.paths != [] <==> w.log != map[])
    ensures var after := WriteFields(w, fields).value; after.paths != [] <==> after.log != map[]
    decreases |fields|
  {
    if fields != [] {
      var next, paths := FieldWrites(w, fields[0]);
      PathsAreLogged(w, paths, Normalize(fields[0].value.value));
      WrittenIsLogged(next, fields[1..]);
    }
  }

  lemma {:induction false} PathsAreLogged(w: Writing, paths: seq<Path>, v: Json)
    requires WritePaths(w, paths, v).Some? && (w.paths != [] <==> w.log != map[])
    ensures var after := WritePaths(w, paths, v).value; after.paths != [] <==> after.log != map[]
    decreases |paths|
  {
    if paths != [] {
      var next := WritePath(w, paths[0], v).value;
      assert next.log != map[] by { assert PointerText.Format(paths[0]) in next.log; }
      PathsAreLogged(next, paths[1..], v);
    }
  }

  /** An accepted downscale turns down every resource that no other schedule owns, that is
      not down already and of which some configured field fits a place; also one in the
      middle of its warmup, which it ends. Any other resource is left as it is. */
  lemma TurnsDownExactly(r: Resource, fields: seq<SetField>, schedule: string)
    ensures var (outcome, after) := Down(r, fields, schedule, true);
            var w := TurnDown(r.doc, fields);
            if !OwnedByOther(r, schedule) && !InState(r, schedule, DOWN) && w.Some? && w.value.paths != [] then
              outcome == Done && InState(after, schedule, DOWN) && after.doc == w.value.doc &&
              after.log == Some(w.value.log) && after.warmingUpSince == None
            else outcome != Done && after == r
  {
    if TurnDown(r.doc, fields).Some? { WrittenIsLogged(Writing(r.doc, map[], []), fields); }
  }

  /** A downscale in the middle of a warmup: the resource is down again, with its recorded
      values read from the document the warmup had restored. */
  lemma WarmupIsInterrupted(r: Resource, fields: seq<SetField>, schedule: string) returns (down: Resource)
    requires InState(r, schedule, WARMING_UP) && TurnDown(r.doc, fields).Some?
    requires var w := TurnDown(r.doc, fields).value; w.paths != [] && PathsApart(r.doc, w.paths)
    ensures Down(r, fields, schedule, true) == (Done, down) && InState(down, schedule, DOWN) && down.warmingUpSince == None
    ensures down.log.Some? && Records(r.doc, down.log.value, PathSet(TurnDown(r.doc, fields).value.paths))
  {
    assert |DOWN| != |WARMING_UP|;
    TurnsDownExactly(r, fields, schedule);
    down := Down(r, fields, schedule, true).1;
    assert Tracks(r.doc, Writing(r.doc, map[], []));
    WriteFieldsTracks(r.doc, Writing(r.doc, map[], []), fields);
  }

  /** An error-free night of a resource nobody marked: down, with every configured value in
      its place, in between; then warming up with its start recorded; and once released
      unmarked, with the document it had up to empty parents. */
  lemma ResourceNight(r: Resource, fields: seq<SetField>, schedule: string, now: Instant, order: seq<string>)
    returns (down: Resource, up: Resource, released: Resource)
    requires r == Cleared(r) && TurnDown(r.doc, fields).Some? && CanTurnDown(r.doc, fields)
    requires TurnDown(r.doc, fields).value.paths != [] && Lists(order, TurnDown(r.doc, fields).value.log.Keys)
    ensures Down(r, fields, schedule, true) == (Done, down) && InState(down, schedule, DOWN)
    ensures down.doc == TurnDown(r.doc, fields).value.doc && down.log.Some? && down.log.value.Keys == TurnDown(r.doc, fields).value.log.Keys
    ensures Up(down, schedule, now, order, true) == (Done, up) && InState(up, schedule, WARMING_UP)
    ensures up.warmingUpSince == Some(Stored(now)) && up.log == None
    ensures released == Release(up, schedule, true) && released == Cleared(released) && SameButHollow(r.doc, released.doc)
  {
    TurnsDownExactly(r, fields, schedule);
    down := Down(r, fields, schedule, true).1;
    RoundTrip(r.doc, fields, order);
    up := Up(down, schedule, now, order, true).1;
    released := Release(up, schedule, true);
  }
}
