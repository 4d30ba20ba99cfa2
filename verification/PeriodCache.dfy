// The period cache: answers are kept until the next transition, under a key made of the
// two expressions and the time zone.
module PeriodCache {
  import opened Wrappers
  import opened Clock
  import opened CronFires
  import opened Period

  /** What the cron and time zone libraries give; None is an expression they refuse. */
  datatype Library = Library(
    zoneKnown: string -> bool,
    parse: (string, string) -> Option<Cron>,
    tenYearsBefore: Instant -> Instant)

  datatype Request = Request(up: string, down: string, zone: string, now: Instant)

  datatype Entry = Entry(result: PeriodResult, validUntil: Instant)

  type Entries = map<string, Entry>

  /** generateCacheKey, up to SHA-256, which is taken to be injective: it digests the three
      strings one after the other. */
  function Key(r: Request): string {
    r.up + r.down + r.zone
  }

  /** The answer without a cache. */
  function Recompute(lib: Library, r: Request): Option<PeriodResult> {
    if !lib.zoneKnown(r.zone) then None
    else
      match (lib.parse(r.up, r.zone), lib.parse(r.down, r.zone))
      case (Some(up), Some(down)) => Some(Compute(up, down, r.now, lib.tenYearsBefore))
      case _ => None
  }

  function ValidUntil(p: PeriodResult): Instant {
    if p.nextDownscale < p.nextUpscale then p.nextDownscale else p.nextUpscale
  }

  function Lookup(entries: Entries, key: string, now: Instant): Option<PeriodResult> {
    if key in entries && now <= entries[key].validUntil then Some(entries[key].result) else None
  }

  /** CalculatePeriod: the answer and the cache afterwards. */
  function Calculate(lib: Library, entries: Entries, r: Request): (Option<PeriodResult>, Entries) {
    match Lookup(entries, Key(r), r.now)
    case Some(p) => (Some(p), entries)
    case None =>
      match Recompute(lib, r)
      case None => (None, entries)
      case Some(p) => (Some(p), entries[Key(r) := Entry(p, ValidUntil(p))])
  }

  class Cache {
    var entries: Entries

    constructor ()
      ensures entries == map[]
    {
      entries := map[];
    }

    /** getCachedPeriod */
    method GetCachedPeriod(key: string, now: Instant) returns (hit: Option<PeriodResult>)
      ensures hit == Lookup(entries, key, now)
    {
      if key !in entries { return None; }
      var cached := entries[key];
      if now > cached.validUntil { return None; }
      return Some(cached.result);
    }

    /** setCachedPeriod */
    method SetCachedPeriod(key: string, result: PeriodResult)
      modifies this
      ensures entries == old(entries)[key := Entry(result, ValidUntil(result))]
    {
      var validUntil := result.nextUpscale;
      if result.nextDownscale < result.nextUpscale {
        validUntil := result.nextDownscale;
      }
      entries := entries[key := Entry(result, validUntil)];
    }

    method CalculatePeriod(lib: Library, r: Request) returns (answer: Option<PeriodResult>)
      modifies this
      ensures (answer, entries) == Calculate(lib, old(entries), r)
    {
      answer := GetCachedPeriod(Key(r), r.now);
      if answer.Some? { return; }
      if !lib.zoneKnown(r.zone) { return; }
      var up, down := lib.parse(r.up, r.zone), lib.parse(r.down, r.zone);
      if up.None? || down.None? { return; }
      var lastUpscale := FindLastOccurrence(up.value, r.now, lib.tenYearsBefore);
      var lastDownscale := FindLastOccurrence(down.value, r.now, lib.tenYearsBefore);
      var state := if lastUpscale > lastDownscale then Up else Down;
      var result := PeriodResult(state, up.value.next(r.now), down.value.next(r.now), lastUpscale, lastDownscale);
      SetCachedPeriod(Key(r), result);
      return Some(result);
    }
  }

  // ---- how long an answer stays right ------------------------------------------------------

  lemma QuietUntilNext(c: Cron, t0: Instant, now: Instant)
    requires IsCron(c) && t0 <= now < c.next(t0)
    ensures c.next(now) == c.next(t0)
    ensures forall t :: t0 < t <= now ==> !Fires(c, t)
  {
    assert Regular(c, t0, now);
    forall t | t0 < t <= now ensures !Fires(c, t) { NoFireBefore(c, t0, t); }
  }

  lemma QuietKeepsUp(up: Cron, down: Cron, t0: Instant, now: Instant)
    requires t0 <= now
    requires forall t :: t0 < t <= now ==> !Fires(up, t)
    requires forall t :: t0 < t <= now ==> !Fires(down, t)
    ensures IsUp(up, down, now) <==> IsUp(up, down, t0)
  {
    if t :| t <= now && Fires(up, t) && LaterThanAll(down, now, t) {
      assert t <= t0 && LaterThanAll(down, t0, t);
    }
    if t :| t <= t0 && Fires(up, t) && LaterThanAll(down, t0, t) {
      assert LaterThanAll(down, now, t);
    }
  }

  /** Until the next transition nothing changes: the transitions ahead are the same ones
      and the right state is the same. */
  lemma AnswerStaysRight(up: Cron, down: Cron, t0: Instant, now: Instant, tenYearsBefore: Instant -> Instant)
    requires IsCron(up) && IsCron(down)
    requires t0 <= now < ValidUntil(Compute(up, down, t0, tenYearsBefore))
    ensures up.next(now) == up.next(t0) && down.next(now) == down.next(t0)
    ensures IsUp(up, down, now) <==> IsUp(up, down, t0)
  {
    QuietUntilNext(up, t0, now);
    QuietUntilNext(down, t0, now);
    QuietKeepsUp(up, down, t0, now);
  }

  /** A kept answer names the transitions that lie ahead exactly while now is before the
      earlier of them. The lookup, which also hits at that instant, is one instant too
      generous. */
  lemma AnswerIsCurrent(up: Cron, down: Cron, t0: Instant, now: Instant, tenYearsBefore: Instant -> Instant)
    requires IsCron(up) && IsCron(down) && t0 <= now
    ensures var p := Compute(up, down, t0, tenYearsBefore);
            up.next(now) == p.nextUpscale && down.next(now) == p.nextDownscale <==> now < ValidUntil(p)
  {
    var p := Compute(up, down, t0, tenYearsBefore);
    if now < ValidUntil(p) {
      AnswerStaysRight(up, down, t0, now, tenYearsBefore);
    } else {
      assert Regular(up, now, now) && Regular(down, now, now);
    }
  }

  /** The right state at the instant the answer expires is that of the transition then
      taken, so a hit at that instant is wrong exactly when its state is the other one. */
  lemma StateAtExpiry(up: Cron, down: Cron, t0: Instant, tenYearsBefore: Instant -> Instant)
    requires IsCron(up) && IsCron(down)
    ensures var p := Compute(up, down, t0, tenYearsBefore);
            IsUp(up, down, ValidUntil(p)) <==> p.nextUpscale < p.nextDownscale
  {
    var p := Compute(up, down, t0, tenYearsBefore);
    var now := ValidUntil(p);
    NextFires(up, t0);
    NextFires(down, t0);
    if p.nextUpscale < p.nextDownscale {
      assert Regular(up, t0, t0);
      NoFireBefore(down, t0, now);
      assert LaterThanAll(down, now, now);
    } else {
      assert Fires(down, now);
    }
  }

  // ---- every run of calls ---------------------------------------------------------------------

  /** The calls made on one cache, with the cache before each and the answers. */
  ghost predicate IsCacheRun(lib: Library, calls: seq<Request>, caches: seq<Entries>, answers: seq<Option<PeriodResult>>) {
    |answers| == |calls| && |caches| == |calls| + 1 && caches[0] == map[] &&
    forall i :: 0 <= i < |calls| ==> Called(lib, calls[i], caches[i], answers[i], caches[i + 1])
  }

  predicate Called(lib: Library, r: Request, before: Entries, answer: Option<PeriodResult>, after: Entries) {
    (answer, after) == Calculate(lib, before, r)
  }

  ghost predicate ClockForward(calls: seq<Request>) {
    forall i, j :: 0 <= i <= j < |calls| ==> calls[i].now <= calls[j].now
  }

  /** Every entry was computed by one of the first n calls, under its own key. */
  ghost predicate Sourced(lib: Library, calls: seq<Request>, n: nat, entries: Entries)
    requires n <= |calls|
  {
    forall k :: k in entries ==> exists j :: 0 <= j < n && From(lib, calls[j], k, entries[k])
  }

  predicate From(lib: Library, r: Request, k: string, e: Entry) {
    Key(r) == k && Recompute(lib, r) == Some(e.result) && e.validUntil == ValidUntil(e.result)
  }

  lemma {:induction false} EntriesAreSourced(lib: Library, calls: seq<Request>, caches: seq<Entries>,
                                             answers: seq<Option<PeriodResult>>, n: nat)
    requires IsCacheRun(lib, calls, caches, answers) && n <= |calls|
    ensures Sourced(lib, calls, n, caches[n])
  {
    if n > 0 {
      EntriesAreSourced(lib, calls, caches, answers, n - 1);
      assert Called(lib, calls[n - 1], caches[n - 1], answers[n - 1], caches[n]);
      forall k | k in caches[n] ensures exists j :: 0 <= j < n && From(lib, calls[j], k, caches[n][k]) {
        if k in caches[n - 1] && caches[n][k] == caches[n - 1][k] {
          var j :| 0 <= j < n - 1 && From(lib, calls[j], k, caches[n - 1][k]);
          assert From(lib, calls[j], k, caches[n][k]);
        } else {
          assert From(lib, calls[n - 1], k, caches[n][k]);
        }
      }
    }
  }

  /** An answer is what some call up to this one computed under the same key, and no answer
      is given after the earlier of the transitions it names. */
  lemma AnswersAreComputed(lib: Library, calls: seq<Request>, caches: seq<Entries>, answers: seq<Option<PeriodResult>>, i: nat)
    returns (j: nat)
    requires IsCacheRun(lib, calls, caches, answers) && i < |calls| && answers[i].Some?
    ensures j <= i && Key(calls[j]) == Key(calls[i]) && Recompute(lib, calls[j]) == answers[i]
    ensures calls[i].now <= ValidUntil(answers[i].value) || j == i
  {
    assert Called(lib, calls[i], caches[i], answers[i], caches[i + 1]);
    j := i;
    if Lookup(caches[i], Key(calls[i]), calls[i].now).Some? {
      EntriesAreSourced(lib, calls, caches, answers, i);
      j :| 0 <= j < i && From(lib, calls[j], Key(calls[i]), caches[i][Key(calls[i])]);
    }
  }

  /** The same two schedules in the same zone. */
  predicate SameSchedules(a: Request, b: Request) {
    a.up == b.up && a.down == b.down && a.zone == b.zone
  }

  ghost predicate KeysTellApart(calls: seq<Request>) {
    forall i, j :: 0 <= i < |calls| && 0 <= j < |calls| && Key(calls[i]) == Key(calls[j]) ==> SameSchedules(calls[i], calls[j])
  }

  /** The library parses to cron schedules. */
  ghost predicate Dependable(lib: Library) {
    IsTenYearsBefore(lib.tenYearsBefore) &&
    forall e, zone :: lib.parse(e, zone).Some? ==> IsCron(lib.parse(e, zone).value)
  }

  ghost predicate Parsed(lib: Library, r: Request, up: Cron, down: Cron) {
    lib.zoneKnown(r.zone) && lib.parse(r.up, r.zone) == Some(up) && lib.parse(r.down, r.zone) == Some(down)
  }

  /** The cache refines recomputation. On a clock that does not run backwards, and with
      keys that tell the schedules apart, an answer given before its earlier transition
      names the transitions a recomputation would, and its state is right now exactly when
      it was right for the call that computed it, at an instant not after this one. */
  lemma CacheRefinesRecomputation(lib: Library, calls: seq<Request>, caches: seq<Entries>,
                                  answers: seq<Option<PeriodResult>>, i: nat, up: Cron, down: Cron) returns (j: nat)
    requires IsCacheRun(lib, calls, caches, answers) && i < |calls| && answers[i].Some?
    requires ClockForward(calls) && KeysTellApart(calls) && Dependable(lib)
    requires Parsed(lib, calls[i], up, down) && calls[i].now < ValidUntil(answers[i].value)
    ensures j <= i && answers[i] == Some(Compute(up, down, calls[j].now, lib.tenYearsBefore))
    ensures answers[i].value.nextUpscale == up.next(calls[i].now) && answers[i].value.nextDownscale == down.next(calls[i].now)
    ensures IsUp(up, down, calls[i].now) <==> IsUp(up, down, calls[j].now)
    ensures Searchable(up, down, calls[j].now) && SeesEnough(up, down, calls[j].now) ==>
              (answers[i].value.state == Up <==> IsUp(up, down, calls[i].now))
  {
    j := AnswersAreComputed(lib, calls, caches, answers, i);
    assert SameSchedules(calls[j], calls[i]);
    assert answers[i] == Some(Compute(up, down, calls[j].now, lib.tenYearsBefore));
    AnswerStaysRight(up, down, calls[j].now, calls[i].now, lib.tenYearsBefore);
    if Searchable(up, down, calls[j].now) && SeesEnough(up, down, calls[j].now) {
      StateIsRight(up, down, calls[j].now, lib.tenYearsBefore);
    }
  }

  // ---- where keys do not tell schedules apart -----------------------------------------------------

  /** Of two calls with one key, those for the same schedules are exactly the ones whose
      expressions have the same lengths. */
  lemma KeyAndLengthsDecide(a: Request, b: Request)
    requires Key(a) == Key(b)
    ensures SameSchedules(a, b) <==> |a.up| == |b.up| && |a.down| == |b.down|
  {
    if |a.up| == |b.up| && |a.down| == |b.down| {
      var n, m := |a.up|, |a.up| + |a.down|;
      assert a.up == Key(a)[..n] && b.up == Key(b)[..n];
      assert a.down == Key(a)[n..m] && b.down == Key(b)[n..m];
      assert a.zone == Key(a)[m..] && b.zone == Key(b)[m..];
    }
  }

  /** The digest runs over the bare concatenation, so moving characters from the end of one
      expression to the start of the next keeps the key. Two valid pairs of schedules
      collide, and after a call for the one, a call for the other is answered with the
      first one's period until that expires. */
  lemma KeysCollide(lib: Library, now: Instant, later: Instant)
    requires lib.zoneKnown("UTC")
    requires lib.parse("0 6 * * 0", "UTC").Some? && lib.parse("15 18 * * *", "UTC").Some?
    requires lib.parse("0 6 * * 01", "UTC").Some? && lib.parse("5 18 * * *", "UTC").Some?
    ensures var first := Request("0 6 * * 0", "15 18 * * *", "UTC", now);
            var second := Request("0 6 * * 01", "5 18 * * *", "UTC", later);
            !SameSchedules(first, second) && Key(first) == Key(second) &&
            Recompute(lib, first).Some? && Recompute(lib, second).Some? &&
            (Calculate(lib, Calculate(lib, map[], first).1, second).0 ==
             if later <= ValidUntil(Recompute(lib, first).value) then Recompute(lib, first) else Recompute(lib, second))
  {
    var first := Request("0 6 * * 0", "15 18 * * *", "UTC", now);
    var second := Request("0 6 * * 01", "5 18 * * *", "UTC", later);
    assert first.up + first.down == second.up + second.down;
    assert |first.up| == 9 && |second.up| == 10;
  }

  /** Without a kept entry there is an answer if and only if the zone is known and both
      expressions parse; nothing else is kept. */
  lemma InvalidIsRefused(lib: Library, entries: Entries, r: Request)
    requires Lookup(entries, Key(r), r.now).None?
    ensures var (answer, kept) := Calculate(lib, entries, r);
            (answer.Some? <==> lib.zoneKnown(r.zone) && lib.parse(r.up, r.zone).Some? && lib.parse(r.down, r.zone).Some?) &&
            (answer.None? ==> kept == entries)
  {
  }

  /** What a call computed answers every later call under its key up to and including the
      first of the two transitions it names, whatever that call would have computed; the
      call after that computes anew. */
  lemma KeptUntilTransition(lib: Library, entries: Entries, r: Request, later: Request) returns (p: PeriodResult, kept: Entries)
    requires Lookup(entries, Key(r), r.now).None? && Recompute(lib, r).Some? && Key(later) == Key(r)
    ensures Recompute(lib, r) == Some(p) && Calculate(lib, entries, r) == (Some(p), kept)
    ensures if later.now <= p.nextUpscale && later.now <= p.nextDownscale then Calculate(lib, kept, later) == (Some(p), kept)
            else Calculate(lib, kept, later).0 == Recompute(lib, later)
  {
    p := Recompute(lib, r).value;
    kept := entries[Key(r) := Entry(p, ValidUntil(p))];
  }
}
