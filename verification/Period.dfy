// Which period a schedule is in: the last upscale and the last downscale are searched for
// in bounded windows and compared.
module Period {
  import opened Clock
  import opened CronFires

  /** The search gives up after a year's worth of minutes. */
  const ITERATION_CAP: nat := 525600

  /** The window in minutes, at most the cap. */
  function MaxIterations(f: Frequency): (n: nat)
    ensures n <= ITERATION_CAP && n * MINUTE <= Window(f)
  {
    var minutes := Window(f) / MINUTE;
    if minutes > ITERATION_CAP then ITERATION_CAP else minutes
  }

  // ---- the search ------------------------------------------------------------------------

  /** From one fire on to the last one not after from, by so many steps at most. */
  function Advance(c: Cron, last: Instant, from: Instant, steps: nat): Instant
    decreases steps
  {
    if steps == 0 || c.next(last) > from then last else Advance(c, c.next(last), from, steps - 1)
  }

  /** findLastOccurrence; tenYearsBefore is what stands for "never". */
  function FindLast(c: Cron, from: Instant, tenYearsBefore: Instant -> Instant): Instant {
    var first := c.next(from - Window(c.frequency));
    if first > from then tenYearsBefore(from) else Advance(c, first, from, MaxIterations(c.frequency))
  }

  method FindLastOccurrence(c: Cron, from: Instant, tenYearsBefore: Instant -> Instant) returns (last: Instant)
    ensures last == FindLast(c, from, tenYearsBefore)
  {
    var searchWindow := Window(c.frequency);
    var firstNext := c.next(from - searchWindow);
    if firstNext > from {
      return tenYearsBefore(from);
    }
    var maxIterations := searchWindow / MINUTE;
    if maxIterations > ITERATION_CAP {
      maxIterations := ITERATION_CAP;
    }
    var iterations := 0;
    last := firstNext;
    var next := c.next(last);
    while next <= from && iterations < maxIterations
      invariant 0 <= iterations <= maxIterations == MaxIterations(c.frequency)
      invariant next == c.next(last)
      invariant Advance(c, last, from, maxIterations - iterations) == FindLast(c, from, tenYearsBefore)
      decreases maxIterations - iterations
    {
      last := next;
      next := c.next(next);
      iterations := iterations + 1;
    }
  }

  lemma {:induction false} AdvanceReaches(c: Cron, last: Instant, from: Instant, steps: nat)
    requires IsCron(c) && Fires(c, last) && last <= from
    ensures var r := Advance(c, last, from, steps);
            Fires(c, r) && last <= r <= from && (c.next(r) > from <==> |FiresIn(c, last, from)| <= steps)
    decreases steps
  {
    FiresFromNext(c, last, from);
    if steps > 0 && c.next(last) <= from {
      NextFires(c, last);
      AdvanceReaches(c, c.next(last), from, steps - 1);
    }
  }

  /** The fires the search looks at. */
  function Recent(c: Cron, now: Instant): set<Instant> {
    FiresIn(c, now - Window(c.frequency), now)
  }

  /** The schedule fired in its own search window. */
  predicate Covered(c: Cron, now: Instant) {
    c.next(now - Window(c.frequency)) <= now
  }

  /** The search window holds no more fires than the search can step over. */
  predicate Uncut(c: Cron, now: Instant) {
    |Recent(c, now)| <= MaxIterations(c.frequency) + 1
  }

  lemma CoveredMeansFired(c: Cron, now: Instant)
    requires IsCron(c)
    ensures Covered(c, now) <==> Recent(c, now) != {}
  {
    FiresFromNext(c, now - Window(c.frequency), now);
  }

  lemma SearchFrom(c: Cron, start: Instant, from: Instant, steps: nat)
    requires IsCron(c) && c.next(start) <= from
    ensures var r := Advance(c, c.next(start), from, steps);
            Fires(c, r) && start < r <= from && (c.next(r) > from <==> |FiresIn(c, start, from)| <= steps + 1)
  {
    FiresFromNext(c, start, from);
    NextFires(c, start);
    AdvanceReaches(c, c.next(start), from, steps);
  }

  /** The search returns the ten-year sentinel exactly when nothing fired in the window.
      Otherwise it returns a fire of the window, and that is the last one exactly when the
      window holds no more fires than one more than the iteration cap. */
  lemma FindLastIsExact(c: Cron, now: Instant, tenYearsBefore: Instant -> Instant) returns (last: Instant)
    requires IsCron(c)
    ensures last == FindLast(c, now, tenYearsBefore)
    ensures Covered(c, now) <==> Recent(c, now) != {}
    ensures !Covered(c, now) ==> last == tenYearsBefore(now)
    ensures Covered(c, now) ==> Fires(c, last) && now - Window(c.frequency) < last <= now
    ensures Covered(c, now) ==> (IsLastFire(c, last, now) <==> Uncut(c, now))
  {
    last := FindLast(c, now, tenYearsBefore);
    CoveredMeansFired(c, now);
    if Covered(c, now) {
      SearchFrom(c, now - Window(c.frequency), now, MaxIterations(c.frequency));
    }
  }

  lemma FiresInWindow(c: Cron, start: Instant, now: Instant)
    requires IsCron(c) && start < now
    ensures (|FiresIn(c, start, now)| - 1) * MINUTE < now - start
  {
    FiresFromNext(c, start, now);
    if c.next(start) <= now {
      NextFires(c, start);
      FiresTakeMinutes(c, c.next(start), now);
    }
  }

  /** Only the 400-day window of rare schedules can hold more fires than the cap allows
      for. For it the cap is 525600, so the search is exact up to 525601 fires. */
  lemma CapNeverCuts(c: Cron, now: Instant)
    requires IsCron(c)
    ensures c.frequency != Rare ==> Uncut(c, now)
    ensures c.frequency == Rare ==> (Uncut(c, now) <==> |FiresIn(c, now - 400 * DAY, now)| <= 525601)
  {
    FiresInWindow(c, now - Window(c.frequency), now);
  }

  // ---- the period ---------------------------------------------------------------------------

  datatype State = Up | Down

  datatype PeriodResult = PeriodResult(
    state: State,
    nextUpscale: Instant,
    nextDownscale: Instant,
    lastUpscale: Instant,
    lastDownscale: Instant)

  /** CalculatePeriod without its cache. */
  function Compute(up: Cron, down: Cron, now: Instant, tenYearsBefore: Instant -> Instant): PeriodResult {
    var lastUpscale := FindLast(up, now, tenYearsBefore);
    var lastDownscale := FindLast(down, now, tenYearsBefore);
    PeriodResult(
      if lastUpscale > lastDownscale then Up else Down,
      up.next(now), down.next(now), lastUpscale, lastDownscale)
  }

  /** Ten calendar years back, give or take a day for leap years and zone changes. */
  ghost predicate IsTenYearsBefore(tenYearsBefore: Instant -> Instant) {
    forall t :: t - 3654 * DAY <= tenYearsBefore(t) <= t - 3651 * DAY
  }

  /** What the period should be, however long ago schedules fired: up when some upscale
      is later than every downscale. */
  ghost predicate IsUp(up: Cron, down: Cron, now: Instant) {
    exists t :: t <= now && Fires(up, t) && LaterThanAll(down, now, t)
  }

  ghost predicate LaterThanAll(c: Cron, now: Instant, t: Instant) {
    forall s :: s <= now && Fires(c, s) ==> s < t
  }

  lemma IsUpByLast(up: Cron, down: Cron, now: Instant, last: Instant)
    requires IsCron(up) && IsLastFire(up, last, now)
    ensures IsUp(up, down, now) <==> LaterThanAll(down, now, last)
  {
    if IsUp(up, down, now) {
      var t :| t <= now && Fires(up, t) && LaterThanAll(down, now, t);
      LastIsGreatest(up, last, now, t);
    }
  }

  lemma IsDownByLast(up: Cron, down: Cron, now: Instant, last: Instant)
    requires IsCron(down) && IsLastFire(down, last, now)
    ensures IsUp(up, down, now) <==> exists t :: last < t <= now && Fires(up, t)
  {
    if t :| last < t <= now && Fires(up, t) {
      forall s | s <= now && Fires(down, s) ensures s < t { LastIsGreatest(down, last, now, s); }
      assert LaterThanAll(down, now, t);
    }
  }

  /** The windows are wide enough for the comparison: both schedules fired in their own,
      or one did and the other's window is at least as wide. */
  predicate SeesEnough(up: Cron, down: Cron, now: Instant) {
    (Covered(up, now) && (Covered(down, now) || Window(down.frequency) >= Window(up.frequency))) ||
    (Covered(down, now) && (Covered(up, now) || Window(up.frequency) >= Window(down.frequency)))
  }

  predicate Searchable(up: Cron, down: Cron, now: Instant) {
    Uncut(up, now) && Uncut(down, now)
  }

  lemma SentinelIsOld(c: Cron, now: Instant, tenYearsBefore: Instant -> Instant)
    requires IsTenYearsBefore(tenYearsBefore)
    ensures tenYearsBefore(now) < now - Window(c.frequency)
  {
  }

  lemma NotCovered(c: Cron, now: Instant, t: Instant)
    requires IsCron(c) && !Covered(c, now) && Fires(c, t) && t <= now
    ensures t <= now - Window(c.frequency)
  {
    if t > now - Window(c.frequency) { NoFireBefore(c, now - Window(c.frequency), t); }
  }

  /** When only the upscale fired in its window the answer is Up, which is right exactly
      when the downscale has not fired, beyond its own window, since that upscale. */
  lemma OnlyUpscaleSeen(up: Cron, down: Cron, now: Instant, tenYearsBefore: Instant -> Instant)
    requires IsCron(up) && IsCron(down) && IsTenYearsBefore(tenYearsBefore) && Searchable(up, down, now)
    requires Covered(up, now) && !Covered(down, now)
    ensures var p := Compute(up, down, now, tenYearsBefore);
            p.state == Up &&
            (IsUp(up, down, now) <==> !exists s :: p.lastUpscale <= s <= now - Window(down.frequency) && Fires(down, s))
  {
    var last := FindLastIsExact(up, now, tenYearsBefore);
    var sentinel := FindLastIsExact(down, now, tenYearsBefore);
    SentinelIsOld(up, now, tenYearsBefore);
    IsUpByLast(up, down, now, last);
    forall s | s <= now && Fires(down, s) ensures s <= now - Window(down.frequency) { NotCovered(down, now, s); }
  }

  /** When only the downscale did, the answer is Down, which is right exactly when the
      upscale has not fired, beyond its own window, after that downscale. */
  lemma OnlyDownscaleSeen(up: Cron, down: Cron, now: Instant, tenYearsBefore: Instant -> Instant)
    requires IsCron(up) && IsCron(down) && IsTenYearsBefore(tenYearsBefore) && Searchable(up, down, now)
    requires !Covered(up, now) && Covered(down, now)
    ensures var p := Compute(up, down, now, tenYearsBefore);
            p.state == Down &&
            (IsUp(up, down, now) <==> exists t :: p.lastDownscale < t <= now - Window(up.frequency) && Fires(up, t))
  {
    var last := FindLastIsExact(down, now, tenYearsBefore);
    var sentinel := FindLastIsExact(up, now, tenYearsBefore);
    SentinelIsOld(down, now, tenYearsBefore);
    IsDownByLast(up, down, now, last);
    forall t | t <= now && Fires(up, t) ensures t <= now - Window(up.frequency) { NotCovered(up, now, t); }
  }

  /** An upscale older than its window is later than every downscale older than its own. */
  ghost predicate OlderUpscaleLeads(up: Cron, down: Cron, now: Instant) {
    exists t :: t <= now - Window(up.frequency) && Fires(up, t) && LaterThanAll(down, now - Window(down.frequency), t)
  }

  /** When neither fired in its window the answer is Down, which is right exactly when no
      upscale beyond its window is later than every downscale beyond its own. */
  lemma NothingSeen(up: Cron, down: Cron, now: Instant, tenYearsBefore: Instant -> Instant)
    requires IsCron(up) && IsCron(down) && !Covered(up, now) && !Covered(down, now)
    ensures Compute(up, down, now, tenYearsBefore).state == Down
    ensures IsUp(up, down, now) <==> OlderUpscaleLeads(up, down, now)
  {
    var lastUp := FindLastIsExact(up, now, tenYearsBefore);
    var lastDown := FindLastIsExact(down, now, tenYearsBefore);
    forall t | t <= now && Fires(up, t) ensures t <= now - Window(up.frequency) { NotCovered(up, now, t); }
    forall t | t <= now && Fires(down, t) ensures t <= now - Window(down.frequency) { NotCovered(down, now, t); }
    forall t ensures LaterThanAll(down, now, t) <==> LaterThanAll(down, now - Window(down.frequency), t) {}
  }

  lemma BothSeen(up: Cron, down: Cron, now: Instant, tenYearsBefore: Instant -> Instant)
    requires IsCron(up) && IsCron(down) && Searchable(up, down, now) && Covered(up, now) && Covered(down, now)
    ensures Compute(up, down, now, tenYearsBefore).state == Up <==> IsUp(up, down, now)
  {
    var lastUp := FindLastIsExact(up, now, tenYearsBefore);
    var lastDown := FindLastIsExact(down, now, tenYearsBefore);
    IsUpByLast(up, down, now, lastUp);
    if lastUp > lastDown {
      forall s | s <= now && Fires(down, s) ensures s < lastUp { LastIsGreatest(down, lastDown, now, s); }
    }
  }

  /** With windows wide enough for the comparison the state is the right one, although
      each search looks back over a bounded time only. */
  lemma StateIsRight(up: Cron, down: Cron, now: Instant, tenYearsBefore: Instant -> Instant)
    requires IsCron(up) && IsCron(down) && IsTenYearsBefore(tenYearsBefore)
    requires Searchable(up, down, now) && SeesEnough(up, down, now)
    ensures Compute(up, down, now, tenYearsBefore).state == Up <==> IsUp(up, down, now)
  {
    if Covered(up, now) && Covered(down, now) {
      BothSeen(up, down, now, tenYearsBefore);
    } else if Covered(up, now) {
      OnlyUpscaleSeen(up, down, now, tenYearsBefore);
      var last := FindLastIsExact(up, now, tenYearsBefore);
    } else {
      OnlyDownscaleSeen(up, down, now, tenYearsBefore);
      var last := FindLastIsExact(down, now, tenYearsBefore);
    }
  }

  /** The state is right in every case exactly when no fire the searches cannot see would
      change the comparison. */
  ghost predicate NothingHidden(up: Cron, down: Cron, now: Instant, lastUpscale: Instant, lastDownscale: Instant) {
    if Covered(up, now) then
      Covered(down, now) || !exists s :: lastUpscale <= s <= now - Window(down.frequency) && Fires(down, s)
    else if Covered(down, now) then
      !exists t :: lastDownscale < t <= now - Window(up.frequency) && Fires(up, t)
    else !OlderUpscaleLeads(up, down, now)
  }

  lemma StateIsRightExactly(up: Cron, down: Cron, now: Instant, tenYearsBefore: Instant -> Instant)
    requires IsCron(up) && IsCron(down) && IsTenYearsBefore(tenYearsBefore) && Searchable(up, down, now)
    ensures var p := Compute(up, down, now, tenYearsBefore);
            (p.state == Up <==> IsUp(up, down, now)) <==> NothingHidden(up, down, now, p.lastUpscale, p.lastDownscale)
  {
    if Covered(up, now) && Covered(down, now) {
      BothSeen(up, down, now, tenYearsBefore);
    } else if Covered(up, now) {
      OnlyUpscaleSeen(up, down, now, tenYearsBefore);
    } else if Covered(down, now) {
      OnlyDownscaleSeen(up, down, now, tenYearsBefore);
    } else {
      NothingSeen(up, down, now, tenYearsBefore);
    }
  }

  // ---- how far back a search reaches -------------------------------------------------------------

  /** A fire in the window is found, and a last fire before the window leaves it empty. */
  lemma LastFireDecides(c: Cron, last: Instant, now: Instant)
    requires IsCron(c) && IsLastFire(c, last, now)
    ensures Covered(c, now) <==> last > now - Window(c.frequency)
  {
    var start := now - Window(c.frequency);
    assert Regular(c, last, start);
    if start < c.next(start) && last > start { CoveredByFire(c, last, now); }
  }

  lemma CoveredByFire(c: Cron, fire: Instant, now: Instant)
    requires IsCron(c) && Fires(c, fire) && now - Window(c.frequency) < fire <= now
    ensures Covered(c, now)
  {
    var start := now - Window(c.frequency);
    if c.next(start) > now { NoFireBefore(c, start, fire); }
  }

  /** How many days without a fire a schedule may rest, by the frequency it is judged to have. */
  function DaysOfRest(f: Frequency): nat {
    match f
    case EveryMinute => 2
    case Hourly => 3
    case Daily => 10
    case Weekly => 32
    case Monthly => 90
    case Rare => 400
    case Unclassified => 365
  }

  /** The last fire is found if and only if it is less than that many days old; otherwise
      the search answers that there was none for ten years. */
  lemma FoundWithinDays(c: Cron, last: Instant, now: Instant, tenYearsBefore: Instant -> Instant)
    requires IsCron(c) && IsLastFire(c, last, now) && (c.frequency == Rare ==> Uncut(c, now))
    ensures FindLast(c, now, tenYearsBefore) == if now - last < DaysOfRest(c.frequency) * DAY then last else tenYearsBefore(now)
  {
    CapNeverCuts(c, now);
    LastFireDecides(c, last, now);
    var found := FindLastIsExact(c, now, tenYearsBefore);
    if Covered(c, now) { LastIsGreatest(c, found, now, last); LastIsGreatest(c, last, now, found); }
  }

  // ---- where a window is too narrow ------------------------------------------------------------

  const WEEK: Duration := 7 * DAY

  /** The start of the week, by that phase, that an instant lies in. */
  function WeekStart(t: Instant, phase: Instant): Instant {
    (t - phase) / WEEK * WEEK + phase
  }

  /** "0 6 * * 1" for phase 6 hours, counting from a Monday midnight in UTC: once a week,
      judged weekly, so that 32 days are searched. */
  function OnceAWeek(phase: Instant): Cron {
    Cron((t: Instant) => WeekStart(t, phase) + WEEK, Weekly)
  }

  // "*/30 18 * * 5" for phase 4 days and 18 hours: twice a week, half an hour apart. The
  // step in the minute field has it judged to fire by the minute: 2 days are searched.
  function TwiceAWeek(phase: Instant): Cron {
    Cron((t: Instant) => SecondOrNext(t, WeekStart(t, phase)), EveryMinute)
  }

  /** The week's second fire, or the first one of the week after. */
  function SecondOrNext(t: Instant, start: Instant): Instant {
    if t < start + 30 * MINUTE then start + 30 * MINUTE else start + WEEK
  }

  lemma {:induction false} Strides(a: int, b: int, n: int)
    requires n > 0 && a < b
    ensures a * n + n <= b * n
    decreases b - a
  {
    if a + 1 < b {
      Strides(a + 1, b, n);
    }
  }

  /** Weeks do not overlap. */
  lemma WeekBounds(t: Instant, u: Instant, phase: Instant)
    ensures WeekStart(t, phase) <= t < WeekStart(t, phase) + WEEK
    ensures var a, b := WeekStart(t, phase), WeekStart(u, phase); a == b || a + WEEK <= b || b + WEEK <= a
  {
    var a, b := (t - phase) / WEEK, (u - phase) / WEEK;
    if a < b {
      Strides(a, b, WEEK);
    } else if b < a {
      Strides(b, a, WEEK);
    }
  }

  lemma WeekIs(t: Instant, phase: Instant, week: int, start: Instant)
    requires start == week * WEEK + phase && start <= t < start + WEEK
    ensures WeekStart(t, phase) == start
  {
    WeekBounds(t, start, phase);
    WeekBounds(start, t, phase);
    assert (start - phase) / WEEK == week;
  }

  lemma OnceAWeekIsCron(phase: Instant)
    ensures IsCron(OnceAWeek(phase))
  {
    forall t, u ensures Regular(OnceAWeek(phase), t, u) {
      WeekBounds(t, u, phase);
      WeekBounds(u, t, phase);
    }
  }

  lemma TwiceAWeekIsCron(phase: Instant)
    ensures IsCron(TwiceAWeek(phase))
  {
    forall t, u ensures Regular(TwiceAWeek(phase), t, u) {
      WeekBounds(t, u, phase);
      WeekBounds(u, t, phase);
    }
  }

  /** The second of a week's two fires is the last one for the rest of the week. */
  lemma SecondFire(phase: Instant, week: int, start: Instant, now: Instant)
    requires start == week * WEEK + phase && start + 30 * MINUTE <= now < start + WEEK
    ensures IsLastFire(TwiceAWeek(phase), start + 30 * MINUTE, now)
  {
    WeekIs(start + 30 * MINUTE - 1, phase, week, start);
    WeekIs(start + 30 * MINUTE, phase, week, start);
  }

  lemma OnlyFire(phase: Instant, week: int, start: Instant, now: Instant)
    requires start == week * WEEK + phase && start <= now < start + WEEK
    ensures IsLastFire(OnceAWeek(phase), start, now)
  {
    assert start - WEEK == (week - 1) * WEEK + phase;
    WeekIs(start - 1, phase, week - 1, start - WEEK);
    WeekIs(start, phase, week, start);
  }

  // Up "0 6 * * 1" and down "*/30 18 * * 5", on Sunday at 20:00: the upscale of Monday is
  // found, and the downscale of Friday, 49.5 hours old, is not. The answer is Up in a down
  // period.
  lemma NarrowWindowMisleads(tenYearsBefore: Instant -> Instant)
    requires IsTenYearsBefore(tenYearsBefore)
    ensures var up, down, now := OnceAWeek(6 * HOUR), TwiceAWeek(4 * DAY + 18 * HOUR), 6 * DAY + 20 * HOUR;
            IsCron(up) && IsCron(down) && Compute(up, down, now, tenYearsBefore).state == Up && !IsUp(up, down, now)
  {
    OnceAWeekIsCron(6 * HOUR);
    TwiceAWeekIsCron(4 * DAY + 18 * HOUR);
    OnlyFire(6 * HOUR, 0, 6 * HOUR, 6 * DAY + 20 * HOUR);
    SecondFire(4 * DAY + 18 * HOUR, 0, 4 * DAY + 18 * HOUR, 6 * DAY + 20 * HOUR);
    UnseenDownscale(OnceAWeek(6 * HOUR), TwiceAWeek(4 * DAY + 18 * HOUR), 6 * DAY + 20 * HOUR, tenYearsBefore,
                    6 * HOUR, 4 * DAY + 18 * HOUR + 30 * MINUTE);
  }

  lemma UnseenDownscale(up: Cron, down: Cron, now: Instant, tenYearsBefore: Instant -> Instant, lastUp: Instant, lastDown: Instant)
    requires IsTenYearsBefore(tenYearsBefore) && IsCron(up) && IsCron(down) && up.frequency != Rare && down.frequency != Rare
    requires IsLastFire(up, lastUp, now) && IsLastFire(down, lastDown, now) && lastUp < lastDown
    requires lastUp > now - Window(up.frequency) && lastDown <= now - Window(down.frequency)
    ensures Compute(up, down, now, tenYearsBefore).state == Up && !IsUp(up, down, now)
  {
    CapNeverCuts(up, now);
    CapNeverCuts(down, now);
    LastFireDecides(up, lastUp, now);
    LastFireDecides(down, lastDown, now);
    OnlyUpscaleSeen(up, down, now, tenYearsBefore);
    IsUpByLast(up, down, now, lastUp);
  }

  // Equal windows do not help when both schedules rest longer than they are wide. Up
  // "*/30 6 * * 1" and down "*/30 18 * * 5", on Friday at noon: neither is found, and the
  // answer is Down in an up period.
  lemma SilenceMisleads(tenYearsBefore: Instant -> Instant)
    ensures var up, down, now := TwiceAWeek(6 * HOUR), TwiceAWeek(4 * DAY + 18 * HOUR), 4 * DAY + 12 * HOUR;
            IsCron(up) && IsCron(down) && Compute(up, down, now, tenYearsBefore).state == Down && IsUp(up, down, now)
  {
    TwiceAWeekIsCron(6 * HOUR);
    TwiceAWeekIsCron(4 * DAY + 18 * HOUR);
    SecondFire(6 * HOUR, 0, 6 * HOUR, 4 * DAY + 12 * HOUR);
    SecondFire(4 * DAY + 18 * HOUR, -1, 4 * DAY + 18 * HOUR - WEEK, 4 * DAY + 12 * HOUR);
    UnseenBoth(TwiceAWeek(6 * HOUR), TwiceAWeek(4 * DAY + 18 * HOUR), 4 * DAY + 12 * HOUR, tenYearsBefore,
               6 * HOUR + 30 * MINUTE, 4 * DAY + 18 * HOUR - WEEK + 30 * MINUTE);
  }

  lemma UnseenBoth(up: Cron, down: Cron, now: Instant, tenYearsBefore: Instant -> Instant, lastUp: Instant, lastDown: Instant)
    requires IsCron(up) && IsCron(down) && IsLastFire(up, lastUp, now) && IsLastFire(down, lastDown, now) && lastDown < lastUp
    requires lastUp <= now - Window(up.frequency) && lastDown <= now - Window(down.frequency)
    ensures Compute(up, down, now, tenYearsBefore).state == Down && IsUp(up, down, now)
  {
    LastFireDecides(up, lastUp, now);
    LastFireDecides(down, lastDown, now);
    NothingSeen(up, down, now, tenYearsBefore);
    forall s | s <= now && Fires(down, s) ensures s < lastUp { LastIsGreatest(down, lastDown, now, s); }
    IsUpByLast(up, down, now, lastUp);
  }
}
