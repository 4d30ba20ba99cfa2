// A cron schedule as the library gives it: from any instant, the next fire. Which
// expression and time zone it was parsed from does not matter here.
module CronFires {
  import opened Clock

  const DAY: Duration := 24 * HOUR

  /** How often the schedule was judged to fire, from the look of its expression. */
  datatype Frequency = EveryMinute | Hourly | Daily | Weekly | Monthly | Rare | Unclassified

  datatype Cron = Cron(next: Instant -> Instant, frequency: Frequency)

  /** getSearchWindow */
  function Window(f: Frequency): Duration {
    match f
    case EveryMinute => 48 * HOUR
    case Hourly => 72 * HOUR
    case Daily => 240 * HOUR
    case Weekly => 768 * HOUR
    case Monthly => 2160 * HOUR
    case Rare => 9600 * HOUR
    case Unclassified => 8760 * HOUR
  }

  /** next is the least fire strictly after an instant, and fires lie at least a minute
      apart. */
  ghost predicate IsCron(c: Cron) {
    forall t, u {:trigger Regular(c, t, u)} :: Regular(c, t, u)
  }

  predicate Regular(c: Cron, t: Instant, u: Instant) {
    t < c.next(t) &&
    (t <= u < c.next(t) ==> c.next(u) == c.next(t)) &&
    (c.next(t) < c.next(u) ==> c.next(t) + MINUTE <= c.next(u))
  }

  predicate Fires(c: Cron, t: Instant) {
    c.next(t - 1) == t
  }

  /** The fires after lo, up to and including hi. */
  function FiresIn(c: Cron, lo: Instant, hi: Instant): set<Instant> {
    set t | lo < t <= hi && Fires(c, t)
  }

  /** No fire lies between t and now. */
  predicate IsLastFire(c: Cron, t: Instant, now: Instant) {
    Fires(c, t) && t <= now < c.next(t)
  }

  lemma NextFires(c: Cron, t: Instant)
    requires IsCron(c)
    ensures Fires(c, c.next(t))
  {
    assert Regular(c, t, c.next(t) - 1);
  }

  lemma NoFireBefore(c: Cron, t: Instant, u: Instant)
    requires IsCron(c) && t < u < c.next(t)
    ensures !Fires(c, u)
  {
    assert Regular(c, t, u - 1) && Regular(c, u, u);
  }

  lemma LastIsGreatest(c: Cron, t: Instant, now: Instant, s: Instant)
    requires IsCron(c) && IsLastFire(c, t, now) && Fires(c, s) && s <= now
    ensures s <= t
  {
    if t < s { NoFireBefore(c, t, s); }
  }

  /** The fires after an instant are the next one and those after it. */
  lemma FiresFromNext(c: Cron, lo: Instant, hi: Instant)
    requires IsCron(c)
    ensures lo < c.next(lo)
    ensures if c.next(lo) > hi then FiresIn(c, lo, hi) == {}
            else FiresIn(c, lo, hi) == {c.next(lo)} + FiresIn(c, c.next(lo), hi) &&
                 |FiresIn(c, lo, hi)| == 1 + |FiresIn(c, c.next(lo), hi)|
  {
    var n := c.next(lo);
    assert Regular(c, lo, lo);
    forall t | lo < t <= hi && Fires(c, t) ensures t >= n {
      if t < n { NoFireBefore(c, lo, t); }
    }
    NextFires(c, lo);
    if n <= hi {
      assert n !in FiresIn(c, n, hi);
      assert FiresIn(c, lo, hi) == {n} + FiresIn(c, n, hi);
    }
  }

  lemma FiresApart(c: Cron, t: Instant)
    requires IsCron(c) && Fires(c, t)
    ensures t + MINUTE <= c.next(t)
  {
    assert Regular(c, t - 1, t) && Regular(c, t, t);
  }

  /** Fires after a fire take up a minute each. */
  lemma {:induction false} FiresTakeMinutes(c: Cron, last: Instant, hi: Instant)
    requires IsCron(c) && Fires(c, last) && last <= hi
    ensures |FiresIn(c, last, hi)| * MINUTE <= hi - last
    decreases hi - last
  {
    FiresFromNext(c, last, hi);
    if c.next(last) <= hi {
      FiresApart(c, last);
      NextFires(c, last);
      FiresTakeMinutes(c, c.next(last), hi);
    }
  }
}
