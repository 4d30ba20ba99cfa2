// Instants as the controller measures them: nanoseconds, of which a timestamp stored on
// an object keeps whole seconds only.
module Clock {
  type Instant = int
  type Duration = int

  const SECOND: Duration := 1_000_000_000
  const MINUTE: Duration := 60 * SECOND
  const HOUR: Duration := 60 * MINUTE

  /** The instant read back from a stored RFC 3339 timestamp or metav1.Time. */
  function Stored(t: Instant): (r: Instant)
    ensures t - SECOND < r <= t
    ensures r % SECOND == 0
  {
    t - t % SECOND
  }

  /** A wait counted from a stored start can end before the timeout has really passed,
      exactly when storing cut something off. */
  lemma StoredWaitEndsEarly(start: Instant, timeout: Duration)
    ensures (exists now: Instant :: EndsEarly(start, timeout, now)) <==> start % SECOND != 0
  {
    assert start % SECOND != 0 ==> EndsEarly(start, timeout, Stored(start) + timeout);
  }

  predicate EndsEarly(start: Instant, timeout: Duration, now: Instant) {
    now - Stored(start) >= timeout && now - start < timeout
  }

  lemma StoredOnce(t: Instant)
    ensures Stored(Stored(t)) == Stored(t)
  {
  }
}
