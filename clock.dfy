/**
 * Instants as whole seconds of local wall-clock time counted from
 * 1970-01-01 00:00, so that a day is always 86400 seconds long.
 */
module Clock {

  const SecondsPerDay: int := 86400

  /** 1970-01-01 was a Thursday (Sunday is 0, as in Go's `time.Weekday`). */
  const EpochWeekday: int := 4

  /** Go's zero `time.Time`, 0001-01-01 00:00:00, on the same scale. */
  const ZeroTime: int := -62135596800

  /** `t.Weekday()`: 0 for Sunday through 6 for Saturday. */
  function Weekday(t: int): (d: int)
    ensures 0 <= d < 7
  {
    (t / SecondsPerDay + EpochWeekday) % 7
  }

  /** Moving `k` whole days ahead moves the weekday `k` places round the week. */
  lemma WeekdayAfterDays(t: int, k: nat)
    ensures Weekday(t + k * SecondsPerDay) == (Weekday(t) + k) % 7
  {
    var q, r := t / SecondsPerDay, t % SecondsPerDay;
    assert t + k * SecondsPerDay == (q + k) * SecondsPerDay + r;
    assert (t + k * SecondsPerDay) / SecondsPerDay == q + k;
    var m, w := (q + EpochWeekday) / 7, (q + EpochWeekday) % 7;
    assert q + k + EpochWeekday == 7 * m + (w + k);
    assert (q + k + EpochWeekday) % 7 == (w + k) % 7;
  }

  /** Fewer than seven whole days later the weekday is a different one. */
  lemma WeekdayChangesWithinAWeek(t: int, k: nat)
    requires 1 <= k < 7
    ensures Weekday(t + k * SecondsPerDay) != Weekday(t)
  {
    WeekdayAfterDays(t, k);
    var w := Weekday(t);
    if w + k < 7 {
      assert (w + k) % 7 == w + k;
    } else {
      assert (w + k) % 7 == w + k - 7;
    }
  }
}
