/** Instants and durations in nanoseconds; instants count from the Unix epoch. */
module Instants {
  const SECOND: int := 1_000_000_000
  const MINUTE: int := 60 * SECOND
  const HOUR: int := 60 * MINUTE
  const DAY: int := 24 * HOUR
  const TEN_MINUTES: int := 10 * MINUTE

  /** Go's zero time, midnight UTC on 1 January of year 1; IsZero() compares with it. */
  const ZERO_TIME: int := -62_135_596_800 * SECOND

  /** Time.Truncate for a width that divides the hour: the epoch is a whole number of hours after ZERO_TIME. */
  function Truncate(at: int, width: int): int
    requires width > 0
  {
    at - at % width
  }

  /** The hour of an instant contains its ten-minute bucket. */
  lemma TenMinutesWithinHour(a: int, b: int)
    requires Truncate(a, TEN_MINUTES) == Truncate(b, TEN_MINUTES)
    ensures Truncate(a, HOUR) == Truncate(b, HOUR)
    ensures TEN_MINUTES == 600 * SECOND && HOUR == 3_600 * SECOND && DAY == 86_400 * SECOND
  {
    var q := a / TEN_MINUTES;
    assert a == q * TEN_MINUTES + a % TEN_MINUTES;
    assert b / TEN_MINUTES == q;
    assert a / HOUR == q / 6 && b / HOUR == q / 6;
  }
}
