/**
 * Three clocks: UTC; one like Europe/London, with summer time and one irregular midnight long ago; and one with a date
 * that has no midnight.
 */
module Clocks {
  import opened Wrappers
  import opened HeatingTypes
  import opened Scheduler

  function UtcTime(t: int): Local { Local(t / 86_400_000_000_000, t % 86_400_000_000_000) }

  function UtcDate(day: int, timeOfDay: int): int { day * 86_400_000_000_000 + timeOfDay }

  lemma UtcIsRegular(lo: int, hi: int)
    ensures RegularOn(Clock(UtcTime, UtcDate), lo, hi)
  {
    var c := Clock(UtcTime, UtcDate);
    forall t: int, d: int ensures DatesInOrder(c, t, d) {
      var q := t / 86_400_000_000_000;
      assert t == 86_400_000_000_000 * q + t % 86_400_000_000_000;
    }
    forall d: int, tod: int ensures KeepsDate(c, d, tod) {
    }
  }

  lemma UtcIsStraight(lo: int, hi: int)
    ensures StraightOn(Clock(UtcTime, UtcDate), lo, hi) && WholeDays(Clock(UtcTime, UtcDate), lo, hi)
  {
    var c := Clock(UtcTime, UtcDate);
    UtcIsRegular(lo, hi + 1);
    forall t: int ensures ReadsStraight(c, t) {
      var q := t / 86_400_000_000_000;
      assert t == 86_400_000_000_000 * q + t % 86_400_000_000_000;
    }
    forall d: int ensures WholeDay(c, d) {
    }
  }

  // ----- a zone like Europe/London

  /** Local mean time until 1 December 1847, then Greenwich time but for the summer of 2025. */
  datatype Span = MeanTime | Winter | Summer | After

  function SpanAt(t: int): Span {
    if t < -3_852_662_325_000_000_000 then MeanTime
    else if t < 1_743_296_400_000_000_000 then Winter
    else if t < 1_761_440_400_000_000_000 then Summer
    else After
  }

  /** The span's offset from UTC: 75 seconds behind, none, one hour ahead, none. */
  function OffsetOf(s: Span): int {
    match s
    case MeanTime => -75_000_000_000
    case Winter => 0
    case Summer => 3_600_000_000_000
    case After => 0
  }

  function LondonTime(t: int): Local {
    var wall := t + OffsetOf(SpanAt(t));
    Local(wall / 86_400_000_000_000, wall % 86_400_000_000_000)
  }

  /**
   * time.Date: the civil time is looked up as if it were UTC, and once more when that span does not hold the result.
   */
  function LondonDate(day: int, timeOfDay: int): int { FromWall(day * 86_400_000_000_000 + timeOfDay) }

  function FromWall(wall: int): int {
    var guess := SpanAt(wall);
    var utc := wall - OffsetOf(guess);
    if OffsetOf(guess) == 0 then wall
    else if SpanAt(utc) != guess then wall - OffsetOf(SpanAt(utc))
    else utc
  }

  function LondonClock(): Clock { Clock(LondonTime, LondonDate) }

  lemma DayOfWall(wall: int, d: int)
    ensures wall / 86_400_000_000_000 >= d <==> wall >= d * 86_400_000_000_000
    ensures d * 86_400_000_000_000 <= wall < d * 86_400_000_000_000 + 86_400_000_000_000 ==>
      wall / 86_400_000_000_000 == d
  {
    var q := wall / 86_400_000_000_000;
    assert wall == 86_400_000_000_000 * q + wall % 86_400_000_000_000;
  }

  /**
   * From 2 December 1847 on, summer time included, every date is regular, so all of the scheduler's results hold there.
   */
  lemma LondonIsRegularSince1847(lo: int, hi: int)
    requires -44_590 <= lo
    ensures RegularOn(LondonClock(), lo, hi)
  {
    var c := LondonClock();
    forall t: int, d: int | lo <= d <= hi ensures DatesInOrder(c, t, d) {
      DayOfWall(t + OffsetOf(SpanAt(t)), d);
      MidnightInOrder(t, d);
    }
    forall d: int, tod: int | lo <= d <= hi ensures KeepsDate(c, d, tod) {
      if 0 <= tod < 86_400_000_000_000 {
        WallKept(d, tod);
        DayOfWall(FromWall(d * 86_400_000_000_000 + tod) + OffsetOf(SpanAt(FromWall(d * 86_400_000_000_000 + tod))), d);
      }
    }
  }

  /** No change of clocks in these dates touches a midnight. */
  lemma MidnightInOrder(t: int, d: int)
    requires -44_590 <= d
    ensures t + OffsetOf(SpanAt(t)) >= d * 86_400_000_000_000 <==> t >= FromWall(d * 86_400_000_000_000)
  {
    if d <= 20_177 {
    } else if d <= 20_387 {
    } else {
    }
  }

  lemma WallKept(d: int, tod: int)
    requires -44_590 <= d && 0 <= tod < 86_400_000_000_000
    ensures var t := FromWall(d * 86_400_000_000_000 + tod);
      d * 86_400_000_000_000 <= t + OffsetOf(SpanAt(t)) < d * 86_400_000_000_000 + 86_400_000_000_000
  {
    if d < 20_177 {
    } else if d == 20_177 {
    } else if d < 20_387 {
    } else if d == 20_387 {
    } else {
    }
  }

  /** On 1 December 1847 the clocks skip midnight, and time.Date puts it on the day before: that date is irregular. */
  lemma LondonOldMidnight()
    ensures !KeepsDate(LondonClock(), -44_591, 0)
    ensures LondonTime(LondonDate(-44_591, 0)) == Local(-44_592, 86_325_000_000_000)
  {
    assert FromWall(-44_591 * 86_400_000_000_000) == -3_852_662_400_000_000_000;
  }

  // ----- a date without a midnight

  /** Clocks go from 23:59:59 on date -1 (UTC-3) to 01:00 on date 0 (UTC-2) at instant 3 h. */
  function CivilTime(t: int): Local {
    var wall := if t < 10_800_000_000_000 then t - 10_800_000_000_000 else t - 7_200_000_000_000;
    Local(wall / 86_400_000_000_000, wall % 86_400_000_000_000)
  }

  /** A civil time inside the gap is read with the offset after it, as time.Date may do. */
  function CivilDate(day: int, timeOfDay: int): int {
    var wall := day * 86_400_000_000_000 + timeOfDay;
    if wall < 0 then wall + 10_800_000_000_000 else wall + 7_200_000_000_000
  }

  function SkippedMidnightClock(): Clock { Clock(CivilTime, CivilDate) }

  /**
   * On date 0 every local time that resolves at all resolves to an instant of date -1, so the day's own periods are
   * never scheduled.
   */
  lemma SkippedMidnightResolvesYesterday(t: int, time: LocalTime)
    requires CivilTime(t).day == 0
    ensures SkippedMidnightClock().local(DateOnly(SkippedMidnightClock(), t)).day == -1
    ensures Resolve(SkippedMidnightClock(), t, time).Some? ==>
              SkippedMidnightClock().local(Resolve(SkippedMidnightClock(), t, time).value).day == -1
  {
    var c := SkippedMidnightClock();
    assert c.date(0, 0) == 7_200_000_000_000;
    assert c.local(7_200_000_000_000) == Local(-1, 82_800_000_000_000);
    FirstStepIsFirst(c, t, time, 0);
  }
}
