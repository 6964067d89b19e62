/**
 * service/automation/scheduler/scheduler.go: the next change of effective heating state over an arbitrary local clock.
 */
module Scheduler {
  import opened Wrappers
  import opened HeatingTypes

  /** An instant's civil date (in days since 1 January 1970) and time of day in nanoseconds. */
  datatype Local = Local(day: int, timeOfDay: int)

  /**
   * A time.Location: the civil reading of an instant, and time.Date's choice of instant for a civil date and time of
   * day.
   */
  datatype Clock = Clock(local: int -> Local, date: (int, int) -> int)

  /** 1 January 1970 was a Thursday. */
  function Weekday(day: int): int { (day + 4) % 7 }

  function MinuteOfDay(l: Local): int { l.timeOfDay / 60_000_000_000 }

  function MinutesAfter(t: int, minutes: nat): int { t + minutes * 60_000_000_000 }

  function DateOnly(c: Clock, t: int): int { c.date(c.local(t).day, 0) }

  /** The date resolveLocalTime works on when asked about the day of instant `t`. */
  function TargetDay(c: Clock, t: int): int { c.local(DateOnly(c, t)).day }

  function Candidate(c: Clock, t: int, step: nat): int { MinutesAfter(c.date(TargetDay(c, t), 0), step) }

  predicate Meets(c: Clock, t: int, time: LocalTime, step: nat) {
    var l := c.local(Candidate(c, t, step));
    l.day == TargetDay(c, t) && MinuteOfDay(l) >= time.hour * MINUTES_PER_HOUR + time.minute
  }

  function FirstStep(c: Clock, t: int, time: LocalTime, from: nat): Option<nat>
    decreases 1801 - from
  {
    if from > 1800 then None
    else if Meets(c, t, time, from) then Some(from)
    else FirstStep(c, t, time, from + 1)
  }

  function Resolve(c: Clock, t: int, time: LocalTime): Option<int> {
    match FirstStep(c, t, time, 0)
    case None => None
    case Some(step) => Some(Candidate(c, t, step))
  }

  method ResolveLocalTime(c: Clock, day: int, time: LocalTime) returns (r: Option<int>)
    ensures r == Start(c, day, time)
  {
    if !time.Valid() { return None; }
    var targetDate := DateOnly(c, day);
    var startOfDay := c.date(c.local(targetDate).day, 0);
    var targetMinutes := time.hour * MINUTES_PER_HOUR + time.minute;
    var step := 0;
    while step <= 1800
      invariant step <= 1801
      invariant FirstStep(c, day, time, 0) == FirstStep(c, day, time, step)
    {
      var candidate := MinutesAfter(startOfDay, step);
      var candidateLocal := c.local(candidate);
      if candidateLocal.day == c.local(targetDate).day && MinuteOfDay(candidateLocal) >= targetMinutes {
        return Some(candidate);
      }
      step := step + 1;
    }
    return None;
  }

  lemma {:induction false} FirstStepIsFirst(c: Clock, t: int, time: LocalTime, from: nat)
    ensures var r := FirstStep(c, t, time, from);
      && (r.Some? ==> from <= r.value <= 1800 && Meets(c, t, time, r.value)
                      && forall s :: from <= s < r.value ==> !Meets(c, t, time, s))
      && (r.None? ==> forall s :: from <= s <= 1800 ==> !Meets(c, t, time, s))
    decreases 1801 - from
  {
    if from <= 1800 && !Meets(c, t, time, from) { FirstStepIsFirst(c, t, time, from + 1); }
  }

  /** Later local times resolve no earlier, whatever the clock does within the day. */
  lemma ResolveMonotone(c: Clock, t: int, early: LocalTime, late: LocalTime)
    requires !late.Before(early) && Resolve(c, t, late).Some?
    ensures Resolve(c, t, early).Some? && Resolve(c, t, early).value <= Resolve(c, t, late).value
  {
    FirstStepIsFirst(c, t, early, 0);
    FirstStepIsFirst(c, t, late, 0);
    var step := FirstStep(c, t, late, 0).value;
    assert Meets(c, t, early, step);
  }

  /** A resolved time lies on the asked day exactly when time.Date puts that day's midnight on it. */
  lemma ResolvedDay(c: Clock, t: int, time: LocalTime)
    requires Resolve(c, t, time).Some?
    ensures c.local(Resolve(c, t, time).value).day == c.local(t).day <==> c.local(DateOnly(c, t)).day == c.local(t).day
  {
    FirstStepIsFirst(c, t, time, 0);
  }

  // ----- what a resolved time reads on the clock

  /** The asked time of day in nanoseconds. */
  function Asked(time: LocalTime): int { time.hour * 3_600_000_000_000 + time.minute * 60_000_000_000 }

  /** At `minutes` after `midnight` the clock shows the date, and the asked time or a later one. */
  predicate Shows(c: Clock, midnight: int, minutes: nat, date: int, time: LocalTime) {
    var l := c.local(midnight + minutes * 60_000_000_000);
    l.day == date && Asked(time) <= l.timeOfDay
  }

  ghost predicate FirstShown(c: Clock, midnight: int, n: nat, date: int, time: LocalTime) {
    Shows(c, midnight, n, date, time) && forall m: nat :: m < n ==> !Shows(c, midnight, m, date, time)
  }

  lemma WholeMinutes(timeOfDay: int, minutes: int)
    ensures timeOfDay / 60_000_000_000 >= minutes <==> minutes * 60_000_000_000 <= timeOfDay
  {
    var q := timeOfDay / 60_000_000_000;
    assert timeOfDay == 60_000_000_000 * q + timeOfDay % 60_000_000_000;
  }

  lemma MeetsShows(c: Clock, t: int, time: LocalTime, step: nat)
    ensures Meets(c, t, time, step) <==> Shows(c, c.date(TargetDay(c, t), 0), step, TargetDay(c, t), time)
  {
    WholeMinutes(c.local(Candidate(c, t, step)).timeOfDay, time.hour * 60 + time.minute);
  }

  /**
   * A valid time resolves to the first minute of the day, of the 1800 from its midnight on, at which the clock shows
   * the day's date and the asked time or a later one; not at all when there is none.
   */
  lemma ResolvedReads(c: Clock, t: int, time: LocalTime)
    requires 0 <= time.hour <= 23 && 0 <= time.minute <= 59
    ensures var date := c.local(c.date(c.local(t).day, 0)).day; var midnight := c.date(date, 0);
      match Start(c, t, time)
      case Some(r) =>
        exists n: nat :: n <= 1800 && FirstShown(c, midnight, n, date, time) && r == midnight + n * 60_000_000_000
      case None => forall m: nat :: m <= 1800 ==> !Shows(c, midnight, m, date, time)
  {
    FirstStepIsFirst(c, t, time, 0);
    var date, midnight := TargetDay(c, t), c.date(TargetDay(c, t), 0);
    forall m: nat ensures Meets(c, t, time, m) <==> Shows(c, midnight, m, date, time) { MeetsShows(c, t, time, m); }
    var step := FirstStep(c, t, time, 0);
    if step.Some? { assert FirstShown(c, midnight, step.value, date, time); }
  }

  // ----- days

  /** The period of a day the programme does not cover: off from midnight. */
  function OffPeriod(): Period { Period(LocalTime(0, 0), Off, None) }

  /** The periods of a weekday: the programme's on its days when it is enabled, otherwise off all day. */
  function PeriodsOn(p: Program, weekday: int): seq<Period> {
    if p.enabled && AppliesOn(p, weekday) then p.periods else [OffPeriod()]
  }

  function DayPeriods(c: Clock, p: Program, day: int): seq<Period> {
    PeriodsOn(p, Weekday(c.local(day).day))
  }

  /** The first `n` starts of the day, unless one of them cannot be resolved. */
  function Starts(c: Clock, day: int, ps: seq<Period>, n: nat): (r: Option<seq<int>>)
    requires n <= |ps|
    ensures r.Some? ==> |r.value| == n
  {
    if n == 0 then Some([])
    else match Starts(c, day, ps, n - 1)
      case None => None
      case Some(starts) =>
        match Start(c, day, ps[n - 1].start)
        case None => None
        case Some(at) => Some(starts + [at])
  }

  function Start(c: Clock, day: int, time: LocalTime): Option<int> {
    if time.Valid() then Resolve(c, day, time) else None
  }

  predicate Resolves(c: Clock, day: int, ps: seq<Period>) {
    Starts(c, day, ps, |ps|).Some?
  }

  function StartsOf(c: Clock, day: int, ps: seq<Period>): seq<int>
    requires Resolves(c, day, ps)
  {
    Starts(c, day, ps, |ps|).value
  }

  lemma {:induction false} StartsIndex(c: Clock, day: int, ps: seq<Period>, n: nat, i: nat)
    requires i < n <= |ps| && Starts(c, day, ps, n).Some?
    ensures Start(c, day, ps[i].start) == Some(Starts(c, day, ps, n).value[i])
  {
    if i < n - 1 { StartsIndex(c, day, ps, n - 1, i); }
  }

  lemma {:induction false} StartsFail(c: Clock, day: int, ps: seq<Period>, i: nat, n: nat)
    requires i < n <= |ps| && Start(c, day, ps[i].start).None?
    ensures Starts(c, day, ps, n).None?
  {
    if i < n - 1 { StartsFail(c, day, ps, i, n - 1); }
  }

  method ResolveDayStarts(c: Clock, day: int, ps: seq<Period>) returns (r: Option<seq<int>>)
    ensures r == Starts(c, day, ps, |ps|)
  {
    var starts: seq<int> := [];
    for i := 0 to |ps|
      invariant Starts(c, day, ps, i) == Some(starts)
    {
      var start := ResolveLocalTime(c, day, ps[i].start);
      if start.None? {
        StartsFail(c, day, ps, i, |ps|);
        return None;
      }
      starts := starts + [start.value];
    }
    return Some(starts);
  }

  /** The instant of the day `offset` days on: AddDate keeps the time of day that time.Date gave today's midnight. */
  function DayInstant(c: Clock, now: int, offset: int): int {
    var today := c.local(DateOnly(c, now));
    c.date(today.day + offset, today.timeOfDay)
  }

  // ----- the scan

  datatype ScheduleError = InvalidProgram(error: ProgramError) | Unresolved | NoUpcomingTransition

  /** Every start of the day, up to index `n`, that comes after `now` keeps the state of `current`. */
  ghost predicate Quiet(c: Clock, p: Program, now: int, current: Period, offset: nat, n: nat)
    requires n <= |DayPeriods(c, p, DayInstant(c, now, offset))|
    requires Resolves(c, DayInstant(c, now, offset), DayPeriods(c, p, DayInstant(c, now, offset)))
  {
    var day := DayInstant(c, now, offset);
    var ps := DayPeriods(c, p, day);
    forall i :: 0 <= i < n && now < StartsOf(c, day, ps)[i] ==> SameEffectiveState(current, ps[i])
  }

  ghost predicate QuietDay(c: Clock, p: Program, now: int, current: Period, offset: nat) {
    var ps := DayPeriods(c, p, DayInstant(c, now, offset));
    Resolves(c, DayInstant(c, now, offset), ps) && Quiet(c, p, now, current, offset, |ps|)
  }

  ghost predicate Unresolvable(c: Clock, p: Program, now: int, offset: nat) {
    !Resolves(c, DayInstant(c, now, offset), DayPeriods(c, p, DayInstant(c, now, offset)))
  }

  datatype Found = Found(offset: nat, index: nat, period: Period, at: int)

  /** `f` is the first start after `now`, day by day and in programme order, that changes the state of `current`. */
  ghost predicate FirstChange(c: Clock, p: Program, now: int, current: Period, f: Found) {
    var day := DayInstant(c, now, f.offset);
    var ps := DayPeriods(c, p, day);
    && f.offset < 8 && (forall k: nat :: k < f.offset ==> QuietDay(c, p, now, current, k))
    && f.index < |ps| && Resolves(c, day, ps) && Quiet(c, p, now, current, f.offset, f.index)
    && f.period == ps[f.index] && f.at == StartsOf(c, day, ps)[f.index]
    && now < f.at && !SameEffectiveState(current, f.period)
  }

  method NextDistinctTransition(c: Clock, p: Program, now: int, current: Period)
    returns (r: Result<Found, ScheduleError>)
    ensures r.Ok? ==> FirstChange(c, p, now, current, r.value)
    ensures r == Err(NoUpcomingTransition) ==> forall k: nat :: k < 8 ==> QuietDay(c, p, now, current, k)
    ensures r.Err? ==> r.error == NoUpcomingTransition || r.error == Unresolved
    ensures r == Err(Unresolved) ==> exists k: nat :: k < 8 && Unresolvable(c, p, now, k)
  {
    var currentDate := DateOnly(c, now);
    for dayOffset := 0 to 8
      invariant forall k: nat :: k < dayOffset ==> QuietDay(c, p, now, current, k)
    {
      var day := c.date(c.local(currentDate).day + dayOffset, c.local(currentDate).timeOfDay);
      assert day == DayInstant(c, now, dayOffset);
      var periods := PeriodsOn(p, Weekday(c.local(day).day));
      var starts := ResolveDayStarts(c, day, periods);
      if starts.None? {
        assert Unresolvable(c, p, now, dayOffset);
        return Err(Unresolved);
      }
      for i := 0 to |periods|
        invariant Quiet(c, p, now, current, dayOffset, i)
      {
        if starts.value[i] > now && !SameEffectiveState(current, periods[i]) {
          return Ok(Found(dayOffset, i, periods[i], starts.value[i]));
        }
      }
    }
    return Err(NoUpcomingTransition);
  }

  /** The index of the last of the first `n` starts that is not after `now`; 0 when there is none. */
  function ActiveIndex(starts: seq<int>, now: int, n: nat): nat
    requires n <= |starts|
  {
    if n == 0 then 0
    else if starts[n - 1] <= now then n - 1
    else ActiveIndex(starts, now, n - 1)
  }

  lemma {:induction false} ActiveIndexIsLast(starts: seq<int>, now: int, n: nat)
    requires n <= |starts|
    ensures var a := ActiveIndex(starts, now, n);
      && (n > 0 ==> a < n)
      && (forall i :: a < i < n ==> now < starts[i])
      && (a < n && now < starts[a] ==> a == 0)
  {
    if n > 0 { ActiveIndexIsLast(starts, now, n - 1); }
  }

  /** The period in force at an instant, when its day's starts resolve. */
  ghost predicate Known(c: Clock, p: Program, t: int) {
    var ps := PeriodsOn(p, Weekday(c.local(t).day));
    ps != [] && Resolves(c, DateOnly(c, t), ps)
  }

  ghost function ActiveIndexAt(c: Clock, p: Program, t: int): (i: nat)
    requires Known(c, p, t)
    ensures i < |PeriodsOn(p, Weekday(c.local(t).day))|
  {
    var ps := PeriodsOn(p, Weekday(c.local(t).day));
    ActiveIndexIsLast(StartsOf(c, DateOnly(c, t), ps), t, |ps|);
    ActiveIndex(StartsOf(c, DateOnly(c, t), ps), t, |ps|)
  }

  ghost function ActiveAt(c: Clock, p: Program, t: int): Period
    requires Known(c, p, t)
  {
    PeriodsOn(p, Weekday(c.local(t).day))[ActiveIndexAt(c, p, t)]
  }

  datatype ActionKind =
      | Noop | EnsureOnAndSetTarget(target: Option<Millidegrees>) | SetTarget(newTarget: Option<Millidegrees>)
      | EnsureOff

  function DeriveAction(from: Period, to: Period): ActionKind {
    match (from.mode, to.mode)
    case (Off, Heat) => EnsureOnAndSetTarget(to.target)
    case (Heat, Off) => EnsureOff
    case (Heat, Heat) => SetTarget(to.target)
    case _ => Noop
  }

  datatype Calculation = Calculation(programId: string, active: Period, activeIndex: nat, next: Period, nextIndex: nat,
    nextAt: int, action: ActionKind)

  predicate Reports(result: Calculation, f: Found) {
    result.next == f.period && result.nextAt == f.at && result.nextIndex == f.index
  }

  /** No start of the next eight days changes the state in force. */
  ghost predicate NothingAhead(c: Clock, p: Program, now: int) {
    Known(c, p, now) && forall k: nat :: k < 8 ==> QuietDay(c, p, now, ActiveAt(c, p, now), k)
  }

  /** A start needed now or within the next eight days cannot be resolved. */
  ghost predicate Unresolving(c: Clock, p: Program, now: int) {
    !Known(c, p, now) || exists k: nat :: k < 8 && Unresolvable(c, p, now, k)
  }

  /**
   * The period in force and the first start after `now` that changes its effective state, with the action between them.
   */
  ghost predicate Announces(p: Program, c: Clock, now: int, result: Calculation) {
    && ValidProgram(p) && Known(c, p, now) && result.programId == p.id
    && result.active == ActiveAt(c, p, now) && result.activeIndex == ActiveIndexAt(c, p, now)
    && (exists f :: FirstChange(c, p, now, result.active, f) && Reports(result, f))
    && result.action == DeriveAction(result.active, result.next) && result.action != Noop
  }

  method Calculate(p: Program, c: Clock, now: int) returns (r: Result<Calculation, ScheduleError>)
    ensures r.Ok? ==> Announces(p, c, now, r.value)
    ensures r == Err(NoUpcomingTransition) ==> ValidProgram(p) && NothingAhead(c, p, now)
    ensures r == Err(Unresolved) ==> ValidProgram(p) && Unresolving(c, p, now)
    ensures r.Err? && r.error.InvalidProgram? <==> !ValidProgram(p)
  {
    var invalid := Validate(p);
    if invalid.Some? { return Err(InvalidProgram(invalid.value)); }
    var activePeriods := PeriodsOn(p, Weekday(c.local(now).day));
    var starts := ResolveDayStarts(c, DateOnly(c, now), activePeriods);
    if starts.None? { return Err(Unresolved); }
    var activeIndex := 0;
    for i := 0 to |activePeriods|
      invariant activeIndex == ActiveIndex(starts.value, now, i)
    {
      if !(starts.value[i] > now) { activeIndex := i; }
    }
    ActiveIndexIsLast(starts.value, now, |activePeriods|);
    var active := activePeriods[activeIndex];
    var found := NextDistinctTransition(c, p, now, active);
    match found
    case Err(e) => return Err(e);
    case Ok(f) =>
      PeriodsOnValid(p, Weekday(c.local(now).day));
      InOrderPairs(activePeriods, |activePeriods|, activeIndex, activeIndex);
      ChangeActs(c, p, now, active, f);
      return Ok(Calculation(p.id, active, activeIndex, f.period, f.index, f.at, DeriveAction(active, f.period)));
  }

  lemma PeriodsOnValid(p: Program, weekday: int)
    requires ValidProgram(p)
    ensures ValidPeriods(PeriodsOn(p, weekday))
  {
    assert InOrder([OffPeriod()], 0);
    assert InOrder([OffPeriod()], 1);
  }

  lemma ChangeActs(c: Clock, p: Program, now: int, current: Period, f: Found)
    requires ValidProgram(p) && ValidPeriod(current) && FirstChange(c, p, now, current, f)
    ensures DeriveAction(current, f.period) != Noop
  {
    PeriodsOnValid(p, Weekday(c.local(DayInstant(c, now, f.offset)).day));
    InOrderPairs(DayPeriods(c, p, DayInstant(c, now, f.offset)), |DayPeriods(c, p, DayInstant(c, now, f.offset))|,
      f.index, f.index);
  }

  // ----- what the scan means where the clock is regular

  /**
   * On dates `lo` to `hi`: dates run in order, time.Date(d, 00:00) is the first instant of date d, and every civil time
   * keeps its date.
   */
  ghost predicate RegularOn(c: Clock, lo: int, hi: int) {
    && (forall t: int, d: int :: lo <= d <= hi ==> DatesInOrder(c, t, d))
    && forall d: int, tod: int :: lo <= d <= hi ==> KeepsDate(c, d, tod)
  }

  predicate DatesInOrder(c: Clock, t: int, d: int) {
    0 <= c.local(t).timeOfDay < 86_400_000_000_000 && (c.local(t).day >= d <==> t >= c.date(d, 0))
  }

  predicate KeepsDate(c: Clock, d: int, tod: int) {
    0 <= tod < 86_400_000_000_000 ==> c.local(c.date(d, tod)).day == d
  }

  /** The clock is regular from now's date for as long as the scan looks, and one day more to close the last. */
  ghost predicate RegularAhead(c: Clock, now: int) {
    RegularOn(c, c.local(now).day, c.local(now).day + 8)
  }

  predicate Within(c: Clock, t: int, lo: int, hi: int) { lo <= c.local(t).day <= hi }

  lemma OwnMidnight(c: Clock, lo: int, hi: int, t: int)
    requires RegularOn(c, lo, hi) && Within(c, t, lo, hi)
    ensures c.local(DateOnly(c, t)).day == c.local(t).day == TargetDay(c, t)
    ensures DateOnly(c, t) <= t
  {
    assert DatesInOrder(c, t, c.local(t).day);
    assert KeepsDate(c, c.local(t).day, 0);
  }

  /** The scan's instant `offset` days on lies on that date. */
  lemma ScanDay(c: Clock, lo: int, hi: int, now: int, offset: int)
    requires RegularOn(c, lo, hi) && Within(c, now, lo, hi) && lo <= c.local(now).day + offset <= hi
    ensures c.local(DayInstant(c, now, offset)).day == c.local(now).day + offset
  {
    OwnMidnight(c, lo, hi, now);
    var today := c.local(DateOnly(c, now));
    assert DatesInOrder(c, DateOnly(c, now), c.local(now).day);
    assert KeepsDate(c, today.day + offset, today.timeOfDay);
  }

  /** Dates never run backwards from a regular one. */
  lemma DatesGrow(c: Clock, lo: int, hi: int, a: int, b: int)
    requires RegularOn(c, lo, hi) && Within(c, a, lo, hi) && a <= b
    ensures c.local(a).day <= c.local(b).day
  {
    assert DatesInOrder(c, a, c.local(a).day);
    assert DatesInOrder(c, b, c.local(a).day);
  }

  /** An instant of an earlier date comes before a regular date's midnight. */
  lemma BeforeMidnight(c: Clock, lo: int, hi: int, a: int, b: int)
    requires RegularOn(c, lo, hi) && Within(c, b, lo, hi) && c.local(a).day < c.local(b).day
    ensures a < c.date(c.local(b).day, 0) <= b
  {
    assert DatesInOrder(c, a, c.local(b).day);
    assert DatesInOrder(c, b, c.local(b).day);
  }

  /** What a day resolves to depends only on its date. */
  lemma {:induction false} SameDateSameStarts(c: Clock, a: int, b: int, ps: seq<Period>, n: nat)
    requires c.local(a).day == c.local(b).day && n <= |ps|
    ensures Starts(c, a, ps, n) == Starts(c, b, ps, n)
  {
    if n > 0 {
      SameDateSameStarts(c, a, b, ps, n - 1);
      SameDateSameStart(c, a, b, ps[n - 1].start);
    }
  }

  lemma SameDateSameStart(c: Clock, a: int, b: int, time: LocalTime)
    requires c.local(a).day == c.local(b).day
    ensures Resolve(c, a, time) == Resolve(c, b, time)
  {
    SameSteps(c, a, b, time, 0);
  }

  lemma {:induction false} SameSteps(c: Clock, a: int, b: int, time: LocalTime, from: nat)
    requires TargetDay(c, a) == TargetDay(c, b)
    ensures FirstStep(c, a, time, from) == FirstStep(c, b, time, from)
    decreases 1801 - from
  {
    if from <= 1800 {
      assert Candidate(c, a, from) == Candidate(c, b, from);
      SameSteps(c, a, b, time, from + 1);
    }
  }

  /** Midnight's period starts with the day, and every start lies on its own day. */
  lemma StartsOnDay(c: Clock, lo: int, hi: int, day: int, ps: seq<Period>, i: nat)
    requires RegularOn(c, lo, hi) && Within(c, day, lo, hi)
    requires ValidPeriods(ps) && Resolves(c, day, ps) && i < |ps|
    ensures c.local(StartsOf(c, day, ps)[i]).day == c.local(day).day
    ensures StartsOf(c, day, ps)[0] == c.date(c.local(day).day, 0)
  {
    StartsIndex(c, day, ps, |ps|, i);
    StartsIndex(c, day, ps, |ps|, 0);
    OwnMidnight(c, lo, hi, day);
    ResolvedDay(c, day, ps[i].start);
    MidnightStartsDay(c, lo, hi, day, ps[0].start);
  }

  lemma MidnightStartsDay(c: Clock, lo: int, hi: int, day: int, time: LocalTime)
    requires RegularOn(c, lo, hi) && Within(c, day, lo, hi)
    ensures time.IsMidnight() ==> Resolve(c, day, time) == Some(c.date(c.local(day).day, 0))
  {
    OwnMidnight(c, lo, hi, day);
    assert Candidate(c, day, 0) == c.date(TargetDay(c, day), 0);
    assert DatesInOrder(c, c.date(c.local(day).day, 0), c.local(day).day);
    assert time.IsMidnight() ==> Meets(c, day, time, 0);
  }

  lemma StartsSorted(c: Clock, day: int, ps: seq<Period>, i: nat, j: nat)
    requires ValidPeriods(ps) && Resolves(c, day, ps) && i <= j < |ps|
    ensures StartsOf(c, day, ps)[i] <= StartsOf(c, day, ps)[j]
  {
    StartsIndex(c, day, ps, |ps|, i);
    StartsIndex(c, day, ps, |ps|, j);
    InOrderPairs(ps, |ps|, i, j);
    ResolveMonotone(c, day, ps[i].start, ps[j].start);
  }

  /** An instant's own day and the scan's instant of that date have the same periods and the same starts. */
  lemma OwnDay(c: Clock, p: Program, hi: int, now: int, t: int)
    requires RegularOn(c, c.local(now).day, hi) && Within(c, t, c.local(now).day, hi)
    ensures var day := DayInstant(c, now, c.local(t).day - c.local(now).day);
      var ps := DayPeriods(c, p, day);
      && ps == PeriodsOn(p, Weekday(c.local(t).day))
      && c.local(day).day == c.local(t).day
      && (Known(c, p, t) <==> ps != [] && Resolves(c, day, ps))
      && Starts(c, day, ps, |ps|) == Starts(c, DateOnly(c, t), ps, |ps|)
  {
    var day := DayInstant(c, now, c.local(t).day - c.local(now).day);
    OwnMidnight(c, c.local(now).day, hi, t);
    ScanDay(c, c.local(now).day, hi, now, c.local(t).day - c.local(now).day);
    SameDateSameStarts(c, day, DateOnly(c, t), DayPeriods(c, p, day), |DayPeriods(c, p, day)|);
  }

  /** Where an instant sits relative to the scan: its day, the day's periods and the period in force. */
  lemma Placed(c: Clock, p: Program, hi: int, now: int, t: int)
    returns (offset: nat, day: int, ps: seq<Period>, starts: seq<int>, i: nat)
    requires RegularOn(c, c.local(now).day, hi) && c.local(now).day <= hi && c.local(t).day <= hi
    requires ValidProgram(p) && Known(c, p, t) && now <= t
    ensures offset == c.local(t).day - c.local(now).day && day == DayInstant(c, now, offset)
    ensures ps == DayPeriods(c, p, day) && ValidPeriods(ps) && Resolves(c, day, ps) && starts == StartsOf(c, day, ps)
    ensures i < |ps| && ActiveAt(c, p, t) == ps[i] && starts[i] <= t
    ensures forall j :: i < j < |ps| ==> t < starts[j]
  {
    DatesGrow(c, c.local(now).day, hi, now, t);
    offset := c.local(t).day - c.local(now).day;
    day := DayInstant(c, now, offset);
    OwnDay(c, p, hi, now, t);
    ps := DayPeriods(c, p, day);
    PeriodsOnValid(p, Weekday(c.local(t).day));
    starts := StartsOf(c, day, ps);
    i := ActiveIndex(starts, t, |ps|);
    ActiveIndexIsLast(starts, t, |ps|);
    StartsOnDay(c, c.local(now).day, hi, day, ps, 0);
    assert DatesInOrder(c, t, c.local(t).day);
  }

  /** A start on a later date comes after now. */
  lemma LaterDayIsLater(c: Clock, hi: int, now: int, offset: nat, day: int, ps: seq<Period>, i: nat)
    requires RegularOn(c, c.local(now).day, hi) && c.local(now).day + offset <= hi
    requires ValidPeriods(ps) && Resolves(c, day, ps) && i < |ps|
    requires offset > 0 && day == DayInstant(c, now, offset)
    ensures now < StartsOf(c, day, ps)[i]
  {
    var lo := c.local(now).day;
    ScanDay(c, lo, hi, now, offset);
    StartsOnDay(c, lo, hi, day, ps, i);
    BeforeMidnight(c, lo, hi, now, StartsOf(c, day, ps)[i]);
  }

  /** An instant before the found change lies on a day the scan resolved. */
  lemma KnownBeforeChange(c: Clock, p: Program, now: int, current: Period, f: Found, t: int)
    requires RegularAhead(c, now) && ValidProgram(p) && FirstChange(c, p, now, current, f) && now <= t <= f.at
    ensures Known(c, p, t) && 0 <= c.local(t).day - c.local(now).day <= f.offset
  {
    var lo := c.local(now).day;
    ChangeOnItsDay(c, p, now, current, f);
    DatesGrow(c, lo, lo + 8, now, t);
    NoLaterDate(c, lo, lo + 8, t, f.at);
    OwnDay(c, p, lo + 8, now, t);
    PeriodsOnValid(p, Weekday(c.local(t).day));
    ScanResolves(c, p, now, current, f, c.local(t).day - lo);
  }

  /** The scan resolved every day up to the one of the found change. */
  lemma ScanResolves(c: Clock, p: Program, now: int, current: Period, f: Found, k: nat)
    requires FirstChange(c, p, now, current, f) && k <= f.offset
    ensures Resolves(c, DayInstant(c, now, k), DayPeriods(c, p, DayInstant(c, now, k)))
  {
    assert k < f.offset ==> QuietDay(c, p, now, current, k);
  }

  /** An instant no later than another is on no later date, when the date after is regular. */
  lemma NoLaterDate(c: Clock, lo: int, hi: int, a: int, b: int)
    requires RegularOn(c, lo, hi) && lo <= c.local(b).day < hi && a <= b
    ensures c.local(a).day <= c.local(b).day
  {
    assert DatesInOrder(c, a, c.local(b).day + 1);
    assert DatesInOrder(c, b, c.local(b).day + 1);
  }

  lemma ChangeOnItsDay(c: Clock, p: Program, now: int, current: Period, f: Found)
    requires RegularAhead(c, now) && ValidProgram(p) && FirstChange(c, p, now, current, f)
    ensures c.local(f.at).day == c.local(now).day + f.offset
  {
    var lo, day := c.local(now).day, DayInstant(c, now, f.offset);
    ScanDay(c, lo, lo + 8, now, f.offset);
    PeriodsOnValid(p, Weekday(c.local(day).day));
    StartsOnDay(c, lo, lo + 8, day, DayPeriods(c, p, day), f.index);
  }

  lemma SameStateReflexive(a: Period)
    requires ValidPeriod(a)
    ensures SameEffectiveState(a, a)
  {
  }

  /** From now up to the found change the period in force keeps its effective state. */
  lemma StateHoldsUntilChange(c: Clock, p: Program, now: int, f: Found, t: int)
    requires RegularAhead(c, now) && ValidProgram(p) && Known(c, p, now)
    requires FirstChange(c, p, now, ActiveAt(c, p, now), f) && now <= t < f.at
    ensures Known(c, p, t) && SameEffectiveState(ActiveAt(c, p, now), ActiveAt(c, p, t))
  {
    var hi := c.local(now).day + 8;
    KnownBeforeChange(c, p, now, ActiveAt(c, p, now), f, t);
    var offset, day, ps, starts, i := Placed(c, p, hi, now, t);
    if starts[i] <= now {
      StartedByNow(c, p, hi, now, t, offset, day, ps, i);
    } else if offset < f.offset {
      assert QuietDay(c, p, now, ActiveAt(c, p, now), offset);
    } else if f.index <= i {
      StartsSorted(c, day, ps, f.index, i);
    }
  }

  /** If the period in force at `t` started by `now`, it is the one in force at `now`. */
  lemma StartedByNow(c: Clock, p: Program, hi: int, now: int, t: int, offset: nat, day: int, ps: seq<Period>, i: nat)
    requires RegularOn(c, c.local(now).day, hi) && c.local(now).day + offset <= hi
    requires ValidProgram(p) && Known(c, p, now) && Known(c, p, t) && now <= t
    requires day == DayInstant(c, now, offset) && ps == DayPeriods(c, p, day) && ValidPeriods(ps)
    requires Resolves(c, day, ps)
    requires i < |ps| && ActiveAt(c, p, t) == ps[i] && StartsOf(c, day, ps)[i] <= now
    requires forall j :: i < j < |ps| ==> t < StartsOf(c, day, ps)[j]
    ensures SameEffectiveState(ActiveAt(c, p, now), ActiveAt(c, p, t))
  {
    if offset > 0 {
      LaterDayIsLater(c, hi, now, offset, day, ps, i);
    } else {
      var _, day0, ps0, _, i0 := Placed(c, p, hi, now, now);
      assert day == day0 && ps == ps0 && i == i0;
      InOrderPairs(ps, |ps|, i, i);
      SameStateReflexive(ps[i]);
    }
  }

  /** No later start of the day falls on the same instant, as on any day without a gap over two starts. */
  ghost predicate Distinct(c: Clock, p: Program, now: int, f: Found) {
    var day := DayInstant(c, now, f.offset);
    var ps := DayPeriods(c, p, day);
    Resolves(c, day, ps) && forall j :: f.index < j < |ps| ==> f.at < StartsOf(c, day, ps)[j]
  }

  /**
   * At the found change the found period comes into force, exactly when no later start of the day shares its instant.
   */
  lemma ChangeTakesEffect(c: Clock, p: Program, now: int, current: Period, f: Found)
    requires RegularAhead(c, now) && ValidProgram(p) && FirstChange(c, p, now, current, f)
    ensures Known(c, p, f.at)
    ensures ActiveAt(c, p, f.at) == f.period <==> Distinct(c, p, now, f)
  {
    KnownBeforeChange(c, p, now, current, f, f.at);
    ChangeOnItsDay(c, p, now, current, f);
    var offset, day, ps, starts, i := Placed(c, p, c.local(now).day + 8, now, f.at);
    assert starts[f.index] == f.at && f.index <= i;
    if f.index < i { InOrderPairs(ps, |ps|, f.index, i); }
  }

  /**
   * No instant before the found change differs from now, and the change itself does when no later start shares its
   * instant.
   */
  lemma EarliestChange(c: Clock, p: Program, now: int, f: Found, t: int)
    requires RegularAhead(c, now) && ValidProgram(p) && Known(c, p, now)
    requires FirstChange(c, p, now, ActiveAt(c, p, now), f)
    requires now <= t && Known(c, p, t) && !SameEffectiveState(ActiveAt(c, p, now), ActiveAt(c, p, t))
    ensures f.at <= t && Known(c, p, f.at)
    ensures Distinct(c, p, now, f) ==> !SameEffectiveState(ActiveAt(c, p, now), ActiveAt(c, p, f.at))
  {
    if t < f.at { StateHoldsUntilChange(c, p, now, f, t); }
    ChangeTakesEffect(c, p, now, ActiveAt(c, p, now), f);
  }

  lemma SameWeekday(c: Clock, p: Program, hi: int, now: int, a: nat, b: nat)
    requires RegularOn(c, c.local(now).day, hi) && c.local(now).day + a <= hi && c.local(now).day + b <= hi
    requires a % 7 == b % 7
    ensures DayPeriods(c, p, DayInstant(c, now, a)) == DayPeriods(c, p, DayInstant(c, now, b))
  {
    ScanDay(c, c.local(now).day, hi, now, a);
    ScanDay(c, c.local(now).day, hi, now, b);
  }

  /** Eight days cover the week: with nothing ahead, no later instant differs, as far as the clock is regular. */
  lemma NothingEverChanges(c: Clock, p: Program, hi: int, now: int, t: int)
    requires RegularOn(c, c.local(now).day, hi) && c.local(now).day + 8 <= hi && c.local(t).day <= hi
    requires ValidProgram(p) && NothingAhead(c, p, now) && now <= t && Known(c, p, t)
    ensures SameEffectiveState(ActiveAt(c, p, now), ActiveAt(c, p, t))
  {
    var offset, day, ps, starts, i := Placed(c, p, hi, now, t);
    if starts[i] <= now {
      StartedByNow(c, p, hi, now, t, offset, day, ps, i);
    } else if offset < 8 {
      assert QuietDay(c, p, now, ActiveAt(c, p, now), offset);
    } else {
      LaterWeeksRepeat(c, p, hi, now, ActiveAt(c, p, now), offset, ps, i);
    }
  }

  /** A day beyond the scan has the periods of one within it. */
  lemma LaterWeeksRepeat(c: Clock, p: Program, hi: int, now: int, current: Period, offset: nat, ps: seq<Period>, i: nat)
    requires RegularOn(c, c.local(now).day, hi) && c.local(now).day + offset <= hi
    requires offset >= 8 && (forall k: nat :: k < 8 ==> QuietDay(c, p, now, current, k))
    requires ps == DayPeriods(c, p, DayInstant(c, now, offset)) && ValidPeriods(ps) && i < |ps|
    ensures SameEffectiveState(current, ps[i])
  {
    var k := (offset - 1) % 7 + 1;
    SameWeekday(c, p, hi, now, offset, k);
    assert QuietDay(c, p, now, current, k);
    LaterDayIsLater(c, hi, now, k, DayInstant(c, now, k), ps, i);
  }

  /** The first change is unique, so Calculate's answer is determined. */
  lemma FirstChangeUnique(c: Clock, p: Program, now: int, current: Period, f: Found, g: Found)
    requires FirstChange(c, p, now, current, f) && FirstChange(c, p, now, current, g)
    ensures f == g
  {
    assert f.offset < g.offset ==> QuietDay(c, p, now, current, f.offset);
    assert g.offset < f.offset ==> QuietDay(c, p, now, current, g.offset);
  }

  // ----- where the clock reads straight through the day

  /** On dates `lo` to `hi` the clock, regular there and one date on, is never put forward or back within a date. */
  ghost predicate StraightOn(c: Clock, lo: int, hi: int) {
    RegularOn(c, lo, hi + 1) && forall t: int :: Within(c, t, lo, hi) ==> ReadsStraight(c, t)
  }

  predicate ReadsStraight(c: Clock, t: int) { c.local(t).timeOfDay == t - c.date(c.local(t).day, 0) }

  /** There a day lasts as long as its times of day. */
  lemma StraightDay(c: Clock, lo: int, hi: int, day: int, minutes: nat)
    requires StraightOn(c, lo, hi) && Within(c, day, lo, hi)
    requires c.date(c.local(day).day, 0) + minutes * 60_000_000_000 < c.date(c.local(day).day + 1, 0)
    ensures c.local(c.date(c.local(day).day, 0) + minutes * 60_000_000_000) ==
      Local(c.local(day).day, minutes * 60_000_000_000)
  {
    var d := c.local(day).day;
    var at := c.date(d, 0) + minutes * 60_000_000_000;
    assert DatesInOrder(c, at, d) && DatesInOrder(c, at, d + 1);
    assert Within(c, at, lo, hi) && ReadsStraight(c, at);
  }

  /** A time that the day reaches resolves to midnight and that much. */
  lemma StraightStart(c: Clock, lo: int, hi: int, day: int, time: LocalTime)
    requires StraightOn(c, lo, hi) && Within(c, day, lo, hi) && time.Valid()
    requires c.date(c.local(day).day, 0) + Asked(time) < c.date(c.local(day).day + 1, 0)
    ensures Start(c, day, time) == Some(c.date(c.local(day).day, 0) + Asked(time))
  {
    var d := c.local(day).day;
    var midnight, n := c.date(d, 0), time.hour * 60 + time.minute;
    assert KeepsDate(c, d, 0);
    ResolvedReads(c, day, time);
    StraightDay(c, lo, hi, day, n);
    assert Shows(c, midnight, n, d, time);
    forall m: nat | m < n ensures !Shows(c, midnight, m, d, time) { StraightDay(c, lo, hi, day, m); }
  }

  /** Every date of the range is a whole day long. */
  ghost predicate WholeDays(c: Clock, lo: int, hi: int) {
    forall d: int :: lo <= d <= hi ==> WholeDay(c, d)
  }

  predicate WholeDay(c: Clock, d: int) { c.date(d + 1, 0) - c.date(d, 0) == 86_400_000_000_000 }

  /** The period whose start is the last not after the time of day. */
  predicate InForce(ps: seq<Period>, timeOfDay: int, i: nat) {
    && i < |ps| && Asked(ps[i].start) <= timeOfDay
    && forall j :: i < j < |ps| ==> timeOfDay < Asked(ps[j].start)
  }

  /** The periods of a date: the programme's on its weekdays when it is enabled, otherwise off from midnight. */
  function PeriodsOfDate(p: Program, date: int): seq<Period> {
    if p.enabled && (date + 4) % 7 in p.days then p.periods else [Period(LocalTime(0, 0), Off, None)]
  }

  lemma StraightStarts(c: Clock, lo: int, hi: int, day: int, ps: seq<Period>, i: nat)
    requires StraightOn(c, lo, hi) && WholeDays(c, lo, hi) && Within(c, day, lo, hi)
    requires ValidPeriods(ps) && Resolves(c, day, ps) && i < |ps|
    ensures StartsOf(c, day, ps)[i] == c.date(c.local(day).day, 0) + Asked(ps[i].start)
  {
    InOrderPairs(ps, |ps|, i, i);
    StartsIndex(c, day, ps, |ps|, i);
    WholeDayStart(c, lo, hi, day, ps[i].start);
  }

  lemma WholeDayStart(c: Clock, lo: int, hi: int, day: int, time: LocalTime)
    requires StraightOn(c, lo, hi) && WholeDays(c, lo, hi) && Within(c, day, lo, hi) && time.Valid()
    ensures Start(c, day, time) == Some(c.date(c.local(day).day, 0) + Asked(time))
  {
    assert WholeDay(c, c.local(day).day);
    StraightStart(c, lo, hi, day, time);
  }

  /** Each start is its own time after the day's midnight. */
  ghost predicate AsAsked(midnight: int, starts: seq<int>, ps: seq<Period>) {
    |starts| == |ps| && forall j :: 0 <= j < |ps| ==> starts[j] == midnight + Asked(ps[j].start)
  }

  lemma StraightStartsAll(c: Clock, lo: int, hi: int, day: int, ps: seq<Period>)
    requires StraightOn(c, lo, hi) && WholeDays(c, lo, hi) && Within(c, day, lo, hi)
    requires ValidPeriods(ps) && Resolves(c, day, ps)
    ensures AsAsked(c.date(c.local(day).day, 0), StartsOf(c, day, ps), ps)
  {
    forall j: nat | j < |ps| ensures StartsOf(c, day, ps)[j] == c.date(c.local(day).day, 0) + Asked(ps[j].start) {
      StraightStarts(c, lo, hi, day, ps, j);
    }
  }

  lemma LastStartInForce(midnight: int, starts: seq<int>, ps: seq<Period>, t: int)
    requires AsAsked(midnight, starts, ps) && ValidPeriods(ps) && midnight <= t
    ensures InForce(ps, t - midnight, ActiveIndex(starts, t, |ps|))
  {
    ActiveIndexIsLast(starts, t, |ps|);
    assert Asked(ps[0].start) == 0;
  }

  /** The period in force is read off the date's periods and the time of day. */
  lemma ActiveReads(c: Clock, lo: int, hi: int, p: Program, t: int)
    requires StraightOn(c, lo, hi) && WholeDays(c, lo, hi) && Within(c, t, lo, hi)
    requires ValidProgram(p) && Known(c, p, t)
    ensures var ps := PeriodsOfDate(p, c.local(t).day);
      InForce(ps, c.local(t).timeOfDay, ActiveIndexAt(c, p, t)) && ActiveAt(c, p, t) == ps[ActiveIndexAt(c, p, t)]
  {
    var d := c.local(t).day;
    var ps := PeriodsOfDate(p, d);
    PeriodsRead(p, d);
    OwnMidnight(c, lo, hi + 1, t);
    StraightStartsAll(c, lo, hi, DateOnly(c, t), ps);
    assert ReadsStraight(c, t);
    LastStartInForce(c.date(d, 0), StartsOf(c, DateOnly(c, t), ps), ps, t);
  }

  lemma PeriodsRead(p: Program, date: int)
    requires ValidProgram(p)
    ensures PeriodsOn(p, Weekday(date)) == PeriodsOfDate(p, date) && ValidPeriods(PeriodsOfDate(p, date))
  {
    PeriodsOnValid(p, Weekday(date));
  }

  /** Each date's midnight is the one before it and a day. */
  lemma {:induction false} WholeDaysAdd(c: Clock, lo: int, hi: int, n: nat)
    requires WholeDays(c, lo, hi) && lo + n <= hi + 1
    ensures c.date(lo + n, 0) == c.date(lo, 0) + n * 86_400_000_000_000
  {
    if n > 0 {
      WholeDaysAdd(c, lo, hi, n - 1);
      assert WholeDay(c, lo + n - 1);
    }
  }

  /**
   * What Calculate reports, read off the clock: the period in force at the time of day, and the change `offset` whole
   * days and the period's own start after today's midnight.
   */
  lemma ReportReads(c: Clock, p: Program, now: int, result: Calculation)
    requires Announces(p, c, now, result)
    requires StraightOn(c, c.local(now).day, c.local(now).day + 7)
    requires WholeDays(c, c.local(now).day, c.local(now).day + 7)
    ensures var today := c.local(now).day;
      && InForce(PeriodsOfDate(p, today), c.local(now).timeOfDay, result.activeIndex)
      && result.active == PeriodsOfDate(p, today)[result.activeIndex]
      && exists offset: nat :: offset < 8 && StartsThen(c, p, now, result, offset)
  {
    var lo := c.local(now).day;
    ActiveReads(c, lo, lo + 7, p, now);
    var f :| FirstChange(c, p, now, result.active, f) && Reports(result, f);
    FoundOnDay(c, p, now, result.active, f);
    ChangeReads(c, p, now, result, f);
  }

  lemma ChangeReads(c: Clock, p: Program, now: int, result: Calculation, f: Found)
    requires ValidProgram(p) && f.offset < 8 && Reports(result, f)
    requires StraightOn(c, c.local(now).day, c.local(now).day + 7)
    requires WholeDays(c, c.local(now).day, c.local(now).day + 7)
    requires var day := DayInstant(c, now, f.offset); var ps := DayPeriods(c, p, day);
      f.index < |ps| && Resolves(c, day, ps) && f.period == ps[f.index] && f.at == StartsOf(c, day, ps)[f.index]
    ensures StartsThen(c, p, now, result, f.offset)
  {
    var lo := c.local(now).day;
    ScannedStartReads(c, p, now, f.offset, f.index);
    WholeDaysAdd(c, lo, lo + 7, f.offset);
    assert Within(c, now, lo, lo + 7) && ReadsStraight(c, now);
  }

  /** The change reported is a period of the date `offset` days on, at its own start after that date's midnight. */
  predicate StartsThen(c: Clock, p: Program, now: int, result: Calculation, offset: nat) {
    var ps := PeriodsOfDate(p, c.local(now).day + offset);
    && result.nextIndex < |ps| && result.next == ps[result.nextIndex]
    && result.nextAt == now - c.local(now).timeOfDay + offset * 86_400_000_000_000 + Asked(result.next.start)
  }

  lemma ScannedStartReads(c: Clock, p: Program, now: int, offset: nat, index: nat)
    requires ValidProgram(p) && offset < 8
    requires StraightOn(c, c.local(now).day, c.local(now).day + 7)
    requires WholeDays(c, c.local(now).day, c.local(now).day + 7)
    requires Resolves(c, DayInstant(c, now, offset), DayPeriods(c, p, DayInstant(c, now, offset)))
    requires index < |DayPeriods(c, p, DayInstant(c, now, offset))|
    ensures DayPeriods(c, p, DayInstant(c, now, offset)) == PeriodsOfDate(p, c.local(now).day + offset)
    ensures StartsOf(c, DayInstant(c, now, offset), DayPeriods(c, p, DayInstant(c, now, offset)))[index] ==
      c.date(c.local(now).day + offset, 0) + Asked(PeriodsOfDate(p, c.local(now).day + offset)[index].start)
  {
    var lo, day := c.local(now).day, DayInstant(c, now, offset);
    ScannedDay(c, p, now, offset);
    StraightStarts(c, lo, lo + 7, day, DayPeriods(c, p, day), index);
  }

  lemma ScannedDay(c: Clock, p: Program, now: int, offset: nat)
    requires ValidProgram(p) && offset < 8 && RegularOn(c, c.local(now).day, c.local(now).day + 8)
    ensures c.local(DayInstant(c, now, offset)).day == c.local(now).day + offset
    ensures ValidPeriods(DayPeriods(c, p, DayInstant(c, now, offset)))
    ensures DayPeriods(c, p, DayInstant(c, now, offset)) == PeriodsOfDate(p, c.local(now).day + offset)
  {
    var lo, day := c.local(now).day, DayInstant(c, now, offset);
    ScanDay(c, lo, lo + 8, now, offset);
    PeriodsOnValid(p, Weekday(c.local(day).day));
  }

  /** What a found change says of its own day. */
  lemma FoundOnDay(c: Clock, p: Program, now: int, current: Period, f: Found)
    requires FirstChange(c, p, now, current, f)
    ensures var day := DayInstant(c, now, f.offset); var ps := DayPeriods(c, p, day);
      f.offset < 8 && f.index < |ps| && Resolves(c, day, ps) && f.period == ps[f.index]
        && f.at == StartsOf(c, day, ps)[f.index]
  {
  }

  /** Weekdays count from Sunday: 1 January 1970 was a Thursday, 1 January 2000 a Saturday, and each week is alike. */
  lemma WeekdayOfKnownDates(day: int)
    ensures Weekday(0) == 4 && Weekday(10_957) == 6 && Weekday(day + 7) == Weekday(day)
    ensures Weekday(day + 1) == if Weekday(day) == 6 then 0 else Weekday(day) + 1
  {
  }

  // ----- the action

  /** What the heater is to do: nothing, or heat to a target. */
  datatype Demand = Rest | HeatTo(target: Option<Millidegrees>)

  function DemandOf(p: Period): Demand { if p.mode.Heat? then HeatTo(p.target) else Rest }

  /** What a heater that met `d` does once the action is taken; setting a target does not switch it on. */
  function Obey(d: Demand, a: ActionKind): Demand {
    match a
    case Noop => d
    case EnsureOff => Rest
    case EnsureOnAndSetTarget(target) => HeatTo(target)
    case SetTarget(target) => if d.Rest? then Rest else HeatTo(target)
  }

  /** The action takes a heater from one period's demand to the next one's; a change is a difference of demands. */
  lemma ActionLeadsOver(from: Period, to: Period)
    requires ValidPeriod(from) && ValidPeriod(to)
    ensures Obey(DemandOf(from), DeriveAction(from, to)) == DemandOf(to)
    ensures SameEffectiveState(from, to) <==> DemandOf(from) == DemandOf(to)
    ensures DeriveAction(from, to) == Noop <==> DemandOf(from) == DemandOf(to) == Rest
  {
  }

  // ----- iterating

  /** Each instant is the change found from the one before. */
  ghost predicate Iterates(c: Clock, p: Program, at: seq<int>, found: seq<Found>) {
    && |at| == |found| + 1 && (forall j :: 0 <= j < |at| ==> Known(c, p, at[j]))
    && forall j :: 0 <= j < |found| ==>
         FirstChange(c, p, at[j], ActiveAt(c, p, at[j]), found[j]) && Distinct(c, p, at[j], found[j])
           && at[j + 1] == found[j].at
  }

  /**
   * Iterating visits exactly the programme's changes of effective state, in order: constant in between, different
   * across, each announced period taking force.
   */
  lemma IterationVisitsEveryChange(c: Clock, p: Program, at: seq<int>, found: seq<Found>, j: nat, t: int)
    requires ValidProgram(p) && Iterates(c, p, at, found) && j < |found| && RegularAhead(c, at[j])
    requires at[j] <= t < at[j + 1]
    ensures at[j] < at[j + 1]
    ensures ActiveAt(c, p, at[j + 1]) == found[j].period
    ensures Known(c, p, t) && SameEffectiveState(ActiveAt(c, p, at[j]), ActiveAt(c, p, t))
    ensures !SameEffectiveState(ActiveAt(c, p, at[j]), ActiveAt(c, p, at[j + 1]))
  {
    StateHoldsUntilChange(c, p, at[j], found[j], t);
    ChangeTakesEffect(c, p, at[j], ActiveAt(c, p, at[j]), found[j]);
  }

  // ----- several programmes

  datatype Best = Best(index: nat, calculation: Calculation)

  /** A programme with no transition, or one no earlier than `at`; strictly later for one listed before the best. */
  ghost predicate Yields(p: Program, c: Clock, now: int, at: int, before: bool) {
    || NothingAhead(c, p, now)
    || exists result :: Announces(p, c, now, result) && (if before then at < result.nextAt else at <= result.nextAt)
  }

  ghost predicate AllYield(programs: seq<Program>, c: Clock, now: int, best: Best, n: nat)
    requires n <= |programs|
  {
    n == 0 || (AllYield(programs, c, now, best, n - 1)
               && (programs[n - 1].enabled ==>
                 Yields(programs[n - 1], c, now, best.calculation.nextAt, n - 1 < best.index)))
  }

  ghost predicate AllSilent(programs: seq<Program>, c: Clock, now: int, n: nat)
    requires n <= |programs|
  {
    n == 0 || (AllSilent(programs, c, now, n - 1)
      && (programs[n - 1].enabled ==> NothingAhead(c, programs[n - 1], now)))
  }

  lemma {:induction false} SilentYield(programs: seq<Program>, c: Clock, now: int, best: Best, n: nat)
    requires n <= |programs| && AllSilent(programs, c, now, n)
    ensures AllYield(programs, c, now, best, n)
  {
    if n > 0 { SilentYield(programs, c, now, best, n - 1); }
  }

  lemma {:induction false} YieldToEarlier(programs: seq<Program>, c: Clock, now: int, previous: Best, best: Best,
          n: nat)
    requires n <= |programs| && AllYield(programs, c, now, previous, n)
    requires best.calculation.nextAt < previous.calculation.nextAt
    ensures AllYield(programs, c, now, best, n)
  {
    if n > 0 { YieldToEarlier(programs, c, now, previous, best, n - 1); }
  }

  lemma {:induction false} AllYieldAt(programs: seq<Program>, c: Clock, now: int, best: Best, n: nat, j: nat)
    requires j < n <= |programs| && AllYield(programs, c, now, best, n) && programs[j].enabled
    ensures Yields(programs[j], c, now, best.calculation.nextAt, j < best.index)
  {
    if j < n - 1 { AllYieldAt(programs, c, now, best, n - 1, j); }
  }

  ghost predicate Failing(p: Program, c: Clock, now: int, e: ScheduleError) {
    match e
    case InvalidProgram(_) => !ValidProgram(p)
    case Unresolved => Unresolving(c, p, now)
    case NoUpcomingTransition => false
  }

  /** Among enabled programmes the earliest transition wins, the first listed on a tie. */
  method Next(programs: seq<Program>, c: Clock, now: int) returns (r: Result<Best, ScheduleError>)
    ensures r.Ok? ==> r.value.index < |programs| && programs[r.value.index].enabled
    ensures r.Ok? ==> Announces(programs[r.value.index], c, now, r.value.calculation)
    ensures r.Ok? ==> AllYield(programs, c, now, r.value, |programs|)
    ensures r == Err(NoUpcomingTransition) ==> AllSilent(programs, c, now, |programs|)
    ensures r.Err? && r.error != NoUpcomingTransition ==>
      exists j :: 0 <= j < |programs| && programs[j].enabled && Failing(programs[j], c, now, r.error)
  {
    var best: Option<Best> := None;
    for i := 0 to |programs|
      invariant best.None? ==> AllSilent(programs, c, now, i)
      invariant best.Some? ==> best.value.index < i && programs[best.value.index].enabled
      invariant best.Some? ==> Announces(programs[best.value.index], c, now, best.value.calculation)
      invariant best.Some? ==> AllYield(programs, c, now, best.value, i)
    {
      if !programs[i].enabled { continue; }
      var result := Calculate(programs[i], c, now);
      match result {
        case Err(e) =>
          if e != NoUpcomingTransition {
            assert Failing(programs[i], c, now, e);
            return Err(e);
          }
        case Ok(found) =>
          if best.None? {
            SilentYield(programs, c, now, Best(i, found), i);
            best := Some(Best(i, found));
          } else if found.nextAt < best.value.calculation.nextAt {
            YieldToEarlier(programs, c, now, best.value, Best(i, found), i);
            best := Some(Best(i, found));
          }
      }
    }
    return if best.Some? then Ok(best.value) else Err(NoUpcomingTransition);
  }
}
