/** service/domains/heating/types.go: periods, programmes and their validation. */
module HeatingTypes {
  import opened Wrappers

  const MINUTES_PER_HOUR := 60

  datatype LocalTime = LocalTime(hour: int, minute: int) {
    predicate Valid() { 0 <= hour <= 23 && 0 <= minute <= 59 }
    predicate IsMidnight() { hour * MINUTES_PER_HOUR + minute == 0 }
    predicate Before(other: LocalTime) {
      hour * MINUTES_PER_HOUR + minute < other.hour * MINUTES_PER_HOUR + other.minute
    }
  }

  datatype Mode = Off | Heat | Unsupported(name: string)

  /** Targets are in thousandths of a degree, so that off-grid requests can be expressed. */
  type Millidegrees = int

  datatype Period = Period(start: LocalTime, mode: Mode, target: Option<Millidegrees>)

  datatype Program = Program(id: string, enabled: bool, days: seq<int>, periods: seq<Period>)

  /** On the half-degree grid, from 5.0 up to but not including 25.0. */
  predicate ValidTarget(t: Millidegrees) {
    5_000 <= t < 25_000 && t % 500 == 0
  }

  predicate ValidPeriod(p: Period) {
    && p.start.Valid()
    && match p.mode
       case Off => p.target.None?
       case Heat => p.target.Some? && ValidTarget(p.target.value)
       case Unsupported(_) => false
  }

  datatype ProgramError =
      | NoId | NoDays | NoPeriods | NotFromMidnight | BadPeriod(index: nat) | DuplicateDay(day: int)
      | OutOfOrder(index: nat)

  predicate DistinctDays(days: seq<int>) {
    forall i, j :: 0 <= i < j < |days| ==> days[i] != days[j]
  }

  /** The first `n` periods are valid and each starts after its neighbour. */
  predicate InOrder(ps: seq<Period>, n: nat)
    requires n <= |ps|
  {
    n == 0 || (InOrder(ps, n - 1) && ValidPeriod(ps[n - 1]) && (n > 1 ==> ps[n - 2].start.Before(ps[n - 1].start)))
  }

  predicate ValidPeriods(ps: seq<Period>) {
    ps != [] && ps[0].start.IsMidnight() && InOrder(ps, |ps|)
  }

  /** Comparing neighbours orders every pair. */
  lemma {:induction false} InOrderPairs(ps: seq<Period>, n: nat, i: nat, j: nat)
    requires i <= j < n <= |ps| && InOrder(ps, n)
    ensures ValidPeriod(ps[j]) && (i < j ==> ps[i].start.Before(ps[j].start))
  {
    if j < n - 1 { InOrderPairs(ps, n - 1, i, j); }
    else if i < j { InOrderPairs(ps, n - 1, i, j - 1); }
  }

  lemma {:induction false} InOrderFails(ps: seq<Period>, i: nat, n: nat)
    requires i < n <= |ps| && (InOrder(ps, i) ==> !InOrder(ps, i + 1))
    ensures !InOrder(ps, n)
  {
    if i < n - 1 { InOrderFails(ps, i, n - 1); }
  }

  predicate ValidProgram(p: Program) {
    p.id != "" && p.days != [] && DistinctDays(p.days) && ValidPeriods(p.periods)
  }

  /** Off without a target, or heat with one of 5.0, 5.5, ... 24.5 degrees, from a time of day. */
  predicate Sound(p: Period) {
    && 0 <= p.start.hour < 24 && 0 <= p.start.minute < 60
    && ((p.mode.Off? && p.target.None?)
        || (p.mode.Heat? && p.target.Some? && exists half :: 10 <= half <= 49 && p.target.value == half * 500))
  }

  lemma SoundPeriod(p: Period)
    ensures ValidPeriod(p) <==> Sound(p)
  {
    if p.target.Some? && 5_000 <= p.target.value < 25_000 && p.target.value % 500 == 0 {
      assert p.target.value == (p.target.value / 500) * 500;
    }
  }

  lemma {:induction false} InOrderFromPairs(ps: seq<Period>, n: nat)
    requires n <= |ps| && forall i :: 0 <= i < n ==> Sound(ps[i])
    requires forall i, j :: 0 <= i < j < n ==> ps[i].start.Before(ps[j].start)
    ensures InOrder(ps, n)
  {
    if n > 0 {
      InOrderFromPairs(ps, n - 1);
      SoundPeriod(ps[n - 1]);
    }
  }

  /** Validate's condition, pair by pair and in numbers. */
  lemma AcceptsExactly(p: Program)
    ensures ValidProgram(p) <==>
      && p.id != "" && p.days != [] && (forall i, j :: 0 <= i < j < |p.days| ==> p.days[i] != p.days[j])
      && p.periods != [] && (forall i :: 0 <= i < |p.periods| ==> Sound(p.periods[i]))
      && p.periods[0].start == LocalTime(0, 0)
      && forall i, j :: 0 <= i < j < |p.periods| ==>
           p.periods[i].start.hour * 60 + p.periods[i].start.minute <
           p.periods[j].start.hour * 60 + p.periods[j].start.minute
  {
    var ps := p.periods;
    if ValidPeriods(ps) {
      forall j | 0 <= j < |ps| ensures Sound(ps[j]) {
        InOrderPairs(ps, |ps|, j, j);
        SoundPeriod(ps[j]);
      }
      forall i, j | 0 <= i < j < |ps| ensures ps[i].start.Before(ps[j].start) { InOrderPairs(ps, |ps|, i, j); }
    }
    if (forall i :: 0 <= i < |ps| ==> Sound(ps[i]))
      && forall i, j :: 0 <= i < j < |ps| ==> ps[i].start.Before(ps[j].start) {
      InOrderFromPairs(ps, |ps|);
    }
  }

  /** What each refusal says about the programme. */
  predicate Explains(e: ProgramError, p: Program) {
    match e
    case NoId => p.id == ""
    case NoDays => p.days == []
    case NoPeriods => p.periods == []
    case NotFromMidnight => p.periods != [] && !p.periods[0].start.IsMidnight()
    case BadPeriod(i) => i < |p.periods| && !ValidPeriod(p.periods[i])
    case DuplicateDay(d) => !DistinctDays(p.days) && d in p.days
    case OutOfOrder(i) => 0 < i < |p.periods| && !p.periods[i - 1].start.Before(p.periods[i].start)
  }

  /** HeatingProgram.Validate accepts exactly the well-formed programmes, though it only compares neighbours. */
  method Validate(p: Program) returns (error: Option<ProgramError>)
    ensures error.None? <==> ValidProgram(p)
    ensures error.Some? ==> Explains(error.value, p)
  {
    if p.id == "" { return Some(NoId); }
    if |p.days| == 0 { return Some(NoDays); }
    if |p.periods| == 0 { return Some(NoPeriods); }
    if !p.periods[0].start.IsMidnight() { return Some(NotFromMidnight); }
    if !ValidPeriod(p.periods[0]) {
      InOrderFails(p.periods, 0, |p.periods|);
      return Some(BadPeriod(0));
    }
    var repeated := FirstRepeat(p.days);
    if repeated.Some? { return Some(DuplicateDay(repeated.value)); }
    var prev := p.periods[0];
    for i := 1 to |p.periods|
      invariant prev == p.periods[i - 1]
      invariant InOrder(p.periods, i)
    {
      var curr := p.periods[i];
      if !ValidPeriod(curr) {
        InOrderFails(p.periods, i, |p.periods|);
        return Some(BadPeriod(i));
      }
      if !prev.start.Before(curr.start) {
        InOrderFails(p.periods, i, |p.periods|);
        return Some(OutOfOrder(i));
      }
      prev := curr;
    }
    return None;
  }

  method FirstRepeat(days: seq<int>) returns (repeated: Option<int>)
    ensures repeated.None? <==> DistinctDays(days)
    ensures repeated.Some? ==> repeated.value in days
  {
    var seen: set<int> := {};
    for i := 0 to |days|
      invariant forall d :: d in seen <==> d in days[..i]
      invariant DistinctDays(days[..i])
    {
      if days[i] in seen {
        var j :| 0 <= j < i && days[..i][j] == days[i];
        assert days[j] == days[i];
        return Some(days[i]);
      }
      seen := seen + {days[i]};
    }
    assert days[..|days|] == days;
    return None;
  }

  predicate AppliesOn(p: Program, weekday: int) { weekday in p.days }

  predicate SameEffectiveState(a: Period, b: Period) {
    a.mode == b.mode && (a.mode.Off? || (a.target.Some? && b.target.Some? && a.target.value == b.target.value))
  }
}
