/** service/waterhistory/store.go: the incremental moving-average chart, and its fold over the whole log. */
module WaterChart {
  import opened Wrappers
  import opened Instants
  import opened WaterPoints

  const AVERAGE_WINDOW: int := 5 * MINUTE
  const HEARTBEAT: int := MINUTE

  datatype Reading = Reading(at: int, value: int)
  datatype Window = Window(entries: seq<Reading>, sum: int)
  datatype Chart = Chart(throughAt: Option<int>, buckets: map<int, nat>, samples: seq<Point>, freshWindow: Window,
    greyWindow: Window)

  /** chart-samples.json */
  datatype ChartFile = ChartFile(throughAt: Option<int>, samples: seq<Point>)

  datatype Tank = Fresh | Grey

  function Level(p: Point, tank: Tank): Option<real> {
    if tank.Fresh? then p.freshPct else p.greyPct
  }

  /** math.Round: halves away from zero. */
  function Round(v: real): int {
    if v >= 0.0 then (v + 0.5).Floor else -((-v + 0.5).Floor)
  }

  /** UnixNano() / int64(time.Hour): Go division truncates toward zero. */
  function ChartKey(at: int): int {
    if at >= 0 then at / HOUR else -((-at) / HOUR)
  }

  /** The nearest integer, the one further from zero on a tie. */
  lemma RoundsToNearest(v: real)
    ensures var n := Round(v) as real;
      && -0.5 <= v - n <= 0.5
      && (v - n == 0.5 ==> v <= 0.0) && (v - n == -0.5 ==> v >= 0.0)
  {
  }

  /** A reporting hour; the two next to the epoch are one. */
  lemma ChartKeyIsHour(at: int)
    ensures 0 <= at ==> ChartKey(at) * 3_600_000_000_000 <= at < (ChartKey(at) + 1) * 3_600_000_000_000
    ensures at < 0 ==> (ChartKey(at) - 1) * 3_600_000_000_000 < at <= ChartKey(at) * 3_600_000_000_000
  {
    var k := if at < 0 then -at else at;
    assert k == k / 3_600_000_000_000 * 3_600_000_000_000 + k % 3_600_000_000_000;
  }

  const EMPTY_WINDOW := Window([], 0)
  const EMPTY_CHART := Chart(None, map[], [], EMPTY_WINDOW, EMPTY_WINDOW)

  // ----- the incremental form

  function DropOld(w: Window, cutoff: int): Window
    decreases |w.entries|
  {
    if w.entries != [] && w.entries[0].at < cutoff
    then DropOld(Window(w.entries[1..], w.sum - w.entries[0].value), cutoff)
    else w
  }

  function AddReading(w: Window, at: int, level: Option<real>): Window {
    if level.None? then w
    else
      var rounded := Round(level.value);
      DropOld(Window(w.entries + [Reading(at, rounded)], w.sum + rounded), at - AVERAGE_WINDOW)
  }

  function WindowOf(c: Chart, tank: Tank): Window {
    if tank.Fresh? then c.freshWindow else c.greyWindow
  }

  function WithWindow(c: Chart, tank: Tank, w: Window): Chart {
    if tank.Fresh? then c.(freshWindow := w) else c.(greyWindow := w)
  }

  function WithLevel(p: Point, tank: Tank, level: real): Point {
    if tank.Fresh? then p.(freshPct := Some(level)) else p.(greyPct := Some(level))
  }

  predicate InRange(c: Chart) {
    forall b :: b in c.buckets ==> c.buckets[b] < |c.samples|
  }

  /** The appended reading itself is never dropped, so the average is never over nothing. */
  lemma {:induction false} AddReadingNonempty(w: Window, at: int, level: real)
    ensures |AddReading(w, at, Some(level)).entries| > 0
  {
    DropOldKeepsLast(Window(w.entries + [Reading(at, Round(level))], w.sum + Round(level)), at - AVERAGE_WINDOW);
  }

  lemma {:induction false} DropOldKeepsLast(w: Window, cutoff: int)
    requires w.entries != [] && cutoff <= w.entries[|w.entries| - 1].at
    ensures DropOld(w, cutoff).entries != []
    decreases |w.entries|
  {
    if w.entries[0].at < cutoff {
      DropOldKeepsLast(Window(w.entries[1..], w.sum - w.entries[0].value), cutoff);
    }
  }

  function Average(w: Window): real
    requires |w.entries| > 0
  {
    w.sum as real / |w.entries| as real
  }

  function UpdateField(c: Chart, at: int, level: Option<real>, tank: Tank): (r: Chart)
    requires InRange(c)
    ensures InRange(r)
  {
    if level.None? then c
    else
      var w := AddReading(WindowOf(c, tank), at, level);
      AddReadingNonempty(WindowOf(c, tank), at, level.value);
      var bucket := ChartKey(at);
      var started := if bucket in c.buckets then c
                    else
                      c.(buckets := c.buckets[bucket := |c.samples|], samples := c.samples + [Point(at, None, None)]);
      var index := started.buckets[bucket];
      var shown := started.samples[index];
      var later := if at > shown.at then shown.(at := at) else shown;
      WithWindow(started.(samples := started.samples[index := WithLevel(later, tank, Average(w))]), tank, w)
  }

  function Process(c: Chart, p: Point): (r: Chart)
    requires InRange(c)
    ensures InRange(r)
  {
    UpdateField(UpdateField(c.(throughAt := Some(p.at)), p.at, p.freshPct, Fresh), p.at, p.greyPct, Grey)
  }

  function ProcessAll(c: Chart, log: seq<Point>): (r: Chart)
    requires InRange(c)
    ensures InRange(r)
  {
    if log == [] then c else Process(ProcessAll(c, log[..|log| - 1]), log[|log| - 1])
  }

  /** The chart of the full log. */
  function ChartFold(log: seq<Point>): (r: Chart)
    ensures InRange(r)
  {
    ProcessAll(EMPTY_CHART, log)
  }

  lemma ProcessAllStep(c: Chart, log: seq<Point>, p: Point)
    requires InRange(c)
    ensures ProcessAll(c, log + [p]) == Process(ProcessAll(c, log), p)
  {
    assert (log + [p])[..|log + [p]| - 1] == log;
  }

  lemma {:induction false} ProcessAllAppend(c: Chart, a: seq<Point>, b: seq<Point>)
    requires InRange(c)
    ensures ProcessAll(c, a + b) == ProcessAll(ProcessAll(c, a), b)
  {
    if b == [] {
      assert a + b == a;
    } else {
      assert (a + b)[..|a + b| - 1] == a + b[..|b| - 1];
      ProcessAllAppend(c, a, b[..|b| - 1]);
    }
  }

  // ----- windows

  function WindowFold(log: seq<Point>, tank: Tank): Window {
    if log == [] then EMPTY_WINDOW
    else AddReading(WindowFold(log[..|log| - 1], tank), log[|log| - 1].at, Level(log[|log| - 1], tank))
  }

  lemma {:induction false} WindowsOfFold(log: seq<Point>)
    ensures ChartFold(log).freshWindow == WindowFold(log, Fresh)
    ensures ChartFold(log).greyWindow == WindowFold(log, Grey)
  {
    if log != [] { WindowsOfFold(log[..|log| - 1]); }
  }

  function Readings(log: seq<Point>, tank: Tank): seq<Reading> {
    if log == [] then []
    else
      var last := log[|log| - 1];
      Readings(log[..|log| - 1], tank) +
        (if Level(last, tank).Some? then [Reading(last.at, Round(Level(last, tank).value))] else [])
  }

  function NotBefore(rs: seq<Reading>, cutoff: int): seq<Reading> {
    if rs == [] then []
    else NotBefore(rs[..|rs| - 1], cutoff) + (if cutoff <= rs[|rs| - 1].at then [rs[|rs| - 1]] else [])
  }

  function Sum(rs: seq<Reading>): int {
    if rs == [] then 0 else Sum(rs[..|rs| - 1]) + rs[|rs| - 1].value
  }

  /** The readings within five minutes of the latest one. */
  function LastFiveMinutes(rs: seq<Reading>): seq<Reading> {
    if rs == [] then [] else NotBefore(rs, rs[|rs| - 1].at - 5 * MINUTE)
  }

  predicate ReadingsInOrder(rs: seq<Reading>) {
    forall i, j :: 0 <= i < j < |rs| ==> rs[i].at <= rs[j].at
  }

  lemma {:induction false} ReadingsOrdered(log: seq<Point>, tank: Tank)
    requires InOrder(log)
    ensures ReadingsInOrder(Readings(log, tank))
    ensures forall r :: r in Readings(log, tank) ==> log != [] && r.at <= log[|log| - 1].at
  {
    if log != [] {
      var init := log[..|log| - 1];
      ReadingsOrdered(init, tank);
      assert init != [] ==> init[|init| - 1].at <= log[|log| - 1].at;
      forall i | 0 <= i < |Readings(init, tank)| ensures Readings(init, tank)[i].at <= log[|log| - 1].at {
        assert Readings(init, tank)[i] in Readings(init, tank);
      }
    }
  }

  lemma {:induction false} SumFront(rs: seq<Reading>)
    requires rs != []
    ensures Sum(rs) == rs[0].value + Sum(rs[1..])
  {
    if |rs| > 1 {
      SumFront(rs[..|rs| - 1]);
      assert rs[..|rs| - 1][1..] == rs[1..][..|rs[1..]| - 1];
    }
  }

  lemma {:induction false} DropOldSum(w: Window, cutoff: int)
    requires w.sum == Sum(w.entries)
    ensures DropOld(w, cutoff).sum == Sum(DropOld(w, cutoff).entries)
    decreases |w.entries|
  {
    if w.entries != [] && w.entries[0].at < cutoff {
      SumFront(w.entries);
      DropOldSum(Window(w.entries[1..], w.sum - w.entries[0].value), cutoff);
    }
  }

  lemma {:induction false} AllNotBefore(rs: seq<Reading>, cutoff: int)
    requires forall i :: 0 <= i < |rs| ==> cutoff <= rs[i].at
    ensures NotBefore(rs, cutoff) == rs
  {
    if rs != [] { AllNotBefore(rs[..|rs| - 1], cutoff); }
  }

  lemma {:induction false} NotBeforeFront(rs: seq<Reading>, cutoff: int)
    requires rs != [] && rs[0].at < cutoff
    ensures NotBefore(rs, cutoff) == NotBefore(rs[1..], cutoff)
  {
    if |rs| > 1 {
      NotBeforeFront(rs[..|rs| - 1], cutoff);
      assert rs[..|rs| - 1][1..] == rs[1..][..|rs[1..]| - 1];
    }
  }

  /** Popping from the front of an ordered window is filtering it. */
  lemma {:induction false} DropOldFilters(w: Window, cutoff: int)
    requires ReadingsInOrder(w.entries)
    ensures DropOld(w, cutoff).entries == NotBefore(w.entries, cutoff)
    decreases |w.entries|
  {
    if w.entries != [] && w.entries[0].at < cutoff {
      var rest := Window(w.entries[1..], w.sum - w.entries[0].value);
      NotBeforeFront(w.entries, cutoff);
      DropOldFilters(rest, cutoff);
      assert DropOld(w, cutoff) == DropOld(rest, cutoff);
    } else {
      AllNotBefore(w.entries, cutoff);
    }
  }

  lemma NotBeforeStep(rs: seq<Reading>, r: Reading, cutoff: int)
    ensures NotBefore(rs + [r], cutoff) == if cutoff <= r.at then NotBefore(rs, cutoff) + [r] else NotBefore(rs, cutoff)
  {
    assert (rs + [r])[..|rs + [r]| - 1] == rs;
  }

  lemma {:induction false} NotBeforeTwice(rs: seq<Reading>, early: int, late: int)
    requires early <= late
    ensures NotBefore(NotBefore(rs, early), late) == NotBefore(rs, late)
  {
    if rs != [] {
      var init, last := rs[..|rs| - 1], rs[|rs| - 1];
      NotBeforeTwice(init, early, late);
      NotBeforeStep(NotBefore(init, early), last, late);
      NotBeforeStep(init, last, early);
      NotBeforeStep(init, last, late);
      assert init + [last] == rs;
    }
  }

  lemma {:induction false} NotBeforeMembers(rs: seq<Reading>, cutoff: int)
    requires ReadingsInOrder(rs)
    ensures ReadingsInOrder(NotBefore(rs, cutoff))
    ensures forall r :: r in NotBefore(rs, cutoff) ==> r in rs
  {
    if rs != [] {
      var init, last := rs[..|rs| - 1], rs[|rs| - 1];
      NotBeforeMembers(init, cutoff);
      forall i | 0 <= i < |NotBefore(init, cutoff)| ensures NotBefore(init, cutoff)[i].at <= last.at {
        assert NotBefore(init, cutoff)[i] in init;
      }
    }
  }

  /** The window holds exactly the readings within five minutes of the latest, and its running sum is theirs. */
  predicate Holds(w: Window, rs: seq<Reading>) {
    w.entries == LastFiveMinutes(rs) && w.sum == Sum(w.entries)
  }

  lemma {:induction false} WindowExact(log: seq<Point>, tank: Tank)
    requires InOrder(log)
    ensures Holds(WindowFold(log, tank), Readings(log, tank))
  {
    if log != [] {
      var init, last := log[..|log| - 1], log[|log| - 1];
      assert log == init + [last];
      WindowExact(init, tank);
      ReadingsOrdered(log, tank);
      ReadingsStep(init, last, tank);
      AddReadingHolds(WindowFold(init, tank), Readings(init, tank), last.at, Level(last, tank));
    }
  }

  lemma AddReadingHolds(w: Window, rs: seq<Reading>, at: int, level: Option<real>)
    requires Holds(w, rs)
    requires level.Some? ==> ReadingsInOrder(rs + [Reading(at, Round(level.value))])
    ensures Holds(AddReading(w, at, level), if level.Some? then rs + [Reading(at, Round(level.value))] else rs)
  {
    if level.Some? {
      WindowStep(w, rs, Reading(at, Round(level.value)));
    }
  }

  lemma ReadingsStep(init: seq<Point>, p: Point, tank: Tank)
    ensures WindowFold(init + [p], tank) == AddReading(WindowFold(init, tank), p.at, Level(p, tank))
    ensures Readings(init + [p], tank) ==
      if Level(p, tank).Some? then Readings(init, tank) + [Reading(p.at, Round(Level(p, tank).value))]
      else Readings(init, tank)
  {
    assert (init + [p])[..|init + [p]| - 1] == init;
  }

  lemma WindowStep(w: Window, rs: seq<Reading>, r: Reading)
    requires ReadingsInOrder(rs + [r])
    requires Holds(w, rs)
    ensures Holds(DropOld(Window(w.entries + [r], w.sum + r.value), r.at - AVERAGE_WINDOW), rs + [r])
  {
    var extended := Window(w.entries + [r], w.sum + r.value);
    SumStep(w.entries, r);
    DropOldSum(extended, r.at - AVERAGE_WINDOW);
    ExtendedInOrder(w, rs, r);
    DropOldFilters(extended, r.at - AVERAGE_WINDOW);
    FiveMinutesStep(rs, r);
  }

  lemma SumStep(rs: seq<Reading>, r: Reading)
    ensures Sum(rs + [r]) == Sum(rs) + r.value
  {
    assert (rs + [r])[..|rs + [r]| - 1] == rs;
  }

  lemma FiveMinutesStep(rs: seq<Reading>, r: Reading)
    requires ReadingsInOrder(rs + [r])
    ensures NotBefore(LastFiveMinutes(rs) + [r], r.at - AVERAGE_WINDOW) == LastFiveMinutes(rs + [r])
  {
    var cutoff := r.at - AVERAGE_WINDOW;
    NotBeforeStep(LastFiveMinutes(rs), r, cutoff);
    NotBeforeStep(rs, r, cutoff);
    if rs != [] {
      assert (rs + [r])[|rs| - 1].at <= (rs + [r])[|rs|].at;
      NotBeforeTwice(rs, rs[|rs| - 1].at - AVERAGE_WINDOW, cutoff);
    }
  }

  lemma ExtendedInOrder(w: Window, rs: seq<Reading>, r: Reading)
    requires ReadingsInOrder(rs + [r]) && w.entries == LastFiveMinutes(rs)
    ensures ReadingsInOrder(w.entries + [r])
  {
    forall i, j | 0 <= i < j < |rs| ensures rs[i].at <= rs[j].at {
      assert (rs + [r])[i].at <= (rs + [r])[j].at;
    }
    if rs != [] {
      NotBeforeMembers(rs, rs[|rs| - 1].at - AVERAGE_WINDOW);
    }
    forall i | 0 <= i < |w.entries| ensures w.entries[i].at <= r.at {
      assert w.entries[i] in rs;
      var k :| 0 <= k < |rs| && rs[k] == w.entries[i];
      assert (rs + [r])[k].at <= (rs + [r])[|rs|].at;
    }
  }

  // ----- chart points

  /** The mean of the rounded readings within five minutes of the latest. */
  function MovingAverage(log: seq<Point>, tank: Tank): real {
    var recent := LastFiveMinutes(Readings(log, tank));
    if recent == [] then 0.0 else Sum(recent) as real / |recent| as real
  }

  predicate Reports(p: Point, bucket: int) {
    ChartKey(p.at) == bucket && (p.freshPct.Some? || p.greyPct.Some?)
  }

  /** The moving average at the bucket's last reading of the tank. */
  function ShownLevel(log: seq<Point>, bucket: int, tank: Tank): Option<real> {
    if log == [] then None
    else
      var last := log[|log| - 1];
      if ChartKey(last.at) == bucket && Level(last, tank).Some? then Some(MovingAverage(log, tank))
      else ShownLevel(log[..|log| - 1], bucket, tank)
  }

  function ShownAt(log: seq<Point>, bucket: int): Option<int> {
    if log == [] then None
    else
      var last := log[|log| - 1];
      var earlier := ShownAt(log[..|log| - 1], bucket);
      if !Reports(last, bucket) then earlier
      else if earlier.Some? && earlier.value >= last.at then earlier
      else Some(last.at)
  }

  /** What the chart shows for an hour, by definition over the whole log. */
  function ShownPoint(log: seq<Point>, bucket: int): Option<Point> {
    if ShownAt(log, bucket).None? then None
    else Some(Point(ShownAt(log, bucket).value, ShownLevel(log, bucket, Fresh), ShownLevel(log, bucket, Grey)))
  }

  function Lookup(c: Chart, bucket: int): Option<Point>
    requires InRange(c)
  {
    if bucket in c.buckets then Some(c.samples[c.buckets[bucket]]) else None
  }

  /** The bucket index rebuilt from the loaded points; a later point of the same hour would win. */
  function IndexOf(samples: seq<Point>): map<int, nat> {
    if samples == [] then map[]
    else IndexOf(samples[..|samples| - 1])[ChartKey(samples[|samples| - 1].at) := |samples| - 1]
  }

  lemma {:induction false} IndexSameKeys(s: seq<Point>, t: seq<Point>)
    requires |s| == |t| && forall i :: 0 <= i < |s| ==> ChartKey(s[i].at) == ChartKey(t[i].at)
    ensures IndexOf(s) == IndexOf(t)
  {
    if s != [] { IndexSameKeys(s[..|s| - 1], t[..|t| - 1]); }
  }

  predicate Bijective(c: Chart) {
    && (forall b :: b in c.buckets ==> c.buckets[b] < |c.samples| && ChartKey(c.samples[c.buckets[b]].at) == b)
    && forall i :: 0 <= i < |c.samples| ==>
      ChartKey(c.samples[i].at) in c.buckets && c.buckets[ChartKey(c.samples[i].at)] == i
  }

  /** Buckets and positions in the point list correspond one to one, as the rebuilt index has them. */
  predicate Indexed(c: Chart) {
    Bijective(c) && c.buckets == IndexOf(c.samples)
  }

  lemma UpdateBijective(c: Chart, at: int, level: Option<real>, tank: Tank)
    requires Bijective(c)
    ensures Bijective(UpdateField(c, at, level, tank))
  {
  }

  lemma UpdateIndexed(c: Chart, at: int, level: Option<real>, tank: Tank)
    requires Indexed(c)
    ensures Indexed(UpdateField(c, at, level, tank))
  {
    UpdateBijective(c, at, level, tank);
    if level.Some? { UpdateKeepsKeys(c, at, level, tank); }
  }

  lemma UpdateKeepsKeys(c: Chart, at: int, level: Option<real>, tank: Tank)
    requires Bijective(c) && level.Some? && c.buckets == IndexOf(c.samples)
    ensures UpdateField(c, at, level, tank).buckets == IndexOf(UpdateField(c, at, level, tank).samples)
  {
    var r := UpdateField(c, at, level, tank);
    var grown := if ChartKey(at) in c.buckets then c.samples else c.samples + [Point(at, None, None)];
    IndexStep(c.samples, Point(at, None, None));
    assert |r.samples| == |grown| && r.buckets == IndexOf(grown);
    var index := r.buckets[ChartKey(at)];
    forall i | 0 <= i < |grown| ensures ChartKey(grown[i].at) == ChartKey(r.samples[i].at) {
      if i == index {
        assert ChartKey(grown[index].at) == ChartKey(at);
        assert r.samples[index].at == at || r.samples[index].at == grown[index].at;
      } else {
        assert r.samples[i] == grown[i];
      }
    }
    IndexSameKeys(grown, r.samples);
  }

  lemma IndexStep(s: seq<Point>, p: Point)
    ensures IndexOf(s + [p]) == IndexOf(s)[ChartKey(p.at) := |s|]
  {
    assert (s + [p])[..|s + [p]| - 1] == s;
  }

  /** A chart point after one tank's average is written to it; `on` says whether it is written at all. */
  function Written(shown: Option<Point>, at: int, tank: Tank, on: bool, average: real): Option<Point> {
    if !on then shown
    else if shown.None? then Some(WithLevel(Point(at, None, None), tank, average))
    else Some(WithLevel(if at > shown.value.at then shown.value.(at := at) else shown.value, tank, average))
  }

  lemma UpdateLookup(c: Chart, at: int, level: Option<real>, tank: Tank, bucket: int)
    requires Indexed(c)
    ensures level.Some? ==> |AddReading(WindowOf(c, tank), at, level).entries| > 0
    ensures Lookup(UpdateField(c, at, level, tank), bucket) ==
      Written(Lookup(c, bucket), at, tank, level.Some? && bucket == ChartKey(at),
              if level.Some? then Average(AddReading(WindowOf(c, tank), at, level)) else 0.0)
  {
    if level.Some? {
      AddReadingNonempty(WindowOf(c, tank), at, level.value);
      if bucket in c.buckets && bucket != ChartKey(at) && ChartKey(at) in c.buckets {
        assert c.buckets[bucket] != c.buckets[ChartKey(at)];
      }
    }
  }

  lemma {:induction false} FoldIndexed(log: seq<Point>)
    ensures Indexed(ChartFold(log))
  {
    if log != [] {
      var init, p := log[..|log| - 1], log[|log| - 1];
      FoldIndexed(init);
      var c := ChartFold(init).(throughAt := Some(p.at));
      UpdateIndexed(c, p.at, p.freshPct, Fresh);
      UpdateIndexed(UpdateField(c, p.at, p.freshPct, Fresh), p.at, p.greyPct, Grey);
    }
  }

  /**
   * The incremental chart is the chart by definition: one point per reporting hour, each level the moving average at
   * its last reading.
   */
  lemma {:induction false} ChartExact(log: seq<Point>, bucket: int)
    requires InOrder(log)
    ensures Lookup(ChartFold(log), bucket) == ShownPoint(log, bucket)
  {
    if log != [] {
      var init, p := log[..|log| - 1], log[|log| - 1];
      assert log == init + [p];
      ChartExact(init, bucket);
      FoldIndexed(init);
      WindowsOfFold(init);
      ChartStep(init, p, bucket);
    } else {
      EmptyChartExact(bucket);
    }
  }

  lemma EmptyChartExact(bucket: int)
    ensures Lookup(ChartFold([]), bucket) == ShownPoint([], bucket)
  {
  }

  lemma ChartStep(init: seq<Point>, p: Point, bucket: int)
    requires InOrder(init + [p])
    requires Indexed(ChartFold(init)) && Lookup(ChartFold(init), bucket) == ShownPoint(init, bucket)
    requires ChartFold(init).freshWindow == WindowFold(init, Fresh)
    requires ChartFold(init).greyWindow == WindowFold(init, Grey)
    ensures Lookup(ChartFold(init + [p]), bucket) == ShownPoint(init + [p], bucket)
  {
    var log := init + [p];
    assert log[..|log| - 1] == init;
    var c := ChartFold(init).(throughAt := Some(p.at));
    var c1 := UpdateField(c, p.at, p.freshPct, Fresh);
    UpdateIndexed(c, p.at, p.freshPct, Fresh);
    UpdateLookup(c, p.at, p.freshPct, Fresh, bucket);
    UpdateLookup(c1, p.at, p.greyPct, Grey, bucket);
    assert Lookup(c, bucket) == ShownPoint(init, bucket);
    assert WindowOf(c1, Grey) == WindowFold(init, Grey);
    if p.freshPct.Some? { AverageExact(init, p, Fresh); }
    if p.greyPct.Some? { AverageExact(init, p, Grey); }
    ShownStep(init, p, bucket);
  }

  lemma ShownStep(init: seq<Point>, p: Point, bucket: int)
    ensures var log := init + [p];
      ShownPoint(log, bucket) ==
      Written(Written(ShownPoint(init, bucket), p.at, Fresh, p.freshPct.Some?
        && bucket == ChartKey(p.at), MovingAverage(log, Fresh)),
              p.at, Grey, p.greyPct.Some? && bucket == ChartKey(p.at), MovingAverage(log, Grey))
  {
    assert (init + [p])[..|init + [p]| - 1] == init;
    ShownAtMaximal(init, bucket);
  }

  lemma AverageExact(init: seq<Point>, p: Point, tank: Tank)
    requires InOrder(init + [p]) && Level(p, tank).Some?
    ensures var w := AddReading(WindowFold(init, tank), p.at, Level(p, tank));
      |w.entries| > 0 && Average(w) == MovingAverage(init + [p], tank)
  {
    var log := init + [p];
    assert log[..|log| - 1] == init;
    AddReadingNonempty(WindowFold(init, tank), p.at, Level(p, tank).value);
    WindowExact(log, tank);
  }

  lemma {:induction false} ShownAtMaximal(log: seq<Point>, bucket: int)
    ensures ShownAt(log, bucket).None? ==> ShownLevel(log, bucket, Fresh).None? && ShownLevel(log, bucket, Grey).None?
  {
    if log != [] { ShownAtMaximal(log[..|log| - 1], bucket); }
  }

  /** Points stamped no earlier than every logged sample. */
  predicate StampedSince(c: Chart, cutoff: int) {
    forall i :: 0 <= i < |c.samples| ==> cutoff <= c.samples[i].at
  }

  lemma UpdateStamped(c: Chart, at: int, level: Option<real>, tank: Tank, cutoff: int)
    requires InRange(c) && StampedSince(c, cutoff) && cutoff <= at
    ensures StampedSince(UpdateField(c, at, level, tank), cutoff)
  {
  }

  lemma {:induction false} FoldStamped(log: seq<Point>, cutoff: int)
    requires forall i :: 0 <= i < |log| ==> cutoff <= log[i].at
    ensures StampedSince(ChartFold(log), cutoff)
  {
    if log != [] {
      var init, p := log[..|log| - 1], log[|log| - 1];
      FoldStamped(init, cutoff);
      var c := ChartFold(init).(throughAt := Some(p.at));
      UpdateStamped(c, p.at, p.freshPct, Fresh, cutoff);
      UpdateStamped(UpdateField(c, p.at, p.freshPct, Fresh), p.at, p.greyPct, Grey, cutoff);
    }
  }

  // ----- restart

  function Persisted(c: Chart): ChartFile { ChartFile(c.throughAt, c.samples) }

  /** How many of the logged samples the persisted chart already covers. */
  function ReplayFrom(log: seq<Point>, throughAt: Option<int>, from: nat): (n: nat)
    requires from <= |log|
    ensures from <= n <= |log|
    decreases |log| - from
  {
    if throughAt.Some? && from < |log| && log[from].at <= throughAt.value then ReplayFrom(log, throughAt, from + 1)
    else from
  }

  lemma {:induction false} IndexInRange(samples: seq<Point>)
    ensures forall b :: b in IndexOf(samples) ==> IndexOf(samples)[b] < |samples|
  {
    if samples != [] { IndexInRange(samples[..|samples| - 1]); }
  }

  /** loadChartCacheLocked and the replay in initializeChartCacheLocked. */
  function Restored(file: ChartFile, log: seq<Point>): Chart {
    var from := ReplayFrom(log, file.throughAt, 0);
    IndexInRange(file.samples);
    ProcessAll(Chart(file.throughAt, IndexOf(file.samples), file.samples, WindowFold(log[..from], Fresh),
      WindowFold(log[..from], Grey)),
               log[from..])
  }

  lemma {:induction false} ThroughIsLast(log: seq<Point>)
    ensures ChartFold(log).throughAt == if log == [] then None else Some(log[|log| - 1].at)
  {
  }

  function ThroughTo(log: seq<Point>, k: nat): Option<int>
    requires k <= |log|
  {
    if k == 0 then None else Some(log[k - 1].at)
  }

  /** Cut after `k` samples, nothing before is later than the last one kept and the next one is later. */
  predicate CleanCut(log: seq<Point>, k: nat)
    requires k <= |log|
  {
    k == 0 || ((forall i :: 0 <= i < k ==> log[i].at <= log[k - 1].at) && (k < |log| ==> log[k - 1].at < log[k].at))
  }

  /** The sample after the `k` charted ones, or one of these, is later than the last charted. */
  predicate Resumes(log: seq<Point>, k: nat)
    requires k <= |log|
  {
    k == 0 || k == |log| || exists i :: 0 <= i <= k && log[i].at > log[k - 1].at
  }

  lemma {:induction false} ReplayPasses(log: seq<Point>, through: int, from: nat)
    requires from <= |log|
    ensures var n := ReplayFrom(log, Some(through), from);
      (forall i :: from <= i < n ==> log[i].at <= through) && (n < |log| ==> log[n].at > through)
    decreases |log| - from
  {
    if from < |log| && log[from].at <= through { ReplayPasses(log, through, from + 1); }
  }

  /**
   * The replay starts at exactly the first sample not charted if and only if the cut is clean, and no later than it if
   * and only if a charted sample or that first one is later than the last charted.
   */
  lemma ReplaySkipsCovered(log: seq<Point>, k: nat)
    requires k <= |log|
    ensures ReplayFrom(log, ThroughTo(log, k), 0) == k <==> CleanCut(log, k)
    ensures ReplayFrom(log, ThroughTo(log, k), 0) <= k <==> Resumes(log, k)
  {
    if k > 0 { ReplayPasses(log, log[k - 1].at, 0); }
  }

  /** On a log in time order only the pair at the cut matters. */
  lemma CleanCutInOrder(log: seq<Point>, k: nat)
    requires InOrder(log) && k <= |log|
    ensures CleanCut(log, k) <==> k == 0 || k == |log| || log[k - 1].at < log[k].at
    ensures Resumes(log, k) <==> CleanCut(log, k)
  {
  }

  // ----- replaying samples the chart already covers

  function AverageAfter(w: Window, p: Point, tank: Tank): real {
    if Level(p, tank).None? then 0.0
    else
      AddReadingNonempty(w, p.at, Level(p, tank).value);
      Average(AddReading(w, p.at, Level(p, tank)))
  }

  predicate Touches(p: Point, bucket: int, tank: Tank) { Level(p, tank).Some? && bucket == ChartKey(p.at) }

  lemma ProcessLookup(c: Chart, p: Point, bucket: int)
    requires Indexed(c)
    ensures Indexed(Process(c, p))
    ensures Lookup(Process(c, p), bucket) ==
      Written(Written(Lookup(c, bucket), p.at, Fresh, Touches(p, bucket, Fresh), AverageAfter(c.freshWindow, p, Fresh)),
              p.at, Grey, Touches(p, bucket, Grey), AverageAfter(c.greyWindow, p, Grey))
  {
    var c0 := c.(throughAt := Some(p.at));
    var c1 := UpdateField(c0, p.at, p.freshPct, Fresh);
    assert Lookup(c0, bucket) == Lookup(c, bucket);
    UpdateIndexed(c0, p.at, p.freshPct, Fresh);
    UpdateLookup(c0, p.at, p.freshPct, Fresh, bucket);
    UpdateIndexed(c1, p.at, p.greyPct, Grey);
    UpdateLookup(c1, p.at, p.greyPct, Grey, bucket);
  }

  /** The level the samples from `from` up to `to` leave in a bucket: the average at the last one that touches it. */
  function LevelFrom(log: seq<Point>, from: nat, end: nat, bucket: int, tank: Tank): Option<real>
    requires from <= end <= |log|
    decreases end - from
  {
    if from == end then None
    else if Touches(log[end - 1], bucket, tank) then
      Some(AverageAfter(WindowFold(log[..end - 1], tank), log[end - 1], tank))
    else LevelFrom(log, from, end - 1, bucket, tank)
  }

  lemma {:induction false} LevelFromLater(log: seq<Point>, from: nat, end: nat, bucket: int, tank: Tank)
    requires from <= end <= |log| && LevelFrom(log, from, end, bucket, tank).Some?
    ensures LevelFrom(log, 0, end, bucket, tank) == LevelFrom(log, from, end, bucket, tank)
    decreases end
  {
    if !Touches(log[end - 1], bucket, tank) { LevelFromLater(log, from, end - 1, bucket, tank); }
  }

  predicate HasLevels(shown: Option<Point>, f: Option<real>, g: Option<real>) {
    if shown.None? then f.None? && g.None? else shown.value.freshPct == f && shown.value.greyPct == g
  }

  lemma {:induction false} FoldLevels(log: seq<Point>, m: nat, bucket: int)
    requires m <= |log|
    ensures HasLevels(Lookup(ChartFold(log[..m]), bucket),
      LevelFrom(log, 0, m, bucket, Fresh), LevelFrom(log, 0, m, bucket, Grey))
  {
    if m > 0 {
      FoldLevels(log, m - 1, bucket);
      FoldIndexed(log[..m - 1]);
      WindowsOfFold(log[..m - 1]);
      ProcessLookup(ChartFold(log[..m - 1]), log[m - 1], bucket);
      FoldPrefix(log, m);
    }
  }

  lemma FoldPrefix(log: seq<Point>, m: nat)
    requires 0 < m <= |log|
    ensures ChartFold(log[..m]) == Process(ChartFold(log[..m - 1]), log[m - 1])
  {
    assert log[..m] == log[..m - 1] + [log[m - 1]];
    ProcessAllStep(EMPTY_CHART, log[..m - 1], log[m - 1]);
  }

  /** A charted sample's bucket has a point, stamped no earlier. */
  lemma {:induction false} StampCovers(log: seq<Point>, k: nat, i: nat, tank: Tank)
    requires i < k <= |log| && Level(log[i], tank).Some?
    ensures Lookup(ChartFold(log[..k]), ChartKey(log[i].at)).Some?
    ensures Lookup(ChartFold(log[..k]), ChartKey(log[i].at)).value.at >= log[i].at
  {
    var bucket, before := ChartKey(log[i].at), ChartFold(log[..k - 1]);
    FoldPrefix(log, k);
    FoldIndexed(log[..k - 1]);
    ProcessLookup(before, log[k - 1], bucket);
    if i < k - 1 {
      StampCovers(log, k - 1, i, tank);
      WrittenGrows(Lookup(before, bucket), log[k - 1], bucket, before);
    }
  }

  lemma WrittenGrows(shown: Option<Point>, p: Point, bucket: int, c: Chart)
    requires shown.Some?
    ensures
      var first := Written(shown, p.at, Fresh, Touches(p, bucket, Fresh), AverageAfter(c.freshWindow, p, Fresh));
      var both := Written(first, p.at, Grey, Touches(p, bucket, Grey), AverageAfter(c.greyWindow, p, Grey));
      both.Some? && both.value.at >= shown.value.at
  {
  }

  /** The chart as it is loaded: its points, with windows seeded from the samples before `from`. */
  function Reseeded(c: Chart, log: seq<Point>, from: nat): (r: Chart)
    requires from <= |log|
  {
    c.(freshWindow := WindowFold(log[..from], Fresh), greyWindow := WindowFold(log[..from], Grey))
  }

  /** The point with the levels written over, where there are any. */
  function Overlay(shown: Option<Point>, f: Option<real>, g: Option<real>): Option<Point> {
    if shown.None? then None
    else
      Some(Point(shown.value.at, if f.Some? then f else shown.value.freshPct,
        if g.Some? then g else shown.value.greyPct))
  }

  /** The chart after loading and replaying the samples from `from` up to `m`. */
  function ReplayTo(log: seq<Point>, k: nat, from: nat, m: nat): (r: Chart)
    requires from <= m <= k <= |log|
    ensures InRange(r)
  {
    ProcessAll(Reseeded(ChartFold(log[..k]), log, from), log[from..m])
  }

  lemma ReplayNext(log: seq<Point>, k: nat, from: nat, m: nat)
    requires from < m <= k <= |log|
    ensures ReplayTo(log, k, from, m) == Process(ReplayTo(log, k, from, m - 1), log[m - 1])
  {
    assert log[from..m] == log[from..m - 1] + [log[m - 1]];
    ProcessAllStep(Reseeded(ChartFold(log[..k]), log, from), log[from..m - 1], log[m - 1]);
  }

  lemma ProcessWindows(c: Chart, p: Point)
    requires InRange(c)
    ensures Process(c, p).throughAt == Some(p.at)
    ensures Process(c, p).freshWindow == AddReading(c.freshWindow, p.at, p.freshPct)
    ensures Process(c, p).greyWindow == AddReading(c.greyWindow, p.at, p.greyPct)
  {
  }

  lemma WindowNext(log: seq<Point>, m: nat, tank: Tank)
    requires 0 < m <= |log|
    ensures WindowFold(log[..m], tank) ==
      AddReading(WindowFold(log[..m - 1], tank), log[m - 1].at, Level(log[m - 1], tank))
  {
    assert log[..m][..m - 1] == log[..m - 1];
  }

  lemma {:induction false} ReplayedWindows(log: seq<Point>, k: nat, from: nat, m: nat)
    requires from <= m <= k <= |log|
    ensures var r := ReplayTo(log, k, from, m);
      && r.freshWindow == WindowFold(log[..m], Fresh) && r.greyWindow == WindowFold(log[..m], Grey)
      && r.throughAt == if m == from then ThroughTo(log, k) else Some(log[m - 1].at)
  {
    ThroughIsLast(log[..k]);
    if m > from {
      ReplayedWindows(log, k, from, m - 1);
      ReplayNext(log, k, from, m);
      ProcessWindows(ReplayTo(log, k, from, m - 1), log[m - 1]);
      WindowNext(log, m, Fresh);
      WindowNext(log, m, Grey);
    }
  }

  lemma KeyCovered(log: seq<Point>, k: nat, i: nat)
    requires i < k <= |log|
    ensures Reports(log[i], ChartKey(log[i].at)) ==> ChartKey(log[i].at) in ChartFold(log[..k]).buckets
  {
    if log[i].freshPct.Some? { StampCovers(log, k, i, Fresh); }
    if log[i].greyPct.Some? { StampCovers(log, k, i, Grey); }
  }

  lemma {:induction false} ProcessAllIndexed(c: Chart, s: seq<Point>)
    requires Indexed(c)
    ensures Indexed(ProcessAll(c, s))
  {
    if s != [] {
      ProcessAllIndexed(c, s[..|s| - 1]);
      ProcessLookup(ProcessAll(c, s[..|s| - 1]), s[|s| - 1], 0);
    }
  }

  lemma ReplayIndexed(log: seq<Point>, k: nat, from: nat, m: nat)
    requires from <= m <= k <= |log|
    ensures Indexed(ReplayTo(log, k, from, m))
  {
    FoldIndexed(log[..k]);
    ProcessAllIndexed(Reseeded(ChartFold(log[..k]), log, from), log[from..m]);
  }

  /** Replaying charted samples opens no bucket. */
  lemma {:induction false} ReplayKeepsShape(log: seq<Point>, k: nat, from: nat, m: nat)
    requires from <= m <= k <= |log|
    ensures ReplayTo(log, k, from, m).buckets == ChartFold(log[..k]).buckets
    ensures |ReplayTo(log, k, from, m).samples| == |ChartFold(log[..k]).samples|
    decreases m
  {
    if m > from {
      ReplayKeepsShape(log, k, from, m - 1);
      ReplayNext(log, k, from, m);
      KeyCovered(log, k, m - 1);
      ProcessKeepsShape(ReplayTo(log, k, from, m - 1), log[m - 1]);
    }
  }

  lemma TouchedIsShown(log: seq<Point>, k: nat, i: nat, bucket: int)
    requires i < k <= |log|
    ensures Touches(log[i], bucket, Fresh) || Touches(log[i], bucket, Grey) ==>
      var shown := Lookup(ChartFold(log[..k]), bucket); shown.Some? && shown.value.at >= log[i].at
  {
    if Touches(log[i], bucket, Fresh) { StampCovers(log, k, i, Fresh); }
    if Touches(log[i], bucket, Grey) { StampCovers(log, k, i, Grey); }
  }

  /** It moves no stamp either, and writes the levels of those samples again. */
  lemma {:induction false} ReplayOverlays(log: seq<Point>, k: nat, from: nat, m: nat, bucket: int)
    requires from <= m <= k <= |log|
    ensures Lookup(ReplayTo(log, k, from, m), bucket) == Overlay(Lookup(ChartFold(log[..k]), bucket),
      LevelFrom(log, from, m, bucket, Fresh), LevelFrom(log, from, m, bucket, Grey))
    decreases m
  {
    if m > from {
      var p, r := log[m - 1], ReplayTo(log, k, from, m - 1);
      ReplayOverlays(log, k, from, m - 1, bucket);
      ReplayIndexed(log, k, from, m - 1);
      ReplayedWindows(log, k, from, m - 1);
      ProcessLookup(r, p, bucket);
      TouchedIsShown(log, k, m - 1, bucket);
      ReplayNext(log, k, from, m);
      OverlayStep(Lookup(ChartFold(log[..k]), bucket),
        LevelFrom(log, from, m - 1, bucket, Fresh), LevelFrom(log, from, m - 1, bucket, Grey), p.at,
        Touches(p, bucket, Fresh), AverageAfter(WindowFold(log[..m - 1], Fresh), p, Fresh),
        Touches(p, bucket, Grey), AverageAfter(WindowFold(log[..m - 1], Grey), p, Grey));
    }
  }

  lemma OverlayStep(shown: Option<Point>, f: Option<real>, g: Option<real>, at: int,
          onF: bool, averageF: real, onG: bool, averageG: real)
    requires onF || onG ==> shown.Some? && shown.value.at >= at
    ensures Written(Written(Overlay(shown, f, g), at, Fresh, onF, averageF), at, Grey, onG, averageG) ==
      Overlay(shown, if onF then Some(averageF) else f, if onG then Some(averageG) else g)
  {
  }

  lemma ProcessKeepsShape(c: Chart, p: Point)
    requires InRange(c) && (Reports(p, ChartKey(p.at)) ==> ChartKey(p.at) in c.buckets)
    ensures Process(c, p).buckets == c.buckets && |Process(c, p).samples| == |c.samples|
  {
  }

  lemma SameLookups(c: Chart, d: Chart)
    requires Indexed(c) && Indexed(d) && c.buckets == d.buckets && |c.samples| == |d.samples|
    requires forall bucket :: Lookup(c, bucket) == Lookup(d, bucket)
    ensures c.samples == d.samples
  {
    forall i | 0 <= i < |c.samples| ensures c.samples[i] == d.samples[i] {
      assert Lookup(c, ChartKey(c.samples[i].at)) == Lookup(d, ChartKey(c.samples[i].at));
    }
  }

  /** So a replay that starts early ends with the chart it started from, the windows wound forward. */
  lemma EarlyReplay(log: seq<Point>, k: nat, from: nat)
    requires from <= k <= |log|
    ensures ReplayTo(log, k, from, k) == ChartFold(log[..k])
  {
    var base, r := ChartFold(log[..k]), ReplayTo(log, k, from, k);
    FoldIndexed(log[..k]);
    ReplayIndexed(log, k, from, k);
    ReplayKeepsShape(log, k, from, k);
    forall bucket ensures Lookup(r, bucket) == Lookup(base, bucket) {
      ReplayOverlays(log, k, from, k, bucket);
      FoldLevels(log, k, bucket);
      if LevelFrom(log, from, k, bucket, Fresh).Some? { LevelFromLater(log, from, k, bucket, Fresh); }
      if LevelFrom(log, from, k, bucket, Grey).Some? { LevelFromLater(log, from, k, bucket, Grey); }
    }
    SameLookups(r, base);
    ReplayedWindows(log, k, from, k);
    WindowsOfFold(log[..k]);
    ThroughIsLast(log[..k]);
  }

  lemma TwoParts(log: seq<Point>, from: nat, k: nat)
    requires from <= k <= |log|
    ensures log[from..] == log[from..k] + log[k..] && log == log[..k] + log[k..]
  {
  }

  lemma LoadedFold(log: seq<Point>, k: nat, from: nat)
    requires k <= |log| && from == ReplayFrom(log, ThroughTo(log, k), 0)
    ensures Restored(Persisted(ChartFold(log[..k])), log) ==
      ProcessAll(Reseeded(ChartFold(log[..k]), log, from), log[from..])
  {
    var c := ChartFold(log[..k]);
    ThroughIsLast(log[..k]);
    FoldKeyed(log[..k]);
    IndexInRange(c.samples);
    assert Reseeded(c, log, from) == Chart(c.throughAt, IndexOf(c.samples), c.samples, WindowFold(log[..from], Fresh),
      WindowFold(log[..from], Grey));
  }

  lemma FoldKeyed(log: seq<Point>)
    ensures ChartFold(log).buckets == IndexOf(ChartFold(log).samples)
  {
    FoldIndexed(log);
  }

  /**
   * Restart restores points, index and both windows from a chart persisted after any `k` samples of any log, unless the
   * replay starts behind the first sample not charted.
   */
  lemma RestartRestores(log: seq<Point>, k: nat)
    requires k <= |log| && Resumes(log, k)
    ensures Restored(Persisted(ChartFold(log[..k])), log) == ChartFold(log)
  {
    var c := ChartFold(log[..k]);
    var from := ReplayFrom(log, ThroughTo(log, k), 0);
    ReplaySkipsCovered(log, k);
    EarlyReplay(log, k, from);
    TwoParts(log, from, k);
    ProcessAllAppend(Reseeded(c, log, from), log[from..k], log[k..]);
    ProcessAllAppend(EMPTY_CHART, log[..k], log[k..]);
    LoadedFold(log, k, from);
  }

  // ----- and a replay that starts late loses

  /** The instants of `log` with a fresh level at `k` only and grey ones everywhere else. */
  function OneFresh(log: seq<Point>, k: nat): seq<Point> {
    seq(|log|, i requires 0 <= i < |log| =>
      if i == k then Point(log[i].at, Some(50.0), None) else Point(log[i].at, None, Some(50.0)))
  }

  predicate NoneFresh(c: Chart) { forall i :: 0 <= i < |c.samples| ==> c.samples[i].freshPct.None? }

  lemma {:induction false} StaysWithoutFresh(c: Chart, s: seq<Point>)
    requires InRange(c) && NoneFresh(c) && forall i :: 0 <= i < |s| ==> s[i].freshPct.None?
    ensures NoneFresh(ProcessAll(c, s))
  {
    if s != [] { StaysWithoutFresh(c, s[..|s| - 1]); }
  }

  lemma {:induction false} StaysFresh(c: Chart, s: seq<Point>)
    requires InRange(c) && !NoneFresh(c)
    ensures !NoneFresh(ProcessAll(c, s))
  {
    if s != [] {
      StaysFresh(c, s[..|s| - 1]);
      UpdateStaysFresh(ProcessAll(c, s[..|s| - 1]), s[|s| - 1]);
    }
  }

  lemma UpdateStaysFresh(c: Chart, p: Point)
    requires InRange(c) && (!NoneFresh(c) || p.freshPct.Some?)
    ensures !NoneFresh(Process(c, p))
  {
    var c0 := c.(throughAt := Some(p.at));
    var c1 := UpdateField(c0, p.at, p.freshPct, Fresh);
    if p.freshPct.Some? {
      assert c1.samples[c1.buckets[ChartKey(p.at)]].freshPct.Some?;
    }
    assert !NoneFresh(c1);
    var i :| 0 <= i < |c1.samples| && c1.samples[i].freshPct.Some?;
    assert UpdateField(c1, p.at, p.greyPct, Grey).samples[i].freshPct.Some?;
  }

  lemma FoldHasNone(t: seq<Point>, k: nat)
    requires k <= |t| && forall i :: 0 <= i < k ==> t[i].freshPct.None?
    ensures NoneFresh(ChartFold(t[..k]))
  {
    StaysWithoutFresh(EMPTY_CHART, t[..k]);
  }

  lemma ReplayHasNone(c: Chart, t: seq<Point>, from: nat)
    requires InRange(c) && NoneFresh(c) && from <= |t| && forall i :: from <= i < |t| ==> t[i].freshPct.None?
    ensures NoneFresh(ProcessAll(Reseeded(c, t, from), t[from..]))
  {
    StaysWithoutFresh(Reseeded(c, t, from), t[from..]);
  }

  lemma LateReplayHasNone(t: seq<Point>, k: nat)
    requires k <= |t| && ReplayFrom(t, ThroughTo(t, k), 0) > k
    requires forall i :: 0 <= i < |t| && i != k ==> t[i].freshPct.None?
    ensures NoneFresh(Restored(Persisted(ChartFold(t[..k])), t))
  {
    var from := ReplayFrom(t, ThroughTo(t, k), 0);
    FoldHasNone(t, k);
    LoadedFold(t, k, from);
    ReplayHasNone(ChartFold(t[..k]), t, from);
  }

  lemma FoldHasFresh(t: seq<Point>, k: nat)
    requires k < |t| && t[k].freshPct.Some?
    ensures !NoneFresh(ChartFold(t))
  {
    UpdateStaysFresh(ChartFold(t[..k]), t[k]);
    FoldPrefix(t, k + 1);
    StaysFresh(ChartFold(t[..k + 1]), t[k + 1..]);
    assert t == t[..k + 1] + t[k + 1..];
    ProcessAllAppend(EMPTY_CHART, t[..k + 1], t[k + 1..]);
  }

  /** Started behind the first sample not charted, the replay loses that sample's level. */
  lemma LateReplayLoses(log: seq<Point>, k: nat)
    requires k <= |log| && !Resumes(log, k)
    ensures var t := OneFresh(log, k);
      SameInstants(log, t) && Restored(Persisted(ChartFold(t[..k])), t).samples != ChartFold(t).samples
  {
    var t := OneFresh(log, k);
    assert forall i :: 0 <= i <= k ==> t[i].at == log[i].at;
    ReplaySkipsCovered(t, k);
    LateReplayHasNone(t, k);
    FoldHasFresh(t, k);
  }

  ghost predicate RestoresFrom(log: seq<Point>, k: nat) {
    k <= |log| && Restored(Persisted(ChartFold(log[..k])), log) == ChartFold(log)
  }

  /** The exact condition on a log's instants for a restart to restore the chart, whatever the levels. */
  lemma RestoresExactly(log: seq<Point>, k: nat)
    requires k <= |log|
    ensures Resumes(log, k) <==> forall t :: SameInstants(log, t) ==> RestoresFrom(t, k)
  {
    if Resumes(log, k) {
      forall t | SameInstants(log, t) ensures RestoresFrom(t, k) {
        assert Resumes(t, k);
        RestartRestores(t, k);
      }
    } else {
      LateReplayLoses(log, k);
      assert !RestoresFrom(OneFresh(log, k), k);
    }
  }

  /** A sample stored at the very instant the persisted chart reaches is skipped by the replay. */
  lemma TiedSampleSkipped(at: int, a: real, b: real)
    requires Round(a) != Round(b)
    ensures var log := [Point(at, Some(a), None), Point(at, Some(b), None)];
      Restored(Persisted(ChartFold(log[..1])), log).samples != ChartFold(log).samples
  {
    var p, q := Point(at, Some(a), None), Point(at, Some(b), None);
    var log := [p, q];
    assert log[..1] == [p] && log[..2] == log;
    var one, two := ChartFold([p]), ChartFold(log);
    assert [p][..0] == [] && log[..1] == [p];
    ChartOfOne(p, a);
    assert ReplayFrom(log, Some(at), 2) == 2 && ReplayFrom(log, Some(at), 1) == 2 && ReplayFrom(log, Some(at), 0) == 2;
    assert log[2..] == [];
    assert Restored(Persisted(one), log).samples == one.samples;
    ChartOfTwo(p, q, a, b);
  }

  lemma ChartOfOne(p: Point, a: real)
    requires p.freshPct == Some(a) && p.greyPct.None?
    ensures ChartFold([p]) == Chart(Some(p.at), map[ChartKey(p.at) := 0], [Point(p.at, Some(Round(a) as real), None)],
                                    Window([Reading(p.at, Round(a))], Round(a)), EMPTY_WINDOW)
  {
    assert [p][..0] == [];
    assert ChartFold([p]) == Process(ChartFold([]), p);
  }

  lemma ChartOfTwo(p: Point, q: Point, a: real, b: real)
    requires p.freshPct == Some(a) && p.greyPct.None? && q.freshPct == Some(b) && q.greyPct.None? && p.at == q.at
    requires Round(a) != Round(b)
    ensures ChartFold([p, q]).samples != ChartFold([p]).samples
  {
    ChartOfOne(p, a);
    assert [p, q][..1] == [p];
    assert ChartFold([p, q]) == Process(ChartFold([p]), q);
    var w := AddReading(ChartFold([p]).freshWindow, q.at, Some(b));
    assert w == Window([Reading(p.at, Round(a)), Reading(q.at, Round(b))], Round(a) + Round(b));
    assert ChartFold([p, q]).samples[0].freshPct == Some((Round(a) + Round(b)) as real / 2.0);
  }

  // ----- what is stored at all

  predicate SameLevels(p: Point, q: Point) {
    p.freshPct == q.freshPct && p.greyPct == q.greyPct
  }

  predicate ShouldStore(last: Point, p: Point) {
    !SameLevels(last, p) || p.at - last.at >= HEARTBEAT
  }

  /** compactSamples on load. */
  function CompactSamples(log: seq<Point>): seq<Point> {
    if log == [] then []
    else
      var kept := CompactSamples(log[..|log| - 1]);
      if kept == [] || ShouldStore(kept[|kept| - 1], log[|log| - 1]) then kept + [log[|log| - 1]] else kept
  }

  /** Every sample differs from its predecessor or is a heartbeat after it: what Observe stores. */
  predicate Spaced(log: seq<Point>) {
    |log| <= 1 || (Spaced(log[..|log| - 1]) && ShouldStore(log[|log| - 2], log[|log| - 1]))
  }

  lemma SpacedStep(log: seq<Point>, p: Point)
    ensures Spaced(log + [p]) <==> Spaced(log) && (log != [] ==> ShouldStore(log[|log| - 1], p))
  {
    assert (log + [p])[..|log + [p]| - 1] == log;
  }

  /** Loading drops nothing exactly from the logs Observe writes. */
  lemma {:induction false} CompactUnchanged(log: seq<Point>)
    ensures CompactSamples(log) == log <==> Spaced(log)
    ensures |CompactSamples(log)| <= |log| && (log != [] ==> CompactSamples(log) != [])
  {
    if log != [] {
      var init, last := log[..|log| - 1], log[|log| - 1];
      assert log == init + [last];
      CompactUnchanged(init);
      SpacedStep(init, last);
      if CompactSamples(log) == log {
        assert |CompactSamples(init)| == |init|;
        assert CompactSamples(init) == log[..|init|];
      }
    }
  }

  lemma CompactKeepsSmall(log: seq<Point>)
    ensures |log| <= 1 ==> CompactSamples(log) == log
    ensures Spaced(log) ==> CompactSamples(log) == log
    ensures log != [] <==> CompactSamples(log) != []
  {
    CompactUnchanged(log);
  }
}
