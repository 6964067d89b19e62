/** service/waterhistory/store.go: fill detection, grey discharge bookkeeping and what Observe admits. */
module WaterLevels {
  import opened Wrappers
  import opened Instants
  import opened WaterPoints
  import WaterChart

  type Tank = WaterChart.Tank
  datatype Kind = Fill | Empty
  datatype Event = Event(at: int, tank: Tank, kind: Kind, from: real, to: real, used: real)
  datatype Candidate = Candidate(kind: Kind, baseline: real, current: real, startedAt: int, movedAt: int)

  datatype State = State(
    lastSampleAt: Option<int>,
    freshBase: Option<real>, greyBase: Option<real>,
    freshLevel: Option<real>, greyLevel: Option<real>,
    freshCand: Option<Candidate>, greyCand: Option<Candidate>,
    openAt: Option<int>)

  const NEW_STATE := State(None, None, None, None, None, None, None, None)

  datatype Options = Options(threshold: real, settling: int)

  /** New replaces non-positive settings by defaults, so both are positive. */
  predicate Sane(o: Options) { o.threshold > 0.0 && o.settling > 0 }

  function Abs(v: real): real { if v < 0.0 then -v else v }

  // ----- one tank's detector

  datatype Detector = Detector(base: Option<real>, cand: Option<Candidate>)

  function ObserveTank(d: Detector, tank: Tank, kind: Kind, value: real, at: int, o: Options): (Detector, seq<Event>) {
    if d.base.None? then (Detector(Some(value), d.cand), [])
    else if d.cand.None? then
      var base :=
        if (kind.Fill? && value < d.base.value) || (kind.Empty? && value > d.base.value) then value else d.base.value;
      var moved := (kind.Fill? && value - base >= o.threshold) || (kind.Empty? && base - value >= o.threshold);
      (Detector(Some(base), if moved then Some(Candidate(kind, base, value, at, at)) else None), [])
    else
      var c := d.cand.value;
      if (kind.Fill? && value >= c.current) || (kind.Empty? && value <= c.current) then
        var c' := c.(movedAt := if value != c.current then at else c.movedAt, current := value);
        if at - c'.movedAt >= o.settling
        then (Detector(Some(value), None), [Event(at, tank, kind, c'.baseline, value, Abs(value - c'.baseline))])
        else (Detector(d.base, Some(c')), [])
      else (Detector(Some(value), None), [])
  }

  function CommitCandidate(d: Detector, tank: Tank, at: int): (Detector, seq<Event>) {
    if d.cand.None? then (d, [])
    else
      var c := d.cand.value;
      (Detector(Some(c.current), None), [Event(at, tank, c.kind, c.baseline, c.current, Abs(c.current - c.baseline))])
  }

  /** A fresh reading as the detector sees it; an offline one arrived with a stale timestamp. */
  datatype Obs = Obs(value: real, at: int, offline: bool)

  function SettledPart(d: Detector, x: Obs, o: Options): (Detector, seq<Event>) {
    ObserveTank(d, WaterChart.Fresh, Fill, x.value, x.at, o)
  }

  function CommittedPart(d: Detector, x: Obs, o: Options): (Detector, seq<Event>) {
    var d' := SettledPart(d, x, o).0;
    if x.offline then CommitCandidate(d', WaterChart.Fresh, x.at) else (d', [])
  }

  function Detect(xs: seq<Obs>, o: Options): Detector {
    if xs == [] then Detector(None, None)
    else CommittedPart(Detect(xs[..|xs| - 1], o), xs[|xs| - 1], o).0
  }

  function FillEvents(xs: seq<Obs>, o: Options): seq<Event> {
    if xs == [] then []
    else
      var init, x := xs[..|xs| - 1], xs[|xs| - 1];
      FillEvents(init, o) + SettledPart(Detect(init, o), x, o).1 + CommittedPart(Detect(init, o), x, o).1
  }

  /** All readings from some reading taken at `movedAt` on equal `v`. */
  ghost predicate SteadySince(xs: seq<Obs>, movedAt: int, v: real) {
    exists m :: 0 <= m < |xs| && xs[m].at == movedAt && forall j :: m <= j < |xs| ==> xs[j].value == v
  }

  /** Where the detector stands after readings `xs`. */
  ghost predicate Tracks(d: Detector, xs: seq<Obs>, o: Options)
  {
    if xs == [] then d == Detector(None, None)
    else
      var v := xs[|xs| - 1].value;
      if d.cand.None? then d.base.Some? && d.base.value <= v < d.base.value + o.threshold
      else
        var c := d.cand.value;
        && c.kind.Fill? && d.base == Some(c.baseline) && c.current == v && v >= c.baseline + o.threshold
        && SteadySince(xs, c.movedAt, v)
  }

  /** A committed fill rose by the threshold to the last reading. */
  predicate RealRise(e: Event, xs: seq<Obs>, o: Options) {
    && xs != [] && e.tank.Fresh? && e.kind.Fill?
    && e.at == xs[|xs| - 1].at && e.to == xs[|xs| - 1].value
    && e.to - e.from >= o.threshold && e.used == e.to - e.from
  }

  /** It was seen level for the whole settling period. */
  ghost predicate LevelForSettling(e: Event, xs: seq<Obs>, o: Options) {
    exists m :: 0 <= m < |xs| && e.at - xs[m].at >= o.settling && forall j :: m <= j < |xs| ==> xs[j].value == e.to
  }

  /** Some prefix of the readings ends in a real rise that settled or was committed by an offline reading. */
  ghost predicate Earned(e: Event, xs: seq<Obs>, o: Options) {
    exists n :: 0 < n <= |xs| && RealRise(e, xs[..n], o) && (xs[n - 1].offline || LevelForSettling(e, xs[..n], o))
  }

  lemma SteadyExtends(init: seq<Obs>, x: Obs, movedAt: int, v: real)
    requires SteadySince(init, movedAt, v) && x.value == v
    ensures SteadySince(init + [x], movedAt, v)
  {
    var m :| 0 <= m < |init| && init[m].at == movedAt && forall j :: m <= j < |init| ==> init[j].value == v;
    assert (init + [x])[m].at == movedAt;
  }

  lemma SteadyFromLast(init: seq<Obs>, x: Obs)
    ensures SteadySince(init + [x], x.at, x.value)
  {
    assert (init + [x])[|init|].at == x.at;
  }

  lemma DetectStep(d: Detector, init: seq<Obs>, x: Obs, o: Options)
    requires Sane(o) && Tracks(d, init, o)
    ensures Tracks(CommittedPart(d, x, o).0, init + [x], o)
    ensures forall e :: e in SettledPart(d, x, o).1 ==> RealRise(e, init + [x], o) && LevelForSettling(e, init + [x], o)
    ensures forall e :: e in CommittedPart(d, x, o).1 ==> x.offline && RealRise(e, init + [x], o)
  {
    var xs := init + [x];
    assert xs[|xs| - 1] == x;
    SteadyFromLast(init, x);
    if d.cand.Some? && x.value >= d.cand.value.current {
      var c := d.cand.value;
      if x.value == c.current {
        SteadyExtends(init, x, c.movedAt, x.value);
        var m :| 0 <= m < |xs| && xs[m].at == c.movedAt && forall j :: m <= j < |xs| ==> xs[j].value == x.value;
      }
    }
  }

  /** In every run the detector stands at base <= v < base + threshold or follows a rise of at least the threshold. */
  lemma {:induction false} DetectorTracks(xs: seq<Obs>, o: Options)
    requires Sane(o)
    ensures Tracks(Detect(xs, o), xs, o)
  {
    if xs != [] {
      var init, x := xs[..|xs| - 1], xs[|xs| - 1];
      DetectorTracks(init, o);
      DetectStep(Detect(init, o), init, x, o);
      assert init + [x] == xs;
    }
  }

  /** Every event of every run is a real rise at some reading, settled or committed by an offline reading. */
  lemma {:induction false} FillsAreReal(xs: seq<Obs>, o: Options, e: Event)
    requires Sane(o) && e in FillEvents(xs, o)
    ensures Earned(e, xs, o)
  {
    var init, x := xs[..|xs| - 1], xs[|xs| - 1];
    assert init + [x] == xs == xs[..|xs|];
    DetectorTracks(init, o);
    DetectStep(Detect(init, o), init, x, o);
    if e in FillEvents(init, o) {
      FillsAreReal(init, o, e);
      var n :| 0 < n <= |init| && RealRise(e, init[..n], o)
        && (init[n - 1].offline || LevelForSettling(e, init[..n], o));
      assert init[..n] == xs[..n];
    } else {
      assert RealRise(e, xs[..|xs|], o);
    }
  }

  // ----- and every real fill is recorded

  /** The least reading from `r` to `n`. */
  function Lowest(xs: seq<Obs>, r: nat, n: nat): real
    requires r <= n < |xs|
  {
    if n == r then xs[r].value
    else
      var before := Lowest(xs, r, n - 1);
      if xs[n].value < before then xs[n].value else before
  }

  /** When the readings up to `n` began to equal the reading at `n`, looking back no further than `k`. */
  function LevelSince(xs: seq<Obs>, k: nat, n: nat): int
    requires k <= n < |xs|
  {
    if n == k || xs[n - 1].value != xs[n].value then xs[n].at else LevelSince(xs, k, n - 1)
  }

  /** After reading `r` the detector stands on that reading. */
  predicate StandsOn(xs: seq<Obs>, r: nat, o: Options)
    requires r < |xs|
  {
    Detect(xs[..r + 1], o) == Detector(Some(xs[r].value), None)
  }

  /** Reading `j` is less than the threshold above the least since `r`. */
  predicate Low(xs: seq<Obs>, r: nat, j: nat, o: Options)
    requires r <= j < |xs|
  {
    xs[j].value - Lowest(xs, r, j) < o.threshold
  }

  ghost predicate Flat(xs: seq<Obs>, r: nat, n: nat, o: Options)
    requires r <= n < |xs|
  {
    forall j: nat :: r < j <= n ==> Low(xs, r, j, o)
  }

  predicate Falls(xs: seq<Obs>, j: nat)
    requires 0 < j < |xs|
  {
    xs[j].value < xs[j - 1].value
  }

  /** Reading `k` is the first after `r` to be the threshold above the least since `r`, and none up to `n` falls. */
  ghost predicate Climbs(xs: seq<Obs>, r: nat, k: nat, n: nat, o: Options)
    requires r < k <= n < |xs|
  {
    && Flat(xs, r, k - 1, o) && xs[k].value - Lowest(xs, r, k - 1) >= o.threshold
    && forall j: nat :: k < j <= n ==> !Falls(xs, j)
  }

  /** Reading `j` is offline, or has been level for the settling period. */
  predicate Settles(xs: seq<Obs>, k: nat, j: nat, o: Options)
    requires k <= j < |xs|
  {
    xs[j].offline || xs[j].at - LevelSince(xs, k, j) >= o.settling
  }

  ghost predicate Unsettled(xs: seq<Obs>, k: nat, n: nat, o: Options)
    requires k <= n < |xs|
  {
    forall j: nat :: k <= j <= n ==> !Settles(xs, k, j, o)
  }

  /** One reading's detector and events, in both halves of the code together. */
  function Given(d: Detector, x: Obs, o: Options): (Detector, seq<Event>) {
    (CommittedPart(d, x, o).0, SettledPart(d, x, o).1 + CommittedPart(d, x, o).1)
  }

  lemma GivenEvents(d: Detector, x: Obs, o: Options)
    ensures SettledPart(d, x, o).1 == [] ==> Given(d, x, o).1 == CommittedPart(d, x, o).1
    ensures CommittedPart(d, x, o).1 == [] ==> Given(d, x, o).1 == SettledPart(d, x, o).1
  {
  }

  lemma DetectAt(xs: seq<Obs>, n: nat, o: Options)
    requires n < |xs|
    ensures Detect(xs[..n + 1], o) == Given(Detect(xs[..n], o), xs[n], o).0
    ensures FillEvents(xs[..n + 1], o) == FillEvents(xs[..n], o) + Given(Detect(xs[..n], o), xs[n], o).1
    ensures Given(Detect(xs[..n], o), xs[n], o).1 == [] ==> FillEvents(xs[..n + 1], o) == FillEvents(xs[..n], o)
  {
    assert xs[..n + 1][..n] == xs[..n] && xs[..n + 1][n] == xs[n];
    var before := FillEvents(xs[..n], o);
    assert before + SettledPart(Detect(xs[..n], o), xs[n], o).1 + CommittedPart(Detect(xs[..n], o), xs[n], o).1 ==
      before + Given(Detect(xs[..n], o), xs[n], o).1;
    assert before + [] == before;
  }

  lemma StandGiven(b: real, x: Obs, o: Options)
    requires x.value - b < o.threshold && o.threshold > 0.0
    ensures Given(Detector(Some(b), None), x, o) == (Detector(Some(if x.value < b then x.value else b), None), [])
  {
    GivenEvents(Detector(Some(b), None), x, o);
  }

  lemma RiseGiven(b: real, x: Obs, o: Options)
    requires Sane(o) && x.value - b >= o.threshold
    ensures Given(Detector(Some(b), None), x, o) ==
      if x.offline then (Detector(Some(x.value), None), [FillTo(b, x)])
      else (Detector(Some(b), Some(Candidate(Fill, b, x.value, x.at, x.at))), [])
  {
    GivenEvents(Detector(Some(b), None), x, o);
  }

  lemma ClimbGiven(c: Candidate, x: Obs, o: Options)
    requires Sane(o) && c.kind.Fill? && c.baseline <= c.current <= x.value
    ensures var moved := if x.value != c.current then x.at else c.movedAt;
      Given(Detector(Some(c.baseline), Some(c)), x, o) ==
        if x.offline || x.at - moved >= o.settling then (Detector(Some(x.value), None), [FillTo(c.baseline, x)])
        else (Detector(Some(c.baseline), Some(c.(current := x.value, movedAt := moved))), [])
  {
    GivenEvents(Detector(Some(c.baseline), Some(c)), x, o);
  }

  lemma FallGiven(c: Candidate, x: Obs, o: Options)
    requires c.kind.Fill? && x.value < c.current
    ensures Given(Detector(Some(c.baseline), Some(c)), x, o) == (Detector(Some(x.value), None), [])
  {
    GivenEvents(Detector(Some(c.baseline), Some(c)), x, o);
  }

  /** The fill from `b` to reading `x`. */
  function FillTo(b: real, x: Obs): Event { Event(x.at, WaterChart.Fresh, Fill, b, x.value, x.value - b) }

  lemma FirstStands(xs: seq<Obs>, o: Options)
    requires xs != []
    ensures StandsOn(xs, 0, o) && FillEvents(xs[..1], o) == []
  {
    DetectAt(xs, 0, o);
  }

  /** Without a rise by the threshold nothing is recorded, and the base follows the least reading. */
  lemma {:induction false} FlatRecordsNothing(xs: seq<Obs>, r: nat, n: nat, o: Options)
    requires Sane(o) && r <= n < |xs| && StandsOn(xs, r, o) && Flat(xs, r, n, o)
    ensures Detect(xs[..n + 1], o) == Detector(Some(Lowest(xs, r, n)), None)
    ensures FillEvents(xs[..n + 1], o) == FillEvents(xs[..r + 1], o)
  {
    if r < n {
      FlatRecordsNothing(xs, r, n - 1, o);
      DetectAt(xs, n, o);
      assert Low(xs, r, n, o);
      StandGiven(Lowest(xs, r, n - 1), xs[n], o);
    }
  }

  /** A climb is followed from the least reading before it, and nothing is recorded until it settles. */
  lemma {:induction false} ClimbIsFollowed(xs: seq<Obs>, r: nat, k: nat, n: nat, o: Options)
    requires Sane(o) && r < k <= n < |xs| && StandsOn(xs, r, o) && Climbs(xs, r, k, n, o) && Unsettled(xs, k, n, o)
    ensures Detect(xs[..n + 1], o) == Following(xs, r, k, n)
    ensures FillEvents(xs[..n + 1], o) == FillEvents(xs[..r + 1], o)
    ensures xs[k].value <= xs[n].value
  {
    assert !Settles(xs, k, n, o);
    if n == k {
      FlatRecordsNothing(xs, r, k - 1, o);
      RiseGiven(Lowest(xs, r, k - 1), xs[k], o);
    } else {
      assert !Falls(xs, n);
      ClimbIsFollowed(xs, r, k, n - 1, o);
      ClimbGiven(Following(xs, r, k, n - 1).cand.value, xs[n], o);
    }
    assert Given(Detect(xs[..n], o), xs[n], o) == (Following(xs, r, k, n), []);
    DetectAt(xs, n, o);
  }

  /** The detector in a climb from the least reading before it. */
  function Following(xs: seq<Obs>, r: nat, k: nat, n: nat): Detector
    requires r < k <= n < |xs|
  {
    var b := Lowest(xs, r, k - 1);
    Detector(Some(b), Some(Candidate(Fill, b, xs[n].value, xs[k].at, LevelSince(xs, k, n))))
  }

  /**
   * A climb that settles at reading `n`, or meets an offline reading there, is recorded there and not before: one fill,
   * from the least reading before the climb to the level reached, on which the detector then stands.
   */
  lemma FillRecorded(xs: seq<Obs>, r: nat, k: nat, n: nat, o: Options)
    requires Sane(o) && r < k <= n < |xs| && StandsOn(xs, r, o) && Climbs(xs, r, k, n, o)
    requires k < n ==> Unsettled(xs, k, n - 1, o)
    requires Settles(xs, k, n, o)
    ensures FillEvents(xs[..n + 1], o) == FillEvents(xs[..r + 1], o) + [FillTo(Lowest(xs, r, k - 1), xs[n])]
    ensures FillEvents(xs[..n], o) == FillEvents(xs[..r + 1], o) && StandsOn(xs, n, o)
  {
    FillGiven(xs, r, k, n, o);
    DetectAt(xs, n, o);
  }

  lemma FillGiven(xs: seq<Obs>, r: nat, k: nat, n: nat, o: Options)
    requires Sane(o) && r < k <= n < |xs| && StandsOn(xs, r, o) && Climbs(xs, r, k, n, o)
    requires k < n ==> Unsettled(xs, k, n - 1, o)
    requires Settles(xs, k, n, o)
    ensures Given(Detect(xs[..n], o), xs[n], o) ==
      (Detector(Some(xs[n].value), None), [FillTo(Lowest(xs, r, k - 1), xs[n])])
    ensures FillEvents(xs[..n], o) == FillEvents(xs[..r + 1], o)
  {
    if n == k {
      FlatRecordsNothing(xs, r, k - 1, o);
      RiseGiven(Lowest(xs, r, k - 1), xs[k], o);
    } else {
      LaterFillGiven(xs, r, k, n, o);
    }
  }

  lemma LaterFillGiven(xs: seq<Obs>, r: nat, k: nat, n: nat, o: Options)
    requires Sane(o) && r < k < n < |xs| && StandsOn(xs, r, o) && Climbs(xs, r, k, n, o)
    requires Unsettled(xs, k, n - 1, o) && Settles(xs, k, n, o)
    ensures Given(Detect(xs[..n], o), xs[n], o) ==
      (Detector(Some(xs[n].value), None), [FillTo(Lowest(xs, r, k - 1), xs[n])])
    ensures FillEvents(xs[..n], o) == FillEvents(xs[..r + 1], o)
  {
    assert !Falls(xs, n);
    ClimbIsFollowed(xs, r, k, n - 1, o);
    ClimbGiven(Following(xs, r, k, n - 1).cand.value, xs[n], o);
  }

  /** A reading below the one before ends a climb unrecorded, and the detector stands on it. */
  lemma FallForgets(xs: seq<Obs>, r: nat, k: nat, n: nat, o: Options)
    requires Sane(o) && r < k < n < |xs| && StandsOn(xs, r, o) && Climbs(xs, r, k, n - 1, o)
    requires Unsettled(xs, k, n - 1, o) && Falls(xs, n)
    ensures FillEvents(xs[..n + 1], o) == FillEvents(xs[..r + 1], o) && StandsOn(xs, n, o)
  {
    ClimbIsFollowed(xs, r, k, n - 1, o);
    FallGiven(Following(xs, r, k, n - 1).cand.value, xs[n], o);
    assert Given(Detect(xs[..n], o), xs[n], o) == (Detector(Some(xs[n].value), None), []);
    DetectAt(xs, n, o);
  }

  /** Behind a base, readings that all equal a level the threshold above it: recorded at the first that is settled. */
  lemma SteadyFillRecorded(xs: seq<Obs>, r: nat, n: nat, v: real, o: Options)
    requires Sane(o) && r + 1 < n < |xs| && StandsOn(xs, r, o) && v - xs[r].value >= o.threshold
    requires forall j :: r < j <= n ==> xs[j].value == v && !xs[j].offline
    requires forall j :: r < j < n ==> xs[j].at - xs[r + 1].at < o.settling
    requires xs[n].at - xs[r + 1].at >= o.settling
    ensures FillEvents(xs[..n], o) == FillEvents(xs[..r + 1], o)
    ensures FillEvents(xs[..n + 1], o) == FillEvents(xs[..r + 1], o) + [FillTo(xs[r].value, xs[n])]
  {
    var k := r + 1;
    forall j: nat | k <= j <= n - 1 ensures !Settles(xs, k, j, o) { LevelFromStart(xs, k, j, v); }
    LevelFromStart(xs, k, n, v);
    FillRecorded(xs, r, k, n, o);
  }

  lemma {:induction false} LevelFromStart(xs: seq<Obs>, k: nat, n: nat, v: real)
    requires k <= n < |xs| && forall j :: k <= j <= n ==> xs[j].value == v
    ensures LevelSince(xs, k, n) == xs[k].at
  {
    if k < n { LevelFromStart(xs, k, n - 1, v); }
  }

  // ----- grey tank

  predicate IsGreyEmpty(e: Event) { e.tank.Grey? && e.kind.Empty? }

  function HasGreyEmptyAt(events: seq<Event>, at: int): bool {
    if events == [] then false
    else
      var last := events[|events| - 1];
      (IsGreyEmpty(last) && last.at == at) || HasGreyEmptyAt(events[..|events| - 1], at)
  }

  function BeforeLatestEmpty(events: seq<Event>, at: int): bool {
    if events == [] then false
    else
      var last := events[|events| - 1];
      if IsGreyEmpty(last) then at < last.at else BeforeLatestEmpty(events[..|events| - 1], at)
  }

  function ObserveGrey(s: State, value: real, o: Options): State {
    if s.openAt.Some? then s
    else if s.greyBase.None? || value > s.greyBase.value || s.greyBase.value - value >= o.threshold
    then s.(greyBase := Some(value))
    else s
  }

  function ClearDischarge(s: State, at: int): State {
    var s := if s.openAt.Some? && s.openAt.value <= at then s.(openAt := None) else s;
    if s.lastSampleAt.None? || s.lastSampleAt.value <= at
    then s.(greyLevel := Some(0.0), greyBase := Some(0.0), greyCand := None)
    else s.(greyBase := s.greyLevel, greyCand := None)
  }

  function RecordOpen(s: State, at: int): State {
    s.(openAt := Some(at))
  }

  function RecordEmpty(s: State, events: seq<Event>, at: int): (State, seq<Event>) {
    if HasGreyEmptyAt(events, at) then (ClearDischarge(s, at), events)
    else if s.openAt.None? then (s, events)
    else
      var from := s.greyLevel.GetOr(0.0);
      (ClearDischarge(s, at), events + [Event(at, WaterChart.Grey, Empty, from, 0.0, from)])
  }

  // ----- what Observe does with a sample

  datatype Admission = Ignored | Rejected | Admitted(point: Point, offline: bool)

  predicate InPercent(v: Option<real>) { v.Some? ==> 0.0 <= v.value <= 100.0 }

  function Admit(s: State, events: seq<Event>, given: Point, observedAt: int): Admission {
    var sample := if given.at == ZERO_TIME then given.(at := observedAt) else given;
    var sample :=
      if sample.greyPct.Some? && BeforeLatestEmpty(events, sample.at) then sample.(greyPct := None) else sample;
    if sample.freshPct.None? && sample.greyPct.None? then Ignored
    else if !InPercent(sample.freshPct) || !InPercent(sample.greyPct) then Rejected
    else if s.lastSampleAt.Some? && sample.at <= s.lastSampleAt.value then
      if sample.at == s.lastSampleAt.value then Ignored else Admitted(sample.(at := observedAt), true)
    else Admitted(sample, false)
  }

  function FreshDetector(s: State): Detector { Detector(s.freshBase, s.freshCand) }

  function WithFresh(s: State, d: Detector): State { s.(freshBase := d.base, freshCand := d.cand) }

  /** State and events after an admitted sample. */
  function Applied(s: State, events: seq<Event>, p: Point, offline: bool, observedAt: int, o: Options): (State,
          seq<Event>)
  {
    var s1 := s.(lastSampleAt := Some(p.at));
    var x := Obs(p.freshPct.GetOr(0.0), observedAt, offline);
    var d := FreshDetector(s1);
    var s2 := if p.freshPct.Some? then WithFresh(s1, CommittedPart(d, x, o).0) else s1;
    var events' := if p.freshPct.Some? then events + SettledPart(d, x, o).1 + CommittedPart(d, x, o).1 else events;
    var s3 := if p.greyPct.Some? then ObserveGrey(s2, p.greyPct.value, o) else s2;
    (s3.(freshLevel := if p.freshPct.Some? then p.freshPct else s3.freshLevel,
         greyLevel := if p.greyPct.Some? then p.greyPct else s3.greyLevel), events')
  }

  // ----- whole runs

  datatype Op = Sampled(point: Point, observedAt: int) | Opened(at: int) | Closed(at: int)

  function Do(s: State, events: seq<Event>, op: Op, o: Options): (State, seq<Event>) {
    match op
    case Opened(at) => (RecordOpen(s, at), events)
    case Closed(at) => RecordEmpty(s, events, at)
    case Sampled(p, observedAt) => Take(s, events, Admit(s, events, p, observedAt), observedAt, o)
  }

  function Take(s: State, events: seq<Event>, a: Admission, observedAt: int, o: Options): (State, seq<Event>) {
    match a
    case Admitted(q, offline) => Applied(s, events, q, offline, observedAt, o)
    case _ => (s, events)
  }

  function Run(ops: seq<Op>, o: Options): (State, seq<Event>) {
    if ops == [] then (NEW_STATE, [])
    else
      var r := Run(ops[..|ops| - 1], o);
      Do(r.0, r.1, ops[|ops| - 1], o)
  }

  function FreshReading(s: State, events: seq<Event>, op: Op): seq<Obs> {
    match op
    case Sampled(p, observedAt) =>
      var admission := Admit(s, events, p, observedAt);
      if admission.Admitted? && admission.point.freshPct.Some?
      then [Obs(admission.point.freshPct.value, observedAt, admission.offline)]
      else []
    case _ => []
  }

  /** The fresh readings a run feeds its detector. */
  function FreshReadings(ops: seq<Op>, o: Options): seq<Obs> {
    if ops == [] then []
    else
      var r := Run(ops[..|ops| - 1], o);
      FreshReadings(ops[..|ops| - 1], o) + FreshReading(r.0, r.1, ops[|ops| - 1])
  }

  function FillsOf(events: seq<Event>): seq<Event> {
    if events == [] then []
    else FillsOf(events[..|events| - 1]) + (if events[|events| - 1].tank.Fresh? then [events[|events| - 1]] else [])
  }

  lemma {:induction false} FillsOfAppend(a: seq<Event>, b: seq<Event>)
    ensures FillsOf(a + b) == FillsOf(a) + FillsOf(b)
  {
    if b == [] {
      assert a + b == a;
    } else {
      assert (a + b)[..|a + b| - 1] == a + b[..|b| - 1];
      FillsOfAppend(a, b[..|b| - 1]);
    }
  }

  lemma {:induction false} AllFresh(events: seq<Event>)
    requires forall e :: e in events ==> e.tank.Fresh?
    ensures FillsOf(events) == events
  {
    if events != [] { AllFresh(events[..|events| - 1]); }
  }

  /** The fresh side of the state is the detector on `xs`. */
  predicate FreshSide(s: State, events: seq<Event>, xs: seq<Obs>, o: Options) {
    && FreshDetector(s) == Detect(xs, o)
    && FillsOf(events) == FillEvents(xs, o)
    && s.freshLevel == if xs == [] then None else Some(xs[|xs| - 1].value)
  }

  lemma FreshSideStep(s: State, events: seq<Event>, xs: seq<Obs>, op: Op, o: Options)
    requires FreshSide(s, events, xs, o)
    ensures FreshSide(Do(s, events, op, o).0, Do(s, events, op, o).1, xs + FreshReading(s, events, op), o)
  {
    assert xs + [] == xs;
    match op {
      case Opened(_) =>
      case Closed(at) => FreshSideClosed(s, events, xs, at, o);
      case Sampled(p, observedAt) =>
        var admission := Admit(s, events, p, observedAt);
        if admission.Admitted? { FreshSideApplied(s, events, xs, admission.point, admission.offline, observedAt, o); }
    }
  }

  lemma GreyIsNoFill(events: seq<Event>, e: Event)
    requires !e.tank.Fresh?
    ensures FillsOf(events + [e]) == FillsOf(events)
  {
    assert (events + [e])[..|events + [e]| - 1] == events;
    assert FillsOf(events) + [] == FillsOf(events);
  }

  lemma EmptyKeepsFresh(s: State, events: seq<Event>, at: int)
    ensures var r := RecordEmpty(s, events, at);
      && FreshDetector(r.0) == FreshDetector(s) && r.0.freshLevel == s.freshLevel && FillsOf(r.1) == FillsOf(events)
  {
    var from := s.greyLevel.GetOr(0.0);
    GreyIsNoFill(events, Event(at, WaterChart.Grey, Empty, from, 0.0, from));
  }

  lemma FreshSideClosed(s: State, events: seq<Event>, xs: seq<Obs>, at: int, o: Options)
    requires FreshSide(s, events, xs, o)
    ensures FreshSide(RecordEmpty(s, events, at).0, RecordEmpty(s, events, at).1, xs, o)
  {
    EmptyKeepsFresh(s, events, at);
  }

  lemma FreshSideApplied(s: State, events: seq<Event>, xs: seq<Obs>, p: Point, offline: bool, observedAt: int,
          o: Options)
    requires FreshSide(s, events, xs, o)
    ensures var r := Applied(s, events, p, offline, observedAt, o);
      FreshSide(r.0, r.1, if p.freshPct.Some? then xs + [Obs(p.freshPct.value, observedAt, offline)] else xs, o)
  {
    if p.freshPct.Some? {
      FreshReadingStep(s, events, xs, Obs(p.freshPct.value, observedAt, offline), o);
    }
  }

  lemma FreshReadingStep(s: State, events: seq<Event>, xs: seq<Obs>, x: Obs, o: Options)
    requires FreshSide(s, events, xs, o)
    ensures Detect(xs + [x], o) == CommittedPart(FreshDetector(s), x, o).0
    ensures FillsOf(events + SettledPart(FreshDetector(s), x, o).1 + CommittedPart(FreshDetector(s), x, o).1) ==
      FillEvents(xs + [x], o)
  {
    assert (xs + [x])[..|xs + [x]| - 1] == xs;
    var settled, committed := SettledPart(FreshDetector(s), x, o).1, CommittedPart(FreshDetector(s), x, o).1;
    FillsOfAppend(events + settled, committed);
    FillsOfAppend(events, settled);
    AllFresh(settled);
    AllFresh(committed);
  }

  /** Whatever discharges and grey readings are interleaved, the fresh side of a run is the detector on its readings. */
  lemma {:induction false} FreshSideOfRun(ops: seq<Op>, o: Options)
    ensures FreshSide(Run(ops, o).0, Run(ops, o).1, FreshReadings(ops, o), o)
  {
    if ops != [] {
      var init := ops[..|ops| - 1];
      FreshSideOfRun(init, o);
      FreshSideStep(Run(init, o).0, Run(init, o).1, FreshReadings(init, o), ops[|ops| - 1], o);
    }
  }

  /**
   * In every reachable state: no candidate means base <= v < base + threshold, a candidate means v has risen by it from
   * base.
   */
  lemma ReachableLevels(ops: seq<Op>, o: Options)
    requires Sane(o) && Run(ops, o).0.freshLevel.Some?
    ensures var s := Run(ops, o).0; var v := s.freshLevel.value;
      && s.freshBase.Some?
      && (s.freshCand.None? ==> s.freshBase.value <= v < s.freshBase.value + o.threshold)
      && (s.freshCand.Some? ==> s.freshBase == Some(s.freshCand.value.baseline) && s.freshCand.value.current == v
                                && v >= s.freshBase.value + o.threshold)
  {
    FreshSideOfRun(ops, o);
    DetectorTracks(FreshReadings(ops, o), o);
  }

  /** Every fill a run records rose by the threshold, and settled unless an offline reading committed it. */
  lemma RecordedFillsAreReal(ops: seq<Op>, o: Options, e: Event)
    requires Sane(o) && e in FillsOf(Run(ops, o).1)
    ensures Earned(e, FreshReadings(ops, o), o)
  {
    FreshSideOfRun(ops, o);
    FillsAreReal(FreshReadings(ops, o), o, e);
  }

  /** And every climb that settles in a run's readings, or meets an offline one, is recorded when it does. */
  lemma RunRecordsFill(ops: seq<Op>, o: Options, r: nat, k: nat)
    requires Sane(o) && ops != [] && FreshReadings(ops[..|ops| - 1], o) != FreshReadings(ops, o)
    requires var xs := FreshReadings(ops, o); var n := |xs| - 1;
      && r < k <= n && StandsOn(xs, r, o) && Climbs(xs, r, k, n, o)
      && (k < n ==> Unsettled(xs, k, n - 1, o)) && Settles(xs, k, n, o)
    ensures var xs := FreshReadings(ops, o);
      FillsOf(Run(ops, o).1) ==
        FillsOf(Run(ops[..|ops| - 1], o).1) + [FillTo(Lowest(xs, r, k - 1), xs[|xs| - 1])]
  {
    var xs, before := FreshReadings(ops, o), FreshReadings(ops[..|ops| - 1], o);
    var n := |xs| - 1;
    assert before == xs[..n] && xs == xs[..n + 1];
    FillRecorded(xs, r, k, n, o);
    FreshSideOfRun(ops, o);
    FreshSideOfRun(ops[..|ops| - 1], o);
  }

  // ----- what is admitted

  /** The last grey empty of the list is later than the instant. */
  ghost predicate LaterEmpty(events: seq<Event>, at: int) {
    exists i: nat :: i < |events| && LatestEmpty(events, i) && at < events[i].at
  }

  predicate LatestEmpty(events: seq<Event>, i: nat)
    requires i < |events|
  {
    IsGreyEmpty(events[i]) && forall j :: i < j < |events| ==> !IsGreyEmpty(events[j])
  }

  lemma {:induction false} BeforeLatestEmptyIff(events: seq<Event>, at: int)
    ensures BeforeLatestEmpty(events, at) <==> LaterEmpty(events, at)
  {
    if events != [] {
      var init, n := events[..|events| - 1], |events| - 1;
      BeforeLatestEmptyIff(init, at);
      if IsGreyEmpty(events[n]) {
        assert LatestEmpty(events, n);
      } else {
        forall i: nat | i < n ensures LatestEmpty(events, i) == LatestEmpty(init, i) {
          assert forall j :: i < j < n ==> init[j] == events[j];
        }
        assert !LatestEmpty(events, n);
      }
    }
  }

  /** The level counts: a grey one only when it is not behind the last grey empty. */
  ghost predicate Counts(p: Point, events: seq<Event>, at: int, tank: Tank) {
    if tank.Fresh? then p.freshPct.Some? else p.greyPct.Some? && !LaterEmpty(events, at)
  }

  /**
   * What becomes of a sample: nothing without a level that counts or at the last sample's own instant, an error for a
   * level outside 0 to 100, and otherwise it is admitted with the levels that count, behind the last sample as offline
   * and with the clock's instant.
   */
  lemma AdmissionCases(s: State, events: seq<Event>, p: Point, observedAt: int)
    ensures var a := Admit(s, events, p, observedAt);
      var at := if p.at == -62_135_596_800_000_000_000 then observedAt else p.at;
      var hasFresh, hasGrey := Counts(p, events, at, WaterChart.Fresh), Counts(p, events, at, WaterChart.Grey);
      var bad := (hasFresh && !(0.0 <= p.freshPct.value <= 100.0)) || (hasGrey && !(0.0 <= p.greyPct.value <= 100.0));
      && (a.Rejected? <==> bad)
      && (a.Ignored? <==> (!hasFresh && !hasGrey) || (!bad && s.lastSampleAt == Some(at)))
      && (a.Admitted? ==>
           && a.offline == (s.lastSampleAt.Some? && at < s.lastSampleAt.value)
           && a.point.at == (if a.offline then observedAt else at)
           && a.point.freshPct == p.freshPct && a.point.greyPct == if hasGrey then p.greyPct else None)
  {
    BeforeLatestEmptyIff(events, if p.at == ZERO_TIME then observedAt else p.at);
  }

  /** Online fresh samples: in range, and each stamped behind all before it. */
  predicate InOrderFresh(ops: seq<Op>) {
    forall i :: 0 <= i < |ops| ==>
      && ops[i].Sampled? && ops[i].point.at != ZERO_TIME && ops[i].point.greyPct.None?
      && ops[i].point.freshPct.Some? && 0.0 <= ops[i].point.freshPct.value <= 100.0
      && (i > 0 ==> ops[i - 1].Sampled? && ops[i - 1].point.at < ops[i].point.at)
  }

  function AsReading(op: Op): Obs
    requires op.Sampled? && op.point.freshPct.Some?
  {
    Obs(op.point.freshPct.value, op.observedAt, false)
  }

  /** Such samples are the detector's readings, one for one. */
  lemma {:induction false} InOrderReadings(ops: seq<Op>, o: Options)
    requires InOrderFresh(ops)
    ensures |FreshReadings(ops, o)| == |ops|
    ensures forall i :: 0 <= i < |ops| ==> FreshReadings(ops, o)[i] == AsReading(ops[i])
    ensures ops != [] ==> Run(ops, o).0.lastSampleAt == Some(ops[|ops| - 1].point.at)
    ensures ops == [] ==> Run(ops, o).0.lastSampleAt == None
  {
    if ops != [] {
      var init, op := ops[..|ops| - 1], ops[|ops| - 1];
      InOrderReadings(init, o);
      assert init != [] ==> init[|init| - 1].point.at < op.point.at;
      assert Admit(Run(init, o).0, Run(init, o).1, op.point, op.observedAt) == Admitted(op.point, false);
    }
  }

  // ----- grey discharges

  function EmptyTimes(events: seq<Event>): seq<int> {
    if events == [] then []
    else
      EmptyTimes(events[..|events| - 1]) + (if IsGreyEmpty(events[|events| - 1]) then [events[|events| - 1].at] else [])
  }

  lemma {:induction false} EmptyTimesAppend(a: seq<Event>, b: seq<Event>)
    ensures EmptyTimes(a + b) == EmptyTimes(a) + EmptyTimes(b)
  {
    if b == [] {
      assert a + b == a;
    } else {
      assert (a + b)[..|a + b| - 1] == a + b[..|b| - 1];
      EmptyTimesAppend(a, b[..|b| - 1]);
    }
  }

  lemma {:induction false} NoFreshEmpties(events: seq<Event>)
    requires forall e :: e in events ==> e.tank.Fresh?
    ensures EmptyTimes(events) == []
  {
    if events != [] { NoFreshEmpties(events[..|events| - 1]); }
  }

  lemma {:induction false} HasGreyEmptyIff(events: seq<Event>, at: int)
    ensures HasGreyEmptyAt(events, at) <==> at in EmptyTimes(events)
  {
    if events != [] { HasGreyEmptyIff(events[..|events| - 1], at); }
  }

  /**
   * A close that counts records the whole grey level as used, down to nothing; unless a later sample came, the tank
   * then stands empty.
   */
  lemma EmptyDrains(s: State, events: seq<Event>, at: int)
    requires s.openAt.Some? && s.greyLevel.Some? && at !in EmptyTimes(events)
    ensures var (drained, recorded) := RecordEmpty(s, events, at);
      && |recorded| == |events| + 1 && recorded[..|events|] == events
      && IsGreyEmpty(recorded[|events|]) && recorded[|events|].at == at
      && Some(recorded[|events|].from) == s.greyLevel && recorded[|events|].to == 0.0
      && recorded[|events|].used == recorded[|events|].from - recorded[|events|].to
      && (drained.openAt.None? <==> s.openAt.value <= at)
      && drained.greyLevel == if s.lastSampleAt.Some? && s.lastSampleAt.value > at then s.greyLevel else Some(0.0)
  {
    HasGreyEmptyIff(events, at);
  }

  /** The grey level an operation reports. */
  function GreyReading(s: State, events: seq<Event>, op: Op): Option<real> {
    if !op.Sampled? then None
    else
      var a := Admit(s, events, op.point, op.observedAt);
      if a.Admitted? then a.point.greyPct else None
  }

  /** The level recorded is the last one reported since any close. */
  lemma {:induction false} GreyLevelHeld(ops: seq<Op>, i: nat, o: Options)
    requires i < |ops| && forall j :: i < j < |ops| ==> !ops[j].Closed?
    requires GreyReading(Run(ops[..i], o).0, Run(ops[..i], o).1, ops[i]).Some?
    requires forall j :: i < j < |ops| ==> GreyReading(Run(ops[..j], o).0, Run(ops[..j], o).1, ops[j]).None?
    ensures Run(ops, o).0.greyLevel == GreyReading(Run(ops[..i], o).0, Run(ops[..i], o).1, ops[i])
  {
    var init := ops[..|ops| - 1];
    if i < |init| {
      forall j | i < j < |init| ensures init[j] == ops[j] && init[..j] == ops[..j] {
      }
      assert init[..i] == ops[..i];
      GreyLevelHeld(init, i, o);
      assert ops[..|ops| - 1] == init;
    }
  }

  /** Outside a discharge the grey base is the last level it had risen to or left by the threshold. */
  lemma GreyBaseFollows(s: State, value: real, o: Options)
    requires Sane(o)
    ensures var base := ObserveGrey(s, value, o).greyBase;
      if s.openAt.Some? then base == s.greyBase
      else
        && base.Some? && base.value - o.threshold < value <= base.value
        && (base == Some(value) || base == s.greyBase)
        && (s.greyBase.Some? && s.greyBase.value - o.threshold < value <= s.greyBase.value ==> base == s.greyBase)
    ensures ObserveGrey(s, value, o) == s.(greyBase := ObserveGrey(s, value, o).greyBase)
  {
  }
}
