/** service/tracking/migrate.go: legacy tracks regrouped into one track per UTC day. */
module Migration {
  import opened Wrappers
  import GeoJson
  import TM = TrackManager
  import Time = Instants
  import Sorting

  datatype Sample = Sample(at: int, point: GeoJson.Position)

  datatype Legacy = Legacy(name: string, times: seq<int>, points: seq<GeoJson.Position>, events: seq<GeoJson.Event>)

  /** A day's combined track under construction. */
  datatype Group = Group(times: seq<int>, points: seq<GeoJson.Position>, events: seq<GeoJson.Event>)

  predicate Paired(times: seq<int>, points: seq<GeoJson.Position>) { |times| == |points| }

  function Samples(times: seq<int>, points: seq<GeoJson.Position>): seq<Sample>
    requires Paired(times, points)
  {
    seq(|times|, i requires 0 <= i < |times| => Sample(times[i], points[i]))
  }

  predicate AllPaired(sources: seq<Legacy>) {
    forall i :: 0 <= i < |sources| ==> Paired(sources[i].times, sources[i].points)
  }

  // ----- what should end up in a day

  /** Every sample of every source, in order. */
  function AllSamples(sources: seq<Legacy>): seq<Sample>
    requires AllPaired(sources)
  {
    if sources == [] then []
    else AllSamples(sources[..|sources| - 1]) + Samples(sources[|sources| - 1].times, sources[|sources| - 1].points)
  }

  function AllEvents(sources: seq<Legacy>): seq<GeoJson.Event> {
    if sources == [] then [] else AllEvents(sources[..|sources| - 1]) + sources[|sources| - 1].events
  }

  function SampleDay(s: Sample): int { TM.Day(s.at) }

  function EventDay(e: GeoJson.Event): int { TM.Day(e.at) }

  function SamplesOf(day: int, ss: seq<Sample>): seq<Sample> { Sorting.OfKey(SampleDay, day, ss) }

  function EventsOf(day: int, es: seq<GeoJson.Event>): seq<GeoJson.Event> { Sorting.OfKey(EventDay, day, es) }

  type Groups = map<int, Group>

  function Times(ss: seq<Sample>): seq<int> { seq(|ss|, i requires 0 <= i < |ss| => ss[i].at) }

  function Points(ss: seq<Sample>): seq<GeoJson.Position> { seq(|ss|, i requires 0 <= i < |ss| => ss[i].point) }

  function DayGroup(day: int, ss: seq<Sample>, es: seq<GeoJson.Event>): Group {
    Group(Times(SamplesOf(day, ss)), Points(SamplesOf(day, ss)), EventsOf(day, es))
  }

  /** Group `day` holds exactly the day's samples and events, and exists exactly when there are any. */
  predicate GroupHolds(groups: Groups, day: int, ss: seq<Sample>, es: seq<GeoJson.Event>) {
    && (day in groups <==> SamplesOf(day, ss) != [] || EventsOf(day, es) != [])
    && (day in groups ==> groups[day] == DayGroup(day, ss, es))
  }

  ghost predicate Grouped(groups: Groups, ss: seq<Sample>, es: seq<GeoJson.Event>) {
    forall day: int :: GroupHolds(groups, day, ss, es)
  }

  function GroupOf(groups: Groups, day: int): Group {
    if day in groups then groups[day] else Group([], [], [])
  }

  lemma AddSample(groups: Groups, ss: seq<Sample>, es: seq<GeoJson.Event>, s: Sample)
    requires Grouped(groups, ss, es)
    ensures var g := GroupOf(groups, TM.Day(s.at));
      Grouped(groups[TM.Day(s.at) := g.(times := g.times + [s.at], points := g.points + [s.point])], ss + [s], es)
  {
    var own := TM.Day(s.at);
    var g := GroupOf(groups, own);
    var next := groups[own := g.(times := g.times + [s.at], points := g.points + [s.point])];
    assert (ss + [s])[..|ss|] == ss;
    assert GroupHolds(groups, own, ss, es);
    forall day: int ensures GroupHolds(next, day, ss + [s], es) {
      assert GroupHolds(groups, day, ss, es);
      if day == own {
        assert next[day].times == Times(SamplesOf(day, ss + [s]))
          && next[day].points == Points(SamplesOf(day, ss + [s]));
      }
    }
  }

  lemma AddEvent(groups: Groups, ss: seq<Sample>, es: seq<GeoJson.Event>, e: GeoJson.Event)
    requires Grouped(groups, ss, es)
    ensures var g := GroupOf(groups, TM.Day(e.at));
      Grouped(groups[TM.Day(e.at) := g.(events := g.events + [e])], ss, es + [e])
  {
    var own := TM.Day(e.at);
    var g := GroupOf(groups, own);
    var next := groups[own := g.(events := g.events + [e])];
    assert (es + [e])[..|es|] == es;
    assert GroupHolds(groups, own, ss, es);
    forall day: int ensures GroupHolds(next, day, ss, es + [e]) {
      assert GroupHolds(groups, day, ss, es);
    }
  }

  method GroupByDay(sources: seq<Legacy>) returns (groups: Groups)
    requires AllPaired(sources)
    ensures Grouped(groups, AllSamples(sources), AllEvents(sources))
  {
    groups := map[];
    for k := 0 to |sources|
      invariant Grouped(groups, AllSamples(sources[..k]), AllEvents(sources[..k]))
    {
      var source := sources[k];
      assert sources[..k + 1][..k] == sources[..k];
      ghost var ss, es := AllSamples(sources[..k]), AllEvents(sources[..k]);
      assert ss + Samples(source.times[..0], source.points[..0]) == ss;
      for i := 0 to |source.times|
        invariant Grouped(groups, ss + Samples(source.times[..i], source.points[..i]), es)
      {
        var at := source.times[i];
        var g := GroupOf(groups, TM.Day(at));
        ghost var done := ss + Samples(source.times[..i], source.points[..i]);
        AddSample(groups, done, es, Sample(at, source.points[i]));
        groups := groups[TM.Day(at) := g.(times := g.times + [at], points := g.points + [source.points[i]])];
        assert ss + Samples(source.times[..i + 1], source.points[..i + 1]) == done + [Sample(at, source.points[i])];
      }
      assert source.times[..|source.times|] == source.times && source.points[..|source.points|] == source.points;
      ghost var all := ss + Samples(source.times, source.points);
      assert es + source.events[..0] == es;
      for i := 0 to |source.events|
        invariant Grouped(groups, all, es + source.events[..i])
      {
        var e := source.events[i];
        var g := GroupOf(groups, TM.Day(e.at));
        AddEvent(groups, all, es + source.events[..i], e);
        groups := groups[TM.Day(e.at) := g.(events := g.events + [e])];
        assert es + source.events[..i + 1] == es + source.events[..i] + [e];
      }
      assert source.events[..|source.events|] == source.events;
    }
    assert sources[..|sources|] == sources;
  }

  // ----- conservation

  /** An element is in its own key's share as often as in the whole, and in no other. */
  lemma {:induction false} ShareCounts<T>(key: T -> int, k: int, xs: seq<T>, x: T)
    ensures multiset(Sorting.OfKey(key, k, xs))[x] == if key(x) == k then multiset(xs)[x] else 0
  {
    if xs != [] {
      ShareCounts(key, k, xs[..|xs| - 1], x);
      assert xs == xs[..|xs| - 1] + [xs[|xs| - 1]];
    }
  }

  function Flatten<T>(key: T -> int, days: seq<int>, xs: seq<T>): seq<T> {
    if days == [] then [] else Flatten(key, days[..|days| - 1], xs) + Sorting.OfKey(key, days[|days| - 1], xs)
  }

  lemma {:induction false} FlattenCounts<T>(key: T -> int, days: seq<int>, xs: seq<T>, x: T)
    requires forall i, j :: 0 <= i < j < |days| ==> days[i] != days[j]
    ensures multiset(Flatten(key, days, xs))[x] == if key(x) in days then multiset(xs)[x] else 0
  {
    if days != [] {
      var init, last := days[..|days| - 1], days[|days| - 1];
      FlattenCounts(key, init, xs, x);
      ShareCounts(key, last, xs, x);
      assert days == init + [last];
      assert last !in init;
    }
  }

  predicate Increasing(days: seq<int>) { forall i, j :: 0 <= i < j < |days| ==> days[i] < days[j] }

  /** The days with any sample or event, in order. */
  ghost predicate Lists(days: seq<int>, ss: seq<Sample>, es: seq<GeoJson.Event>) {
    Increasing(days) && forall day: int :: day in days <==> SamplesOf(day, ss) != [] || EventsOf(day, es) != []
  }

  /** Across the day groups every sample and every event of every source appears exactly once. */
  lemma GroupsConserve(days: seq<int>, ss: seq<Sample>, es: seq<GeoJson.Event>)
    requires Lists(days, ss, es)
    ensures multiset(Flatten(SampleDay, days, ss)) == multiset(ss)
    ensures multiset(Flatten(EventDay, days, es)) == multiset(es)
  {
    forall s: Sample ensures multiset(Flatten(SampleDay, days, ss))[s] == multiset(ss)[s] {
      FlattenCounts(SampleDay, days, ss, s);
      ShareCounts(SampleDay, SampleDay(s), ss, s);
      if SampleDay(s) !in days { assert SamplesOf(SampleDay(s), ss) == []; }
    }
    forall e: GeoJson.Event ensures multiset(Flatten(EventDay, days, es))[e] == multiset(es)[e] {
      FlattenCounts(EventDay, days, es, e);
      ShareCounts(EventDay, EventDay(e), es, e);
      if EventDay(e) !in days { assert EventsOf(EventDay(e), es) == []; }
    }
  }

  // ----- a day's track

  function SampleAt(s: Sample): int { s.at }

  function EventAt(e: GeoJson.Event): int { e.at }

  function SortedTrack(g: Group): GeoJson.Track
    requires Paired(g.times, g.points)
  {
    var sorted := Sorting.SortBy(SampleAt, Samples(g.times, g.points));
    GeoJson.Track("", Times(sorted), Points(sorted), Sorting.SortBy(EventAt, g.events))
  }

  /** A sorted group is in time order and holds exactly the group's samples and events. */
  lemma SortedTrackOrdered(g: Group)
    requires Paired(g.times, g.points)
    ensures var t := SortedTrack(g);
      && Paired(t.times, t.points)
      && (forall i, j :: 0 <= i < j < |t.times| ==> t.times[i] <= t.times[j])
      && (forall i, j :: 0 <= i < j < |t.events| ==> t.events[i].at <= t.events[j].at)
      && multiset(Samples(t.times, t.points)) == multiset(Samples(g.times, g.points))
      && multiset(t.events) == multiset(g.events)
  {
    var samples := Samples(g.times, g.points);
    var sorted := Sorting.SortBy(SampleAt, samples);
    var events := Sorting.SortBy(EventAt, g.events);
    Sorting.SortBySorted(SampleAt, samples);
    Sorting.SortBySorted(EventAt, g.events);
    Sorting.SortByPermutes(SampleAt, samples);
    Sorting.SortByPermutes(EventAt, g.events);
    assert Samples(Times(sorted), Points(sorted)) == sorted;
    forall i, j | 0 <= i < j < |sorted| ensures Times(sorted)[i] <= Times(sorted)[j] {
      assert SampleAt(sorted[i]) <= SampleAt(sorted[j]);
    }
    forall i, j | 0 <= i < j < |events| ensures events[i].at <= events[j].at {
      assert EventAt(events[i]) <= EventAt(events[j]);
    }
  }

  /** Samples of one instant, and events of one instant, keep the order of their sources. */
  lemma SortedTrackStable(g: Group, at: int)
    requires Paired(g.times, g.points)
    ensures Sorting.OfKey(SampleAt, at, Samples(SortedTrack(g).times, SortedTrack(g).points)) ==
      Sorting.OfKey(SampleAt, at, Samples(g.times, g.points))
    ensures Sorting.OfKey(EventAt, at, SortedTrack(g).events) == Sorting.OfKey(EventAt, at, g.events)
  {
    var sorted := Sorting.SortBy(SampleAt, Samples(g.times, g.points));
    assert Samples(Times(sorted), Points(sorted)) == sorted;
    Sorting.SortByStable(SampleAt, Samples(g.times, g.points), at);
    Sorting.SortByStable(EventAt, g.events, at);
  }

  /** sortTrack: samples and events each sorted stably by time. */
  method SortTrack(g: Group) returns (t: GeoJson.Track)
    requires Paired(g.times, g.points)
    ensures t == SortedTrack(g)
  {
    var samples: seq<Sample> := [];
    for i := 0 to |g.times|
      invariant samples == Samples(g.times[..i], g.points[..i])
    {
      samples := samples + [Sample(g.times[i], g.points[i])];
    }
    assert g.times[..|g.times|] == g.times && g.points[..|g.points|] == g.points;
    samples := Sorting.SortBy(SampleAt, samples);
    var times: seq<int>, points: seq<GeoJson.Position> := [], [];
    for i := 0 to |samples|
      invariant times == Times(samples[..i]) && points == Points(samples[..i])
    {
      times, points := times + [samples[i].at], points + [samples[i].point];
    }
    assert samples[..|samples|] == samples;
    return GeoJson.Track("", times, points, Sorting.SortBy(EventAt, g.events));
  }

  /** The earliest instant seen so far, treating the zero time as none. */
  function Earliest(instants: seq<int>): int {
    if instants == [] then Time.ZERO_TIME
    else
      var s := Earliest(instants[..|instants| - 1]);
      if s == Time.ZERO_TIME || instants[|instants| - 1] < s then instants[|instants| - 1] else s
  }

  function Latest(instants: seq<int>): int {
    if instants == [] then Time.ZERO_TIME
    else
      var e := Latest(instants[..|instants| - 1]);
      if e == Time.ZERO_TIME || instants[|instants| - 1] > e then instants[|instants| - 1] else e
  }

  function EventTimes(es: seq<GeoJson.Event>): seq<int> { seq(|es|, i requires 0 <= i < |es| => es[i].at) }

  function Activity(t: GeoJson.Track): seq<int> { t.times + EventTimes(t.events) }

  lemma {:induction false} EarliestIsMember(instants: seq<int>)
    ensures instants != [] ==> Earliest(instants) in instants && Latest(instants) in instants
  {
    if instants != [] {
      EarliestIsMember(instants[..|instants| - 1]);
      assert |instants| > 1 ==> instants[..|instants| - 1] != [];
    }
  }

  /** The range is that of the instants, if none of them is the zero time, which counts as none. */
  lemma {:induction false} RangeReads(instants: seq<int>)
    requires instants != [] && Time.ZERO_TIME !in instants
    ensures Earliest(instants) in instants && Latest(instants) in instants
    ensures forall i :: 0 <= i < |instants| ==> Earliest(instants) <= instants[i] <= Latest(instants)
  {
    EarliestIsMember(instants);
    var init := instants[..|instants| - 1];
    if init != [] {
      RangeReads(init);
      forall i | 0 <= i < |instants| ensures Earliest(instants) <= instants[i] <= Latest(instants) {
        assert i < |init| ==> init[i] == instants[i];
      }
    }
  }

  method TrackActivityRange(t: GeoJson.Track) returns (start: int, end: int)
    ensures start == Earliest(Activity(t)) && end == Latest(Activity(t))
  {
    start, end := Time.ZERO_TIME, Time.ZERO_TIME;
    for i := 0 to |t.times|
      invariant start == Earliest(t.times[..i]) && end == Latest(t.times[..i])
    {
      var at := t.times[i];
      assert t.times[..i + 1][..i] == t.times[..i];
      if start == Time.ZERO_TIME || at < start { start := at; }
      if end == Time.ZERO_TIME || at > end { end := at; }
    }
    assert t.times[..|t.times|] == t.times;
    assert t.times + EventTimes(t.events[..0]) == t.times;
    for i := 0 to |t.events|
      invariant start == Earliest(t.times + EventTimes(t.events[..i]))
      invariant end == Latest(t.times + EventTimes(t.events[..i]))
    {
      var at := t.events[i].at;
      var seen := t.times + EventTimes(t.events[..i + 1]);
      assert seen[..|seen| - 1] == t.times + EventTimes(t.events[..i]);
      if start == Time.ZERO_TIME || at < start { start := at; }
      if end == Time.ZERO_TIME || at > end { end := at; }
    }
    assert t.events[..|t.events|] == t.events;
  }

  // ----- printing a day

  /** A lone sample without events is printed as a bare point. */
  function BuildMigrated(t: GeoJson.Track, interval: int): GeoJson.Document {
    if t.events == [] && |t.points| == 1 then
      GeoJson.Single(GeoJson.BuildFeature(t, interval).(geometry := GeoJson.Point(t.points[0])))
    else GeoJson.Build(t, interval)
  }

  /**
   * A migrated day can be taken up again exactly when it has two samples, or one sample and an event: lone points and
   * bare events do not parse back.
   */
  lemma MigratedParses(t: GeoJson.Track, interval: int)
    requires t.name != "" && GeoJson.Named(t.events) && |t.times| == |t.points| && GeoJson.AllPositional(t.points)
    requires t.points != [] || t.events != []
    ensures GeoJson.Parse(BuildMigrated(t, interval)) == Some(GeoJson.Truncated(t))
      <==> |t.points| >= 2 || (|t.points| == 1 && t.events != [])
  {
    GeoJson.RoundTrip(t, interval);
  }

  /** What a migrated document says: a lone sample is a point under its header, all else is printed as any track. */
  lemma MigratedSays(t: GeoJson.Track, interval: int)
    ensures var doc := BuildMigrated(t, interval);
      if t.events == [] && |t.points| == 1 then
        doc.Single? && GeoJson.Heads(doc.feature, t, interval, GeoJson.Point(t.points[0]))
      else GeoJson.Says(doc, t, interval)
  {
    GeoJson.PrintedSays(t, interval);
  }

  /** Only a lone point escapes the two-position rule, and it is no line string. */
  lemma MigratedLinesLongEnough(t: GeoJson.Track, interval: int)
    requires t.points != [] || t.events != []
    ensures GeoJson.LinesLongEnough(BuildMigrated(t, interval))
  {
    GeoJson.BuiltLinesLongEnough(t, interval);
  }

  // ----- reading the legacy files

  predicate IsMarkedEvent(f: GeoJson.Feature) {
    GeoJson.IsEvent(f) && f.properties.time.Stamp? && GeoJson.Positional(f.geometry.coordinate)
  }

  function ReadFeature(l: Legacy, f: GeoJson.Feature): Legacy {
    if GeoJson.IsLine(f) then l.(times := GeoJson.Instants(f.properties.times), points := f.geometry.coordinates)
    else if GeoJson.IsEvent(f) then
      if IsMarkedEvent(f) then
        l.(events := l.events + [GeoJson.Event(f.properties.event, f.properties.time.at, f.geometry.coordinate)])
      else l
    else if GeoJson.IsSinglePoint(f) then l.(times := [f.properties.times[0].at], points := [f.geometry.coordinate])
    else l
  }

  function ReadFeatures(name: string, fs: seq<GeoJson.Feature>): (l: Legacy)
    ensures Paired(l.times, l.points) && l.name == name
  {
    if fs == [] then Legacy(name, [], [], []) else ReadFeature(ReadFeatures(name, fs[..|fs| - 1]), fs[|fs| - 1])
  }

  /** The samples and events of a legacy document; None when it has neither. */
  function ReadLegacy(name: string, doc: GeoJson.Document): (r: Option<Legacy>)
    ensures r.Some? ==>
      Paired(r.value.times, r.value.points) && r.value.name == name && (r.value.times != [] || r.value.events != [])
  {
    match doc
    case Malformed => None
    case Single(f) =>
      if GeoJson.IsLine(f) && f.properties.times != [] then
        Some(Legacy(name, GeoJson.Instants(f.properties.times), f.geometry.coordinates, []))
      else None
    case Collection(fs) =>
      var l := ReadFeatures(name, fs);
      if l.times == [] && l.events == [] then None else Some(l)
  }

  /** The events at positions of two or three numbers. */
  function Placed(es: seq<GeoJson.Event>): seq<GeoJson.Event> {
    if es == [] then []
    else
      var last := es[|es| - 1];
      Placed(es[..|es| - 1]) + if 2 <= |last.position| <= 3 then [last] else []
  }

  /** A legacy collection is read as any, but for the events without a proper position, which are left out. */
  lemma {:induction false} LegacyReadsAlike(name: string, fs: seq<GeoJson.Feature>)
    ensures var l, t := ReadFeatures(name, fs), GeoJson.ParseFeatures(fs);
      l.name == name && l.times == t.times && l.points == t.points && l.events == Placed(t.events)
  {
    if fs != [] {
      LegacyReadsAlike(name, fs[..|fs| - 1]);
      GeoJson.EventRead(fs[..|fs| - 1], fs[|fs| - 1]);
      assert fs[..|fs| - 1] + [fs[|fs| - 1]] == fs;
    }
  }

  /** So a legacy document gives the samples and placed events that are in it, and is invalid when there are none. */
  lemma LegacyReads(name: string, doc: GeoJson.Document)
    ensures var t := match doc
        case Malformed => GeoJson.BLANK
        case Single(f) => if GeoJson.Parse(doc).Some? then GeoJson.Parse(doc).value else GeoJson.BLANK
        case Collection(fs) => GeoJson.ParseFeatures(fs);
      ReadLegacy(name, doc) ==
        if t.times == [] && Placed(t.events) == [] then None
        else Some(Legacy(name, t.times, t.points, Placed(t.events)))
  {
    if doc.Collection? { LegacyReadsAlike(name, doc.features); }
  }

  // ----- the migration

  datatype Report = Report(days: nat, files: nat, points: nat)

  datatype Error = InvalidTrack(name: string) | TargetExists(target: string) | Failed

  function ReadAll(disk: TM.Files, legacy: seq<string>): (r: Result<seq<Legacy>, Error>)
    requires forall i :: 0 <= i < |legacy| ==> legacy[i] in disk
    ensures r.Err? ==> r.error.InvalidTrack?
    ensures r.Ok? ==>
      AllPaired(r.value) && |r.value| == |legacy| && forall i :: 0 <= i < |legacy| ==> r.value[i].name == legacy[i]
  {
    if legacy == [] then Ok([])
    else match ReadAll(disk, legacy[..|legacy| - 1])
      case Err(e) => Err(e)
      case Ok(ls) =>
        match ReadLegacy(legacy[|legacy| - 1], disk[legacy[|legacy| - 1]])
        case None => Err(InvalidTrack(legacy[|legacy| - 1]))
        case Some(l) => Ok(ls + [l])
  }

  /** A day's track and the file it goes to. */
  datatype Plan = Plan(target: string, track: GeoJson.Track)

  function PlanOf(names: TM.Names, g: Group): Plan
    requires Paired(g.times, g.points)
  {
    var t := SortedTrack(g);
    var target := names.human(Earliest(Activity(t)), Latest(Activity(t)), 0);
    Plan(target, t.(name := target))
  }

  ghost predicate Plans(names: TM.Names, days: seq<int>, ss: seq<Sample>, es: seq<GeoJson.Event>, plans: seq<Plan>) {
    |plans| == |days| && forall i :: 0 <= i < |days| ==> plans[i] == PlanOf(names, DayGroup(days[i], ss, es))
  }

  /** The days counted before the first whose target name is taken, and that target. */
  function CountDays(disk: TM.Files, plans: seq<Plan>): (nat, Option<Error>) {
    if plans == [] then (0, None)
    else
      var (count, error) := CountDays(disk, plans[..|plans| - 1]);
      var target := plans[|plans| - 1].target;
      if error.Some? then (count, error)
      else if target in disk then (count, Some(TargetExists(target)))
      else (count + 1, None)
  }

  /** The interval written into the migrated tracks: the first gap of the first source that has one, or five seconds. */
  function Interval(sources: seq<Legacy>): int {
    if sources == [] then 5 * Time.SECOND
    else if |sources[0].times| >= 2 then sources[0].times[1] - sources[0].times[0]
    else Interval(sources[1..])
  }

  /** The days counted are those before the first whose target is taken. */
  lemma {:induction false} CountReads(disk: TM.Files, plans: seq<Plan>)
    ensures var (count, error) := CountDays(disk, plans);
      && 0 <= count <= |plans| && (forall i :: 0 <= i < count ==> plans[i].target !in disk)
      && (error.None? <==> count == |plans|)
      && (count < |plans| ==> plans[count].target in disk && error == Some(TargetExists(plans[count].target)))
  {
    if plans != [] { CountReads(disk, plans[..|plans| - 1]); }
  }

  /** The interval is the first gap of source `k`, the first with two samples, and five seconds without one. */
  lemma {:induction false} IntervalReads(sources: seq<Legacy>, k: nat)
    requires k <= |sources| && (k < |sources| ==> |sources[k].times| >= 2)
    requires forall i :: 0 <= i < k ==> |sources[i].times| < 2
    ensures Interval(sources) ==
      if k < |sources| then sources[k].times[1] - sources[k].times[0] else 5_000_000_000
  {
    if k > 0 { IntervalReads(sources[1..], k - 1); }
  }

  /** What a run reports when no write fails. */
  ghost predicate Reports(names: TM.Names, disk: TM.Files, legacy: seq<string>, report: Report, error: Option<Error>)
    requires forall i :: 0 <= i < |legacy| ==> legacy[i] in disk
  {
    match ReadAll(disk, legacy)
    case Err(e) => report == Report(0, 0, 0) && error == Some(e)
    case Ok(sources) =>
      && report.files == |legacy| && report.points == |AllSamples(sources)|
      && exists plans :: Planned(names, sources, plans) && (report.days, error) == CountDays(disk, plans)
  }

  /** One plan for each day with any sample or event, in order. */
  ghost predicate Planned(names: TM.Names, sources: seq<Legacy>, plans: seq<Plan>)
    requires AllPaired(sources)
  {
    exists days :: Lists(days, AllSamples(sources), AllEvents(sources))
                   && Plans(names, days, AllSamples(sources), AllEvents(sources), plans)
  }

  lemma PlannedUnique(names: TM.Names, sources: seq<Legacy>, ps: seq<Plan>, qs: seq<Plan>)
    requires AllPaired(sources) && Planned(names, sources, ps) && Planned(names, sources, qs)
    ensures ps == qs
  {
    var ss, es := AllSamples(sources), AllEvents(sources);
    var a :| Lists(a, ss, es) && Plans(names, a, ss, es, ps);
    var b :| Lists(b, ss, es) && Plans(names, b, ss, es, qs);
    ListsUnique(a, b, ss, es);
  }

  lemma ListsUnique(days: seq<int>, more: seq<int>, ss: seq<Sample>, es: seq<GeoJson.Event>)
    requires Lists(days, ss, es) && Lists(more, ss, es)
    ensures days == more
  {
    forall day ensures day in days <==> day in more {
    }
    Sorting.StrictSortUnique((d: int) => d, days, more);
  }

  function PlannedSamples(plans: seq<Plan>): seq<Sample> {
    if plans == [] then []
    else
      var t := plans[|plans| - 1].track;
      PlannedSamples(plans[..|plans| - 1]) + if Paired(t.times, t.points) then Samples(t.times, t.points) else []
  }

  function PlannedEvents(plans: seq<Plan>): seq<GeoJson.Event> {
    if plans == [] then [] else PlannedEvents(plans[..|plans| - 1]) + plans[|plans| - 1].track.events
  }

  lemma {:induction false} PlansConserve(names: TM.Names, days: seq<int>, ss: seq<Sample>, es: seq<GeoJson.Event>,
          plans: seq<Plan>)
    requires Plans(names, days, ss, es, plans)
    ensures multiset(PlannedSamples(plans)) == multiset(Flatten(SampleDay, days, ss))
    ensures multiset(PlannedEvents(plans)) == multiset(Flatten(EventDay, days, es))
  {
    if days != [] {
      var n := |days| - 1;
      PlansConserve(names, days[..n], ss, es, plans[..n]);
      DayPlanned(names, days[n], ss, es, plans[n]);
    }
  }

  lemma DayPlanned(names: TM.Names, day: int, ss: seq<Sample>, es: seq<GeoJson.Event>, plan: Plan)
    requires plan == PlanOf(names, DayGroup(day, ss, es))
    ensures Paired(plan.track.times, plan.track.points)
    ensures multiset(Samples(plan.track.times, plan.track.points)) == multiset(SamplesOf(day, ss))
    ensures multiset(plan.track.events) == multiset(EventsOf(day, es))
  {
    SortedTrackOrdered(DayGroup(day, ss, es));
    assert Samples(Times(SamplesOf(day, ss)), Points(SamplesOf(day, ss))) == SamplesOf(day, ss);
  }

  /** The planned tracks hold every sample and every event of every source exactly once. */
  lemma MigrationConserves(names: TM.Names, sources: seq<Legacy>, plans: seq<Plan>)
    requires AllPaired(sources) && Planned(names, sources, plans)
    ensures multiset(PlannedSamples(plans)) == multiset(AllSamples(sources))
    ensures multiset(PlannedEvents(plans)) == multiset(AllEvents(sources))
  {
    var ss, es := AllSamples(sources), AllEvents(sources);
    var days :| Lists(days, ss, es) && Plans(names, days, ss, es, plans);
    PlansConserve(names, days, ss, es, plans);
    GroupsConserve(days, ss, es);
  }

  /** A dry run reports exactly what a real run over the same directory does, unless a write fails. */
  lemma DryRunAgrees(names: TM.Names, disk: TM.Files, legacy: seq<string>, dry: Report, dryError: Option<Error>,
          actual: Report, actualError: Option<Error>)
    requires forall i :: 0 <= i < |legacy| ==> legacy[i] in disk
    requires Reports(names, disk, legacy, dry, dryError) && Reports(names, disk, legacy, actual, actualError)
    ensures dry == actual && dryError == actualError
  {
    if ReadAll(disk, legacy).Ok? {
      var sources := ReadAll(disk, legacy).value;
      var ps :| Planned(names, sources, ps) && (dry.days, dryError) == CountDays(disk, ps);
      var qs :| Planned(names, sources, qs) && (actual.days, actualError) == CountDays(disk, qs);
      PlannedUnique(names, sources, ps, qs);
    }
  }

  /** A name belongs to one day, and no archive name is a legacy name, a track name or another file's archive name. */
  ghost predicate Separates(names: TM.Names, archived: string -> string, legacy: seq<string>) {
    && OneDay(names)
    && (forall i, j :: 0 <= i < j < |legacy| ==> legacy[i] != legacy[j] && archived(legacy[i]) != archived(legacy[j]))
    && (forall i, j :: 0 <= i < |legacy| && 0 <= j < |legacy| ==> archived(legacy[i]) != legacy[j])
    && forall name, s, e, n: nat :: archived(name) != names.human(s, e, n)
  }

  predicate DistinctTargets(plans: seq<Plan>) {
    forall i, j :: 0 <= i < j < |plans| ==> plans[i].target != plans[j].target
  }

  ghost predicate OneDay(names: TM.Names) {
    TM.Distinguishes(names) && forall name, a, b :: names.ofDay(name, a) && names.ofDay(name, b) ==> a == b
  }

  /** Different days go to different files. */
  lemma TargetsDiffer(names: TM.Names, days: seq<int>, ss: seq<Sample>, es: seq<GeoJson.Event>, plans: seq<Plan>)
    requires OneDay(names) && Lists(days, ss, es) && Plans(names, days, ss, es, plans)
    ensures DistinctTargets(plans)
  {
    forall i, j | 0 <= i < j < |plans| ensures plans[i].target != plans[j].target {
      assert days[i] in days && days[j] in days;
      DayGroupInDay(days[i], ss, es);
      DayGroupInDay(days[j], ss, es);
      TargetOfDay(names, DayGroup(days[i], ss, es), days[i]);
      TargetOfDay(names, DayGroup(days[j], ss, es), days[j]);
    }
  }

  predicate InDay(g: Group, day: int) {
    && Paired(g.times, g.points) && (g.times != [] || g.events != [])
    && (forall i :: 0 <= i < |g.times| ==> TM.Day(g.times[i]) == day)
    && forall i :: 0 <= i < |g.events| ==> TM.Day(g.events[i].at) == day
  }

  lemma DayGroupInDay(day: int, ss: seq<Sample>, es: seq<GeoJson.Event>)
    requires SamplesOf(day, ss) != [] || EventsOf(day, es) != []
    ensures InDay(DayGroup(day, ss, es), day)
  {
    var g := DayGroup(day, ss, es);
    forall i | 0 <= i < |g.times|
      ensures TM.Day(g.times[i]) == day
    {
      MemberOfShare(SampleDay, day, ss, SamplesOf(day, ss)[i]);
    }
    forall i | 0 <= i < |g.events|
      ensures TM.Day(g.events[i].at) == day
    {
      MemberOfShare(EventDay, day, es, g.events[i]);
    }
  }

  lemma TargetOfDay(names: TM.Names, g: Group, day: int)
    requires TM.Distinguishes(names) && InDay(g, day)
    ensures names.ofDay(PlanOf(names, g).target, day)
  {
    StartsInDay(g, day);
  }

  /** The earliest activity of a day's track lies on that day. */
  lemma StartsInDay(g: Group, day: int)
    requires InDay(g, day)
    ensures TM.Day(Earliest(Activity(SortedTrack(g)))) == day
  {
    var t := SortedTrack(g);
    SortedTrackOrdered(g);
    Sorting.SameMembers(Samples(t.times, t.points), Samples(g.times, g.points));
    Sorting.SameMembers(t.events, g.events);
    EarliestIsMember(Activity(t));
    var i :| 0 <= i < |Activity(t)| && Activity(t)[i] == Earliest(Activity(t));
    if i < |t.times| {
      assert Samples(t.times, t.points)[i] in Samples(g.times, g.points);
    } else {
      assert t.events[i - |t.times|] in g.events;
    }
  }

  lemma MemberOfShare<T>(key: T -> int, k: int, xs: seq<T>, x: T)
    requires x in Sorting.OfKey(key, k, xs)
    ensures key(x) == k
  {
    ShareCounts(key, k, xs, x);
  }

  /** The files after the planned documents are written, in order. */
  function WriteAll(disk: TM.Files, plans: seq<Plan>, interval: int): TM.Files {
    if plans == [] then disk
    else
      WriteAll(disk, plans[..|plans| - 1],
        interval)[plans[|plans| - 1].target := BuildMigrated(plans[|plans| - 1].track, interval)]
  }

  lemma {:induction false} WriteAllFiles(disk: TM.Files, plans: seq<Plan>, interval: int, f: string)
    requires forall i :: 0 <= i < |plans| ==> plans[i].target != f
    ensures f in WriteAll(disk, plans, interval) <==> f in disk
    ensures f in disk ==> WriteAll(disk, plans, interval)[f] == disk[f]
  {
    if plans != [] { WriteAllFiles(disk, plans[..|plans| - 1], interval, f); }
  }

  lemma {:induction false} WriteAllDocuments(disk: TM.Files, plans: seq<Plan>, interval: int, i: nat)
    requires i < |plans| && DistinctTargets(plans)
    ensures plans[i].target in WriteAll(disk, plans, interval)
    ensures WriteAll(disk, plans, interval)[plans[i].target] == BuildMigrated(plans[i].track, interval)
  {
    if i < |plans| - 1 { WriteAllDocuments(disk, plans[..|plans| - 1], interval, i); }
  }

  method SortedDays(groups: Groups) returns (days: seq<int>)
    ensures Increasing(days) && forall day: int :: day in days <==> day in groups
  {
    var rest := groups.Keys;
    var found: seq<int> := [];
    while rest != {}
      invariant rest <= groups.Keys
      invariant forall day: int :: day in found <==> day in groups && day !in rest
      invariant Sorting.DistinctBy((d: int) => d, found)
      decreases rest
    {
      var day := Sorting.PickAny(rest);
      rest := rest - {day};
      found := found + [day];
    }
    var key := (d: int) => d;
    days := Sorting.SortBy(key, found);
    Sorting.SortBySorted(key, found);
    Sorting.SortByPermutes(key, found);
    Sorting.SameMembers(found, days);
    Sorting.DistinctPermutation(key, found, days);
    forall i, j | 0 <= i < j < |days| ensures days[i] < days[j] {
      assert key(days[i]) <= key(days[j]) && key(days[i]) != key(days[j]);
    }
  }

  method ParseLegacyTrack(name: string, doc: GeoJson.Document) returns (r: Option<Legacy>)
    ensures r == ReadLegacy(name, doc)
  {
    match doc
    case Malformed => return None;
    case Single(f) =>
      var line := GeoJson.ParseTrackFile(f);
      if line.None? || |line.value.times| == 0 { return None; }
      return Some(Legacy(name, line.value.times, line.value.points, []));
    case Collection(fs) =>
      var l := Legacy(name, [], [], []);
      for i := 0 to |fs|
        invariant l == ReadFeatures(name, fs[..i])
      {
        assert fs[..i + 1][..i] == fs[..i];
        var f := fs[i];
        var line := GeoJson.ParseTrackFile(f);
        if line.Some? {
          l := l.(times := line.value.times, points := line.value.points);
          continue;
        }
        if f.geometry.Point? && f.properties.event != "" {
          if f.properties.time.Stamp? && (|f.geometry.coordinate| == 2 || |f.geometry.coordinate| == 3) {
            l := l.(events := l.events + [GeoJson.Event(f.properties.event, f.properties.time.at,
              f.geometry.coordinate)]);
          }
          continue;
        }
        if f.geometry.Point? && |f.properties.times| == 1 {
          var at := f.properties.times[0];
          if at.Stamp? && (|f.geometry.coordinate| == 2 || |f.geometry.coordinate| == 3) {
            l := l.(times := [at.at], points := [f.geometry.coordinate]);
          }
        }
      }
      assert fs[..|fs|] == fs;
      return if |l.times| == 0 && |l.events| == 0 then None else Some(l);
  }

  lemma {:induction false} ReadAllFails(disk: TM.Files, legacy: seq<string>, n: nat)
    requires n <= |legacy| && (forall i :: 0 <= i < |legacy| ==> legacy[i] in disk)
    requires ReadAll(disk, legacy[..n]).Err?
    ensures ReadAll(disk, legacy) == ReadAll(disk, legacy[..n])
  {
    if n < |legacy| {
      assert legacy[..|legacy| - 1][..n] == legacy[..n];
      ReadAllFails(disk, legacy[..|legacy| - 1], n);
    } else {
      assert legacy[..n] == legacy;
    }
  }

  method ReadSources(disk: TM.Files, legacy: seq<string>) returns (r: Result<seq<Legacy>, Error>)
    requires forall i :: 0 <= i < |legacy| ==> legacy[i] in disk
    ensures r == ReadAll(disk, legacy)
  {
    var sources: seq<Legacy> := [];
    for i := 0 to |legacy|
      invariant ReadAll(disk, legacy[..i]) == Ok(sources)
    {
      assert legacy[..i + 1][..i] == legacy[..i];
      var source := ParseLegacyTrack(legacy[i], disk[legacy[i]]);
      if source.None? {
        ReadAllFails(disk, legacy, i + 1);
        return Err(InvalidTrack(legacy[i]));
      }
      sources := sources + [source.value];
    }
    assert legacy[..|legacy|] == legacy;
    return Ok(sources);
  }

  lemma {:induction false} CountStops(disk: TM.Files, plans: seq<Plan>, n: nat)
    requires n <= |plans| && CountDays(disk, plans[..n]).1.Some?
    ensures CountDays(disk, plans) == CountDays(disk, plans[..n])
  {
    if n < |plans| {
      assert plans[..|plans| - 1][..n] == plans[..n];
      CountStops(disk, plans[..|plans| - 1], n);
    } else {
      assert plans[..n] == plans;
    }
  }

  predicate AllGrouped(groups: Groups, days: seq<int>) {
    forall i :: 0 <= i < |days| ==> days[i] in groups && Paired(groups[days[i]].times, groups[days[i]].points)
  }

  /** The plans of the first `n` days. */
  function PlanList(names: TM.Names, groups: Groups, days: seq<int>, n: nat): (plans: seq<Plan>)
    requires AllGrouped(groups, days) && n <= |days|
    ensures |plans| == n
  {
    if n == 0 then [] else PlanList(names, groups, days, n - 1) + [PlanOf(names, groups[days[n - 1]])]
  }

  lemma {:induction false} PlanListAt(names: TM.Names, groups: Groups, days: seq<int>, n: nat, i: nat)
    requires AllGrouped(groups, days) && i < n <= |days|
    ensures PlanList(names, groups, days, n)[i] == PlanOf(names, groups[days[i]])
  {
    if i < n - 1 { PlanListAt(names, groups, days, n - 1, i); }
  }

  /** Plans one day from its group. */
  method PlanGroup(names: TM.Names, g: Group) returns (plan: Plan)
    requires Paired(g.times, g.points)
    ensures plan == PlanOf(names, g)
  {
    var combined := SortTrack(g);
    var start, end := TrackActivityRange(combined);
    var target := names.human(start, end, 0);
    return Plan(target, combined.(name := target));
  }

  method PlanGroups(names: TM.Names, groups: Groups, days: seq<int>) returns (plans: seq<Plan>)
    requires AllGrouped(groups, days)
    ensures plans == PlanList(names, groups, days, |days|)
  {
    plans := [];
    for n := 0 to |days|
      invariant plans == PlanList(names, groups, days, n)
    {
      var plan := PlanGroup(names, groups[days[n]]);
      plans := plans + [plan];
    }
  }

  predicate Keeps(before: TM.Files, after: TM.Files) {
    forall f :: f in before ==> f in after && after[f] == before[f]
  }

  lemma NextDay(disk: TM.Files, plans: seq<Plan>, n: nat, interval: int)
    requires n < |plans| && DistinctTargets(plans)
    ensures plans[n].target in WriteAll(disk, plans[..n], interval) <==> plans[n].target in disk
    ensures WriteAll(disk, plans[..n + 1], interval) ==
      WriteAll(disk, plans[..n], interval)[plans[n].target := BuildMigrated(plans[n].track, interval)]
    ensures CountDays(disk, plans[..n]).1.None? ==>
      CountDays(disk, plans[..n + 1]) ==
        if plans[n].target in disk then (CountDays(disk, plans[..n]).0, Some(TargetExists(plans[n].target)))
        else (CountDays(disk, plans[..n]).0 + 1, None)
  {
    assert plans[..n + 1][..n] == plans[..n];
    WriteAllFiles(disk, plans[..n], interval, plans[n].target);
  }

  /** Writes each day's document unless its name is taken; the budget says how many writes still succeed. */
  method WriteDays(disk: TM.Files, plans: seq<Plan>, interval: int, dryRun: bool, budget: nat)
    returns (count: nat, error: Option<Error>, after: TM.Files, left: nat)
    requires DistinctTargets(plans)
    ensures error == Some(Failed) || (count, error) == CountDays(disk, plans)
    ensures dryRun ==> after == disk && error != Some(Failed)
    ensures !dryRun && error.None? ==> after == WriteAll(disk, plans, interval)
    ensures Keeps(disk, after)
    ensures error == Some(Failed) ==> budget < count <= |plans|
    ensures error.None? ==> count == |plans| && left == if dryRun then budget else budget - count
  {
    count, after, left := 0, disk, budget;
    for n := 0 to |plans|
      invariant CountDays(disk, plans[..n]) == (count, None)
      invariant dryRun ==> after == disk
      invariant !dryRun ==> after == WriteAll(disk, plans[..n], interval)
      invariant Keeps(disk, after) && count == n && left == (if dryRun then budget else budget - n)
    {
      var plan := plans[n];
      NextDay(disk, plans, n, interval);
      if plan.target in after {
        CountStops(disk, plans, n + 1);
        return count, Some(TargetExists(plan.target)), after, left;
      }
      count := count + 1;
      if dryRun { continue; }
      if left == 0 { return count, Some(Failed), after, left; }
      left := left - 1;
      after := after[plan.target := BuildMigrated(plan.track, interval)];
    }
    assert plans[..|plans|] == plans;
    error := None;
  }

  /** Each source is under its own name or its archive name, unchanged. */
  ghost predicate SourcesKept(disk: TM.Files, after: TM.Files, archived: string -> string, legacy: seq<string>,
          done: nat)
    requires done <= |legacy| && forall i :: 0 <= i < |legacy| ==> legacy[i] in disk
  {
    && (forall i :: 0 <= i < done ==>
      legacy[i] !in after && archived(legacy[i]) in after && after[archived(legacy[i])] == disk[legacy[i]])
    && forall i :: done <= i < |legacy| ==> legacy[i] in after && after[legacy[i]] == disk[legacy[i]]
  }

  lemma RenameKeeps(names: TM.Names, archived: string -> string, disk: TM.Files, after: TM.Files, legacy: seq<string>,
          done: nat)
    requires Separates(names, archived, legacy) && done < |legacy|
    requires (forall i :: 0 <= i < |legacy| ==> legacy[i] in disk) && SourcesKept(disk, after, archived, legacy, done)
    ensures SourcesKept(disk, (after - {legacy[done]})[archived(legacy[done]) := after[legacy[done]]], archived, legacy,
      done + 1)
  {
  }

  method ArchiveSources(names: TM.Names, archived: string -> string, disk: TM.Files, legacy: seq<string>, budget: nat)
    returns (ok: bool, after: TM.Files, done: nat)
    requires Separates(names, archived, legacy)
    requires forall i :: 0 <= i < |legacy| ==> legacy[i] in disk
    ensures done <= |legacy| && SourcesKept(disk, after, archived, legacy, done) && (ok <==> done == |legacy|)
    ensures !ok ==> done == budget
    ensures forall f ::
      f in disk && f !in legacy && (forall i :: 0 <= i < |legacy| ==> archived(legacy[i]) != f) ==>
      f in after && after[f] == disk[f]
  {
    after, done := disk, 0;
    while done < |legacy|
      invariant done <= |legacy| && SourcesKept(disk, after, archived, legacy, done)
      invariant forall f ::
        f in disk && f !in legacy && (forall i :: 0 <= i < |legacy| ==> archived(legacy[i]) != f) ==>
        f in after && after[f] == disk[f]
    {
      if done == budget { return false, after, done; }
      var name := legacy[done];
      RenameKeeps(names, archived, disk, after, legacy, done);
      after := (after - {name})[archived(name) := after[name]];
      done := done + 1;
    }
    ok := true;
  }

  method FindInterval(sources: seq<Legacy>) returns (interval: int)
    ensures interval == Interval(sources)
  {
    for i := 0 to |sources|
      invariant Interval(sources) == Interval(sources[i..])
    {
      if |sources[i].times| >= 2 { return sources[i].times[1] - sources[i].times[0]; }
    }
    return 5 * Time.SECOND;
  }

  predicate InPlace(plans: seq<Plan>, interval: int, after: TM.Files) {
    forall i :: 0 <= i < |plans| ==>
      plans[i].target in after && after[plans[i].target] == BuildMigrated(plans[i].track, interval)
  }

  /** Every day's document is in place and every source is archived. */
  ghost predicate Migrated(names: TM.Names, archived: string -> string, disk: TM.Files, legacy: seq<string>,
          after: TM.Files)
    requires forall i :: 0 <= i < |legacy| ==> legacy[i] in disk
  {
    && ReadAll(disk, legacy).Ok? && SourcesKept(disk, after, archived, legacy, |legacy|)
    && exists plans ::
         && Planned(names, ReadAll(disk, legacy).value, plans)
         && InPlace(plans, Interval(ReadAll(disk, legacy).value), after)
  }

  /** Groups, sorts and plans: the pure part of a migration. */
  method PlanMigration(names: TM.Names, sources: seq<Legacy>) returns (plans: seq<Plan>)
    requires AllPaired(sources) && OneDay(names)
    ensures Planned(names, sources, plans) && DistinctTargets(plans)
  {
    ghost var ss, es := AllSamples(sources), AllEvents(sources);
    var groups := GroupByDay(sources);
    var days := SortedDays(groups);
    DaysListed(groups, days, ss, es);
    plans := PlanGroups(names, groups, days);
    forall i | 0 <= i < |days| ensures plans[i] == PlanOf(names, DayGroup(days[i], ss, es)) {
      PlanListAt(names, groups, days, |days|, i);
    }
    TargetsDiffer(names, days, ss, es, plans);
  }

  /** MigrateLegacyTracks over the legacy files the directory lists; archive names come from appending a suffix. */
  method MigrateLegacyTracks(names: TM.Names, archived: string -> string, disk: TM.Files, legacy: seq<string>,
          dryRun: bool, budget: nat)
    returns (report: Report, error: Option<Error>, after: TM.Files)
    requires Separates(names, archived, legacy) && (forall i :: 0 <= i < |legacy| ==> legacy[i] in disk)
    ensures error == Some(Failed) || Reports(names, disk, legacy, report, error)
    ensures dryRun ==> after == disk && error != Some(Failed)
    ensures !dryRun && error.None? ==> Migrated(names, archived, disk, legacy, after)
    ensures exists done :: 0 <= done <= |legacy| && SourcesKept(disk, after, archived, legacy, done)
    ensures error == Some(Failed) ==> budget < report.days + |legacy|
  {
    assert SourcesKept(disk, disk, archived, legacy, 0);
    var read := ReadSources(disk, legacy);
    if read.Err? { return Report(0, 0, 0), Some(read.error), disk; }
    var sources := read.value;
    var points := CountPoints(sources);
    var plans := PlanMigration(names, sources);
    var interval := FindInterval(sources);
    var count, failed, written, left := WriteDays(disk, plans, interval, dryRun, budget);
    report, error, after := Report(count, |legacy|, points), failed, written;
    assert SourcesKept(disk, written, archived, legacy, 0);
    if error.Some? || dryRun { return; }
    var ok;
    ok, after := ArchiveWritten(names, archived, disk, legacy, plans, interval, written, left);
    if !ok { error := Some(Failed); }
  }

  /** Archives the sources once every day is written. */
  method ArchiveWritten(names: TM.Names, archived: string -> string, disk: TM.Files, legacy: seq<string>,
          ghost plans: seq<Plan>, ghost interval: int, written: TM.Files, budget: nat)
    returns (ok: bool, after: TM.Files)
    requires Separates(names, archived, legacy) && (forall i :: 0 <= i < |legacy| ==> legacy[i] in disk)
    requires forall i, j :: 0 <= i < |plans| && 0 <= j < |legacy| ==> archived(legacy[j]) != plans[i].target
    requires DistinctTargets(plans) && written == WriteAll(disk, plans, interval) && CountDays(disk, plans).1.None?
    requires Keeps(disk, written)
    ensures exists done :: 0 <= done <= |legacy| && SourcesKept(disk, after, archived, legacy, done)
    ensures ok ==> SourcesKept(disk, after, archived, legacy, |legacy|) && InPlace(plans, interval, after)
    ensures !ok ==> budget < |legacy|
  {
    var done;
    ok, after, done := ArchiveSources(names, archived, written, legacy, budget);
    assert SourcesKept(disk, after, archived, legacy, done);
    if ok { DaysStayWritten(names, archived, disk, legacy, plans, interval, written, after); }
  }

  lemma DaysListed(groups: Groups, days: seq<int>, ss: seq<Sample>, es: seq<GeoJson.Event>)
    requires Grouped(groups, ss, es) && Increasing(days) && forall day: int :: day in days <==> day in groups
    ensures Lists(days, ss, es)
    ensures forall i :: 0 <= i < |days| ==> days[i] in groups && groups[days[i]] == DayGroup(days[i], ss, es)
  {
    forall day: int ensures day in days <==> SamplesOf(day, ss) != [] || EventsOf(day, es) != [] {
      assert GroupHolds(groups, day, ss, es);
    }
    forall i | 0 <= i < |days| ensures days[i] in groups && groups[days[i]] == DayGroup(days[i], ss, es) {
      assert days[i] in days;
      assert GroupHolds(groups, days[i], ss, es);
    }
  }

  /** Archiving touches no day's document: archive names are not track names, and a legacy name was taken before. */
  lemma DaysStayWritten(names: TM.Names, archived: string -> string, disk: TM.Files, legacy: seq<string>,
          plans: seq<Plan>, interval: int, written: TM.Files, after: TM.Files)
    requires forall i, j :: 0 <= i < |plans| && 0 <= j < |legacy| ==> archived(legacy[j]) != plans[i].target
    requires forall i :: 0 <= i < |legacy| ==> legacy[i] in disk
    requires DistinctTargets(plans) && written == WriteAll(disk, plans, interval) && CountDays(disk, plans).1.None?
    requires forall f ::
      f in written && f !in legacy && (forall i :: 0 <= i < |legacy| ==> archived(legacy[i]) != f) ==>
      f in after && after[f] == written[f]
    ensures InPlace(plans, interval, after)
  {
    forall i | 0 <= i < |plans|
      ensures plans[i].target in after && after[plans[i].target] == BuildMigrated(plans[i].track, interval)
    {
      WriteAllDocuments(disk, plans, interval, i);
      CountedAreFree(disk, plans, i);
    }
  }

  lemma {:induction false} CountedAreFree(disk: TM.Files, plans: seq<Plan>, i: nat)
    requires i < |plans| && CountDays(disk, plans).1.None?
    ensures plans[i].target !in disk
  {
    if i < |plans| - 1 { CountedAreFree(disk, plans[..|plans| - 1], i); }
  }

  /** Points is the number of samples of all sources. */
  method CountPoints(sources: seq<Legacy>) returns (points: nat)
    requires AllPaired(sources)
    ensures points == |AllSamples(sources)|
  {
    points := 0;
    for i := 0 to |sources|
      invariant points == |AllSamples(sources[..i])|
    {
      assert sources[..i + 1][..i] == sources[..i];
      points := points + |sources[i].points|;
    }
    assert sources[..|sources|] == sources;
  }
}
