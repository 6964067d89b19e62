/**
 * service/tracking/manager.go: the GeoJSON documents a track is printed as and parsed from, as trees rather than text.
 */
module GeoJson {
  import opened Wrappers

  type Position = seq<real>

  datatype Event = Event(kind: string, at: int, position: Position)

  datatype Track = Track(name: string, times: seq<int>, points: seq<Position>, events: seq<Event>)

  /** An RFC 3339 string: it denotes an instant or does not parse. */
  datatype Stamp = Stamp(at: int) | Garbled

  datatype Geometry = LineString(coordinates: seq<Position>) | Point(coordinate: Position) | OtherGeometry

  /** The members of a feature's properties that any decoder reads; absent ones have their zero value. */
  datatype Properties = Properties(name: string, times: seq<Stamp>, start: Option<Stamp>, end: Option<Stamp>,
    pointCount: int, interval: int, event: string, time: Stamp)

  datatype Feature = Feature(kind: string, properties: Properties, geometry: Geometry)

  datatype Document = Single(feature: Feature) | Collection(features: seq<Feature>) | Malformed

  // ----- printing

  /** Formatting as RFC 3339 drops the fraction of a second. */
  function ToSecond(at: int): int { at - at % 1_000_000_000 }

  function Format(at: int): Stamp { Stamp(ToSecond(at)) }

  function FormatAll(times: seq<int>): seq<Stamp> { seq(|times|, i requires 0 <= i < |times| => Format(times[i])) }

  function TrackProperties(t: Track, interval: int): Properties {
    var times := FormatAll(t.times);
    Properties(t.name, times, if times == [] then None else Some(times[0]),
      if times == [] then None else Some(times[|times| - 1]),
               |t.points|, interval, "", Garbled)
  }

  function BuildFeature(t: Track, interval: int): Feature {
    Feature("Feature", TrackProperties(t, interval), LineString(t.points))
  }

  function EventFeature(e: Event): Feature {
    Feature("Feature", Properties("", [], None, None, 0, 0, e.kind, Format(e.at)), Point(e.position))
  }

  function EventFeatures(events: seq<Event>): seq<Feature> {
    if events == [] then [] else EventFeatures(events[..|events| - 1]) + [EventFeature(events[|events| - 1])]
  }

  function HeadFeatures(t: Track, interval: int): seq<Feature> {
    if |t.points| >= 2 then [BuildFeature(t, interval)]
    else if |t.points| == 1 then [BuildFeature(t, interval).(geometry := Point(t.points[0]))]
    else []
  }

  function Build(t: Track, interval: int): Document {
    if t.events == [] then Single(BuildFeature(t, interval))
    else Collection(HeadFeatures(t, interval) + EventFeatures(t.events))
  }

  method BuildGeoJson(t: Track, interval: int) returns (doc: Document)
    ensures doc == Build(t, interval) && Says(doc, t, interval)
  {
    PrintedSays(t, interval);
    if |t.events| == 0 { return Single(BuildFeature(t, interval)); }
    var features: seq<Feature> := [];
    if |t.points| >= 2 {
      features := features + [BuildFeature(t, interval)];
    } else if |t.points| == 1 {
      features := features + [BuildFeature(t, interval).(geometry := Point(t.points[0]))];
    }
    for i := 0 to |t.events|
      invariant features == HeadFeatures(t, interval) + EventFeatures(t.events[..i])
    {
      assert t.events[..i + 1][..i] == t.events[..i];
      features := features + [EventFeature(t.events[i])];
    }
    assert t.events[..|t.events|] == t.events;
    return Collection(features);
  }

  // ----- parsing

  predicate Positional(p: Position) { |p| == 2 || |p| == 3 }

  predicate AllPositional(points: seq<Position>) { forall i :: 0 <= i < |points| ==> Positional(points[i]) }

  predicate AllParse(stamps: seq<Stamp>) { forall i :: 0 <= i < |stamps| ==> stamps[i].Stamp? }

  function Instants(stamps: seq<Stamp>): seq<int>
    requires AllParse(stamps)
  {
    seq(|stamps|, i requires 0 <= i < |stamps| => stamps[i].at)
  }

  predicate IsLine(f: Feature) {
    && f.kind == "Feature" && f.geometry.LineString? && |f.properties.times| == |f.geometry.coordinates|
    && AllParse(f.properties.times) && AllPositional(f.geometry.coordinates)
  }

  datatype Samples = Samples(times: seq<int>, points: seq<Position>)

  /** parseTrackFile on one feature. */
  method ParseTrackFile(f: Feature) returns (r: Option<Samples>)
    ensures r == if IsLine(f) then Some(Samples(Instants(f.properties.times), f.geometry.coordinates)) else None
  {
    if f.kind != "Feature" || !f.geometry.LineString? { return None; }
    if |f.properties.times| != |f.geometry.coordinates| { return None; }
    var times: seq<int> := [];
    for i := 0 to |f.properties.times|
      invariant |times| == i
      invariant forall j :: 0 <= j < i ==> f.properties.times[j] == Stamp(times[j])
    {
      match f.properties.times[i]
      case Garbled => return None;
      case Stamp(at) => times := times + [at];
    }
    for i := 0 to |f.geometry.coordinates|
      invariant forall j :: 0 <= j < i ==> Positional(f.geometry.coordinates[j])
    {
      if |f.geometry.coordinates[i]| != 2 && |f.geometry.coordinates[i]| != 3 { return None; }
    }
    assert times == Instants(f.properties.times);
    return Some(Samples(times, f.geometry.coordinates));
  }

  predicate IsEvent(f: Feature) { f.geometry.Point? && f.properties.event != "" }

  predicate IsSinglePoint(f: Feature) {
    f.geometry.Point? && |f.properties.times| == 1 && f.properties.times[0].Stamp? && Positional(f.geometry.coordinate)
  }

  /** What one feature of a collection adds to the track read so far. */
  function ParseFeature(t: Track, f: Feature): Track {
    if IsLine(f) then
      t.(times := Instants(f.properties.times), points := f.geometry.coordinates, name := f.properties.name)
    else if IsEvent(f) then
      if f.properties.time.Stamp? then
        t.(events := t.events + [Event(f.properties.event, f.properties.time.at, f.geometry.coordinate)])
      else t
    else if IsSinglePoint(f) then
      t.(name := f.properties.name, times := [f.properties.times[0].at], points := [f.geometry.coordinate])
    else t
  }

  const BLANK := Track("", [], [], [])

  function ParseFeatures(fs: seq<Feature>): Track {
    if fs == [] then BLANK else ParseFeature(ParseFeatures(fs[..|fs| - 1]), fs[|fs| - 1])
  }

  function Parse(doc: Document): Option<Track> {
    match doc
    case Single(f) =>
      if IsLine(f) then Some(Track(f.properties.name, Instants(f.properties.times), f.geometry.coordinates, []))
      else None
    case Collection(fs) => if ParseFeatures(fs).name != "" then Some(ParseFeatures(fs)) else None
    case Malformed => None
  }

  method ParseActiveTrack(doc: Document) returns (r: Option<Track>)
    ensures r == Parse(doc)
  {
    match doc
    case Malformed => return None;
    case Single(f) =>
      var line := ParseTrackFile(f);
      if line.None? { return None; }
      return Some(Track(f.properties.name, line.value.times, line.value.points, []));
    case Collection(fs) =>
      var track := BLANK;
      for i := 0 to |fs|
        invariant track == ParseFeatures(fs[..i])
      {
        assert fs[..i + 1][..i] == fs[..i];
        var f := fs[i];
        var line := ParseTrackFile(f);
        if line.Some? {
          track := track.(times := line.value.times, points := line.value.points, name := f.properties.name);
          continue;
        }
        if f.geometry.Point? && f.properties.event != "" {
          if f.properties.time.Stamp? {
            track := track.(events := track.events +
              [Event(f.properties.event, f.properties.time.at, f.geometry.coordinate)]);
          }
          continue;
        }
        if f.geometry.Point? && |f.properties.times| == 1 {
          var at := f.properties.times[0];
          if at.Stamp? && (|f.geometry.coordinate| == 2 || |f.geometry.coordinate| == 3) {
            track := track.(name := f.properties.name, times := [at.at], points := [f.geometry.coordinate]);
          }
        }
      }
      assert fs[..|fs|] == fs;
      return if track.name != "" then Some(track) else None;
  }

  // ----- the round trip

  function TruncateTimes(times: seq<int>): seq<int> { seq(|times|, i requires 0 <= i < |times| => ToSecond(times[i])) }

  function TruncateEvents(events: seq<Event>): seq<Event> {
    seq(|events|, i requires 0 <= i < |events| => events[i].(at := ToSecond(events[i].at)))
  }

  /** The same track to whole seconds. */
  function Truncated(t: Track): Track { t.(times := TruncateTimes(t.times), events := TruncateEvents(t.events)) }

  predicate Named(events: seq<Event>) { forall i :: 0 <= i < |events| ==> events[i].kind != "" }

  /** The tracks that survive printing and parsing. */
  predicate Faithful(t: Track) {
    && |t.times| == |t.points| && AllPositional(t.points)
    && (t.events != [] ==> t.points != [] && t.name != "" && Named(t.events))
  }

  /** The events whose kind is not empty, truncated. */
  function KeptEvents(events: seq<Event>): (r: seq<Event>)
    ensures |r| <= |events|
  {
    if events == [] then []
    else
      var last := events[|events| - 1];
      KeptEvents(events[..|events| - 1]) + if last.kind != "" then [last.(at := ToSecond(last.at))] else []
  }

  lemma {:induction false} KeptEventsAll(events: seq<Event>)
    ensures KeptEvents(events) == TruncateEvents(events) <==> Named(events)
    ensures |KeptEvents(events)| == |events| <==> Named(events)
  {
    if events != [] {
      var init, last := events[..|events| - 1], events[|events| - 1];
      KeptEventsAll(init);
      assert Named(events) <==> Named(init) && last.kind != "" by {
        if Named(init) && last.kind != "" {
          forall i | 0 <= i < |events| ensures events[i].kind != "" { assert i < |init| ==> init[i].kind != ""; }
        }
        if Named(events) {
          forall i | 0 <= i < |init| ensures init[i].kind != "" { assert events[i].kind != ""; }
        }
      }
      if Named(events) { assert TruncateEvents(events) == TruncateEvents(init) + [last.(at := ToSecond(last.at))]; }
    }
  }

  lemma {:induction false} ParseEventFeatures(head: seq<Feature>, events: seq<Event>)
    ensures ParseFeatures(head + EventFeatures(events)) ==
            ParseFeatures(head).(events := ParseFeatures(head).events + KeptEvents(events))
  {
    if events == [] {
      assert head + EventFeatures(events) == head;
    } else {
      var init := events[..|events| - 1];
      ParseEventFeatures(head, init);
      assert (head + EventFeatures(events))[..|head + EventFeatures(events)| - 1] == head + EventFeatures(init);
    }
  }

  lemma FormattedTimes(times: seq<int>)
    ensures AllParse(FormatAll(times)) && Instants(FormatAll(times)) == TruncateTimes(times)
  {
  }

  /** The head of a collection carries the samples exactly when they are paired and well positioned. */
  lemma ParseHead(t: Track, interval: int)
    ensures var head := ParseFeatures(HeadFeatures(t, interval));
      && head.events == []
      && (head.points == t.points && head.times == TruncateTimes(t.times)
        <==> |t.times| == |t.points| && AllPositional(t.points))
      && (t.points != [] && |t.times| == |t.points| && AllPositional(t.points) ==> head.name == t.name)
      && (head.name != "" ==> head.name == t.name && t.points != [])
  {
    FormattedTimes(t.times);
    if t.points != [] {
      var f := HeadFeatures(t, interval)[0];
      assert HeadFeatures(t, interval)[..0] == [];
      assert ParseFeatures(HeadFeatures(t, interval)) == ParseFeature(BLANK, f);
    }
  }

  /** Parsing what was printed gives back the track to whole seconds, exactly for the faithful tracks. */
  lemma RoundTrip(t: Track, interval: int)
    ensures Parse(Build(t, interval)) == Some(Truncated(t)) <==> Faithful(t)
  {
    if t.events == [] {
      FormattedTimes(t.times);
      assert TruncateEvents(t.events) == t.events;
    } else {
      CollectionRoundTrip(t, interval);
    }
  }

  lemma CollectionRoundTrip(t: Track, interval: int)
    requires t.events != []
    ensures Parse(Build(t, interval)) == Some(Truncated(t)) <==> Faithful(t)
  {
    ParseHead(t, interval);
    ParseEventFeatures(HeadFeatures(t, interval), t.events);
    KeptEventsAll(t.events);
    var head := ParseFeatures(HeadFeatures(t, interval));
    var parsed := ParseFeatures(HeadFeatures(t, interval) + EventFeatures(t.events));
    assert parsed == head.(events := KeptEvents(t.events));
    assert parsed == Truncated(t) <==>
      head.name == t.name && head.times == TruncateTimes(t.times) && head.points == t.points
        && KeptEvents(t.events) == TruncateEvents(t.events);
  }

  lemma TruncatedTwice(t: Track)
    ensures Truncated(Truncated(t)) == Truncated(t)
    ensures Faithful(Truncated(t)) <==> Faithful(t)
  {
    var once := Truncated(t);
    assert TruncateTimes(once.times) == once.times;
    assert TruncateEvents(once.events) == once.events;
    if Named(once.events) {
      forall i | 0 <= i < |t.events| ensures t.events[i].kind != "" { assert once.events[i].kind != ""; }
    }
  }

  /** A second trip changes nothing more. */
  lemma SecondTripExact(t: Track, interval: int)
    requires Faithful(t)
    ensures Parse(Build(t, interval)) == Some(Truncated(t))
    ensures Parse(Build(Truncated(t), interval)) == Some(Truncated(t))
  {
    TruncatedTwice(t);
    RoundTrip(t, interval);
    RoundTrip(Truncated(t), interval);
  }

  // ----- documents read without the parser, and what the parser makes of any document

  /** The second an instant lies in. */
  predicate WholeSecond(second: int, at: int) {
    second % 1_000_000_000 == 0 && second <= at < second + 1_000_000_000
  }

  predicate Dated(s: Stamp, at: int) { s.Stamp? && WholeSecond(s.at, at) }

  /** A header gives a track's name, instants, ends, size and interval. */
  predicate Describes(p: Properties, t: Track, interval: int) {
    && p.name == t.name && p.pointCount == |t.points| && p.interval == interval && p.event == ""
    && |p.times| == |t.times| && (forall i :: 0 <= i < |t.times| ==> Dated(p.times[i], t.times[i]))
    && if t.times == [] then p.start.None? && p.end.None?
      else p.start == Some(p.times[0]) && p.end == Some(p.times[|t.times| - 1])
  }

  predicate Marks(f: Feature, e: Event) {
    f.properties.event == e.kind && Dated(f.properties.time, e.at) && f.geometry == Point(e.position)
  }

  lemma {:induction false} EventMarked(events: seq<Event>, i: nat)
    requires i < |events|
    ensures |EventFeatures(events)| == |events| && Marks(EventFeatures(events)[i], events[i])
  {
    if |events| > 1 { EventMarked(events[..|events| - 1], if i < |events| - 1 then i else 0); }
  }

  /** The feature of a track alone, or at the head of a collection, where a lone sample is a point. */
  predicate Heads(f: Feature, t: Track, interval: int, geometry: Geometry) {
    f.kind == "Feature" && f.geometry == geometry && Describes(f.properties, t, interval)
  }

  /** What a document says of its track: a line with the header, or in a collection a point for each event after it. */
  predicate Says(doc: Document, t: Track, interval: int) {
    if t.events == [] then doc.Single? && Heads(doc.feature, t, interval, LineString(t.points))
    else
      var n := if t.points == [] then 0 else 1;
      && doc.Collection? && |doc.features| == n + |t.events|
      && (n == 1 ==>
        Heads(doc.features[0], t, interval,
          if |t.points| == 1 then Point(t.points[0]) else LineString(t.points)))
      && forall i :: 0 <= i < |t.events| ==> Marks(doc.features[n + i], t.events[i])
  }

  lemma PrintedSays(t: Track, interval: int)
    ensures Says(Build(t, interval), t, interval)
  {
    assert Describes(TrackProperties(t, interval), t, interval);
    var doc := Build(t, interval);
    if t.events != [] {
      EventMarked(t.events, 0);
      var head := HeadFeatures(t, interval);
      forall i | 0 <= i < |t.events| ensures Marks(doc.features[|head| + i], t.events[i]) {
        EventMarked(t.events, i);
      }
    }
  }

  /** What a trip gives back: name, points and kinds as they were, every instant as its whole second. */
  lemma TripReads(t: Track, interval: int)
    requires Faithful(t)
    ensures var read := Parse(Build(t, interval));
      && read.Some? && read.value.name == t.name && read.value.points == t.points
      && |read.value.times| == |t.times| && |read.value.events| == |t.events|
      && (forall i :: 0 <= i < |t.times| ==> WholeSecond(read.value.times[i], t.times[i]))
      && forall i :: 0 <= i < |t.events| ==>
        && WholeSecond(read.value.events[i].at, t.events[i].at) && read.value.events[i].kind == t.events[i].kind
        && read.value.events[i].position == t.events[i].position
  {
    RoundTrip(t, interval);
  }

  /** The samples a feature stands for are a line with an instant for each position of two or three numbers. */
  predicate SamplesLine(f: Feature) {
    && f.kind == "Feature" && f.geometry.LineString? && |f.properties.times| == |f.geometry.coordinates|
    && forall i :: 0 <= i < |f.properties.times| ==>
      f.properties.times[i].Stamp? && 2 <= |f.geometry.coordinates[i]| <= 3
  }

  /** Or a dated point that is no event. */
  predicate SamplePoint(f: Feature) {
    && f.geometry.Point? && 2 <= |f.geometry.coordinate| <= 3 && f.properties.event == ""
    && |f.properties.times| == 1 && f.properties.times[0].Stamp?
  }

  predicate SamplesOf(f: Feature, times: seq<int>, points: seq<Position>) {
    && |times| == |f.properties.times| && (forall i :: 0 <= i < |times| ==> f.properties.times[i] == Stamp(times[i]))
    && if f.geometry.LineString? then points == f.geometry.coordinates
      else f.geometry.Point? && points == [f.geometry.coordinate]
  }

  lemma LineReads(f: Feature)
    ensures IsLine(f) <==> SamplesLine(f)
  {
  }

  /** A single feature is accepted exactly when it is such a line, and its samples and name are read off it. */
  lemma SingleReads(f: Feature)
    ensures Parse(Single(f)).Some? <==> SamplesLine(f)
    ensures SamplesLine(f) ==>
      && Parse(Single(f)).value.name == f.properties.name && Parse(Single(f)).value.events == []
      && SamplesOf(f, Parse(Single(f)).value.times, Parse(Single(f)).value.points)
  {
  }

  /** Of a collection the last feature with samples counts, and nothing is read of one without, or without a name. */
  lemma {:induction false} CollectionReads(fs: seq<Feature>, k: int)
    requires -1 <= k < |fs| && (k >= 0 ==> SamplesLine(fs[k]) || SamplePoint(fs[k]))
    requires forall j :: k < j < |fs| ==> !SamplesLine(fs[j]) && !SamplePoint(fs[j])
    ensures var read := ParseFeatures(fs);
      if k < 0 then read.name == "" && read.times == [] && read.points == []
      else read.name == fs[k].properties.name && SamplesOf(fs[k], read.times, read.points)
    ensures Parse(Collection(fs)).Some? <==> k >= 0 && fs[k].properties.name != ""
    ensures Parse(Collection(fs)).Some? ==> Parse(Collection(fs)).value == ParseFeatures(fs)
  {
    if fs != [] {
      var init, last := fs[..|fs| - 1], fs[|fs| - 1];
      LineReads(last);
      if k < |init| { CollectionReads(init, k); }
    }
  }

  /** And every other point with a kind and an instant adds an event, in order. */
  lemma EventRead(fs: seq<Feature>, f: Feature)
    ensures ParseFeatures(fs + [f]).events == ParseFeatures(fs).events +
      if f.geometry.Point? && f.properties.event != "" && f.properties.time.Stamp? then
        [Event(f.properties.event, f.properties.time.at, f.geometry.coordinate)]
      else []
  {
    assert (fs + [f])[..|fs|] == fs;
  }

  /** Every line string of a document has at least two positions, as section 3.1.4 of RFC 7946 requires. */
  predicate LinesLongEnough(doc: Document) {
    match doc
    case Single(f) => f.geometry.LineString? ==> |f.geometry.coordinates| >= 2
    case Collection(fs) => forall i :: 0 <= i < |fs| && fs[i].geometry.LineString? ==> |fs[i].geometry.coordinates| >= 2
    case Malformed => true
  }

  lemma {:induction false} EventFeaturesArePoints(events: seq<Event>, i: nat)
    requires i < |EventFeatures(events)|
    ensures EventFeatures(events)[i].geometry.Point?
  {
    if i < |EventFeatures(events)| - 1 { EventFeaturesArePoints(events[..|events| - 1], i); }
  }

  lemma BuiltLinesLongEnough(t: Track, interval: int)
    ensures LinesLongEnough(Build(t, interval)) <==> |t.points| >= 2 || t.events != []
  {
    if t.events != [] {
      var head, fs := HeadFeatures(t, interval), Build(t, interval).features;
      forall i | 0 <= i < |fs| && fs[i].geometry.LineString? ensures |fs[i].geometry.coordinates| >= 2 {
        if i >= |head| { EventFeaturesArePoints(t.events, i - |head|); }
      }
    }
  }
}
