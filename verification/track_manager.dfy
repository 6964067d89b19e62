/** service/tracking/manager.go: the active track and its files, with writes that may fail and roll back. */
module TrackManager {
  import opened Wrappers
  import GeoJson
  import Time = Instants

  /** humanTrackName for a start, an end and a numeric suffix (0 for none), and findDayTrack's prefix test. */
  datatype Names = Names(human: (int, int, nat) -> string, ofDay: (string, int) -> bool)

  /** Suffixes make names distinct, and a name carries the UTC day of its start. */
  ghost predicate Distinguishes(names: Names) {
    && (forall s, e, m: nat, n: nat :: names.human(s, e, m) == names.human(s, e, n) ==> m == n)
    && (forall s, e, n: nat :: names.human(s, e, n) != "" && names.ofDay(names.human(s, e, n), Day(s)))
    && forall day :: !names.ofDay("", day)
  }

  /** The UTC day. */
  function Day(at: int): int { at / 86_400_000_000_000 }

  lemma DayReads(at: int, day: int)
    ensures Day(at) == day <==> day * 24 * Time.HOUR <= at < (day + 1) * 24 * Time.HOUR
  {
  }

  datatype Active = Active(track: GeoJson.Track, day: int, daily: bool, suffix: nat)

  type Files = map<string, GeoJson.Document>

  predicate Writable(t: GeoJson.Track) { |t.points| >= 2 || t.events != [] }

  /** A track in memory, as recorded or as read from any file the parser accepts. */
  predicate Sound(t: GeoJson.Track) {
    |t.times| == |t.points| && GeoJson.AllPositional(t.points) && t.name != "" && GeoJson.Named(t.events)
  }

  /** A document this code writes; the directory may hold others. */
  ghost predicate Printed(doc: GeoJson.Document) {
    exists t, interval :: Sound(t) && Writable(t) && t.points != [] && doc == GeoJson.Build(t, interval)
  }

  /** Every document this code writes parses to a sound track and keeps to section 3.1.4 of RFC 7946. */
  lemma PrintedParses(doc: GeoJson.Document)
    requires Printed(doc)
    ensures GeoJson.Parse(doc).Some? && Sound(GeoJson.Parse(doc).value) && GeoJson.Parse(doc).value.points != []
    ensures GeoJson.LinesLongEnough(doc)
  {
    var t, interval :| Sound(t) && Writable(t) && t.points != [] && doc == GeoJson.Build(t, interval);
    GeoJson.RoundTrip(t, interval);
    GeoJson.BuiltLinesLongEnough(t, interval);
    var once := GeoJson.Truncated(t);
    forall i | 0 <= i < |once.events| ensures once.events[i].kind != "" { assert t.events[i].kind != ""; }
  }

  lemma {:induction false} FeaturesSound(fs: seq<GeoJson.Feature>)
    ensures var t := GeoJson.ParseFeatures(fs);
      |t.times| == |t.points| && GeoJson.AllPositional(t.points) && GeoJson.Named(t.events)
  {
    if fs != [] { FeaturesSound(fs[..|fs| - 1]); }
  }

  lemma ParsedSound(doc: GeoJson.Document, name: string)
    requires GeoJson.Parse(doc).Some? && name != ""
    ensures Sound(GeoJson.Parse(doc).value.(name := name))
  {
    if doc.Collection? { FeaturesSound(doc.features); }
  }

  // ----- what a track keeps of a document

  /** To whole seconds, the track starts with everything the parser reads of the document. */
  predicate Extends(t: GeoJson.Track, doc: GeoJson.Document) {
    var saved := GeoJson.Parse(doc);
    && saved.Some?
    && GeoJson.TruncateTimes(saved.value.times) <= GeoJson.TruncateTimes(t.times)
    && saved.value.points <= t.points
    && GeoJson.TruncateEvents(saved.value.events) <= GeoJson.TruncateEvents(t.events)
  }

  lemma ExtendsMore(t: GeoJson.Track, u: GeoJson.Track, doc: GeoJson.Document)
    requires Extends(t, doc) && Prolongs(u, t)
    ensures Extends(u, doc)
  {
    assert GeoJson.TruncateTimes(t.times) <= GeoJson.TruncateTimes(u.times);
    assert GeoJson.TruncateEvents(t.events) <= GeoJson.TruncateEvents(u.events);
  }

  lemma ExtendsOwn(t: GeoJson.Track, interval: int)
    requires Sound(t) && t.points != []
    ensures Extends(t, GeoJson.Build(t, interval))
  {
    GeoJson.RoundTrip(t, interval);
    GeoJson.TruncatedTwice(t);
  }

  predicate Prolongs(u: GeoJson.Track, t: GeoJson.Track) {
    t.times <= u.times && t.points <= u.points && t.events <= u.events
  }

  /** The track's next write would replace a file of its name that holds more than the track does, or is unreadable. */
  predicate Clobbers(files: Files, t: GeoJson.Track) {
    t.name in files && !Extends(t, files[t.name])
  }

  /** Each file is still there unchanged, or the track starts with everything it recorded, or it was moved aside. */
  ghost predicate Kept(before: Files, after: Files, moved: seq<GeoJson.Document>, t: GeoJson.Track) {
    forall name :: name in before ==>
      (name in after && after[name] == before[name]) || Extends(t, before[name]) || before[name] in moved
  }

  /** Files only change into prints of sound tracks. */
  ghost predicate ChangesPrinted(before: Files, after: Files) {
    forall name :: name in after ==> (name in before && after[name] == before[name]) || Printed(after[name])
  }

  ghost predicate OnlyChanges(before: Files, after: Files, own: string) {
    forall name :: name in before && name != own ==> name in after && after[name] == before[name]
  }

  /** The document is on disk under its present name, in place of its old name and of no other file. */
  predicate Moved(before: Files, from: string, after: Files, t: GeoJson.Track, interval: int) {
    t.name != "" && (t.name == from || t.name !in before)
      && after == (before - {from})[t.name := GeoJson.Build(t, interval)]
  }

  /** The new document was written under an unused name before the old one could not be removed. */
  ghost predicate Stranded(before: Files, after: Files, t: GeoJson.Track, interval: int) {
    exists name :: name != "" && name !in before && after == before[name := GeoJson.Build(t.(name := name), interval)]
  }

  /** What writing `u` over `before` may leave: the files after and the track in memory. */
  ghost predicate WriteOutcome(before: Files, u: GeoJson.Track, ok: bool, after: Files, w: GeoJson.Track,
          interval: int)
  {
    if !Writable(u) then ok && after == before && w == u
    else if ok then w == u.(name := w.name) && Moved(before, u.name, after, w, interval)
    else w == u && (after == before || Stranded(before, after, u, interval))
  }

  /**
   * A successful write changes no file but the track's own, and loses that exactly when the track does not extend it.
   */
  lemma MovedExact(before: Files, u: GeoJson.Track, after: Files, w: GeoJson.Track, interval: int)
    requires Sound(w) && Writable(w) && w.points != [] && w == u.(name := w.name)
    requires Moved(before, u.name, after, w, interval)
    ensures Kept(before, after, [], w) <==> !Clobbers(before, u)
    ensures !Clobbers(after, w) && ChangesPrinted(before, after) && OnlyChanges(before, after, u.name)
  {
    ExtendsOwn(w, interval);
    forall name | name in after ensures (name in before && after[name] == before[name]) || Printed(after[name]) {
      assert name != w.name ==> name in before && after[name] == before[name];
    }
    if u.name in before {
      assert Extends(w, before[u.name]) <==> Extends(u, before[u.name]);
      assert u.name in after && after[u.name] == before[u.name] ==> Extends(w, before[u.name]);
    }
  }

  lemma StrandedExact(before: Files, t: GeoJson.Track, u: GeoJson.Track, after: Files, interval: int)
    requires Sound(u) && Writable(u) && u.points != [] && t.name in before
    requires Stranded(before, after, u, interval)
    ensures Kept(before, after, [], t) && ChangesPrinted(before, after) && OnlyChanges(before, after, u.name)
    ensures Clobbers(after, t) <==> Clobbers(before, t)
  {
    var n :| n != "" && n !in before && after == before[n := GeoJson.Build(u.(name := n), interval)];
    assert Sound(u.(name := n));
    forall name | name in after ensures (name in before && after[name] == before[name]) || Printed(after[name]) {
      assert name != n ==> name in before && after[name] == before[name];
    }
  }

  /** A write loses recorded samples exactly when it succeeds over a file of its name that the track does not extend. */
  lemma WriteExact(before: Files, t: GeoJson.Track, u: GeoJson.Track, ok: bool, after: Files, w: GeoJson.Track,
          interval: int)
    requires Sound(t) && Sound(u) && u.points != [] && t.name == u.name && Prolongs(u, t)
    requires WriteOutcome(before, u, ok, after, w, interval)
    requires !ok && after != before ==> t.name in before
    ensures Kept(before, after, [], if ok then w else t) <==> !(ok && Writable(u) && Clobbers(before, u))
    ensures ChangesPrinted(before, after) && OnlyChanges(before, after, t.name) && Sound(w)
    ensures !Clobbers(before, t) || (ok && Writable(u)) ==> !Clobbers(after, if ok then w else t)
  {
    if t.name in before && Extends(t, before[t.name]) { ExtendsMore(t, u, before[t.name]); }
    if Writable(u) && ok {
      MovedExact(before, u, after, w, interval);
    } else if after != before {
      StrandedExact(before, t, u, after, interval);
    }
  }

  // ----- the files of a day

  /** The order in which a directory lists its entries. */
  predicate NotAfter(a: string, b: string) {
    a == "" || (b != "" && (a[0] < b[0] || (a[0] == b[0] && NotAfter(a[1..], b[1..]))))
  }

  lemma {:induction false} NotAfterTotal(a: string, b: string)
    ensures NotAfter(a, b) || NotAfter(b, a)
  {
    if a != "" && b != "" { NotAfterTotal(a[1..], b[1..]); }
  }

  lemma {:induction false} NotAfterTransitive(a: string, b: string, c: string)
    requires NotAfter(a, b) && NotAfter(b, c)
    ensures NotAfter(a, c)
  {
    if a != "" && a[0] == b[0] && b[0] == c[0] { NotAfterTransitive(a[1..], b[1..], c[1..]); }
  }

  /** The two names agree up to `k`, where the second goes on or has the greater letter. */
  predicate Precedes(a: string, b: string, k: nat) {
    k <= |a| && k <= |b| && a[..k] == b[..k] && (k == |a| || (k < |b| && a[k] < b[k]))
  }

  lemma {:induction false} NotAfterReads(a: string, b: string)
    ensures NotAfter(a, b) <==> exists k: nat :: Precedes(a, b, k)
  {
    if a == "" {
      assert Precedes(a, b, 0);
    } else if b != "" && a[0] == b[0] {
      NotAfterReads(a[1..], b[1..]);
      forall k: nat ensures Precedes(a[1..], b[1..], k) ==> Precedes(a, b, k + 1) {
        assert k < |a| && k < |b| ==> a[..k + 1] == [a[0]] + a[1..][..k] && b[..k + 1] == [b[0]] + b[1..][..k];
      }
      forall k: nat ensures Precedes(a, b, k) ==> k > 0 && Precedes(a[1..], b[1..], k - 1) {
        assert 0 < k <= |a| && k <= |b| ==> a[..k][1..] == a[1..][..k - 1] && b[..k][1..] == b[1..][..k - 1];
      }
    } else {
      assert NotAfter(a, b) ==> Precedes(a, b, 0);
      forall k: nat ensures Precedes(a, b, k) ==> k == 0 {
        assert 0 < k <= |a| && k <= |b| ==> a[..k][0] == a[0] && b[..k][0] == b[0];
      }
    }
  }

  predicate FirstOf(name: string, names: set<string>) {
    name in names && forall other :: other in names ==> NotAfter(name, other)
  }

  lemma {:induction false} FirstExists(names: set<string>)
    requires names != {}
    ensures exists name :: FirstOf(name, names)
    decreases |names|
  {
    var a :| a in names;
    var rest := names - {a};
    NotAfterTotal(a, a);
    if rest == {} {
      assert names == {a};
      assert FirstOf(a, names);
    } else {
      FirstExists(rest);
      var b :| FirstOf(b, rest);
      NotAfterTotal(a, b);
      forall other | other in names && NotAfter(a, b) ensures NotAfter(a, other) {
        if other != a { NotAfterTransitive(a, b, other); }
      }
      assert FirstOf(if NotAfter(a, b) then a else b, names);
    }
  }

  method ReadDir(files: Files) returns (entries: seq<string>)
    ensures forall name :: name in entries <==> name in files
    ensures forall i, j :: 0 <= i <= j < |entries| ==> NotAfter(entries[i], entries[j])
  {
    entries := [];
    var rest := files.Keys;
    while rest != {}
      invariant forall name :: name in files <==> name in entries || name in rest
      invariant forall name, other :: name in entries && other in rest ==> NotAfter(name, other)
      invariant forall i, j :: 0 <= i <= j < |entries| ==> NotAfter(entries[i], entries[j])
      decreases |rest|
    {
      FirstExists(rest);
      var next :| next in rest && FirstOf(next, rest);
      entries, rest := entries + [next], rest - {next};
    }
  }

  ghost predicate HasDay(names: Names, files: Files, day: int) {
    exists name :: name in files && names.ofDay(name, day)
  }

  /** The first file of the day by name. */
  ghost predicate FirstOfDay(names: Names, files: Files, day: int, name: string) {
    && name in files && names.ofDay(name, day)
    && forall other :: other in files && names.ofDay(other, day) ==> NotAfter(name, other)
  }

  /** Whether a day's file can be read, and whether it can be moved aside when its content does not parse. */
  datatype Access = Access(readable: bool, movable: bool)

  const FULL_ACCESS := Access(true, true)

  /**
   * The session that begins: over the day's first file if the session is daily and there is one, else under a free
   * name.
   */
  ghost predicate Begins(names: Names, before: Files, at: int, daily: bool, access: Access,
                         active: Active, ready: Files, moved: seq<GeoJson.Document>) {
    && active.day == Day(at) && active.daily == daily && Sound(active.track)
    && if daily && HasDay(names, before, Day(at)) then
         FirstOfDay(names, before, Day(at), active.track.name) && TakesUp(before, access, active.track, ready, moved)
       else
         Blank(active.track) && FreshName(names, before, at, daily, active) && ready == before && moved == []
  }

  /** The plain name of the instant, or the first suffix that is free; a daily session has no suffix. */
  ghost predicate FreshName(names: Names, files: Files, at: int, daily: bool, active: Active) {
    && active.track.name == names.human(at, at, active.suffix) && active.track.name !in files
    && (active.suffix != 0 ==> !daily && active.suffix >= 2 && names.human(at, at, 0) in files)
    && forall m: nat :: 2 <= m < active.suffix ==> names.human(at, at, m) in files
  }

  predicate Blank(t: GeoJson.Track) { t.times == [] && t.points == [] && t.events == [] }

  /**
   * Over an existing file: the track it parses to; else an empty track, with the file moved aside if it was read and
   * can be.
   */
  predicate TakesUp(before: Files, access: Access, t: GeoJson.Track, ready: Files, moved: seq<GeoJson.Document>)
    requires t.name in before
  {
    var doc := before[t.name];
    if access.readable && GeoJson.Parse(doc).Some? then
      SameSamples(t, GeoJson.Parse(doc).value) && ready == before && moved == []
    else if access.readable && access.movable then Blank(t) && ready == before - {t.name} && moved == [doc]
    else Blank(t) && ready == before && moved == []
  }

  /**
   * A new session threatens a file exactly when the day's file records something, and was neither read nor moved aside.
   */
  lemma BeginsClobbers(names: Names, before: Files, at: int, daily: bool, access: Access,
                       active: Active, ready: Files, moved: seq<GeoJson.Document>)
    requires Begins(names, before, at, daily, access, active, ready, moved)
    ensures Clobbers(ready, active.track) <==>
      && daily && HasDay(names, before, Day(at))
      && var doc := before[active.track.name];
        !Extends(GeoJson.BLANK, doc) && (!access.readable || (GeoJson.Parse(doc).None? && !access.movable))
    ensures Kept(before, ready, moved, active.track) && ChangesPrinted(before, ready)
    ensures moved != [] ==> active.track.name !in ready && moved == [before[active.track.name]]
  {
  }

  /** So when the day's file neither parses nor can be moved aside, the write of the second sample loses it. */
  lemma UnreadableOverwritten(names: Names, before: Files, at: int, active: Active, ready: Files,
          moved: seq<GeoJson.Document>,
                              u: GeoJson.Track, after: Files, w: GeoJson.Track, interval: int)
    requires Begins(names, before, at, true, Access(true, false), active, ready, moved)
    requires HasDay(names, before, Day(at)) && GeoJson.Parse(before[active.track.name]).None?
    requires Sound(u) && u.name == active.track.name && |u.points| >= 2
    requires WriteOutcome(ready, u, true, after, w, interval)
    ensures !Kept(before, after, moved, w)
    ensures active.track.name in after ==> after[active.track.name] != before[active.track.name]
  {
    MovedExact(ready, u, after, w, interval);
    if active.track.name in after { ExtendsOwn(w, interval); }
  }

  /** What recording `tried` leaves of the files: its write, or on failure what was there, a stray copy apart. */
  ghost predicate Wrote(ready: Files, tried: GeoJson.Track, recorded: bool, after: Files, present: GeoJson.Track,
                        interval: int) {
    if recorded then WriteOutcome(ready, tried, true, after, present, interval)
    else after == ready || Stranded(ready, after, tried, interval)
  }

  /** A recording over the session `session` and the files `ready`, reached from the files `before`. */
  ghost predicate Took(before: Files, ready: Files, moved: seq<GeoJson.Document>, session: Active,
                       after: Files, present: Active, recorded: bool) {
    && present.day == session.day && present.daily == session.daily
    && ChangesPrinted(before, after) && OnlyChanges(before, after, session.track.name)
    && (Kept(before, after, moved, present.track) <==> !Loses(ready, session, present, recorded))
    && (!Clobbers(ready, session.track) ==>
      !Clobbers(after, present.track) && !Loses(ready, session, present, recorded))
  }

  /** The write succeeded over a file the track does not extend. */
  predicate Loses(ready: Files, session: Active, present: Active, recorded: bool) {
    recorded && Writable(present.track) && Clobbers(ready, present.track.(name := session.track.name))
  }

  /** A file that was moved aside when the session began is not lost by its writes. */
  lemma TookThrough(before: Files, ready: Files, moved: seq<GeoJson.Document>, session: Active,
                    after: Files, present: Active, recorded: bool)
    requires
      || (ready == before && moved == [])
      || (session.track.name in before && ready == before - {session.track.name}
        && moved == [before[session.track.name]])
    requires Took(ready, ready, [], session, after, present, recorded)
    ensures Took(before, ready, moved, session, after, present, recorded)
  {
  }

  /** A write of `u` in place of the session's track, rolled back when it fails. */
  lemma WriteTook(before: Files, session: Active, u: GeoJson.Track, ok: bool, after: Files, w: Active, interval: int)
    requires Sound(session.track) && Sound(u) && u.points != [] && session.track.name == u.name
    requires Prolongs(u, session.track) && w.day == session.day && w.daily == session.daily
    requires WriteOutcome(before, u, ok, after, w.track, interval)
    requires !ok && after != before ==> session.track.name in before
    ensures var present := if ok then w else w.(track := session.track);
      && Sound(present.track) && Took(before, before, [], session, after, present, ok)
      && Wrote(before, u, ok, after, present.track, interval)
  {
    WriteExact(before, session.track, u, ok, after, w.track, interval);
  }

  // ----- names

  function EventStart(events: seq<GeoJson.Event>, start: int): int {
    if events == [] then start
    else
      var s := EventStart(events[..|events| - 1], start);
      if s == Time.ZERO_TIME || events[|events| - 1].at < s then events[|events| - 1].at else s
  }

  function EventEnd(events: seq<GeoJson.Event>, end: int): int {
    if events == [] then end
    else
      var e := EventEnd(events[..|events| - 1], end);
      if events[|events| - 1].at > e then events[|events| - 1].at else e
  }

  /**
   * trackTimeRange: the first and last instants of the samples, widened by the events; `now` when nothing has an
   * instant.
   */
  function TrackRange(t: GeoJson.Track, now: int): (int, int) {
    var start := EventStart(t.events, if t.times == [] then Time.ZERO_TIME else t.times[0]);
    var end := EventEnd(t.events, if t.times == [] then Time.ZERO_TIME else t.times[|t.times| - 1]);
    if start == Time.ZERO_TIME then (now, now) else (start, end)
  }

  predicate AllAfterZero(t: GeoJson.Track) {
    (forall i :: 0 <= i < |t.times| ==> t.times[i] > Time.ZERO_TIME) && forall i :: 0 <= i < |t.events| ==>
      t.events[i].at > Time.ZERO_TIME
  }

  lemma {:induction false} EventRangeBounds(events: seq<GeoJson.Event>, start: int, end: int)
    requires start >= Time.ZERO_TIME && forall i :: 0 <= i < |events| ==> events[i].at > Time.ZERO_TIME
    ensures start > Time.ZERO_TIME ==> EventStart(events, start) <= start
    ensures EventStart(events, start) >= Time.ZERO_TIME
    ensures EventStart(events, start) == Time.ZERO_TIME ==> events == [] && start == Time.ZERO_TIME
    ensures EventEnd(events, end) >= end
    ensures forall i :: 0 <= i < |events| ==> EventStart(events, start) <= events[i].at <= EventEnd(events, end)
    ensures EventStart(events, start) == start || exists i ::
      0 <= i < |events| && events[i].at == EventStart(events, start)
    ensures EventEnd(events, end) == end || exists i :: 0 <= i < |events| && events[i].at == EventEnd(events, end)
  {
    if events != [] { EventRangeBounds(events[..|events| - 1], start, end); }
  }

  predicate Occurs(t: GeoJson.Track, at: int) {
    (exists i :: 0 <= i < |t.times| && t.times[i] == at) || exists i :: 0 <= i < |t.events| && t.events[i].at == at
  }

  /** The range covers every sample and event of a track in time order, and begins and ends at one of them. */
  lemma RangeCovers(t: GeoJson.Track, now: int)
    requires AllAfterZero(t) && (t.times != [] || t.events != [])
    requires forall i :: 0 <= i < |t.times| ==> t.times[0] <= t.times[i] <= t.times[|t.times| - 1]
    ensures forall i :: 0 <= i < |t.times| ==> TrackRange(t, now).0 <= t.times[i] <= TrackRange(t, now).1
    ensures forall i :: 0 <= i < |t.events| ==> TrackRange(t, now).0 <= t.events[i].at <= TrackRange(t, now).1
    ensures Occurs(t, TrackRange(t, now).0) && Occurs(t, TrackRange(t, now).1)
  {
    EventRangeBounds(t.events, if t.times == [] then Time.ZERO_TIME else t.times[0],
      if t.times == [] then Time.ZERO_TIME else t.times[|t.times| - 1]);
  }

  method TrackTimeRange(t: GeoJson.Track, now: int) returns (start: int, end: int)
    ensures (start, end) == TrackRange(t, now)
  {
    start, end := Time.ZERO_TIME, Time.ZERO_TIME;
    if |t.times| > 0 {
      start, end := t.times[0], t.times[|t.times| - 1];
    }
    ghost var first, last := start, end;
    for i := 0 to |t.events|
      invariant start == EventStart(t.events[..i], first) && end == EventEnd(t.events[..i], last)
    {
      assert t.events[..i + 1][..i] == t.events[..i];
      if start == Time.ZERO_TIME || t.events[i].at < start { start := t.events[i].at; }
      if t.events[i].at > end { end := t.events[i].at; }
    }
    assert t.events[..|t.events|] == t.events;
    if start == Time.ZERO_TIME {
      start, end := now, now;
    }
  }

  /** Only finitely many suffixes can be taken. */
  lemma {:induction false} SuffixesFit(names: Names, start: int, end: int, taken: set<string>, n: nat)
    requires Distinguishes(names) && n >= 2
    requires forall m: nat :: 2 <= m < n ==> names.human(start, end, m) in taken
    ensures n - 2 <= |taken|
  {
    if n > 2 {
      var last := names.human(start, end, n - 1);
      assert last in taken;
      forall m: nat | 2 <= m < n - 1 ensures names.human(start, end, m) in taken - {last} {
        assert names.human(start, end, m) in taken;
      }
      SuffixesFit(names, start, end, taken - {last}, n - 1);
    }
  }

  method FirstFreeSuffix(names: Names, disk: Files, start: int, end: int) returns (n: nat)
    requires Distinguishes(names)
    ensures n >= 2 && names.human(start, end, n) !in disk
    ensures forall m: nat :: 2 <= m < n ==> names.human(start, end, m) in disk
  {
    n := 2;
    while names.human(start, end, n) in disk
      invariant n >= 2
      invariant forall m: nat :: 2 <= m < n ==> names.human(start, end, m) in disk
      decreases |disk.Keys| + 3 - n
    {
      n := n + 1;
      SuffixesFit(names, start, end, disk.Keys, n);
    }
  }

  // ----- writing

  /** The suffix stays unless another file has the name with it, and then is the first free one from 2. */
  ghost predicate SuffixChosen(names: Names, disk: Files, t: GeoJson.Track, suffix: nat, now: int, n: nat) {
    var (start, end) := TrackRange(t, now);
    if names.human(start, end, suffix) == t.name || names.human(start, end, suffix) !in disk then n == suffix
    else
      && n >= 2 && names.human(start, end, n) !in disk
      && forall m: nat :: 2 <= m < n ==> names.human(start, end, m) in disk
  }

  datatype Fault = NoFault | BeforeRename | AtRemove

  class Manager {
    const names: Names
    var whenEngineOn: bool
    var interval: int
    var engineOn: Option<bool>
    var track: Option<Active>
    var disk: Files
    var aside: seq<GeoJson.Document>   // files renamed out of the way
    var lastSampleAt: Option<int>

    /** Whatever the directory holds. */
    ghost predicate Valid()
      reads this
    {
      Distinguishes(names) && (track.Some? ==> Sound(track.value.track))
    }

    /** The session extends its own file, so no write of it loses anything. */
    predicate Guarded()
      reads this
    {
      track.Some? ==> !Clobbers(disk, track.value.track)
    }

    constructor (names: Names, disk: Files)
      requires Distinguishes(names)
      ensures Valid() && Guarded() && this.disk == disk && track.None? && this.names == names && aside == []
    {
      this.names, this.disk := names, disk;
      whenEngineOn, interval, engineOn, track, aside, lastSampleAt := false, 0, None, None, [], None;
    }

    /** The name for the track's present range: the old suffix unless that would take another file's name. */
    method ChooseName(t: GeoJson.Track, suffix: nat, now: int) returns (name: string, n: nat)
      requires Distinguishes(names)
      ensures name == names.human(TrackRange(t, now).0, TrackRange(t, now).1, n)
      ensures name == t.name || name !in disk
      ensures SuffixChosen(names, disk, t, suffix, now, n)
    {
      var start, end := TrackTimeRange(t, now);
      n := suffix;
      if names.human(start, end, n) != t.name && names.human(start, end, n) in disk {
        n := FirstFreeSuffix(names, disk, start, end);
      }
      name := names.human(start, end, n);
    }

    /**
     * A failed write leaves the track as it was, suffix apart; a successful one moves its file and overwrites no other.
     */
    method WriteTrack(now: int, fault: Fault) returns (ok: bool)
      requires track.Some? && Distinguishes(names)
      modifies this`track, this`disk
      ensures track.Some? && track.value == old(track.value).(track := track.value.track, suffix := track.value.suffix)
      ensures WriteOutcome(old(disk), old(track.value.track), ok, disk, track.value.track, interval)
      ensures ok && Writable(track.value.track) ==>
        track.value.track.name == names.human(TrackRange(old(track.value.track), now).0,
          TrackRange(old(track.value.track), now).1, track.value.suffix)
      ensures Writable(old(track.value.track)) ==>
        SuffixChosen(names, old(disk), old(track.value.track), old(track.value.suffix), now, track.value.suffix)
      ensures !Writable(old(track.value.track)) ==> track == old(track)
      ensures !ok ==> fault != NoFault
      ensures !ok && disk != old(disk) ==> old(track.value.track.name) in old(disk)
    {
      var t := track.value.track;
      if |t.points| < 2 && |t.events| == 0 { return true; }
      var name, n := ChooseName(t, track.value.suffix, now);
      track := Some(track.value.(suffix := n));
      var doc := GeoJson.BuildGeoJson(t.(name := name), interval);
      if fault == BeforeRename { return false; }
      disk := disk[name := doc];
      if t.name != name {
        if fault == AtRemove && t.name in disk {
          assert Stranded(old(disk), disk, t, interval);
          return false;
        }
        disk := disk - {t.name};
      }
      track := Some(track.value.(track := t.(name := name)));
      return true;
    }

    method FindDayTrack(day: int) returns (name: Option<string>)
      ensures name.Some? ==> FirstOfDay(names, disk, day, name.value)
      ensures name.None? ==> !HasDay(names, disk, day)
    {
      var entries := ReadDir(disk);
      for i := 0 to |entries|
        invariant forall j :: 0 <= j < i ==> !names.ofDay(entries[j], day)
      {
        if names.ofDay(entries[i], day) {
          FirstEntry(names, disk, day, entries, i);
          return Some(entries[i]);
        }
      }
      return None;
    }

    /**
     * A daily session takes up the day's first file where it left off; an unreadable one is moved aside when that
     * succeeds.
     */
    method BeginSession(at: int, daily: bool, access: Access) returns (ghost moved: seq<GeoJson.Document>)
      requires Distinguishes(names)
      modifies this`track, this`disk, this`aside
      ensures Valid() && track.Some? && Begins(names, old(disk), at, daily, access, track.value, disk, moved)
      ensures aside == old(aside) + moved
      ensures Clobbers(disk, track.value.track) <==>
        && daily && HasDay(names, old(disk), Day(at))
        && var doc := old(disk)[track.value.track.name];
          !Extends(GeoJson.BLANK, doc) && (!access.readable || (GeoJson.Parse(doc).None? && !access.movable))
      ensures Kept(old(disk), disk, moved, track.value.track)
    {
      var day := Day(at);
      var suffix := 0;
      var name := names.human(at, at, 0);
      moved := [];
      if daily {
        var existing := FindDayTrack(day);
        if existing.Some? { name := existing.value; }
      } else if name in disk {
        suffix := FirstFreeSuffix(names, disk, at, at);
        name := names.human(at, at, suffix);
      }
      track := Some(Active(GeoJson.BLANK.(name := name), day, daily, suffix));
      if daily && name in disk && access.readable {
        var loaded := GeoJson.ParseActiveTrack(disk[name]);
        if loaded.Some? {
          ParsedSound(disk[name], name);
          track := Some(Active(loaded.value.(name := name), day, daily, suffix));
        } else if access.movable {
          moved := [disk[name]];
          aside, disk := aside + [disk[name]], disk - {name};
        }
      }
      BeginsClobbers(names, old(disk), at, daily, access, track.value, disk, moved);
    }

    /** A sample is appended and written, or the track is rolled back. */
    method AppendSample(fix: GeoJson.Position, at: int, now: int, access: Access, fault: Fault)
      returns (recorded: bool, ghost session: Option<Active>, ghost ready: Files, ghost moved: seq<GeoJson.Document>)
      requires Valid() && GeoJson.Positional(fix)
      modifies this`track, this`disk, this`aside, this`lastSampleAt
      ensures Valid() && aside == old(aside) + moved
      ensures session.None? <==> old(track).None? && !whenEngineOn
      ensures old(track.Some? && track.value.day == Day(at)) ==>
        session == old(track) && ready == old(disk) && moved == []
      ensures session.Some? && !old(track.Some? && track.value.day == Day(at)) ==>
        Begins(names, old(disk), at, old(track).Some? ==> old(track).value.daily, access, session.value, ready, moved)
      ensures session.None? ==> !recorded && track.None? && disk == old(disk) && moved == []
      ensures session.Some? ==> track.Some? && Took(old(disk), ready, moved, session.value, disk, track.value, recorded)
      ensures session.Some? ==>
        Wrote(ready, WithSample(session.value.track, fix, at), recorded, disk, track.value.track, interval)
      ensures session.Some? ==>
        SameSamples(track.value.track,
          if recorded then WithSample(session.value.track, fix, at) else session.value.track)
      ensures recorded ==> lastSampleAt == Some(at) && (Writable(track.value.track) ==> OnDisk())
      ensures !recorded ==> lastSampleAt == old(lastSampleAt)
      ensures fault == NoFault ==> (recorded <==> session.Some?)
      ensures old(Guarded()) && access == FULL_ACCESS ==> Guarded()
      ensures old(Guarded()) && access == FULL_ACCESS && track.Some? ==> Kept(old(disk), disk, moved, track.value.track)
    {
      session, ready, moved := track, disk, [];
      if whenEngineOn && track.None? { moved := BeginSession(at, true, access); }
      if track.None? { recorded := false; return; }
      if Day(at) != track.value.day { moved := BeginSession(at, track.value.daily, access); }
      session, ready := track, disk;
      recorded := RecordSample(fix, at, now, fault);
      TookThrough(old(disk), ready, moved, session.value, disk, track.value, recorded);
      if recorded { lastSampleAt := Some(at); }
    }

    method RecordSample(fix: GeoJson.Position, at: int, now: int, fault: Fault) returns (recorded: bool)
      requires Valid() && GeoJson.Positional(fix) && track.Some?
      modifies this`track, this`disk
      ensures Valid() && track.Some? && Took(old(disk), old(disk), [], old(track).value, disk, track.value, recorded)
      ensures Wrote(old(disk), WithSample(old(track.value.track), fix, at), recorded, disk, track.value.track, interval)
      ensures SameSamples(track.value.track,
        if recorded then WithSample(old(track.value.track), fix, at) else old(track.value.track))
      ensures recorded && Writable(track.value.track) ==> OnDisk()
      ensures fault == NoFault ==> recorded
    {
      var t := track.value.track;
      track := Some(track.value.(track := t.(points := t.points + [fix], times := t.times + [at])));
      recorded := WriteTrack(now, fault);
      WriteTook(old(disk), old(track).value, WithSample(t, fix, at), recorded, disk, track.value, interval);
      if !recorded {
        var u := track.value.track;
        track := Some(track.value.(track := u.(points := u.points[..|u.points| - 1],
          times := u.times[..|u.times| - 1])));
        assert track.value.track == t;
      }
    }

    /** An event is recorded at the last position; without one it is dropped. */
    method AppendEvent(at: int, kind: string, now: int, access: Access, fault: Fault)
      returns (recorded: bool, ghost session: Active, ghost ready: Files, ghost moved: seq<GeoJson.Document>)
      requires Valid() && kind != ""
      modifies this`track, this`disk, this`aside
      ensures Valid() && track.Some? && aside == old(aside) + moved
      ensures if old(track.Some? && track.value.day == Day(at)) then Some(session) == old(track) && ready == old(disk)
        && moved == []
        else Begins(names, old(disk), at, true, access, session, ready, moved)
      ensures Took(old(disk), ready, moved, session, disk, track.value, recorded)
      ensures Wrote(ready, WithEvent(session.track, kind, at), recorded, disk, track.value.track, interval)
      ensures SameSamples(track.value.track, if recorded then WithEvent(session.track, kind, at) else session.track)
      ensures recorded ==> OnDisk()
      ensures fault == NoFault ==> (recorded <==> session.track.points != [])
      ensures old(Guarded()) && access == FULL_ACCESS ==> Guarded() && Kept(old(disk), disk, moved, track.value.track)
    {
      moved := [];
      if track.None? { moved := BeginSession(at, true, access); }
      if Day(at) != track.value.day { moved := BeginSession(at, true, access); }
      session, ready, recorded := track.value, disk, false;
      if |track.value.track.points| == 0 { return; }
      recorded := RecordEvent(at, kind, now, fault);
      TookThrough(old(disk), ready, moved, session, disk, track.value, recorded);
    }

    method RecordEvent(at: int, kind: string, now: int, fault: Fault) returns (recorded: bool)
      requires Valid() && kind != "" && track.Some? && track.value.track.points != []
      modifies this`track, this`disk
      ensures Valid() && track.Some? && Took(old(disk), old(disk), [], old(track).value, disk, track.value, recorded)
      ensures Wrote(old(disk), WithEvent(old(track.value.track), kind, at), recorded, disk, track.value.track, interval)
      ensures SameSamples(track.value.track,
        if recorded then WithEvent(old(track.value.track), kind, at) else old(track.value.track))
      ensures recorded ==> OnDisk()
      ensures fault == NoFault ==> recorded
    {
      var t := track.value.track;
      track := Some(track.value.(track := t.(events := t.events +
        [GeoJson.Event(kind, at, t.points[|t.points| - 1])])));
      recorded := WriteTrack(now, fault);
      WriteTook(old(disk), old(track).value, WithEvent(t, kind, at), recorded, disk, track.value, interval);
      if !recorded {
        var u := track.value.track;
        track := Some(track.value.(track := u.(events := u.events[..|u.events| - 1])));
        assert track.value.track == t;
      }
    }

    /** A daily session begins and is marked. */
    method EngineStarted(at: int, now: int, access: Access, fault: Fault)
      returns (recorded: bool, ghost session: Active, ghost ready: Files, ghost moved: seq<GeoJson.Document>)
      requires Valid()
      modifies this`track, this`disk, this`aside
      ensures Valid() && track.Some? && aside == old(aside) + moved
      ensures Begins(names, old(disk), at, true, access, session, ready, moved)
      ensures Took(old(disk), ready, moved, session, disk, track.value, recorded)
      ensures Wrote(ready, WithEvent(session.track, "engine_on", at), recorded, disk, track.value.track, interval)
      ensures SameSamples(track.value.track,
        if recorded then WithEvent(session.track, "engine_on", at) else session.track)
      ensures fault == NoFault ==> (recorded <==> session.track.points != [])
      ensures access == FULL_ACCESS ==> Guarded() && Kept(old(disk), disk, moved, track.value.track)
    {
      ghost var again, over, files;
      moved := BeginSession(at, true, access);
      session, ready := track.value, disk;
      recorded, again, over, files := AppendEvent(at, "engine_on", now, access, fault);
      TookThrough(old(disk), ready, moved, session, disk, track.value, recorded);
    }

    /** The engine signal starts and marks daily sessions; only changes count. */
    method ObserveEngine(on: bool, at: int, now: int, access: Access, fault: Fault)
      returns (recorded: bool, ghost session: Option<Active>, ghost ready: Files, ghost moved: seq<GeoJson.Document>)
      requires Valid()
      modifies this`track, this`disk, this`aside, this`engineOn
      ensures Valid() && engineOn == Some(on) && aside == old(aside) + moved
      ensures session.None? <==> old(engineOn) == Some(on) || !whenEngineOn
      ensures session.None? ==> track == old(track) && disk == old(disk) && !recorded && moved == []
      ensures session.Some? ==>
        if !on && old(track.Some? && track.value.day == Day(at)) then
          session == old(track) && ready == old(disk) && moved == []
        else Begins(names, old(disk), at, true, access, session.value, ready, moved)
      ensures session.Some? ==> track.Some? && Took(old(disk), ready, moved, session.value, disk, track.value, recorded)
      ensures session.Some? ==>
        Wrote(ready, WithEvent(session.value.track, if on then "engine_on" else "engine_off", at), recorded, disk,
          track.value.track, interval)
      ensures session.Some? ==> SameSamples(track.value.track,
        if recorded then WithEvent(session.value.track, if on then "engine_on" else "engine_off", at)
        else session.value.track)
      ensures fault == NoFault ==> (recorded <==> session.Some? && session.value.track.points != [])
      ensures old(Guarded()) && access == FULL_ACCESS ==> Guarded()
      ensures old(Guarded()) && access == FULL_ACCESS && session.Some? ==>
        Kept(old(disk), disk, moved, track.value.track)
    {
      recorded, session, ready, moved := false, None, disk, [];
      if engineOn == Some(on) { return; }
      engineOn := Some(on);
      if !whenEngineOn { return; }
      if on {
        ghost var own;
        recorded, own, ready, moved := EngineStarted(at, now, access, fault);
        session := Some(own);
      } else {
        ghost var own;
        recorded, own, ready, moved := AppendEvent(at, "engine_off", now, access, fault);
        session := Some(own);
      }
    }

    /** Polling is gated on the engine or on a session in progress. */
    method Sample(fix: Option<GeoJson.Position>, at: int, now: int, access: Access, fault: Fault)
      returns (recorded: bool, ghost session: Option<Active>, ghost ready: Files, ghost moved: seq<GeoJson.Document>)
      requires Valid() && (fix.Some? ==> GeoJson.Positional(fix.value))
      modifies this`track, this`disk, this`aside, this`lastSampleAt
      ensures Valid() && aside == old(aside) + moved
      ensures session.Some? <==> fix.Some? && if whenEngineOn then engineOn == Some(true) else old(track).Some?
      ensures session.None? ==> !recorded && track == old(track) && disk == old(disk) && moved == []
      ensures session.Some? && old(track.Some? && track.value.day == Day(at)) ==>
        session == old(track) && ready == old(disk) && moved == []
      ensures session.Some? && !old(track.Some? && track.value.day == Day(at)) ==>
        Begins(names, old(disk), at, old(track).Some? ==> old(track).value.daily, access, session.value, ready, moved)
      ensures session.Some? ==> track.Some? && Took(old(disk), ready, moved, session.value, disk, track.value, recorded)
      ensures session.Some? ==>
        Wrote(ready, WithSample(session.value.track, fix.value, at), recorded, disk, track.value.track, interval)
      ensures session.Some? ==>
        SameSamples(track.value.track,
          if recorded then WithSample(session.value.track, fix.value, at) else session.value.track)
      ensures fault == NoFault ==> (recorded <==> session.Some?)
      ensures old(Guarded()) && access == FULL_ACCESS ==> Guarded()
    {
      recorded, session, ready, moved := false, None, disk, [];
      if whenEngineOn && engineOn != Some(true) { return; }
      if !whenEngineOn && track.None? { return; }
      if fix.None? { return; }
      recorded, session, ready, moved := AppendSample(fix.value, at, now, access, fault);
    }

    method StartRecording(at: int)
      requires Valid()
      modifies this`track, this`disk, this`aside
      ensures Valid() && track.Some? && disk == old(disk) && aside == old(aside)
      ensures old(track).Some? ==> track == old(track)
      ensures old(track).None? ==> Begins(names, old(disk), at, false, FULL_ACCESS, track.value, disk, [])
      ensures old(Guarded()) ==> Guarded()
    {
      ghost var moved;
      if track.None? { moved := BeginSession(at, false, FULL_ACCESS); }
    }

    method StopRecording()
      requires Valid()
      modifies this`track
      ensures Valid() && track.None?
    {
      track := None;
    }

    method Configure(whenEngineOn: bool, interval: int)
      requires Valid()
      modifies this`track, this`whenEngineOn, this`interval
      ensures Valid() && this.whenEngineOn == whenEngineOn && this.interval == interval
      ensures track == if whenEngineOn == old(this.whenEngineOn) then old(track) else None
    {
      if whenEngineOn != this.whenEngineOn { track := None; }
      this.whenEngineOn, this.interval := whenEngineOn, interval;
    }

    /** Deleting the active track's file ends the session, so a later sample cannot bring it back. */
    method Delete(name: string) returns (ok: bool)
      requires Valid()
      modifies this`track, this`disk
      ensures Valid() && disk == old(disk) - {name} && ok == (name in old(disk))
      ensures track == if ok && old(track).Some? && old(track).value.track.name == name then None else old(track)
      ensures old(Guarded()) ==> Guarded()
    {
      if name !in disk {
        assert disk - {name} == disk;
        return false;
      }
      disk := disk - {name};
      if track.Some? && track.value.track.name == name { track := None; }
      return true;
    }

    ghost predicate OnDisk()
      reads this
    {
      track.Some? && track.value.track.name in disk
        && disk[track.value.track.name] == GeoJson.Build(track.value.track, interval)
    }

  }

  lemma FirstEntry(names: Names, files: Files, day: int, entries: seq<string>, i: nat)
    requires i < |entries| && names.ofDay(entries[i], day)
    requires forall name :: name in entries <==> name in files
    requires forall k, j :: 0 <= k <= j < |entries| ==> NotAfter(entries[k], entries[j])
    requires forall j :: 0 <= j < i ==> !names.ofDay(entries[j], day)
    ensures FirstOfDay(names, files, day, entries[i])
  {
    forall other | other in files && names.ofDay(other, day) ensures NotAfter(entries[i], other) {
      var j :| 0 <= j < |entries| && entries[j] == other;
    }
  }

  predicate SameSamples(t: GeoJson.Track, u: GeoJson.Track) {
    t.times == u.times && t.points == u.points && t.events == u.events
  }

  function WithSample(t: GeoJson.Track, fix: GeoJson.Position, at: int): GeoJson.Track {
    t.(points := t.points + [fix], times := t.times + [at])
  }

  function WithEvent(t: GeoJson.Track, kind: string, at: int): GeoJson.Track {
    if t.points == [] then t else t.(events := t.events + [GeoJson.Event(kind, at, t.points[|t.points| - 1])])
  }

  /** What a file made after recording a fix or an event says of it, when parsed: it comes last, to the second. */
  lemma RecordedSampleReads(t: GeoJson.Track, fix: GeoJson.Position, at: int, interval: int)
    requires Sound(t) && GeoJson.Positional(fix)
    ensures var read := GeoJson.Parse(GeoJson.Build(WithSample(t, fix, at), interval));
      && read.Some? && |read.value.times| == |read.value.points| == |t.points| + 1
      && |read.value.events| == |t.events|
      && read.value.points == t.points + [fix] && GeoJson.WholeSecond(read.value.times[|t.times|], at)
      && forall i :: 0 <= i < |t.times| ==> GeoJson.WholeSecond(read.value.times[i], t.times[i])
  {
    var u := WithSample(t, fix, at);
    GeoJson.TripReads(u, interval);
    assert u.times[|t.times|] == at && forall i :: 0 <= i < |t.times| ==> u.times[i] == t.times[i];
  }

  lemma RecordedEventReads(t: GeoJson.Track, kind: string, at: int, interval: int)
    requires Sound(t) && t.points != [] && kind != ""
    ensures var read := GeoJson.Parse(GeoJson.Build(WithEvent(t, kind, at), interval));
      && read.Some? && read.value.points == t.points && |read.value.times| == |t.times|
      && |read.value.events| == |t.events| + 1
      && var last := read.value.events[|t.events|];
        last.kind == kind && GeoJson.WholeSecond(last.at, at) && last.position == t.points[|t.points| - 1]
  {
    var u := WithEvent(t, kind, at);
    assert GeoJson.Named(u.events);
    GeoJson.TripReads(u, interval);
    assert u.events[|t.events|] == GeoJson.Event(kind, at, t.points[|t.points| - 1]);
  }
}
