/** service/waterhistory/store.go: the store object over its files, with writes that may fail and restarts. */
module WaterStore {
  import opened Wrappers
  import opened Instants
  import opened WaterPoints
  import opened WaterChart
  import opened WaterLevels
  import opened WaterRuns
  import WaterArchive
  import Sorting

  /**
   * What survives a crash. `writesLeft` is the environment's choice of which write fails; `run` is what has been done
   * to the sample file and the archive since the disk was new.
   */
  class Disk {
    var samples: seq<Point>
    var chart: Option<ChartFile>
    var hourly: WaterArchive.Files
    var events: seq<Event>
    var state: Option<State>
    var writesLeft: nat
    ghost var run: seq<Entry>

    constructor (writes: nat)
      ensures samples == [] && chart == None && hourly == map[] && events == [] && state == None
      ensures writesLeft == writes && run == []
    {
      samples, chart, hourly, events, state, run := [], None, map[], [], None, [];
      writesLeft := writes;
    }

    function Files(): Held
      reads this
    {
      Held(samples, hourly)
    }

    /** Kept at every instant, whatever has failed before: the files are what the run leaves. */
    ghost predicate Traced(month: int -> string)
      reads this
    {
      IsRun(month, run) && End(run) == Files()
    }

    /** Besides, the chart file only lacks at the very first sample. */
    predicate Charted()
      reads this
    {
      chart.None? ==> |samples| <= 1
    }
  }

  /** So the files hold, for every hour that the run did not lose, the reading of everything it put on them. */
  lemma HistoryKept(disk: Disk, month: int -> string, h: int)
    requires WaterArchive.Calendar(month) && disk.Traced(month) && h % HOUR == 0
    requires !Lost(disk.run, h)
    ensures WaterArchive.HourOnDisk(month, disk.samples, disk.hourly, h) ==
      BucketFold(History(month, disk.run), h, HOUR)
  {
    RunConserves(month, disk.run, h);
  }

  /** The persisted chart is the chart of all logged samples but at most the last. */
  ghost predicate Recoverable(log: seq<Point>, chart: Option<ChartFile>) {
    if chart.None? then |log| <= 1
    else
      || chart.value == Persisted(ChartFold(log))
      || (log != [] && chart.value == Persisted(ChartFold(log[..|log| - 1])))
  }

  /** And a restart from there replays in time. */
  ghost predicate Resumable(log: seq<Point>, chart: Option<ChartFile>) {
    if chart.None? then |log| <= 1
    else
      || chart.value == Persisted(ChartFold(log))
      || (log != [] && chart.value == Persisted(ChartFold(log[..|log| - 1])) && Resumes(log, |log| - 1))
  }

  ghost predicate ChartSynced(chart: Chart, log: seq<Point>, file: Option<ChartFile>) {
    && chart == ChartFold(log)
    && (if file.None? then log == [] else file.value == Persisted(chart))
  }

  /** The in-memory suffix ends where the file does. */
  ghost predicate SuffixOf(samples: seq<Point>, file: seq<Point>) {
    && (samples == [] <==> file == [])
    && (Spaced(file) && file != [] ==> samples[|samples| - 1] == file[|file| - 1])
  }

  /** What storing one more sample does to the chart, the chart file and the spacing of the log. */
  lemma StoringCarries(chart: Chart, log: seq<Point>, file: Option<ChartFile>, p: Point)
    requires ChartSynced(chart, log, file) && InRange(chart)
    ensures Recoverable(log, file) && Recoverable(log + [p], file)
    ensures ChartSynced(Process(chart, p), log + [p], Some(Persisted(Process(chart, p))))
    ensures Recoverable(log + [p], Some(Persisted(Process(chart, p))))
  {
    assert (log + [p])[..|log + [p]| - 1] == log;
    ProcessAllStep(EMPTY_CHART, log, p);
  }

  /** The chart rebuilt from a chart file over loaded samples, written back when the replay added any. */
  predicate Replayed(file: ChartFile, loaded: seq<Point>, chart: Chart, written: Option<ChartFile>) {
    && chart == Restored(file, loaded)
    && written == Some(if ReplayFrom(loaded, file.throughAt, 0) < |loaded| then Persisted(chart) else file)
  }

  /**
   * A restart over a disk whose chart file is current, or one sample behind and resumed in time, rebuilds its chart.
   */
  lemma RestartExact(log: seq<Point>, file: ChartFile, chart: Chart, written: Option<ChartFile>)
    requires Resumable(log, Some(file))
    requires Replayed(file, log, chart, written)
    ensures ChartSynced(chart, log, written)
  {
    var k := if file == Persisted(ChartFold(log)) then |log| else |log| - 1;
    assert log[..|log|] == log;
    RestartRestores(log, k);
    ThroughIsLast(log[..k]);
    ReplaySkipsCovered(log, k);
  }

  /** The chart that Compact writes: that of the compacted samples, without the points before the cutoff. */
  function Recharted(recent: seq<Point>, cutoff: int): (r: Chart)
    ensures InRange(r) && forall q :: q in r.samples ==> cutoff <= q.at
  {
    var c := ChartFold(recent);
    var kept := Since(c.samples, cutoff);
    IndexInRange(kept);
    SinceMembers(c.samples, cutoff);
    c.(samples := kept, buckets := IndexOf(kept))
  }

  /** The sample is worth storing after those in `s`. */
  predicate StoredAfter(s: seq<Point>, p: Point) { s == [] || ShouldStore(s[|s| - 1], p) }

  /** The samples file after an observation, stored or not by what memory holds. */
  function Appended(memory: seq<Point>, log: seq<Point>, a: Admission): seq<Point> {
    if a.Admitted? && StoredAfter(memory, a.point) then log + [a.point] else log
  }

  /**
   * The samples file after an observation: the admitted point is stored when it differs from the last or is a heartbeat
   * after it.
   */
  function LogAfter(log: seq<Point>, a: Admission): seq<Point> { Appended(log, log, a) }

  /**
   * Memory after an observation: the sample is appended before anything is written, and the rest trimmed at the end.
   */
  predicate MemoryAfter(before: seq<Point>, after: seq<Point>, a: Admission, ok: bool) {
    if !a.Admitted? || !StoredAfter(before, a.point) then after == before
    else
      || after == Since(before + [a.point], a.point.at - AVERAGE_WINDOW)
      || (!ok && after == before + [a.point])
  }

  /** Files and run are as they were, or the admitted sample has been appended. */
  predicate FilesAfter(was: Held, run: seq<Entry>, now: Held, after: seq<Entry>, a: Admission) {
    if a.Admitted? then Grew(was, run, now, after, a.point) else now == was && after == run
  }

  /** Of the events added in memory a first part has reached the file. */
  predicate EventsGrew(was: seq<Event>, now: seq<Event>, before: seq<Event>, after: seq<Event>) {
    && |before| <= |after| && |was| <= |now| <= |was| + |after| - |before|
    && now == was + after[|before|..|before| + |now| - |was|]
  }

  lemma TrimKeepsLast(s: seq<Point>, file: seq<Point>)
    requires SuffixOf(s, file) && s != []
    ensures SuffixOf(Since(s, s[|s| - 1].at - AVERAGE_WINDOW), file)
  {
    SinceStep(s[..|s| - 1], s[|s| - 1], s[|s| - 1].at - AVERAGE_WINDOW);
    assert s[..|s| - 1] + [s[|s| - 1]] == s;
  }

  /** A stored sample ends both. */
  lemma StoredSuffix(samples: seq<Point>, file: seq<Point>, p: Point)
    ensures SuffixOf(Since(samples + [p], p.at - AVERAGE_WINDOW), file + [p])
  {
    SinceStep(samples, p, p.at - AVERAGE_WINDOW);
  }

  /** Memory and file end alike, so whether to store a sample reads the same off either. */
  lemma StoredAlike(samples: seq<Point>, file: seq<Point>, p: Point)
    requires SuffixOf(samples, file) && Spaced(file)
    ensures StoredAfter(samples, p) == StoredAfter(file, p)
  {
  }

  lemma StoredStaysSpaced(samples: seq<Point>, file: seq<Point>, a: Admission, after: seq<Point>)
    requires SuffixOf(samples, file) && Spaced(file)
    requires after == file || after == Appended(samples, file, a)
    ensures Appended(samples, file, a) == LogAfter(file, a)
    ensures Spaced(after)
  {
    if a.Admitted? {
      StoredAlike(samples, file, a.point);
      SpacedStep(file, a.point);
    }
  }

  /**
   * RecordGreyEmpty on a known instant may rebase the grey anomaly level in memory only; the rest of the state is
   * written.
   */
  predicate SameRecord(written: State, current: State) {
    written.(greyBase := None, greyCand := None) == current.(greyBase := None, greyCand := None)
  }

  lemma ProcessSlice(c: Chart, samples: seq<Point>, from: nat, to: nat)
    requires InRange(c) && from <= to < |samples|
    ensures ProcessAll(c, samples[from..to + 1]) == Process(ProcessAll(c, samples[from..to]), samples[to])
  {
    assert samples[from..to + 1] == samples[from..to] + [samples[to]];
    ProcessAllStep(c, samples[from..to], samples[to]);
  }

  lemma ProcessOne(c: Chart, samples: seq<Point>)
    requires InRange(c) && samples != []
    ensures ProcessAll(c, samples[|samples| - 1..]) == Process(c, samples[|samples| - 1])
  {
    var last := samples[|samples| - 1];
    assert samples[|samples| - 1..] == [] + [last];
    ProcessAllStep(c, [], last);
  }

  lemma TrimmedSmall(s: seq<Point>)
    ensures |s| <= 1 ==> Trimmed(s) == s
  {
    if |s| == 1 { SinceStep([], s[0], s[0].at - AVERAGE_WINDOW); }
  }

  lemma SliceStep(events: seq<Event>, from: nat, to: nat)
    requires from <= to < |events|
    ensures events[from..to + 1] == events[from..to] + [events[to]]
  {
  }

  datatype Failure = OutOfRange | WriteFailed

  class Store {
    const disk: Disk
    const month: int -> string
    const retention: int
    const options: Options
    var samples: seq<Point>
    var events: seq<Event>
    var state: State
    var chart: Chart
    var processed: nat
    ghost var exact: bool   // the chart is the chart of all samples in the file

    ghost predicate Valid()
      reads this, disk
    {
      Consistent() && (exact ==> ChartSynced(chart, disk.samples, disk.chart))
    }

    /** True from construction on, whatever writes have failed: enough to go on tracing the files. */
    ghost predicate Usable()
      reads this, disk
    {
      disk.Traced(month) && InRange(chart) && processed <= |samples|
    }

    /** Memory and files agree on everything but, perhaps, the chart. */
    ghost predicate Consistent()
      reads this, disk
    {
      && (disk.chart.None? ==> disk.samples == [])
      && processed == |samples| && InRange(chart)
      && SuffixOf(samples, disk.samples)
      && disk.events == events && SameRecord(disk.state.GetOr(NEW_STATE), state)
    }

    constructor (disk: Disk, month: int -> string, retention: int, options: Options)
      ensures this.disk == disk && this.month == month && this.retention == retention && this.options == options
      ensures samples == [] && events == [] && state == NEW_STATE && chart == EMPTY_CHART && processed == 0
    {
      this.disk, this.month, this.retention, this.options := disk, month, retention, options;
      samples, events, state, chart, processed, exact := [], [], NEW_STATE, EMPTY_CHART, 0, false;
    }

    // ----- the chart cache

    method AddChartWindow(at: int, value: Option<real>, tank: Tank)
      modifies this`chart
      ensures chart == WithWindow(old(chart), tank, AddReading(WindowOf(old(chart), tank), at, value))
    {
      if value.None? { return; }
      var rounded := Round(value.value);
      var w := WindowOf(chart, tank);
      w := Window(w.entries + [Reading(at, rounded)], w.sum + rounded);
      var cutoff := at - AVERAGE_WINDOW;
      ghost var all := w;
      while |w.entries| > 0 && w.entries[0].at < cutoff
        invariant DropOld(w, cutoff) == DropOld(all, cutoff)
        decreases |w.entries|
      {
        w := Window(w.entries[1..], w.sum - w.entries[0].value);
      }
      chart := WithWindow(chart, tank, w);
    }

    method UpdateChartField(sample: Point, value: Option<real>, tank: Tank)
      requires InRange(chart)
      modifies this`chart
      ensures chart == UpdateField(old(chart), sample.at, value, tank) && InRange(chart)
    {
      if value.None? { return; }
      AddReadingNonempty(WindowOf(chart, tank), sample.at, value.value);
      AddChartWindow(sample.at, value, tank);
      var average := Average(WindowOf(chart, tank));
      var bucket := ChartKey(sample.at);
      if bucket !in chart.buckets {
        chart := chart.(buckets := chart.buckets[bucket := |chart.samples|],
          samples := chart.samples + [Point(sample.at, None, None)]);
      } else if sample.at > chart.samples[chart.buckets[bucket]].at {
        var i := chart.buckets[bucket];
        chart := chart.(samples := chart.samples[i := chart.samples[i].(at := sample.at)]);
      }
      var index := chart.buckets[bucket];
      chart := chart.(samples := chart.samples[index := WithLevel(chart.samples[index], tank, average)]);
    }

    /** Passes the unprocessed suffix of the samples through the chart. */
    method ChartSamples()
      requires processed <= |samples| && InRange(chart)
      modifies this`chart, this`processed
      ensures processed == |samples| && InRange(chart)
      ensures chart == ProcessAll(old(chart), samples[old(processed)..])
    {
      ghost var from := processed;
      while processed < |samples|
        invariant from <= processed <= |samples| && InRange(chart)
        invariant chart == ProcessAll(old(chart), samples[from..processed])
      {
        ProcessSlice(old(chart), samples, from, processed);
        processed := processed + 1;
        ProcessSample(samples[processed - 1]);
      }
      assert samples[from..processed] == samples[from..];
    }

    method ChartAfresh()
      modifies this`chart, this`processed
      ensures chart == ChartFold(samples) && InRange(chart) && processed == |samples|
    {
      chart, processed := EMPTY_CHART, 0;
      ChartSamples();
      assert samples[0..] == samples;
    }

    method ProcessSample(sample: Point)
      requires InRange(chart)
      modifies this`chart
      ensures chart == Process(old(chart), sample) && InRange(chart)
    {
      chart := chart.(throughAt := Some(sample.at));
      UpdateChartField(sample, sample.freshPct, Fresh);
      UpdateChartField(sample, sample.greyPct, Grey);
    }

    method SeedChartWindows(limit: nat)
      requires limit <= |samples|
      modifies this`chart
      ensures chart == old(chart).(freshWindow := WindowFold(samples[..limit], Fresh),
        greyWindow := WindowFold(samples[..limit], Grey))
    {
      chart := chart.(freshWindow := EMPTY_WINDOW, greyWindow := EMPTY_WINDOW);
      for i := 0 to limit
        invariant chart == old(chart).(freshWindow := WindowFold(samples[..i], Fresh),
          greyWindow := WindowFold(samples[..i], Grey))
      {
        assert samples[..i + 1][..i] == samples[..i];
        AddChartWindow(samples[i].at, samples[i].freshPct, Fresh);
        AddChartWindow(samples[i].at, samples[i].greyPct, Grey);
      }
    }

    method TrimRawSamples(at: int)
      modifies this`samples, this`processed
      ensures samples == Since(old(samples), at - AVERAGE_WINDOW) && processed == |samples|
    {
      var cutoff := at - AVERAGE_WINDOW;
      var kept: seq<Point> := [];
      for i := 0 to |samples|
        invariant kept == Since(samples[..i], cutoff)
      {
        assert samples[..i + 1][..i] == samples[..i];
        if !(samples[i].at < cutoff) { kept := kept + [samples[i]]; }
      }
      assert samples[..|samples|] == samples;
      samples := kept;
      processed := |samples|;
    }

    method LatestSampleAt(now: int) returns (at: int)
      ensures at == if samples == [] then now else samples[|samples| - 1].at
    {
      if |samples| == 0 { return now; }
      return samples[|samples| - 1].at;
    }

    // ----- events

    method HasGreyEmptyEventAt(at: int) returns (found: bool)
      ensures found == HasGreyEmptyAt(events, at)
    {
      var index := |events|;
      assert events[..index] == events;
      while index > 0
        invariant 0 <= index <= |events| && HasGreyEmptyAt(events, at) == HasGreyEmptyAt(events[..index], at)
      {
        index := index - 1;
        assert events[..index + 1][..index] == events[..index];
        if IsGreyEmpty(events[index]) && events[index].at == at { return true; }
      }
      return false;
    }

    method GreySampleIsBeforeLatestEmpty(at: int) returns (before: bool)
      ensures before == BeforeLatestEmpty(events, at)
    {
      var index := |events|;
      assert events[..index] == events;
      while index > 0
        invariant 0 <= index <= |events| && BeforeLatestEmpty(events, at) == BeforeLatestEmpty(events[..index], at)
      {
        index := index - 1;
        assert events[..index + 1][..index] == events[..index];
        if IsGreyEmpty(events[index]) { return at < events[index].at; }
      }
      return false;
    }

    method ObserveFresh(value: real, at: int)
      modifies this`state, this`events
      ensures var (d, added) := ObserveTank(FreshDetector(old(state)), Fresh, Fill, value, at, options);
        state == WithFresh(old(state), d) && events == old(events) + added
    {
      var base, cand := state.freshBase, state.freshCand;
      if base.None? {
        state := state.(freshBase := Some(value));
        return;
      }
      if cand.None? {
        if value < base.value { base := Some(value); }
        if value - base.value >= options.threshold { cand := Some(Candidate(Fill, base.value, value, at, at)); }
      } else if value < cand.value.current {
        cand, base := None, Some(value);
      } else {
        var c := cand.value;
        if value != c.current { c := c.(movedAt := at); }
        c := c.(current := value);
        cand := Some(c);
        if at - c.movedAt >= options.settling {
          events := events + [Event(at, Fresh, Fill, c.baseline, value, Abs(value - c.baseline))];
          base, cand := Some(value), None;
        }
      }
      state := state.(freshBase := base, freshCand := cand);
    }

    method CommitFresh(at: int)
      modifies this`state, this`events
      ensures var (d, added) := CommitCandidate(FreshDetector(old(state)), Fresh, at);
        state == WithFresh(old(state), d) && events == old(events) + added
    {
      if state.freshCand.None? { return; }
      var c := state.freshCand.value;
      events := events + [Event(at, Fresh, c.kind, c.baseline, c.current, Abs(c.current - c.baseline))];
      state := state.(freshBase := Some(c.current), freshCand := None);
    }

    /** persistObservationLocked: the sample, the new events, then the state; false when a write fails. */
    method PersistObservation(sample: Point, eventStart: nat, storeSample: bool) returns (ok: bool)
      requires eventStart <= |events| && disk.Traced(month)
      modifies disk`samples, disk`run, disk`events, disk`state, disk`writesLeft
      ensures disk.Traced(month) && Grew(old(disk.Files()), old(disk.run), disk.Files(), disk.run, sample)
      ensures !storeSample ==> disk.samples == old(disk.samples)
      ensures EventsGrew(old(disk.events), disk.events, events[..eventStart], events)
      ensures disk.state == old(disk.state) || disk.state == Some(state)
      ensures ok ==> disk.events == old(disk.events) + events[eventStart..] && disk.state == Some(state)
      ensures ok ==> disk.samples == if storeSample then old(disk.samples) + [sample] else old(disk.samples)
      ensures !ok ==> disk.writesLeft == 0
    {
      if storeSample {
        if disk.writesLeft == 0 { return false; }
        ghost var grown := Held(disk.samples + [sample], disk.hourly);
        RunStep(month, disk.run, Append(sample), grown);
        disk.run := disk.run + [Entry(Append(sample), grown)];
        disk.samples, disk.writesLeft := disk.samples + [sample], disk.writesLeft - 1;
      }
      ok := PersistRecord(eventStart);
    }

    /** The new events, one by one, then the state. */
    method PersistRecord(eventStart: nat) returns (ok: bool)
      requires eventStart <= |events|
      modifies disk`events, disk`state, disk`writesLeft
      ensures EventsGrew(old(disk.events), disk.events, events[..eventStart], events)
      ensures disk.state == old(disk.state) || disk.state == Some(state)
      ensures ok ==> disk.events == old(disk.events) + events[eventStart..] && disk.state == Some(state)
      ensures !ok ==> disk.writesLeft == 0
    {
      for i := eventStart to |events|
        invariant disk.events == old(disk.events) + events[eventStart..i] && disk.state == old(disk.state)
      {
        assert events[eventStart..i] <= events[eventStart..];
        if disk.writesLeft == 0 { return false; }
        SliceStep(events, eventStart, i);
        disk.events, disk.writesLeft := disk.events + [events[i]], disk.writesLeft - 1;
      }
      assert events[eventStart..|events|] == events[eventStart..];
      if disk.writesLeft == 0 { return false; }
      disk.state, disk.writesLeft := Some(state), disk.writesLeft - 1;
      return true;
    }

    method PersistChart() returns (ok: bool)
      modifies disk`chart, disk`writesLeft
      ensures disk.chart == if ok then Some(Persisted(chart)) else old(disk.chart)
      ensures !ok ==> disk.writesLeft == 0
    {
      if disk.writesLeft == 0 { return false; }
      disk.chart, disk.writesLeft := Some(Persisted(chart)), disk.writesLeft - 1;
      return true;
    }

    method ClearGreyDischargeState(completedAt: int) returns (changed: bool)
      modifies this`state
      ensures state == ClearDischarge(old(state), completedAt)
      ensures !changed ==> SameRecord(old(state), state)
    {
      changed := false;
      if state.openAt.Some? && !(state.openAt.value > completedAt) {
        state := state.(openAt := None);
        changed := true;
      }
      if state.lastSampleAt.None? || !(state.lastSampleAt.value > completedAt) {
        if state.greyLevel.None? || state.greyLevel.value != 0.0 { changed := true; }
        state := state.(greyLevel := Some(0.0), greyBase := Some(0.0), greyCand := None);
      } else {
        state := state.(greyBase := state.greyLevel, greyCand := None);
      }
    }

    // ----- the public operations

    method RecordGreyDischargeOpen(at: int) returns (r: Result<bool, Failure>)
      requires Usable()
      modifies this`state, disk`samples, disk`run, disk`events, disk`state, disk`writesLeft
      ensures Usable() && state == old(state).(openAt := Some(at)) == RecordOpen(old(state), at)
      ensures disk.samples == old(disk.samples) && disk.run == old(disk.run) && disk.events == old(disk.events)
      ensures disk.state == old(disk.state) || disk.state == Some(state)
      ensures old(Valid()) ==> disk.Charted() && (r.Ok? ==> Valid())
      ensures r == Err(WriteFailed) ==> disk.writesLeft == 0
      ensures r.Ok? ==> r.value == (state != old(state))
    {
      if state.openAt == Some(at) { return Ok(false); }
      state := state.(openAt := Some(at));
      assert events[|events|..] == [];
      var ok := PersistObservation(Point(0, None, None), |events|, false);
      return if ok then Ok(true) else Err(WriteFailed);
    }

    method RecordGreyEmpty(at: int) returns (r: Result<bool, Failure>)
      requires Usable()
      modifies this`state, this`events, disk`samples, disk`run, disk`events, disk`state, disk`writesLeft
      ensures Usable() && (state, events) == RecordEmpty(old(state), old(events), at)
      ensures disk.samples == old(disk.samples) && disk.run == old(disk.run)
      ensures EventsGrew(old(disk.events), disk.events, old(events), events)
      ensures disk.state == old(disk.state) || disk.state == Some(state)
      ensures old(Valid()) ==> disk.Charted() && (r.Ok? ==> Valid())
      ensures r == Err(WriteFailed) ==> disk.writesLeft == 0
      ensures r.Ok? ==> r.value == (|events| > |old(events)|)
    {
      assert events[|events|..] == [];
      var known := HasGreyEmptyEventAt(at);
      if known {
        var changed := ClearGreyDischargeState(at);
        if changed {
          var ok := PersistObservation(Point(0, None, None), |events|, false);
          if !ok { return Err(WriteFailed); }
        }
        return Ok(false);
      }
      if state.openAt.None? { return Ok(false); }
      var eventStart := |events|;
      var from := 0.0;
      if state.greyLevel.Some? { from := state.greyLevel.value; }
      events := events + [Event(at, Grey, Empty, from, 0.0, from)];
      var _ := ClearGreyDischargeState(at);
      assert old(events) + events[eventStart..] == events;
      var ok := PersistObservation(Point(0, None, None), eventStart, false);
      return if ok then Ok(true) else Err(WriteFailed);
    }

    method Observe(given: Point, observedAt: int) returns (r: Result<bool, Failure>, ghost a: Admission)
      requires Usable()
      modifies this`samples, this`events, this`state, this`chart, this`processed
      modifies disk`samples, disk`run, disk`chart, disk`events, disk`state, disk`writesLeft
      ensures Usable() && FilesAfter(old(disk.Files()), old(disk.run), disk.Files(), disk.run, a)
      ensures EventsGrew(old(disk.events), disk.events, old(events), events)
      ensures disk.state == old(disk.state) || disk.state == Some(state)
      ensures disk.chart == old(disk.chart) || disk.chart == Some(Persisted(chart))
      ensures a == Admit(old(state), old(events), given, observedAt)
      ensures r == Err(OutOfRange) <==> a.Rejected?
      ensures MemoryAfter(old(samples), samples, a, r.Ok?)
      ensures old(Valid()) ==> disk.Charted() && (r != Err(WriteFailed) ==> Valid())
      ensures old(Valid()) && exact ==> Recoverable(disk.samples, disk.chart)
      ensures old(Valid()) && Spaced(old(disk.samples)) ==> Spaced(disk.samples)
      ensures old(Valid()) && Spaced(old(disk.samples)) && r != Err(WriteFailed) ==>
        disk.samples == LogAfter(old(disk.samples), a)
      ensures (state, events) == Take(old(state), old(events), a, observedAt, options)
      ensures r == Err(WriteFailed) ==> disk.writesLeft == 0
      ensures r.Ok? ==>
        r.value == (a.Admitted? && (StoredAfter(old(samples), a.point) || |events| > |old(events)|))
    {
      ghost var log, file, cached, suffix, synced := disk.samples, disk.chart, chart, samples, Valid();
      ghost var p: Point, stored: bool;
      r, p, stored, a := ObserveSample(given, observedAt);
      if synced && exact { StoringCarries(cached, log, file, p); }
      if synced && Spaced(log) { StoredStaysSpaced(suffix, log, a, disk.samples); }
    }

    /** Observe, with what it stored and how the chart moved; `p` is the sample if one was stored. */
    method ObserveSample(given: Point, observedAt: int)
      returns (r: Result<bool, Failure>, ghost p: Point, ghost stored: bool, ghost a: Admission)
      requires Usable()
      modifies this`samples, this`events, this`state, this`chart, this`processed
      modifies disk`samples, disk`run, disk`chart, disk`events, disk`state, disk`writesLeft
      ensures FilesAfter(old(disk.Files()), old(disk.run), disk.Files(), disk.run, a)
      ensures EventsGrew(old(disk.events), disk.events, old(events), events)
      ensures disk.state == old(disk.state) || disk.state == Some(state)
      ensures disk.chart == old(disk.chart) || disk.chart == Some(Persisted(chart))
      ensures Usable() && a == Admit(old(state), old(events), given, observedAt) && (a.Admitted? ==> p == a.point)
      ensures MemoryAfter(old(samples), samples, a, r.Ok?)
      ensures (state, events) == Take(old(state), old(events), a, observedAt, options)
      ensures r == Err(OutOfRange) <==> a.Rejected?
      ensures disk.samples == old(disk.samples) || disk.samples == Appended(old(samples), old(disk.samples), a)
      ensures r != Err(WriteFailed) ==> disk.samples == Appended(old(samples), old(disk.samples), a)
      ensures old(Consistent()) ==> disk.Charted() && (r != Err(WriteFailed) ==> Consistent())
      ensures old(Consistent()) ==>
        if stored then
          disk.samples == old(disk.samples) + [p] && chart == Process(old(chart), p)
            && disk.chart == Some(Persisted(chart))
        else
          disk.chart == old(disk.chart)
      ensures r != Err(WriteFailed) && !stored ==> chart == old(chart) && disk.samples == old(disk.samples)
      ensures r == Err(WriteFailed) ==> disk.writesLeft == 0
      ensures r.Ok? ==>
        r.value == (a.Admitted? && (StoredAfter(old(samples), a.point) || |events| > |old(events)|))
    {
      p, stored := given, false;
      var admission := Admission(given, observedAt);
      a := admission;
      match admission
      case Ignored => r := Ok(false);
      case Rejected => r := Err(OutOfRange);
      case Admitted(sample, offline) =>
        p, stored := sample, StoredAfter(samples, sample);
        r := StoreSample(sample, offline, observedAt);
        stored := stored && r.Ok?;
    }

    /** The checks at the head of Observe. */
    method Admission(given: Point, observedAt: int) returns (a: Admission)
      ensures a == Admit(state, events, given, observedAt)
    {
      var sample := given;
      if sample.at == ZERO_TIME { sample := sample.(at := observedAt); }
      if sample.greyPct.Some? {
        var stale := GreySampleIsBeforeLatestEmpty(sample.at);
        if stale { sample := sample.(greyPct := None); }
      }
      if sample.freshPct.None? && sample.greyPct.None? { return Ignored; }
      if !InPercent(sample.freshPct) || !InPercent(sample.greyPct) { return Rejected; }
      if state.lastSampleAt.Some? && !(sample.at > state.lastSampleAt.value) {
        if sample.at == state.lastSampleAt.value { return Ignored; }
        return Admitted(sample.(at := observedAt), true);
      }
      return Admitted(sample, false);
    }

    /** Observe from the point where the sample is known to count. */
    method StoreSample(sample: Point, offline: bool, observedAt: int) returns (r: Result<bool, Failure>)
      requires Usable()
      modifies this`samples, this`events, this`state, this`chart, this`processed
      modifies disk`samples, disk`run, disk`chart, disk`events, disk`state, disk`writesLeft
      ensures Usable() && (r.Err? ==> r.error.WriteFailed?)
      ensures Grew(old(disk.Files()), old(disk.run), disk.Files(), disk.run, sample)
      ensures EventsGrew(old(disk.events), disk.events, old(events), events)
      ensures disk.state == old(disk.state) || disk.state == Some(state)
      ensures disk.chart == old(disk.chart) || disk.chart == Some(Persisted(chart))
      ensures !StoredAfter(old(samples), sample) ==> samples == old(samples)
      ensures StoredAfter(old(samples), sample) ==>
        || samples == Since(old(samples) + [sample], sample.at - AVERAGE_WINDOW)
        || (r.Err? && samples == old(samples) + [sample])
      ensures (state, events) == Applied(old(state), old(events), sample, offline, observedAt, options)
      ensures !StoredAfter(old(samples), sample) ==> disk.samples == old(disk.samples)
      ensures r.Ok? ==>
        disk.samples == old(disk.samples) + if StoredAfter(old(samples), sample) then [sample] else []
      ensures r.Ok? && !StoredAfter(old(samples), sample) ==> chart == old(chart)
      ensures old(Consistent()) ==> disk.Charted() && (r.Ok? ==> Consistent())
      ensures old(Consistent()) ==>
        if r.Ok? && StoredAfter(old(samples), sample) then
          chart == Process(old(chart), sample) && disk.chart == Some(Persisted(chart))
        else disk.chart == old(disk.chart)
      ensures r.Err? ==> disk.writesLeft == 0
      ensures r.Ok? ==> r.value == (StoredAfter(old(samples), sample) || |events| > |old(events)|)
    {
      var eventCount := |events|;
      if StoredAfter(samples, sample) {
        var stored := StoreNew(sample, offline, observedAt);
        return if stored then Ok(true) else Err(WriteFailed);
      }
      var ok := RecordSample(sample, offline, observedAt, false);
      return if ok then Ok(|events| > eventCount) else Err(WriteFailed);
    }

    /** A sample worth storing: memory, then files, then the chart. */
    method StoreNew(sample: Point, offline: bool, observedAt: int) returns (ok: bool)
      requires Usable()
      modifies this`samples, this`events, this`state, this`chart, this`processed
      modifies disk`samples, disk`run, disk`chart, disk`events, disk`state, disk`writesLeft
      ensures Usable() && Grew(old(disk.Files()), old(disk.run), disk.Files(), disk.run, sample)
      ensures EventsGrew(old(disk.events), disk.events, old(events), events)
      ensures disk.state == old(disk.state) || disk.state == Some(state)
      ensures samples == Since(old(samples) + [sample], sample.at - AVERAGE_WINDOW)
        || (!ok && samples == old(samples) + [sample])
      ensures (state, events) == Applied(old(state), old(events), sample, offline, observedAt, options)
      ensures ok ==> disk.samples == old(disk.samples) + [sample]
      ensures disk.chart == if ok then Some(Persisted(chart)) else old(disk.chart)
      ensures old(Consistent()) && ok ==> Consistent() && chart == Process(old(chart), sample)
      ensures !ok ==> disk.writesLeft == 0
    {
      StoredSuffix(samples, disk.samples, sample);
      samples := samples + [sample];
      ok := RecordSample(sample, offline, observedAt, true);
      if ok { ok := ChartSample(sample); }
    }

    /** The levels, the events and what is written of them. */
    method RecordSample(sample: Point, offline: bool, observedAt: int, storeSample: bool) returns (ok: bool)
      requires disk.Traced(month)
      modifies this`state, this`events, disk`samples, disk`run, disk`events, disk`state, disk`writesLeft
      ensures disk.Traced(month) && Grew(old(disk.Files()), old(disk.run), disk.Files(), disk.run, sample)
      ensures !storeSample ==> disk.samples == old(disk.samples)
      ensures EventsGrew(old(disk.events), disk.events, old(events), events)
      ensures disk.state == old(disk.state) || disk.state == Some(state)
      ensures ok && old(disk.events == events) ==> disk.events == events
      ensures ok ==> disk.state == Some(state)
      ensures ok ==> disk.samples == if storeSample then old(disk.samples) + [sample] else old(disk.samples)
      ensures (state, events) == Applied(old(state), old(events), sample, offline, observedAt, options)
      ensures !ok ==> disk.writesLeft == 0
    {
      var eventCount := |events|;
      ApplySample(sample, offline, observedAt);
      ok := PersistObservation(sample, eventCount, storeSample);
      assert events[..eventCount] == old(events);
      assert events == events[..eventCount] + events[eventCount..];
    }

    /**
     * Charts the samples not yet processed, the one just appended last, trims the raw suffix and persists the chart.
     */
    method ChartSample(sample: Point) returns (ok: bool)
      requires InRange(chart)
      requires samples != [] && samples[|samples| - 1] == sample && processed < |samples|
      modifies this`samples, this`chart, this`processed, disk`chart, disk`writesLeft
      ensures processed == |samples| && InRange(chart)
      ensures samples != [] && samples[|samples| - 1] == sample
      ensures samples == Since(old(samples), sample.at - AVERAGE_WINDOW)
      ensures old(processed) == |old(samples)| - 1 ==> chart == Process(old(chart), sample)
      ensures disk.chart == if ok then Some(Persisted(chart)) else old(disk.chart)
      ensures !ok ==> disk.writesLeft == 0
    {
      ChartSamples();
      ProcessOne(old(chart), samples);
      TrimmedLast(samples);
      TrimRawSamples(sample.at);
      ok := PersistChart();
    }

    method ApplySample(sample: Point, offline: bool, observedAt: int)
      modifies this`state, this`events
      ensures (state, events) == Applied(old(state), old(events), sample, offline, observedAt, options)
      ensures |old(events)| <= |events| && events[..|old(events)|] == old(events)
    {
      state := state.(lastSampleAt := Some(sample.at));
      if sample.freshPct.Some? {
        ObserveFresh(sample.freshPct.value, observedAt);
        ghost var settled := events;
        if offline { CommitFresh(observedAt); } else { assert events + [] == settled; }
      }
      if sample.greyPct.Some? { ObserveGreySample(sample.greyPct.value); }
      if sample.freshPct.Some? { state := state.(freshLevel := sample.freshPct); }
      if sample.greyPct.Some? { state := state.(greyLevel := sample.greyPct); }
    }

    method ObserveGreySample(value: real)
      modifies this`state
      ensures state == ObserveGrey(old(state), value, options)
    {
      if state.openAt.Some? { return; }
      if state.greyBase.None? {
        state := state.(greyBase := Some(value));
        return;
      }
      if value > state.greyBase.value {
        state := state.(greyBase := Some(value));
        return;
      }
      if state.greyBase.value - value < options.threshold { return; }
      state := state.(greyBase := Some(value));
    }

    // ----- restart

    method CompactLoaded(loaded: seq<Point>) returns (kept: seq<Point>)
      ensures kept == CompactSamples(loaded)
    {
      kept := [];
      for i := 0 to |loaded|
        invariant kept == CompactSamples(loaded[..i])
      {
        assert loaded[..i + 1][..i] == loaded[..i];
        if |kept| == 0 || ShouldStore(kept[|kept| - 1], loaded[i]) { kept := kept + [loaded[i]]; }
      }
      assert loaded[..|loaded|] == loaded;
    }

    method TrimToLatest(now: int)
      requires SuffixOf(samples, disk.samples)
      modifies this`samples, this`processed
      ensures SuffixOf(samples, disk.samples) && processed == |samples| && samples == Trimmed(old(samples))
    {
      var at := LatestSampleAt(now);
      if samples != [] { TrimKeepsLast(samples, disk.samples); }
      TrimRawSamples(at);
    }

    /** loadChartCacheLocked for a readable chart file. */
    method LoadChartCache(file: ChartFile)
      modifies this`chart, this`processed
      ensures chart == Chart(file.throughAt, IndexOf(file.samples), file.samples, EMPTY_WINDOW, EMPTY_WINDOW)
      ensures InRange(chart) && processed == 0
    {
      var buckets: map<int, nat> := map[];
      for i := 0 to |file.samples|
        invariant buckets == IndexOf(file.samples[..i])
      {
        assert file.samples[..i + 1][..i] == file.samples[..i];
        buckets := buckets[ChartKey(file.samples[i].at) := i];
      }
      assert file.samples[..|file.samples|] == file.samples;
      IndexInRange(file.samples);
      chart := Chart(file.throughAt, buckets, file.samples, EMPTY_WINDOW, EMPTY_WINDOW);
      processed := 0;
    }

    /** Seeds from the chart file and replays the samples it does not cover; returns where the replay began. */
    method ReplayOver(file: ChartFile) returns (replayFrom: nat)
      modifies this`chart, this`processed
      ensures replayFrom == ReplayFrom(samples, file.throughAt, 0)
      ensures chart == Restored(file, samples) && InRange(chart) && processed == |samples|
    {
      LoadChartCache(file);
      replayFrom := 0;
      if chart.throughAt.Some? {
        while replayFrom < |samples| && !(samples[replayFrom].at > chart.throughAt.value)
          invariant replayFrom <= |samples|
          invariant ReplayFrom(samples, file.throughAt, replayFrom) == ReplayFrom(samples, file.throughAt, 0)
        {
          replayFrom := replayFrom + 1;
        }
      }
      SeedChartWindows(replayFrom);
      processed := replayFrom;
      ChartSamples();
    }

    /** Load after a restart: reads the files, compacts the samples and rebuilds the chart; false when a write fails. */
    method Load(now: int) returns (ok: bool)
      requires disk.Traced(month)
      modifies this, disk`chart, disk`samples, disk`writesLeft, disk`run
      ensures disk.Traced(month)
      ensures !ok || old(disk.chart).Some? ==> disk.samples == old(disk.samples) && disk.run == old(disk.run)
      ensures ok && old(disk.chart).None? ==>
        disk.samples == Rewritten(old(disk.samples))
          && disk.run == old(disk.run) + [Entry(Rewrite, disk.Files())]
      ensures disk.chart == old(disk.chart) || disk.chart == Some(Persisted(chart))
      ensures old(disk.Charted()) ==> disk.Charted() && disk.samples == old(disk.samples)
      ensures ok ==> Valid() && events == disk.events && state == disk.state.GetOr(NEW_STATE)
      ensures ok ==> samples == Rewritten(old(disk.samples))
      ensures ok ==> chart == match old(disk.chart)
        case None => ChartFold(CompactSamples(old(disk.samples)))
        case Some(file) => Restored(file, CompactSamples(old(disk.samples)))
      ensures ok && Resumable(old(disk.samples), old(disk.chart)) && Spaced(old(disk.samples)) ==> exact
      ensures !ok ==> disk.writesLeft == 0
    {
      ghost var file, log := disk.chart, disk.samples;
      ReadFiles();
      ok := LoadChart(now);
      exact := ChartSynced(chart, disk.samples, disk.chart);
      if ok && file.Some? && Resumable(log, file) && Spaced(log) {
        RestartExact(log, file.value, chart, disk.chart);
      }
    }

    /** The chart from its file if there is one, else from the samples; then the raw suffix. */
    method LoadChart(now: int) returns (ok: bool)
      requires SuffixOf(samples, disk.samples) && samples == CompactSamples(disk.samples) && disk.Traced(month)
      modifies this`samples, this`chart, this`processed, disk`chart, disk`samples, disk`writesLeft, disk`run
      ensures disk.Traced(month)
      ensures !ok || old(disk.chart).Some? ==> disk.samples == old(disk.samples) && disk.run == old(disk.run)
      ensures ok && old(disk.chart).None? ==>
        disk.samples == Trimmed(old(samples)) && disk.run == old(disk.run) + [Entry(Rewrite, disk.Files())]
      ensures disk.chart == old(disk.chart) || disk.chart == Some(Persisted(chart))
      ensures disk.chart.None? ==> !ok && old(disk.chart).None?
      ensures ok ==> processed == |samples| && InRange(chart) && SuffixOf(samples, disk.samples)
      ensures ok ==> samples == Trimmed(old(samples))
      ensures ok && old(disk.chart).Some? ==> Replayed(old(disk.chart).value, old(samples), chart, disk.chart)
      ensures ok && old(disk.chart).None? ==> chart == ChartFold(old(samples)) && disk.chart == Some(Persisted(chart))
      ensures |old(samples)| <= 1 && old(samples) == old(disk.samples) ==> disk.samples == old(disk.samples)
      ensures !ok ==> disk.writesLeft == 0
    {
      if disk.chart.Some? {
        ok := LoadWithChart(now);
      } else {
        TrimmedSmall(samples);
        ok := LoadWithoutChart(now);
      }
    }

    /**
     * The sample, event and state files; nothing is dropped from a log whose samples are spaced as Observe spaces them.
     */
    method ReadFiles()
      modifies this`samples, this`events, this`state
      ensures SuffixOf(samples, disk.samples) && samples == CompactSamples(disk.samples)
      ensures |disk.samples| <= 1 || Spaced(disk.samples) ==> samples == disk.samples
      ensures events == disk.events && state == disk.state.GetOr(NEW_STATE)
    {
      samples := CompactLoaded(disk.samples);
      CompactKeepsSmall(disk.samples);
      events, state := disk.events, disk.state.GetOr(NEW_STATE);
    }

    method LoadWithChart(now: int) returns (ok: bool)
      requires disk.chart.Some? && SuffixOf(samples, disk.samples)
      modifies this`samples, this`chart, this`processed, disk`chart, disk`writesLeft
      ensures ok ==> processed == |samples| && InRange(chart) && SuffixOf(samples, disk.samples)
      ensures disk.chart.Some? && (disk.chart == old(disk.chart) || disk.chart == Some(Persisted(chart)))
      ensures ok ==>
        Replayed(old(disk.chart).value, old(samples), chart, disk.chart) && samples == Trimmed(old(samples))
      ensures !ok ==> disk.writesLeft == 0
    {
      var replayFrom := ReplayOver(disk.chart.value);
      if processed > replayFrom {
        ok := PersistChart();
        if !ok { return false; }
      }
      TrimToLatest(now);
      return true;
    }

    /** A missing chart file: the chart is built afresh, and the samples file rewritten with the trimmed suffix only. */
    method LoadWithoutChart(now: int) returns (ok: bool)
      requires disk.chart.None? && SuffixOf(samples, disk.samples) && disk.Traced(month)
      requires samples == CompactSamples(disk.samples)
      modifies this`samples, this`chart, this`processed, disk`chart, disk`samples, disk`writesLeft, disk`run
      ensures disk.Traced(month)
      ensures samples == Trimmed(old(samples)) && processed == |samples| && SuffixOf(samples, disk.samples)
      ensures disk.samples == if ok then samples else old(disk.samples)
      ensures disk.run == if ok then old(disk.run) + [Entry(Rewrite, disk.Files())] else old(disk.run)
      ensures chart == ChartFold(old(samples)) && InRange(chart)
      ensures disk.chart == Some(Persisted(chart)) || (!ok && disk.chart == old(disk.chart))
      ensures !ok ==> disk.writesLeft == 0
    {
      ChartAfresh();
      TrimToLatest(now);
      ok := PersistChart();
      if ok { ok := PersistRawSamples(); }
    }

    method PersistRawSamples() returns (ok: bool)
      requires disk.Traced(month) && samples == Rewritten(disk.samples)
      modifies disk`samples, disk`writesLeft, disk`run
      ensures disk.Traced(month)
      ensures disk.samples == if ok then samples else old(disk.samples)
      ensures disk.run == if ok then old(disk.run) + [Entry(Rewrite, disk.Files())] else old(disk.run)
      ensures !ok ==> disk.writesLeft == 0
    {
      if disk.writesLeft == 0 { return false; }
      RewriteStep(month, disk.run);
      disk.run := disk.run + [Entry(Rewrite, Held(samples, disk.hourly))];
      disk.samples, disk.writesLeft := samples, disk.writesLeft - 1;
      return true;
    }

    // ----- compaction

    method GatherArchives(all: seq<Point>, cutoff: int) returns (archives: WaterArchive.Files)
      ensures WaterArchive.Gathered(month, Before(all, cutoff), disk.hourly, archives)
    {
      archives := map name | name in disk.hourly && WaterArchive.IsArchiveName(name) :: disk.hourly[name];
      WaterArchive.GatheredNothing(month, disk.hourly, archives);
      for i := 0 to |all|
        invariant WaterArchive.Gathered(month, Before(all[..i], cutoff), disk.hourly, archives)
      {
        var point := all[i];
        assert all[..i + 1][..i] == all[..i];
        if point.at < cutoff {
          var name := WaterArchive.ArchiveName(month, point.at);
          WaterArchive.GatheredStep(month, Before(all[..i], cutoff), disk.hourly, archives, point);
          archives := archives[name := WaterArchive.Read(archives, name) + [point]];
        } else {
          assert Before(all[..i + 1], cutoff) == Before(all[..i], cutoff) + [] == Before(all[..i], cutoff);
        }
      }
      assert all[..|all|] == all;
    }

    method WriteArchives(archives: WaterArchive.Files) returns (ok: bool, ghost written: set<string>)
      modifies disk`hourly, disk`writesLeft
      ensures WaterArchive.PartlyWritten(archives, old(disk.hourly), disk.hourly, written)
      ensures ok ==> written == archives.Keys
      ensures !ok ==> disk.writesLeft == 0
    {
      var todo := archives.Keys;
      written := {};
      while todo != {}
        invariant todo <= archives.Keys && written == archives.Keys - todo
        invariant WaterArchive.PartlyWritten(archives, old(disk.hourly), disk.hourly, written)
        decreases todo
      {
        if disk.writesLeft == 0 { return false, written; }
        var name := Sorting.PickAny(todo);
        var bucketed := BucketPoints(archives[name], ZERO_TIME, HOUR);
        WaterArchive.WriteStep(archives, old(disk.hourly), disk.hourly, written, name, bucketed);
        disk.hourly, disk.writesLeft := disk.hourly[name := bucketed], disk.writesLeft - 1;
        todo, written := todo - {name}, written + {name};
      }
      return true, written;
    }

    /** Rebuilds the chart from the compacted samples and drops what lies before the cutoff. */
    method RechartSince(cutoff: int)
      modifies this`chart, this`processed
      ensures InRange(chart) && processed == |samples|
      ensures chart == Recharted(samples, cutoff)
    {
      ChartAfresh();
      var kept, buckets := KeepSince(chart.samples, cutoff);
      IndexInRange(kept);
      chart := chart.(samples := kept, buckets := buckets);
    }

    static method KeepSince(charted: seq<Point>, cutoff: int) returns (kept: seq<Point>, buckets: map<int, nat>)
      ensures kept == Since(charted, cutoff) && buckets == IndexOf(kept)
    {
      kept, buckets := [], map[];
      for i := 0 to |charted|
        invariant kept == Since(charted[..i], cutoff)
      {
        assert charted[..i + 1][..i] == charted[..i];
        if !(charted[i].at < cutoff) { kept := kept + [charted[i]]; }
      }
      for i := 0 to |kept|
        invariant buckets == IndexOf(kept[..i])
      {
        assert kept[..i + 1][..i] == kept[..i];
        buckets := buckets[ChartKey(kept[i].at) := i];
      }
      assert kept[..|kept|] == kept && charted[..|charted|] == charted;
    }

    /**
     * Compact at clock `now`; false when some write failed or the process died there. `recent` is what it compacts to,
     * `step` how far it came.
     */
    method Compact(now: int) returns (ok: bool, ghost recent: seq<Point>, ghost step: Step)
      requires Usable()
      modifies this`samples, this`chart, this`processed, this`exact, disk
      ensures Usable() && (old(disk.Charted()) ==> disk.Charted())
      ensures step.Finish? || (step.Archive? && !ok)
      ensures step.memory == old(samples) && step.cutoff == now - retention
      ensures disk.run == old(disk.run) + [Entry(step, disk.Files())]
      ensures Places(month, old(disk.Files()), step, disk.Files())
      ensures IsBucketing(recent, Kept(Taken(old(disk.samples), old(samples)), step.cutoff), TEN_MINUTES)
      ensures disk.samples == if step.Finish? then recent else old(disk.samples)
      ensures ok ==> Valid() && samples == Trimmed(recent) && chart == Recharted(recent, step.cutoff)
      ensures !ok ==> samples == old(samples) || samples == recent
      ensures step.Archive? ==> disk.events == old(disk.events) && disk.state == old(disk.state)
      ensures disk.events == old(disk.events) || disk.events == events
      ensures disk.state == old(disk.state) || disk.state == Some(state)
      ensures ok && step.cutoff != ZERO_TIME ==>
        exact && WaterArchive.Settled(disk.samples, disk.hourly, step.cutoff)
      ensures WaterArchive.Settled(Taken(old(disk.samples), old(samples)), old(disk.hourly), step.cutoff) ==>
        recent == Taken(old(disk.samples), old(samples)) && disk.hourly == old(disk.hourly)
      ensures disk.chart == old(disk.chart) || disk.chart == Some(Persisted(Recharted(recent, step.cutoff)))
      ensures step.cutoff != ZERO_TIME && Recoverable(old(disk.samples), old(disk.chart)) ==>
        Recoverable(disk.samples, disk.chart) || (step.Archive? && disk.chart != old(disk.chart))
      ensures !ok ==> disk.writesLeft == 0
    {
      var cutoff := now - retention;
      var all := TakeSamples();
      var compacted := BucketPoints(all, cutoff, TEN_MINUTES);
      recent := compacted;
      ghost var before := disk.run;
      ok, step := CompactTo(compacted, all, cutoff, now);
      LastPlaces(month, before, Entry(step, disk.Files()));
    }

    /** Compact once the samples are bucketed. */
    method CompactTo(recent: seq<Point>, all: seq<Point>, cutoff: int, now: int) returns (ok: bool, ghost step: Step)
      requires Usable() && all == Taken(disk.samples, samples) && IsBucketing(recent, Kept(all, cutoff), TEN_MINUTES)
      modifies this`samples, this`chart, this`processed, this`exact, disk
      ensures Usable() && (old(disk.Charted()) ==> disk.Charted())
      ensures disk.run == old(disk.run) + [Entry(step, disk.Files())]
      ensures step.Finish? || (step.Archive? && !ok)
      ensures step.memory == old(samples) && step.cutoff == cutoff
      ensures disk.samples == if step.Finish? then recent else old(disk.samples)
      ensures ok ==> Valid() && samples == Trimmed(recent) && chart == Recharted(recent, cutoff)
      ensures !ok ==> samples == old(samples) || samples == recent
      ensures step.Archive? ==> disk.events == old(disk.events) && disk.state == old(disk.state)
      ensures disk.events == old(disk.events) || disk.events == events
      ensures disk.state == old(disk.state) || disk.state == Some(state)
      ensures ok && cutoff != ZERO_TIME ==> exact && WaterArchive.Settled(disk.samples, disk.hourly, cutoff)
      ensures WaterArchive.Settled(all, old(disk.hourly), cutoff) ==> recent == all && disk.hourly == old(disk.hourly)
      ensures disk.chart == old(disk.chart) || disk.chart == Some(Persisted(Recharted(recent, cutoff)))
      ensures cutoff != ZERO_TIME && Recoverable(old(disk.samples), old(disk.chart)) ==>
        Recoverable(disk.samples, disk.chart) || (step.Archive? && disk.chart != old(disk.chart))
      ensures !ok ==> disk.writesLeft == 0
    {
      ghost var before, memory := disk.run, samples;
      ghost var written;
      ok, written := ArchivePoints(all, cutoff, recent);
      step := Archive(memory, cutoff, written);
      if !ok { return; }
      if cutoff != ZERO_TIME { RechartRecovers(recent, disk.hourly, cutoff); }
      ghost var finished := Entry(Finish(memory, cutoff), Held(recent, disk.hourly));
      ghost var replaced: bool;
      ok, replaced := AdoptCompacted(recent, cutoff, now, before + [finished]);
      if replaced { step := finished.step; }
    }

    method TakeSamples() returns (all: seq<Point>)
      ensures all == Taken(disk.samples, samples)
    {
      all := disk.samples;
      if |all| == 0 { all := all + samples; }
    }

    /** archivePointsLocked, with what it means for the compacted samples still to be written. */
    method ArchivePoints(all: seq<Point>, cutoff: int, ghost recent: seq<Point>)
      returns (ok: bool, ghost written: set<string>)
      requires disk.Traced(month) && all == Taken(disk.samples, samples)
      requires IsBucketing(recent, Kept(all, cutoff), TEN_MINUTES)
      modifies disk`hourly, disk`writesLeft, disk`run
      ensures disk.Traced(month)
      ensures disk.run == old(disk.run) + [Entry(Archive(samples, cutoff, written), disk.Files())]
      ensures ok ==> IsRun(month, old(disk.run) + [Entry(Finish(samples, cutoff), Held(recent, disk.hourly))])
      ensures ok && cutoff != ZERO_TIME ==> WaterArchive.Settled(recent, disk.hourly, cutoff)
      ensures WaterArchive.Settled(all, old(disk.hourly), cutoff) ==> recent == all && disk.hourly == old(disk.hourly)
      ensures !ok ==> disk.writesLeft == 0
    {
      var archives := GatherArchives(all, cutoff);
      ghost var hourly := disk.hourly;
      ok, written := WriteArchives(archives);
      CompactionSettles(month, all, hourly, archives, disk.hourly, cutoff, recent, written);
      if ok { RunStep(month, disk.run, Finish(samples, cutoff), Held(recent, disk.hourly)); }
      RunStep(month, disk.run, Archive(samples, cutoff, written), disk.Files());
      disk.run := disk.run + [Entry(Archive(samples, cutoff, written), disk.Files())];
    }

    /** Takes the compacted samples over: chart, files, raw suffix. */
    method AdoptCompacted(recent: seq<Point>, cutoff: int, now: int, ghost finished: seq<Entry>)
      returns (ok: bool, ghost replaced: bool)
      requires disk.Traced(month) && IsRun(month, finished) && End(finished) == Held(recent, disk.hourly)
      modifies this`samples, this`chart, this`processed, this`exact, disk`samples, disk`chart, disk`events, disk`state,
        disk`writesLeft, disk`run
      ensures disk.Traced(month) && (ok ==> replaced)
      ensures replaced ==> disk.samples == recent && disk.run == finished
      ensures replaced ==> disk.chart == Some(Persisted(Recharted(recent, cutoff)))
      ensures !replaced ==> disk.samples == old(disk.samples) && disk.run == old(disk.run)
      ensures !replaced ==> disk.events == old(disk.events) && disk.state == old(disk.state)
      ensures disk.events == old(disk.events) || disk.events == events
      ensures disk.state == old(disk.state) || disk.state == Some(state)
      ensures disk.chart == old(disk.chart) || disk.chart == Some(Persisted(Recharted(recent, cutoff)))
      ensures ok ==> disk.events == events && disk.state == Some(state)
      ensures processed == |samples| && InRange(chart) && (ok ==> SuffixOf(samples, recent))
      ensures samples == if ok then Trimmed(recent) else recent
      ensures ok ==> (exact <==> ChartSynced(chart, recent, disk.chart)) && chart == Recharted(recent, cutoff)
      ensures !ok ==> disk.writesLeft == 0
    {
      samples := recent;
      RechartSince(cutoff);
      replaced := false;
      ok := PersistChart();
      if !ok { return; }
      ok, replaced := PersistCompacted(finished);
      if !ok { return; }
      exact := ChartSynced(chart, recent, disk.chart);
      TrimToLatest(now);
    }

    /** persistLocked: the samples, the events and the state, each file replaced atomically. */
    method PersistCompacted(ghost finished: seq<Entry>) returns (ok: bool, ghost replaced: bool)
      modifies disk`samples, disk`events, disk`state, disk`writesLeft, disk`run
      ensures ok ==> replaced
      ensures replaced ==> disk.samples == samples && disk.run == finished
      ensures !replaced ==> disk.samples == old(disk.samples) && disk.run == old(disk.run)
      ensures !replaced ==> disk.events == old(disk.events) && disk.state == old(disk.state)
      ensures disk.events == old(disk.events) || disk.events == events
      ensures disk.state == old(disk.state) || disk.state == Some(state)
      ensures ok ==> disk.events == events && disk.state == Some(state)
      ensures !ok ==> disk.writesLeft == 0
    {
      if disk.writesLeft == 0 { return false, false; }
      disk.samples, disk.run, disk.writesLeft := samples, finished, disk.writesLeft - 1;
      if disk.writesLeft == 0 { return false, true; }
      disk.events, disk.writesLeft := events, disk.writesLeft - 1;
      if disk.writesLeft == 0 { return false, true; }
      disk.state, disk.writesLeft := Some(state), disk.writesLeft - 1;
      return true, true;
    }
  }

  lemma RechartDropsNothing(log: seq<Point>, cutoff: int)
    requires forall i :: 0 <= i < |log| ==> cutoff <= log[i].at
    ensures Recharted(log, cutoff) == ChartFold(log)
  {
    FoldStamped(log, cutoff);
    SinceAll(ChartFold(log).samples, cutoff);
    FoldIndexed(log);
  }

  lemma RechartRecovers(recent: seq<Point>, hourly: WaterArchive.Files, cutoff: int)
    requires WaterArchive.Settled(recent, hourly, cutoff)
    ensures Recoverable(recent, Some(Persisted(Recharted(recent, cutoff))))
    ensures ChartSynced(Recharted(recent, cutoff), recent, Some(Persisted(Recharted(recent, cutoff))))
  {
    RechartDropsNothing(recent, cutoff);
  }

  /** A finished compaction settles the files; over settled files a compaction changes nothing, wherever it stops. */
  lemma CompactionSettles(month: int -> string, all: seq<Point>, before: WaterArchive.Files,
          archives: WaterArchive.Files, after: WaterArchive.Files, cutoff: int, recent: seq<Point>,
          written: set<string>)
    requires WaterArchive.Gathered(month, Before(all, cutoff), before, archives)
    requires WaterArchive.PartlyWritten(archives, before, after, written)
    requires IsBucketing(recent, Kept(all, cutoff), TEN_MINUTES)
    ensures written == archives.Keys && cutoff != ZERO_TIME ==> WaterArchive.Settled(recent, after, cutoff)
    ensures WaterArchive.Settled(all, before, cutoff) ==> recent == all && after == before
  {
    if written == archives.Keys && cutoff != ZERO_TIME {
      WaterArchive.CompletedSettles(month, all, before, archives, after, cutoff, recent);
    }
    if WaterArchive.Settled(all, before, cutoff) {
      WaterArchive.SettledUnchanged(month, all, before, archives, after, cutoff, recent, written);
    }
  }
}
