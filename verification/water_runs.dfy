/**
 * service/waterhistory/store.go: what any run of appends, compactions that may die anywhere, and restarts does to the
 * sample file and the hourly archive.
 */
module WaterRuns {
  import opened Wrappers
  import opened Instants
  import opened WaterPoints
  import opened WaterTens
  import opened WaterChart
  import WaterArchive

  /** The sample file and the archive files. */
  datatype Held = Held(live: seq<Point>, hourly: WaterArchive.Files)

  const NOTHING := Held([], map[])

  /**
   * Archive: a compaction that dies when the archive files `written` are on disk. Finish: one that replaces the sample
   * file too. Both take the samples in `memory` if the file has none. Rewrite: a load without a chart file.
   */
  datatype Step =
    | Append(point: Point)
    | Archive(memory: seq<Point>, cutoff: int, written: set<string>)
    | Finish(memory: seq<Point>, cutoff: int)
    | Rewrite

  /** A step and what it left on disk. */
  datatype Entry = Entry(step: Step, held: Held)

  /** The samples Compact takes: those of the file, or of memory if the file has none. */
  function Taken(file: seq<Point>, memory: seq<Point>): seq<Point> { if file == [] then memory else file }

  /** What is kept in memory of a loaded or compacted log: the last five minutes. */
  function Trimmed(s: seq<Point>): seq<Point> {
    if s == [] then [] else Since(s, s[|s| - 1].at - AVERAGE_WINDOW)
  }

  /** What a load without a chart file leaves of the sample file. */
  function Rewritten(s: seq<Point>): seq<Point> { Trimmed(CompactSamples(s)) }

  /** The archive files `written`, and no others, have been rewritten with the points of `late` added. */
  ghost predicate Archived(month: int -> string, late: seq<Point>, before: WaterArchive.Files,
                           after: WaterArchive.Files, written: set<string>)
  {
    exists archives :: WaterArchive.Gathered(month, late, before, archives)
      && WaterArchive.PartlyWritten(archives, before, after, written)
  }

  ghost predicate AllArchived(month: int -> string, late: seq<Point>, before: WaterArchive.Files,
                              after: WaterArchive.Files)
  {
    exists archives :: WaterArchive.Gathered(month, late, before, archives)
      && WaterArchive.PartlyWritten(archives, before, after, archives.Keys)
  }

  ghost predicate Takes(month: int -> string, a: Held, step: Step, b: Held) {
    match step
    case Append(p) => b == Held(a.live + [p], a.hourly)
    case Archive(memory, cutoff, written) =>
      b.live == a.live && Archived(month, Before(Taken(a.live, memory), cutoff), a.hourly, b.hourly, written)
    case Finish(memory, cutoff) =>
      && IsBucketing(b.live, Kept(Taken(a.live, memory), cutoff), TEN_MINUTES)
      && AllArchived(month, Before(Taken(a.live, memory), cutoff), a.hourly, b.hourly)
    case Rewrite => b == Held(Rewritten(a.live), a.hourly)
  }

  function End(run: seq<Entry>): Held {
    if run == [] then NOTHING else run[|run| - 1].held
  }

  ghost predicate TakesAt(month: int -> string, run: seq<Entry>, n: nat)
    requires n < |run|
  {
    Takes(month, End(run[..n]), run[n].step, run[n].held)
  }

  ghost predicate IsRun(month: int -> string, run: seq<Entry>) {
    forall n: nat :: n < |run| ==> TakesAt(month, run, n)
  }

  lemma RunStep(month: int -> string, run: seq<Entry>, step: Step, held: Held)
    requires IsRun(month, run) && Takes(month, End(run), step, held)
    ensures IsRun(month, run + [Entry(step, held)]) && End(run + [Entry(step, held)]) == held
  {
    var all := run + [Entry(step, held)];
    forall n: nat | n < |all| ensures TakesAt(month, all, n) {
      if n < |run| {
        assert TakesAt(month, run, n) && all[..n] == run[..n] && all[n] == run[n];
      } else {
        assert all[..n] == run;
      }
    }
  }

  /** A run is a shorter one and a last step. */
  lemma RunInit(month: int -> string, run: seq<Entry>)
    requires IsRun(month, run) && run != []
    ensures var init, last := run[..|run| - 1], run[|run| - 1];
      IsRun(month, init) && Takes(month, End(init), last.step, last.held)
  {
    var init := run[..|run| - 1];
    forall n: nat | n < |init| ensures TakesAt(month, init, n) {
      assert TakesAt(month, run, n) && init[..n] == run[..n] && init[n] == run[n];
    }
    assert TakesAt(month, run, |run| - 1);
  }

  lemma LastTaken(month: int -> string, run: seq<Entry>, e: Entry)
    requires IsRun(month, run + [e])
    ensures Takes(month, End(run), e.step, e.held)
  {
    RunInit(month, run + [e]);
    assert (run + [e])[..|run + [e]| - 1] == run;
  }

  lemma RewriteStep(month: int -> string, run: seq<Entry>)
    requires IsRun(month, run)
    ensures var held := Held(Rewritten(End(run).live), End(run).hourly);
      IsRun(month, run + [Entry(Rewrite, held)]) && End(run + [Entry(Rewrite, held)]) == held
  {
    RunStep(month, run, Rewrite, Held(Rewritten(End(run).live), End(run).hourly));
  }

  /** Files and run are as they were, or `p` has been appended. */
  predicate Grew(was: Held, run: seq<Entry>, now: Held, after: seq<Entry>, p: Point) {
    if now == was then after == run
    else now == Held(was.live + [p], was.hourly) && after == run + [Entry(Append(p), now)]
  }

  /** A step leaves nothing open: it determines the files. */
  lemma TakesUnique(month: int -> string, a: Held, step: Step, b: Held, c: Held)
    requires Takes(month, a, step, b) && Takes(month, a, step, c)
    ensures b == c
  {
    match step
    case Append(_) =>
    case Rewrite =>
    case Archive(memory, cutoff, written) =>
      var late := Before(Taken(a.live, memory), cutoff);
      var x :| WaterArchive.Gathered(month, late, a.hourly, x)
        && WaterArchive.PartlyWritten(x, a.hourly, b.hourly, written);
      var y :| WaterArchive.Gathered(month, late, a.hourly, y)
        && WaterArchive.PartlyWritten(y, a.hourly, c.hourly, written);
      GatheredUnique(month, late, a.hourly, x, y);
      WrittenUnique(x, a.hourly, b.hourly, c.hourly, written);
    case Finish(memory, cutoff) =>
      var late := Before(Taken(a.live, memory), cutoff);
      var x :| WaterArchive.Gathered(month, late, a.hourly, x)
        && WaterArchive.PartlyWritten(x, a.hourly, b.hourly, x.Keys);
      var y :| WaterArchive.Gathered(month, late, a.hourly, y)
        && WaterArchive.PartlyWritten(y, a.hourly, c.hourly, y.Keys);
      GatheredUnique(month, late, a.hourly, x, y);
      WrittenUnique(x, a.hourly, b.hourly, c.hourly, x.Keys);
      BucketingUnique(b.live, c.live, Kept(Taken(a.live, memory), cutoff), TEN_MINUTES);
  }

  lemma GatheredUnique(month: int -> string, late: seq<Point>, hourly: WaterArchive.Files, x: WaterArchive.Files,
          y: WaterArchive.Files)
    requires WaterArchive.Gathered(month, late, hourly, x) && WaterArchive.Gathered(month, late, hourly, y)
    ensures x == y
  {
    forall name ensures (name in x <==> name in y) && (name in x ==> x[name] == y[name]) {
      assert WaterArchive.GatheredFile(month, late, hourly, x, name);
      assert WaterArchive.GatheredFile(month, late, hourly, y, name);
    }
  }

  lemma WrittenUnique(archives: WaterArchive.Files, before: WaterArchive.Files, x: WaterArchive.Files,
          y: WaterArchive.Files, written: set<string>)
    requires WaterArchive.PartlyWritten(archives, before, x, written)
    requires WaterArchive.PartlyWritten(archives, before, y, written)
    ensures x == y
  {
    forall name ensures (name in x <==> name in y) && (name in x ==> x[name] == y[name]) {
      assert WaterArchive.FileState(archives, before, x, name, name in written);
      assert WaterArchive.FileState(archives, before, y, name, name in written);
      if name in written { BucketingUnique(x[name], y[name], archives[name], HOUR); }
    }
  }

  // ----- the history of a run

  /** The points a step adds to the history: those appended, and those taken from memory that reach the disk. */
  function Adds(month: int -> string, live: seq<Point>, step: Step): seq<Point> {
    match step
    case Append(p) => [p]
    case Archive(memory, cutoff, written) =>
      if live == [] then WaterArchive.Filed(month, Before(memory, cutoff), written) else []
    case Finish(memory, cutoff) => if live == [] then Before(memory, cutoff) + Kept(memory, cutoff) else []
    case Rewrite => []
  }

  /** Everything a run ever put on disk, in the order it did. */
  function History(month: int -> string, run: seq<Entry>): seq<Point> {
    if run == [] then []
    else
      var init := run[..|run| - 1];
      History(month, init) + Adds(month, End(init).live, run[|run| - 1].step)
  }

  /** The points of a range, in list order. */
  function Within(s: seq<Point>, lo: int, hi: int): seq<Point> {
    if s == [] then []
    else Within(s[..|s| - 1], lo, hi) + (if lo <= s[|s| - 1].at < hi then [s[|s| - 1]] else [])
  }

  lemma WithinStep(s: seq<Point>, p: Point, lo: int, hi: int)
    ensures Within(s + [p], lo, hi) == Within(s, lo, hi) + if lo <= p.at < hi then [p] else []
  {
    assert (s + [p])[..|s + [p]| - 1] == s;
  }

  /** The reading of hour `h` may be lost, for some levels: read off the instants, or off the points a load drops. */
  predicate Loses(live: seq<Point>, step: Step, h: int) {
    match step
    case Finish(memory, cutoff) =>
      if live == [] then !TensInOrder(Kept(memory, cutoff), h) else !CompactsCleanly(live, cutoff, h)
    case Rewrite => Within(Rewritten(live), h, h + HOUR) != Within(live, h, h + HOUR)
    case _ => false
  }

  predicate Lost(run: seq<Entry>, h: int) {
    run != [] &&
      var init := run[..|run| - 1];
      Lost(init, h) || Loses(End(init).live, run[|run| - 1].step, h)
  }

  /** Lost by a load without a chart file. */
  predicate LostByRewrite(run: seq<Entry>, h: int) {
    run != [] &&
      var init := run[..|run| - 1];
      LostByRewrite(init, h) || (run[|run| - 1].step.Rewrite? && Loses(End(init).live, Rewrite, h))
  }

  lemma {:induction false} FoldWithin(s: seq<Point>, lo: int, hi: int)
    ensures Fold(Within(s, lo, hi), lo, hi) == Fold(s, lo, hi)
  {
    if s != [] {
      var init, last := s[..|s| - 1], s[|s| - 1];
      FoldWithin(init, lo, hi);
      if lo <= last.at < hi {
        FoldStep(Within(init, lo, hi), last, lo, hi);
      } else {
        assert Within(init, lo, hi) + [] == Within(init, lo, hi);
      }
    }
  }

  /** One step, and one hour that it does not lose. */
  lemma StepConserves(month: int -> string, a: Held, step: Step, b: Held, log: seq<Point>, h: int)
    requires WaterArchive.Calendar(month) && h % HOUR == 0
    requires Takes(month, a, step, b) && !Loses(a.live, step, h)
    requires WaterArchive.Conserved(month, a.live, a.hourly, log, h)
    ensures WaterArchive.Conserved(month, b.live, b.hourly, log + Adds(month, a.live, step), h)
  {
    assert log + [] == log;
    match step
    case Append(p) => WaterArchive.AppendConserves(month, a.live, a.hourly, log, p, h);
    case Archive(memory, cutoff, written) => ArchiveConserves(month, a, memory, cutoff, written, b, log, h);
    case Finish(memory, cutoff) => FinishConserves(month, a, memory, cutoff, b, log, h);
    case Rewrite =>
      FoldWithin(a.live, h, h + HOUR);
      FoldWithin(b.live, h, h + HOUR);
  }

  lemma ArchiveConserves(month: int -> string, a: Held, memory: seq<Point>, cutoff: int, written: set<string>, b: Held,
          log: seq<Point>, h: int)
    requires WaterArchive.Calendar(month) && h % HOUR == 0 && Takes(month, a, Archive(memory, cutoff, written), b)
    requires WaterArchive.Conserved(month, a.live, a.hourly, log, h)
    ensures WaterArchive.Conserved(month, b.live, b.hourly,
      log + Adds(month, a.live, Archive(memory, cutoff, written)), h)
  {
    var late := Before(Taken(a.live, memory), cutoff);
    var archives :| WaterArchive.Gathered(month, late, a.hourly, archives)
      && WaterArchive.PartlyWritten(archives, a.hourly, b.hourly, written);
    if a.live == [] {
      WaterArchive.FiledConserves(month, late, a.hourly, archives, b.hourly, log, written, h);
    } else {
      assert log + [] == log;
      WaterArchive.PartialArchiveConserves(month, a.live, a.hourly, archives, b.hourly, log, cutoff, written, h);
    }
  }

  lemma FinishConserves(month: int -> string, a: Held, memory: seq<Point>, cutoff: int, b: Held, log: seq<Point>,
          h: int)
    requires WaterArchive.Calendar(month) && h % HOUR == 0
    requires Takes(month, a, Finish(memory, cutoff), b) && !Loses(a.live, Finish(memory, cutoff), h)
    requires WaterArchive.Conserved(month, a.live, a.hourly, log, h)
    ensures WaterArchive.Conserved(month, b.live, b.hourly, log + Adds(month, a.live, Finish(memory, cutoff)), h)
  {
    var archives :| WaterArchive.Gathered(month, Before(Taken(a.live, memory), cutoff), a.hourly, archives)
      && WaterArchive.PartlyWritten(archives, a.hourly, b.hourly, archives.Keys);
    if a.live == [] {
      MemoryFinishConserves(month, a.hourly, archives, memory, cutoff, b, log, h);
    } else {
      assert log + [] == log;
      WaterArchive.CompactConserves(month, a.live, a.hourly, archives, b.hourly, log, cutoff, b.live, h);
    }
  }

  lemma MemoryFinishConserves(month: int -> string, hourly: WaterArchive.Files, archives: WaterArchive.Files,
          memory: seq<Point>, cutoff: int, b: Held, log: seq<Point>, h: int)
    requires WaterArchive.Calendar(month) && h % HOUR == 0 && TensInOrder(Kept(memory, cutoff), h)
    requires WaterArchive.Gathered(month, Before(memory, cutoff), hourly, archives)
    requires WaterArchive.PartlyWritten(archives, hourly, b.hourly, archives.Keys)
    requires IsBucketing(b.live, Kept(memory, cutoff), TEN_MINUTES)
    requires WaterArchive.Conserved(month, [], hourly, log, h)
    ensures WaterArchive.Conserved(month, b.live, b.hourly, log + (Before(memory, cutoff) + Kept(memory, cutoff)), h)
  {
    var late, kept := Before(memory, cutoff), Kept(memory, cutoff);
    WaterArchive.AllFiledConserves(month, late, hourly, archives, b.hourly, log, h);
    WaterArchive.AdoptedConserves(month, kept, b.hourly, log + late, b.live, h);
    assert log + (late + kept) == (log + late) + kept;
  }

  /**
   * After any run, over whatever clocks and cutoffs and wherever compactions died, archive and sample file together
   * hold for every hour not lost exactly the reading of everything the run put on disk.
   */
  lemma {:induction false} RunConserves(month: int -> string, run: seq<Entry>, h: int)
    requires WaterArchive.Calendar(month) && IsRun(month, run) && h % HOUR == 0 && !Lost(run, h)
    ensures WaterArchive.HourOnDisk(month, End(run).live, End(run).hourly, h) ==
      BucketFold(History(month, run), h, HOUR)
  {
    if run != [] {
      var init, last := run[..|run| - 1], run[|run| - 1];
      RunInit(month, run);
      RunConserves(month, init, h);
      StepConserves(month, End(init), last.step, last.held, History(month, init), h);
    }
  }

  // ----- where a compaction puts each sample

  /** Each sample taken from `from` on stands in the live file, in the point of its ten minutes. */
  ghost predicate KeepsRecent(taken: seq<Point>, live: seq<Point>, from: int) {
    forall p :: p in taken && from <= p.at ==> StandsIn(p, live, TEN_MINUTES)
  }

  ghost predicate StandsIn(p: Point, s: seq<Point>, width: Width) {
    exists q :: q in s && Truncate(q.at, width) == Truncate(p.at, width) && p.at <= q.at
  }

  ghost predicate NothingBefore(s: seq<Point>, from: int) { forall q :: q in s ==> from <= q.at }

  /** Each sample taken before `from` stands in the archive, in the point of its hour. */
  ghost predicate ArchivesOld(month: int -> string, taken: seq<Point>, hourly: WaterArchive.Files, from: int) {
    forall p :: p in taken && p.at < from ==>
      StandsIn(p, WaterArchive.Read(hourly, WaterArchive.ArchiveName(month, p.at)), HOUR)
  }

  /** Every archived point is stamped like one archived before or like a sample taken from before `from`. */
  ghost predicate ArchivesOnlyOld(before: WaterArchive.Files, after: WaterArchive.Files, taken: seq<Point>, from: int) {
    forall name, q :: name in after && q in after[name] ==> FromOld(before, taken, from, name, q)
  }

  ghost predicate FromOld(before: WaterArchive.Files, taken: seq<Point>, from: int, name: string, q: Point) {
    || (exists p :: p in WaterArchive.Read(before, name) && p.at == q.at)
    || exists p :: p in taken && p.at < from && p.at == q.at
  }

  lemma {:induction false} FiledUnderMembers(month: int -> string, s: seq<Point>, name: string)
    ensures forall p :: p in WaterArchive.FiledUnder(month, s, name) <==>
      p in s && WaterArchive.ArchiveName(month, p.at) == name
  {
    if s != [] { FiledUnderMembers(month, s[..|s| - 1], name); }
  }

  lemma {:induction false} BeforeMembers(s: seq<Point>, cutoff: int)
    ensures forall p :: p in Before(s, cutoff) <==> p in s && p.at < cutoff
  {
    if s != [] { BeforeMembers(s[..|s| - 1], cutoff); }
  }

  lemma RewrittenFromOld(month: int -> string, taken: seq<Point>, cutoff: int, before: WaterArchive.Files,
          archives: WaterArchive.Files, after: WaterArchive.Files, written: set<string>, name: string, q: Point)
    requires WaterArchive.Gathered(month, Before(taken, cutoff), before, archives)
    requires WaterArchive.PartlyWritten(archives, before, after, written)
    requires name in after && q in after[name]
    ensures FromOld(before, taken, cutoff, name, q)
  {
    assert WaterArchive.FileState(archives, before, after, name, name in written);
    if name in written {
      assert WaterArchive.GatheredFile(month, Before(taken, cutoff), before, archives, name);
      WaterArchive.BucketedFromSource(after[name], archives[name], HOUR, q);
      var i :| 0 <= i < |archives[name]| && archives[name][i].at == q.at;
      var p := archives[name][i];
      assert p in archives[name];
      FiledUnderMembers(month, Before(taken, cutoff), name);
      BeforeMembers(taken, cutoff);
    } else {
      assert q in WaterArchive.Read(before, name);
    }
  }

  /** Wherever a compaction stops, only samples older than the cutoff have entered the archive. */
  lemma OnlyOldArchived(month: int -> string, a: Held, step: Step, b: Held)
    requires (step.Archive? || step.Finish?) && Takes(month, a, step, b)
    ensures ArchivesOnlyOld(a.hourly, b.hourly, Taken(a.live, step.memory), step.cutoff)
  {
    var taken := Taken(a.live, step.memory);
    var archives :| WaterArchive.Gathered(month, Before(taken, step.cutoff), a.hourly, archives)
      && WaterArchive.PartlyWritten(archives, a.hourly, b.hourly,
           if step.Archive? then step.written else archives.Keys);
    forall name, q | name in b.hourly && q in b.hourly[name] ensures FromOld(a.hourly, taken, step.cutoff, name, q) {
      RewrittenFromOld(month, taken, step.cutoff, a.hourly, archives, b.hourly,
        if step.Archive? then step.written else archives.Keys, name, q);
    }
  }

  /** A finished one leaves the samples from the cutoff on in the live file, and those before it in the archive. */
  lemma FinishPlaces(month: int -> string, a: Held, memory: seq<Point>, cutoff: int, b: Held)
    requires Takes(month, a, Finish(memory, cutoff), b)
    ensures KeepsRecent(Taken(a.live, memory), b.live, cutoff)
    ensures cutoff != ZERO_TIME ==> NothingBefore(b.live, cutoff)
    ensures ArchivesOld(month, Taken(a.live, memory), b.hourly, cutoff)
  {
    var taken := Taken(a.live, memory);
    KeptMembers(taken, cutoff);
    forall p | p in taken && cutoff <= p.at ensures StandsIn(p, b.live, TEN_MINUTES) {
      var q := BucketStandsFor(b.live, Kept(taken, cutoff), TEN_MINUTES, p);
    }
    if cutoff != ZERO_TIME {
      forall q | q in b.live ensures cutoff <= q.at {
        WaterArchive.RecentStamp(taken, cutoff, b.live, q);
      }
    }
    var archives :| WaterArchive.Gathered(month, Before(taken, cutoff), a.hourly, archives)
      && WaterArchive.PartlyWritten(archives, a.hourly, b.hourly, archives.Keys);
    forall p | p in taken && p.at < cutoff
      ensures StandsIn(p, WaterArchive.Read(b.hourly, WaterArchive.ArchiveName(month, p.at)), HOUR)
    {
      OldIsArchived(month, taken, cutoff, a.hourly, archives, b.hourly, p);
    }
  }

  lemma OldIsArchived(month: int -> string, taken: seq<Point>, cutoff: int, before: WaterArchive.Files,
          archives: WaterArchive.Files, after: WaterArchive.Files, p: Point)
    requires WaterArchive.Gathered(month, Before(taken, cutoff), before, archives)
    requires WaterArchive.PartlyWritten(archives, before, after, archives.Keys)
    requires p in taken && p.at < cutoff
    ensures StandsIn(p, WaterArchive.Read(after, WaterArchive.ArchiveName(month, p.at)), HOUR)
  {
    var name := WaterArchive.ArchiveName(month, p.at);
    BeforeMembers(taken, cutoff);
    FiledUnderMembers(month, Before(taken, cutoff), name);
    assert p in WaterArchive.FiledUnder(month, Before(taken, cutoff), name);
    assert WaterArchive.GatheredFile(month, Before(taken, cutoff), before, archives, name);
    assert WaterArchive.FileState(archives, before, after, name, name in archives.Keys);
    assert p in archives[name];
    var q := BucketStandsFor(after[name], archives[name], HOUR, p);
  }

  /** Where a compaction that came as far as `step` has put the samples it took. */
  ghost predicate Places(month: int -> string, a: Held, step: Step, b: Held)
    requires step.Archive? || step.Finish?
  {
    var taken := Taken(a.live, step.memory);
    && ArchivesOnlyOld(a.hourly, b.hourly, taken, step.cutoff)
    && (step.Finish? ==>
      && KeepsRecent(taken, b.live, step.cutoff) && ArchivesOld(month, taken, b.hourly, step.cutoff)
      && (step.cutoff != ZERO_TIME ==> NothingBefore(b.live, step.cutoff)))
  }

  lemma LastPlaces(month: int -> string, run: seq<Entry>, e: Entry)
    requires IsRun(month, run + [e]) && (e.step.Archive? || e.step.Finish?)
    ensures Places(month, End(run), e.step, e.held)
  {
    LastTaken(month, run, e);
    OnlyOldArchived(month, End(run), e.step, e.held);
    if e.step.Finish? { FinishPlaces(month, End(run), e.step.memory, e.step.cutoff, e.held); }
  }

  // ----- runs in time order

  lemma StepFollows(month: int -> string, a: Held, step: Step, b: Held, log: seq<Point>)
    requires Takes(month, a, step, b) && InOrder(log + Adds(month, a.live, step)) && WaterArchive.Follows(a.live, log)
    ensures WaterArchive.Follows(b.live, log + Adds(month, a.live, step))
  {
    assert log + [] == log;
    match step
    case Append(p) => WaterArchive.AppendFollows(a.live, log, p);
    case Archive(_, _, _) =>
    case Finish(memory, cutoff) =>
      if a.live == [] {
        MemoryFollows(memory, cutoff, b.live, log);
      } else {
        WaterArchive.RecentFollows(a.live, log, cutoff, b.live);
      }
    case Rewrite => TrimmedOrdered(a.live);
  }

  lemma MemoryFollows(memory: seq<Point>, cutoff: int, recent: seq<Point>, log: seq<Point>)
    requires InOrder(log + (Before(memory, cutoff) + Kept(memory, cutoff)))
    requires IsBucketing(recent, Kept(memory, cutoff), TEN_MINUTES)
    ensures WaterArchive.Follows(recent, log + (Before(memory, cutoff) + Kept(memory, cutoff)))
  {
    var late, kept := Before(memory, cutoff), Kept(memory, cutoff);
    assert log + (late + kept) == (log + late) + kept;
    WaterArchive.AdoptedFollows(kept, log + late, recent);
  }

  lemma {:induction false} RunFollows(month: int -> string, run: seq<Entry>)
    requires IsRun(month, run) && InOrder(History(month, run))
    ensures WaterArchive.Follows(End(run).live, History(month, run))
  {
    if run != [] {
      var init, last := run[..|run| - 1], run[|run| - 1];
      WaterArchive.InOrderPrefix(History(month, init), Adds(month, End(init).live, last.step));
      RunInit(month, run);
      RunFollows(month, init);
      StepFollows(month, End(init), last.step, last.held, History(month, init));
    }
  }

  lemma StepInOrderLosesNothing(month: int -> string, live: seq<Point>, step: Step, log: seq<Point>, h: int)
    requires !step.Rewrite? && InOrder(live) && InOrder(log + Adds(month, live, step))
    ensures !Loses(live, step, h)
  {
    match step
    case Finish(memory, cutoff) =>
      if live == [] {
        var late, kept := Before(memory, cutoff), Kept(memory, cutoff);
        assert log + (late + kept) == (log + late) + kept;
        WaterArchive.InOrderPrefix(log + late, kept);
        InOrderCompactsCleanly(kept, ZERO_TIME, h);
      } else {
        InOrderCompactsCleanly(live, cutoff, h);
      }
    case _ =>
  }

  /** If what a run put on disk is in time order, no compaction in it loses anything. */
  lemma {:induction false} InOrderLosesNothing(month: int -> string, run: seq<Entry>, h: int)
    requires IsRun(month, run) && InOrder(History(month, run))
    ensures Lost(run, h) <==> LostByRewrite(run, h)
  {
    if run != [] {
      var init, last := run[..|run| - 1], run[|run| - 1];
      WaterArchive.InOrderPrefix(History(month, init), Adds(month, End(init).live, last.step));
      RunInit(month, run);
      InOrderLosesNothing(month, init, h);
      RunFollows(month, init);
      if !last.step.Rewrite? {
        StepInOrderLosesNothing(month, End(init).live, last.step, History(month, init), h);
      }
    }
  }

  /** So such a run keeps every hour, unless a load without a chart file dropped a sample of it. */
  lemma InOrderRunConserves(month: int -> string, run: seq<Entry>, h: int)
    requires WaterArchive.Calendar(month) && IsRun(month, run) && InOrder(History(month, run)) && h % HOUR == 0
    requires !LostByRewrite(run, h)
    ensures WaterArchive.HourOnDisk(month, End(run).live, End(run).hourly, h) ==
      BucketFold(History(month, run), h, HOUR)
  {
    InOrderLosesNothing(month, run, h);
    RunConserves(month, run, h);
  }

  lemma TrimmedOrdered(live: seq<Point>)
    requires InOrder(live)
    ensures var kept := Rewritten(live);
      InOrder(kept) && (kept != [] ==> live != [] && kept[|kept| - 1].at <= live[|live| - 1].at)
  {
    CompactOrdered(live);
    TrimmedInOrder(CompactSamples(live));
    if CompactSamples(live) != [] { TrimmedLast(CompactSamples(live)); }
  }

  lemma TrimmedInOrder(s: seq<Point>)
    requires InOrder(s)
    ensures InOrder(Trimmed(s))
  {
    if s != [] { SinceOrdered(s, s[|s| - 1].at - AVERAGE_WINDOW); }
  }

  lemma TrimmedLast(samples: seq<Point>)
    requires samples != []
    ensures Trimmed(samples) != [] && Trimmed(samples)[|Trimmed(samples)| - 1] == samples[|samples| - 1]
  {
    var last := samples[|samples| - 1];
    assert samples == samples[..|samples| - 1] + [last];
    SinceStep(samples[..|samples| - 1], last, last.at - AVERAGE_WINDOW);
  }

  lemma {:induction false} CompactOrdered(log: seq<Point>)
    requires InOrder(log)
    ensures InOrder(CompactSamples(log))
    ensures forall p :: p in CompactSamples(log) ==> p in log
    ensures CompactSamples(log) != [] ==>
      log != [] && CompactSamples(log)[|CompactSamples(log)| - 1].at <= log[|log| - 1].at
  {
    if log != [] {
      var init := log[..|log| - 1];
      CompactOrdered(init);
      var kept := CompactSamples(init);
      forall i | 0 <= i < |kept| ensures kept[i].at <= log[|log| - 1].at {
        assert kept[i] in init;
        var m :| 0 <= m < |init| && init[m] == kept[i];
        assert log[m] == kept[i];
      }
    }
  }
}
