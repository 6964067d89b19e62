/** service/waterhistory/store.go: what Compact keeps of the log across the live file and the hourly archive. */
module WaterArchive {
  import opened Wrappers
  import opened Instants
  import opened WaterPoints
  import opened WaterTens

  type Files = map<string, seq<Point>>

  /** The labels of time.Format("2006-01"), constant over a UTC hour. */
  ghost predicate Calendar(month: int -> string) {
    forall t: int :: month(t) == month(Truncate(t, HOUR))
  }

  const PREFIX := "samples-"
  const EXT := ".ndjson"

  function ArchiveName(month: int -> string, at: int): string {
    PREFIX + month(at) + EXT
  }

  predicate IsArchiveName(name: string) {
    PREFIX <= name && |name| >= |EXT| && name[|name| - |EXT|..] == EXT
  }

  lemma ArchiveNameAccepted(month: int -> string, at: int)
    ensures IsArchiveName(ArchiveName(month, at))
  {
    var name := ArchiveName(month, at);
    assert name[..|PREFIX|] == PREFIX;
    assert name[|name| - |EXT|..] == EXT;
  }

  function Read(files: Files, name: string): seq<Point> {
    if name in files then files[name] else []
  }

  /** The points that belong in archive file `name`. */
  function FiledUnder(month: int -> string, s: seq<Point>, name: string): seq<Point> {
    if s == [] then []
    else
      FiledUnder(month, s[..|s| - 1], name) + (if ArchiveName(month, s[|s| - 1].at) == name then [s[|s| - 1]] else [])
  }

  /** An hour's merge over its archive file and then the live file. */
  function HourOnDisk(month: int -> string, live: seq<Point>, hourly: Files, h: int): Option<Point> {
    Join(BucketFold(Read(hourly, ArchiveName(month, h)), h, HOUR), BucketFold(live, h, HOUR))
  }

  /** For the hour `h`, bucketing of archive and live file is bucketing of everything ever appended. */
  predicate Conserved(month: int -> string, live: seq<Point>, hourly: Files, log: seq<Point>, h: int) {
    HourOnDisk(month, live, hourly, h) == BucketFold(log, h, HOUR)
  }

  /** The live file is in time order and ends no later than the log. */
  predicate Follows(live: seq<Point>, log: seq<Point>) {
    && InOrder(live)
    && (live != [] ==> log != [] && live[|live| - 1].at <= log[|log| - 1].at)
  }

  lemma AppendFollows(live: seq<Point>, log: seq<Point>, p: Point)
    requires InOrder(log + [p]) && (InOrder(log) ==> Follows(live, log))
    ensures Follows(live + [p], log + [p])
  {
    InOrderPrefix(log, [p]);
    if log != [] { assert (log + [p])[|log| - 1].at <= (log + [p])[|log|].at; }
  }

  lemma InOrderPrefix(s: seq<Point>, t: seq<Point>)
    requires InOrder(s + t)
    ensures InOrder(s) && InOrder(t)
  {
    forall i, j | 0 <= i < j < |s| ensures s[i].at <= s[j].at {
      assert (s + t)[i].at <= (s + t)[j].at;
    }
    forall i, j | 0 <= i < j < |t| ensures t[i].at <= t[j].at {
      assert (s + t)[|s| + i].at <= (s + t)[|s| + j].at;
    }
  }

  lemma AppendConserves(month: int -> string, live: seq<Point>, hourly: Files, log: seq<Point>, p: Point, h: int)
    requires Conserved(month, live, hourly, log, h)
    ensures Conserved(month, live + [p], hourly, log + [p], h)
  {
    FoldStep(live, p, h, h + HOUR);
    FoldStep(log, p, h, h + HOUR);
    JoinAssociative(BucketFold(Read(hourly, ArchiveName(month, h)), h, HOUR), BucketFold(live, h, HOUR),
                    if h <= p.at < h + HOUR then Some(p) else None);
  }

  /** All points of an hour are filed under that hour's file. */
  lemma {:induction false} FiledFold(month: int -> string, s: seq<Point>, h: int)
    requires Calendar(month) && h % HOUR == 0
    ensures BucketFold(FiledUnder(month, s, ArchiveName(month, h)), h, HOUR) == BucketFold(s, h, HOUR)
  {
    if s != [] {
      var init, last := s[..|s| - 1], s[|s| - 1];
      var filed := FiledUnder(month, init, ArchiveName(month, h));
      FiledFold(month, init, h);
      if ArchiveName(month, last.at) == ArchiveName(month, h) {
        FoldStep(filed, last, h, h + HOUR);
      } else {
        assert filed + [] == filed;
        BucketBounds(last.at, h, HOUR);
        assert month(last.at) == month(Truncate(last.at, HOUR));
      }
    }
  }

  lemma FiledStep(month: int -> string, s: seq<Point>, p: Point, name: string)
    ensures FiledUnder(month, s + [p], name) ==
      if ArchiveName(month, p.at) == name then FiledUnder(month, s, name) + [p] else FiledUnder(month, s, name)
  {
    assert (s + [p])[..|s + [p]| - 1] == s;
  }

  // ----- compaction at a cutoff

  /** File `name` of the in-memory archive map before it is written back: stored points, then newly expired ones. */
  ghost predicate GatheredFile(month: int -> string, late: seq<Point>, hourly: Files, archives: Files, name: string) {
    && (name in archives <==> (name in hourly && IsArchiveName(name)) || FiledUnder(month, late, name) != [])
    && (name in archives ==> archives[name] == Read(hourly, name) + FiledUnder(month, late, name))
  }

  ghost predicate Gathered(month: int -> string, late: seq<Point>, hourly: Files, archives: Files) {
    forall name :: GatheredFile(month, late, hourly, archives, name)
  }

  lemma GatheredNothing(month: int -> string, hourly: Files, archives: Files)
    requires archives == map name | name in hourly && IsArchiveName(name) :: hourly[name]
    ensures Gathered(month, [], hourly, archives)
  {
    forall name ensures GatheredFile(month, [], hourly, archives, name) {
      if name in archives { assert hourly[name] + [] == hourly[name]; }
    }
  }

  lemma GatheredStep(month: int -> string, late: seq<Point>, hourly: Files, archives: Files, p: Point)
    requires Gathered(month, late, hourly, archives)
    ensures var name := ArchiveName(month, p.at);
      Gathered(month, late + [p], hourly, archives[name := Read(archives, name) + [p]])
  {
    var target := ArchiveName(month, p.at);
    var archives' := archives[target := Read(archives, target) + [p]];
    forall name ensures GatheredFile(month, late + [p], hourly, archives', name) {
      assert GatheredFile(month, late, hourly, archives, name);
      FiledStep(month, late, p, name);
      if name == target { GatheredTarget(month, late, hourly, archives, p); }
    }
  }

  lemma GatheredTarget(month: int -> string, late: seq<Point>, hourly: Files, archives: Files, p: Point)
    requires GatheredFile(month, late, hourly, archives, ArchiveName(month, p.at))
    ensures var name := ArchiveName(month, p.at);
      Read(archives, name) + [p] == Read(hourly, name) + (FiledUnder(month, late, name) + [p])
  {
    var name := ArchiveName(month, p.at);
    ArchiveNameAccepted(month, p.at);
    if name !in archives { assert Read(hourly, name) == []; }
  }

  /** Archive file `name` is untouched, or rewritten as the hourly bucketing of its gathered points. */
  ghost predicate FileState(archives: Files, before: Files, after: Files, name: string, isWritten: bool) {
    if isWritten then
      name in archives && name in after && IsBucketing(after[name], archives[name], HOUR)
    else
      (name in after <==> name in before) && (name in before ==> after[name] == before[name])
  }

  ghost predicate PartlyWritten(archives: Files, before: Files, after: Files, written: set<string>) {
    forall name {:trigger name in written} {:trigger name in after} ::
      FileState(archives, before, after, name, name in written)
  }

  /** Rewriting one more gathered file. */
  lemma WriteStep(archives: Files, before: Files, after: Files, written: set<string>, name: string,
          bucketed: seq<Point>)
    requires PartlyWritten(archives, before, after, written)
    requires name in archives && IsBucketing(bucketed, Kept(archives[name], ZERO_TIME), HOUR)
    ensures PartlyWritten(archives, before, after[name := bucketed], written + {name})
  {
    forall n ensures FileState(archives, before, after[name := bucketed], n, n in written + {name}) {
      assert FileState(archives, before, after, n, n in written);
    }
  }

  /**
   * An hour's archive file after partial writing holds what it held, joined with all or nothing of its expired points.
   */
  lemma HourAfterWriting(month: int -> string, late: seq<Point>, before: Files, archives: Files, after: Files,
          written: set<string>, h: int)
    requires Calendar(month) && h % HOUR == 0
    requires Gathered(month, late, before, archives) && PartlyWritten(archives, before, after, written)
    ensures var name := ArchiveName(month, h);
      BucketFold(Read(after, name), h, HOUR) ==
      if name in written then Join(BucketFold(Read(before, name), h, HOUR), BucketFold(late, h, HOUR))
      else BucketFold(Read(before, name), h, HOUR)
    ensures ArchiveName(month, h) !in archives ==> BucketFold(late, h, HOUR) == None
  {
    var name := ArchiveName(month, h);
    FiledFold(month, late, h);
    assert FileState(archives, before, after, name, name in written);
    assert GatheredFile(month, late, before, archives, name);
    if name in written {
      assert BucketFold(after[name], h, HOUR) == BucketFold(archives[name], h, HOUR);
      FoldAppend(Read(before, name), FiledUnder(month, late, name), h, h + HOUR);
    }
  }

  /** An hour after partial archiving, joined with the live file as it was. */
  lemma PartialHour(month: int -> string, live: seq<Point>, before: Files, archives: Files, after: Files, cutoff: int,
          written: set<string>, h: int)
    requires Calendar(month) && h % HOUR == 0
    requires Gathered(month, Before(live, cutoff), before, archives) && PartlyWritten(archives, before, after, written)
    ensures HourOnDisk(month, live, after, h) == HourOnDisk(month, live, before, h)
  {
    HourAfterWriting(month, Before(live, cutoff), before, archives, after, written, h);
    BeforeAbsorbed(live, cutoff, h, h + HOUR);
    JoinAssociative(BucketFold(Read(before, ArchiveName(month, h)), h, HOUR),
                    BucketFold(Before(live, cutoff), h, HOUR), BucketFold(live, h, HOUR));
  }

  /** Stopping anywhere among the archive writes conserves any hour of any log. */
  lemma PartialArchiveConserves(month: int -> string, live: seq<Point>, before: Files, archives: Files, after: Files,
                                log: seq<Point>, cutoff: int, written: set<string>, h: int)
    requires Calendar(month) && h % HOUR == 0 && Conserved(month, live, before, log, h)
    requires Gathered(month, Before(live, cutoff), before, archives) && PartlyWritten(archives, before, after, written)
    ensures Conserved(month, live, after, log, h)
  {
    PartialHour(month, live, before, archives, after, cutoff, written, h);
  }

  /**
   * Finishing with the live file rewritten to its recent ten-minute buckets conserves every hour in which the live file
   * compacts cleanly, whatever happens in the others.
   */
  lemma CompactConserves(month: int -> string, live: seq<Point>, before: Files, archives: Files, after: Files,
                         log: seq<Point>, cutoff: int, recent: seq<Point>, h: int)
    requires Calendar(month) && h % HOUR == 0 && Conserved(month, live, before, log, h)
    requires CompactsCleanly(live, cutoff, h)
    requires Gathered(month, Before(live, cutoff), before, archives)
    requires PartlyWritten(archives, before, after, archives.Keys)
    requires IsBucketing(recent, Kept(live, cutoff), TEN_MINUTES)
    ensures Conserved(month, recent, after, log, h)
  {
    HourAfterWriting(month, Before(live, cutoff), before, archives, after, archives.Keys, h);
    CleanCompactionKeeps(live, cutoff, h);
    HourOfBucketing(recent, Kept(live, cutoff), h);
    JoinAssociative(BucketFold(Read(before, ArchiveName(month, h)), h, HOUR),
                    BucketFold(Before(live, cutoff), h, HOUR), BucketFold(recent, h, HOUR));
  }

  // ----- over an empty live file the samples in memory are compacted

  /** The points that went into the archive files written. */
  function Filed(month: int -> string, s: seq<Point>, written: set<string>): seq<Point> {
    if s == [] then []
    else
      Filed(month, s[..|s| - 1], written) + (if ArchiveName(month, s[|s| - 1].at) in written then [s[|s| - 1]] else [])
  }

  lemma {:induction false} FiledHour(month: int -> string, s: seq<Point>, written: set<string>, h: int)
    requires Calendar(month) && h % HOUR == 0
    ensures BucketFold(Filed(month, s, written), h, HOUR) ==
      if ArchiveName(month, h) in written then BucketFold(s, h, HOUR) else None
  {
    if s != [] {
      var init, last := s[..|s| - 1], s[|s| - 1];
      FiledHour(month, init, written, h);
      BucketBounds(last.at, h, HOUR);
      assert month(last.at) == month(Truncate(last.at, HOUR));
      if ArchiveName(month, last.at) in written {
        FoldStep(Filed(month, init, written), last, h, h + HOUR);
      } else {
        assert Filed(month, init, written) + [] == Filed(month, init, written);
      }
    }
  }

  lemma {:induction false} FiledAll(month: int -> string, s: seq<Point>, written: set<string>)
    requires forall i :: 0 <= i < |s| ==> ArchiveName(month, s[i].at) in written
    ensures Filed(month, s, written) == s
  {
    if s != [] { FiledAll(month, s[..|s| - 1], written); }
  }

  lemma {:induction false} FiledUnderOwn(month: int -> string, s: seq<Point>, i: nat)
    requires i < |s|
    ensures FiledUnder(month, s, ArchiveName(month, s[i].at)) != []
  {
    if i < |s| - 1 { FiledUnderOwn(month, s[..|s| - 1], i); }
  }

  lemma AllFiled(month: int -> string, late: seq<Point>, before: Files, archives: Files)
    requires Gathered(month, late, before, archives)
    ensures Filed(month, late, archives.Keys) == late
  {
    forall i | 0 <= i < |late| ensures ArchiveName(month, late[i].at) in archives.Keys {
      assert GatheredFile(month, late, before, archives, ArchiveName(month, late[i].at));
      FiledUnderOwn(month, late, i);
    }
    FiledAll(month, late, archives.Keys);
  }

  /** Stopping anywhere leaves the history of the log and of what was filed. */
  lemma FiledConserves(month: int -> string, late: seq<Point>, before: Files, archives: Files, after: Files,
                       log: seq<Point>, written: set<string>, h: int)
    requires Calendar(month) && h % HOUR == 0 && Conserved(month, [], before, log, h)
    requires Gathered(month, late, before, archives) && PartlyWritten(archives, before, after, written)
    ensures Conserved(month, [], after, log + Filed(month, late, written), h)
  {
    HourAfterWriting(month, late, before, archives, after, written, h);
    FiledHour(month, late, written, h);
    FoldAppend(log, Filed(month, late, written), h, h + HOUR);
  }

  lemma AllFiledConserves(month: int -> string, late: seq<Point>, before: Files, archives: Files, after: Files,
                          log: seq<Point>, h: int)
    requires Calendar(month) && h % HOUR == 0 && Conserved(month, [], before, log, h)
    requires Gathered(month, late, before, archives) && PartlyWritten(archives, before, after, archives.Keys)
    ensures Conserved(month, [], after, log + late, h)
  {
    FiledConserves(month, late, before, archives, after, log, archives.Keys, h);
    AllFiled(month, late, before, archives);
  }

  /** And writing the recent buckets adds the rest. */
  lemma AdoptedConserves(month: int -> string, kept: seq<Point>, hourly: Files, log: seq<Point>, recent: seq<Point>,
                         h: int)
    requires h % HOUR == 0 && Conserved(month, [], hourly, log, h) && TensInOrder(kept, h)
    requires IsBucketing(recent, kept, TEN_MINUTES)
    ensures Conserved(month, recent, hourly, log + kept, h)
  {
    HourlyAfterOrderedTens(recent, kept, h);
    FoldAppend(log, kept, h, h + HOUR);
  }

  /** What is filed again when a compaction that died is repeated counts once. */
  lemma RefiledCountsOnce(month: int -> string, log: seq<Point>, late: seq<Point>, written: set<string>, h: int)
    requires Calendar(month) && h % HOUR == 0
    ensures BucketFold(log + Filed(month, late, written) + late, h, HOUR) == BucketFold(log + late, h, HOUR)
  {
    var filed := Filed(month, late, written);
    FiledHour(month, late, written, h);
    FoldAppend(log + filed, late, h, h + HOUR);
    FoldAppend(log, filed, h, h + HOUR);
    FoldAppend(log, late, h, h + HOUR);
    JoinAssociative(BucketFold(log, h, HOUR), BucketFold(filed, h, HOUR), BucketFold(late, h, HOUR));
  }

  lemma AdoptedFollows(kept: seq<Point>, log: seq<Point>, recent: seq<Point>)
    requires InOrder(log + kept) && IsBucketing(recent, kept, TEN_MINUTES)
    ensures Follows(recent, log + kept)
  {
    OnePerBucketInOrder(recent, TEN_MINUTES);
    if recent != [] {
      BucketedFromSource(recent, kept, TEN_MINUTES, recent[|recent| - 1]);
      var i :| 0 <= i < |kept| && kept[i].at == recent[|recent| - 1].at;
      assert (log + kept)[|log| + i] == kept[i];
    }
  }

  lemma RecentFollows(live: seq<Point>, log: seq<Point>, cutoff: int, recent: seq<Point>)
    requires Follows(live, log) && IsBucketing(recent, Kept(live, cutoff), TEN_MINUTES)
    ensures Follows(recent, log)
  {
    OnePerBucketInOrder(recent, TEN_MINUTES);
    if recent != [] {
      var last := recent[|recent| - 1];
      RecentStamp(live, cutoff, recent, last);
      var m :| 0 <= m < |live| && live[m].at == last.at;
      assert m < |live| - 1 ==> live[m].at <= live[|live| - 1].at;
    }
  }

  lemma RecentStamp(live: seq<Point>, cutoff: int, recent: seq<Point>, p: Point)
    requires IsBucketing(recent, Kept(live, cutoff), TEN_MINUTES) && p in recent
    ensures exists m :: 0 <= m < |live| && live[m].at == p.at && Keeps(live[m], cutoff)
  {
    BucketedFromSource(recent, Kept(live, cutoff), TEN_MINUTES, p);
    var j :| 0 <= j < |Kept(live, cutoff)| && Kept(live, cutoff)[j].at == p.at;
    var source := Kept(live, cutoff)[j];
    SinceMembers(live, cutoff);
    assert source in live;
    var m :| 0 <= m < |live| && live[m] == source;
  }

  /** A bucket is stamped with the instant of one of its points. */
  lemma BucketedFromSource(out: seq<Point>, s: seq<Point>, width: Width, p: Point)
    requires IsBucketing(out, s, width) && p in out
    ensures exists i :: 0 <= i < |s| && s[i].at == p.at
  {
    var k := Truncate(p.at, width);
    BucketBounds(p.at, 0, width);
    BucketBounds(p.at, k, width);
    FoldOfMember(out, width, k, p);
    assert BucketFold(out, k, width) == BucketFold(s, k, width);
    FoldStampFromSource(s, k, k + width);
  }

  lemma {:induction false} FoldStampFromSource(s: seq<Point>, lo: int, hi: int)
    requires Fold(s, lo, hi).Some?
    ensures exists i :: 0 <= i < |s| && s[i].at == Fold(s, lo, hi).value.at
  {
    var init, last := s[..|s| - 1], s[|s| - 1];
    if Fold(init, lo, hi).Some? {
      FoldStampFromSource(init, lo, hi);
      var i :| 0 <= i < |init| && init[i].at == Fold(init, lo, hi).value.at;
      assert s[i] == init[i];
    }
    assert s[|s| - 1] == last;
  }

  // ----- idempotence

  /** The disk is as a completed compaction at `cutoff` leaves it. */
  ghost predicate Settled(live: seq<Point>, hourly: Files, cutoff: int) {
    && OnePerBucket(live, TEN_MINUTES)
    && (forall i :: 0 <= i < |live| ==> cutoff <= live[i].at)
    && forall name :: name in hourly && IsArchiveName(name) ==> OnePerBucket(hourly[name], HOUR)
  }

  lemma CompletedSettles(month: int -> string, live: seq<Point>, before: Files, archives: Files, after: Files,
                         cutoff: int, recent: seq<Point>)
    requires cutoff != ZERO_TIME
    requires Gathered(month, Before(live, cutoff), before, archives)
    requires PartlyWritten(archives, before, after, archives.Keys)
    requires IsBucketing(recent, Kept(live, cutoff), TEN_MINUTES)
    ensures Settled(recent, after, cutoff)
  {
    forall i | 0 <= i < |recent| ensures cutoff <= recent[i].at {
      RecentStamp(live, cutoff, recent, recent[i]);
      var m :| 0 <= m < |live| && live[m].at == recent[i].at && Keeps(live[m], cutoff);
    }
    forall name | name in after && IsArchiveName(name) ensures OnePerBucket(after[name], HOUR) {
      assert FileState(archives, before, after, name, name in archives.Keys);
      assert GatheredFile(month, Before(live, cutoff), before, archives, name);
    }
  }

  lemma {:induction false} NothingExpired(live: seq<Point>, cutoff: int)
    requires forall i :: 0 <= i < |live| ==> cutoff <= live[i].at
    ensures Before(live, cutoff) == [] && Since(live, cutoff) == live
  {
    if live != [] {
      var init, last := live[..|live| - 1], live[|live| - 1];
      assert cutoff <= last.at && live == init + [last];
      NothingExpired(init, cutoff);
      assert Before(live, cutoff) == Before(init, cutoff) + [];
    }
  }

  /** A second compaction at the same cutoff changes nothing. */
  lemma SettledUnchanged(month: int -> string, live: seq<Point>, before: Files, archives: Files, after: Files,
                         cutoff: int, recent: seq<Point>, written: set<string>)
    requires Settled(live, before, cutoff)
    requires Gathered(month, Before(live, cutoff), before, archives) && PartlyWritten(archives, before, after, written)
    requires IsBucketing(recent, Kept(live, cutoff), TEN_MINUTES)
    ensures recent == live && after == before
  {
    NothingExpired(live, cutoff);
    BucketingIdempotent(recent, live, TEN_MINUTES);
    forall name ensures (name in after <==> name in before) && (name in before ==> after[name] == before[name]) {
      assert FileState(archives, before, after, name, name in written);
      assert GatheredFile(month, [], before, archives, name);
      if name in written {
        SettledFileUnchanged(month, live, before, archives, after, cutoff, name);
      }
    }
  }

  lemma SettledFileUnchanged(month: int -> string, live: seq<Point>, before: Files, archives: Files, after: Files,
                             cutoff: int, name: string)
    requires Settled(live, before, cutoff) && Before(live, cutoff) == []
    requires GatheredFile(month, [], before, archives, name) && FileState(archives, before, after, name, true)
    requires name in before && IsArchiveName(name)
    ensures name in after && after[name] == before[name]
  {
    assert FiledUnder(month, [], name) == [];
    assert archives[name] == before[name] + [] == before[name];
    BucketingIdempotent(after[name], before[name], HOUR);
  }
}
