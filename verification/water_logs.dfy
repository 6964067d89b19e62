/**
 * service/waterhistory/store.go: logs that Observe does write and on which a restart or a compaction loses something.
 */
module WaterLogs {
  import opened Wrappers
  import opened Instants
  import opened WaterPoints
  import opened WaterChart
  import opened WaterLevels
  import opened WaterTens
  import opened WaterRuns
  import opened WaterStore
  import WaterArchive

  /**
   * A sample older than the last is stored at the observation's clock, which may be no later than the last sample's
   * instant.
   */
  lemma ObserveStoresOffline(at: int, a: real, older: int, b: real, clock: int, o: Options)
    requires 0.0 <= a <= 100.0 && 0.0 <= b <= 100.0 && a != b && at != ZERO_TIME && older != ZERO_TIME && older < at
    ensures var first := Admit(NEW_STATE, [], Point(at, Some(a), None), at);
      var (s, events) := Do(NEW_STATE, [], Sampled(Point(at, Some(a), None), at), o);
      var second := Admit(s, events, Point(older, Some(b), None), clock);
      LogAfter(LogAfter([], first), second) == [Point(at, Some(a), None), Point(clock, Some(b), None)]
  {
    var p := Point(at, Some(a), None);
    assert Admit(NEW_STATE, [], p, at) == Admitted(p, false);
    var (s, events) := Do(NEW_STATE, [], Sampled(p, at), o);
    assert s.lastSampleAt == Some(at);
  }

  /**
   * Observed at the last sample's own instant, an older sample ties with it; a crash between the two chart writes then
   * loses it from the chart.
   */
  lemma ObservedTieIsSkipped(at: int, a: real, older: int, b: real, o: Options)
    requires 0.0 <= a <= 100.0 && 0.0 <= b <= 100.0 && Round(a) != Round(b) && at != ZERO_TIME && older != ZERO_TIME
    requires older < at
    ensures var first := Admit(NEW_STATE, [], Point(at, Some(a), None), at);
      var (s, events) := Do(NEW_STATE, [], Sampled(Point(at, Some(a), None), at), o);
      var log := LogAfter(LogAfter([], first), Admit(s, events, Point(older, Some(b), None), at));
      && |log| == 2 && !Resumes(log, 1)
      && Restored(Persisted(ChartFold(log[..1])), log).samples != ChartFold(log).samples
  {
    ObserveStoresOffline(at, a, older, b, at, o);
    TieDoesNotResume(Point(at, Some(a), None), Point(at, Some(b), None));
    TiedSampleSkipped(at, a, b);
  }

  lemma TieDoesNotResume(p: Point, q: Point)
    requires p.at == q.at
    ensures !Resumes([p, q], 1)
  {
  }

  /**
   * Observed by a clock that stepped back into an earlier ten minutes, an older sample is stored out of order;
   * compaction then changes the hour's level.
   */
  lemma ObservedStepBackIsLost(older: int, o: Options, ten: seq<Point>)
    requires older < TEN_MINUTES && older != ZERO_TIME
    requires var first := Admit(NEW_STATE, [], Point(TEN_MINUTES, Some(80.0), None), TEN_MINUTES);
      var (s, events) := Do(NEW_STATE, [], Sampled(Point(TEN_MINUTES, Some(80.0), None), TEN_MINUTES), o);
      IsBucketing(ten, LogAfter(LogAfter([], first), Admit(s, events, Point(older, Some(20.0), None), 0)), TEN_MINUTES)
    ensures Fold(ten, 0, HOUR) != Fold([Point(TEN_MINUTES, Some(80.0), None), Point(0, Some(20.0), None)], 0, HOUR)
  {
    ObserveStoresOffline(TEN_MINUTES, 80.0, older, 20.0, 0, o);
    OutOfOrderTensDisagree(ten);
  }

  /**
   * Two samples of one ten minutes out of order, with the cutoff between them: compaction archives the later one and
   * keeps the earlier, whose level the hour then reads.
   */
  lemma AcrossCutoffIsLost(at: int, clock: int, cutoff: int)
    requires clock < cutoff <= at && cutoff != ZERO_TIME && Truncate(at, TEN_MINUTES) == Truncate(clock, TEN_MINUTES)
    ensures var log, h := [Point(at, Some(80.0), None), Point(clock, Some(20.0), None)], Truncate(at, HOUR);
      && TensInOrder(log, h)
      && Compacted(log, cutoff, h).Some? && Compacted(log, cutoff, h).value.freshPct == Some(80.0)
      && Fold(log, h, h + HOUR).Some? && Fold(log, h, h + HOUR).value.freshPct == Some(20.0)
  {
    var log := [Point(at, Some(80.0), None), Point(clock, Some(20.0), None)];
    var k := TenOf(at);
    var m := TenOf(clock);
    HourIs(clock, Truncate(at, HOUR));
    assert TwoLevels(log, 0, 1) == log;
    UncleanLoses(log, cutoff, 0, 1);
  }

  /** Observe stores them, by a clock that stepped back: at 605 and 601 seconds, say, with the cutoff at 603. */
  lemma ObservedAcrossCutoffIsLost(at: int, older: int, clock: int, cutoff: int, o: Options)
    requires at != ZERO_TIME && older != ZERO_TIME && older < at
    requires clock < cutoff <= at && cutoff != ZERO_TIME && Truncate(at, TEN_MINUTES) == Truncate(clock, TEN_MINUTES)
    ensures var p, h := Point(at, Some(80.0), None), Truncate(at, HOUR);
      var (s, events) := Do(NEW_STATE, [], Sampled(p, at), o);
      var log := LogAfter(LogAfter([], Admit(NEW_STATE, [], p, at)),
        Admit(s, events, Point(older, Some(20.0), None), clock));
      |log| == 2 && TensInOrder(log, h) && Compacted(log, cutoff, h) != Fold(log, h, h + HOUR)
  {
    ObserveStoresOffline(at, 80.0, older, 20.0, clock, o);
    AcrossCutoffIsLost(at, clock, cutoff);
  }

  // ----- a missing chart file

  /** Levels that make any two neighbours differ, with a fresh one at `k` only. */
  function Alternating(s: seq<Point>, k: nat): seq<Point> {
    seq(|s|, i requires 0 <= i < |s| =>
      Point(s[i].at, if i == k then Some(50.0) else None, Some(if i % 2 == 0 then 0.0 else 1.0)))
  }

  lemma {:induction false} AlternatingSpaced(s: seq<Point>, k: nat, n: nat)
    requires n <= |s|
    ensures Spaced(Alternating(s, k)[..n])
  {
    var t := Alternating(s, k);
    if n > 1 {
      AlternatingSpaced(s, k, n - 1);
      assert t[..n] == t[..n - 1] + [t[n - 1]];
      SpacedStep(t[..n - 1], t[n - 1]);
    }
  }

  ghost predicate RewriteKeepsHour(s: seq<Point>, h: int) {
    Fold(Rewritten(s), h, h + HOUR) == Fold(s, h, h + HOUR)
  }

  lemma AlternatingKept(s: seq<Point>, k: nat)
    ensures var t := Alternating(s, k); SameInstants(s, t) && Spaced(t)
  {
    AlternatingSpaced(s, k, |s|);
    assert Alternating(s, k)[..|s|] == Alternating(s, k);
  }

  lemma SinceHasNone(t: seq<Point>, k: nat, cutoff: int, lo: int, hi: int)
    requires k < |t| && t[k].at < cutoff && forall m :: 0 <= m < |t| && m != k ==> t[m].freshPct.None?
    ensures !SomeFresh(Since(t, cutoff), lo, hi) && OnlyFresh(Since(t, cutoff), lo, hi, 0.0)
  {
    SinceMembers(t, cutoff);
    forall p: Point | p in Since(t, cutoff) ensures p.freshPct.None? {
      var m :| 0 <= m < |t| && t[m] == p;
    }
  }

  lemma OldReadingGone(t: seq<Point>, k: nat, cutoff: int, h: int)
    requires k < |t| && t[k].at < cutoff && h <= t[k].at < h + HOUR && t[k].freshPct.Some?
    requires forall m :: 0 <= m < |t| && m != k ==> t[m].freshPct.None?
    ensures Fold(Since(t, cutoff), h, h + HOUR) != Fold(t, h, h + HOUR)
  {
    LastFreshWins(t, k, h, h + HOUR);
    SinceHasNone(t, k, cutoff, h, h + HOUR);
    FoldFresh(Since(t, cutoff), h, h + HOUR, 0.0);
  }

  lemma RewrittenSpaced(t: seq<Point>)
    requires Spaced(t)
    ensures Rewritten(t) == Trimmed(t)
  {
    CompactUnchanged(t);
  }

  lemma OldSampleDropped(s: seq<Point>, k: nat, h: int)
    requires k < |s| && s[k].at < s[|s| - 1].at - AVERAGE_WINDOW && h <= s[k].at < h + HOUR
    ensures SameInstants(s, Alternating(s, k)) && Spaced(Alternating(s, k)) && !RewriteKeepsHour(Alternating(s, k), h)
  {
    var t := Alternating(s, k);
    AlternatingKept(s, k);
    RewrittenSpaced(t);
    OldReadingGone(t, k, t[|t| - 1].at - AVERAGE_WINDOW, h);
  }

  /** No sample of the hour is older than five minutes before the last. */
  predicate RecentIn(s: seq<Point>, h: int) {
    forall i :: 0 <= i < |s| && h <= s[i].at < h + HOUR ==> s[|s| - 1].at - AVERAGE_WINDOW <= s[i].at
  }

  lemma {:induction false} SinceKeepsRange(s: seq<Point>, cutoff: int, lo: int, hi: int)
    requires forall i :: 0 <= i < |s| && lo <= s[i].at < hi ==> cutoff <= s[i].at
    ensures Within(Since(s, cutoff), lo, hi) == Within(s, lo, hi)
  {
    if s != [] {
      var init, last := s[..|s| - 1], s[|s| - 1];
      SinceKeepsRange(init, cutoff, lo, hi);
      if cutoff <= last.at {
        WithinStep(Since(init, cutoff), last, lo, hi);
      } else {
        assert Since(init, cutoff) + [] == Since(init, cutoff);
      }
    }
  }

  lemma TrimmedKeepsRecent(s: seq<Point>, h: int)
    requires RecentIn(s, h)
    ensures Within(Trimmed(s), h, h + HOUR) == Within(s, h, h + HOUR)
    ensures Fold(Trimmed(s), h, h + HOUR) == Fold(s, h, h + HOUR)
  {
    if s != [] { SinceKeepsRange(s, s[|s| - 1].at - AVERAGE_WINDOW, h, h + HOUR); }
    FoldWithin(s, h, h + HOUR);
    FoldWithin(Trimmed(s), h, h + HOUR);
  }

  /** A load without a chart file drops nothing of such an hour from a spaced log. */
  lemma RewriteDropsNothing(s: seq<Point>, h: int)
    requires Spaced(s) && RecentIn(s, h)
    ensures !Loses(s, Rewrite, h) && RewriteKeepsHour(s, h)
  {
    RewrittenSpaced(s);
    TrimmedKeepsRecent(s, h);
  }

  /**
   * Without a chart file a load rewrites the samples with the last five minutes. Of the logs that Observe spaces, those
   * that keep an hour's reading whatever the levels are exactly those with no older sample in it.
   */
  lemma MissingChartKeepsExactly(s: seq<Point>, h: int)
    ensures RecentIn(s, h) <==> forall t :: SameInstants(s, t) && Spaced(t) ==> RewriteKeepsHour(t, h)
  {
    if RecentIn(s, h) {
      forall t: seq<Point> | SameInstants(s, t) && Spaced(t) ensures RewriteKeepsHour(t, h) {
        assert RecentIn(t, h);
        RewriteDropsNothing(t, h);
      }
    } else {
      var k :| 0 <= k < |s| && h <= s[k].at < h + HOUR && s[k].at < s[|s| - 1].at - AVERAGE_WINDOW;
      OldSampleDropped(s, k, h);
    }
  }

  // ----- a compaction that dies between the chart file and the samples file

  /** The last compacted point is stamped no earlier than anything compacted. */
  lemma LastStampCovers(recent: seq<Point>, s: seq<Point>, p: Point)
    requires IsBucketing(recent, s, TEN_MINUTES) && p in s
    ensures recent != [] && p.at <= recent[|recent| - 1].at
  {
    var i :| 0 <= i < |s| && s[i] == p;
    var k := Truncate(p.at, TEN_MINUTES);
    BucketBounds(p.at, k, TEN_MINUTES);
    FoldStampCovers(s, i, k, k + TEN_MINUTES);
    assert BucketFold(recent, k, TEN_MINUTES) == BucketFold(s, k, TEN_MINUTES);
    FoldInRange(recent, k, k + TEN_MINUTES);
    var m :| 0 <= m < |recent| && k <= recent[m].at < k + TEN_MINUTES;
    FoldOfMember(recent, TEN_MINUTES, k, recent[m]);
    assert m < |recent| - 1 ==> recent[m].at < recent[|recent| - 1].at;
  }

  /**
   * The next load then finds the compacted chart over the old samples: nothing is replayed, so the points stay the
   * compacted ones, with the windows of the old samples. If nothing was kept, the whole old chart comes back.
   */
  lemma InterruptedCompaction(file: seq<Point>, cutoff: int, recent: seq<Point>, loaded: seq<Point>)
    requires IsBucketing(recent, Kept(file, cutoff), TEN_MINUTES) && forall p :: p in loaded ==> p in file
    ensures Restored(Persisted(Recharted(recent, cutoff)), loaded) ==
      if recent == [] then ChartFold(loaded) else Reseeded(Recharted(recent, cutoff), loaded, |loaded|)
  {
    var c := Recharted(recent, cutoff);
    ThroughIsLast(recent);
    if recent == [] {
      assert loaded[0..] == loaded;
      assert Reseeded(c, loaded, 0) == EMPTY_CHART;
    } else {
      var through := recent[|recent| - 1].at;
      forall p | p in loaded ensures p.at <= through { NothingLaterLoaded(file, cutoff, recent, p); }
      ReplayPasses(loaded, through, 0);
      assert ReplayFrom(loaded, c.throughAt, 0) == |loaded|;
      assert loaded[|loaded|..] == [];
    }
  }

  lemma NothingLaterLoaded(file: seq<Point>, cutoff: int, recent: seq<Point>, p: Point)
    requires IsBucketing(recent, Kept(file, cutoff), TEN_MINUTES) && recent != [] && p in file
    ensures p.at <= recent[|recent| - 1].at
  {
    KeptMembers(file, cutoff);
    if Keeps(p, cutoff) {
      LastStampCovers(recent, Kept(file, cutoff), p);
    } else {
      WaterArchive.RecentStamp(file, cutoff, recent, recent[|recent| - 1]);
    }
  }

  // ----- spacing

  /** Levels 50, 60, 50 at 599, 610 and 640 seconds, as Observe stores them. */
  function SpacedLog(): seq<Point> {
    [Point(599_000_000_000, Some(50.0), None), Point(610_000_000_000, Some(60.0), None),
      Point(640_000_000_000, Some(50.0), None)]
  }

  function CompactedLog(): seq<Point> { [SpacedLog()[0], SpacedLog()[2]] }

  lemma SpacedLogBuckets(k: int)
    requires k % 600_000_000_000 == 0
    ensures Fold(CompactedLog(), k, k + 600_000_000_000) == Fold(SpacedLog(), k, k + 600_000_000_000)
  {
    var p, q, r := SpacedLog()[0], SpacedLog()[1], SpacedLog()[2];
    assert [] + [p] == [p] && [p] + [q] == [p, q] && [p, q] + [r] == SpacedLog() && [p] + [r] == CompactedLog();
    FoldStep([], p, k, k + 600_000_000_000);
    FoldStep([p], q, k, k + 600_000_000_000);
    FoldStep([p, q], r, k, k + 600_000_000_000);
    FoldStep([p], r, k, k + 600_000_000_000);
    assert k <= q.at < k + 600_000_000_000 <==> k == 600_000_000_000;
    assert k <= r.at < k + 600_000_000_000 <==> k == 600_000_000_000;
  }

  lemma CompactedIsBucketing()
    ensures IsBucketing(CompactedLog(), SpacedLog(), TEN_MINUTES)
  {
    forall k: int | k % TEN_MINUTES == 0
      ensures BucketFold(CompactedLog(), k, TEN_MINUTES) == BucketFold(SpacedLog(), k, TEN_MINUTES)
    {
      SpacedLogBuckets(k);
    }
    assert Truncate(599_000_000_000, TEN_MINUTES) == 0 && Truncate(640_000_000_000, TEN_MINUTES) == 600_000_000_000;
  }

  lemma CompactedLoadsShort()
    ensures Spaced(SpacedLog()) && !Spaced(CompactedLog()) && CompactSamples(CompactedLog()) == CompactedLog()[..1]
  {
    var p, q, r := SpacedLog()[0], SpacedLog()[1], SpacedLog()[2];
    assert [p] + [q] == [p, q] && [p, q] + [r] == SpacedLog() && [p] + [r] == CompactedLog();
    SpacedStep([p], q);
    SpacedStep([p, q], r);
    SpacedStep([p], r);
    assert CompactedLog()[..1] == [p] && [p][..0] == [];
    assert CompactSamples([p]) == [p];
  }

  lemma WindowsOfCompacted()
    ensures |WindowFold(CompactedLog(), Fresh).entries| == 2
    ensures |WindowFold(CompactedLog()[..1], Fresh).entries| == 1
  {
    var p, r := CompactedLog()[0], CompactedLog()[1];
    assert CompactedLog()[..1] == [p] && [p][..0] == [];
    var one := AddReading(EMPTY_WINDOW, p.at, p.freshPct);
    assert one.entries == [Reading(p.at, Round(50.0))];
    assert WindowFold([p], Fresh) == one;
    assert WindowFold(CompactedLog(), Fresh) == AddReading(one, r.at, r.freshPct);
  }

  /** Neighbouring ten minutes with equal levels end a minute apart or more. */
  ghost predicate NeighboursApart(s: seq<Point>) { forall k: int :: k % TEN_MINUTES == 0 ==> ApartFromNext(s, k) }

  predicate ApartFromNext(s: seq<Point>, k: int) {
    var p, q := BucketFold(s, k, TEN_MINUTES), BucketFold(s, k + TEN_MINUTES, TEN_MINUTES);
    p.Some? && q.Some? ==> ShouldStore(p.value, q.value)
  }

  predicate StoresNext(s: seq<Point>, i: nat)
    requires i + 1 < |s|
  {
    ShouldStore(s[i], s[i + 1])
  }

  lemma {:induction false} SpacedPairs(s: seq<Point>)
    ensures Spaced(s) <==> forall i: nat :: i + 1 < |s| ==> StoresNext(s, i)
  {
    if |s| > 1 {
      var init := s[..|s| - 1];
      SpacedPairs(init);
      assert forall i: nat :: i + 1 < |init| ==> StoresNext(init, i) == StoresNext(s, i);
      assert StoresNext(s, |s| - 2) == ShouldStore(s[|s| - 2], s[|s| - 1]);
    }
  }

  /** Observe's spacing: two neighbours differ in a level or lie a minute or more apart. */
  lemma SpacedExactly(s: seq<Point>)
    ensures Spaced(s) <==> forall i: nat :: i + 1 < |s| ==>
      s[i].freshPct != s[i + 1].freshPct || s[i].greyPct != s[i + 1].greyPct
        || s[i + 1].at - s[i].at >= 60_000_000_000
  {
    SpacedPairs(s);
    forall i: nat | i + 1 < |s|
      ensures StoresNext(s, i) == (s[i].freshPct != s[i + 1].freshPct || s[i].greyPct != s[i + 1].greyPct
                                   || s[i + 1].at - s[i].at >= 60_000_000_000)
    {
    }
  }

  /** The point of a bucket, and its place. */
  lemma BucketPlace(recent: seq<Point>, s: seq<Point>, k: int) returns (i: nat)
    requires IsBucketing(recent, s, TEN_MINUTES) && k % TEN_MINUTES == 0 && BucketFold(s, k, TEN_MINUTES).Some?
    ensures i < |recent| && recent[i] == BucketFold(s, k, TEN_MINUTES).value && k <= recent[i].at < k + TEN_MINUTES
  {
    assert BucketFold(recent, k, TEN_MINUTES) == BucketFold(s, k, TEN_MINUTES);
    FoldInRange(recent, k, k + TEN_MINUTES);
    i :| 0 <= i < |recent| && k <= recent[i].at < k + TEN_MINUTES;
    FoldOfMember(recent, TEN_MINUTES, k, recent[i]);
  }

  lemma EitherTen(at: int, k: int)
    requires k % TEN_MINUTES == 0 && k <= at < k + 2 * TEN_MINUTES
    ensures Truncate(at, TEN_MINUTES) == if at < k + TEN_MINUTES then k else k + TEN_MINUTES
  {
    TenMinuteGrid(k, 1);
    BucketBounds(at, k, TEN_MINUTES);
    BucketBounds(at, k + TEN_MINUTES, TEN_MINUTES);
  }

  lemma NextBucketNextPlace(recent: seq<Point>, k: int, i: nat, j: nat)
    requires OnePerBucket(recent, TEN_MINUTES) && k % TEN_MINUTES == 0 && i < |recent| && j < |recent|
    requires k <= recent[i].at < k + TEN_MINUTES <= recent[j].at < k + 2 * TEN_MINUTES
    ensures j == i + 1
  {
    if i + 1 < j { EitherTen(recent[i + 1].at, k); }
    EitherTen(recent[i].at, k);
    EitherTen(recent[j].at, k);
  }

  lemma NeighboursSpaced(recent: seq<Point>, s: seq<Point>, i: nat)
    requires IsBucketing(recent, s, TEN_MINUTES) && NeighboursApart(s) && i + 1 < |recent|
    ensures StoresNext(recent, i)
  {
    var p, q := recent[i], recent[i + 1];
    var k := Truncate(p.at, TEN_MINUTES);
    BucketBounds(p.at, k, TEN_MINUTES);
    TenMinuteGrid(k, 1);
    BucketBounds(q.at, k, TEN_MINUTES);
    assert p.at < q.at && Truncate(p.at, TEN_MINUTES) != Truncate(q.at, TEN_MINUTES);
    if q.at < k + 2 * TEN_MINUTES {
      FoldOfMember(recent, TEN_MINUTES, k, p);
      FoldOfMember(recent, TEN_MINUTES, k + TEN_MINUTES, q);
      assert BucketFold(recent, k, TEN_MINUTES) == BucketFold(s, k, TEN_MINUTES);
      assert BucketFold(recent, k + TEN_MINUTES, TEN_MINUTES) == BucketFold(s, k + TEN_MINUTES, TEN_MINUTES);
      assert ApartFromNext(s, k);
    }
  }

  /** When the next load keeps every point of a compacted file: read off the readings of neighbouring ten minutes. */
  lemma CompactionKeepsSpacing(recent: seq<Point>, s: seq<Point>)
    requires IsBucketing(recent, s, TEN_MINUTES)
    ensures CompactSamples(recent) == recent <==> NeighboursApart(s)
  {
    CompactUnchanged(recent);
    SpacedPairs(recent);
    if Spaced(recent) {
      forall k: int | k % TEN_MINUTES == 0 ensures ApartFromNext(s, k) {
        if BucketFold(s, k, TEN_MINUTES).Some? && BucketFold(s, k + TEN_MINUTES, TEN_MINUTES).Some? {
          TenMinuteGrid(k, 1);
          var i := BucketPlace(recent, s, k);
          var j := BucketPlace(recent, s, k + TEN_MINUTES);
          NextBucketNextPlace(recent, k, i, j);
          assert StoresNext(recent, i);
        }
      }
    }
    if NeighboursApart(s) {
      forall i: nat | i + 1 < |recent| ensures StoresNext(recent, i) {
        NeighboursSpaced(recent, s, i);
      }
    }
  }

  /**
   * Ten-minute compaction can bring equal levels within a minute of each other: the next load then drops the later
   * point, and the window with it.
   */
  lemma CompactionLosesSpacing(recent: seq<Point>)
    requires IsBucketing(recent, SpacedLog(), TEN_MINUTES)
    ensures Spaced(SpacedLog()) && recent == CompactedLog() && !Spaced(recent)
    ensures CompactSamples(recent) == recent[..1]
    ensures WindowFold(CompactSamples(recent), Fresh) != WindowFold(recent, Fresh)
  {
    CompactedIsBucketing();
    BucketingUnique(recent, CompactedLog(), SpacedLog(), TEN_MINUTES);
    CompactedLoadsShort();
    WindowsOfCompacted();
  }
}
