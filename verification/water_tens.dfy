/**
 * service/waterhistory/store.go, Compact: exactly which logs keep their hourly reading through ten-minute compaction.
 */
module WaterTens {
  import opened Wrappers
  import opened Instants
  import opened WaterPoints

  /** Within the hour `h` the ten-minute buckets of the list never step back. */
  predicate TensInOrder(s: seq<Point>, h: int) {
    forall i, j :: 0 <= i < j < |s| && Truncate(s[i].at, HOUR) == h && Truncate(s[j].at, HOUR) == h ==>
      Truncate(s[i].at, TEN_MINUTES) <= Truncate(s[j].at, TEN_MINUTES)
  }

  /** The hourly reading of the hour `h` through ten-minute buckets. */
  ghost function ByTens(s: seq<Point>, h: int): Option<Point> { TensFrom(s, h, 6) }

  /** Any ten-minute bucketing of any list has that hourly reading. */
  lemma HourOfBucketing(ten: seq<Point>, s: seq<Point>, h: int)
    requires IsBucketing(ten, s, TEN_MINUTES) && h % HOUR == 0
    ensures Fold(ten, h, h + HOUR) == ByTens(s, h)
  {
    OnePerBucketInOrder(ten, TEN_MINUTES);
    TenMinuteGrid(h, 0);
    FoldByTens(ten, h, 6);
    SameTens(ten, s, h, 6);
  }

  lemma BucketIs(at: int, bucket: int)
    requires bucket % 600_000_000_000 == 0 && bucket <= at < bucket + 600_000_000_000
    ensures Truncate(at, TEN_MINUTES) == bucket
  {
  }

  lemma HourIs(at: int, hour: int)
    requires hour % 3_600_000_000_000 == 0
    ensures hour <= at < hour + 3_600_000_000_000 <==> Truncate(at, HOUR) == hour
  {
  }

  lemma TensSplit(s: seq<Point>, h: int, k: nat)
    requires TensInOrder(s, h) && h % HOUR == 0 && k < 6
    ensures SplitsAt(s, h, h + k * TEN_MINUTES, h + (k + 1) * TEN_MINUTES)
  {
    TenMinuteGrid(h, k);
    forall i, j | 0 <= i < j < |s| && h + k * TEN_MINUTES <= s[i].at < h + (k + 1) * TEN_MINUTES
      ensures !(h <= s[j].at < h + k * TEN_MINUTES)
    {
      if h <= s[j].at < h + k * TEN_MINUTES {
        HourIs(s[i].at, h);
        HourIs(s[j].at, h);
        BucketIs(s[i].at, h + k * TEN_MINUTES);
      }
    }
  }

  /** Such a list loses nothing the hour's merge would see, at any level. */
  lemma HourlyAfterOrderedTens(ten: seq<Point>, s: seq<Point>, h: int)
    requires TensInOrder(s, h) && IsBucketing(ten, s, TEN_MINUTES) && h % HOUR == 0
    ensures Fold(ten, h, h + HOUR) == Fold(s, h, h + HOUR)
  {
    HourOfBucketing(ten, s, h);
    OrderedTensAgree(s, h);
  }

  lemma OrderedTensAgree(s: seq<Point>, h: int)
    requires TensInOrder(s, h) && h % HOUR == 0
    ensures ByTens(s, h) == Fold(s, h, h + HOUR)
  {
    forall k: nat | k < 6 ensures SplitsAt(s, h, h + k * TEN_MINUTES, h + (k + 1) * TEN_MINUTES) { TensSplit(s, h, k); }
    FoldByTens(s, h, 6);
  }

  // ----- with the cutoff

  /** Within the hour `h`, behind a point that is kept come only points that are kept, in ten minutes no earlier. */
  predicate CompactsCleanly(s: seq<Point>, cutoff: int, h: int) {
    forall i, j :: 0 <= i < j < |s| && Truncate(s[i].at, HOUR) == h && Truncate(s[j].at, HOUR) == h
                   && Keeps(s[i], cutoff) ==>
      Keeps(s[j], cutoff) && Truncate(s[i].at, TEN_MINUTES) <= Truncate(s[j].at, TEN_MINUTES)
  }

  /** An hour's reading once what lies before the cutoff is archived and the rest kept in ten-minute buckets. */
  ghost function Compacted(s: seq<Point>, cutoff: int, h: int): Option<Point> {
    Join(Fold(Before(s, cutoff), h, h + HOUR), ByTens(Kept(s, cutoff), h))
  }

  lemma InOrderCompactsCleanly(s: seq<Point>, cutoff: int, h: int)
    requires InOrder(s)
    ensures CompactsCleanly(s, cutoff, h)
  {
    forall i, j | 0 <= i < j < |s| && Keeps(s[i], cutoff)
      ensures Keeps(s[j], cutoff) && Truncate(s[i].at, TEN_MINUTES) <= Truncate(s[j].at, TEN_MINUTES)
    {
      LaterTen(s[i].at, s[j].at);
    }
  }

  lemma LaterTen(a: int, b: int)
    requires a <= b
    ensures a - a % 600_000_000_000 <= b - b % 600_000_000_000
  {
    assert a == a / 600_000_000_000 * 600_000_000_000 + a % 600_000_000_000;
    assert b == b / 600_000_000_000 * 600_000_000_000 + b % 600_000_000_000;
  }

  lemma CleanPrefix(s: seq<Point>, n: nat, cutoff: int, h: int)
    requires n <= |s| && CompactsCleanly(s, cutoff, h)
    ensures CompactsCleanly(s[..n], cutoff, h)
  {
    forall i, j | 0 <= i < j < n && Truncate(s[..n][i].at, HOUR) == h && Truncate(s[..n][j].at, HOUR) == h
                  && Keeps(s[..n][i], cutoff)
      ensures Keeps(s[..n][j], cutoff) && Truncate(s[..n][i].at, TEN_MINUTES) <= Truncate(s[..n][j].at, TEN_MINUTES)
    {
      assert s[..n][i] == s[i] && s[..n][j] == s[j];
    }
  }

  lemma TensInOrderStep(s: seq<Point>, p: Point, h: int)
    requires TensInOrder(s, h)
    requires forall q :: q in s && Truncate(q.at, HOUR) == h && Truncate(p.at, HOUR) == h ==>
      Truncate(q.at, TEN_MINUTES) <= Truncate(p.at, TEN_MINUTES)
    ensures TensInOrder(s + [p], h)
  {
    var all := s + [p];
    forall i, j | 0 <= i < j < |all| && Truncate(all[i].at, HOUR) == h && Truncate(all[j].at, HOUR) == h
      ensures Truncate(all[i].at, TEN_MINUTES) <= Truncate(all[j].at, TEN_MINUTES)
    {
      assert all[i] == s[i] && s[i] in s;
    }
  }

  lemma {:induction false} KeptTensInOrder(s: seq<Point>, cutoff: int, h: int)
    requires CompactsCleanly(s, cutoff, h)
    ensures TensInOrder(Kept(s, cutoff), h)
  {
    if cutoff == ZERO_TIME {
    } else if s != [] {
      var init, last := s[..|s| - 1], s[|s| - 1];
      assert init + [last] == s;
      CleanPrefix(s, |init|, cutoff, h);
      KeptTensInOrder(init, cutoff, h);
      SinceStep(init, last, cutoff);
      SinceMembers(init, cutoff);
      var kept := Since(init, cutoff);
      forall q | q in kept && Truncate(q.at, HOUR) == h && Truncate(last.at, HOUR) == h
        ensures Truncate(q.at, TEN_MINUTES) <= Truncate(last.at, TEN_MINUTES)
      {
        var m :| 0 <= m < |init| && init[m] == q;
        assert s[m] == q && s[|s| - 1] == last;
      }
      if Keeps(last, cutoff) { TensInOrderStep(kept, last, h); }
    }
  }

  lemma CutSplits(s: seq<Point>, cutoff: int, h: int)
    requires CompactsCleanly(s, cutoff, h) && h % HOUR == 0 && cutoff != ZERO_TIME
    ensures Join(Fold(Before(s, cutoff), h, h + HOUR), Fold(Since(s, cutoff), h, h + HOUR)) == Fold(s, h, h + HOUR)
  {
    FoldBefore(s, cutoff, h, h + HOUR);
    FoldSince(s, cutoff, h, h + HOUR);
    if cutoff < h {
      FoldEmptyRange(s, h, cutoff);
    } else if cutoff <= h + HOUR {
      forall i, j | 0 <= i < j < |s| && cutoff <= s[i].at < h + HOUR ensures !(h <= s[j].at < cutoff) {
        HourIs(s[i].at, h);
        HourIs(s[j].at, h);
      }
      FoldSplitsAt(s, h, cutoff, h + HOUR);
    } else {
      FoldEmptyRange(s, cutoff, h + HOUR);
    }
  }

  /** Such a log keeps the hour's reading through a compaction. */
  lemma CleanCompactionKeeps(s: seq<Point>, cutoff: int, h: int)
    requires CompactsCleanly(s, cutoff, h) && h % HOUR == 0
    ensures Compacted(s, cutoff, h) == Fold(s, h, h + HOUR)
  {
    KeptTensInOrder(s, cutoff, h);
    OrderedTensAgree(Kept(s, cutoff), h);
    if cutoff == ZERO_TIME {
      BeforeAbsorbed(s, cutoff, h, h + HOUR);
    } else {
      CutSplits(s, cutoff, h);
    }
  }

  // ----- and every other log can lose

  /** The last fresh level listed in a range is the range's. */
  lemma {:induction false} LastFreshWins(s: seq<Point>, i: nat, lo: int, hi: int)
    requires i < |s| && lo <= s[i].at < hi && s[i].freshPct.Some?
    requires forall k :: i < k < |s| && lo <= s[k].at < hi ==> s[k].freshPct.None?
    ensures Fold(s, lo, hi).Some? && Fold(s, lo, hi).value.freshPct == s[i].freshPct
  {
    if i < |s| - 1 { LastFreshWins(s[..|s| - 1], i, lo, hi); }
  }

  /** The fresh levels among the points of a range are all `v`. */
  predicate OnlyFresh(s: seq<Point>, lo: int, hi: int, v: real) {
    forall p :: p in s && lo <= p.at < hi && p.freshPct.Some? ==> p.freshPct == Some(v)
  }

  predicate SomeFresh(s: seq<Point>, lo: int, hi: int) {
    exists p :: p in s && lo <= p.at < hi && p.freshPct.Some?
  }

  lemma {:induction false} FoldFresh(s: seq<Point>, lo: int, hi: int, v: real)
    requires OnlyFresh(s, lo, hi, v)
    ensures Fold(s, lo, hi).Some? && Fold(s, lo, hi).value.freshPct.Some? ==> Fold(s, lo, hi).value.freshPct == Some(v)
    ensures SomeFresh(s, lo, hi) <==> Fold(s, lo, hi).Some? && Fold(s, lo, hi).value.freshPct.Some?
  {
    if s != [] {
      var init, last := s[..|s| - 1], s[|s| - 1];
      assert s == init + [last];
      FoldFresh(init, lo, hi, v);
    }
  }

  /** From a ten of the hour on that has the one level, the tens report it. */
  lemma {:induction false} TensReport(s: seq<Point>, h: int, k: nat, n: nat, v: real)
    requires k < n && OnlyFresh(s, h + k * TEN_MINUTES, h + n * TEN_MINUTES, v)
    requires SomeFresh(s, h + k * TEN_MINUTES, h + (k + 1) * TEN_MINUTES)
    ensures TensFrom(s, h, n).Some? && TensFrom(s, h, n).value.freshPct == Some(v)
  {
    FoldFresh(s, h + (n - 1) * TEN_MINUTES, h + n * TEN_MINUTES, v);
    if k < n - 1 { TensReport(s, h, k, n - 1, v); }
  }

  /** The instants of `s` with one fresh level at `i` and another at `j`, and grey ones elsewhere. */
  function TwoLevels(s: seq<Point>, i: nat, j: nat): seq<Point> {
    seq(|s|, k requires 0 <= k < |s| =>
      if k == i then Point(s[k].at, Some(80.0), None)
      else if k == j then Point(s[k].at, Some(20.0), None) else Point(s[k].at, None, Some(50.0)))
  }

  lemma FirstLevelKept(s: seq<Point>, cutoff: int, i: nat, j: nat, from: int)
    requires i < j < |s| && Keeps(s[i], cutoff) && (Keeps(s[j], cutoff) ==> s[j].at < from)
    ensures var kept := Kept(TwoLevels(s, i, j), cutoff);
      && TwoLevels(s, i, j)[i] in kept
      && forall p :: p in kept && from <= p.at && p.freshPct.Some? ==> p.freshPct == Some(80.0)
  {
    var t := TwoLevels(s, i, j);
    KeptMembers(t, cutoff);
    assert t[i] in t;
    forall p | p in Kept(t, cutoff) && from <= p.at && p.freshPct.Some? ensures p.freshPct == Some(80.0) {
      var m :| 0 <= m < |t| && t[m] == p;
    }
  }

  /**
   * Two points of one hour, the first kept and the second expired or in an earlier ten: with fresh levels at just these
   * two, the hour reads the first one's.
   */
  lemma UncleanLoses(s: seq<Point>, cutoff: int, i: nat, j: nat)
    requires i < j < |s| && Truncate(s[i].at, HOUR) == Truncate(s[j].at, HOUR) && Keeps(s[i], cutoff)
    requires !Keeps(s[j], cutoff) || Truncate(s[j].at, TEN_MINUTES) < Truncate(s[i].at, TEN_MINUTES)
    ensures var h, t := Truncate(s[i].at, HOUR), TwoLevels(s, i, j);
      && h % HOUR == 0
      && Compacted(t, cutoff, h).Some? && Compacted(t, cutoff, h).value.freshPct == Some(80.0)
      && Fold(t, h, h + HOUR).Some? && Fold(t, h, h + HOUR).value.freshPct == Some(20.0)
  {
    var k := TenOf(s[i].at);
    LaterLevelWins(s, i, j, Truncate(s[i].at, HOUR));
    EarlierLevelReported(s, cutoff, i, j);
  }

  lemma LaterLevelWins(s: seq<Point>, i: nat, j: nat, h: int)
    requires i < j < |s| && Truncate(s[j].at, HOUR) == h && h % HOUR == 0
    ensures var t := TwoLevels(s, i, j);
      Fold(t, h, h + HOUR).Some? && Fold(t, h, h + HOUR).value.freshPct == Some(20.0)
  {
    HourIs(s[j].at, h);
    LastFreshWins(TwoLevels(s, i, j), j, h, h + HOUR);
  }

  lemma EarlierLevelReported(s: seq<Point>, cutoff: int, i: nat, j: nat)
    requires i < j < |s| && Keeps(s[i], cutoff)
    requires !Keeps(s[j], cutoff) || Truncate(s[j].at, TEN_MINUTES) < Truncate(s[i].at, TEN_MINUTES)
    ensures var h, t := Truncate(s[i].at, HOUR), TwoLevels(s, i, j);
      Compacted(t, cutoff, h).Some? && Compacted(t, cutoff, h).value.freshPct == Some(80.0)
  {
    var h, t := Truncate(s[i].at, HOUR), TwoLevels(s, i, j);
    var k := TenOf(s[i].at);
    if Truncate(s[j].at, TEN_MINUTES) < Truncate(s[i].at, TEN_MINUTES) { EarlierTen(s[j].at, s[i].at); }
    FirstLevelKept(s, cutoff, i, j, h + k * TEN_MINUTES);
    TensReport(Kept(t, cutoff), h, k, 6, 80.0);
  }

  /** Which ten minutes of its hour an instant falls in. */
  lemma TenOf(at: int) returns (k: nat)
    ensures k < 6 && Truncate(at, TEN_MINUTES) == Truncate(at, HOUR) + k * TEN_MINUTES
    ensures Truncate(at, HOUR) % HOUR == 0
    ensures Truncate(at, HOUR) + k * TEN_MINUTES <= at < Truncate(at, HOUR) + (k + 1) * TEN_MINUTES
  {
    var rest := at % 3_600_000_000_000;
    k := rest / 600_000_000_000;
    var hour := at - rest;
    WholeHours(hour, at / 3_600_000_000_000);
    TenMinuteGrid(hour, k);
    assert rest == k * 600_000_000_000 + rest % 600_000_000_000;
    BucketIs(at, hour + k * 600_000_000_000);
  }

  lemma WholeHours(hour: int, q: int)
    requires hour == q * 3_600_000_000_000
    ensures hour % 3_600_000_000_000 == 0
  {
  }

  lemma EarlierTen(a: int, b: int)
    requires Truncate(a, TEN_MINUTES) < Truncate(b, TEN_MINUTES)
    ensures a < Truncate(b, TEN_MINUTES)
  {
  }

  ghost predicate KeepsHour(s: seq<Point>, cutoff: int, h: int) {
    Compacted(s, cutoff, h) == Fold(s, h, h + HOUR)
  }

  lemma UncleanHourLoses(s: seq<Point>, cutoff: int, h: int) returns (t: seq<Point>)
    requires !CompactsCleanly(s, cutoff, h)
    ensures SameInstants(s, t) && !KeepsHour(t, cutoff, h)
  {
    var i, j :| 0 <= i < j < |s| && Truncate(s[i].at, HOUR) == h && Truncate(s[j].at, HOUR) == h && Keeps(s[i], cutoff)
      && !(Keeps(s[j], cutoff) && Truncate(s[i].at, TEN_MINUTES) <= Truncate(s[j].at, TEN_MINUTES));
    UncleanLoses(s, cutoff, i, j);
    t := TwoLevels(s, i, j);
  }

  /** The exact condition on a log's instants for compaction to keep an hour's reading, whatever the levels. */
  lemma CompactionKeepsExactly(s: seq<Point>, cutoff: int, h: int)
    requires h % HOUR == 0
    ensures CompactsCleanly(s, cutoff, h) <==> forall t :: SameInstants(s, t) ==> KeepsHour(t, cutoff, h)
  {
    if CompactsCleanly(s, cutoff, h) {
      forall t | SameInstants(s, t) ensures KeepsHour(t, cutoff, h) {
        assert CompactsCleanly(t, cutoff, h);
        CleanCompactionKeeps(t, cutoff, h);
      }
    } else {
      var t := UncleanHourLoses(s, cutoff, h);
    }
  }
}
