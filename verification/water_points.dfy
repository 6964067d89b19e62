/** service/waterhistory/store.go, bucketPoints: points of a bucket merge field by field. */
module WaterPoints {
  import opened Wrappers
  import opened Instants
  import Sorting

  datatype Point = Point(at: int, freshPct: Option<real>, greyPct: Option<real>)

  function At(p: Point): int { p.at }

  /** The two widths in use: ten minutes for the live file, an hour for the archive. */
  type Width = w: int | w == TEN_MINUTES || w == HOUR witness HOUR

  function BucketOf(width: Width): Point -> int {
    (p: Point) => Truncate(p.at, width)
  }

  /** The later instant, and for each tank the last level reported. */
  function Merge(p: Point, q: Point): Point {
    Point(if q.at > p.at then q.at else p.at,
          if q.freshPct.Some? then q.freshPct else p.freshPct,
          if q.greyPct.Some? then q.greyPct else p.greyPct)
  }

  function Join(a: Option<Point>, b: Option<Point>): Option<Point> {
    if a.None? then b else if b.None? then a else Some(Merge(a.value, b.value))
  }

  lemma JoinAssociative(a: Option<Point>, b: Option<Point>, c: Option<Point>)
    ensures Join(Join(a, b), c) == Join(a, Join(b, c))
  {
  }

  /** Archiving the same points twice is harmless. */
  lemma JoinAbsorbs(a: Option<Point>, p: Option<Point>, q: Option<Point>)
    ensures Join(Join(a, p), Join(p, q)) == Join(a, Join(p, q))
  {
  }

  /** The merge, in list order, of the points with lo <= at < hi. */
  function Fold(s: seq<Point>, lo: int, hi: int): Option<Point> {
    if s == [] then None
    else
      var last := s[|s| - 1];
      Join(Fold(s[..|s| - 1], lo, hi), if lo <= last.at < hi then Some(last) else None)
  }

  predicate InOrder(s: seq<Point>) {
    forall i, j :: 0 <= i < j < |s| ==> s[i].at <= s[j].at
  }

  predicate SameInstants(s: seq<Point>, t: seq<Point>) {
    |s| == |t| && forall i :: 0 <= i < |s| ==> s[i].at == t[i].at
  }

  function Since(s: seq<Point>, cutoff: int): seq<Point> {
    if s == [] then []
    else Since(s[..|s| - 1], cutoff) + (if cutoff <= s[|s| - 1].at then [s[|s| - 1]] else [])
  }

  function Before(s: seq<Point>, cutoff: int): seq<Point> {
    if s == [] then []
    else Before(s[..|s| - 1], cutoff) + (if s[|s| - 1].at < cutoff then [s[|s| - 1]] else [])
  }

  function Kept(s: seq<Point>, cutoff: int): seq<Point> {
    if cutoff == ZERO_TIME then s else Since(s, cutoff)
  }

  predicate Keeps(p: Point, cutoff: int) { cutoff == ZERO_TIME || cutoff <= p.at }

  lemma KeptMembers(s: seq<Point>, cutoff: int)
    ensures forall p :: p in Kept(s, cutoff) <==> p in s && Keeps(p, cutoff)
  {
    SinceMembers(s, cutoff);
  }

  // ----- folds

  lemma FoldStep(s: seq<Point>, p: Point, lo: int, hi: int)
    ensures Fold(s + [p], lo, hi) == Join(Fold(s, lo, hi), if lo <= p.at < hi then Some(p) else None)
  {
    assert (s + [p])[..|s + [p]| - 1] == s;
  }

  lemma {:induction false} FoldAppend(s: seq<Point>, t: seq<Point>, lo: int, hi: int)
    ensures Fold(s + t, lo, hi) == Join(Fold(s, lo, hi), Fold(t, lo, hi))
  {
    if t == [] {
      assert s + t == s;
    } else {
      var init, last := t[..|t| - 1], t[|t| - 1];
      assert s + t == (s + init) + [last];
      FoldAppend(s, init, lo, hi);
      FoldStep(s + init, last, lo, hi);
      JoinAssociative(Fold(s, lo, hi), Fold(init, lo, hi), if lo <= last.at < hi then Some(last) else None);
    }
  }

  lemma {:induction false} FoldInRange(s: seq<Point>, lo: int, hi: int)
    ensures Fold(s, lo, hi).Some? ==> lo <= Fold(s, lo, hi).value.at < hi
    ensures Fold(s, lo, hi).Some? <==> exists i :: 0 <= i < |s| && lo <= s[i].at < hi
  {
    if s != [] {
      var init := s[..|s| - 1];
      FoldInRange(init, lo, hi);
      if Fold(init, lo, hi).Some? {
        var i :| 0 <= i < |init| && lo <= init[i].at < hi;
        assert s[i] == init[i];
      }
      if i :| 0 <= i < |s| && lo <= s[i].at < hi {
        assert i < |init| ==> init[i] == s[i];
      }
    }
  }

  /** No point of [mid, hi) is listed before one of [lo, mid). */
  predicate SplitsAt(s: seq<Point>, lo: int, mid: int, hi: int) {
    forall i, j :: 0 <= i < j < |s| && mid <= s[i].at < hi ==> !(lo <= s[j].at < mid)
  }

  /** A range may be folded in two halves when the list runs through the first before the second. */
  lemma {:induction false} FoldSplitsAt(s: seq<Point>, lo: int, mid: int, hi: int)
    requires SplitsAt(s, lo, mid, hi) && lo <= mid <= hi
    ensures Fold(s, lo, hi) == Join(Fold(s, lo, mid), Fold(s, mid, hi))
  {
    if s != [] {
      var init, last := s[..|s| - 1], s[|s| - 1];
      FoldSplitsAt(init, lo, mid, hi);
      if lo <= last.at < mid {
        FoldInRange(init, mid, hi);
        assert forall i :: 0 <= i < |init| ==> init[i] == s[i] && !(mid <= init[i].at < hi);
      } else if mid <= last.at < hi {
        JoinAssociative(Fold(init, lo, mid), Fold(init, mid, hi), Some(last));
      }
    }
  }

  lemma {:induction false} FoldSince(s: seq<Point>, cutoff: int, lo: int, hi: int)
    ensures Fold(Since(s, cutoff), lo, hi) == Fold(s, if lo < cutoff then cutoff else lo, hi)
  {
    if s != [] {
      var init, last := s[..|s| - 1], s[|s| - 1];
      FoldSince(init, cutoff, lo, hi);
      if cutoff <= last.at {
        FoldStep(Since(init, cutoff), last, lo, hi);
      } else {
        assert Since(init, cutoff) + [] == Since(init, cutoff);
      }
    }
  }

  lemma {:induction false} FoldBefore(s: seq<Point>, cutoff: int, lo: int, hi: int)
    ensures Fold(Before(s, cutoff), lo, hi) == Fold(s, lo, if cutoff < hi then cutoff else hi)
  {
    if s != [] {
      var init, last := s[..|s| - 1], s[|s| - 1];
      FoldBefore(init, cutoff, lo, hi);
      if last.at < cutoff {
        FoldStep(Before(init, cutoff), last, lo, hi);
      } else {
        assert Before(init, cutoff) + [] == Before(init, cutoff);
      }
    }
  }

  lemma JoinOver(part: Option<Point>, whole: Option<Point>, p: Option<Point>)
    requires Join(part, whole) == whole
    ensures Join(part, Join(whole, p)) == Join(whole, p) && Join(Join(part, p), Join(whole, p)) == Join(whole, p)
  {
  }

  /** What expired adds nothing in front of the whole list. */
  lemma {:induction false} BeforeAbsorbed(s: seq<Point>, cutoff: int, lo: int, hi: int)
    ensures Join(Fold(Before(s, cutoff), lo, hi), Fold(s, lo, hi)) == Fold(s, lo, hi)
  {
    if s != [] {
      var init, last := s[..|s| - 1], s[|s| - 1];
      var own := if lo <= last.at < hi then Some(last) else None;
      BeforeAbsorbed(init, cutoff, lo, hi);
      JoinOver(Fold(Before(init, cutoff), lo, hi), Fold(init, lo, hi), own);
      if last.at < cutoff {
        FoldStep(Before(init, cutoff), last, lo, hi);
      } else {
        assert Before(init, cutoff) + [] == Before(init, cutoff);
      }
    }
  }

  lemma {:induction false} FoldEmptyRange(s: seq<Point>, lo: int, hi: int)
    requires hi <= lo
    ensures Fold(s, lo, hi) == None
  {
    if s != [] { FoldEmptyRange(s[..|s| - 1], lo, hi); }
  }

  lemma SinceStep(s: seq<Point>, p: Point, cutoff: int)
    ensures Since(s + [p], cutoff) == if cutoff <= p.at then Since(s, cutoff) + [p] else Since(s, cutoff)
  {
    assert (s + [p])[..|s + [p]| - 1] == s;
  }

  lemma {:induction false} SinceAll(s: seq<Point>, cutoff: int)
    requires forall i :: 0 <= i < |s| ==> cutoff <= s[i].at
    ensures Since(s, cutoff) == s
  {
    if s != [] { SinceAll(s[..|s| - 1], cutoff); }
  }

  lemma {:induction false} SinceMembers(s: seq<Point>, cutoff: int)
    ensures forall p :: p in Since(s, cutoff) <==> p in s && cutoff <= p.at
  {
    if s != [] { SinceMembers(s[..|s| - 1], cutoff); }
  }

  lemma {:induction false} SinceOrdered(s: seq<Point>, cutoff: int)
    requires InOrder(s)
    ensures InOrder(Since(s, cutoff))
  {
    if s != [] {
      var init, last := s[..|s| - 1], s[|s| - 1];
      SinceOrdered(init, cutoff);
      SinceMembers(init, cutoff);
      SinceStep(init, last, cutoff);
      assert init + [last] == s;
      var kept := Since(init, cutoff);
      forall i | 0 <= i < |kept| ensures kept[i].at <= last.at {
        assert kept[i] in init;
      }
    }
  }

  // ----- bucketing

  predicate OnePerBucket(s: seq<Point>, width: Width)
  {
    forall i, j :: 0 <= i < j < |s| ==> s[i].at < s[j].at && Truncate(s[i].at, width) != Truncate(s[j].at, width)
  }

  /** The merge of the bucket starting at `k`. */
  function BucketFold(s: seq<Point>, k: int, width: Width): Option<Point> {
    Fold(s, k, k + width)
  }

  /** `out` holds, in time order, exactly the merge of every bucket of `s`. */
  ghost predicate IsBucketing(out: seq<Point>, s: seq<Point>, width: Width)
  {
    && OnePerBucket(out, width)
    && forall k: int :: k % width == 0 ==> BucketFold(out, k, width) == BucketFold(s, k, width)
  }

  /** The bucket map after ranging over `s`. */
  ghost predicate Tabulates(buckets: map<int, Point>, s: seq<Point>, width: Width)
  {
    && (forall k :: k in buckets ==> k % width == 0)
    && forall k: int :: k % width == 0 ==> BucketFold(s, k, width) == if k in buckets then Some(buckets[k]) else None
  }

  lemma BucketBounds(at: int, k: int, width: Width)
    requires k % width == 0
    ensures k <= at < k + width <==> Truncate(at, width) == k
    ensures Truncate(at, width) % width == 0
  {
    if width == HOUR { HourBounds(at, k); } else { TenMinuteBounds(at, k); }
  }

  lemma HourBounds(at: int, k: int)
    requires k % 3_600_000_000_000 == 0
    ensures k <= at < k + 3_600_000_000_000 <==> at - at % 3_600_000_000_000 == k
    ensures (at - at % 3_600_000_000_000) % 3_600_000_000_000 == 0
  {
  }

  lemma TenMinuteBounds(at: int, k: int)
    requires k % 600_000_000_000 == 0
    ensures k <= at < k + 600_000_000_000 <==> at - at % 600_000_000_000 == k
    ensures (at - at % 600_000_000_000) % 600_000_000_000 == 0
  {
  }

  lemma TabulateStep(buckets: map<int, Point>, s: seq<Point>, width: Width, p: Point)
    requires Tabulates(buckets, s, width)
    ensures var k := Truncate(p.at, width);
      Tabulates(buckets[k := if k in buckets then Merge(buckets[k], p) else p], s + [p], width)
  {
    var key := Truncate(p.at, width);
    var buckets' := buckets[key := if key in buckets then Merge(buckets[key], p) else p];
    BucketBounds(p.at, 0, width);
    forall k: int | k % width == 0
      ensures BucketFold(s + [p], k, width) == if k in buckets' then Some(buckets'[k]) else None
    {
      BucketBounds(p.at, k, width);
      FoldStep(s, p, k, k + width);
    }
  }

  method MergePerBucket(points: seq<Point>, cutoff: int, width: Width) returns (buckets: map<int, Point>)
    ensures Tabulates(buckets, Kept(points, cutoff), width)
  {
    buckets := map[];
    for i := 0 to |points|
      invariant Tabulates(buckets, Kept(points[..i], cutoff), width)
    {
      var point := points[i];
      assert points[..i + 1][..i] == points[..i];
      assert points[..i + 1] == points[..i] + [point];
      SinceStep(points[..i], point, cutoff);
      if cutoff != ZERO_TIME && point.at < cutoff { continue; }
      var key := Truncate(point.at, width);
      TabulateStep(buckets, Kept(points[..i], cutoff), width, point);
      if key !in buckets {
        buckets := buckets[key := point];
      } else {
        var previous := buckets[key];
        if point.at > previous.at { previous := previous.(at := point.at); }
        if point.freshPct.Some? { previous := previous.(freshPct := point.freshPct); }
        if point.greyPct.Some? { previous := previous.(greyPct := point.greyPct); }
        buckets := buckets[key := previous];
      }
    }
    assert points[..|points|] == points;
  }

  lemma TabulatedKeyed(buckets: map<int, Point>, s: seq<Point>, width: Width)
    requires Tabulates(buckets, s, width)
    ensures Sorting.Keyed(BucketOf(width), buckets)
  {
    forall k | k in buckets ensures BucketOf(width)(buckets[k]) == k {
      FoldInRange(s, k, k + width);
      BucketBounds(buckets[k].at, k, width);
    }
  }

  method BucketPoints(points: seq<Point>, cutoff: int, width: Width) returns (out: seq<Point>)
    ensures IsBucketing(out, Kept(points, cutoff), width)
  {
    var buckets := MergePerBucket(points, cutoff, width);
    TabulatedKeyed(buckets, Kept(points, cutoff), width);
    out := Sorting.SortedValues(BucketOf(width), At, buckets);
    TabulatedIsBucketing(out, buckets, Kept(points, cutoff), width);
  }

  lemma TabulatedIsBucketing(out: seq<Point>, buckets: map<int, Point>, s: seq<Point>, width: Width)
    requires Tabulates(buckets, s, width)
    requires Sorting.SortedBy(At, out) && Sorting.ListsValues(BucketOf(width), out, buckets)
    ensures IsBucketing(out, s, width)
  {
    forall i, j | 0 <= i < j < |out|
      ensures out[i].at < out[j].at && Truncate(out[i].at, width) != Truncate(out[j].at, width)
    {
      assert BucketOf(width)(out[i]) != BucketOf(width)(out[j]);
      assert At(out[i]) <= At(out[j]);
    }
    forall k: int | k % width == 0 ensures BucketFold(out, k, width) == BucketFold(s, k, width) {
      if k in buckets {
        assert buckets[k] in out;
        FoldInRange(s, k, k + width);
        FoldOfMember(out, width, k, buckets[k]);
      } else {
        FoldInRange(out, k, k + width);
        forall i | 0 <= i < |out| ensures !(k <= out[i].at < k + width) {
          BucketBounds(out[i].at, k, width);
          assert BucketOf(width)(out[i]) in buckets;
        }
      }
    }
  }

  /** In a one-per-bucket list the fold of a bucket is its one point. */
  lemma {:induction false} FoldOfMember(s: seq<Point>, width: Width, k: int, p: Point)
    requires k % width == 0 && OnePerBucket(s, width)
    requires p in s && k <= p.at < k + width
    ensures Fold(s, k, k + width) == Some(p)
  {
    var init, last := s[..|s| - 1], s[|s| - 1];
    BucketBounds(p.at, k, width);
    BucketBounds(last.at, k, width);
    if p == last {
      FoldInRange(init, k, k + width);
      forall i | 0 <= i < |init| ensures !(k <= init[i].at < k + width) {
        BucketBounds(init[i].at, k, width);
        assert s[i] == init[i];
      }
    } else {
      var i :| 0 <= i < |s| && s[i] == p;
      assert init[i] == p;
      FoldOfMember(init, width, k, p);
    }
  }

  lemma {:induction false} FoldStampCovers(s: seq<Point>, i: nat, lo: int, hi: int)
    requires i < |s| && lo <= s[i].at < hi
    ensures Fold(s, lo, hi).Some? && s[i].at <= Fold(s, lo, hi).value.at
  {
    if i < |s| - 1 { FoldStampCovers(s[..|s| - 1], i, lo, hi); }
  }

  /** A point's bucket reports it: one point of the bucketing, stamped no earlier, stands for it. */
  lemma BucketStandsFor(out: seq<Point>, s: seq<Point>, width: Width, p: Point) returns (q: Point)
    requires IsBucketing(out, s, width) && p in s
    ensures q in out && Truncate(q.at, width) == Truncate(p.at, width) && p.at <= q.at
  {
    var i :| 0 <= i < |s| && s[i] == p;
    var k := Truncate(p.at, width);
    assert k % width == 0 && k <= p.at < k + width by { BucketBounds(p.at, k, width); }
    FoldStampCovers(s, i, k, k + width);
    assert BucketFold(out, k, width) == BucketFold(s, k, width);
    q := FoldedMember(out, width, k);
    assert Truncate(q.at, width) == k by { BucketBounds(q.at, k, width); }
  }

  lemma FoldedMember(out: seq<Point>, width: Width, k: int) returns (q: Point)
    requires OnePerBucket(out, width) && k % width == 0 && BucketFold(out, k, width).Some?
    ensures q in out && k <= q.at < k + width && BucketFold(out, k, width) == Some(q)
  {
    FoldInRange(out, k, k + width);
    var m :| 0 <= m < |out| && k <= out[m].at < k + width;
    q := out[m];
    FoldOfMember(out, width, k, q);
  }

  /** A bucketing is determined by what it buckets. */
  lemma BucketingUnique(a: seq<Point>, b: seq<Point>, s: seq<Point>, width: Width)
    requires IsBucketing(a, s, width) && IsBucketing(b, s, width)
    ensures a == b
  {
    forall p ensures p in a <==> p in b {
      if p in a { MemberCarriesOver(a, b, s, width, p); }
      if p in b { MemberCarriesOver(b, a, s, width, p); }
    }
    Sorting.StrictSortUnique(At, a, b);
  }

  lemma MemberCarriesOver(a: seq<Point>, b: seq<Point>, s: seq<Point>, width: Width, p: Point)
    requires IsBucketing(a, s, width) && IsBucketing(b, s, width) && p in a
    ensures p in b
  {
    var k := Truncate(p.at, width);
    BucketBounds(p.at, 0, width);
    BucketBounds(p.at, k, width);
    FoldOfMember(a, width, k, p);
    assert BucketFold(a, k, width) == BucketFold(s, k, width) == BucketFold(b, k, width);
    FoldInRange(b, k, k + width);
    var i :| 0 <= i < |b| && k <= b[i].at < k + width;
    FoldOfMember(b, width, k, b[i]);
  }

  /** Bucketing what is already one-per-bucket gives it back. */
  lemma BucketingIdempotent(out: seq<Point>, s: seq<Point>, width: Width)
    requires OnePerBucket(s, width) && IsBucketing(out, s, width)
    ensures out == s
  {
    BucketingUnique(out, s, s, width);
  }

  // ----- hours out of ten-minute buckets

  lemma OnePerBucketInOrder(s: seq<Point>, width: Width)
    requires OnePerBucket(s, width)
    ensures InOrder(s)
  {
  }

  /** The hour from `h` in six steps of ten minutes. */
  lemma {:induction false} FoldByTens(s: seq<Point>, lo: int, n: nat)
    requires forall k: nat :: k < n ==> SplitsAt(s, lo, lo + k * TEN_MINUTES, lo + (k + 1) * TEN_MINUTES)
    ensures Fold(s, lo, lo + n * TEN_MINUTES) == TensFrom(s, lo, n)
  {
    if n == 0 {
      FoldEmptyRange(s, lo, lo);
    } else {
      FoldByTens(s, lo, n - 1);
      FoldSplitsAt(s, lo, lo + (n - 1) * TEN_MINUTES, lo + n * TEN_MINUTES);
    }
  }

  ghost function TensFrom(s: seq<Point>, lo: int, n: nat): Option<Point> {
    if n == 0 then None
    else Join(TensFrom(s, lo, n - 1), Fold(s, lo + (n - 1) * TEN_MINUTES, lo + n * TEN_MINUTES))
  }

  lemma TenMinuteGrid(h: int, n: int)
    ensures h % 3_600_000_000_000 == 0 ==> h % 600_000_000_000 == 0
    ensures h % 600_000_000_000 == 0 ==> (h + n * 600_000_000_000) % 600_000_000_000 == 0
  {
  }

  lemma {:induction false} SameTens(ten: seq<Point>, s: seq<Point>, h: int, n: nat)
    requires IsBucketing(ten, s, TEN_MINUTES) && h % TEN_MINUTES == 0
    ensures TensFrom(ten, h, n) == TensFrom(s, h, n)
  {
    if n > 0 {
      SameTens(ten, s, h, n - 1);
      TenMinuteGrid(h, n - 1);
      assert BucketFold(ten, h + (n - 1) * TEN_MINUTES, TEN_MINUTES) ==
        BucketFold(s, h + (n - 1) * TEN_MINUTES, TEN_MINUTES);
    }
  }

  /** Out of time order it does lose: the last level in the file is not the last in its hour. */
  lemma OutOfOrderTensDisagree(ten: seq<Point>)
    requires IsBucketing(ten, [Point(TEN_MINUTES, Some(80.0), None), Point(0, Some(20.0), None)], TEN_MINUTES)
    ensures Fold(ten, 0, HOUR) != Fold([Point(TEN_MINUTES, Some(80.0), None), Point(0, Some(20.0), None)], 0, HOUR)
  {
    var late, early := Point(TEN_MINUTES, Some(80.0), None), Point(0, Some(20.0), None);
    var s := [late, early];
    FoldOfTwo(late, early, 0, HOUR);
    FoldByTens(ten, 0, 6);
    SameTens(ten, s, 0, 6);
    FoldOfTwo(late, early, 0, TEN_MINUTES);
    FoldOfTwo(late, early, TEN_MINUTES, 2 * TEN_MINUTES);
    assert TensFrom(s, 0, 0) == None;
    assert TensFrom(s, 0, 1) == Some(early);
    assert TensFrom(s, 0, 2) == Some(Merge(early, late));
    NothingLater(late, early, 6);
  }

  lemma FoldOfTwo(p: Point, q: Point, lo: int, hi: int)
    ensures Fold([p, q], lo, hi) ==
      Join(if lo <= p.at < hi then Some(p) else None, if lo <= q.at < hi then Some(q) else None)
  {
    assert [p, q] == [p] + [q] && [p] == [] + [p];
    FoldStep([p], q, lo, hi);
    FoldStep([], p, lo, hi);
  }

  lemma {:induction false} NothingLater(p: Point, q: Point, n: nat)
    requires n >= 2 && 0 <= p.at < 2 * TEN_MINUTES && 0 <= q.at < 2 * TEN_MINUTES
    ensures TensFrom([p, q], 0, n) == TensFrom([p, q], 0, 2)
  {
    if n > 2 {
      NothingLater(p, q, n - 1);
      FoldOfTwo(p, q, (n - 1) * TEN_MINUTES, n * TEN_MINUTES);
    }
  }
}
