/** service/watercalibration/calibration.go: a piecewise-linear curve from percent to litres. */
module Calibration {
  import opened Wrappers

  datatype Reading = Reading(percent: Number, litres: Number)

  datatype Point = Point(percent: real, litres: real)

  predicate FinitePoint(r: Reading) { r.percent.Finite? && r.litres.Finite? }

  /** The first `n` readings are finite, not negative and strictly increasing in both coordinates. */
  predicate Rising(rs: seq<Reading>, n: nat)
    requires n <= |rs|
  {
    n == 0 ||
    (Rising(rs, n - 1) && FinitePoint(rs[n - 1]) && rs[n - 1].litres.value >= 0.0
     && (n > 1 && FinitePoint(rs[n - 2]) ==>
           rs[n - 2].percent.value < rs[n - 1].percent.value && rs[n - 2].litres.value < rs[n - 1].litres.value))
  }

  predicate Accepted(rs: seq<Reading>) {
    |rs| >= 2 && rs[0].percent == Finite(0.0) && rs[|rs| - 1].percent == Finite(100.0) && Rising(rs, |rs|)
  }

  lemma {:induction false} RisingFails(rs: seq<Reading>, i: nat, n: nat)
    requires i <= n <= |rs| && !Rising(rs, i)
    ensures !Rising(rs, n)
  {
    if i < n { RisingFails(rs, i, n - 1); }
  }

  /** New accepts exactly the curves from 0% to 100% that rise strictly. */
  method New(rs: seq<Reading>) returns (curve: Option<seq<Point>>)
    ensures curve.Some? <==> Accepted(rs)
    ensures curve.Some? ==> Curve(curve.value) && |curve.value| == |rs|
    ensures curve.Some? ==>
      forall i :: 0 <= i < |rs| ==> rs[i] == Reading(Finite(curve.value[i].percent), Finite(curve.value[i].litres))
  {
    if |rs| < 2 { return None; }
    if rs[0].percent != Finite(0.0) { return None; }
    if rs[|rs| - 1].percent != Finite(100.0) { return None; }
    var points: seq<Point> := [];
    for i := 0 to |rs|
      invariant Rising(rs, i) && |points| == i && Increasing(points, i)
      invariant forall j :: 0 <= j < i ==> rs[j] == Reading(Finite(points[j].percent), Finite(points[j].litres))
    {
      var r := rs[i];
      if !r.percent.Finite? || !r.litres.Finite? || r.litres.value < 0.0
         || (i > 0 && r.percent.value <= points[i - 1].percent) || (i > 0 && r.litres.value <= points[i - 1].litres) {
        RisingFails(rs, i + 1, |rs|);
        return None;
      }
      IncreasingMore(points, i, Point(r.percent.value, r.litres.value));
      points := points + [Point(r.percent.value, r.litres.value)];
    }
    return Some(points);
  }

  // ----- accepted curves

  predicate Increasing(ps: seq<Point>, n: nat)
    requires n <= |ps|
  {
    n == 0 || (Increasing(ps, n - 1) && ps[n - 1].litres >= 0.0
               && (n > 1 ==> ps[n - 2].percent < ps[n - 1].percent && ps[n - 2].litres < ps[n - 1].litres))
  }

  lemma {:induction false} IncreasingMore(ps: seq<Point>, n: nat, p: Point)
    requires n <= |ps| && Increasing(ps, n)
    ensures Increasing(ps + [p], n)
  {
    if n > 0 { IncreasingMore(ps, n - 1, p); }
  }

  predicate Curve(ps: seq<Point>) {
    |ps| >= 2 && ps[0].percent == 0.0 && ps[|ps| - 1].percent == 100.0 && Increasing(ps, |ps|)
  }

  /** Rising between neighbours orders every pair of knots. */
  lemma {:induction false} Pairs(ps: seq<Point>, n: nat, i: nat, j: nat)
    requires i <= j < n <= |ps| && Increasing(ps, n)
    ensures 0.0 <= ps[i].litres <= ps[j].litres && ps[i].percent <= ps[j].percent
    ensures i < j ==> ps[i].percent < ps[j].percent && ps[i].litres < ps[j].litres
  {
    if j < n - 1 { Pairs(ps, n - 1, i, j); }
    else if i < j { Pairs(ps, n - 1, i, j - 1); }
    else if j > 0 { Pairs(ps, n - 1, j - 1, j - 1); }
  }

  /** The first knot from `i` on that is not left of `percent`. */
  function Segment(ps: seq<Point>, percent: real, i: nat): (k: nat)
    requires i < |ps| && percent <= ps[|ps| - 1].percent
    ensures i <= k < |ps| && percent <= ps[k].percent && (i < k ==> ps[k - 1].percent < percent)
    decreases |ps| - i
  {
    if percent <= ps[i].percent then i else Segment(ps, percent, i + 1)
  }

  function OnLine(lower: Point, upper: Point, percent: real): real
    requires lower.percent < upper.percent
  {
    lower.litres + (percent - lower.percent) / (upper.percent - lower.percent) * (upper.litres - lower.litres)
  }

  function Litres(ps: seq<Point>, percent: real): real
    requires Curve(ps)
  {
    if percent <= 0.0 then ps[0].litres
    else if percent >= 100.0 then ps[|ps| - 1].litres
    else
      var k := Segment(ps, percent, 1);
      Pairs(ps, |ps|, k - 1, k);
      OnLine(ps[k - 1], ps[k], percent)
  }

  method LitresAtPercent(ps: seq<Point>, percent: Number) returns (litres: Number)
    requires ps != [] ==> Curve(ps)
    ensures ps == [] ==> litres == Finite(0.0)
    ensures ps != [] && percent.NaN? ==> litres.NaN?
    ensures ps != [] && percent.NegativeInfinity? ==> litres == Finite(ps[0].litres)
    ensures ps != [] && percent.PositiveInfinity? ==> litres == Finite(CapacityLitres(ps))
    ensures ps != [] && percent.Finite? ==> litres == Finite(Litres(ps, percent.value))
  {
    if |ps| == 0 { return Finite(0.0); }
    if percent.NaN? { return NaN; }
    if percent.NegativeInfinity? || (percent.Finite? && percent.value <= ps[0].percent) { return Finite(ps[0].litres); }
    var last := |ps| - 1;
    if percent.PositiveInfinity? || percent.value >= ps[last].percent { return Finite(ps[last].litres); }
    var p := percent.value;
    for i := 1 to |ps|
      invariant i < |ps| ==> Segment(ps, p, 1) == Segment(ps, p, i)
      invariant ps[i - 1].percent < p
    {
      if p <= ps[i].percent {
        Pairs(ps, |ps|, i - 1, i);
        return Finite(OnLine(ps[i - 1], ps[i], p));
      }
    }
    return Finite(CapacityLitres(ps));
  }

  function CapacityLitres(ps: seq<Point>): real {
    if ps == [] then 0.0 else ps[|ps| - 1].litres
  }

  lemma Cancel(f: real, g: real, width: real)
    requires width > 0.0 && f * width < g * width
    ensures f < g
  {
  }

  /** On a rising segment the litres rise strictly from one knot to the other. */
  lemma OnLineRises(lower: Point, upper: Point, p: real, q: real)
    requires lower.percent < upper.percent && lower.litres < upper.litres
    ensures p < q ==> OnLine(lower, upper, p) < OnLine(lower, upper, q)
    ensures OnLine(lower, upper, lower.percent) == lower.litres && OnLine(lower, upper, upper.percent) == upper.litres
  {
    var width, rise := upper.percent - lower.percent, upper.litres - lower.litres;
    var f, g := (p - lower.percent) / width, (q - lower.percent) / width;
    assert f * width == p - lower.percent && g * width == q - lower.percent;
    if p < q {
      Cancel(f, g, width);
      assert (g - f) * rise > 0.0;
    }
    assert width / width == 1.0;
  }

  lemma BetweenKnots(ps: seq<Point>, percent: real)
    requires Curve(ps) && 0.0 < percent < 100.0
    ensures var k := Segment(ps, percent, 1);
      ps[k - 1].litres < Litres(ps, percent) <= ps[k].litres && ps[k - 1].percent < percent <= ps[k].percent
  {
    var k := Segment(ps, percent, 1);
    Pairs(ps, |ps|, k - 1, k);
    OnLineRises(ps[k - 1], ps[k], ps[k - 1].percent, percent);
    OnLineRises(ps[k - 1], ps[k], percent, ps[k].percent);
  }

  /** Every knot is hit. */
  lemma KnotsHit(ps: seq<Point>, i: nat)
    requires Curve(ps) && i < |ps|
    ensures Litres(ps, ps[i].percent) == ps[i].litres
  {
    Pairs(ps, |ps|, 0, i);
    Pairs(ps, |ps|, i, |ps| - 1);
    if 0 < i < |ps| - 1 {
      var k := Segment(ps, ps[i].percent, 1);
      if k < i { Pairs(ps, |ps|, k, i); }
      if i < k { Pairs(ps, |ps|, i, k - 1); }
      assert k == i;
      Pairs(ps, |ps|, i - 1, i);
      OnLineRises(ps[i - 1], ps[i], ps[i].percent, ps[i].percent);
    }
  }

  /** The curve stays between its ends, for any percent at all. */
  lemma WithinEnds(ps: seq<Point>, percent: real)
    requires Curve(ps)
    ensures 0.0 <= ps[0].litres <= Litres(ps, percent) <= CapacityLitres(ps)
    ensures 0.0 < percent < 100.0 ==> ps[0].litres < Litres(ps, percent)
  {
    Pairs(ps, |ps|, 0, |ps| - 1);
    if 0.0 < percent < 100.0 {
      var k := Segment(ps, percent, 1);
      BetweenKnots(ps, percent);
      Pairs(ps, |ps|, 0, k - 1);
      Pairs(ps, |ps|, k, |ps| - 1);
    }
  }

  /** More percent is more litres, strictly. */
  lemma StrictlyIncreasing(ps: seq<Point>, p: real, q: real)
    requires Curve(ps) && 0.0 <= p < q <= 100.0
    ensures Litres(ps, p) < Litres(ps, q)
  {
    Pairs(ps, |ps|, 0, |ps| - 1);
    if p == 0.0 {
      if q < 100.0 { WithinEnds(ps, q); }
    } else {
      var i := Segment(ps, p, 1);
      BetweenKnots(ps, p);
      if q == 100.0 {
        BelowLast(ps, p);
      } else {
        var j := Segment(ps, q, 1);
        BetweenKnots(ps, q);
        if j < i { Pairs(ps, |ps|, j, i - 1); }
        if i == j { OnLineRises(ps[i - 1], ps[i], p, q); } else if i < j { Pairs(ps, |ps|, i, j - 1); }
      }
    }
  }

  lemma BelowLast(ps: seq<Point>, p: real)
    requires Curve(ps) && 0.0 < p < 100.0
    ensures Litres(ps, p) < ps[|ps| - 1].litres
  {
    var i := Segment(ps, p, 1);
    BetweenKnots(ps, p);
    Pairs(ps, |ps|, i - 1, i);
    if i < |ps| - 1 { Pairs(ps, |ps|, i, |ps| - 1); } else { OnLineRises(ps[i - 1], ps[i], p, ps[i].percent); }
  }

  /** Between neighbouring points the curve is their line. */
  lemma OnLineBetween(ps: seq<Point>, i: nat, percent: real)
    requires Curve(ps) && i + 1 < |ps| && ps[i].percent <= percent <= ps[i + 1].percent
    ensures ps[i].percent < ps[i + 1].percent && Litres(ps, percent) == OnLine(ps[i], ps[i + 1], percent)
  {
    Pairs(ps, |ps|, i, i + 1);
    if percent == ps[i].percent {
      KnotsHit(ps, i);
      OnLineRises(ps[i], ps[i + 1], percent, percent);
    } else if percent == ps[i + 1].percent {
      KnotsHit(ps, i + 1);
      OnLineRises(ps[i], ps[i + 1], percent, percent);
    } else {
      InSegment(ps, i, percent);
    }
  }

  lemma InSegment(ps: seq<Point>, i: nat, percent: real)
    requires Curve(ps) && i + 1 < |ps| && ps[i].percent < percent < ps[i + 1].percent
    ensures 0.0 < percent < 100.0 && Segment(ps, percent, 1) == i + 1
  {
    Pairs(ps, |ps|, 0, i);
    Pairs(ps, |ps|, i + 1, |ps| - 1);
    var k := Segment(ps, percent, 1);
    if k < i + 1 { Pairs(ps, |ps|, k, i); }
    if i + 1 < k { Pairs(ps, |ps|, i + 1, k - 1); }
  }

  /** There litres grow in proportion to percent. */
  lemma LinearBetween(ps: seq<Point>, i: nat, percent: real)
    requires Curve(ps) && i + 1 < |ps| && ps[i].percent <= percent <= ps[i + 1].percent
    ensures (Litres(ps, percent) - ps[i].litres) * (ps[i + 1].percent - ps[i].percent) ==
      (percent - ps[i].percent) * (ps[i + 1].litres - ps[i].litres)
  {
    OnLineBetween(ps, i, percent);
    Proportion(ps[i], ps[i + 1], percent);
  }

  lemma Proportion(lower: Point, upper: Point, percent: real)
    requires lower.percent < upper.percent
    ensures (OnLine(lower, upper, percent) - lower.litres) * (upper.percent - lower.percent) ==
      (percent - lower.percent) * (upper.litres - lower.litres)
  {
    var width, rise := upper.percent - lower.percent, upper.litres - lower.litres;
    var f := (percent - lower.percent) / width;
    assert f * width == percent - lower.percent;
    assert (f * rise) * width == (f * width) * rise;
  }

  lemma {:induction false} RisingPairs(rs: seq<Reading>, n: nat, i: nat, j: nat)
    requires i <= j < n <= |rs| && Rising(rs, n)
    ensures Sound(rs[i]) && Sound(rs[j]) && (i < j ==> Below(rs[i], rs[j]))
  {
    if j < n - 1 { RisingPairs(rs, n - 1, i, j); }
    else if i < j { RisingPairs(rs, n - 1, i, j - 1); }
  }

  predicate Sound(r: Reading) { r.percent.Finite? && r.litres.Finite? && 0.0 <= r.litres.value }

  predicate Below(r: Reading, s: Reading)
    requires Sound(r) && Sound(s)
  {
    r.percent.value < s.percent.value && r.litres.value < s.litres.value
  }

  lemma {:induction false} RisingFromPairs(rs: seq<Reading>, n: nat)
    requires n <= |rs| && (forall i :: 0 <= i < n ==> Sound(rs[i]))
    requires forall i, j :: 0 <= i < j < n ==> Below(rs[i], rs[j])
    ensures Rising(rs, n)
  {
    if n > 0 { RisingFromPairs(rs, n - 1); }
  }

  /** New's condition over all pairs of points, though it compares neighbours. */
  lemma AcceptsExactly(rs: seq<Reading>)
    ensures Accepted(rs) <==>
      && |rs| >= 2 && (forall i :: 0 <= i < |rs| ==> Sound(rs[i]))
      && rs[0].percent.value == 0.0 && rs[|rs| - 1].percent.value == 100.0
      && forall i, j :: 0 <= i < j < |rs| ==> Below(rs[i], rs[j])
  {
    if Accepted(rs) {
      forall i | 0 <= i < |rs| ensures Sound(rs[i]) { RisingPairs(rs, |rs|, i, i); }
      forall i, j | 0 <= i < j < |rs| ensures Below(rs[i], rs[j]) { RisingPairs(rs, |rs|, i, j); }
    }
    if (forall i :: 0 <= i < |rs| ==> Sound(rs[i])) && forall i, j :: 0 <= i < j < |rs| ==> Below(rs[i], rs[j]) {
      RisingFromPairs(rs, |rs|);
    }
  }
}
