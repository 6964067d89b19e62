/**
 * service/runtime/mopeka.go: how full a tank with a hemispherical base is, from the height of its liquid. Lengths are
 * reals; pi stands for math.Pi.
 */
module TankLevel {
  /** tankVolumeBelowMm. */
  function VolumeBelow(pi: real, level: real, radius: real): real {
    if radius <= 0.0 then level
    else if level <= radius then pi * level * level * (radius - level / 3.0)
    else 2.0 / 3.0 * pi * (radius * radius * radius) + pi * radius * radius * (level - radius)
  }

  /** tankFillPercent. */
  function FillPercent(pi: real, level: real, radius: real, height: real): real
    requires pi > 0.0 && level >= 0.0
  {
    if height <= 0.0 then 0.0
    else
      VolumePositive(pi, height, radius);
      VolumeBelow(pi, level, radius) / VolumeBelow(pi, height, radius) * 100.0
  }

  /** The volume without its factor pi. */
  function Unit(level: real, radius: real): real {
    if level <= radius then level * level * (radius - level / 3.0) else radius * radius * (level - radius / 3.0)
  }

  lemma VolumeIsUnit(pi: real, level: real, radius: real)
    requires radius > 0.0
    ensures VolumeBelow(pi, level, radius) == pi * Unit(level, radius)
  {
    if level > radius {
      var square := radius * radius;
      assert radius * radius * radius == square * radius;
      assert 2.0 / 3.0 * pi * (square * radius) + pi * square * (level - radius) ==
        pi * (square * (level - radius / 3.0));
      assert pi * radius * radius == pi * square;
    } else {
      assert pi * level * level == pi * (level * level);
    }
  }

  /** The cap and the barrel agree where they meet. */
  lemma Join(pi: real, radius: real)
    requires radius > 0.0
    ensures pi * radius * radius * (radius - radius / 3.0) == 2.0 / 3.0 * pi * (radius * radius * radius) +
      pi * radius * radius * (radius - radius)
  {
    assert radius - radius / 3.0 == 2.0 / 3.0 * radius;
    assert pi * radius * radius * (2.0 / 3.0 * radius) == 2.0 / 3.0 * pi * (radius * radius * radius);
  }

  lemma Positive(x: real, y: real)
    requires x > 0.0 && y > 0.0
    ensures x * y > 0.0
  {
  }

  lemma NonNegative(x: real, y: real)
    requires x >= 0.0 && y >= 0.0
    ensures x * y >= 0.0
  {
  }

  lemma CapDifference(a: real, b: real, radius: real)
    ensures b * b * (radius - b / 3.0) - a * a * (radius - a / 3.0) ==
      (b - a) * (radius * (a + b) - (a * a + a * b + b * b) / 3.0)
  {
  }

  lemma CapSlope(a: real, b: real, radius: real)
    requires 0.0 <= a < b <= radius
    ensures radius * (a + b) - (a * a + a * b + b * b) / 3.0 > 0.0
  {
    Scale(b, radius, a + b);
    Scale(a, b, a);
    NonNegative(a, b);
    Positive(b, b);
    var ab, bb := a * b, b * b;
    assert b * (a + b) == ab + bb && b * a == ab;
    assert radius * (a + b) >= ab + bb && a * a <= ab;
  }

  lemma CapGrows(a: real, b: real, radius: real)
    requires 0.0 <= a < b <= radius
    ensures Unit(a, radius) < Unit(b, radius)
  {
    CapDifference(a, b, radius);
    CapSlope(a, b, radius);
    Positive(b - a, radius * (a + b) - (a * a + a * b + b * b) / 3.0);
  }

  lemma Scale(x: real, y: real, k: real)
    requires x <= y && k >= 0.0
    ensures x * k <= y * k
  {
  }

  lemma UnitGrows(a: real, b: real, radius: real)
    requires 0.0 <= a < b && radius > 0.0
    ensures Unit(a, radius) < Unit(b, radius)
  {
    var square := radius * radius;
    Positive(radius, radius);
    assert Unit(radius, radius) == square * (radius - radius / 3.0);
    if b <= radius {
      CapGrows(a, b, radius);
    } else {
      if a < radius { CapGrows(a, radius, radius); }
      var from := if a <= radius then radius else a;
      assert square * (b - radius / 3.0) - square * (from - radius / 3.0) == square * (b - from);
      Positive(square, b - from);
    }
  }

  /** A higher level holds strictly more. */
  lemma VolumeGrows(pi: real, a: real, b: real, radius: real)
    requires pi > 0.0 && 0.0 <= a < b
    ensures VolumeBelow(pi, a, radius) < VolumeBelow(pi, b, radius)
  {
    if radius > 0.0 {
      VolumeIsUnit(pi, a, radius);
      VolumeIsUnit(pi, b, radius);
      UnitGrows(a, b, radius);
    }
  }

  lemma VolumePositive(pi: real, height: real, radius: real)
    requires pi > 0.0 && height > 0.0
    ensures VolumeBelow(pi, height, radius) > 0.0
  {
    VolumeGrows(pi, 0.0, height, radius);
    if radius > 0.0 { VolumeIsUnit(pi, 0.0, radius); }
  }

  lemma Ratio(x: real, y: real, whole: real)
    requires whole > 0.0
    ensures x < y ==> x / whole < y / whole
    ensures whole / whole == 1.0
  {
    assert (x / whole) * whole == x && (y / whole) * whole == y;
  }

  /**
   * The reading grows with the level, from 0 for an empty tank to 100 at the fill height, and passes 100 exactly above
   * it.
   */
  lemma PercentGrows(pi: real, a: real, b: real, radius: real, height: real)
    requires pi > 0.0 && 0.0 <= a <= b && height > 0.0
    ensures FillPercent(pi, a, radius, height) <= FillPercent(pi, b, radius, height)
    ensures a < b ==> FillPercent(pi, a, radius, height) < FillPercent(pi, b, radius, height)
  {
    VolumePositive(pi, height, radius);
    if a < b {
      VolumeGrows(pi, a, b, radius);
      Ratio(VolumeBelow(pi, a, radius), VolumeBelow(pi, b, radius), VolumeBelow(pi, height, radius));
    }
  }

  lemma PercentRange(pi: real, level: real, radius: real, height: real)
    requires pi > 0.0 && level >= 0.0 && height > 0.0
    ensures FillPercent(pi, 0.0, radius, height) == 0.0 && FillPercent(pi, height, radius, height) == 100.0
    ensures FillPercent(pi, level, radius, height) > 100.0 <==> level > height
    ensures FillPercent(pi, level, radius, height) >= 0.0
  {
    VolumePositive(pi, height, radius);
    Ratio(0.0, 0.0, VolumeBelow(pi, height, radius));
    if radius > 0.0 { VolumeIsUnit(pi, 0.0, radius); }
    PercentGrows(pi, 0.0, level, radius, height);
    if level > height { PercentGrows(pi, height, level, radius, height); } else {
      PercentGrows(pi, level, height, radius, height);
    }
  }

  lemma BothInDome(a: real, height: real, radius: real)
    requires 0.0 <= a <= height <= radius
    ensures Unit(a, radius) * height <= a * Unit(height, radius)
  {
    var gap := (height - a) * (radius - (height + a) / 3.0);
    NonNegative(height - a, radius - (height + a) / 3.0);
    NonNegative(a, height);
    NonNegative(a * height, gap);
    assert gap == height * (radius - height / 3.0) - a * (radius - a / 3.0);
    assert a * (height * height * (radius - height / 3.0)) - a * a * (radius - a / 3.0) * height == a * height * gap;
  }

  lemma DomeAndBarrel(a: real, height: real, radius: real)
    requires 0.0 <= a <= radius < height
    ensures Unit(a, radius) * height <= a * Unit(height, radius)
  {
    var rest := radius * radius - a * radius + a * a / 3.0;
    DomeShare(a, radius);
    Scale(radius, height, rest);
    var gap := height * rest - radius * radius * radius / 3.0;
    assert gap >= 0.0 by { assert rest * radius == radius * rest && rest * height == height * rest; }
    NonNegative(a, gap);
    assert a * (radius * radius * (height - radius / 3.0)) - a * a * (radius - a / 3.0) * height == a * gap;
  }

  /** With the dome just full: the key factorisation is (radius - a) * (2 * radius - a). */
  lemma DomeShare(a: real, radius: real)
    requires 0.0 <= a <= radius
    ensures var rest := radius * radius - a * radius + a * a / 3.0;
      rest >= 0.0 && radius * rest >= radius * radius * radius / 3.0
  {
    var rest := radius * radius - a * radius + a * a / 3.0;
    NonNegative(radius, radius - a);
    NonNegative(a, a);
    NonNegative(radius - a, 2.0 * radius - a);
    NonNegative(radius, (radius - a) * (2.0 * radius - a));
    assert rest - radius * radius / 3.0 == (radius - a) * (2.0 * radius - a) / 3.0;
    assert radius * rest - radius * radius * radius / 3.0 == radius * ((radius - a) * (2.0 * radius - a)) / 3.0;
    assert rest == radius * (radius - a) + a * a / 3.0;
  }

  lemma BothInBarrel(a: real, height: real, radius: real)
    requires 0.0 <= radius < a <= height
    ensures Unit(a, radius) * height <= a * Unit(height, radius)
  {
    NonNegative(radius, radius);
    NonNegative(radius * radius, radius);
    NonNegative(radius * radius * radius, height - a);
    assert a * (radius * radius * (height - radius / 3.0)) - radius * radius * (a - radius / 3.0) * height ==
      radius * radius * radius * (height - a) / 3.0;
  }

  /** Volume per height never falls, so the dome never holds more than its linear share. */
  lemma UnitBelowLinear(a: real, height: real, radius: real)
    requires 0.0 <= a <= height && radius > 0.0
    ensures Unit(a, radius) * height <= a * Unit(height, radius)
  {
    if height <= radius { BothInDome(a, height, radius); }
    else if a <= radius { DomeAndBarrel(a, height, radius); }
    else { BothInBarrel(a, height, radius); }
  }

  lemma PercentBelowLinear(pi: real, a: real, radius: real, height: real)
    requires pi > 0.0 && 0.0 <= a <= height && height > 0.0
    ensures FillPercent(pi, a, radius, height) <= 100.0 * a / height
  {
    if radius > 0.0 {
      var u, v := Unit(a, radius), Unit(height, radius);
      PercentIsUnit(pi, a, radius, height);
      UnitBelowLinear(a, height, radius);
      CrossRatio(u, v, a, height);
    } else {
      CrossRatio(a, height, a, height);
    }
  }

  /** The factor pi cancels. */
  lemma PercentIsUnit(pi: real, a: real, radius: real, height: real)
    requires pi > 0.0 && 0.0 <= a && height > 0.0 && radius > 0.0
    ensures Unit(height, radius) > 0.0
    ensures FillPercent(pi, a, radius, height) == Unit(a, radius) / Unit(height, radius) * 100.0
  {
    UnitGrows(0.0, height, radius);
    VolumeIsUnit(pi, a, radius);
    VolumeIsUnit(pi, height, radius);
    CancelPi(pi, Unit(a, radius), Unit(height, radius), VolumeBelow(pi, a, radius), VolumeBelow(pi, height, radius));
  }

  lemma CancelPi(pi: real, u: real, v: real, part: real, whole: real)
    requires pi > 0.0 && v > 0.0 && part == pi * u && whole == pi * v
    ensures whole > 0.0 && part / whole == u / v
  {
    Positive(pi, v);
    var q := u / v;
    assert u == q * v;
    assert part == q * whole;
    assert (q * whole) / whole == q;
  }

  lemma CrossRatio(part: real, whole: real, a: real, height: real)
    requires whole > 0.0 && height > 0.0 && part * height <= a * whole
    ensures part / whole * 100.0 <= 100.0 * a / height
  {
    var p, q := part / whole, a / height;
    assert part == p * whole && a == q * height;
    Positive(whole, height);
    assert p * (whole * height) <= q * (whole * height);
    assert p <= q by {
      if p > q { Positive(p - q, whole * height); }
    }
    assert 100.0 * a / height == 100.0 * q;
  }

  // ----- the volume is that of the shape

  /** The area of the liquid's surface without its factor pi: a circle of the dome, above it the barrel's. */
  function Surface(level: real, radius: real): real {
    if level <= radius then 2.0 * radius * level - level * level else radius * radius
  }

  lemma DomeSlice(a: real, b: real, radius: real)
    requires 0.0 <= a <= b <= radius
    ensures Surface(a, radius) * (b - a) <= Unit(b, radius) - Unit(a, radius) <= Surface(b, radius) * (b - a)
  {
    var mean := radius * (a + b) - (a * a + a * b + b * b) / 3.0;
    CapDifference(a, b, radius);
    NonNegative(b - a, radius - (b + 2.0 * a) / 3.0);
    NonNegative(b - a, radius - (a + 2.0 * b) / 3.0);
    assert mean - Surface(a, radius) == (b - a) * (radius - (b + 2.0 * a) / 3.0);
    assert Surface(b, radius) - mean == (b - a) * (radius - (a + 2.0 * b) / 3.0);
    Scale(Surface(a, radius), mean, b - a);
    Scale(mean, Surface(b, radius), b - a);
  }

  lemma BarrelSlice(a: real, b: real, radius: real)
    requires 0.0 <= radius <= a <= b
    ensures Unit(b, radius) - Unit(a, radius) == radius * radius * (b - a)
    ensures Surface(a, radius) == radius * radius == Surface(b, radius)
  {
    var square := radius * radius;
    assert a == radius ==> Unit(a, radius) == square * (a - radius / 3.0);
    assert b == radius ==> Unit(b, radius) == square * (b - radius / 3.0);
    assert square * (b - radius / 3.0) - square * (a - radius / 3.0) == square * (b - a);
  }

  lemma SurfaceInDome(a: real, radius: real)
    requires 0.0 <= a <= radius
    ensures Surface(a, radius) <= radius * radius
  {
    NonNegative(radius - a, radius - a);
    assert radius * radius - Surface(a, radius) == (radius - a) * (radius - a);
  }

  lemma UnitSlice(a: real, b: real, radius: real)
    requires 0.0 <= a <= b && radius > 0.0
    ensures Surface(a, radius) * (b - a) <= Unit(b, radius) - Unit(a, radius) <= Surface(b, radius) * (b - a)
  {
    if b <= radius {
      DomeSlice(a, b, radius);
    } else if radius <= a {
      BarrelSlice(a, b, radius);
    } else {
      DomeSlice(a, radius, radius);
      BarrelSlice(radius, b, radius);
      SurfaceInDome(a, radius);
      Scale(Surface(a, radius), radius * radius, b - radius);
      assert Surface(a, radius) * (b - a) ==
        Surface(a, radius) * (radius - a) + Surface(a, radius) * (b - radius);
      assert radius * radius * (b - a) == radius * radius * (radius - a) + radius * radius * (b - radius);
    }
  }

  /**
   * The volume is pi times a `Unit` that is nothing for an empty tank and that grows, between any two levels, by at
   * least the lower surface and at most the upper one for the height in between: that of a hemisphere with a barrel on
   * top.
   */
  lemma VolumeIsOfShape(pi: real, a: real, b: real, radius: real)
    requires 0.0 <= a <= b && radius > 0.0
    ensures Unit(0.0, radius) == 0.0
    ensures VolumeBelow(pi, a, radius) == pi * Unit(a, radius)
    ensures Surface(a, radius) * (b - a) <= Unit(b, radius) - Unit(a, radius) <= Surface(b, radius) * (b - a)
  {
    VolumeIsUnit(pi, a, radius);
    UnitSlice(a, b, radius);
  }
}
