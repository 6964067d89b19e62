/**
 * Signed 32-bit integers as four bytes, lowest first: the frames of heating/state.go, cmd/servsim/echo.go and
 * service/adapters/garmin/adapter.go.
 */
module Int32 {
  import opened Wrappers

  type Byte = x: int | 0 <= x < 256 witness 0

  predicate IsInt32(x: int) { -0x8000_0000 <= x < 0x8000_0000 }

  /** A conversion to uint32 keeps the low 32 bits. */
  function ToUint32(x: int): int { x % 0x1_0000_0000 }

  /** A conversion to int32 keeps the low 32 bits. */
  function ToInt32(x: int): (r: int)
    ensures IsInt32(r) && (IsInt32(x) ==> r == x)
  {
    var u := ToUint32(x);
    if u >= 0x8000_0000 then u - 0x1_0000_0000 else u
  }

  // ----- bits

  /** Go's `|` on ints of any sign, in two's complement. */
  function Or(a: int, b: int): int
    decreases Magnitude(a) + Magnitude(b)
  {
    if -1 <= a <= 0 && -1 <= b <= 0 then (if a == 0 && b == 0 then 0 else -1)
    else 2 * Or(a / 2, b / 2) + if a % 2 == 1 || b % 2 == 1 then 1 else 0
  }

  function Magnitude(x: int): nat { if x >= 0 then x else -1 - x }

  /** A 64-bit int shifted left by one bit. */
  function Doubled(x: int): int {
    if 2 * x >= 0x8000_0000_0000_0000 then 2 * x - 0x1_0000_0000_0000_0000
    else if 2 * x < -0x8000_0000_0000_0000 then 2 * x + 0x1_0000_0000_0000_0000
    else 2 * x
  }

  /** Go's `<<` on a 64-bit int. */
  function Shift(x: int, n: nat): int { if n == 0 then x else Doubled(Shift(x, n - 1)) }

  const ONE_BYTE: nat := 8

  /** The little-endian word of two list entries, which JSON does not confine to bytes. */
  function Word(low: int, high: int): int { Or(low, Shift(high, ONE_BYTE)) }

  /** The little-endian double word of four list entries. */
  function DoubleWord(a: int, b: int, c: int, d: int): int {
    Or(Or(Or(a, Shift(b, ONE_BYTE)), Shift(c, 2 * ONE_BYTE)), Shift(d, 3 * ONE_BYTE))
  }

  function Pow2(n: nat): nat { if n == 0 then 1 else 2 * Pow2(n - 1) }

  /** Numbers without common bits are added. */
  lemma {:induction false} OrAdds(a: nat, n: nat, high: int)
    requires a < Pow2(n)
    ensures Or(a, high * Pow2(n)) == a + high * Pow2(n)
    decreases n
  {
    if n == 0 {
      OrZero(high);
    } else {
      var half := high * Pow2(n - 1);
      assert high * Pow2(n) == 2 * half;
      OrAdds(a / 2, n - 1, high);
    }
  }

  lemma {:induction false} OrZero(x: int)
    ensures Or(0, x) == x
    decreases Magnitude(x)
  {
    if x < -1 || x > 0 { OrZero(x / 2); }
  }

  lemma Powers()
    ensures Pow2(8) == 256 && Pow2(16) == 65_536 && Pow2(24) == 16_777_216
  {
  }

  lemma {:induction false} Unshifted(x: Byte, n: nat)
    requires n <= 24
    ensures Shift(x, n) == x * Pow2(n)
  {
    if n > 0 {
      Unshifted(x, n - 1);
      Powers();
      PowersGrow(n - 1, 24);
      Doubling(x, Pow2(n - 1));
    }
  }

  lemma Doubling(x: Byte, weight: nat)
    requires weight <= 16_777_216
    ensures Doubled(x * weight) == x * (2 * weight)
  {
    assert 0 <= x * weight <= 255 * weight;
  }

  lemma {:induction false} PowersGrow(m: nat, n: nat)
    requires m <= n
    ensures 0 < Pow2(m) <= Pow2(n)
  {
    if m < n { PowersGrow(m, n - 1); } else if m > 0 { PowersGrow(m - 1, m - 1); }
  }

  /** A higher byte is added by its weight. */
  lemma OrByte(a: nat, n: nat, high: Byte)
    requires n <= 24 && a < Pow2(n)
    ensures Or(a, Shift(high, n)) == a + high * Pow2(n)
  {
    OrAdds(a, n, high);
    Unshifted(high, n);
  }

  lemma WordOfBytes(low: Byte, high: Byte)
    ensures Word(low, high) == low + 256 * high
  {
    Powers();
    OrByte(low, 8, high);
  }

  lemma DoubleWordOfBytes(a: Byte, b: Byte, c: Byte, d: Byte)
    ensures DoubleWord(a, b, c, d) == Combine(a, b, c, d)
  {
    Powers();
    OrByte(a, 8, b);
    OrByte(a + b * 256, 16, c);
    OrByte(a + b * 256 + c * 65_536, 24, d);
  }

  // ----- bytes

  function Combine(a: int, b: int, c: int, d: int): int { a + 256 * (b + 256 * (c + 256 * d)) }

  /** The four bytes of an int32, lowest first. */
  function LittleEndian(x: int): (r: seq<Byte>)
    ensures |r| == 4
  {
    var u := ToUint32(x);
    [u % 256, u / 256 % 256, u / 256 / 256 % 256, u / 256 / 256 / 256 % 256]
  }

  lemma BytesOf(u: int)
    requires 0 <= u < 0x1_0000_0000
    ensures Combine(u % 256, u / 256 % 256, u / 256 / 256 % 256, u / 256 / 256 / 256 % 256) == u
  {
    var u1 := u / 256;
    var u2 := u1 / 256;
    var u3 := u2 / 256;
    assert 0 <= u1 < 0x100_0000;
    assert 0 <= u2 < 0x1_0000;
    assert 0 <= u3 < 256;
  }

  lemma Low(low: Byte, high: int)
    requires high >= 0
    ensures (low + 256 * high) % 256 == low && (low + 256 * high) / 256 == high
  {
  }

  lemma Uint32Of(x: int)
    requires IsInt32(x)
    ensures ToUint32(x) == if x >= 0 then x else x + 0x1_0000_0000
    ensures ToInt32(ToUint32(x)) == x
  {
  }

  /** Encoding then decoding gives any int32 back. */
  lemma LittleEndianRoundTrip(x: int)
    requires IsInt32(x)
    ensures var b := LittleEndian(x); ToInt32(Combine(b[0], b[1], b[2], b[3])) == x
  {
    BytesOf(ToUint32(x));
    Uint32Of(x);
  }

  /** Decoding then encoding gives any four bytes back. */
  lemma BytesRoundTrip(a: Byte, b: Byte, c: Byte, d: Byte)
    ensures LittleEndian(ToInt32(Combine(a, b, c, d))) == [a, b, c, d]
  {
    var u3: int := d;
    var u2 := c + 256 * u3;
    var u1 := b + 256 * u2;
    var u := a + 256 * u1;
    Low(c, u3);
    Low(b, u2);
    Low(a, u1);
    assert 0 <= u < 0x1_0000_0000;
    Uint32OfInt32(u);
  }

  lemma Uint32OfInt32(u: int)
    requires 0 <= u < 0x1_0000_0000
    ensures ToUint32(ToInt32(u)) == u
  {
    assert ToUint32(u) == u;
  }

  /** signedInt32LittleEndian accepts exactly four byte values and inverts the encoding. */
  method SignedInt32(data: seq<int>) returns (r: Option<int>)
    ensures r.Some? <==> |data| == 4 && forall i :: 0 <= i < 4 ==> 0 <= data[i] < 256
    ensures r.Some? ==> IsInt32(r.value) && LittleEndian(r.value) == data
  {
    if |data| != 4 { return None; }
    var value, weight := 0, 1;
    for i := 0 to 4
      invariant forall j :: 0 <= j < i ==> 0 <= data[j] < 256
      invariant i == 0 ==> weight == 1 && value == 0
      invariant i == 1 ==> weight == 256 && value == data[0]
      invariant i == 2 ==> weight == 65_536 && value == data[0] + 256 * data[1]
      invariant i == 3 ==> weight == 16_777_216 && value == data[0] + 256 * data[1] + 65_536 * data[2]
      invariant i == 4 ==> value == data[0] + 256 * data[1] + 65_536 * data[2] + 16_777_216 * data[3]
    {
      if data[i] < 0 || data[i] > 255 { return None; }
      value := value + data[i] * weight;
      weight := weight * 256;
    }
    BytesRoundTrip(data[0], data[1], data[2], data[3]);
    assert value == Combine(data[0], data[1], data[2], data[3]);
    assert data == [data[0], data[1], data[2], data[3]];
    return Some(ToInt32(value));
  }
}
