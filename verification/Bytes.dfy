/** Fixed-width integers as bytes, in both byte orders the wire formats use. */
module Bytes {
  type Byte = b: int | 0 <= b < 256

  const U16_MAX := 0xFFFF
  const U32_MAX := 0xFFFF_FFFF
  const U64_MAX := 0xFFFF_FFFF_FFFF_FFFF

  /** The number of values `width` bytes can hold. */
  function Capacity(width: nat): (c: nat)
    ensures c > 0
  {
    if width == 0 then 1 else 256 * Capacity(width - 1)
  }

  lemma {:induction false} Capacities()
    ensures Capacity(2) == U16_MAX + 1
    ensures Capacity(4) == U32_MAX + 1
    ensures Capacity(8) == U64_MAX + 1
  {
    assert Capacity(2) == 0x1_0000;
    assert Capacity(4) == 0x1_0000_0000;
    assert Capacity(6) == 0x1_0000_0000_0000;
    assert Capacity(8) == 0x1_0000_0000_0000_0000;
  }

  /** `n` in exactly `width` bytes, most significant first. */
  function BigEndian(n: nat, width: nat): (b: seq<Byte>)
    ensures |b| == width
  {
    if width == 0 then [] else BigEndian(n / 256, width - 1) + [n % 256]
  }

  function FromBigEndian(b: seq<Byte>): (n: nat)
  {
    if b == [] then 0 else FromBigEndian(b[..|b| - 1]) * 256 + b[|b| - 1]
  }

  lemma {:induction false} BigEndianRoundTrip(n: nat, width: nat)
    requires n < Capacity(width)
    ensures FromBigEndian(BigEndian(n, width)) == n
  {
    if width > 0 {
      BigEndianRoundTrip(n / 256, width - 1);
      assert BigEndian(n, width)[..width - 1] == BigEndian(n / 256, width - 1);
    }
  }

  lemma {:induction false} FromBigEndianRoundTrip(b: seq<Byte>)
    ensures FromBigEndian(b) < Capacity(|b|)
    ensures BigEndian(FromBigEndian(b), |b|) == b
  {
    if b != [] {
      FromBigEndianRoundTrip(b[..|b| - 1]);
      var high := FromBigEndian(b[..|b| - 1]);
      assert (high * 256 + b[|b| - 1]) / 256 == high;
    }
  }

  /** `n` in exactly `width` bytes, least significant first. */
  function LittleEndian(n: nat, width: nat): (b: seq<Byte>)
    ensures |b| == width
  {
    if width == 0 then [] else [n % 256] + LittleEndian(n / 256, width - 1)
  }

  function FromLittleEndian(b: seq<Byte>): (n: nat)
  {
    if b == [] then 0 else b[0] + 256 * FromLittleEndian(b[1..])
  }

  lemma {:induction false} LittleEndianRoundTrip(n: nat, width: nat)
    requires n < Capacity(width)
    ensures FromLittleEndian(LittleEndian(n, width)) == n
  {
    if width > 0 {
      LittleEndianRoundTrip(n / 256, width - 1);
      assert LittleEndian(n, width)[1..] == LittleEndian(n / 256, width - 1);
    }
  }

  lemma {:induction false} SplitLow(low: Byte, high: nat)
    ensures (low + 256 * high) / 256 == high && (low + 256 * high) % 256 == low
  {
  }

  lemma {:induction false} FromLittleEndianRoundTrip(b: seq<Byte>)
    ensures FromLittleEndian(b) < Capacity(|b|)
    ensures LittleEndian(FromLittleEndian(b), |b|) == b
  {
    if b != [] {
      FromLittleEndianRoundTrip(b[1..]);
      var high := FromLittleEndian(b[1..]);
      SplitLow(b[0], high);
      assert b == [b[0]] + b[1..];
    }
  }

  /** Bytes behind their 64-bit little-endian length. */
  function LengthPrefixed(b: seq<Byte>): seq<Byte> { LittleEndian(|b|, 8) + b }

  /** Most significant byte first. */
  lemma {:induction false} FourBytes(n: nat)
    requires n <= U32_MAX
    ensures BigEndian(n, 4) == [n / 16777216, n / 65536 % 256, n / 256 % 256, n % 256]
  {
    assert BigEndian(n / 16777216, 1) == [n / 16777216];
    assert n / 256 / 256 / 256 == n / 16777216 && n / 256 / 256 == n / 65536;
    assert BigEndian(n / 65536, 2) == [n / 16777216, n / 65536 % 256];
    assert BigEndian(n / 256, 3) == [n / 16777216, n / 65536 % 256, n / 256 % 256];
  }

  /** Least significant byte first. */
  lemma {:induction false} LowByteFirst(n: nat, width: nat)
    requires width > 0
    ensures LittleEndian(n, width)[0] == n % 256 && LittleEndian(n, width)[1..] == LittleEndian(n / 256, width - 1)
  {
  }
}
