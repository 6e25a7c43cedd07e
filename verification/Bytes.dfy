/** Bytes, and unsigned integers in big-endian order. A Go string is a sequence of bytes too. */
module Bytes {
  type Byte = x: int | 0 <= x < 256
  type Bytestring = seq<Byte>

  const UINT32: nat := 0x1_0000_0000
  const UINT64: nat := 0x1_0000_0000_0000_0000

  type Uint32 = x: nat | x < UINT32
  type Uint64 = x: nat | x < UINT64
  type Int8 = x: int | -0x80 <= x < 0x80
  type Int16 = x: int | -0x8000 <= x < 0x8000
  type Int32 = x: int | -0x8000_0000 <= x < 0x8000_0000
  type Int64 = x: int | -0x8000_0000_0000_0000 <= x < 0x8000_0000_0000_0000

  /** The number of values of `k` bytes. */
  function Limit(k: nat): (limit: nat)
    ensures limit > 0
  {
    if k == 0 then 1 else 256 * Limit(k - 1)
  }

  lemma Limits()
    ensures Limit(1) == 256 && Limit(2) == 0x1_0000 && Limit(4) == UINT32 && Limit(8) == UINT64
  {
    assert Limit(3) == 0x100_0000;
    assert Limit(6) == 0x1_0000_0000_0000 by { assert Limit(5) == 0x100_0000_0000; }
    assert Limit(7) == 0x100_0000_0000_0000;
  }

  function BigEndian(n: nat, k: nat): (s: Bytestring)
    ensures |s| == k
  {
    if k == 0 then [] else BigEndian(n / 256, k - 1) + [n % 256]
  }

  function Value(s: Bytestring): (n: nat)
    ensures n < Limit(|s|)
  {
    if s == [] then 0 else 256 * Value(s[..|s| - 1]) + s[|s| - 1]
  }

  lemma {:induction false} BigEndianRoundTrip(n: nat, k: nat)
    requires n < Limit(k)
    ensures Value(BigEndian(n, k)) == n
  {
    if k > 0 {
      BigEndianRoundTrip(n / 256, k - 1);
      assert BigEndian(n, k)[..k - 1] == BigEndian(n / 256, k - 1);
    }
  }

  lemma Shift(high: nat, limit: nat, low: nat, last: nat)
    ensures 256 * (high * limit + low) + last == high * (256 * limit) + (256 * low + last)
  {
    assert 256 * (high * limit) == high * (256 * limit);
  }

  /** The most significant bytes come first, whatever the width. */
  lemma {:induction false} MostSignificantFirst(a: Bytestring, b: Bytestring)
    ensures Value(a + b) == Value(a) * Limit(|b|) + Value(b)
  {
    if b == [] {
      assert a + b == a;
      assert Value(a) * 1 == Value(a);
    } else {
      var n := |b| - 1;
      MostSignificantFirst(a, b[..n]);
      assert (a + b)[..|a + b| - 1] == a + b[..n];
      Shift(Value(a), Limit(n), Value(b[..n]), b[n]);
      assert Value(a + b) == 256 * Value(a + b[..n]) + b[n];
    }
  }

  /** Conversion of a signed integer to the unsigned integer of the same width, and back. */
  function Unsigned(i: int, width: nat): (u: nat)
    requires 0 <= 2 * i + width < 2 * width
    ensures u < width
  {
    if i < 0 then i + width else i
  }

  function Signed(u: nat, width: nat): (i: int)
    requires u < width
    ensures 0 <= 2 * i + width < 2 * width
  {
    if 2 * u >= width then u - width else u
  }

  lemma Regroup(a: Bytestring, b: Bytestring, c: Bytestring)
    ensures (a + b) + c == a + (b + c)
  {
  }
}
