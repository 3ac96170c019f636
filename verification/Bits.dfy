/** Bit strings, most significant bit first, and the numbers they denote. */
module Bits {
  import opened Basics

  type BitString = seq<bool>

  function Pow2(n: nat): (p: nat)
    ensures p > 0
  {
    if n == 0 then 1 else 2 * Pow2(n - 1)
  }

  function Bit(b: bool): nat { if b then 1 else 0 }

  function Number(bits: BitString): nat {
    if bits == [] then 0 else 2 * Number(bits[..|bits| - 1]) + Bit(bits[|bits| - 1])
  }

  /** `v` in exactly `n` bits. */
  function ToBits(v: nat, n: nat): (r: BitString)
    ensures |r| == n
  {
    if n == 0 then [] else ToBits(v / 2, n - 1) + [v % 2 == 1]
  }

  lemma NumberNext(bits: BitString, b: bool)
    ensures Number(bits + [b]) == 2 * Number(bits) + Bit(b)
  {
    assert (bits + [b])[..|bits|] == bits;
  }

  lemma {:induction false} NumberOfBits(v: nat, n: nat)
    requires v < Pow2(n)
    ensures Number(ToBits(v, n)) == v
  {
    if n > 0 {
      var half := v / 2;
      NumberOfBits(half, n - 1);
      NumberNext(ToBits(half, n - 1), v % 2 == 1);
    }
  }

  lemma {:induction false} NumberBound(bits: BitString)
    ensures Number(bits) < Pow2(|bits|)
  {
    if bits != [] { NumberBound(bits[..|bits| - 1]); }
  }

  lemma {:induction false} NumberInjective(a: BitString, b: BitString)
    requires |a| == |b| && Number(a) == Number(b)
    ensures a == b
  {
    if a != [] {
      var n := |a| - 1;
      NumberInjective(a[..n], b[..n]);
      assert a == a[..n] + [a[n]] && b == b[..n] + [b[n]];
    }
  }

  lemma {:induction false} NumberConcat(a: BitString, b: BitString)
    ensures Number(a + b) == Number(a) * Pow2(|b|) + Number(b)
  {
    if b == [] {
      assert a + b == a;
    } else {
      var n := |b| - 1;
      NumberConcat(a, b[..n]);
      assert (a + b)[..|a| + n] == a + b[..n];
      assert Number(a) * (2 * Pow2(n)) == 2 * (Number(a) * Pow2(n));
    }
  }

  lemma {:induction false} TimesGap(a: nat, b: nat, d: nat)
    requires a < b
    ensures a * d + d <= b * d
    decreases b
  {
    assert b * d == (b - 1) * d + d;
    if a + 1 < b { TimesGap(a, b - 1, d); }
  }

  lemma DivideUnique(v: nat, d: nat, q: nat, r: nat)
    requires d > 0 && r < d && v == q * d + r
    ensures v / d == q
  {
    var q' := v / d;
    assert v == q' * d + v % d;
    if q' < q {
      TimesGap(q', q, d);
    } else if q < q' {
      TimesGap(q, q', d);
    }
  }

  /** Taking the first bits of a bit string is dividing by a power of two. */
  lemma NumberOfPrefix(bits: BitString, n: nat)
    requires n <= |bits|
    ensures Number(bits[..n]) == Number(bits) / Pow2(|bits| - n)
  {
    NumberConcat(bits[..n], bits[n..]);
    assert bits == bits[..n] + bits[n..];
    NumberBound(bits[n..]);
    DivideUnique(Number(bits), Pow2(|bits| - n), Number(bits[..n]), Number(bits[n..]));
  }

  /** Equal first bits, said by division. */
  lemma PrefixByDivision(a: BitString, b: BitString, n: nat)
    requires |a| == |b| && n <= |a|
    ensures a[..n] == b[..n] <==> Number(a) / Pow2(|a| - n) == Number(b) / Pow2(|a| - n)
  {
    NumberOfPrefix(a, n);
    NumberOfPrefix(b, n);
    if Number(a[..n]) == Number(b[..n]) { NumberInjective(a[..n], b[..n]); }
  }

  // Bytes.

  const OCTET: nat := 8

  function ByteBits(bytes: seq<byte>): (r: BitString)
    ensures |r| == 8 * |bytes|
  {
    if bytes == [] then [] else ByteBits(bytes[..|bytes| - 1]) + ToBits(bytes[|bytes| - 1], OCTET)
  }

  /** Big-endian value of a byte string. */
  function Value(bytes: seq<byte>): nat {
    if bytes == [] then 0 else 256 * Value(bytes[..|bytes| - 1]) + bytes[|bytes| - 1]
  }

  function ToBytes(v: nat, n: nat): (r: seq<byte>)
    ensures |r| == n
  {
    if n == 0 then [] else ToBytes(v / 256, n - 1) + [v % 256]
  }

  lemma EightBits()
    ensures Pow2(OCTET) == 256
  {
    assert Pow2(4) == 16;
    assert Pow2(OCTET) == Pow2(8);
  }

  lemma NumberOfNextByte(bits: BitString, b: byte)
    ensures Number(bits + ToBits(b, OCTET)) == 256 * Number(bits) + b
  {
    var tail := ToBits(b, OCTET);
    EightBits();
    NumberOfBits(b, OCTET);
    NumberConcat(bits, tail);
    assert Number(bits) * Pow2(|tail|) == 256 * Number(bits);
  }

  lemma {:induction false} NumberOfByteBits(bytes: seq<byte>)
    ensures Number(ByteBits(bytes)) == Value(bytes)
  {
    if bytes != [] {
      var n := |bytes| - 1;
      NumberOfByteBits(bytes[..n]);
      NumberOfNextByte(ByteBits(bytes[..n]), bytes[n]);
    }
  }

  lemma Doubled(a: nat, b: nat)
    ensures 2 * (a * b) == (2 * a) * b
  {
  }

  lemma {:induction false} PowSum(m: nat, n: nat)
    ensures Pow2(m + n) == Pow2(m) * Pow2(n)
  {
    if m > 0 {
      PowSum(m - 1, n);
      assert Pow2(m + n) == 2 * Pow2((m - 1) + n);
      Doubled(Pow2(m - 1), Pow2(n));
    }
  }

  lemma {:induction false} ValueOfBytes(v: nat, n: nat)
    requires v < Pow2(8 * n)
    ensures Value(ToBytes(v, n)) == v
  {
    if n > 0 {
      EightBits();
      PowSum(OCTET, 8 * (n - 1));
      ValueOfBytes(v / 256, n - 1);
      assert ToBytes(v, n)[..n - 1] == ToBytes(v / 256, n - 1);
    }
  }

  lemma {:induction false} ByteBitsConcat(a: seq<byte>, b: seq<byte>)
    ensures ByteBits(a + b) == ByteBits(a) + ByteBits(b)
  {
    hide ToBits;
    if b == [] {
      assert a + b == a;
    } else {
      var n := |b| - 1;
      var last := ToBits(b[n], OCTET);
      ByteBitsConcat(a, b[..n]);
      assert (a + b)[..|a| + n] == a + b[..n];
      assert ByteBits(a + b) == (ByteBits(a) + ByteBits(b[..n])) + last;
      assert ByteBits(b) == ByteBits(b[..n]) + last;
    }
  }
}
