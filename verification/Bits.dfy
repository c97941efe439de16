/**
 Bits of natural numbers and of strings of bytes. Machine words are numbers;
 operations on bits are defined bit by bit.
 */
module Bits {
  type Byte = x: nat | x < 256

  datatype Op = AND | OR | XOR

  function Pow2(n: nat): (p: nat)
    ensures p > 0
  {
    if n == 0 then 1 else 2 * Pow2(n - 1)
  }

  lemma {:induction false} Pow2Add(m: nat, n: nat)
    ensures Pow2(m + n) == Pow2(m) * Pow2(n)
  {
    if m > 0 {
      Pow2Add(m - 1, n);
    }
  }

  lemma Pow2Values()
    ensures Pow2(3) == 8 && Pow2(7) == 128 && Pow2(8) == 256 && Pow2(16) == 65536 && Pow2(24) == 16777216
    ensures Pow2(32) == 4294967296 && Pow2(63) == 9223372036854775808 && Pow2(64) == 18446744073709551616
  {
    assert Pow2(4) == 16;
    Pow2Add(4, 4);
    Pow2Add(8, 8);
    Pow2Add(8, 16);
    Pow2Add(16, 16);
    Pow2Add(32, 32);
    assert Pow2(64) == 2 * Pow2(63);
  }

  /** The bit of weight 2^k. */
  function Bit(x: nat, k: nat): (b: nat)
    ensures b <= 1
  {
    x / Pow2(k) % 2
  }

  function OnBits(op: Op, a: nat, b: nat): (r: nat)
    requires a <= 1 && b <= 1
    ensures r <= 1
  {
    match op
    case AND => a * b
    case OR => if a + b > 0 then 1 else 0
    case XOR => (a + b) % 2
  }

  /** &, | and ^ on the low n bits. */
  function Bitwise(op: Op, x: nat, y: nat, n: nat): (r: nat)
    ensures r < Pow2(n)
  {
    if n == 0 then 0 else OnBits(op, x % 2, y % 2) + 2 * Bitwise(op, x / 2, y / 2, n - 1)
  }

  /** How many of the low n bits are set. */
  function Ones(x: nat, n: nat): (c: nat)
    ensures c <= n
  {
    if n == 0 then 0 else x % 2 + Ones(x / 2, n - 1)
  }

  lemma BitwiseNext(op: Op, x: nat, y: nat, n: nat)
    ensures Bitwise(op, x, y, n + 1) == OnBits(op, x % 2, y % 2) + 2 * Bitwise(op, x / 2, y / 2, n)
    ensures Bitwise(op, x, y, 0) == 0
  {
  }

  // ----- splitting a number in a low and a high part -----

  lemma MulMono(p: nat, a: int, b: int)
    requires a <= b
    ensures p * a <= p * b
  {
  }

  lemma HalfSplit(lo: nat, hi: nat, k: nat)
    requires k > 0 && lo < Pow2(k)
    ensures (lo + Pow2(k) * hi) % 2 == lo % 2 && (lo + Pow2(k) * hi) / 2 == lo / 2 + Pow2(k - 1) * hi
    ensures lo / 2 < Pow2(k - 1)
  {
    assert Pow2(k) * hi == 2 * (Pow2(k - 1) * hi);
  }

  lemma NoLowPart(op: Op, lo: nat, hi: nat, lo': nat, hi': nat)
    requires lo < Pow2(0) && lo' < Pow2(0)
    ensures lo + Pow2(0) * hi == hi && lo' + Pow2(0) * hi' == hi' && Pow2(0) == 1 && Bitwise(op, lo, lo', 0) == 0
  {
  }

  lemma {:induction false} BitwiseSplit(op: Op, lo: nat, hi: nat, lo': nat, hi': nat, k: nat, n: nat)
    requires lo < Pow2(k) && lo' < Pow2(k)
    ensures Bitwise(op, lo + Pow2(k) * hi, lo' + Pow2(k) * hi', k + n)
         == Bitwise(op, lo, lo', k) + Pow2(k) * Bitwise(op, hi, hi', n)
    decreases k
  {
    hide OnBits, Pow2, Bitwise;
    if k == 0 {
      NoLowPart(op, lo, hi, lo', hi');
    } else {
      HalfSplit(lo, hi, k);
      HalfSplit(lo', hi', k);
      BitwiseNext(op, lo, lo', k - 1);
      BitwiseNext(op, lo + Pow2(k) * hi, lo' + Pow2(k) * hi', k + n - 1);
      BitwiseSplit(op, lo / 2, hi, lo' / 2, hi', k - 1, n);
      TwicePow(k, Bitwise(op, hi, hi', n));
    }
  }

  lemma TwicePow(k: nat, x: nat)
    requires k > 0
    ensures Pow2(k) * x == 2 * (Pow2(k - 1) * x)
  {
  }

  lemma {:induction false} OnesSplit(lo: nat, hi: nat, k: nat, n: nat)
    requires lo < Pow2(k)
    ensures Ones(lo + Pow2(k) * hi, k + n) == Ones(lo, k) + Ones(hi, n)
    decreases k
  {
    if k > 0 {
      HalfSplit(lo, hi, k);
      OnesSplit(lo / 2, hi, k - 1, n);
    }
  }

  // ----- single bits -----

  lemma BitHalf(x: nat, k: nat)
    requires k > 0
    ensures Bit(x, k) == Bit(x / 2, k - 1)
  {
    var p, q := Pow2(k - 1), x / 2;
    assert x == 2 * (p * (q / p)) + (2 * (q % p) + x % 2) && 2 * (p * (q / p)) == Pow2(k) * (q / p);
    Quotient(x, Pow2(k), q / p, 2 * (q % p) + x % 2);
  }

  /** Division is unique. */
  lemma Quotient(x: int, d: nat, q: int, r: nat)
    requires d > 0 && r < d && x == d * q + r
    ensures x / d == q && x % d == r
  {
    var diff := x / d - q;
    assert d * diff == r - x % d;
    if diff >= 1 {
      MulMono(d, 1, diff);
    } else if diff <= -1 {
      MulMono(d, diff, -1);
    }
  }

  /** A remainder modulo a multiple keeps the remainder. */
  lemma ModMod(x: int, p: nat, q: nat)
    requires p > 0 && q > 0
    ensures p * q > 0 && x % (p * q) % p == x % p
  {
    assert p * q > 0 by { MulPos(p, q); }
    var k, r := x / (p * q), x % (p * q);
    assert x == (p * q) * k + r && (p * q) * k == p * (q * k);
    assert x == p * (q * k + r / p) + r % p by { Distribute(p, q * k, r / p); }
    Quotient(x, p, q * k + r / p, r % p);
  }

  lemma MulPos(a: nat, b: nat)
    requires a > 0 && b > 0
    ensures a * b > 0
  {
  }

  lemma Distribute(a: int, b: int, c: int)
    ensures a * (b + c) == a * b + a * c
  {
  }

  /** Each bit of the result is the operation on the bits at its place. */
  lemma {:induction false} BitwiseBit(op: Op, x: nat, y: nat, n: nat, k: nat)
    requires k < n
    ensures Bit(Bitwise(op, x, y, n), k) == OnBits(op, Bit(x, k), Bit(y, k))
  {
    hide Bitwise, OnBits, Pow2;
    var r, rest := Bitwise(op, x, y, n), Bitwise(op, x / 2, y / 2, n - 1);
    BitwiseNext(op, x, y, n - 1);
    assert r == OnBits(op, x % 2, y % 2) + 2 * rest;
    assert r % 2 == OnBits(op, x % 2, y % 2) && r / 2 == rest;
    if k == 0 {
      BitZero(r);
      BitZero(x);
      BitZero(y);
    } else {
      BitHalf(r, k);
      BitHalf(x, k);
      BitHalf(y, k);
      BitwiseBit(op, x / 2, y / 2, n - 1, k - 1);
    }
  }

  lemma BitZero(x: nat)
    ensures Bit(x, 0) == x % 2
  {
  }

  /** Bits of a number given as a low and a high part. */
  lemma {:induction false} BitSplit(lo: nat, hi: nat, k: nat, j: nat)
    requires lo < Pow2(k)
    ensures Bit(lo + Pow2(k) * hi, j) == if j < k then Bit(lo, j) else Bit(hi, j - k)
    decreases k
  {
    if k > 0 {
      HalfSplit(lo, hi, k);
      var x := lo + Pow2(k) * hi;
      hide Pow2;
      if j == 0 {
        BitZero(x);
        BitZero(lo);
      } else {
        BitHalf(x, j);
        BitHalf(lo, j);
        BitSplit(lo / 2, hi, k - 1, j - 1);
      }
    }
  }

  /** All bits clear, or all set. */
  lemma {:induction false} AllBitsSame(x: nat, n: nat, b: nat)
    requires x < Pow2(n) && b <= 1 && forall k: nat | k < n :: Bit(x, k) == b
    ensures x == b * (Pow2(n) - 1)
  {
    if n > 0 {
      BitZero(x);
      forall k: nat | k < n - 1
        ensures Bit(x / 2, k) == b
      {
        BitHalf(x, k + 1);
      }
      AllBitsSame(x / 2, n - 1, b);
    }
  }

  lemma {:induction false} BitOfNone(k: nat)
    ensures Bit(0, k) == 0
  {
  }

  lemma HalfOfAll(n: nat)
    requires n > 0
    ensures (Pow2(n) - 1) % 2 == 1 && (Pow2(n) - 1) / 2 == Pow2(n - 1) - 1
  {
    hide Pow2;
    TwicePow(n, 1);
    HalfOdd(Pow2(n) - 1, Pow2(n - 1) - 1);
  }

  lemma HalfOdd(x: nat, h: nat)
    requires x == 1 + 2 * h
    ensures x % 2 == 1 && x / 2 == h
  {
  }

  lemma {:induction false} BitOfAll(n: nat, k: nat)
    requires k < n
    ensures Bit(Pow2(n) - 1, k) == 1
  {
    hide Pow2, Bit;
    var x := Pow2(n) - 1;
    HalfOfAll(n);
    if k == 0 {
      BitZero(x);
    } else {
      BitHalf(x, k);
      BitOfAll(n - 1, k - 1);
    }
  }

  /** Testing one bit with a mask. */
  lemma {:induction false} AndPower(x: nat, k: nat, n: nat)
    requires k < n
    ensures Bitwise(AND, Pow2(k), x, n) == Bit(x, k) * Pow2(k)
  {
    hide Bitwise;
    BitwiseNext(AND, Pow2(k), x, n - 1);
    if k == 0 {
      BitZero(x);
      ZeroAnd(x / 2, n - 1);
    } else {
      BitHalf(x, k);
      AndPower(x / 2, k - 1, n - 1);
      assert Pow2(k) % 2 == 0 && Pow2(k) / 2 == Pow2(k - 1);
      TwicePow(k, Bit(x, k));
    }
  }

  lemma {:induction false} ZeroAnd(x: nat, n: nat)
    ensures Bitwise(AND, 0, x, n) == 0
  {
    if n > 0 {
      ZeroAnd(x / 2, n - 1);
    }
  }

  // ----- strings: bit 0 is the most significant bit of the first byte -----

  /** Bit i of a string padded with zeroes. */
  function BitAt(s: seq<Byte>, i: nat): (b: nat)
    ensures b <= 1
  {
    if i / 8 < |s| then Bit(s[i / 8], 7 - i % 8) else 0
  }

  /** Byte i of a string padded with zeroes. */
  function ByteAt(s: seq<Byte>, i: nat): nat {
    if i < |s| then s[i] else 0
  }

  /** n bytes from c as one number, the first byte most significant. */
  function BigEndian(s: seq<Byte>, c: nat, n: nat): nat {
    if n == 0 then 0 else 256 * BigEndian(s, c, n - 1) + ByteAt(s, c + n - 1)
  }

  lemma {:induction false} BigEndianBits(s: seq<Byte>, c: nat, n: nat, t: nat)
    requires t < 8 * n
    ensures Bit(BigEndian(s, c, n), 8 * n - 1 - t) == BitAt(s, 8 * c + t)
  {
    var b: nat := ByteAt(s, c + n - 1);
    assert Pow2(8) == 256 by { Pow2Values(); }
    hide Pow2;
    BitSplit(b, BigEndian(s, c, n - 1), 8, 8 * n - 1 - t);
    if t < 8 * (n - 1) {
      BigEndianBits(s, c, n - 1, t);
    } else {
      var k := t - 8 * (n - 1);
      Quotient(8 * c + t, 8, c + n - 1, k);
      BitOfNone(7 - k);
    }
  }

  lemma NextByte(n: nat)
    requires n > 0
    ensures Pow2(8 * n) == 256 * Pow2(8 * (n - 1))
  {
    hide Pow2;
    Pow2Values();
    Pow2Add(8, 8 * (n - 1));
    assert 8 + 8 * (n - 1) == 8 * n;
  }

  lemma {:induction false} BigEndianBound(s: seq<Byte>, c: nat, n: nat)
    ensures BigEndian(s, c, n) < Pow2(8 * n)
  {
    if n > 0 {
      BigEndianBound(s, c, n - 1);
      NextByte(n);
      hide Pow2;
    }
  }
}
