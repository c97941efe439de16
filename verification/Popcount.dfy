/**
 Counting bits seven words at a time equals counting them one by one.
 */
module Popcount {
  import opened Bits

  // ----- counts side by side in one number -----

  /** The number of ones of each pair of bits, of each nibble and of each byte, in place. */
  function PairCounts(x: nat, n: nat): nat {
    if n == 0 then 0 else Ones(x % 4, 2) + 4 * PairCounts(x / 4, n - 1)
  }

  function NibbleCounts(x: nat, n: nat): nat {
    if n == 0 then 0 else Ones(x % 16, 4) + 16 * NibbleCounts(x / 16, n - 1)
  }

  function ByteCounts(x: nat, n: nat): nat {
    if n == 0 then 0 else Ones(x % 256, 8) + 256 * ByteCounts(x / 256, n - 1)
  }

  lemma NoDigits(x: nat)
    ensures PairCounts(x, 0) == NibbleCounts(x, 0) == ByteCounts(x, 0) == 0
    ensures forall y: nat, z: nat :: Bitwise(AND, y, z, 0) == 0
  {
  }

  lemma NextDigits(x: nat, m: nat)
    ensures NibbleCounts(x, m + 1) == Ones(x % 16, 4) + 16 * NibbleCounts(x / 16, m)
    ensures ByteCounts(x, m + 1) == Ones(x % 256, 8) + 256 * ByteCounts(x / 256, m)
  {
    hide Ones;
  }

  /** The masks, for any number of digits. */
  function Mask5(n: nat): nat {
    if n == 0 then 0 else 1 + 4 * Mask5(n - 1)
  }

  function Mask3(n: nat): nat {
    if n == 0 then 0 else 3 + 16 * Mask3(n - 1)
  }

  function Mask0F(n: nat): nat {
    if n == 0 then 0 else 15 + 256 * Mask0F(n - 1)
  }

  lemma Masks()
    ensures Mask5(16) == 0x55555555 && Mask3(8) == 0x33333333 && Mask0F(4) == 0x0F0F0F0F
  {
    assert Mask5(4) == 0x55;
    assert Mask5(8) == 0x5555;
    assert Mask5(12) == 0x555555;
    assert Mask3(4) == 0x3333;
  }

  /** Pairs: the odd bits taken from the whole. */
  lemma {:induction false} PairsCount(x: nat, n: nat)
    requires x < Pow2(2 * n)
    ensures x - Bitwise(AND, x / 2, Mask5(n), 2 * n) == PairCounts(x, n)
  {
    if n > 0 {
      hide Bitwise;
      var m, d, y := n - 1, x % 4, x / 4;
      assert 2 * n == 2 * m + 2;
      assert Pow2(2 * m + 2) == 2 * Pow2(2 * m + 1) == 4 * Pow2(2 * m);
      hide Pow2, Mask5;
      assert x == d + 4 * y;
      PairsCount(y, m);
      AndPair(d, y, m);
      TwoOnes(d);
    }
  }

  lemma TwoOnes(d: nat)
    requires d < 4
    ensures Ones(d, 2) == d - d / 2
  {
  }

  lemma AndPair(d: nat, y: nat, m: nat)
    requires d < 4
    ensures Bitwise(AND, (d + 4 * y) / 2, Mask5(m + 1), 2 * m + 2) == d / 2 + 4 * Bitwise(AND, y / 2, Mask5(m), 2 * m)
  {
    hide Bitwise;
    var lo := d / 2 + 2 * (y % 2);
    assert Pow2(2) == 4;
    hide Pow2;
    assert (d + 4 * y) / 2 == lo + 4 * (y / 2);
    AndOne(lo);
    BitwiseSplit(AND, lo, y / 2, 1, Mask5(m), 2, 2 * m);
  }

  lemma AndOne(lo: nat)
    requires lo < 4
    ensures Bitwise(AND, lo, 1, 2) == lo % 2
  {
    hide Bitwise;
    BitwiseNext(AND, lo, 1, 1);
    AndZero(lo / 2, 1);
  }

  // ----- nibbles -----

  lemma AndThree(e: nat)
    requires e < 16
    ensures Bitwise(AND, e, 3, 4) == e % 4
  {
    hide Bitwise;
    BitwiseNext(AND, e, 3, 3);
    BitwiseNext(AND, e / 2, 1, 2);
    AndZero(e / 2 / 2, 2);
  }

  lemma AndNibble(e: nat, w: nat, m: nat)
    requires e < 16
    ensures Bitwise(AND, e + 16 * w, Mask3(m + 1), 4 * m + 4) == e % 4 + 16 * Bitwise(AND, w, Mask3(m), 4 * m)
  {
    AndThree(e);
    assert Pow2(4) == 16;
    hide Bitwise;
    BitwiseSplit(AND, e, w, 3, Mask3(m), 4, 4 * m);
  }

  lemma FourOnes(x: nat)
    ensures Ones(x % 16, 4) == Ones(x % 4, 2) + Ones(x / 4 % 4, 2)
  {
    hide Ones;
    Quotient(x, 16, x / 4 / 4, x % 4 + 4 * (x / 4 % 4));
    assert Pow2(2) == 4;
    OnesSplit(x % 4, x / 4 % 4, 2, 2);
  }

  lemma TwoPairs(x: nat, m: nat)
    ensures PairCounts(x, 2 * m + 2) == Ones(x % 4, 2) + 4 * Ones(x / 4 % 4, 2) + 16 * PairCounts(x / 16, 2 * m)
  {
    hide Ones;
    assert PairCounts(x, 2 * m + 2) == Ones(x % 4, 2) + 4 * PairCounts(x / 4, 2 * m + 1);
    assert PairCounts(x / 4, 2 * m + 1) == Ones(x / 4 % 4, 2) + 4 * PairCounts(x / 4 / 4, 2 * m);
    assert x / 4 / 4 == x / 16;
  }

  lemma NibbleStep(a: nat, b: nat, w: nat, m: nat)
    requires a < 4 && b < 4
    ensures var v := a + 4 * b + 16 * w;
      Bitwise(AND, v, Mask3(m + 1), 4 * m + 4) + Bitwise(AND, v / 4, Mask3(m + 1), 4 * m + 4)
      == a + b + 16 * (Bitwise(AND, w, Mask3(m), 4 * m) + Bitwise(AND, w / 4, Mask3(m), 4 * m))
  {
    hide *;
    AndNibble(a + 4 * b, w, m);
    assert (a + 4 * b + 16 * w) / 4 == b + 4 * (w % 4) + 16 * (w / 4);
    AndNibble(b + 4 * (w % 4), w / 4, m);
  }

  /** Nibbles: every other pair, and the pairs between. */
  lemma {:induction false} NibblesCount(x: nat, n: nat)
    ensures var v := PairCounts(x, 2 * n);
      Bitwise(AND, v, Mask3(n), 4 * n) + Bitwise(AND, v / 4, Mask3(n), 4 * n) == NibbleCounts(x, n)
  {
    hide *;
    if n == 0 {
      NoDigits(x);
    } else {
      var m := n - 1;
      NibblesCount(x / 16, m);
      NextDigits(x, m);
      assert 4 * n == 4 * m + 4 && 2 * n == 2 * m + 2;
      TwoPairs(x, m);
      FourOnes(x);
      NibbleStep(Ones(x % 4, 2), Ones(x / 4 % 4, 2), PairCounts(x / 16, 2 * m), m);
    }
  }

  // ----- bytes -----

  lemma AndFifteen(g: nat)
    requires g < 256
    ensures Bitwise(AND, g, 15, 8) == g % 16
  {
    assert Pow2(4) == 16 && g == g % 16 + 16 * (g / 16);
    hide Bitwise;
    BitwiseSplit(AND, g % 16, g / 16, 15, 0, 4, 4);
    AndFull(g % 16);
    AndZero(g / 16, 4);
  }

  lemma AndFull(e: nat)
    requires e < 16
    ensures Bitwise(AND, e, 15, 4) == e
  {
    hide Bitwise;
    BitwiseNext(AND, e, 15, 3);
    BitwiseNext(AND, e / 2, 7, 2);
    BitwiseNext(AND, e / 2 / 2, 3, 1);
    BitwiseNext(AND, e / 2 / 2 / 2, 1, 0);
  }

  lemma {:induction false} AndZero(x: nat, n: nat)
    ensures Bitwise(AND, x, 0, n) == 0
  {
    if n > 0 {
      AndZero(x / 2, n - 1);
    }
  }

  lemma AndByte(g: nat, w: nat, m: nat)
    requires g < 256
    ensures Bitwise(AND, g + 256 * w, Mask0F(m + 1), 8 * m + 8) == g % 16 + 256 * Bitwise(AND, w, Mask0F(m), 8 * m)
  {
    AndFifteen(g);
    assert Pow2(8) == 256 by { Pow2Values(); }
    hide Bitwise, Pow2;
    BitwiseSplit(AND, g, w, 15, Mask0F(m), 8, 8 * m);
  }

  lemma EightOnes(x: nat)
    ensures Ones(x % 256, 8) == Ones(x % 16, 4) + Ones(x / 16 % 16, 4)
  {
    hide Ones;
    Quotient(x, 256, x / 16 / 16, x % 16 + 16 * (x / 16 % 16));
    assert Pow2(4) == 16;
    OnesSplit(x % 16, x / 16 % 16, 4, 4);
  }

  lemma LowNibble(x: nat, n: nat)
    ensures NibbleCounts(x, n) % 16 <= 4
  {
    hide *;
    if n == 0 {
      NoDigits(x);
    } else {
      NextDigits(x, n - 1);
      Quotient(NibbleCounts(x, n), 16, NibbleCounts(x / 16, n - 1), Ones(x % 16, 4));
    }
  }

  lemma TwoNibbles(x: nat, m: nat)
    ensures NibbleCounts(x, 2 * m + 2) == Ones(x % 16, 4) + 16 * Ones(x / 16 % 16, 4) + 256 * NibbleCounts(x / 256, 2 * m)
  {
    hide Ones;
    assert NibbleCounts(x, 2 * m + 2) == Ones(x % 16, 4) + 16 * NibbleCounts(x / 16, 2 * m + 1);
    assert NibbleCounts(x / 16, 2 * m + 1) == Ones(x / 16 % 16, 4) + 16 * NibbleCounts(x / 16 / 16, 2 * m);
    assert x / 16 / 16 == x / 256;
  }

  lemma ByteStep(a: nat, b: nat, w: nat, m: nat)
    requires a <= 4 && b <= 4 && w % 16 <= 4
    ensures var u := a + 16 * b + 256 * w;
      Bitwise(AND, u + u / 16, Mask0F(m + 1), 8 * m + 8) == a + b + 256 * Bitwise(AND, w + w / 16, Mask0F(m), 8 * m)
  {
    hide *;
    AddInPlace(a + 16 * b + 256 * w, a, b, w);
    AndByte(a + b + 16 * ((b + w) % 16), w + w / 16, m);
  }

  /** Bytes: two nibbles added in place, and the upper one masked out. */
  lemma {:induction false} BytesCount(x: nat, n: nat)
    ensures var u := NibbleCounts(x, 2 * n); Bitwise(AND, u + u / 16, Mask0F(n), 8 * n) == ByteCounts(x, n)
  {
    hide *;
    if n == 0 {
      NoDigits(x);
    } else {
      var m := n - 1;
      BytesCount(x / 256, m);
      NextDigits(x, m);
      assert 8 * n == 8 * m + 8 && 2 * n == 2 * m + 2;
      TwoNibbles(x, m);
      EightOnes(x);
      LowNibble(x / 256, 2 * m);
      ByteStep(Ones(x % 16, 4), Ones(x / 16 % 16, 4), NibbleCounts(x / 256, 2 * m), m);
    }
  }

  lemma AddInPlace(u: nat, a: nat, b: nat, w: nat)
    requires a <= 4 && b <= 4 && w % 16 <= 4 && u == a + 16 * b + 256 * w
    ensures u + u / 16 == a + b + 16 * ((b + w) % 16) + 256 * (w + w / 16)
    ensures a + b + 16 * ((b + w) % 16) < 256 && (a + b + 16 * ((b + w) % 16)) % 16 == a + b
  {
    assert u / 16 == b + 16 * w;
    assert (b + w) / 16 == w / 16;
  }

  // ----- a word, and seven words -----

  const WORD := 0x1_0000_0000

  /** The three steps on one 32-bit word, each modulo 2^32 as the machine has it. */
  function Spread(w: nat): nat {
    var a := (w - Bitwise(AND, w / 2, 0x55555555, 32)) % WORD;
    var b := (Bitwise(AND, a, 0x33333333, 32) + Bitwise(AND, a / 4, 0x33333333, 32)) % WORD;
    Bitwise(AND, (b + b / 16) % WORD, 0x0F0F0F0F, 32)
  }

  lemma CountsBound(x: nat)
    requires x < WORD
    ensures PairCounts(x, 16) < WORD && NibbleCounts(x, 8) < WORD / 2
  {
    hide Ones;
    PairBound(x, 16);
    NibbleBound(x, 8);
    assert Power(4, 16) == WORD && Power(16, 8) == WORD by {
      assert Power(4, 4) == 256;
      assert Power(4, 8) == 65536;
      assert Power(4, 12) == 16777216;
      assert Power(16, 4) == 65536;
    }
  }

  function Power(b: nat, n: nat): nat {
    if n == 0 then 1 else b * Power(b, n - 1)
  }

  lemma {:induction false} PairBound(x: nat, n: nat)
    ensures PairCounts(x, n) < Power(4, n)
  {
    if n > 0 {
      PairBound(x / 4, n - 1);
    }
  }

  lemma {:induction false} NibbleBound(x: nat, n: nat)
    ensures 3 * NibbleCounts(x, n) < Power(16, n)
  {
    if n > 0 {
      NibbleBound(x / 16, n - 1);
    }
  }

  /** The three steps leave in each byte the number of its ones. */
  lemma SpreadCounts(w: nat)
    requires w < WORD
    ensures Spread(w) == ByteCounts(w, 4)
  {
    Masks();
    assert Pow2(32) == WORD by { Pow2Values(); }
    hide *;
    CountsBound(w);
    PairsCount(w, 16);
    NibblesCount(w, 8);
    BytesCount(w, 4);
    SpreadIs(w, PairCounts(w, 16), NibbleCounts(w, 8));
  }

  lemma Reduced(x: nat)
    requires x < WORD
    ensures x % WORD == x
  {
  }

  lemma SpreadIs(w: nat, a: nat, b: nat)
    requires a < WORD && b < WORD / 2
    requires w - Bitwise(AND, w / 2, 0x55555555, 32) == a
    requires Bitwise(AND, a, 0x33333333, 32) + Bitwise(AND, a / 4, 0x33333333, 32) == b
    ensures Spread(w) == Bitwise(AND, b + b / 16, 0x0F0F0F0F, 32)
  {
    hide Bitwise;
    assert b + b / 16 < WORD;
    Reduced(a);
    Reduced(b);
    Reduced(b + b / 16);
  }

  /** The bytes of a word added up in its top byte. */
  function Gather(t: nat): nat {
    t * 0x01010101 % WORD / 0x1000000
  }

  /** Seven words have at most 56 ones in each lane, so that the sum, at most 224, fits the top byte. */
  lemma GatherLanes(a: nat, b: nat, c: nat, d: nat)
    requires a <= 56 && b <= 56 && c <= 56 && d <= 56
    ensures Gather(a + 256 * (b + 256 * (c + 256 * d))) == a + b + c + d
  {
    var t := a + 256 * (b + 256 * (c + 256 * d));
    var rest := a + 0x100 * (a + b) + 0x10000 * (a + b + c);
    var high := (b + c + d) + 0x100 * (c + d) + 0x10000 * d;
    assert t * 0x01010101 == WORD * high + (rest + 0x1000000 * (a + b + c + d));
    Quotient(t * 0x01010101, WORD, high, rest + 0x1000000 * (a + b + c + d));
    Quotient(rest + 0x1000000 * (a + b + c + d), 0x1000000, a + b + c + d, rest);
  }

  // ----- strings -----

  /** The number of ones in a string. */
  function OnesIn(s: seq<Byte>): nat {
    if s == [] then 0 else OnesIn(s[..|s| - 1]) + Ones(s[|s| - 1], 8)
  }

  lemma {:induction false} OnesInConcat(s: seq<Byte>, t: seq<Byte>)
    ensures OnesIn(s + t) == OnesIn(s) + OnesIn(t)
  {
    if t == [] {
      assert s + t == s;
    } else {
      assert (s + t)[..|s + t| - 1] == s + t[..|t| - 1];
      OnesInConcat(s, t[..|t| - 1]);
    }
  }

  /** The word at p, the first byte lowest; the other order would count the same. */
  function Load(s: seq<Byte>, p: nat): (w: nat)
    requires p + 4 <= |s|
    ensures w < WORD
  {
    var a: nat, b: nat, c: nat, d: nat := s[p], s[p + 1], s[p + 2], s[p + 3];
    a + 256 * (b + 256 * (c + 256 * d))
  }

  lemma LoadCounts(s: seq<Byte>, p: nat)
    requires p + 4 <= |s|
    ensures Spread(Load(s, p))
         == Ones(s[p], 8) + 256 * (Ones(s[p + 1], 8) + 256 * (Ones(s[p + 2], 8) + 256 * Ones(s[p + 3], 8)))
  {
    hide Spread, ByteCounts, Ones;
    SpreadCounts(Load(s, p));
    var a: nat, b: nat, c: nat, d: nat := s[p], s[p + 1], s[p + 2], s[p + 3];
    FourBytes(a, b, c, d, b + 256 * (c + 256 * d), c + 256 * d);
  }

  lemma FourBytes(a: nat, b: nat, c: nat, d: nat, w1: nat, w2: nat)
    requires a < 256 && b < 256 && c < 256 && d < 256 && w2 == c + 256 * d && w1 == b + 256 * w2
    ensures ByteCounts(a + 256 * w1, 4) == Ones(a, 8) + 256 * (Ones(b, 8) + 256 * (Ones(c, 8) + 256 * Ones(d, 8)))
  {
    hide *;
    LastByte(d);
    FirstByte(c, d, 1);
    FirstByte(b, w2, 2);
    FirstByte(a, w1, 3);
  }

  lemma LastByte(d: nat)
    requires d < 256
    ensures ByteCounts(d, 1) == Ones(d, 8)
  {
    hide Ones, ByteCounts;
    assert d % 256 == d && d / 256 == 0;
    NextDigits(d, 0);
    NoDigits(0);
  }

  lemma FirstByte(a: nat, rest: nat, m: nat)
    requires a < 256
    ensures ByteCounts(a + 256 * rest, m + 1) == Ones(a, 8) + 256 * ByteCounts(rest, m)
  {
    hide Ones;
    Quotient(a + 256 * rest, 256, rest, a);
  }

  lemma OnesInFour(s: seq<Byte>, p: nat)
    requires p + 4 <= |s|
    ensures OnesIn(s[p..p + 4]) == Ones(s[p], 8) + Ones(s[p + 1], 8) + Ones(s[p + 2], 8) + Ones(s[p + 3], 8)
  {
    hide Ones;
    var t := s[p..p + 4];
    assert t[..3][..2] == t[..2] && t[..2][..1] == t[..1] && t[..1][..0] == [];
    assert OnesIn(t) == OnesIn(t[..3]) + Ones(t[3], 8);
    assert OnesIn(t[..3]) == OnesIn(t[..2]) + Ones(t[2], 8);
    assert OnesIn(t[..2]) == OnesIn(t[..1]) + Ones(t[1], 8);
  }

  /** The lanes of n words, added up. */
  function Lane(s: seq<Byte>, p: nat, n: nat, k: nat): (c: nat)
    requires p + 4 * n <= |s| && k < 4
    ensures c <= 8 * n
  {
    if n == 0 then 0 else Lane(s, p, n - 1, k) + Ones(s[p + 4 * (n - 1) + k], 8)
  }

  /** The sum of n spread words. */
  function Spreads(s: seq<Byte>, p: nat, n: nat): nat
    requires p + 4 * n <= |s|
  {
    if n == 0 then 0 else Spreads(s, p, n - 1) + Spread(Load(s, p + 4 * (n - 1)))
  }

  lemma {:induction false} SpreadsLanes(s: seq<Byte>, p: nat, n: nat)
    requires p + 4 * n <= |s|
    ensures Spreads(s, p, n)
         == Lane(s, p, n, 0) + 256 * (Lane(s, p, n, 1) + 256 * (Lane(s, p, n, 2) + 256 * Lane(s, p, n, 3)))
  {
    hide Spread, Ones, Load;
    if n > 0 {
      SpreadsLanes(s, p, n - 1);
      LoadCounts(s, p + 4 * (n - 1));
    }
  }

  lemma NoOnes()
    ensures OnesIn([]) == 0
  {
  }

  lemma {:induction false} OnesInLanes(s: seq<Byte>, p: nat, n: nat)
    requires p + 4 * n <= |s|
    ensures OnesIn(s[p..p + 4 * n]) == Lane(s, p, n, 0) + Lane(s, p, n, 1) + Lane(s, p, n, 2) + Lane(s, p, n, 3)
  {
    hide Ones, OnesIn;
    if n == 0 {
      assert s[p..p + 4 * n] == [];
      NoOnes();
    } else {
      OnesInLanes(s, p, n - 1);
      var q := p + 4 * (n - 1);
      OnesInFour(s, q);
      OnesInConcat(s[p..q], s[q..q + 4]);
      assert s[p..p + 4 * n] == s[p..q] + s[q..q + 4];
    }
  }

  /** bitsinbyte: the number of ones of each byte, sixteen bytes to a row. */
  const ROW0: seq<nat> := [0, 1, 1, 2, 1, 2, 2, 3, 1, 2, 2, 3, 2, 3, 3, 4]
  const ROW1: seq<nat> := [1, 2, 2, 3, 2, 3, 3, 4, 2, 3, 3, 4, 3, 4, 4, 5]
  const ROW2: seq<nat> := [2, 3, 3, 4, 3, 4, 4, 5, 3, 4, 4, 5, 4, 5, 5, 6]
  const ROW3: seq<nat> := [3, 4, 4, 5, 4, 5, 5, 6, 4, 5, 5, 6, 5, 6, 6, 7]
  const ROW4: seq<nat> := [4, 5, 5, 6, 5, 6, 6, 7, 5, 6, 6, 7, 6, 7, 7, 8]
  const BITS_IN_BYTE: seq<seq<nat>> :=
    [ROW0, ROW1, ROW1, ROW2, ROW1, ROW2, ROW2, ROW3, ROW1, ROW2, ROW2, ROW3, ROW2, ROW3, ROW3, ROW4]

  function BitsInByte(b: Byte): nat {
    assert |BITS_IN_BYTE[b / 16]| == 16;
    BITS_IN_BYTE[b / 16][b % 16]
  }

  lemma NibbleOnes(c: nat)
    requires c < 16
    ensures Ones(c, 4) == ROW0[c]
  {
    hide Ones, Pow2;
    Pow2Values();
    OnesSplit(c % 8, c / 8, 3, 1);
    OnesNext(c / 8, 0);
    ThreeBits(c % 8);
    UpperHalf(c % 8);
  }

  lemma UpperHalf(c: nat)
    requires c < 8
    ensures ROW0[c + 8] == ROW0[c] + 1
  {
  }

  lemma ThreeBits(c: nat)
    requires c < 8
    ensures Ones(c, 3) == ROW0[c]
  {
    hide Ones;
    OnesNext(c, 2);
    OnesNext(c / 2, 1);
    OnesNext(c / 2 / 2, 0);
    assert c == 0 || c == 1 || c == 2 || c == 3 || c == 4 || c == 5 || c == 6 || c == 7;
  }

  lemma OnesNext(x: nat, n: nat)
    ensures Ones(x, n + 1) == x % 2 + Ones(x / 2, n) && Ones(x, 0) == 0
  {
  }

  lemma RowsAdd(c: nat)
    requires c < 16
    ensures ROW1[c] == ROW0[c] + 1 && ROW2[c] == ROW0[c] + 2 && ROW3[c] == ROW0[c] + 3 && ROW4[c] == ROW0[c] + 4
  {
  }

  lemma RowOf(r: nat, c: nat)
    requires r < 16 && c < 16
    ensures |BITS_IN_BYTE[r]| == 16 && BITS_IN_BYTE[r][c] == Ones(c, 4) + Ones(r, 4)
  {
    hide Ones;
    RowsAdd(c);
    NibbleOnes(c);
    NibbleOnes(r);
    if r < 8 {
      assert r == 0 || r == 1 || r == 2 || r == 3 || r == 4 || r == 5 || r == 6 || r == 7;
    } else {
      assert r == 8 || r == 9 || r == 10 || r == 11 || r == 12 || r == 13 || r == 14 || r == 15;
    }
  }

  lemma TableCounts(b: Byte)
    ensures BitsInByte(b) == Ones(b, 8)
  {
    hide Ones;
    hide BITS_IN_BYTE;
    EightOnes(b);
    RowOf(b / 16, b % 16);
  }

  /** The sum of seven words fits its lanes, and the top byte gathers it. */
  lemma SevenWords(s: seq<Byte>, p: nat)
    requires p + 28 <= |s|
    ensures Spreads(s, p, 7) < WORD && Gather(Spreads(s, p, 7)) == OnesIn(s[p..p + 28])
  {
    hide Spreads, Lane, OnesIn, Gather;
    SpreadsLanes(s, p, 7);
    OnesInLanes(s, p, 7);
    GatherLanes(Lane(s, p, 7, 0), Lane(s, p, 7, 1), Lane(s, p, 7, 2), Lane(s, p, 7, 3));
  }

  lemma SpreadsSeven(s: seq<Byte>, p: nat)
    requires p + 28 <= |s|
    ensures Spreads(s, p, 7) == Spread(Load(s, p)) + Spread(Load(s, p + 4)) + Spread(Load(s, p + 8)) + Spread(Load(s, p + 12))
                                + Spread(Load(s, p + 16)) + Spread(Load(s, p + 20)) + Spread(Load(s, p + 24))
  {
    hide Spread, Load;
    assert Spreads(s, p, 1) == Spread(Load(s, p));
    assert Spreads(s, p, 2) == Spreads(s, p, 1) + Spread(Load(s, p + 4));
    assert Spreads(s, p, 3) == Spreads(s, p, 2) + Spread(Load(s, p + 8));
    assert Spreads(s, p, 4) == Spreads(s, p, 3) + Spread(Load(s, p + 12));
    assert Spreads(s, p, 5) == Spreads(s, p, 4) + Spread(Load(s, p + 16));
    assert Spreads(s, p, 6) == Spreads(s, p, 5) + Spread(Load(s, p + 20));
    assert Spreads(s, p, 7) == Spreads(s, p, 6) + Spread(Load(s, p + 24));
  }

  /** redisPopcount, of a string at an address. */
  method RedisPopcount(s: seq<Byte>, address: nat) returns (bits: nat)
    ensures bits == OnesIn(s)
  {
    hide Spread, Load, Gather, Ones, BitsInByte;
    bits := 0;
    var p, count := 0, |s|;
    while (address + p) % 4 != 0 && count > 0
      invariant 0 <= count && p + count == |s| && bits == OnesIn(s[..p])
      decreases count
    {
      CountNext(s, p);
      bits := bits + BitsInByte(s[p]);
      p, count := p + 1, count - 1;
    }
    while count >= 28
      invariant 0 <= count && p + count == |s| && bits == OnesIn(s[..p])
    {
      SevenWords(s, p);
      SpreadsSeven(s, p);
      OnesInConcat(s[..p], s[p..p + 28]);
      assert s[..p + 28] == s[..p] + s[p..p + 28];
      var aux1, aux2, aux3, aux4 := Load(s, p), Load(s, p + 4), Load(s, p + 8), Load(s, p + 12);
      var aux5, aux6, aux7 := Load(s, p + 16), Load(s, p + 20), Load(s, p + 24);
      var sum := (Spread(aux1) + Spread(aux2) + Spread(aux3) + Spread(aux4) + Spread(aux5) + Spread(aux6) + Spread(aux7)) % WORD;
      bits := bits + Gather(sum);
      p, count := p + 28, count - 28;
    }
    while count > 0
      invariant 0 <= count && p + count == |s| && bits == OnesIn(s[..p])
    {
      CountNext(s, p);
      bits := bits + BitsInByte(s[p]);
      p, count := p + 1, count - 1;
    }
    assert s[..p] == s;
  }

  lemma CountNext(s: seq<Byte>, p: nat)
    requires p < |s|
    ensures OnesIn(s[..p + 1]) == OnesIn(s[..p]) + BitsInByte(s[p])
  {
    TableCounts(s[p]);
    assert s[..p + 1][..p] == s[..p];
  }
}
