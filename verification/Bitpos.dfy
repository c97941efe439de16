/**
 Searching the first bit of a string word by word equals searching bit by bit.
 */
module Bitpos {
  import opened Bits

  const ULONG_MAX: nat := 18446744073709551615

  /** No bit before the given position has the value looked for. */
  ghost predicate NoneBefore(s: seq<Byte>, bit: nat, end: nat) {
    forall i: nat | i < end :: BitAt(s, i) != bit
  }

  /** The byte that has no such bit. */
  function SkipByte(bit: nat): Byte {
    if bit == 1 then 0 else 255
  }

  /** Eight bytes as the machine loads them, the first byte least significant. */
  function LoadWord(s: seq<Byte>, c: nat, n: nat): nat
    requires c + n <= |s|
  {
    if n == 0 then 0 else var b: nat := s[c + n - 1]; LoadWord(s, c, n - 1) + Pow2(8 * (n - 1)) * b
  }

  lemma {:induction false} LoadBound(s: seq<Byte>, c: nat, n: nat)
    requires c + n <= |s|
    ensures LoadWord(s, c, n) < Pow2(8 * n)
  {
    if n > 0 {
      LoadBound(s, c, n - 1);
      NextByte(n);
      var p, b: nat := Pow2(8 * (n - 1)), s[c + n - 1];
      MulMono(p, b, 255);
    }
  }

  /** A word of zeroes, or of ones, is made of such bytes. */
  lemma {:induction false} LoadSkips(s: seq<Byte>, c: nat, n: nat, bit: nat)
    requires c + n <= |s| && bit <= 1 && LoadWord(s, c, n) == if bit == 1 then 0 else Pow2(8 * n) - 1
    ensures forall i | c <= i < c + n :: s[i] == SkipByte(bit)
  {
    if n > 0 {
      LoadBound(s, c, n - 1);
      NextByte(n);
      var p, b: nat := Pow2(8 * (n - 1)), s[c + n - 1];
      var low := LoadWord(s, c, n - 1);
      assert low + p * b == if bit == 1 then 0 else 256 * p - 1;
      hide Pow2, LoadWord;
      if bit == 1 {
        MulZero(p, b);
      } else {
        TopByte(low, p, b);
      }
      LoadSkips(s, c, n - 1, bit);
    }
  }

  lemma TopByte(low: nat, p: nat, b: nat)
    requires low < p && b < 256 && low + p * b == 256 * p - 1
    ensures b == 255 && low == p - 1
  {
    if b < 255 {
      MulMono(p, b, 254);
    }
  }

  lemma MulZero(p: nat, b: nat)
    requires p > 0 && p * b == 0
    ensures b == 0
  {
  }

  lemma SkipNext(s: seq<Byte>, bit: nat, c: nat)
    requires bit <= 1 && c < |s| && s[c] == SkipByte(bit) && NoneBefore(s, bit, 8 * c)
    ensures NoneBefore(s, bit, 8 * c + 8)
  {
    hide Bit;
    forall i: nat | 8 * c <= i < 8 * c + 8
      ensures BitAt(s, i) != bit
    {
      Quotient(i, 8, c, i - 8 * c);
      SkipBits(bit, 7 - i % 8);
    }
  }

  lemma SkipBits(bit: nat, k: nat)
    requires bit <= 1 && k < 8
    ensures Bit(SkipByte(bit), k) == 1 - bit
  {
    assert Pow2(8) == 256 by { Pow2Values(); }
    BitOfNone(k);
    BitOfAll(8, k);
  }

  lemma {:induction false} SkipMore(s: seq<Byte>, bit: nat, c: nat, n: nat)
    requires bit <= 1 && c + n <= |s| && NoneBefore(s, bit, 8 * c) && forall i | c <= i < c + n :: s[i] == SkipByte(bit)
    ensures NoneBefore(s, bit, 8 * c + 8 * n)
  {
    if n > 0 {
      SkipMore(s, bit, c, n - 1);
      SkipNext(s, bit, c + n - 1);
    }
  }

  /** Where the search by bytes and words stops: at a byte or word that is not to be skipped, or close to the end. */
  ghost predicate Stops(s: seq<Byte>, bit: nat, c: nat) {
    && c <= |s|
    && (c + 8 <= |s| ==> exists i | c <= i < c + 8 :: s[i] != SkipByte(bit))
  }

  /** A byte that is not to be skipped has a bit of the value. */
  lemma NotSkipped(b: Byte, bit: nat)
    requires bit <= 1 && b != SkipByte(bit)
    ensures exists k: nat :: k < 8 && Bit(b, k) == bit
  {
    if forall k: nat | k < 8 :: Bit(b, k) != bit {
      Pow2Values();
      AllBitsSame(b, 8, 1 - bit);
    }
  }

  /** Bits from one position on: one of the value among the next 64. */
  ghost predicate Near(s: seq<Byte>, bit: nat, start: nat) {
    exists i: nat | start <= i < start + 64 :: BitAt(s, i) == bit
  }

  ghost predicate ZeroesFrom(s: seq<Byte>, start: nat, end: nat) {
    forall i: nat | start <= i < end :: BitAt(s, i) == 0
  }

  lemma BitOfByte(s: seq<Byte>, c: nat, i: nat, bit: nat)
    requires bit <= 1 && c <= i < c + 8 && i < |s| && s[i] != SkipByte(bit)
    ensures Near(s, bit, 8 * c)
  {
    NotSkipped(s[i], bit);
    var k: nat :| k < 8 && Bit(s[i], k) == bit;
    Quotient(8 * i + 7 - k, 8, i, 7 - k);
    assert BitAt(s, 8 * i + 7 - k) == bit;
  }

  /** A word of zeroes stands for 64 zeroes, another for some one. */
  lemma WordBits(s: seq<Byte>, c: nat)
    ensures if BigEndian(s, c, 8) == 0 then ZeroesFrom(s, 8 * c, 8 * c + 64) else Near(s, 1, 8 * c)
  {
    var word := BigEndian(s, c, 8);
    if word == 0 {
      forall i: nat | 8 * c <= i < 8 * c + 64
        ensures BitAt(s, i) == 0
      {
        BigEndianBits(s, c, 8, i - 8 * c);
        BitOfNone(63 - (i - 8 * c));
      }
    } else {
      BigEndianBound(s, c, 8);
      var k := SomeOne(word, 64);
      BigEndianBits(s, c, 8, 63 - k);
      assert BitAt(s, 8 * c + (63 - k)) == 1;
    }
  }

  lemma SomeOne(x: nat, n: nat) returns (k: nat)
    requires 0 < x < Pow2(n)
    ensures k < n && Bit(x, k) == 1
  {
    if forall j: nat | j < n :: Bit(x, j) == 0 {
      AllBitsSame(x, n, 0);
    }
    k :| k < n && Bit(x, k) == 1;
  }

  /** Beyond the last byte there are zeroes only. */
  lemma Padding(s: seq<Byte>, i: nat)
    requires i >= 8 * |s|
    ensures BitAt(s, i) == 0
  {
  }

  /** The next 64 bits have one of the value, unless ones are looked for and all that is left are zeroes. */
  lemma Found(s: seq<Byte>, bit: nat, c: nat)
    requires bit <= 1 && Stops(s, bit, c)
    ensures bit == 1 && BigEndian(s, c, 8) == 0 ==> forall i: nat | i >= 8 * c :: BitAt(s, i) == 0
    ensures bit == 0 || BigEndian(s, c, 8) != 0 ==> Near(s, bit, 8 * c)
  {
    hide BitAt, BigEndian;
    WordBits(s, c);
    if c + 8 <= |s| {
      var i :| c <= i < c + 8 && s[i] != SkipByte(bit);
      BitOfByte(s, c, i, bit);
    } else {
      Padding(s, 8 * |s|);
      forall i: nat | i >= 8 * c
        ensures bit == 1 && BigEndian(s, c, 8) == 0 ==> BitAt(s, i) == 0
      {
        if i >= 8 * c + 64 {
          Padding(s, i);
        }
      }
    }
  }

  lemma {:induction false} LoadOfSkips(s: seq<Byte>, c: nat, n: nat, bit: nat)
    requires c + n <= |s| && bit <= 1 && forall i | c <= i < c + n :: s[i] == SkipByte(bit)
    ensures LoadWord(s, c, n) == if bit == 1 then 0 else Pow2(8 * n) - 1
  {
    if n > 0 {
      LoadOfSkips(s, c, n - 1, bit);
      NextByte(n);
    }
  }

  /** The first part of redisBitpos: bytes up to an aligned address, then words, as long as they can be skipped. */
  method SkipAll(s: seq<Byte>, bit: nat, address: nat) returns (c: nat)
    requires bit <= 1
    ensures Stops(s, bit, c) && NoneBefore(s, bit, 8 * c)
  {
    hide BitAt, LoadWord;
    c := 0;
    var count := |s|;
    while (address + c) % 8 != 0 && count > 0
      invariant 0 <= count && c + count == |s| && NoneBefore(s, bit, 8 * c)
      decreases count
    {
      if s[c] != SkipByte(bit) {
        return;
      }
      SkipNext(s, bit, c);
      c, count := c + 1, count - 1;
    }
    var skipval := if bit == 1 then 0 else ULONG_MAX;
    Pow2Values();
    hide NoneBefore, Pow2;
    while count >= 8
      invariant 0 <= count && c + count == |s| && NoneBefore(s, bit, 8 * c)
      decreases count
    {
      if LoadWord(s, c, 8) != skipval {
        if forall i | c <= i < c + 8 :: s[i] == SkipByte(bit) {
          LoadOfSkips(s, c, 8, bit);
        }
        break;
      }
      LoadSkips(s, c, 8, bit);
      SkipMore(s, bit, c, 8);
      c, count := c + 8, count - 8;
    }
  }

  /** The next eight bytes, padded with zeroes on the right. */
  method LoadNext(s: seq<Byte>, start: nat) returns (word: nat)
    requires start <= |s|
    ensures word == BigEndian(s, start, 8)
  {
    word := 0;
    var c, count := start, |s| - start;
    for j := 0 to 8
      invariant c == if start + j <= |s| then start + j else |s|
      invariant count == |s| - c && word == BigEndian(s, start, j)
    {
      BigEndianBound(s, start, j);
      SmallWord(j);
      word := word * 256 % (ULONG_MAX + 1);
      if count > 0 {
        word := word + s[c];
        c, count := c + 1, count - 1;
      }
    }
  }

  lemma SmallWord(j: nat)
    requires j < 8
    ensures Pow2(8 * j) * 256 <= ULONG_MAX + 1
  {
    hide Pow2;
    Pow2Values();
    Pow2Add(8 * j, 64 - 8 * j);
    Pow2Add(8, 56 - 8 * j);
    assert Pow2(64 - 8 * j) == 256 * Pow2(56 - 8 * j);
    assert Pow2(8 * j) * Pow2(64 - 8 * j) == Pow2(8 * j) * 256 * Pow2(56 - 8 * j);
    AtLeast(Pow2(8 * j) * 256, Pow2(56 - 8 * j));
  }

  lemma AtLeast(a: nat, b: nat)
    requires b > 0
    ensures a <= a * b
  {
  }

  /** redisBitpos, of a string at an address: the least position of a bit of the value in the string padded with zeroes,
      or -1 when ones are looked for and there are none. */
  method RedisBitpos(s: seq<Byte>, bit: nat, address: nat) returns (r: int)
    requires bit <= 1
    ensures r == -1 <==> bit == 1 && forall i: nat :: BitAt(s, i) == 0
    ensures r != -1 ==> r >= 0 && BitAt(s, r) == bit && NoneBefore(s, bit, r)
  {
    hide BitAt, BigEndian, Bit, Bitwise;
    var c := SkipAll(s, bit, address);
    var pos := 8 * c;
    var word := LoadNext(s, c);
    Found(s, bit, c);
    if bit == 1 && word == 0 {
      return -1;
    }
    var one := (ULONG_MAX + 1) / 2;
    Pow2Values();
    hide Near, Stops, Pow2;
    ghost var t := 0;
    while one != 0
      invariant 0 <= t <= 64 && pos == 8 * c + t && NoneBefore(s, bit, pos)
      invariant one == if t < 64 then Pow2(63 - t) else 0
      decreases one
    {
      AndPower(word, 63 - t, 64);
      BigEndianBits(s, c, 8, t);
      MaskTest(Bit(word, 63 - t), 63 - t);
      if (Bitwise(AND, one, word, 64) != 0) == (bit == 1) {
        return pos;
      }
      HalfPower(63 - t);
      pos, t := pos + 1, t + 1;
      one := one / 2;
    }
    assert false;
  }

  lemma MaskTest(b: nat, k: nat)
    requires b <= 1
    ensures b * Pow2(k) != 0 <==> b == 1
  {
  }

  lemma HalfPower(k: nat)
    ensures Pow2(k) / 2 == if k > 0 then Pow2(k - 1) else 0
  {
  }
}
