/**
 Integers of 1 to 64 bits at any bit offset of a string: reading, writing, and
 arithmetic that wraps, saturates or fails.
 */
module Bitfield {
  import opened Bits

  const U64: int := 18446744073709551616
  const I64: int := 9223372036854775808

  /** A number as the machine holds it in an unsigned or a signed 64-bit integer. */
  function ToU64(x: int): (r: nat)
    ensures r < U64
  {
    x % U64
  }

  function ToI64(x: int): (r: int)
    ensures -I64 <= r < I64
  {
    if x % U64 >= I64 then x % U64 - U64 else x % U64
  }

  // ----- fields -----

  /** n bits from an offset as a number, the first bit most significant. */
  function Num(s: seq<Byte>, offset: nat, n: nat): (v: nat)
    ensures v < Pow2(n)
  {
    if n == 0 then 0 else 2 * Num(s, offset, n - 1) + BitAt(s, offset + n - 1)
  }

  /** A number of n bits read as two's complement. */
  function Signed(v: nat, n: nat): int
    requires n > 0
  {
    if v >= Pow2(n - 1) then v - Pow2(n) else v
  }

  /** getUnsignedBitfield */
  method GetUnsigned(p: seq<Byte>, start: nat, bits: nat) returns (value: nat)
    requires start + bits <= 8 * |p| && bits <= 64
    ensures value == Num(p, start, bits)
  {
    hide Bit;
    value := 0;
    var offset := start;
    for j := 0 to bits
      invariant offset == start + j && value == Num(p, start, j)
    {
      var byte, bit := offset / 8, 7 - offset % 8;
      var bitval := Bit(p[byte], bit);
      NumFits(p, start, j + 1);
      value := (2 * value + bitval) % U64;
      offset := offset + 1;
    }
  }

  lemma {:induction false} Pow2Grows(m: nat, n: nat)
    requires m <= n
    ensures Pow2(m) <= Pow2(n)
  {
    if m < n {
      Pow2Grows(m, n - 1);
    }
  }

  /** A field of up to 64 bits fits a word. */
  lemma NumFits(p: seq<Byte>, start: nat, n: nat)
    requires start + n <= 8 * |p| && n <= 64
    ensures Num(p, start, n) < U64
  {
    hide Pow2;
    Pow2Grows(n, 64);
    Pow2Values();
  }

  lemma ByteMask(k: nat)
    requires k < 8
    ensures Pow2(k) <= 128 && Pow2(8) == 256
  {
    Pow2Values();
    Pow2Grows(k, 7);
  }

  /** All bits of a byte but one. */
  function ClearMask(k: nat): nat
    requires k < 8
  {
    ByteMask(k);
    255 - Pow2(k)
  }

  /** A byte with one bit cleared and then set to v. */
  function WithBit(b: Byte, k: nat, v: nat): nat
    requires k < 8 && v <= 1
  {
    Bitwise(OR, Bitwise(AND, b, ClearMask(k), 8), v * Pow2(k), 8)
  }

  lemma WithBitBits(b: Byte, k: nat, v: nat, j: nat)
    requires k < 8 && v <= 1 && j < 8
    ensures WithBit(b, k, v) < 256 && Bit(WithBit(b, k, v), j) == if j == k then v else Bit(b, j)
  {
    ByteMask(k);
    MaskBits(k, j);
    hide Bit, Pow2, Bitwise, ClearMask;
    var cleared := Bitwise(AND, b, ClearMask(k), 8);
    BitwiseBit(OR, cleared, v * Pow2(k), 8, j);
    BitwiseBit(AND, b, ClearMask(k), 8, j);
    PowerBits(k, v, j);
    if j == k {
      assert Bit(cleared, j) == 0;
    } else {
      assert Bit(cleared, j) == Bit(b, j);
    }
  }

  lemma PowerBits(k: nat, v: nat, j: nat)
    requires v <= 1
    ensures Bit(v * Pow2(k), j) == if j == k then v else 0
  {
    hide Bit, Pow2;
    if v == 0 {
      assert v * Pow2(k) == 0;
      BitOfNone(j);
    } else {
      assert v * Pow2(k) == Pow2(k);
      PowerBit(k, j);
    }
  }

  lemma {:induction false} PowerBit(k: nat, j: nat)
    ensures Bit(Pow2(k), j) == if j == k then 1 else 0
  {
    hide Bit, Pow2;
    PowHalves(k, k + 1);
    if j == 0 {
      BitZero(Pow2(k));
    } else {
      BitHalf(Pow2(k), j);
      if k == 0 {
        BitOfNone(j - 1);
      } else {
        Quotient(Pow2(k), 2, Pow2(k - 1), 0);
        PowerBit(k - 1, j - 1);
      }
    }
  }

  lemma MaskBits(k: nat, j: nat)
    requires k < 8 && j < 8
    ensures Bit(ClearMask(k), j) == if j == k then 0 else 1
  {
    AllButOne(k, 8, j);
    Pow2Values();
  }

  lemma PowHalves(k: nat, n: nat)
    requires k < n
    ensures Pow2(n) == 2 * Pow2(n - 1) && Pow2(k) == if k == 0 then 1 else 2 * Pow2(k - 1)
  {
  }

  lemma {:induction false} AllButOne(k: nat, n: nat, j: nat)
    requires k < n && j < n
    ensures Pow2(k) < Pow2(n) && Bit(Pow2(n) - 1 - Pow2(k), j) == if j == k then 0 else 1
  {
    hide Bit, Pow2;
    Pow2Grows(k + 1, n);
    PowHalves(k, n);
    PowHalves(k, k + 1);
    var x := Pow2(n) - 1 - Pow2(k);
    var half := if k == 0 then Pow2(n - 1) - 1 else Pow2(n - 1) - 1 - Pow2(k - 1);
    Quotient(x, 2, half, if k == 0 then 0 else 1);
    if j == 0 {
      BitZero(x);
    } else {
      BitHalf(x, j);
      if k == 0 {
        BitOfAll(n - 1, j - 1);
      } else {
        AllButOne(k - 1, n - 1, j - 1);
      }
    }
  }

  /** The first j bits of a field of n bits at an offset are those of a value; no other bit differs. */
  ghost predicate Written(before: seq<Byte>, s: seq<Byte>, offset: nat, n: nat, j: nat, value: nat) {
    && j <= n && |s| == |before|
    && forall i: nat ::
         BitAt(s, i) == if offset <= i < offset + j then Bit(value, n - 1 - (i - offset)) else BitAt(before, i)
  }

  lemma WrittenNext(before: seq<Byte>, s: seq<Byte>, offset: nat, n: nat, j: nat, value: nat)
    requires Written(before, s, offset, n, j, value) && j < n && offset + j < 8 * |s|
    ensures var k := offset + j; var bit := 7 - k % 8;
      var b := WithBit(s[k / 8], bit, Bit(value, n - 1 - j));
      b < 256 && Written(before, s[k / 8 := b], offset, n, j + 1, value)
  {
    hide Bit, BitAt, WithBit;
    var k, v := offset + j, Bit(value, n - 1 - j);
    StoreBit(s, k, v, k);
    var s' := s[k / 8 := WithBit(s[k / 8], 7 - k % 8, v)];
    forall i: nat
      ensures BitAt(s', i) == if offset <= i < offset + j + 1 then Bit(value, n - 1 - (i - offset)) else BitAt(before, i)
    {
      StoreBit(s, k, v, i);
    }
  }

  /** setUnsignedBitfield: the field has the low bits of the value, and no other bit changes. */
  method SetUnsigned(p: array<Byte>, start: nat, bits: nat, value: nat)
    requires start + bits <= 8 * p.Length && bits <= 64
    modifies p
    ensures Written(old(p[..]), p[..], start, bits, bits, value)
  {
    var offset := start;
    ghost var before := p[..];
    assert Written(before, before, start, bits, 0, value);
    for j := 0 to bits
      invariant offset == start + j && Written(before, p[..], start, bits, j, value)
    {
      hide Written, Bit, WithBit;
      var bitval := Bit(value, bits - 1 - j);
      var byte, bit := offset / 8, 7 - offset % 8;
      ghost var now := p[..];
      WrittenNext(before, now, start, bits, j, value);
      p[byte] := WithBit(p[byte], bit, bitval);
      assert p[..] == now[byte := WithBit(now[byte], bit, bitval)];
      offset := offset + 1;
    }
  }

  lemma StoreBit(s: seq<Byte>, offset: nat, v: nat, i: nat)
    requires offset < 8 * |s| && v <= 1
    ensures WithBit(s[offset / 8], 7 - offset % 8, v) < 256
    ensures BitAt(s[offset / 8 := WithBit(s[offset / 8], 7 - offset % 8, v)], i) == if i == offset then v else BitAt(s, i)
  {
    hide Bit, WithBit;
    WithBitBits(s[offset / 8], 7 - offset % 8, v, 7 - i % 8);
    assert i == 8 * (i / 8) + i % 8 && offset == 8 * (offset / 8) + offset % 8;
  }

  // ----- a field is known by its bits -----

  lemma {:induction false} NumOfBits(s: seq<Byte>, offset: nat, n: nat, v: nat)
    requires forall i: nat | offset <= i < offset + n :: BitAt(s, i) == Bit(v, n - 1 - (i - offset))
    ensures Num(s, offset, n) == v % Pow2(n)
  {
    hide BitAt, Bit;
    if n > 0 {
      forall i: nat | offset <= i < offset + (n - 1)
        ensures BitAt(s, i) == Bit(v / 2, n - 2 - (i - offset))
      {
        BitHalf(v, n - 1 - (i - offset));
      }
      NumOfBits(s, offset, n - 1, v / 2);
      BitZero(v);
      assert BitAt(s, offset + n - 1) == Bit(v, 0);
      HalfMod(v, n);
    }
  }

  lemma HalfMod(v: nat, n: nat)
    requires n > 0
    ensures v % Pow2(n) == 2 * (v / 2 % Pow2(n - 1)) + v % 2
  {
    var p, h := Pow2(n - 1), v / 2;
    assert v == Pow2(n) * (h / p) + (2 * (h % p) + v % 2) by {
      assert Pow2(n) * (h / p) == 2 * (p * (h / p));
    }
    Quotient(v, Pow2(n), h / p, 2 * (h % p) + v % 2);
  }

  /** Equal bits make equal fields. */
  lemma {:induction false} NumSame(s: seq<Byte>, offset: nat, t: seq<Byte>, offset': nat, n: nat)
    requires forall i: nat | offset <= i < offset + n :: BitAt(s, i) == BitAt(t, offset' + (i - offset))
    ensures Num(s, offset, n) == Num(t, offset', n)
  {
    hide BitAt;
    if n > 0 {
      NumSame(s, offset, t, offset', n - 1);
      assert BitAt(s, offset + n - 1) == BitAt(t, offset' + (n - 1));
    }
  }

  /** A number below 2^64 as a signed one. */
  lemma Cast(x: int)
    requires 0 <= x < U64
    ensures ToI64(x) == if x >= I64 then x - U64 else x
  {
  }

  /** getSignedBitfield */
  method GetSigned(p: seq<Byte>, start: nat, bits: nat) returns (value: int)
    requires start + bits <= 8 * |p| && 1 <= bits <= 64
    ensures value == Signed(Num(p, start, bits), bits)
  {
    var u := GetUnsigned(p, start, bits);
    Pow2Values();
    Pow2Grows(bits, 64);
    TopBit(u, bits);
    hide Pow2, Bit, Num, ToI64;
    Cast(u);
    if bits < 64 {
      Pow2Grows(bits, 63);
      Cast(u - Pow2(bits) + U64);
    }
    value := ToI64(u);
    if bits < 64 && Bit(u, bits - 1) == 1 {
      value := ToI64(u + (U64 - Pow2(bits)));
    }
  }

  lemma TopBit(u: nat, n: nat)
    requires 0 < n && u < Pow2(n)
    ensures Bit(u, n - 1) == (if u >= Pow2(n - 1) then 1 else 0) && Pow2(n) == 2 * Pow2(n - 1)
  {
    var p := Pow2(n - 1);
    if u >= p {
      Quotient(u, p, 1, u - p);
    } else {
      Quotient(u, p, 0, u);
    }
  }

  // ----- overflow -----

  datatype Overflow = WRAP | SAT | FAIL

  function Max(sign: bool, bits: nat): int
    requires bits > 0
  {
    if sign then Pow2(bits - 1) - 1 else Pow2(bits) - 1
  }

  function Min(sign: bool, bits: nat): int
    requires bits > 0
  {
    if sign then 0 - Pow2(bits - 1) else 0
  }

  predicate InRange(x: int, sign: bool, bits: nat)
    requires bits > 0
  {
    Min(sign, bits) <= x <= Max(sign, bits)
  }

  /** The number of the type that is equal to x modulo 2^bits. */
  function Wrapped(x: int, sign: bool, bits: nat): int
    requires bits > 0
  {
    if sign then Signed(x % Pow2(bits), bits) else x % Pow2(bits)
  }

  function Clamped(x: int, sign: bool, bits: nat): int
    requires bits > 0
  {
    if x > Max(sign, bits) then Max(sign, bits) else if x < Min(sign, bits) then Min(sign, bits) else x
  }

  /** checkUnsignedBitfieldOverflow: the code, and the limit where it is set. */
  function CheckUnsigned(value: nat, incr: int, bits: nat, ow: Overflow): (int, nat)
    requires value < U64 && -I64 <= incr < I64 && 1 <= bits <= 63
  {
    var max := Pow2(bits) - 1;
    var maxincr := ToI64(max - value);
    var minincr := ToI64(0 - value);
    var wrap := ToU64(value + incr) % Pow2(bits);
    if value > max || (incr > 0 && incr > maxincr) then
      (1, if ow == WRAP then wrap else if ow == SAT then max else 0)
    else if incr < 0 && incr < minincr then
      if ow == WRAP then (1, wrap) else (-1, 0)
    else (0, 0)
  }

  /** The tests of checkSignedBitfieldOverflow, with the limits of the type: 1 above, -1 below. The differences are taken
      in 64 bits and may overflow. */
  function SignedCode(value: int, incr: int, full: bool, max: int, min: int): int {
    var maxincr := ToI64(max - value);
    var minincr := ToI64(min - value);
    if value > max || (!full && incr > maxincr) || (value >= 0 && incr > 0 && incr > maxincr) then 1
    else if value < min || (!full && incr < minincr) || (value < 0 && incr < 0 && incr < minincr) then -1
    else 0
  }

  /** The sum in 64 bits, with the sign bit of the field propagated or the bits above it cleared. */
  function SignedWrap(value: int, incr: int, bits: nat): int
    requires 1 <= bits <= 64
  {
    var c := ToU64(value + incr);
    if bits == 64 then ToI64(c)
    else if Bit(c, bits - 1) == 1 then ToI64(c % Pow2(bits) + (U64 - Pow2(bits)))
    else c % Pow2(bits)
  }

  /** checkSignedBitfieldOverflow */
  function CheckSigned(value: int, incr: int, bits: nat, ow: Overflow): (int, int)
    requires -I64 <= value < I64 && -I64 <= incr < I64 && 1 <= bits <= 64
  {
    var max := if bits == 64 then I64 - 1 else Pow2(bits - 1) - 1;
    var min := -max - 1;
    var code := SignedCode(value, incr, bits == 64, max, min);
    if code == 0 then (0, 0)
    else if ow == WRAP then (1, SignedWrap(value, incr, bits))
    else (code, if ow == FAIL then 0 else if code == 1 then max else min)
  }

  /** 64-bit arithmetic loses nothing modulo 2^bits. */
  lemma U64Mod(x: int, bits: nat)
    requires bits <= 64
    ensures ToU64(x) % Pow2(bits) == x % Pow2(bits)
  {
    Pow2Add(bits, 64 - bits);
    Pow2Values();
    ModMod(x, Pow2(bits), Pow2(64 - bits));
  }

  lemma Powers(bits: nat)
    requires 1 <= bits <= 64
    ensures Pow2(bits) == 2 * Pow2(bits - 1) && Pow2(bits - 1) <= I64
  {
    Pow2Values();
    Pow2Grows(bits - 1, 63);
  }

  /** A small number is its own remainder, and one a little off is off by the modulus. */
  lemma SmallMod(x: int, p: nat)
    requires p > 0
    ensures 0 <= x < p ==> x % p == x
    ensures 0 - p <= x < 0 ==> x % p == x + p
  {
    if 0 <= x < p {
      Quotient(x, p, 0, x);
    } else if 0 - p <= x < 0 {
      Quotient(x, p, -1, x + p);
    }
  }

  lemma CastSmall(x: int)
    requires -I64 <= x < I64
    ensures ToI64(x) == x
  {
    SmallMod(x, U64);
  }

  /** What is added to an unsigned field of less than 64 bits. */
  lemma UnsignedIncr(value: nat, incr: int, bits: nat, ow: Overflow)
    requires 1 <= bits <= 63 && value < Pow2(bits) && -I64 <= incr < I64 && Pow2(bits) <= I64
    ensures var (code, limit) := CheckUnsigned(value, incr, bits, ow);
      && (code == 0 <==> InRange(value + incr, false, bits))
      && (code == 0 ==> ToU64(value + incr) == value + incr)
      && (code != 0 && ow == WRAP ==> limit == Wrapped(value + incr, false, bits))
      && (code != 0 && ow == SAT ==> limit == Clamped(value + incr, false, bits))
  {
    hide Pow2, ToI64, ToU64;
    CastSmall(Pow2(bits) - 1 - value);
    CastSmall(0 - value);
    U64Mod(value + incr, bits);
    if 0 <= value + incr < U64 {
      U64Small(value + incr);
    }
  }

  lemma U64Small(x: int)
    requires 0 <= x < U64
    ensures ToU64(x) == x
  {
  }

  /** What is stored in an unsigned field. */
  lemma UnsignedSet(value: nat, bits: nat, ow: Overflow)
    requires 1 <= bits <= 63 && value < U64
    ensures var (code, limit) := CheckUnsigned(value, 0, bits, ow);
      && (code == 0 <==> InRange(value, false, bits))
      && (code != 0 && ow == WRAP ==> limit == Wrapped(value, false, bits))
      && (code != 0 && ow == SAT ==> limit == Clamped(value, false, bits))
  {
    hide Pow2, ToI64, ToU64;
    U64Mod(value, bits);
  }

  /** Wrapping a sum of 64-bit numbers to a signed field. */
  lemma WrapSigned(x: int, bits: nat)
    requires 1 <= bits <= 63
    ensures var c := ToU64(x);
      (if Bit(c, bits - 1) == 1 then ToI64(c % Pow2(bits) + (U64 - Pow2(bits))) else c % Pow2(bits)) == Wrapped(x, true, bits)
  {
    Powers(bits);
    U64Mod(x, bits);
    var c := ToU64(x);
    var v := c % Pow2(bits);
    BitOfMod(c, bits);
    TopBit(v, bits);
    hide Pow2, Bit, ToI64, ToU64;
    if v >= Pow2(bits - 1) {
      Cast(v + (U64 - Pow2(bits)));
    }
  }

  lemma BitOfMod(c: nat, n: nat)
    requires n > 0
    ensures Bit(c, n - 1) == Bit(c % Pow2(n), n - 1)
  {
    hide Bit, Pow2;
    DivMod(c, Pow2(n));
    BitSplit(c % Pow2(n), c / Pow2(n), n, n - 1);
  }

  lemma DivMod(c: nat, p: nat)
    requires p > 0
    ensures c == c % p + p * (c / p) && c % p < p
  {
  }

  lemma SignedWraps(value: int, incr: int, bits: nat)
    requires 1 <= bits <= 64
    ensures SignedWrap(value, incr, bits) == Wrapped(value + incr, true, bits)
  {
    if bits == 64 {
      Wrap64(value + incr);
    } else {
      WrapSigned(value + incr, bits);
    }
  }

  lemma Wrap64(x: int)
    ensures ToI64(ToU64(x)) == Wrapped(x, true, 64)
  {
    Pow2Values();
    hide Pow2;
    assert ToU64(x) % U64 == x % U64;
  }

  /** The tests for a value of the type. */
  lemma CodeOfIncr(value: int, incr: int, full: bool, max: int)
    requires 0 <= max < I64 && -max - 1 <= value <= max && -I64 <= incr < I64
    requires if full then max == I64 - 1 else 2 * max < I64
    ensures SignedCode(value, incr, full, max, -max - 1)
         == if value + incr > max then 1 else if value + incr < -max - 1 then -1 else 0
  {
    hide ToI64;
    if !full || value >= 0 {
      CastSmall(max - value);
    }
    if !full || value < 0 {
      CastSmall(-max - 1 - value);
    }
  }

  /** The tests for a value that may not be of the type: below by so much that the difference overflows, it counts as
      above. */
  lemma CodeOfSet(value: int, full: bool, max: int)
    requires 0 <= max < I64 && -I64 <= value < I64
    requires if full then max == I64 - 1 else 2 * max < I64
    ensures SignedCode(value, 0, full, max, -max - 1)
         == if value > max || (!full && max - value >= I64) then 1 else if value < -max - 1 then -1 else 0
  {
    hide ToI64;
    if value <= max && !full {
      if max - value < I64 {
        CastSmall(max - value);
      } else {
        Cast(max - value);
      }
      if -max - 1 - value < I64 {
        CastSmall(-max - 1 - value);
      }
    }
  }

  lemma Limits(bits: nat)
    requires 1 <= bits <= 64
    ensures var max := if bits == 64 then I64 - 1 else Pow2(bits - 1) - 1;
      && 0 <= max < I64 && max == Max(true, bits) && -max - 1 == Min(true, bits) && (bits < 64 ==> 2 * max < I64)
  {
    Pow2Values();
    Pow2Grows(0, bits - 1);
    if bits < 64 {
      Pow2Grows(bits - 1, 62);
      assert Pow2(63) == 2 * Pow2(62);
    }
  }

  /** What is added to a signed field. */
  lemma SignedIncr(value: int, incr: int, bits: nat, ow: Overflow)
    requires 1 <= bits <= 64 && InRange(value, true, bits) && -I64 <= incr < I64 && -I64 <= value < I64
    ensures var (code, limit) := CheckSigned(value, incr, bits, ow);
      && (code == 0 <==> InRange(value + incr, true, bits))
      && (code != 0 && ow == WRAP ==> limit == Wrapped(value + incr, true, bits))
      && (code != 0 && ow == SAT ==> limit == Clamped(value + incr, true, bits))
  {
    hide Pow2, SignedCode, SignedWrap, Wrapped, Max, Min;
    Limits(bits);
    var max := if bits == 64 then I64 - 1 else Pow2(bits - 1) - 1;
    CodeOfIncr(value, incr, bits == 64, max);
    SignedWraps(value, incr, bits);
  }

  /** What is stored in a signed field. Saturation picks the greatest number instead of the least for values so small
      that the difference to the greatest overflows. */
  lemma SignedSet(value: int, bits: nat, ow: Overflow)
    requires 1 <= bits <= 64 && -I64 <= value < I64
    ensures var (code, limit) := CheckSigned(value, 0, bits, ow);
      && (code == 0 <==> InRange(value, true, bits))
      && (code != 0 && ow == WRAP ==> limit == Wrapped(value, true, bits))
      && (code != 0 && ow == SAT ==> limit == if SaturatesWrong(value, bits) then Max(true, bits) else Clamped(value, true, bits))
  {
    hide Pow2, SignedCode, SignedWrap, Wrapped, Max, Min;
    Limits(bits);
    var max := if bits == 64 then I64 - 1 else Pow2(bits - 1) - 1;
    CodeOfSet(value, bits == 64, max);
    SignedWraps(value, 0, bits);
  }

  /** The values for which saturation goes to the wrong side. */
  predicate SaturatesWrong(value: int, bits: nat)
    requires bits > 0
  {
    bits < 64 && Max(true, bits) - value >= I64
  }

  /** Saturation is right if and only if the difference to the greatest number does not overflow. */
  lemma SaturatesIff(value: int, bits: nat)
    requires 1 <= bits <= 64 && -I64 <= value < I64 && !InRange(value, true, bits)
    ensures CheckSigned(value, 0, bits, SAT).1 == Clamped(value, true, bits) <==> !SaturatesWrong(value, bits)
  {
    hide Pow2, CheckSigned, Max, Min;
    SignedSet(value, bits, SAT);
    Limits(bits);
  }

  lemma SaturatesWrongWay()
    ensures CheckSigned(-I64, 0, 8, SAT) == (1, 127) && Clamped(-I64, true, 8) == -128
  {
    Pow2Values();
    CodeOfSet(-I64, false, 127);
  }
}
