/**
 BITFIELD: a list of reads, writes and increments of fields executed on one string.
 */
module BitfieldCommand {
  import opened Common
  import opened Bits
  import opened Bitfield

  datatype Action = GET | SET | INCRBY

  datatype FieldOp = FieldOp(action: Action, sign: bool, bits: nat, offset: nat, i64: int, ow: Overflow)

  datatype Reply = Int(v: int) | Null

  /** What parsing lets through: u1 to u63, i1 to i64, and 64-bit amounts. */
  predicate OpOk(op: FieldOp) {
    1 <= op.bits <= (if op.sign then 64 else 63) && -I64 <= op.i64 < I64
  }

  /** The field of an operation, in a string padded with zeroes. */
  function Field(s: seq<Byte>, op: FieldOp): int
    requires OpOk(op)
  {
    if op.sign then Signed(Num(s, op.offset, op.bits), op.bits) else Num(s, op.offset, op.bits)
  }

  /** The value an operation asks for, before it is made to fit. A value to set is taken as unsigned for unsigned types. */
  function Wanted(s: seq<Byte>, op: FieldOp): int
    requires OpOk(op)
  {
    if op.action == INCRBY then Field(s, op) + op.i64 else if op.sign then op.i64 else ToU64(op.i64)
  }

  /** The value made to fit. */
  function Fitted(x: int, op: FieldOp): int
    requires OpOk(op)
  {
    if InRange(x, op.sign, op.bits) || op.ow == FAIL then x
    else if op.ow == WRAP then Wrapped(x, op.sign, op.bits)
    else if op.action == SET && op.sign && SaturatesWrong(x, op.bits) then Max(true, op.bits)
    else Clamped(x, op.sign, op.bits)
  }

  predicate Fails(s: seq<Byte>, op: FieldOp)
    requires OpOk(op)
  {
    op.ow == FAIL && !InRange(Wanted(s, op), op.sign, op.bits)
  }

  /** What one operation does to the string, and what it replies. */
  ghost predicate Step(s: seq<Byte>, op: FieldOp, s': seq<Byte>, reply: Reply)
    requires OpOk(op)
  {
    if op.action == GET then s' == s && reply == Int(Field(s, op))
    else if Fails(s, op) then s' == s && reply == Null
    else
      && |s'| == |s|
      && Field(s', op) == Fitted(Wanted(s, op), op)
      && (forall i: nat | !(op.offset <= i < op.offset + op.bits) :: BitAt(s', i) == BitAt(s, i))
      && reply == Int(if op.action == SET then Field(s, op) else Fitted(Wanted(s, op), op))
  }

  // ----- values that fit -----

  lemma FieldInRange(s: seq<Byte>, op: FieldOp)
    requires OpOk(op)
    ensures InRange(Field(s, op), op.sign, op.bits) && -I64 <= Field(s, op) < I64
  {
    Pow2Values();
    Pow2Grows(op.bits, if op.sign then 64 else 63);
    assert Pow2(op.bits) == 2 * Pow2(op.bits - 1);
    Pow2Grows(op.bits - 1, 63);
    hide Num;
  }

  lemma FittedInRange(x: int, op: FieldOp)
    requires OpOk(op) && (op.ow == FAIL ==> InRange(x, op.sign, op.bits))
    ensures InRange(Fitted(x, op), op.sign, op.bits)
  {
    assert Pow2(op.bits) == 2 * Pow2(op.bits - 1);
    ModBound(x, Pow2(op.bits));
  }

  lemma ModBound(x: int, p: nat)
    requires p > 0
    ensures 0 <= x % p < p
  {
  }

  /** Writing a number of the type and reading it back. */
  lemma ReadBack(s: seq<Byte>, s': seq<Byte>, op: FieldOp, v: int)
    requires OpOk(op) && InRange(v, op.sign, op.bits) && Written(s, s', op.offset, op.bits, op.bits, ToU64(v))
    ensures Field(s', op) == v
  {
    NumOfBits(s', op.offset, op.bits, ToU64(v));
    U64Mod(v, op.bits);
    assert Pow2(op.bits) == 2 * Pow2(op.bits - 1);
    hide Num, Pow2, ToU64;
    SmallMod(v, Pow2(op.bits));
  }

  // ----- execution -----

  /** SET and INCRBY */
  method Change(p: array<Byte>, op: FieldOp) returns (reply: Reply)
    requires OpOk(op) && op.action != GET && op.offset + op.bits <= 8 * p.Length
    modifies p
    ensures Step(old(p[..]), op, p[..], reply)
  {
    ghost var s := p[..];
    FieldInRange(s, op);
    var newval, oldval, overflow;
    if op.sign {
      oldval := GetSigned(p[..], op.offset, op.bits);
      newval, overflow := NextSigned(s, op, oldval);
    } else {
      oldval := GetUnsigned(p[..], op.offset, op.bits);
      newval, overflow := NextUnsigned(s, op, oldval);
    }
    hide InRange, Num, Fitted, Written, BitAt, Pow2, Signed;
    if overflow && op.ow == FAIL {
      return Null;
    }
    FittedInRange(Wanted(s, op), op);
    SetUnsigned(p, op.offset, op.bits, ToU64(newval));
    ReadBack(s, p[..], op, newval);
    OthersSame(s, p[..], op, ToU64(newval));
    return Int(if op.action == INCRBY then newval else oldval);
  }

  lemma OthersSame(s: seq<Byte>, s': seq<Byte>, op: FieldOp, v: nat)
    requires Written(s, s', op.offset, op.bits, op.bits, v)
    ensures |s'| == |s| && forall i: nat | !(op.offset <= i < op.offset + op.bits) :: BitAt(s', i) == BitAt(s, i)
  {
    hide BitAt, Bit;
  }

  /** The signed half of the execution loop: the value to store, and whether it did not fit. */
  method NextSigned(ghost s: seq<Byte>, op: FieldOp, oldval: int) returns (newval: int, overflow: bool)
    requires OpOk(op) && op.sign && op.action != GET && oldval == Field(s, op) && InRange(oldval, true, op.bits)
    requires -I64 <= oldval < I64
    ensures overflow <==> !InRange(Wanted(s, op), true, op.bits)
    ensures op.ow != FAIL || !overflow ==> newval == Fitted(Wanted(s, op), op)
  {
    hide Field, CheckSigned, InRange, Wrapped, Clamped, ToI64;
    if op.action == INCRBY {
      newval := ToI64(oldval + op.i64);
      SignedIncr(oldval, op.i64, op.bits, op.ow);
      var (code, wrapped) := CheckSigned(oldval, op.i64, op.bits, op.ow);
      overflow := code != 0;
      if overflow {
        newval := wrapped;
      } else {
        RangeSmall(oldval + op.i64, true, op.bits);
        CastSmall(oldval + op.i64);
      }
    } else {
      newval := op.i64;
      SignedSet(newval, op.bits, op.ow);
      var (code, wrapped) := CheckSigned(newval, 0, op.bits, op.ow);
      overflow := code != 0;
      if overflow {
        newval := wrapped;
      }
    }
  }

  lemma RangeSmall(x: int, sign: bool, bits: nat)
    requires 1 <= bits <= (if sign then 64 else 63) && InRange(x, sign, bits)
    ensures -I64 <= x < I64
  {
    Pow2Values();
    Pow2Grows(bits, if sign then 64 else 63);
    Pow2Grows(bits - 1, 63);
  }

  /** The unsigned half. */
  method NextUnsigned(ghost s: seq<Byte>, op: FieldOp, oldval: nat) returns (newval: nat, overflow: bool)
    requires OpOk(op) && !op.sign && op.action != GET && oldval == Field(s, op) && InRange(oldval, false, op.bits)
    ensures overflow <==> !InRange(Wanted(s, op), false, op.bits)
    ensures op.ow != FAIL || !overflow ==> newval == Fitted(Wanted(s, op), op)
  {
    hide Pow2, Field, CheckUnsigned, Wrapped, Clamped, ToU64;
    Pow2Values();
    Pow2Grows(op.bits, 63);
    if op.action == INCRBY {
      newval := ToU64(oldval + op.i64);
      UnsignedIncr(oldval, op.i64, op.bits, op.ow);
      var (code, wrapped) := CheckUnsigned(oldval, op.i64, op.bits, op.ow);
      overflow := code != 0;
      if overflow {
        newval := wrapped;
      }
    } else {
      newval := ToU64(op.i64);
      UnsignedSet(newval, op.bits, op.ow);
      var (code, wrapped) := CheckUnsigned(newval, 0, op.bits, op.ow);
      overflow := code != 0;
      if overflow {
        newval := wrapped;
      }
    }
  }

  /** GET: up to nine bytes copied to a buffer of zeroes, and the field read from there. */
  method GetField(src: seq<Byte>, op: FieldOp) returns (v: int)
    requires OpOk(op)
    ensures v == Field(src, op)
  {
    hide Num, Signed, BitAt;
    var buf := new Byte[9](_ => 0);
    var byte := op.offset / 8;
    var i := 0;
    while i < 9
      invariant 0 <= i <= 9
      invariant forall k | 0 <= k < i :: byte + k < |src| && buf[k] == src[byte + k]
      invariant forall k | i <= k < 9 :: buf[k] == 0
    {
      if i + byte >= |src| {
        break;
      }
      buf[i] := src[i + byte];
      i := i + 1;
    }
    WindowField(src, buf[..], op, i);
    if op.sign {
      v := GetSigned(buf[..], op.offset - 8 * byte, op.bits);
    } else {
      v := GetUnsigned(buf[..], op.offset - 8 * byte, op.bits);
    }
  }

  /** The window has the bits of the padded string. */
  lemma WindowField(src: seq<Byte>, buf: seq<Byte>, op: FieldOp, n: nat)
    requires OpOk(op) && |buf| == 9 && n <= 9 && (n < 9 ==> op.offset / 8 + n >= |src|)
    requires forall k | 0 <= k < n :: op.offset / 8 + k < |src| && buf[k] == src[op.offset / 8 + k]
    requires forall k | n <= k < 9 :: buf[k] == 0
    ensures Num(buf, op.offset - 8 * (op.offset / 8), op.bits) == Num(src, op.offset, op.bits)
  {
    hide BitAt, Num;
    var byte := op.offset / 8;
    var start := op.offset - 8 * byte;
    forall i: nat | start <= i < start + op.bits
      ensures BitAt(buf, i) == BitAt(src, op.offset + (i - start))
    {
      WindowBit(src, buf, byte, n, i);
    }
    NumSame(buf, start, src, op.offset, op.bits);
  }

  lemma WindowBit(src: seq<Byte>, buf: seq<Byte>, byte: nat, n: nat, i: nat)
    requires |buf| == 9 && n <= 9 && (n < 9 ==> byte + n >= |src|) && i < 72
    requires forall k | 0 <= k < n :: byte + k < |src| && buf[k] == src[byte + k]
    requires forall k | n <= k < 9 :: buf[k] == 0
    ensures BitAt(buf, i) == BitAt(src, 8 * byte + i)
  {
    Quotient(8 * byte + i, 8, byte + i / 8, i % 8);
    BitOfNone(7 - i % 8);
    hide Bit;
  }

  // ----- the command -----

  function Text(o: Option<seq<Byte>>): seq<Byte> {
    if o.None? then [] else o.value
  }

  /** The length needed to write the fields of the first n operations. */
  function Needed(ops: seq<FieldOp>, n: nat): (m: nat)
    requires n <= |ops|
    ensures forall j | 0 <= j < n && ops[j].action != GET && ops[j].bits > 0 :: ops[j].offset + ops[j].bits <= 8 * m
    ensures m > 0 ==> exists j | 0 <= j < n :: ops[j].action != GET
    ensures forall j | 0 <= j < n && ops[j].action != GET :: m > 0
  {
    if n == 0 then 0
    else
      var m := Needed(ops, n - 1);
      var op := ops[n - 1];
      var len := if op.action == GET then 0 else (if op.bits > 0 then op.offset + op.bits - 1 else op.offset) / 8 + 1;
      if len > m then len else m
  }

  /** The string before the first operation: as it is, or padded with zeroes up to the last bit to be written. */
  function Prepared(existing: Option<seq<Byte>>, ops: seq<FieldOp>): (s: seq<Byte>)
    ensures Text(existing) <= s && forall i | |Text(existing)| <= i < |s| :: s[i] == 0
    ensures |s| >= Needed(ops, |ops|)
  {
    var n := Needed(ops, |ops|);
    var t := Text(existing);
    if n <= |t| then t else t + seq(n - |t|, _ => 0)
  }

  /** The execution loop: each operation sees the string as the ones before left it. */
  method Execute(existing: Option<seq<Byte>>, ops: seq<FieldOp>)
    returns (after: Option<seq<Byte>>, replies: seq<Reply>, ghost states: seq<seq<Byte>>)
    requires forall j | 0 <= j < |ops| :: OpOk(ops[j])
    ensures |replies| == |ops| && |states| == |ops| + 1 && states[0] == Prepared(existing, ops)
    ensures forall j | 0 <= j < |ops| :: Step(states[j], ops[j], states[j + 1], replies[j])
    ensures after == if Needed(ops, |ops|) == 0 then existing else Some(states[|ops|])
  {
    hide Step, Field, Needed;
    var start := Prepared(existing, ops);
    var p := new Byte[|start|](i requires 0 <= i < |start| => start[i]);
    assert p[..] == start;
    replies, states := [], [start];
    for j := 0 to |ops|
      invariant |replies| == j && |states| == j + 1 && states[0] == start && states[j] == p[..]
      invariant forall i | 0 <= i < j :: Step(states[i], ops[i], states[i + 1], replies[i])
    {
      var reply;
      if ops[j].action == GET {
        var v := GetField(p[..], ops[j]);
        reply := Int(v);
        GetStep(p[..], ops[j], v);
      } else {
        reply := Change(p, ops[j]);
      }
      replies, states := replies + [reply], states + [p[..]];
    }
    after := if Needed(ops, |ops|) == 0 then existing else Some(p[..]);
  }

  lemma GetStep(s: seq<Byte>, op: FieldOp, v: int)
    requires OpOk(op) && op.action == GET && v == Field(s, op)
    ensures Step(s, op, s, Int(v))
  {
  }

  /** Under WRAP the value stored is always the one equal modulo 2^bits: numbers of the type are their own. */
  lemma WrapFits(x: int, op: FieldOp)
    requires OpOk(op) && op.ow == WRAP
    ensures Fitted(x, op) == Wrapped(x, op.sign, op.bits)
  {
    assert Pow2(op.bits) == 2 * Pow2(op.bits - 1);
    SmallMod(x, Pow2(op.bits));
    hide Pow2;
  }

  /** An increment that saturates is always clamped. */
  lemma IncrementClamps(x: int, op: FieldOp)
    requires OpOk(op) && op.ow == SAT && op.action == INCRBY
    ensures Fitted(x, op) == Clamped(x, op.sign, op.bits)
  {
    hide Pow2;
  }
}
