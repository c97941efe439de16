/**
 BITOP: the path over four words at a time followed by the loop over bytes gives
 at each byte the operation folded over all sources padded with zeroes.
 */
module Bitop {
  import opened Common
  import opened Bits

  datatype Operation = Fold(op: Op) | Not

  // ----- words and their bytes -----

  /** A number from its bytes, the first least significant. */
  function Little(s: seq<Byte>): nat {
    if s == [] then 0 else var b: nat := s[0]; b + 256 * Little(s[1..])
  }

  /** The n low bytes of a number. */
  function Bytes(w: nat, n: nat): (s: seq<Byte>)
    ensures |s| == n
  {
    if n == 0 then [] else [w % 256] + Bytes(w / 256, n - 1)
  }

  lemma {:induction false} BytesLittle(s: seq<Byte>)
    ensures Bytes(Little(s), |s|) == s
  {
    if s != [] {
      Quotient(Little(s), 256, Little(s[1..]), s[0]);
      BytesLittle(s[1..]);
    }
  }

  lemma LittleNext(s: seq<Byte>)
    requires s != []
    ensures Little(s) == s[0] as nat + 256 * Little(s[1..])
  {
  }

  /** An operation byte by byte. */
  function Both(op: Op, a: seq<Byte>, b: seq<Byte>): (r: seq<Byte>)
    requires |a| == |b|
    ensures |r| == |a| && forall i | 0 <= i < |a| :: r[i] == OnBytes(op, a[i], b[i])
  {
    seq(|a|, i requires 0 <= i < |a| => OnBytes(op, a[i], b[i]))
  }

  function OnBytes(op: Op, a: Byte, b: Byte): Byte {
    assert Pow2(8) == 256 by { Pow2Values(); }
    Bitwise(op, a, b, 8)
  }

  lemma OneByteMore(op: Op, x: Byte, rest: nat, y: Byte, rest': nat, n: nat)
    ensures Bitwise(op, x as nat + 256 * rest, y as nat + 256 * rest', 8 * n + 8)
         == OnBytes(op, x, y) as nat + 256 * Bitwise(op, rest, rest', 8 * n)
  {
    hide Bitwise, Pow2;
    Pow2Values();
    BitwiseSplit(op, x, rest, y, rest', 8, 8 * n);
  }

  lemma NoBytes(op: Op)
    ensures Little([]) == 0 && Bitwise(op, 0, 0, 0) == 0
  {
  }

  /** An operation on words is the operation on each of their bytes. */
  lemma {:induction false} WordIsBytes(op: Op, a: seq<Byte>, b: seq<Byte>)
    requires |a| == |b|
    ensures Bitwise(op, Little(a), Little(b), 8 * |a|) == Little(Both(op, a, b))
  {
    hide Bitwise, Little, OnBytes;
    if a == [] {
      NoBytes(op);
      assert Both(op, a, b) == [];
    } else {
      var n := |a| - 1;
      LittleNext(a);
      LittleNext(b);
      LittleNext(Both(op, a, b));
      WordIsBytes(op, a[1..], b[1..]);
      assert Both(op, a, b)[1..] == Both(op, a[1..], b[1..]);
      OneByteMore(op, a[0], Little(a[1..]), b[0], Little(b[1..]), n);
      assert 8 * n + 8 == 8 * |a|;
    }
  }

  function Inverted(a: seq<Byte>): (r: seq<Byte>)
    ensures |r| == |a| && forall i | 0 <= i < |a| :: r[i] == 255 - a[i]
  {
    seq(|a|, i requires 0 <= i < |a| => 255 - a[i])
  }

  lemma {:induction false} NotIsBytes(a: seq<Byte>)
    ensures Pow2(8 * |a|) - 1 - Little(a) == Little(Inverted(a))
  {
    var n := |a|;
    if n > 0 {
      Pow2Add(8, 8 * (n - 1));
      assert Pow2(8) == 256 by { Pow2Values(); }
      hide Pow2;
      assert 8 + 8 * (n - 1) == 8 * n;
      NotIsBytes(a[1..]);
      assert Inverted(a)[1..] == Inverted(a[1..]);
    }
  }

  // ----- the reference -----

  /** The bytes of a source; a missing key is an empty string. */
  function Text(k: Option<seq<Byte>>): seq<Byte> {
    if k.None? then [] else k.value
  }

  function PadByte(k: Option<seq<Byte>>, j: nat): Byte {
    if j < |Text(k)| then Text(k)[j] else 0
  }

  /** Byte j of the operation over the first n sources. */
  function FoldAt(o: Operation, keys: seq<Option<seq<Byte>>>, n: nat, j: nat): Byte
    requires 1 <= n <= |keys|
  {
    if n == 1 then (if o.Not? then 255 - PadByte(keys[0], j) else PadByte(keys[0], j))
    else if o.Not? then FoldAt(o, keys, n - 1, j)
    else OnBytes(o.op, FoldAt(o, keys, n - 1, j), PadByte(keys[n - 1], j))
  }

  ghost predicate IsMax(keys: seq<Option<seq<Byte>>>, m: nat) {
    (forall i | 0 <= i < |keys| :: |Text(keys[i])| <= m) && (m == 0 || exists i | 0 <= i < |keys| :: |Text(keys[i])| == m)
  }

  /** The greatest and the least length. */
  method Lengths(keys: seq<Option<seq<Byte>>>) returns (maxlen: nat, minlen: nat)
    requires keys != []
    ensures IsMax(keys, maxlen)
    ensures forall i | 0 <= i < |keys| :: minlen <= |Text(keys[i])|
    ensures exists i | 0 <= i < |keys| :: minlen == |Text(keys[i])|
  {
    maxlen, minlen := 0, 0;
    for j := 0 to |keys|
      invariant forall i | 0 <= i < j :: |Text(keys[i])| <= maxlen
      invariant maxlen == 0 || exists i | 0 <= i < j :: |Text(keys[i])| == maxlen
      invariant forall i | 0 <= i < j :: minlen <= |Text(keys[i])|
      invariant j > 0 ==> exists i | 0 <= i < j :: minlen == |Text(keys[i])|
    {
      if keys[j].None? {
        minlen := 0;
        continue;
      }
      var len := |keys[j].value|;
      if len > maxlen {
        maxlen := len;
      }
      if j == 0 || len < minlen {
        minlen := len;
      }
    }
  }

  // ----- the fast path -----

  method StoreWord(res: array<Byte>, k: nat, w: nat)
    requires k + 8 <= res.Length
    modifies res
    ensures forall i | 0 <= i < res.Length :: res[i] == if k <= i < k + 8 then Bytes(w, 8)[i - k] else old(res[i])
  {
    var bytes := Bytes(w, 8);
    hide Bytes;
    forall i | k <= i < k + 8 {
      res[i] := bytes[i - k];
    }
  }

  /** One word of the result combined with one word of a source. */
  method WordOp(op: Op, res: array<Byte>, src: seq<Byte>, k: nat)
    requires k + 8 <= res.Length && k + 8 <= |src|
    modifies res
    ensures forall i | 0 <= i < res.Length :: res[i] == if k <= i < k + 8 then OnBytes(op, old(res[i]), src[i]) else old(res[i])
  {
    hide Little, Bytes, Bitwise, OnBytes;
    var a, b := res[k..k + 8], src[k..k + 8];
    var w := Bitwise(op, Little(a), Little(b), 64);
    WordIsBytes(op, a, b);
    BytesLittle(Both(op, a, b));
    assert Bytes(w, 8) == Both(op, a, b);
    StoreWord(res, k, w);
  }

  /** One word of the result inverted. */
  method WordNot(res: array<Byte>, k: nat)
    requires k + 8 <= res.Length
    modifies res
    ensures forall i | 0 <= i < res.Length :: res[i] == if k <= i < k + 8 then 255 - old(res[i]) else old(res[i])
  {
    Pow2Values();
    hide Little, Bytes, Pow2;
    var a := res[k..k + 8];
    var w := 0xFFFF_FFFF_FFFF_FFFF - Little(a);
    NotIsBytes(a);
    BytesLittle(Inverted(a));
    assert Bytes(w, 8) == Inverted(a);
    StoreWord(res, k, w);
  }

  /** 32 bytes with one more source. */
  method FourWords(op: Op, res: array<Byte>, src: seq<Byte>, j: nat)
    requires j + 32 <= res.Length && j + 32 <= |src|
    modifies res
    ensures forall i | 0 <= i < res.Length :: res[i] == if j <= i < j + 32 then OnBytes(op, old(res[i]), src[i]) else old(res[i])
  {
    hide OnBytes;
    WordOp(op, res, src, j);
    WordOp(op, res, src, j + 8);
    WordOp(op, res, src, j + 16);
    WordOp(op, res, src, j + 24);
  }

  method FourNots(res: array<Byte>, j: nat)
    requires j + 32 <= res.Length
    modifies res
    ensures forall i | 0 <= i < res.Length :: res[i] == if j <= i < j + 32 then 255 - old(res[i]) else old(res[i])
  {
    WordNot(res, j);
    WordNot(res, j + 8);
    WordNot(res, j + 16);
    WordNot(res, j + 24);
  }

  /** One block of the fast path: 32 bytes of the first source, with all the others. */
  method Block(o: Operation, keys: seq<Option<seq<Byte>>>, res: array<Byte>, j: nat)
    requires keys != [] && (o.Not? ==> |keys| == 1) && j + 32 <= res.Length
    requires forall i | 0 <= i < |keys| :: j + 32 <= |Text(keys[i])|
    requires forall b | j <= b < j + 32 :: res[b] == Text(keys[0])[b]
    modifies res
    ensures forall b | j <= b < j + 32 :: res[b] == FoldAt(o, keys, |keys|, b)
    ensures forall b | 0 <= b < res.Length && !(j <= b < j + 32) :: res[b] == old(res[b])
  {
    hide OnBytes;
    if o.Not? {
      FourNots(res, j);
      return;
    }
    for i := 1 to |keys|
      invariant forall b | j <= b < j + 32 :: res[b] == FoldAt(o, keys, i, b)
      invariant forall b | 0 <= b < res.Length && !(j <= b < j + 32) :: res[b] == old(res[b])
    {
      FourWords(o.op, res, Text(keys[i]), j);
    }
  }

  /** The fast path, as far as all sources have 32 more bytes; with more than 16 sources it is not taken. */
  method FastPath(o: Operation, keys: seq<Option<seq<Byte>>>, res: array<Byte>, shortest: nat) returns (j: nat)
    requires keys != [] && (o.Not? ==> |keys| == 1) && shortest <= res.Length
    requires forall i | 0 <= i < |keys| :: shortest <= |Text(keys[i])|
    modifies res
    ensures j <= res.Length && forall b | 0 <= b < j :: res[b] == FoldAt(o, keys, |keys|, b)
  {
    hide FoldAt;
    j := 0;
    var minlen := shortest;
    if minlen >= 32 && |keys| <= 16 {
      forall b | 0 <= b < shortest {
        res[b] := Text(keys[0])[b];
      }
      while minlen >= 32
        invariant 0 <= minlen && j + minlen == shortest
        invariant forall b | 0 <= b < j :: res[b] == FoldAt(o, keys, |keys|, b)
        invariant forall b | j <= b < shortest :: res[b] == Text(keys[0])[b]
      {
        Block(o, keys, res, j);
        j, minlen := j + 32, minlen - 32;
      }
    }
  }

  // ----- bytes -----

  lemma {:induction false} Absorbs(o: Operation, keys: seq<Option<seq<Byte>>>, n: nat, m: nat, j: nat)
    requires o.Fold? && 1 <= n <= m <= |keys|
    requires (o.op == AND && FoldAt(o, keys, n, j) == 0) || (o.op == OR && FoldAt(o, keys, n, j) == 255)
    ensures FoldAt(o, keys, m, j) == FoldAt(o, keys, n, j)
  {
    hide OnBytes;
    if n < m {
      Absorbs(o, keys, n, m - 1, j);
      if o.op == AND {
        AndNothing(PadByte(keys[m - 1], j));
      } else {
        OrEverything(PadByte(keys[m - 1], j));
      }
    }
  }

  lemma AndNothing(b: Byte)
    ensures OnBytes(AND, 0, b) == 0
  {
    ZeroAnd(b, 8);
  }

  lemma {:induction false} OrOnes(b: nat, n: nat)
    ensures Bitwise(OR, Pow2(n) - 1, b, n) == Pow2(n) - 1
  {
    if n > 0 {
      OrOnes(b / 2, n - 1);
      var x := Pow2(n) - 1;
      assert x == 1 + 2 * (Pow2(n - 1) - 1);
    }
  }

  lemma OrEverything(b: Byte)
    ensures OnBytes(OR, 255, b) == 255
  {
    assert Pow2(8) == 256 by { Pow2Values(); }
    hide Bitwise, Pow2;
    OrOnes(b, 8);
  }

  /** One byte: the sources in turn, until no further one can change it. */
  method ByteOf(o: Operation, keys: seq<Option<seq<Byte>>>, j: nat) returns (output: Byte)
    requires keys != [] && (o.Not? ==> |keys| == 1)
    ensures output == FoldAt(o, keys, |keys|, j)
  {
    hide OnBytes;
    output := if |Text(keys[0])| <= j then 0 else Text(keys[0])[j];
    if o.Not? {
      output := 255 - output;
    }
    for i := 1 to |keys|
      invariant output == FoldAt(o, keys, i, j)
    {
      var byte := if |Text(keys[i])| <= j then 0 else Text(keys[i])[j];
      output := OnBytes(o.op, output, byte);
      if (o.op == AND && output == 0) || (o.op == OR && output == 255) {
        Absorbs(o, keys, i + 1, |keys|, j);
        return;
      }
    }
  }

  datatype Outcome = Refused | Stored(value: seq<Byte>)

  /** bitopCommand: an empty value means that the target is deleted. */
  method BitopCommand(o: Operation, keys: seq<Option<seq<Byte>>>) returns (r: Outcome)
    requires keys != []
    ensures r.Refused? <==> o.Not? && |keys| != 1
    ensures r.Stored? ==> IsMax(keys, |r.value|) && forall j | 0 <= j < |r.value| :: r.value[j] == FoldAt(o, keys, |keys|, j)
  {
    hide FoldAt;
    if o.Not? && |keys| != 1 {
      return Refused;
    }
    var maxlen, minlen := Lengths(keys);
    if maxlen == 0 {
      return Stored([]);
    }
    var res := new Byte[maxlen](_ => 0);
    var j := FastPath(o, keys, res, minlen);
    while j < maxlen
      invariant j <= maxlen && forall b | 0 <= b < j :: res[b] == FoldAt(o, keys, |keys|, b)
    {
      res[j] := ByteOf(o, keys, j);
      j := j + 1;
    }
    return Stored(res[..]);
  }
}
