/**
 Decimal numbers as the source prints and reads them: ll2string, and atoi or
 strtol with leading blanks and a sign. Numbers are unbounded here.
 */
module Decimal {
  newtype byte = x: int | 0 <= x < 256

  type bytes = seq<byte>

  const MINUS: byte := 45
  const PLUS: byte := 43

  predicate IsDigit(b: byte) {
    48 <= b <= 57
  }

  /** isspace in the C locale. */
  predicate IsSpace(b: byte) {
    b == 32 || 9 <= b <= 13
  }

  function DigitOf(d: nat): byte
    requires d < 10
  {
    (48 + d) as byte
  }

  /** The digits of n, most significant first. */
  function Print(n: nat): (r: bytes)
    ensures |r| > 0 && forall i | 0 <= i < |r| :: IsDigit(r[i])
  {
    if n < 10 then [DigitOf(n)] else Print(n / 10) + [DigitOf(n % 10)]
  }

  /** The value of the digits at the front of s, after 'acc' has been read. */
  function ReadDigits(s: bytes, acc: nat): nat {
    if s == [] || !IsDigit(s[0]) then acc
    else ReadDigits(s[1..], acc * 10 + (s[0] as int - 48))
  }

  function SkipSpaces(s: bytes): bytes {
    if s != [] && IsSpace(s[0]) then SkipSpaces(s[1..]) else s
  }

  /** atoi */
  function Parse(s: bytes): int {
    var t := SkipSpaces(s);
    if t == [] then 0
    else if t[0] == MINUS then 0 - (ReadDigits(t[1..], 0) as int)
    else if t[0] == PLUS then ReadDigits(t[1..], 0)
    else ReadDigits(t, 0)
  }

  lemma {:induction false} ReadAppend(s: bytes, t: bytes, acc: nat)
    requires forall i | 0 <= i < |s| :: IsDigit(s[i])
    ensures ReadDigits(s + t, acc) == ReadDigits(t, ReadDigits(s, acc))
  {
    if s == [] {
      assert s + t == t;
    } else {
      assert (s + t)[0] == s[0] && (s + t)[1..] == s[1..] + t;
      ReadAppend(s[1..], t, acc * 10 + (s[0] as int - 48));
    }
  }

  lemma {:induction false} ReadPrint(n: nat)
    ensures ReadDigits(Print(n), 0) == n
  {
    if n < 10 {
      assert ReadDigits([DigitOf(n)], 0) == ReadDigits([], n);
    } else {
      ReadPrint(n / 10);
      ReadAppend(Print(n / 10), [DigitOf(n % 10)], 0);
      var d := [DigitOf(n % 10)];
      assert ReadDigits(d, n / 10) == ReadDigits(d[1..], n);
    }
  }

  /** Reading a printed number gives it back, whatever follows that is not a digit. */
  lemma PrintParse(n: nat, rest: bytes)
    requires rest == [] || !IsDigit(rest[0])
    ensures Parse(Print(n) + rest) == n
  {
    var s := Print(n) + rest;
    assert s[0] == Print(n)[0] && IsDigit(s[0]);
    assert SkipSpaces(s) == s;
    ReadAppend(Print(n), rest, 0);
    ReadPrint(n);
  }

  /** ll2string */
  function PrintInt(i: int): bytes {
    if i < 0 then [MINUS] + Print(-i) else Print(i)
  }

  lemma PrintIntParse(i: int)
    ensures Parse(PrintInt(i)) == i
  {
    if i < 0 {
      ReadPrint(-i);
      assert PrintInt(i)[1..] == Print(-i);
    } else {
      PrintParse(i, []);
      assert Print(i) + [] == Print(i);
    }
  }

  function Pow10(k: nat): nat {
    if k == 0 then 1 else 10 * Pow10(k - 1)
  }

  lemma {:induction false} PrintLength(n: nat, k: nat)
    requires n < Pow10(k) && k > 0
    ensures |Print(n)| <= k
  {
    if n >= 10 && k > 1 {
      PrintLength(n / 10, k - 1);
    }
  }

  lemma {:induction false} PrintLead(n: nat)
    requires n > 0
    ensures Print(n)[0] != 48
  {
    if n >= 10 {
      PrintLead(n / 10);
    }
  }

  lemma {:induction false} ReadGrows(s: bytes, acc: nat)
    ensures acc <= ReadDigits(s, acc)
  {
    if s != [] && IsDigit(s[0]) {
      ReadGrows(s[1..], acc * 10 + (s[0] as int - 48));
    }
  }

  /** A positive number cut short, but not to nothing, still reads as a positive number. */
  lemma CutIsPositive(n: nat, k: nat, rest: bytes)
    requires n > 0 && 0 < k <= |Print(n)|
    ensures Parse(Print(n)[..k] + rest) >= 1
  {
    PrintLead(n);
    var s := Print(n)[..k] + rest;
    assert s[0] == Print(n)[0] && IsDigit(s[0]);
    assert SkipSpaces(s) == s;
    ReadGrows(s[1..], s[0] as int - 48);
  }

  /** Digits, cut or not, never read as a negative number. */
  lemma DigitsAreNatural(s: bytes, rest: bytes)
    requires (forall i | 0 <= i < |s| :: IsDigit(s[i])) && (rest == [] || rest[0] == 13)
    ensures s != [] ==> Parse(s + rest) >= 0
    ensures s == [] && |rest| <= 1 ==> Parse(s + rest) == 0
  {
    var t := s + rest;
    if s != [] {
      assert t[0] == s[0] && IsDigit(t[0]);
      assert SkipSpaces(t) == t;
    } else if rest != [] {
      assert t == rest && IsSpace(t[0]);
      assert SkipSpaces(t) == SkipSpaces(t[1..]);
    }
  }
}
