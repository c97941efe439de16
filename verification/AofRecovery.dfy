/**
 Reading back what was printed: a whole log gives its commands, and a log cut at
 any byte gives the commands that are whole and the place to cut the file.
 */
module AofRecovery {
  import opened Decimal
  import opened AofLog

  /** The sizes C can hold: argc is an int, a length a long. */
  predicate Sized(cmd: Command) {
    0 < |cmd| <= 0x7fff_ffff && forall i | 0 <= i < |cmd| :: |cmd[i]| <= 0x7fff_ffff_ffff_ffff
  }

  function Header(c: byte, n: nat): bytes {
    [c] + Print(n) + CRLF
  }

  lemma ShortNumber(n: nat)
    requires n <= 0x7fff_ffff_ffff_ffff
    ensures |Print(n)| <= 19
  {
    assert Pow10(4) == 10000;
    assert Pow10(8) == 100000000 by { assert Pow10(6) == 1000000; }
    assert Pow10(12) == 1000000000000 by { assert Pow10(10) == 10000000000; }
    assert Pow10(16) == 10000000000000000 by { assert Pow10(14) == 100000000000000; }
    assert Pow10(19) == 10000000000000000000 by { assert Pow10(18) == 1000000000000000000; }
    PrintLength(n, 19);
  }

  lemma {:induction false} WholeLine(p: bytes, rest: bytes, max: nat)
    requires LF !in p && |p| < max
    ensures LineLength(p + [LF] + rest, max) == |p| + 1
  {
    var s := p + [LF] + rest;
    if p != [] {
      assert s[0] == p[0] && s[1..] == p[1..] + [LF] + rest;
      assert LF !in p[1..];
      WholeLine(p[1..], rest, max - 1);
    }
  }

  lemma {:induction false} CutLine(p: bytes, max: nat)
    requires LF !in p && |p| <= max
    ensures LineLength(p, max) == |p|
  {
    if p != [] {
      CutLine(p[1..], max - 1);
    }
  }

  lemma NoNewline(c: byte, n: nat)
    requires c != LF
    ensures LF !in [c] + Print(n) + [CR]
  {
  }

  lemma HeaderLine(c: byte, n: nat, rest: bytes)
    requires c != LF && n <= 0x7fff_ffff_ffff_ffff
    ensures Line(Header(c, n) + rest) == Header(c, n)
    ensures Parse(Header(c, n)[1..]) == n
  {
    ShortNumber(n);
    NoNewline(c, n);
    var p := [c] + Print(n) + [CR];
    assert Header(c, n) == p + [LF];
    WholeLine(p, rest, 127);
    assert (Header(c, n) + rest)[..|p| + 1] == Header(c, n);
    assert Header(c, n)[1..] == Print(n) + CRLF;
    PrintParse(n, CRLF);
  }

  /** A header cut before its newline is read to the end of the file. */
  lemma CutHeaderLine(c: byte, n: nat, k: nat)
    requires c != LF && n <= 0x7fff_ffff_ffff_ffff && 0 < k < |Header(c, n)|
    ensures Line(Header(c, n)[..k]) == Header(c, n)[..k]
    ensures Parse(Header(c, n)[1..k]) >= 0
    ensures k > 1 && n > 0 ==> Parse(Header(c, n)[1..k]) >= 1
    ensures k > 1 ==> Header(c, n)[1] != 0
  {
    ShortNumber(n);
    NoNewline(c, n);
    var p := [c] + Print(n) + [CR];
    var h := Header(c, n)[..k];
    assert h == p[..k];
    assert LF !in h by { assert forall i | 0 <= i < k :: h[i] == p[i]; }
    CutLine(h, 127);
    CutNumber(c, n, k);
  }

  /** The number in a cut header. */
  lemma CutNumber(c: byte, n: nat, k: nat)
    requires 0 < k < |Header(c, n)|
    ensures Parse(Header(c, n)[1..k]) >= 0
    ensures k > 1 && n > 0 ==> Parse(Header(c, n)[1..k]) >= 1
    ensures k > 1 ==> Header(c, n)[1] != 0
  {
    var all := Print(n);
    hide Print, Parse;
    assert Header(c, n)[1..] == all + CRLF;
    assert Header(c, n)[1..k] == (all + CRLF)[..k - 1];
    if k - 1 <= |all| {
      assert (all + CRLF)[..k - 1] == all[..k - 1] + [];
      DigitsAreNatural(all[..k - 1], []);
      if k > 1 && n > 0 {
        CutIsPositive(n, k - 1, []);
      }
    } else {
      assert (all + CRLF)[..k - 1] == all + [CR];
      DigitsAreNatural(all, [CR]);
      if n > 0 {
        assert all[..|all|] == all;
        CutIsPositive(n, |all|, [CR]);
      }
    }
    if k > 1 {
      assert Header(c, n)[1] == all[0] && IsDigit(all[0]);
    }
  }

  // ----- arguments -----

  lemma ArgShape(a: bytes)
    ensures EncodeArg(a) == Header(DOLLAR, |a|) + (a + CRLF)
  {
  }

  lemma ArgWhole(a: bytes, rest: bytes)
    requires |a| <= 0x7fff_ffff_ffff_ffff
    ensures ReadArg(EncodeArg(a) + rest) == Arg(a, rest)
  {
    ArgShape(a);
    var h, s := Header(DOLLAR, |a|), EncodeArg(a) + rest;
    assert s == h + (a + CRLF + rest);
    HeaderLine(DOLLAR, |a|, a + CRLF + rest);
    var body := s[|h|..];
    assert body == a + CRLF + rest;
    assert body[..|a|] == a && body[|a| + 2..] == rest;
  }

  lemma ArgCut(a: bytes, k: nat)
    requires |a| <= 0x7fff_ffff_ffff_ffff && k < |EncodeArg(a)|
    ensures ReadArg(EncodeArg(a)[..k]) == ArgFault(Eof)
  {
    ArgShape(a);
    var h, s := Header(DOLLAR, |a|), EncodeArg(a)[..k];
    if 0 < k < |h| {
      assert s == h[..k];
      CutHeaderLine(DOLLAR, |a|, k);
      assert s[1..] == h[1..k];
      assert s[|s|..] == [];
    } else if k >= |h| {
      var part := (a + CRLF)[..k - |h|];
      assert s == h + part;
      HeaderLine(DOLLAR, |a|, part);
      assert s[|h|..] == part;
    }
  }

  lemma {:induction false} EncodeArgsCons(args: Command)
    requires args != []
    ensures EncodeArgs(args) == EncodeArg(args[0]) + EncodeArgs(args[1..])
  {
    hide EncodeArg;
    if |args| == 1 {
      assert args[..0] == [] && args[1..] == [];
    } else {
      var front, last := args[..|args| - 1], EncodeArg(args[|args| - 1]);
      EncodeArgsCons(front);
      var middle := EncodeArgs(front[1..]);
      assert front[1..] == args[1..][..|args| - 2];
      assert EncodeArgs(args[1..]) == middle + last;
      assert EncodeArgs(args) == EncodeArg(args[0]) + middle + last;
    }
  }

  lemma {:induction false} ArgsWhole(args: Command, rest: bytes, done: Command)
    requires forall i | 0 <= i < |args| :: |args[i]| <= 0x7fff_ffff_ffff_ffff
    ensures ReadArgs(EncodeArgs(args) + rest, |args|, done) == Args(done + args, rest)
    decreases |args|
  {
    hide EncodeArg, ReadArg;
    if args == [] {
      assert EncodeArgs(args) + rest == rest && done + args == done;
    } else {
      EncodeArgsCons(args);
      var tail := EncodeArgs(args[1..]) + rest;
      assert EncodeArgs(args) + rest == EncodeArg(args[0]) + tail;
      ArgWhole(args[0], tail);
      ArgsWhole(args[1..], rest, done + [args[0]]);
      assert done + [args[0]] + args[1..] == done + args;
    }
  }

  lemma NoArgs()
    ensures EncodeArgs([]) == []
  {
  }

  lemma {:induction false} ArgsCut(args: Command, k: nat, done: Command)
    requires forall i | 0 <= i < |args| :: |args[i]| <= 0x7fff_ffff_ffff_ffff
    requires k < |EncodeArgs(args)|
    ensures ReadArgs(EncodeArgs(args)[..k], |args|, done) == ArgsFault(Eof)
    decreases |args|
  {
    hide EncodeArg, ReadArg, EncodeArgs;
    NoArgs();
    EncodeArgsCons(args);
    var a, tail := EncodeArg(args[0]), EncodeArgs(args[1..]);
    var s := EncodeArgs(args)[..k];
    if k < |a| {
      assert s == a[..k];
      ArgCut(args[0], k);
    } else {
      assert s == a + tail[..k - |a|];
      ArgWhole(args[0], tail[..k - |a|]);
      ArgsCut(args[1..], k - |a|, done + [args[0]]);
      assert ReadArgs(s, |args|, done) == ReadArgs(tail[..k - |a|], |args| - 1, done + [args[0]]);
    }
  }

  // ----- commands -----

  lemma CommandShape(cmd: Command)
    ensures Encode(cmd) == Header(STAR, |cmd|) + EncodeArgs(cmd)
  {
  }

  lemma CommandWhole(cmd: Command, rest: bytes)
    requires Sized(cmd)
    ensures ReadCommand(Encode(cmd) + rest) == Cmd(cmd, rest)
  {
    CommandShape(cmd);
    var h, s := Header(STAR, |cmd|), Encode(cmd) + rest;
    assert h[1] == Print(|cmd|)[0] && IsDigit(h[1]);
    hide Encode, EncodeArgs, ReadArgs, Print;
    assert s == h + (EncodeArgs(cmd) + rest);
    HeaderLine(STAR, |cmd|, EncodeArgs(cmd) + rest);
    assert s[|h|..] == EncodeArgs(cmd) + rest;
    ArgsWhole(cmd, rest, []);
    assert [] + cmd == cmd;
  }

  lemma CommandCut(cmd: Command, k: nat)
    requires Sized(cmd) && 0 < k < |Encode(cmd)|
    ensures ReadCommand(Encode(cmd)[..k]) == CmdFault(Eof)
  {
    CommandShape(cmd);
    var h, s := Header(STAR, |cmd|), Encode(cmd)[..k];
    if k < |h| {
      assert s == h[..k];
      CutHeaderLine(STAR, |cmd|, k);
      assert s[1..] == h[1..k];
      assert s[|s|..] == [];
    } else {
      var part := EncodeArgs(cmd)[..k - |h|];
      assert s == h + part;
      HeaderLine(STAR, |cmd|, part);
      assert s[|h|..] == part;
      assert h[1] == Print(|cmd|)[0] && IsDigit(h[1]);
      ArgsCut(cmd, k - |h|, []);
    }
  }

  lemma {:induction false} EncodeAllCons(cmds: seq<Command>)
    requires cmds != []
    ensures EncodeAll(cmds) == Encode(cmds[0]) + EncodeAll(cmds[1..])
  {
    hide Encode;
    if |cmds| == 1 {
      assert cmds[..0] == [] && cmds[1..] == [];
    } else {
      var front, last := cmds[..|cmds| - 1], Encode(cmds[|cmds| - 1]);
      EncodeAllCons(front);
      var middle := EncodeAll(front[1..]);
      assert front[1..] == cmds[1..][..|cmds| - 2];
      assert EncodeAll(cmds[1..]) == middle + last;
      assert EncodeAll(cmds) == Encode(cmds[0]) + middle + last;
    }
  }

  /** k is the number of commands that are whole in the first p bytes of the log. */
  ghost predicate WholeIn(cmds: seq<Command>, p: nat, k: nat) {
    && k <= |cmds| && |EncodeAll(cmds[..k])| <= p <= |EncodeAll(cmds)|
    && (k < |cmds| ==> p < |EncodeAll(cmds[..k + 1])|)
  }

  /** What the loader should make of p bytes of a log of which k commands are whole. */
  ghost function Recovered(cmds: seq<Command>, p: nat, k: nat, done: seq<Command>, start: nat): Outcome
    requires k <= |cmds|
  {
    var upTo := |EncodeAll(cmds[..k])|;
    if p == upTo then Loaded(done + cmds[..k]) else Truncated(done + cmds[..k], start + upTo)
  }

  lemma WholeInTail(cmds: seq<Command>, p: nat, k: nat)
    requires WholeIn(cmds, p, k) && k > 0
    ensures k <= |cmds| && |Encode(cmds[0])| <= p && p - |Encode(cmds[0])| <= |EncodeAll(cmds[1..])|
    ensures EncodeAll(cmds)[..p] == Encode(cmds[0]) + EncodeAll(cmds[1..])[..p - |Encode(cmds[0])|]
    ensures WholeIn(cmds[1..], p - |Encode(cmds[0])|, k - 1)
    ensures |EncodeAll(cmds[..k])| == |Encode(cmds[0])| + |EncodeAll(cmds[1..][..k - 1])|
  {
    hide Encode, EncodeAll;
    EncodeAllCons(cmds);
    EncodeAllCons(cmds[..k]);
    assert cmds[..k][1..] == cmds[1..][..k - 1];
    if k < |cmds| {
      EncodeAllCons(cmds[..k + 1]);
      assert cmds[..k + 1][1..] == cmds[1..][..k];
    }
  }

  lemma NothingWhole(cmds: seq<Command>, p: nat)
    requires WholeIn(cmds, p, 0)
    ensures p <= |EncodeAll(cmds)| && EncodeAll(cmds[..0]) == [] && (p == 0 ==> EncodeAll(cmds)[..p] == [])
  {
    assert cmds[..0] == [];
  }

  lemma FirstCut(cmds: seq<Command>, p: nat)
    requires WholeIn(cmds, p, 0) && p > 0
    ensures cmds != [] && p < |Encode(cmds[0])| && EncodeAll(cmds)[..p] == Encode(cmds[0])[..p]
  {
    assert cmds[..0] == [];
    if cmds != [] {
      EncodeAllCons(cmds);
      EncodeAllCons(cmds[..1]);
      assert cmds[..1][1..] == [];
    }
  }

  lemma {:induction false} ReplayPrefix(cmds: seq<Command>, p: nat, k: nat, size: nat, done: seq<Command>,
                                        start: nat, known: bytes -> bool)
    requires forall i | 0 <= i < |cmds| :: Sized(cmds[i]) && known(cmds[i][0])
    requires WholeIn(cmds, p, k) && size == start + p
    ensures Replay(EncodeAll(cmds)[..p], size, done, true, start, known) == Recovered(cmds, p, k, done, start)
    decreases k
  {
    hide Encode, ReadCommand, EncodeAll, WholeIn;
    if k == 0 {
      assert cmds[..0] == [] && done + [] == done;
      ReadNothing();
      NothingWhole(cmds, p);
      if p > 0 {
        FirstCut(cmds, p);
        CommandCut(cmds[0], p);
      }
    } else {
      WholeInTail(cmds, p, k);
      var e := |Encode(cmds[0])|;
      CommandWhole(cmds[0], EncodeAll(cmds[1..])[..p - e]);
      ReplayPrefix(cmds[1..], p - e, k - 1, size, done + [cmds[0]], start + e, known);
      assert done + [cmds[0]] + cmds[1..][..k - 1] == done + cmds[..k];
    }
  }

  lemma ReadNothing()
    ensures ReadCommand([]) == End
  {
  }

  lemma NonEmptyLog(cmds: seq<Command>)
    requires cmds != []
    ensures |EncodeAll(cmds)| > 0
  {
  }

  lemma LogStart(cmds: seq<Command>, p: nat)
    requires 0 < p <= |EncodeAll(cmds)|
    ensures EncodeAll(cmds)[..p][0] == STAR
  {
    EncodeAllCons(cmds);
  }

  /** Crash recovery: cut the log of any commands anywhere after its first byte, and the loader runs exactly the
      commands that are whole and cuts the file where the last of them ends. */
  lemma CrashRecovery(cmds: seq<Command>, p: nat, k: nat, known: bytes -> bool)
    requires forall i | 0 <= i < |cmds| :: Sized(cmds[i]) && known(cmds[i][0])
    requires 0 < p && WholeIn(cmds, p, k)
    ensures Load(EncodeAll(cmds)[..p], true, known) ==
            var upTo := |EncodeAll(cmds[..k])|;
            if p == upTo then Loaded(cmds[..k]) else Truncated(cmds[..k], upTo)
  {
    LogStart(cmds, p);
    ReplayPrefix(cmds, p, k, p, [], 0, known);
    assert [] + cmds[..k] == cmds[..k];
    hide Replay, EncodeAll;
  }

  /** For every cut there is such a k. */
  lemma {:induction false} WholeCount(cmds: seq<Command>, p: nat) returns (k: nat)
    requires p <= |EncodeAll(cmds)|
    ensures WholeIn(cmds, p, k)
  {
    k := |cmds|;
    assert cmds[..k] == cmds;
    while k > 0 && p < |EncodeAll(cmds[..k])|
      invariant k <= |cmds| && (k < |cmds| ==> p < |EncodeAll(cmds[..k + 1])|)
    {
      k := k - 1;
    }
    assert cmds[..0] == [];
  }

  /** Round trip: a whole log gives back its commands, whether or not cut logs are accepted. */
  lemma LogRoundTrip(cmds: seq<Command>, loadTruncated: bool, known: bytes -> bool)
    requires cmds != [] && forall i | 0 <= i < |cmds| :: Sized(cmds[i]) && known(cmds[i][0])
    ensures Load(EncodeAll(cmds), loadTruncated, known) == Loaded(cmds)
  {
    hide Replay, EncodeAll, Encode;
    var file := EncodeAll(cmds);
    NonEmptyLog(cmds);
    LogStart(cmds, |file|);
    ReplayWhole(cmds, |file|, [], loadTruncated, 0, known);
    assert [] + cmds == cmds;
  }

  lemma {:induction false} ReplayWhole(cmds: seq<Command>, size: nat, done: seq<Command>, loadTruncated: bool,
                                       upTo: nat, known: bytes -> bool)
    requires forall i | 0 <= i < |cmds| :: Sized(cmds[i]) && known(cmds[i][0])
    requires |EncodeAll(cmds)| <= size
    ensures Replay(EncodeAll(cmds), size, done, loadTruncated, upTo, known) == Loaded(done + cmds)
    decreases |cmds|
  {
    hide Encode, ReadCommand;
    if cmds == [] {
      ReadNothing();
      assert done + cmds == done;
    } else {
      EncodeAllCons(cmds);
      var rest := EncodeAll(cmds[1..]);
      CommandWhole(cmds[0], rest);
      ReplayWhole(cmds[1..], size, done + [cmds[0]], loadTruncated, if loadTruncated then size - |rest| else upTo, known);
      assert done + [cmds[0]] + cmds[1..] == done + cmds;
    }
  }
}
