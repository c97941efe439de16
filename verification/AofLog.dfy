/**
 The append-only log: commands printed in the RESP multi bulk format, and the
 loader that reads a log back, whole or cut off by a crash.
 */
module AofLog {
  import opened Decimal

  type Command = seq<bytes>

  const STAR: byte := 42
  const DOLLAR: byte := 36
  const CR: byte := 13
  const LF: byte := 10
  const CRLF: bytes := [CR, LF]

  // ----- printing -----

  function EncodeArg(a: bytes): bytes {
    [DOLLAR] + Print(|a|) + CRLF + a + CRLF
  }

  function EncodeArgs(args: Command): bytes {
    if args == [] then [] else EncodeArgs(args[..|args| - 1]) + EncodeArg(args[|args| - 1])
  }

  function Encode(args: Command): bytes {
    [STAR] + Print(|args|) + CRLF + EncodeArgs(args)
  }

  function EncodeAll(cmds: seq<Command>): bytes {
    if cmds == [] then [] else EncodeAll(cmds[..|cmds| - 1]) + Encode(cmds[|cmds| - 1])
  }

  /** catAppendOnlyGenericCommand */
  method CatCommand(dst: bytes, argv: Command) returns (r: bytes)
    ensures r == dst + Encode(argv)
  {
    hide Print;
    r := dst + [STAR] + Print(|argv|) + CRLF;
    for j := 0 to |argv|
      invariant r == dst + ([STAR] + Print(|argv|) + CRLF + EncodeArgs(argv[..j]))
    {
      assert argv[..j + 1][..j] == argv[..j];
      r := r + [DOLLAR] + Print(|argv[j]|) + CRLF;
      r := r + argv[j];
      r := r + CRLF;
    }
    assert argv[..|argv|] == argv;
  }

  // ----- reading -----

  /** Why the loader stops: the end of the file where none was expected, a malformed line, an error that is not
      the end of the file, or a length no allocation can serve. */
  datatype Fault = Eof | Format | ReadError | BadLength

  /** fgets reads at most 127 bytes, up to and including a newline. */
  function LineLength(s: bytes, max: nat): (r: nat)
    ensures r <= |s| && r <= max
    ensures s != [] && max > 0 ==> r > 0
  {
    if s == [] || max == 0 then 0
    else if s[0] == LF then 1
    else 1 + LineLength(s[1..], max - 1)
  }

  function Line(s: bytes): (r: bytes)
    ensures r <= s && (s != [] ==> r != [])
  {
    s[..LineLength(s, 127)]
  }

  datatype ArgRead = Arg(value: bytes, rest: bytes) | ArgFault(fault: Fault)

  /** One argument at the front of what is left of the file. */
  function ReadArg(s: bytes): (r: ArgRead)
    ensures r.Arg? ==> |r.rest| < |s|
  {
    if s == [] then ArgFault(Eof)
    else
      var line := Line(s);
      if line[0] != DOLLAR then ArgFault(Format)
      else
        var len, body := Parse(line[1..]), s[|line|..];
        if len < 0 then ArgFault(BadLength)
        else if |body| < len then ArgFault(Eof)
        else if |body| - len < 2 then ArgFault(Eof)
        else Arg(body[..len], body[len + 2..])
  }

  datatype ArgsRead = Args(values: Command, rest: bytes) | ArgsFault(fault: Fault)

  /** The argument loop: 'done' has been read and n arguments are missing. */
  function ReadArgs(s: bytes, n: nat, done: Command): (r: ArgsRead)
    ensures r.Args? ==> |r.rest| <= |s|
    decreases n
  {
    if n == 0 then Args(done, s)
    else match ReadArg(s)
      case ArgFault(f) => ArgsFault(f)
      case Arg(value, rest) => ReadArgs(rest, n - 1, done + [value])
  }

  datatype CommandRead = End | Cmd(args: Command, rest: bytes) | CmdFault(fault: Fault)

  /** One round of the loop of loadAppendOnlyFile. */
  function ReadCommand(s: bytes): (r: CommandRead)
    ensures r.Cmd? ==> |r.rest| < |s|
  {
    if s == [] then End
    else
      var line := Line(s);
      if line[0] != STAR then CmdFault(Format)
      else if |line| == 1 then CmdFault(Eof)
      else if line[1] == 0 then CmdFault(if line == s && |line| < 127 && line[|line| - 1] != LF then Eof else ReadError)
      else
        var argc := Parse(line[1..]);
        if argc < 1 then CmdFault(Format)
        else match ReadArgs(s[|line|..], argc, [])
          case ArgsFault(f) => CmdFault(f)
          case Args(values, rest) => Cmd(values, rest)
  }

  /** What loading ends with. The commands are those run; 'upTo' is where the file is cut. */
  datatype Outcome =
    | EmptyFile
    | Preamble
    | Loaded(cmds: seq<Command>)
    | Truncated(cmds: seq<Command>, upTo: nat)
    | Stopped(cmds: seq<Command>, fault: Fault)
    | UnknownCommand(cmds: seq<Command>)

  /** What the loader makes of the end of the log. */
  function Finish(cmds: seq<Command>, fault: Fault, loadTruncated: bool, upTo: nat): Outcome {
    if fault.Eof? && loadTruncated then Truncated(cmds, upTo) else Stopped(cmds, fault)
  }

  /** The loop: s is left of a file of 'size' bytes, 'cmds' have been run, the last of them ended at 'upTo'. */
  function Replay(s: bytes, size: nat, cmds: seq<Command>, loadTruncated: bool, upTo: nat, known: bytes -> bool): Outcome
    requires |s| <= size
    decreases |s|
  {
    match ReadCommand(s)
    case End => Loaded(cmds)
    case CmdFault(f) => Finish(cmds, f, loadTruncated, upTo)
    case Cmd(args, rest) =>
      if args == [] || !known(args[0]) then UnknownCommand(cmds)
      else Replay(rest, size, cmds + [args], loadTruncated, if loadTruncated then size - |rest| else upTo, known)
  }

  const REDIS: bytes := [82, 69, 68, 73, 83]

  /** loadAppendOnlyFile, for logs without MULTI. */
  function Load(file: bytes, loadTruncated: bool, known: bytes -> bool): Outcome {
    if file == [] then EmptyFile
    else if REDIS <= file then Preamble
    else Replay(file, |file|, [], loadTruncated, 0, known)
  }

  // ----- the loader as written, with its file position -----

  /** One round of the argument loop, reading at 'pos'. */
  method NextArg(file: bytes, pos: nat) returns (r: ArgRead, next: nat)
    requires pos <= |file|
    ensures r == ReadArg(file[pos..])
    ensures r.Arg? ==> pos < next <= |file| && r.rest == file[next..]
  {
    next := pos;
    if pos == |file| {
      return ArgFault(Eof), pos;
    }
    var line := Line(file[pos..]);
    if line[0] != DOLLAR {
      return ArgFault(Format), pos;
    }
    var len, body := Parse(line[1..]), pos + |line|;
    assert file[pos..][|line|..] == file[body..];
    if len < 0 {
      return ArgFault(BadLength), pos;
    }
    if body + len > |file| || body + len + 2 > |file| {
      return ArgFault(Eof), pos;
    }
    next := body + len + 2;
    assert file[body..][..len] == file[body..body + len] && file[body..][len + 2..] == file[next..];
    r := Arg(file[body..body + len], file[next..]);
  }

  /** The argument loop. */
  method NextArgs(file: bytes, pos: nat, argc: nat) returns (r: ArgsRead, next: nat)
    requires pos <= |file|
    ensures r == ReadArgs(file[pos..], argc, [])
    ensures r.Args? ==> pos <= next <= |file| && r.rest == file[next..]
  {
    hide ReadArg;
    var argv: Command := [];
    next := pos;
    for j := 0 to argc
      invariant pos <= next <= |file|
      invariant ReadArgs(file[pos..], argc, []) == ReadArgs(file[next..], argc - j, argv)
    {
      var arg, after := NextArg(file, next);
      if arg.ArgFault? {
        return ArgsFault(arg.fault), next;
      }
      argv, next := argv + [arg.value], after;
    }
    r := Args(argv, file[next..]);
  }

  method NextCommand(file: bytes, pos: nat) returns (r: CommandRead, next: nat)
    requires pos <= |file|
    ensures r == ReadCommand(file[pos..])
    ensures r.Cmd? ==> pos < next <= |file| && r.rest == file[next..]
  {
    hide Parse, ReadArgs, Line;
    next := pos;
    if pos == |file| {
      return End, pos;
    }
    var line := Line(file[pos..]);
    if line[0] != STAR {
      return CmdFault(Format), pos;
    }
    if |line| == 1 {
      return CmdFault(Eof), pos;
    }
    if line[1] == 0 {
      var atEnd := |line| == |file| - pos && |line| < 127 && line[|line| - 1] != LF;
      assert atEnd <==> line == file[pos..] && |line| < 127 && line[|line| - 1] != LF;
      return CmdFault(if atEnd then Eof else ReadError), pos;
    }
    var argc := Parse(line[1..]);
    if argc < 1 {
      return CmdFault(Format), pos;
    }
    assert file[pos..][|line|..] == file[pos + |line|..];
    var args, after := NextArgs(file, pos + |line|, argc);
    match args
    case ArgsFault(f) => return CmdFault(f), pos;
    case Args(values, rest) => return Cmd(values, rest), after;
  }

  /** loadAppendOnlyFile */
  method LoadFile(file: bytes, loadTruncated: bool, known: bytes -> bool) returns (r: Outcome)
    ensures r == Load(file, loadTruncated, known)
  {
    if file == [] {
      return EmptyFile;
    }
    if |file| >= 5 && file[..5] == REDIS {
      return Preamble;
    }
    assert file[0..] == file;
    var pos: nat, upTo: nat, cmds: seq<Command> := 0, 0, [];
    ghost var wanted := Load(file, loadTruncated, known);
    hide ReadCommand, Load;
    while true
      invariant 0 <= pos <= |file|
      invariant wanted == Replay(file[pos..], |file|, cmds, loadTruncated, upTo, known)
      decreases |file| - pos
    {
      var read, next := NextCommand(file, pos);
      match read
      case End => return Loaded(cmds);
      case CmdFault(f) => return Finish(cmds, f, loadTruncated, upTo);
      case Cmd(args, rest) =>
        if args == [] || !known(args[0]) {
          return UnknownCommand(cmds);
        }
        pos, cmds := next, cmds + [args];
        if loadTruncated {
          upTo := pos;
        }
    }
  }
}
