/**
 The text of ACL rules: how an operation is read, how a rule is printed, and the
 lines of an ACL file.
 */
module AclText {
  import opened AclUser

  // ----- one rule -----

  /** The operation without its case, for the words about the user itself. */
  function ParseFlag(word: string): Rule {
    if word == "on" then On
    else if word == "off" then Off
    else if word == "skip-sanitize-payload" then SkipSanitize
    else if word == "sanitize-payload" then Sanitize
    else if word == "nopass" then NoPass
    else if word == "resetpass" then ResetPass
    else Unknown
  }

  /** The words for everything or nothing of a kind. */
  function ParseWhole(word: string): Rule {
    if word == "allkeys" || word == "~*" then AllKeys
    else if word == "resetkeys" then ResetKeys
    else if word == "allchannels" || word == "&*" then AllChannels
    else if word == "resetchannels" then ResetChannels
    else if word == "allcommands" || word == "+@all" then AllCommands
    else if word == "nocommands" || word == "-@all" then NoCommands
    else Unknown
  }

  function ParseWord(word: string): Rule {
    if ParseFlag(word) != Unknown then ParseFlag(word) else ParseWhole(word)
  }

  /** The first position of c, or the length. */
  function IndexOf(s: string, c: char): (i: nat)
    ensures i <= |s| && c !in s[..i]
    ensures i < |s| ==> s[i] == c
  {
    if s == "" || s[0] == c then 0 else
      var i := IndexOf(s[1..], c);
      assert s[..i + 1] == [s[0]] + s[1..][..i];
      i + 1
  }

  /** +command or +command|subcommand, split at the first bar. */
  function ParseAllow(rest: string): Rule {
    var i := IndexOf(rest, '|');
    if i == |rest| then AllowCommand(rest) else AllowSub(rest[..i], rest[i + 1..])
  }

  /** The operations told apart by their first characters. */
  function ParsePrefixed(op: string): Rule
    requires op != ""
  {
    if op[0] == '>' then AddPassword(op[1..])
    else if op[0] == '#' then AddHash(op[1..])
    else if op[0] == '<' then DelPassword(op[1..])
    else if op[0] == '!' then DelHash(op[1..])
    else if op[0] == '~' then KeyPattern(op[1..])
    else if op[0] == '&' then ChannelPattern(op[1..])
    else if op[0] == '+' && (|op| == 1 || op[1] != '@') then ParseAllow(op[1..])
    else if op[0] == '-' && (|op| == 1 || op[1] != '@') then DenyCommand(op[1..])
    else if op[0] == '+' then AllowCategory(op[2..])
    else if op[0] == '-' then DenyCategory(op[2..])
    else if Lower(op) == "reset" then Reset
    else Unknown
  }

  /** How ACLSetUser reads an operation. */
  function Parse(op: string): Rule {
    if op == "" then Nothing
    else if ParseWord(Lower(op)) != Unknown then ParseWord(Lower(op))
    else ParsePrefixed(op)
  }

  /** How a description prints a rule. */
  function Show(r: Rule): string {
    match r
    case On => "on"
    case Off => "off"
    case NoPass => "nopass"
    case SkipSanitize => "skip-sanitize-payload"
    case Sanitize => "sanitize-payload"
    case AddHash(h) => "#" + h
    case AllKeys => "~*"
    case KeyPattern(p) => "~" + p
    case AllChannels => "&*"
    case ResetChannels => "resetchannels"
    case ChannelPattern(p) => "&" + p
    case AllCommands => "+@all"
    case NoCommands => "-@all"
    case AllowCategory(c) => "+@" + c
    case DenyCategory(c) => "-@" + c
    case AllowCommand(name) => "+" + name
    case DenyCommand(name) => "-" + name
    case AllowSub(name, sub) => "+" + name + "|" + sub
    case _ => ""
  }

  /** The rules descriptions are made of. */
  predicate Printable(r: Rule) {
    match r
    case AddHash(h) => IsHash(h)
    case KeyPattern(p) => p != "*" && !HasSpaces(p)
    case ChannelPattern(p) => p != "*" && !HasSpaces(p)
    case AllowCategory(c) => c in CATEGORIES
    case DenyCategory(c) => c in CATEGORIES
    case AllowCommand(name) => NameOk(name)
    case DenyCommand(name) => NameOk(name)
    case AllowSub(name, sub) => NameOk(name) && sub != ""
    case _ => IsFlagWord(r) || IsWholeWord(r)
  }

  /** The rules that are one fixed word. */
  predicate IsFlagWord(r: Rule) {
    r.On? || r.Off? || r.NoPass? || r.SkipSanitize? || r.Sanitize?
  }

  predicate IsWholeWord(r: Rule) {
    r.AllKeys? || r.AllChannels? || r.ResetChannels? || r.AllCommands? || r.NoCommands?
  }

  lemma NoCapitals(w: string)
    requires forall i | 0 <= i < |w| :: !('A' <= w[i] <= 'Z')
    ensures Lower(w) == w
  {
  }

  lemma ShownLower(r: Rule)
    requires IsFlagWord(r) || IsWholeWord(r)
    ensures Lower(Show(r)) == Show(r)
  {
    hide Lower;
    NoCapitals(Show(r));
  }

  lemma FlagWordsParse(r: Rule)
    requires IsFlagWord(r)
    ensures ParseFlag(Show(r)) == r && Show(r) != ""
  {
  }

  lemma WholeWordsParse(r: Rule)
    requires IsWholeWord(r)
    ensures ParseWhole(Show(r)) == r && Show(r) != ""
  {
  }

  lemma WholeIsNoFlag(r: Rule)
    requires IsWholeWord(r)
    ensures ParseFlag(Show(r)) == Unknown
  {
  }

  lemma WordsParse(r: Rule)
    requires IsFlagWord(r) || IsWholeWord(r)
    ensures Parse(Show(r)) == r && Show(r) != ""
  {
    hide Lower, ParsePrefixed, ParseFlag, ParseWhole, Show;
    ShownLower(r);
    if IsFlagWord(r) {
      FlagWordsParse(r);
    } else {
      WholeIsNoFlag(r);
      WholeWordsParse(r);
    }
  }

  lemma CategoryNames(i: nat)
    requires i < |CATEGORIES|
    ensures CATEGORIES[i] != "all" && Lower(CATEGORIES[i]) == CATEGORIES[i]
  {
    var c := CATEGORIES[i];
    assert |c| > 3 || c == "set" || c == "geo";
    assert forall k | 0 <= k < |c| :: !('A' <= c[k] <= 'Z');
  }

  lemma NoCategoryAll(c: string)
    requires c in CATEGORIES
    ensures c != "all" && Lower(c) == c
  {
    var i :| 0 <= i < |CATEGORIES| && CATEGORIES[i] == c;
    CategoryNames(i);
  }

  lemma NoFlagWord(w: string)
    requires w != "" && w[0] in {'+', '-', '~', '&', '#', '>', '<', '!'}
    ensures ParseFlag(w) == Unknown
  {
  }

  lemma NoWholeWord(w: string)
    requires w != "" && w[0] in {'+', '-', '~', '&', '#', '>', '<', '!'}
    requires w != "~*" && w != "&*" && w != "+@all" && w != "-@all"
    ensures ParseWhole(w) == Unknown
  {
  }

  /** A word of ParseWord starts with a letter unless it is one of four. */
  lemma ParseNoWord(op: string)
    requires op != "" && op[0] in {'+', '-', '~', '&', '#', '>', '<', '!'}
    requires Lower(op) != "~*" && Lower(op) != "&*" && Lower(op) != "+@all" && Lower(op) != "-@all"
    ensures Parse(op) == ParsePrefixed(op)
  {
    hide ParseFlag, ParseWhole, ParsePrefixed;
    assert Lower(op)[0] == op[0];
    NoFlagWord(Lower(op));
    NoWholeWord(Lower(op));
  }

  lemma PrefixParses(r: Rule)
    requires r.AddHash? || r.KeyPattern? || r.ChannelPattern?
    requires Printable(r)
    ensures Parse(Show(r)) == r
  {
    hide HasSpaces, IsHash, ParseWord, IndexOf;
    var op := Show(r);
    assert Lower(op)[0] == op[0];
    if |op| == 2 && !r.AddHash? {
      assert op[1] == r.p[0];
      assert r.p == [op[1]];
      assert op[1] != '*';
      assert Lower(op)[1] == LowerChar(op[1]) != '*';
    }
    ParseNoWord(op);
  }

  lemma CategoryParses(r: Rule)
    requires (r.AllowCategory? || r.DenyCategory?) && Printable(r)
    ensures Parse(Show(r)) == r
  {
    NoCategoryAll(r.cat);
    hide ParseWord, IndexOf, Printable, NameOk;
    var op := Show(r);
    assert op[2..] == r.cat;
    assert op[1] == '@';
    assert Lower(op)[2..] == Lower(r.cat) != "all";
    ParseNoWord(op);
  }

  lemma CommandParses(r: Rule)
    requires (r.AllowCommand? || r.DenyCommand? || r.AllowSub?) && Printable(r)
    ensures Parse(Show(r)) == r
  {
    hide ParseWord, IndexOf, ParseAllow;
    var op := Show(r);
    assert op[1] == r.name[0];
    assert Lower(op)[1] == LowerChar(op[1]) != '@';
    ParseNoWord(op);
    var rest := op[1..];
    if r.AllowSub? {
      assert rest == r.name + "|" + r.sub;
      AllowSubParses(r.name, r.sub);
    } else {
      assert rest == r.name;
      AllowParses(r.name);
    }
  }

  lemma AllowSubParses(name: string, sub: string)
    requires '|' !in name
    ensures ParseAllow(name + "|" + sub) == AllowSub(name, sub)
  {
    hide IndexOf;
    var rest := name + "|" + sub;
    assert rest[|name|] == '|' && forall k | 0 <= k < |name| :: rest[k] == name[k];
    assert IndexOf(rest, '|') == |name|;
    assert rest[..|name|] == name && rest[|name| + 1..] == sub;
  }

  lemma AllowParses(name: string)
    requires '|' !in name
    ensures ParseAllow(name) == AllowCommand(name)
  {
    hide IndexOf;
  }

  /** Every rule a description prints is read back as itself. */
  lemma ShowParses(r: Rule)
    requires Printable(r)
    ensures Parse(Show(r)) == r && Show(r) != ""
  {
    hide Parse, HasSpaces, IsHash, NameOk;
    match r {
      case AddHash(_) => PrefixParses(r);
      case KeyPattern(_) => PrefixParses(r);
      case ChannelPattern(_) => PrefixParses(r);
      case AllowCategory(_) => CategoryParses(r);
      case DenyCategory(_) => CategoryParses(r);
      case AllowCommand(_) => CommandParses(r);
      case DenyCommand(_) => CommandParses(r);
      case AllowSub(_, _) => CommandParses(r);
      case _ => WordsParse(r);
    }
  }

  // ----- lines -----

  /** sdssplitlen with a space: consecutive separators give empty pieces. */
  function Split(s: string): (r: seq<string>)
    ensures r != [] && forall k | 0 <= k < |r| :: ' ' !in r[k]
    decreases |s|
  {
    var i := IndexOf(s, ' ');
    if i == |s| then assert s[..i] == s; [s] else [s[..i]] + Split(s[i + 1..])
  }

  function TrimLeft(s: string, cut: set<char>): (r: string)
    ensures (r == "" || r[0] !in cut) && forall c | c in r :: c in s
    ensures s == "" || s[0] !in cut ==> r == s
  {
    if s != "" && s[0] in cut then TrimLeft(s[1..], cut) else s
  }

  function TrimRight(s: string, cut: set<char>): (r: string)
    ensures r <= s && (r == "" || r[|r| - 1] !in cut)
    ensures s == "" || s[|s| - 1] !in cut ==> r == s
  {
    if s != "" && s[|s| - 1] in cut then TrimRight(s[..|s| - 1], cut) else s
  }

  /** sdstrim */
  function Trim(s: string, cut: set<char>): string {
    TrimRight(TrimLeft(s, cut), cut)
  }

  const BLANKS := {' ', '\t', '\r', '\n'}
  const LINE_ENDS := {'\t', '\r', '\n'}

  /** Every piece trimmed. */
  function TrimAll(ts: seq<string>): (r: seq<string>)
    ensures |r| == |ts| && forall k | 0 <= k < |ts| :: r[k] == Trim(ts[k], LINE_ENDS)
  {
    seq(|ts|, k requires 0 <= k < |ts| => Trim(ts[k], LINE_ENDS))
  }

  /** ACLSaveToFile: the line of one user. */
  function SaveLine(name: string, rules: seq<Rule>): string {
    Join(["user", name] + Shown(rules)) + "\n"
  }

  /** ACLLoadFromFile: the pieces of the first line of a text, of which those after the name are rules. */
  function LoadLine(text: string): seq<string> {
    TrimAll(Split(Trim(text[..IndexOf(text, '\n')], BLANKS)))
  }

  function Shown(rules: seq<Rule>): (r: seq<string>)
    ensures |r| == |rules| && forall k | 0 <= k < |rules| :: r[k] == Show(rules[k])
  {
    seq(|rules|, k requires 0 <= k < |rules| => Show(rules[k]))
  }

  function Join(ts: seq<string>): string
    requires ts != []
  {
    if |ts| == 1 then ts[0] else ts[0] + " " + Join(ts[1..])
  }

  /** A piece that goes through a line of a file unharmed. */
  predicate Clean(s: string) {
    ' ' !in s && '\n' !in s && (s == "" || (s[0] !in LINE_ENDS && s[|s| - 1] !in LINE_ENDS))
  }

  lemma {:induction false} SplitJoin(ts: seq<string>)
    requires ts != [] && forall k | 0 <= k < |ts| :: ' ' !in ts[k]
    ensures Split(Join(ts)) == ts
  {
    if |ts| == 1 {
      assert IndexOf(ts[0], ' ') == |ts[0]|;
    } else {
      var s, rest := Join(ts), Join(ts[1..]);
      assert s == ts[0] + " " + rest;
      assert s[|ts[0]|] == ' ' && s[..|ts[0]|] == ts[0] && s[|ts[0]| + 1..] == rest;
      assert IndexOf(s, ' ') == |ts[0]| by {
        assert forall k | 0 <= k < |ts[0]| :: s[k] == ts[0][k];
      }
      SplitJoin(ts[1..]);
    }
  }

  /** What is loaded is always clean: nothing else can come back from a file. */
  lemma LoadedIsClean(text: string)
    ensures forall k | 0 <= k < |LoadLine(text)| :: Clean(LoadLine(text)[k])
  {
    var line := Trim(text[..IndexOf(text, '\n')], BLANKS);
    assert '\n' !in line;
    SplitOf(line, '\n');
    forall k | 0 <= k < |LoadLine(text)|
      ensures Clean(LoadLine(text)[k])
    {
      TrimKeeps(Split(line)[k], LINE_ENDS);
    }
  }

  lemma TrimKeeps(s: string, cut: set<char>)
    ensures var r := Trim(s, cut); (forall c | c in r :: c in s) && (r == "" || (r[0] !in cut && r[|r| - 1] !in cut))
  {
    var l := TrimLeft(s, cut);
    var r := TrimRight(l, cut);
    assert forall i | 0 <= i < |r| :: r[i] == l[i];
  }

  lemma {:induction false} SplitOf(s: string, c: char)
    requires c !in s
    ensures forall k | 0 <= k < |Split(s)| :: c !in Split(s)[k]
    decreases |s|
  {
    var i := IndexOf(s, ' ');
    if i < |s| {
      SplitOf(s[i + 1..], c);
    }
  }

  lemma {:induction false} JoinEnds(ts: seq<string>)
    requires ts != [] && forall k | 0 <= k < |ts| :: Clean(ts[k])
    ensures '\n' !in Join(ts)
    ensures ts[|ts| - 1] != "" ==> Join(ts) != "" && Join(ts)[|Join(ts)| - 1] == ts[|ts| - 1][|ts[|ts| - 1]| - 1]
    ensures ts[0] != "" ==> Join(ts) != "" && Join(ts)[0] == ts[0][0]
  {
    if |ts| > 1 {
      JoinEnds(ts[1..]);
    }
  }

  /** A line comes back as the pieces it was made of, if and only if all of them are clean. The first and the last are
      not empty: they are the word 'user' and a rule. */
  lemma LineRoundTrip(ts: seq<string>)
    requires ts != [] && ts[0] != "" && ts[|ts| - 1] != ""
    ensures LoadLine(Join(ts) + "\n") == ts <==> forall k | 0 <= k < |ts| :: Clean(ts[k])
  {
    hide Clean, Join, Trim, Split, IndexOf, TrimAll;
    var text := Join(ts) + "\n";
    LoadedIsClean(text);
    if forall k | 0 <= k < |ts| :: Clean(ts[k]) {
      JoinEnds(ts);
      FirstLine(Join(ts));
      TrimmedLine(ts);
      assert forall k | 0 <= k < |ts| :: ' ' !in ts[k] by {
        CleanPieces(ts);
      }
      SplitJoin(ts);
      CleanPieces(ts);
    }
  }

  lemma FirstLine(line: string)
    requires '\n' !in line
    ensures (line + "\n")[..IndexOf(line + "\n", '\n')] == line
  {
    var text := line + "\n";
    assert text[|line|] == '\n' && text[..|line|] == line;
    assert IndexOf(text, '\n') == |line|;
  }

  lemma TrimmedLine(ts: seq<string>)
    requires ts != [] && ts[0] != "" && ts[|ts| - 1] != "" && forall k | 0 <= k < |ts| :: Clean(ts[k])
    ensures Trim(Join(ts), BLANKS) == Join(ts)
  {
    hide Join, Trim, Clean;
    JoinEnds(ts);
    CleanEnds(ts[0]);
    CleanEnds(ts[|ts| - 1]);
    TrimNothing(Join(ts), BLANKS);
  }

  lemma CleanEnds(s: string)
    requires Clean(s) && s != ""
    ensures s[0] !in BLANKS && s[|s| - 1] !in BLANKS
  {
    assert s[0] in s && s[|s| - 1] in s;
  }

  lemma TrimNothing(s: string, cut: set<char>)
    requires s != "" && s[0] !in cut && s[|s| - 1] !in cut
    ensures Trim(s, cut) == s
  {
  }

  lemma CleanPieces(ts: seq<string>)
    requires forall k | 0 <= k < |ts| :: Clean(ts[k])
    ensures (forall k | 0 <= k < |ts| :: ' ' !in ts[k]) && TrimAll(ts) == ts
  {
    forall k | 0 <= k < |ts|
      ensures ' ' !in ts[k] && Trim(ts[k], LINE_ENDS) == ts[k]
    {
      assert Clean(ts[k]);
    }
  }
}
