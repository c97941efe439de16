/**
 ACL files: what saving and loading a user keeps, and the verdicts on commands.
 */
module AclFile {
  import opened AclUser
  import opened AclInvariant
  import opened AclText
  import opened AclDescribe
  import opened AclUserRules

  // ----- verdicts -----

  /** The command part of ACLCheckCommandPerm. */
  predicate MayRun(u: User, id: nat, noAuth: bool, argv: seq<string>) {
    || u.allcommands
    || noAuth
    || (id < |u.bits| && u.bits[id])
    || (|argv| >= 2 && id in u.subs && HasSub(u.subs[id], argv[1]))
  }

  /** The loop that looks for the subcommand. */
  method CheckCommand(u: User, id: nat, noAuth: bool, argv: seq<string>) returns (allowed: bool)
    ensures allowed <==> MayRun(u, id, noAuth, argv)
  {
    if !u.allcommands && !noAuth {
      if id >= |u.bits| || !u.bits[id] {
        if |argv| < 2 || id !in u.subs {
          return false;
        }
        var subid := 0;
        while true
          invariant 0 <= subid <= |u.subs[id]|
          invariant forall k | 0 <= k < subid :: Lower(u.subs[id][k]) != Lower(argv[1])
          decreases |u.subs[id]| - subid
        {
          if subid == |u.subs[id]| {
            return false;
          }
          if Lower(argv[1]) == Lower(u.subs[id][subid]) {
            break;
          }
          subid := subid + 1;
        }
      }
    }
    return true;
  }

  /** Describing a user loses no verdict on any command with a bit of its own, and none at all unless the user had
      every bit without the flag: only then would commands beyond the bitmap become allowed. */
  lemma SameVerdicts(u: User, t: Table, id: nat)
    requires CommandsOk(u, t)
    ensures var v := u.(allcommands := AllBits(u.bits));
      (forall noAuth: bool, argv: seq<string> :: MayRun(v, id, noAuth, argv) == MayRun(u, id, noAuth, argv))
      <==> (id < BITS || u.allcommands == AllBits(u.bits))
  {
    var v := u.(allcommands := AllBits(u.bits));
    hide SubsOk;
    if !(id < BITS || u.allcommands == AllBits(u.bits)) {
      assert MayRun(v, id, false, []) && !MayRun(u, id, false, []);
    }
  }

  // ----- what text can reach -----

  lemma ParseExpressible(op: string)
    ensures Expressible(Parse(op))
  {
    hide IndexOf;
    if op != "" && (op[0] == '~' || op[0] == '&') && op[1..] == "*" {
      assert op == [op[0]] + "*";
      assert Lower(op) == op;
    }
  }

  function ParseAll(ops: seq<string>): (r: seq<Rule>)
    ensures |r| == |ops| && forall k | 0 <= k < |ops| :: r[k] == Parse(ops[k])
  {
    seq(|ops|, k requires 0 <= k < |ops| => Parse(ops[k]))
  }

  /** Every user reached from a fresh one by operations that succeed. */
  lemma TextReachableOk(sv: Server, ops: seq<string>)
    requires ServerOk(sv) && SetAll(Fresh(sv), sv, ParseAll(ops)).Ok?
    ensures UserOk(SetAll(Fresh(sv), sv, ParseAll(ops)).user, sv.table)
  {
    hide Parse, SetAll, UserOk, ServerOk;
    forall k | 0 <= k < |ops|
      ensures Expressible(ParseAll(ops)[k])
    {
      ParseExpressible(ops[k]);
    }
    ReachableOk(sv, ParseAll(ops));
  }

  // ----- files -----

  /** A subcommand that survives a line of a file: no space or line feed in it, no tab or carriage return at its end. */
  predicate CleanSub(sub: string) {
    ' ' !in sub && '\n' !in sub && (sub == "" || sub[|sub| - 1] !in LINE_ENDS)
  }

  lemma NoSpacesIsClean(s: string)
    requires !HasSpaces(s)
    ensures Clean(s)
  {
    assert forall i | 0 <= i < |s| :: s[i] !in {' ', '\t', '\n', '\r'};
  }

  /** A character before clean text. */
  lemma PrefixClean(p: string, s: string)
    requires p != "" && Clean(p)
    ensures Clean(p + s) <==> CleanSub(s)
  {
    var t := p + s;
    assert t[0] == p[0];
    assert forall i | 0 <= i < |p| :: t[i] == p[i];
    assert forall i | 0 <= i < |s| :: t[|p| + i] == s[i];
    if s == "" {
      assert t == p;
    }
  }

  lemma WordsClean(r: Rule)
    requires IsFlagWord(r) || IsWholeWord(r)
    ensures Clean(Show(r))
  {
    hide Show, Clean;
    if IsFlagWord(r) {
      FlagWordsPrint(r);
    } else {
      WholeWordsPrint(r);
    }
    PrintingClean(Show(r));
  }

  lemma FlagWordsPrint(r: Rule)
    requires IsFlagWord(r)
    ensures forall i | 0 <= i < |Show(r)| :: Show(r)[i] > ' '
  {
  }

  lemma WholeWordsPrint(r: Rule)
    requires IsWholeWord(r)
    ensures forall i | 0 <= i < |Show(r)| :: Show(r)[i] > ' '
  {
  }

  lemma PrintingClean(s: string)
    requires forall i | 0 <= i < |s| :: s[i] > ' '
    ensures Clean(s)
  {
  }

  lemma CategoryLetters(c: nat)
    requires c < |CATEGORIES|
    ensures forall i | 0 <= i < |CATEGORIES[c]| :: 'a' <= CATEGORIES[c][i]
  {
  }

  lemma LettersClean(s: string)
    requires forall i | 0 <= i < |s| :: 'a' <= s[i]
    ensures Clean(s)
  {
  }

  lemma HashClean(h: string)
    requires IsHash(h)
    ensures Clean(h)
  {
  }

  /** Every printed rule is clean, but for subcommands. */
  lemma ShownClean(r: Rule)
    requires Printable(r)
    ensures Clean(Show(r)) <==> (r.AllowSub? ==> CleanSub(r.sub))
  {
    hide Clean, HasSpaces, IsHash, CATEGORIES, Lower;
    match r {
      case AddHash(h) =>
        HashClean(h);
        ShownAfter("#", h);
      case KeyPattern(p) =>
        NoSpacesIsClean(p);
        ShownAfter("~", p);
      case ChannelPattern(p) =>
        NoSpacesIsClean(p);
        ShownAfter("&", p);
      case AllowCategory(c) =>
        CategoryClean(c);
        ShownAfter("+@", c);
      case DenyCategory(c) =>
        CategoryClean(c);
        ShownAfter("-@", c);
      case AllowCommand(name) =>
        NoSpacesIsClean(name);
        ShownAfter("+", name);
      case DenyCommand(name) =>
        NoSpacesIsClean(name);
        ShownAfter("-", name);
      case AllowSub(name, sub) =>
        NoSpacesIsClean(name);
        ShownAfter("+", name);
        BarClean("+" + name);
        PrefixClean("+" + name + "|", sub);
      case _ => WordsClean(r);
    }
  }

  lemma CategoryClean(c: string)
    requires c in CATEGORIES
    ensures Clean(c)
  {
    var i :| 0 <= i < |CATEGORIES| && CATEGORIES[i] == c;
    CategoryLetters(i);
    LettersClean(c);
  }

  lemma ShownAfter(p: string, s: string)
    requires p in {"#", "~", "&", "+", "-", "+@", "-@"} && Clean(s)
    ensures Clean(p + s)
  {
    PrefixClean(p, s);
  }

  lemma BarClean(s: string)
    requires s != "" && Clean(s)
    ensures Clean(s + "|")
  {
    PrefixClean(s, "|");
  }

  /** The rules of a loaded line: what comes after the word 'user' and the name. */
  function LineRules(ts: seq<string>): (r: seq<Rule>)
    ensures |ts| >= 2 ==> |r| == |ts| - 2 && forall k | 0 <= k < |r| :: r[k] == Parse(ts[k + 2])
  {
    if |ts| < 2 then [] else seq(|ts| - 2, k requires 0 <= k < |ts| - 2 => Parse(ts[k + 2]))
  }

  /** All the subcommands named in rules are clean. */
  ghost predicate CleanRules(rules: seq<Rule>) {
    forall i | 0 <= i < |rules| && rules[i].AllowSub? :: CleanSub(rules[i].sub)
  }

  lemma PieceClean(name: string, rules: seq<Rule>, u: User, k: nat)
    requires !HasSpaces(name) && Says(rules, u) && k < |rules| + 2
    ensures var ts := ["user", name] + Shown(rules);
      Clean(ts[k]) <==> (k >= 2 && rules[k - 2].AllowSub? ==> CleanSub(rules[k - 2].sub))
  {
    hide *;
    var ts := ["user", name] + Shown(rules);
    if k == 0 {
      WordUserClean();
    } else if k == 1 {
      NoSpacesIsClean(name);
    } else {
      assert ts[k] == Show(rules[k - 2]);
      SaysAt(rules, u, k - 2);
      ShownClean(rules[k - 2]);
    }
  }

  lemma WordUserClean()
    ensures Clean("user")
  {
  }

  lemma SaysAt(rules: seq<Rule>, u: User, i: nat)
    requires Says(rules, u) && i < |rules|
    ensures Printable(rules[i])
  {
  }

  lemma PiecesClean(name: string, rules: seq<Rule>, u: User)
    requires !HasSpaces(name) && Says(rules, u)
    ensures var ts := ["user", name] + Shown(rules);
      CleanRules(rules) <==> forall k | 0 <= k < |ts| :: Clean(ts[k])
  {
    hide Clean, CleanSub, HasSpaces, Says, Shown;
    var ts := ["user", name] + Shown(rules);
    forall k | 0 <= k < |ts|
      ensures Clean(ts[k]) <==> (k >= 2 && rules[k - 2].AllowSub? ==> CleanSub(rules[k - 2].sub))
    {
      PieceClean(name, rules, u, k);
    }
    if !CleanRules(rules) {
      var i :| 0 <= i < |rules| && rules[i].AllowSub? && !CleanSub(rules[i].sub);
      assert !Clean(ts[i + 2]);
    }
  }

  /** The pieces of a saved line come back as they were if and only if the subcommands are clean. */
  lemma SavedPieces(name: string, rules: seq<Rule>, u: User)
    requires !HasSpaces(name) && Says(rules, u) && rules != []
    ensures LoadLine(SaveLine(name, rules)) == ["user", name] + Shown(rules) <==> CleanRules(rules)
  {
    hide Clean, CleanRules, HasSpaces, LoadLine, Join, Parse, Show, Printable;
    var ts := ["user", name] + Shown(rules);
    PiecesClean(name, rules, u);
    ShowParses(rules[|rules| - 1]);
    LineRoundTrip(ts);
  }

  lemma ParsedPieces(name: string, rules: seq<Rule>, u: User)
    requires Says(rules, u)
    ensures LineRules(["user", name] + Shown(rules)) == rules
  {
    hide Parse, Printable, Show;
    var r := LineRules(["user", name] + Shown(rules));
    forall k | 0 <= k < |rules|
      ensures r[k] == rules[k]
    {
      ShowParses(rules[k]);
    }
  }

  /** A subcommand read from a clean piece is clean. */
  lemma ParsedClean(t: string)
    requires Clean(t) && Parse(t).AllowSub?
    ensures CleanSub(Parse(t).sub)
  {
    hide ParseWord, Lower, Clean, CleanSub;
    assert ParseWord(Lower(t)) == Unknown by {
      ParsedWords(Lower(t));
    }
    var rest := t[1..];
    var i := IndexOf(rest, '|');
    assert Parse(t) == AllowSub(rest[..i], rest[i + 1..]);
    assert rest[i + 1..] == t[i + 2..];
    TailClean(t, i + 2);
  }

  lemma TailClean(t: string, k: nat)
    requires Clean(t) && k <= |t|
    ensures CleanSub(t[k..])
  {
    assert forall c | c in t[k..] :: c in t;
  }

  lemma ParsedWords(w: string)
    ensures !ParseWord(w).AllowSub?
  {
  }

  /** Subcommands come from rules that allow them. */
  lemma {:induction false} SubsCome(sv: Server, b: User, rules: seq<Rule>, sub: string)
    requires SetAll(b, sv, rules).Ok? && HasSubcommand(SetAll(b, sv, rules).user, sub) && !HasSubcommand(b, sub)
    ensures exists i | 0 <= i < |rules| :: rules[i].AllowSub? && rules[i].sub == sub
  {
    if rules != [] {
      var n := |rules| - 1;
      var v := SetAll(b, sv, rules[..n]).user;
      if HasSubcommand(v, sub) {
        hide SetUser;
        SubsCome(sv, b, rules[..n], sub);
        var i :| 0 <= i < n && rules[..n][i].AllowSub? && rules[..n][i].sub == sub;
        assert rules[i].AllowSub?;
      } else {
        SubComes(sv, v, rules[n], sub);
      }
    }
  }

  lemma SubComes(sv: Server, v: User, r: Rule, sub: string)
    requires SetUser(v, sv, r).Ok? && HasSubcommand(SetUser(v, sv, r).user, sub) && !HasSubcommand(v, sub)
    ensures r.AllowSub? && r.sub == sub
  {
    hide Find, FindCategory, Lower, HasSpaces, IsHash;
  }

  /** What is saved is restored if and only if every allowed subcommand is clean: the flag for all commands is then
      set exactly when all bits are, and everything else is as it was. */
  lemma SaveLoad(name: string, sv: Server, rules: seq<Rule>, u: User)
    requires !HasSpaces(name) && UserOk(u, sv.table)
    requires Describes(sv, rules, u) && Says(rules, u) && rules != []
    ensures SetAll(Fresh(sv), sv, LineRules(LoadLine(SaveLine(name, rules)))) == Ok(u.(allcommands := AllBits(u.bits)))
            <==> forall sub | HasSubcommand(u, sub) :: CleanSub(sub)
  {
    hide CleanSub, Describes, SetAll, UserOk, LoadLine, SaveLine, LineRules, AllBits, HasSpaces, Printable;
    var ts := LoadLine(SaveLine(name, rules));
    if forall sub | HasSubcommand(u, sub) :: CleanSub(sub) {
      SavedPieces(name, rules, u);
      ParsedPieces(name, rules, u);
      FreshOrReset(sv, rules, u, Fresh(sv));
    } else if SetAll(Fresh(sv), sv, LineRules(ts)) == Ok(u.(allcommands := AllBits(u.bits))) {
      var sub :| HasSubcommand(u, sub) && !CleanSub(sub);
      Unrestored(sv, SaveLine(name, rules), u, sub);
    }
  }

  lemma Unrestored(sv: Server, text: string, u: User, sub: string)
    requires HasSubcommand(u, sub) && !CleanSub(sub)
    ensures SetAll(Fresh(sv), sv, LineRules(LoadLine(text))) != Ok(u.(allcommands := AllBits(u.bits)))
  {
    hide CleanSub, SetAll, LoadLine, AllBits, Parse, Clean;
    var ts := LoadLine(text);
    if SetAll(Fresh(sv), sv, LineRules(ts)) == Ok(u.(allcommands := AllBits(u.bits))) {
      SubsCome(sv, Fresh(sv), LineRules(ts), sub);
      var i :| 0 <= i < |LineRules(ts)| && LineRules(ts)[i].AllowSub? && LineRules(ts)[i].sub == sub;
      LoadedIsClean(text);
      ParsedClean(ts[i + 2]);
    }
  }
}
