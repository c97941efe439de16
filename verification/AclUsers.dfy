/**
 ACL files with many users: how a file is loaded line by line, all or nothing,
 and that a saved file gives every user back exactly when all are clean.
 */
module AclUsers {
  import opened AclUser
  import opened AclInvariant
  import opened AclText
  import opened AclDescribe
  import opened AclUserRules
  import opened AclAlike
  import opened AclFile

  type Users = map<string, User>

  // ----- loading -----

  /** sdssplitlen with a line feed. */
  function Lines(text: string): (r: seq<string>)
    ensures r != [] && forall k | 0 <= k < |r| :: '\n' !in r[k]
    decreases |text|
  {
    var i := IndexOf(text, '\n');
    if i == |text| then assert text[..i] == text; [text] else [text[..i]] + Lines(text[i + 1..])
  }

  /** The users read so far, and whether there was an error. */
  datatype Loading = Loading(users: Users, errors: bool)

  /** One line: the rules are tried on a fake user first, and applied to a user that is new or reset. */
  function LoadOne(sv: Server, st: Loading, line: string): Loading {
    var argv := Split(Trim(line, BLANKS));
    if Trim(line, BLANKS) == "" then st
    else if |argv| < 2 || argv[0] != "user" || HasSpaces(argv[1]) then st.(errors := true)
    else
      var rules := LineRules(TrimAll(argv));
      if SetAll(ResetUser(Fresh(sv), sv), sv, rules).Err? || st.errors then st.(errors := true)
      else
        match SetAll(Base(sv, st.users, argv[1]), sv, rules)
        case Ok(u) => st.(users := st.users[argv[1] := u])
        case Err(_) => st.(errors := true)
  }

  /** The user the rules of a line are applied to. */
  function Base(sv: Server, users: Users, name: string): User {
    if name in users then ResetUser(users[name], sv) else Fresh(sv)
  }

  function LoadLines(sv: Server, st: Loading, lines: seq<string>): Loading
    decreases |lines|
  {
    if lines == [] then st else LoadLines(sv, LoadOne(sv, st, lines[0]), lines[1..])
  }

  /** ACLInitDefaultUser */
  function DefaultUser(sv: Server): User {
    SetAllCommands(Fresh(sv), true).(allkeys := true, allchannels := true, enabled := true, disabled := false, nopass := true)
  }

  datatype LoadResult = Loaded(users: Users) | Refused

  /** ACLLoadFromFile: nothing changes if there is an error in any line. */
  function LoadFile(sv: Server, text: string): LoadResult {
    var st := LoadLines(sv, Loading(map["default" := DefaultUser(sv)], false), Lines(text));
    if st.errors then Refused else Loaded(st.users)
  }

  // ----- the assertion of the loader -----

  /** Every user has a whole bitmap. */
  ghost predicate Whole(users: Users) {
    forall name | name in users :: |users[name].bits| == BITS
  }

  lemma BaseAlike(sv: Server, users: Users, name: string)
    requires Whole(users)
    ensures Alike(ResetUser(Fresh(sv), sv), Base(sv, users, name))
  {
    if name in users {
      assert ResetUser(users[name], sv) == ResetUser(Fresh(sv), sv);
    } else {
      assert ResetUser(Fresh(sv), sv).bits == Fresh(sv).bits;
    }
  }

  /** The rules that succeeded on the fake user succeed on the real one: the assertion of the loader holds. */
  lemma RulesApply(sv: Server, users: Users, name: string, rules: seq<Rule>)
    requires Whole(users) && SetAll(ResetUser(Fresh(sv), sv), sv, rules).Ok?
    ensures SetAll(Base(sv, users, name), sv, rules).Ok?
  {
    hide SetAll, ResetUser, Base, Alike;
    BaseAlike(sv, users, name);
    AlikeRules(ResetUser(Fresh(sv), sv), Base(sv, users, name), sv, rules);
  }

  // ----- what a loaded file can hold -----

  /** No user has a subcommand that is not clean. */
  ghost predicate AllClean(users: Users) {
    forall name, sub | name in users && HasSubcommand(users[name], sub) :: CleanSub(sub)
  }

  lemma BaseIsEmpty(sv: Server, users: Users, name: string)
    requires Whole(users)
    ensures Base(sv, users, name).subs == map[] && |Base(sv, users, name).bits| == BITS
  {
  }

  /** The pieces of a line are clean. */
  lemma PiecesAreClean(line: string)
    requires '\n' !in line
    ensures forall k | 0 <= k < |Split(Trim(line, BLANKS))| :: Clean(TrimAll(Split(Trim(line, BLANKS)))[k])
  {
    hide Clean, Split, Trim, IndexOf;
    LoadedIsClean(line);
    assert IndexOf(line, '\n') == |line| && line[..|line|] == line;
    assert LoadLine(line) == TrimAll(Split(Trim(line, BLANKS)));
  }

  lemma RulesAreClean(argv: seq<string>)
    requires forall k | 0 <= k < |argv| :: Clean(argv[k])
    ensures CleanRules(LineRules(argv))
  {
    hide Clean, CleanSub, Parse;
    forall i | 0 <= i < |LineRules(argv)| && LineRules(argv)[i].AllowSub?
      ensures CleanSub(LineRules(argv)[i].sub)
    {
      ParsedClean(argv[i + 2]);
    }
  }

  /** Clean rules on a user without subcommands. */
  lemma MadeClean(sv: Server, b: User, rules: seq<Rule>, sub: string)
    requires SetAll(b, sv, rules).Ok? && CleanRules(rules) && b.subs == map[]
    requires HasSubcommand(SetAll(b, sv, rules).user, sub)
    ensures CleanSub(sub)
  {
    hide SetAll, CleanSub;
    SubsCome(sv, b, rules, sub);
  }

  /** What every line keeps. */
  ghost predicate LoadOk(st: Loading) {
    Whole(st.users) && AllClean(st.users)
  }

  lemma LoadOneOk(sv: Server, st: Loading, line: string)
    requires LoadOk(st) && '\n' !in line
    ensures LoadOk(LoadOne(sv, st, line))
  {
    hide SetAll, LineRules, TrimAll, Split, Trim, Base, ResetUser, HasSubcommand, CleanSub, CleanRules, Clean;
    var argv := Split(Trim(line, BLANKS));
    if LoadOne(sv, st, line).users != st.users {
      var rules, b := LineRules(TrimAll(argv)), Base(sv, st.users, argv[1]);
      BaseIsEmpty(sv, st.users, argv[1]);
      RulesKeepLength(b, sv, rules);
      PiecesAreClean(line);
      RulesAreClean(TrimAll(argv));
      forall sub | HasSubcommand(SetAll(b, sv, rules).user, sub)
        ensures CleanSub(sub)
      {
        MadeClean(sv, b, rules, sub);
      }
    }
  }

  lemma {:induction false} LoadLinesOk(sv: Server, st: Loading, lines: seq<string>)
    requires LoadOk(st) && forall k | 0 <= k < |lines| :: '\n' !in lines[k]
    ensures LoadOk(LoadLines(sv, st, lines))
    decreases |lines|
  {
    hide LoadOne, LoadOk;
    if lines != [] {
      LoadOneOk(sv, st, lines[0]);
      LoadLinesOk(sv, LoadOne(sv, st, lines[0]), lines[1..]);
    }
  }

  // ----- saving -----

  /** A user to be saved, and the rules that describe it. */
  datatype Entry = Entry(name: string, user: User, rules: seq<Rule>)

  ghost predicate EntryOk(sv: Server, e: Entry) {
    && !HasSpaces(e.name) && UserOk(e.user, sv.table)
    && Describes(sv, e.rules, e.user) && Says(e.rules, e.user) && e.rules != []
  }

  /** ACLSaveToFile */
  function FileText(es: seq<Entry>): string {
    if es == [] then "" else SaveLine(es[0].name, es[0].rules) + FileText(es[1..])
  }

  /** What comes back: the flag for all commands follows the bits; a user that was there is reset first, which sets the flag
      to sanitize payloads. */
  ghost function Restored(u: User, existed: bool): User {
    u.(allcommands := AllBits(u.bits), sanitize := if existed then !u.skipSanitize else u.sanitize)
  }

  ghost function Merged(users: Users, es: seq<Entry>): Users
    decreases |es|
  {
    if es == [] then users
    else Merged(users[es[0].name := Restored(es[0].user, es[0].name in users)], es[1..])
  }

  ghost predicate CleanUser(u: User) {
    forall sub | HasSubcommand(u, sub) :: CleanSub(sub)
  }

  lemma RulesOfClean(e: Entry)
    requires Says(e.rules, e.user) && CleanUser(e.user)
    ensures CleanRules(e.rules)
  {
    hide HasSubcommand, CleanSub, Printable;
  }

  /** The line of a clean user is one line, and its pieces are those it was made of. */
  lemma CleanLine(sv: Server, e: Entry)
    requires EntryOk(sv, e) && CleanUser(e.user)
    ensures var ts := ["user", e.name] + Shown(e.rules);
      '\n' !in Join(ts) && Join(ts) != "" && Trim(Join(ts), BLANKS) == Join(ts) && Split(Join(ts)) == ts && TrimAll(ts) == ts
  {
    hide Clean, CleanSub, HasSpaces, Says, UserOk, Describes, Split, Trim, Join, Shown, TrimAll, CleanRules, CleanUser, Printable;
    var ts := ["user", e.name] + Shown(e.rules);
    RulesOfClean(e);
    PiecesClean(e.name, e.rules, e.user);
    SaysAt(e.rules, e.user, |e.rules| - 1);
    ShowParses(e.rules[|e.rules| - 1]);
    assert ts[|ts| - 1] == Show(e.rules[|e.rules| - 1]);
    JoinEnds(ts);
    TrimmedLine(ts);
    CleanPieces(ts);
    SplitJoin(ts);
  }

  lemma ResetIsBlank(sv: Server, users: Users, name: string)
    requires Whole(users)
    ensures Blank(Base(sv, users, name)) && Base(sv, users, name).sanitize == (name in users)
    ensures Blank(ResetUser(Fresh(sv), sv))
  {
  }

  lemma DescribedIs(u: User, b: User, existed: bool)
    requires FlagsOk(u) && b.sanitize == existed
    ensures Described(u, b) == Restored(u, existed)
  {
    hide AllBits;
  }

  /** The line of a clean user restores it, whether it is new or was there. */
  lemma LineLoads(sv: Server, st: Loading, e: Entry)
    requires EntryOk(sv, e) && CleanUser(e.user) && Whole(st.users) && !st.errors
    ensures LoadOne(sv, st, Join(["user", e.name] + Shown(e.rules)))
         == Loading(st.users[e.name := Restored(e.user, e.name in st.users)], false)
  {
    hide Trim, Split, TrimAll, Join, SetAll, LineRules, Base, ResetUser, Says, ListsOk, CommandsOk, HasSpaces, CleanUser, Blank;
    hide Described, Restored, FlagsOk;
    var ts, b := ["user", e.name] + Shown(e.rules), Base(sv, st.users, e.name);
    CleanLine(sv, e);
    ParsedPieces(e.name, e.rules, e.user);
    ResetIsBlank(sv, st.users, e.name);
    assert SetAll(b, sv, e.rules) == Ok(Described(e.user, b));
    assert SetAll(ResetUser(Fresh(sv), sv), sv, e.rules).Ok?;
    DescribedIs(e.user, b, e.name in st.users);
  }

  lemma FirstLineOf(line: string, rest: string)
    requires '\n' !in line
    ensures Lines(line + "\n" + rest) == [line] + Lines(rest)
  {
    var text := line + "\n" + rest;
    assert text[|line|] == '\n' && text[..|line|] == line && text[|line| + 1..] == rest;
    assert IndexOf(text, '\n') == |line| by {
      assert forall k | 0 <= k < |line| :: text[k] == line[k];
    }
  }

  lemma RestoredWhole(users: Users, e: Entry)
    requires Whole(users) && |e.user.bits| == BITS
    ensures Whole(users[e.name := Restored(e.user, e.name in users)])
  {
    hide AllBits;
  }

  lemma LoadNothing(sv: Server, st: Loading)
    ensures LoadLines(sv, st, Lines("")) == st
  {
    assert Lines("") == [""];
    assert Trim("", BLANKS) == "";
    assert LoadOne(sv, st, "") == st;
    assert LoadLines(sv, st, [""]) == LoadLines(sv, st, []);
  }

  /** A file of clean users restores them all. */
  lemma {:induction false} CleanFileLoads(sv: Server, st: Loading, es: seq<Entry>)
    requires Whole(st.users) && !st.errors
    requires forall i | 0 <= i < |es| :: EntryOk(sv, es[i]) && CleanUser(es[i].user)
    ensures LoadLines(sv, st, Lines(FileText(es))) == Loading(Merged(st.users, es), false)
    decreases |es|
  {
    hide LoadOne, EntryOk, CleanUser, Lines, Restored, SaveLine;
    if es == [] {
      LoadNothing(sv, st);
    } else {
      var e := es[0];
      var line, users := Join(["user", e.name] + Shown(e.rules)), st.users[e.name := Restored(e.user, e.name in st.users)];
      LineLoads(sv, st, e);
      LineIs(sv, e);
      RestoredWhole(st.users, e);
      assert FileText(es) == line + "\n" + FileText(es[1..]);
      FirstLineOf(line, FileText(es[1..]));
      assert LoadLines(sv, st, [line] + Lines(FileText(es[1..])))
          == LoadLines(sv, LoadOne(sv, st, line), Lines(FileText(es[1..])));
      CleanFileLoads(sv, Loading(users, false), es[1..]);
    }
  }

  lemma LineIs(sv: Server, e: Entry)
    requires EntryOk(sv, e) && CleanUser(e.user)
    ensures SaveLine(e.name, e.rules) == Join(["user", e.name] + Shown(e.rules)) + "\n"
    ensures '\n' !in Join(["user", e.name] + Shown(e.rules)) && |e.user.bits| == BITS
  {
    hide Describes, Says, Join, ListsOk, FlagsOk, CleanUser, HasSpaces;
    CleanLine(sv, e);
  }

  ghost predicate DistinctNames(es: seq<Entry>) {
    forall i, j | 0 <= i < j < |es| :: es[i].name != es[j].name
  }

  lemma {:induction false} MergedElse(users: Users, es: seq<Entry>, name: string)
    requires forall i | 0 <= i < |es| :: es[i].name != name
    ensures name in Merged(users, es) <==> name in users
    ensures name in users ==> Merged(users, es)[name] == users[name]
    decreases |es|
  {
    hide Restored;
    if es != [] {
      MergedElse(users[es[0].name := Restored(es[0].user, es[0].name in users)], es[1..], name);
    }
  }

  /** Every user saved is in the result. */
  lemma {:induction false} MergedHas(users: Users, es: seq<Entry>, i: nat)
    requires DistinctNames(es) && i < |es|
    ensures es[i].name in Merged(users, es) && Merged(users, es)[es[i].name] == Restored(es[i].user, es[i].name in users)
    decreases |es|
  {
    hide Restored;
    var users' := users[es[0].name := Restored(es[0].user, es[0].name in users)];
    if i == 0 {
      MergedElse(users', es[1..], es[0].name);
    } else {
      MergedHas(users', es[1..], i - 1);
    }
  }

  lemma DefaultIsOk(sv: Server)
    ensures LoadOk(Loading(map["default" := DefaultUser(sv)], false))
  {
  }

  /** What a file is loaded as has clean subcommands only. */
  lemma LoadedFileIsClean(sv: Server, text: string)
    ensures LoadFile(sv, text).Loaded? ==> AllClean(LoadFile(sv, text).users)
  {
    hide LoadLines, Lines, AllClean, DefaultUser, Whole;
    DefaultIsOk(sv);
    LoadLinesOk(sv, Loading(map["default" := DefaultUser(sv)], false), Lines(text));
  }

  /** A saved file gives every user back if and only if all of them are clean. */
  lemma FileRoundTrip(sv: Server, es: seq<Entry>)
    requires DistinctNames(es) && forall i | 0 <= i < |es| :: EntryOk(sv, es[i])
    ensures LoadFile(sv, FileText(es)) == Loaded(Merged(map["default" := DefaultUser(sv)], es))
            <==> forall i | 0 <= i < |es| :: CleanUser(es[i].user)
  {
    hide LoadLines, Lines, EntryOk, DefaultUser, FileText, Merged, CleanSub;
    var users := map["default" := DefaultUser(sv)];
    if forall i | 0 <= i < |es| :: CleanUser(es[i].user) {
      DefaultIsOk(sv);
      CleanFileLoads(sv, Loading(users, false), es);
    } else if LoadFile(sv, FileText(es)) == Loaded(Merged(users, es)) {
      LoadedFileIsClean(sv, FileText(es));
      var i :| 0 <= i < |es| && !CleanUser(es[i].user);
      MergedHas(users, es, i);
    }
  }

  /** Each user by itself, if all are clean: it comes back as it was but for the flag for all commands, and for the default
      user the flag to sanitize payloads. */
  lemma EachUserComesBack(sv: Server, es: seq<Entry>, i: nat)
    requires DistinctNames(es) && i < |es| && forall j | 0 <= j < |es| :: EntryOk(sv, es[j]) && CleanUser(es[j].user)
    ensures var r := LoadFile(sv, FileText(es));
      r.Loaded? && es[i].name in r.users && r.users[es[i].name] == Restored(es[i].user, es[i].name == "default")
  {
    hide LoadFile, EntryOk, CleanUser, FileText, Merged, Restored, DefaultUser;
    FileRoundTrip(sv, es);
    MergedHas(map["default" := DefaultUser(sv)], es, i);
  }

  lemma {:induction false} FileTextSnoc(es: seq<Entry>, e: Entry)
    ensures FileText(es + [e]) == FileText(es) + SaveLine(e.name, e.rules)
  {
    hide SaveLine;
    if es == [] {
      assert FileText([e][1..]) == "";
    } else {
      assert (es + [e])[1..] == es[1..] + [e];
      FileTextSnoc(es[1..], e);
    }
  }

  /** The users of a server by name, in the order they are saved in. */
  ghost function Expected(sv: Server, users: seq<(string, User)>): Users {
    Merged(map["default" := DefaultUser(sv)], seq(|users|, i requires 0 <= i < |users| => Entry(users[i].0, users[i].1, [])))
  }

  lemma {:induction false} MergedByName(users: Users, es: seq<Entry>, fs: seq<Entry>)
    requires |es| == |fs| && forall i | 0 <= i < |es| :: es[i].name == fs[i].name && es[i].user == fs[i].user
    ensures Merged(users, es) == Merged(users, fs)
    decreases |es|
  {
    hide Restored;
    if es != [] {
      MergedByName(users[es[0].name := Restored(es[0].user, es[0].name in users)], es[1..], fs[1..]);
    }
  }

  /** ACLSaveToFile, and what loading the file gives. */
  method SaveFile(sv: Server, users: seq<(string, User)>) returns (text: string)
    requires ServerOk(sv) && forall i | 0 <= i < |users| :: !HasSpaces(users[i].0) && UserOk(users[i].1, sv.table)
    requires forall i, j | 0 <= i < j < |users| :: users[i].0 != users[j].0
    ensures LoadFile(sv, text) == Loaded(Expected(sv, users)) <==> forall i | 0 <= i < |users| :: CleanUser(users[i].1)
  {
    hide UserOk, HasSpaces, Describes, Says, SaveLine, FileText, CleanUser, Merged, LoadFile;
    text := "";
    ghost var es: seq<Entry> := [];
    NoText();
    for i := 0 to |users|
      invariant |es| == i && text == FileText(es)
      invariant forall j | 0 <= j < i :: es[j].name == users[j].0 && es[j].user == users[j].1 && EntryOk(sv, es[j])
    {
      var rules := DescribeUser(users[i].1, sv);
      ghost var e := Entry(users[i].0, users[i].1, rules);
      FileTextSnoc(es, e);
      text := text + SaveLine(users[i].0, rules);
      es := es + [e];
    }
    FileRoundTrip(sv, es);
    MergedByName(map["default" := DefaultUser(sv)], es,
                 seq(|users|, i requires 0 <= i < |users| => Entry(users[i].0, users[i].1, [])));
    assert forall i | 0 <= i < |users| :: CleanUser(users[i].1) <==> CleanUser(es[i].user);
  }

  lemma NoText()
    ensures FileText([]) == ""
  {
  }
}
