/**
 The whole way of a user: from the operations that made it to its description,
 to a line of an ACL file and back; and users that do not come back the same.
 */
module AclRoundTrip {
  import opened AclUser
  import opened AclInvariant
  import opened AclText
  import opened AclDescribe
  import opened AclUserRules
  import opened AclFile

  /** The user that operations make of a fresh one. */
  function Made(sv: Server, ops: seq<string>): Result {
    SetAll(Fresh(sv), sv, ParseAll(ops))
  }

  /** What is loaded from a line. */
  function Loaded(sv: Server, line: string): Result {
    SetAll(Fresh(sv), sv, LineRules(LoadLine(line)))
  }

  /** The two users get the same verdicts on a command. */
  ghost predicate Agree(u: User, v: User, id: nat) {
    forall noAuth: bool, argv: seq<string> :: MayRun(v, id, noAuth, argv) == MayRun(u, id, noAuth, argv)
  }

  /** For all operations that succeed: the line saved for the user restores it, with the flag for all commands set exactly
      when all bits are, if and only if every allowed subcommand is clean; and then a command gets the same verdict if and
      only if it has a bit of its own or the flag was set exactly when all bits are. */
  method SaveUser(name: string, sv: Server, ops: seq<string>) returns (line: string)
    requires ServerOk(sv) && !HasSpaces(name) && Made(sv, ops).Ok?
    ensures var u := Made(sv, ops).user;
      && (Loaded(sv, line) == Ok(u.(allcommands := AllBits(u.bits))) <==> forall sub | HasSubcommand(u, sub) :: CleanSub(sub))
      && ((forall sub | HasSubcommand(u, sub) :: CleanSub(sub)) ==>
            Loaded(sv, line).Ok? && forall id: nat ::
              Agree(u, Loaded(sv, line).user, id) <==> id < BITS || u.allcommands == AllBits(u.bits))
  {
    hide *;
    assert Made(sv, ops) == SetAll(Fresh(sv), sv, ParseAll(ops)) by { UnfoldMade(sv, ops); }
    TextReachableOk(sv, ops);
    var u := SetAll(Fresh(sv), sv, ParseAll(ops)).user;
    var rules := DescribeUser(u, sv);
    line := SaveLine(name, rules);
    SaveLoad(name, sv, rules, u);
    UnfoldLoaded(sv, line);
    forall id: nat
      ensures Agree(u, u.(allcommands := AllBits(u.bits)), id) <==> id < BITS || u.allcommands == AllBits(u.bits)
    {
      VerdictsAgree(u, sv.table, id);
    }
  }

  lemma UnfoldMade(sv: Server, ops: seq<string>)
    ensures Made(sv, ops) == SetAll(Fresh(sv), sv, ParseAll(ops))
  {
  }

  lemma UnfoldLoaded(sv: Server, line: string)
    ensures Loaded(sv, line) == SetAll(Fresh(sv), sv, LineRules(LoadLine(line)))
  {
  }

  lemma VerdictsAgree(u: User, t: Table, id: nat)
    requires UserOk(u, t)
    ensures Agree(u, u.(allcommands := AllBits(u.bits)), id) <==> id < BITS || u.allcommands == AllBits(u.bits)
  {
    hide AllBits, MayRun, FlagsOk, ListsOk, CommandsOk;
    SameVerdicts(u, t, id);
  }

  // ----- users that do not come back the same -----

  lemma ShownMakes(rules: seq<Rule>)
    requires forall i | 0 <= i < |rules| :: Printable(rules[i])
    ensures ParseAll(Shown(rules)) == rules
  {
    hide Parse, Printable, Show;
    forall i | 0 <= i < |rules|
      ensures ParseAll(Shown(rules))[i] == rules[i]
    {
      ShowParses(rules[i]);
    }
  }

  lemma FindFirst(sv: Server, k: nat)
    requires ServerOk(sv) && k < |sv.table|
    ensures Find(sv.table, sv.table[k].name) == k && NameOk(sv.table[k].name) && sv.table[k].id < FUTURE
  {
    var name := sv.table[k].name;
    assert Lower(name) == name;
  }

  lemma SetOne(u: User, sv: Server, k: nat, value: bool)
    requires ServerOk(sv) && k < |sv.table|
    ensures var name := sv.table[k].name;
      SetUser(u, sv, if value then AllowCommand(name) else DenyCommand(name)) == Ok(SetCommand(u, sv.table[k].id, value))
  {
    FindFirst(sv, k);
    hide Find, SetCommand, NameOk;
  }

  lemma SetThree(u: User, sv: Server, a: Rule, b: Rule, c: Rule, u1: User, u2: User, u3: User)
    requires SetUser(u, sv, a) == Ok(u1) && SetUser(u1, sv, b) == Ok(u2) && SetUser(u2, sv, c) == Ok(u3)
    ensures SetAll(u, sv, [a, b, c]) == Ok(u3)
  {
    hide SetUser;
    assert [a, b, c][..2] == [a, b] && [a, b][..1] == [a] && [a][..0] == [];
    assert SetAll(u, sv, [a]) == Ok(u1);
    assert SetAll(u, sv, [a, b]) == Ok(u2);
  }

  /** All commands, then one of them denied and allowed again. */
  function DenyAllow(name: string): seq<Rule> {
    [AllCommands, DenyCommand(name), AllowCommand(name)]
  }

  lemma AllButTheFlag(sv: Server, k: nat)
    requires ServerOk(sv) && k < |sv.table|
    ensures var r := SetAll(Fresh(sv), sv, DenyAllow(sv.table[k].name));
      r.Ok? && !r.user.allcommands && AllBits(r.user.bits) && |r.user.bits| == BITS
      && forall id: nat :: id !in r.user.subs
  {
    var name, id := sv.table[k].name, sv.table[k].id;
    var u1 := SetAllCommands(Fresh(sv), true);
    var u2 := SetCommand(u1, id, false);
    var u3 := SetCommand(u2, id, true);
    FindFirst(sv, k);
    SetOne(u1, sv, k, false);
    SetOne(u2, sv, k, true);
    SetThree(Fresh(sv), sv, AllCommands, DenyCommand(name), AllowCommand(name), u1, u2, u3);
  }

  /** On every server with a command there is a user made by +@all, -command and +command whose description allows a
      command beyond the bitmap that the user itself may not run. No command of the table has such an id; it stands for
      one that a module registers later. */
  lemma DescriptionAllowsMore(sv: Server, id: nat) returns (ops: seq<string>)
    requires ServerOk(sv) && sv.table != [] && id >= BITS
    ensures Made(sv, ops).Ok? && !MayRun(Made(sv, ops).user, id, false, [])
    ensures forall rules | Describes(sv, rules, Made(sv, ops).user) ::
      SetAll(Fresh(sv), sv, rules).Ok? && MayRun(SetAll(Fresh(sv), sv, rules).user, id, false, [])
  {
    var name := sv.table[0].name;
    var made := DenyAllow(name);
    FindFirst(sv, 0);
    PrintableThree(name);
    ShownMakes(made);
    ops := Shown(made);
    AllButTheFlag(sv, 0);
    TextReachableOk(sv, ops);
    hide SetAll, Parse, Shown, Describes, UserOk, ServerOk, NameOk, AllBits;
    var u := SetAll(Fresh(sv), sv, made).user;
    forall rules | Describes(sv, rules, u)
      ensures SetAll(Fresh(sv), sv, rules) == Ok(u.(allcommands := true))
    {
      FreshOrReset(sv, rules, u, u);
    }
  }

  lemma PrintableThree(name: string)
    requires NameOk(name)
    ensures forall i | 0 <= i < 3 :: Printable(DenyAllow(name)[i])
  {
  }

  /** On every server with a command there is a user with an allowed subcommand that has a space in it, and no line saved
      for that user restores it. */
  lemma SpaceIsNotRestored(sv: Server, name: string) returns (ops: seq<string>)
    requires ServerOk(sv) && sv.table != [] && !HasSpaces(name)
    ensures Made(sv, ops).Ok?
    ensures var u := Made(sv, ops).user;
      forall rules | Describes(sv, rules, u) && Says(rules, u) && rules != [] ::
        Loaded(sv, SaveLine(name, rules)) != Ok(u.(allcommands := AllBits(u.bits)))
  {
    var r := AllowSub(sv.table[0].name, "a b");
    FindFirst(sv, 0);
    ShownMakes([r]);
    ops := Shown([r]);
    OneSubcommand(sv);
    TextReachableOk(sv, ops);
    SpaceIsNotClean();
    hide SetAll, Parse, Shown, Describes, UserOk, ServerOk, NameOk, AllBits, Says, SaveLine, LoadLine, LineRules, CleanSub;
    var u := SetAll(Fresh(sv), sv, [r]).user;
    forall rules | Describes(sv, rules, u) && Says(rules, u) && rules != []
      ensures Loaded(sv, SaveLine(name, rules)) != Ok(u.(allcommands := AllBits(u.bits)))
    {
      SaveLoad(name, sv, rules, u);
    }
  }

  lemma SpaceIsNotClean()
    ensures !CleanSub("a b")
  {
    assert "a b"[1] == ' ';
  }

  lemma OneSubcommand(sv: Server)
    requires ServerOk(sv) && sv.table != []
    ensures var r := SetAll(Fresh(sv), sv, [AllowSub(sv.table[0].name, "a b")]); r.Ok? && HasSubcommand(r.user, "a b")
  {
    FindFirst(sv, 0);
    var rule, id := AllowSub(sv.table[0].name, "a b"), sv.table[0].id;
    hide Find, NameOk;
    var u := AddSub(Fresh(sv), id, "a b");
    assert !HasSub([], "a b");
    assert u.subs[id] == ["a b"];
    assert SetUser(Fresh(sv), sv, rule) == Ok(u);
    hide SetUser;
    assert [rule][..0] == [];
  }
}
