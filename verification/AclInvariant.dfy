/**
 What every user reached by ACL rules keeps.
 */
module AclInvariant {
  import opened AclUser

  ghost predicate Distinct(xs: seq<string>) {
    forall i, j | 0 <= i < j < |xs| :: xs[i] != xs[j]
  }

  /** Flags exclude each other, and a flag that allows everything leaves its list empty. */
  ghost predicate FlagsOk(u: User) {
    && u.enabled != u.disabled
    && !(u.sanitize && u.skipSanitize)
    && (u.nopass ==> u.passwords == [])
    && (u.allkeys ==> u.patterns == [])
    && (u.allchannels ==> u.channels == [])
  }

  ghost predicate ListsOk(u: User) {
    && Distinct(u.passwords) && (forall i | 0 <= i < |u.passwords| :: IsHash(u.passwords[i]))
    && Distinct(u.patterns) && (forall i | 0 <= i < |u.patterns| :: !HasSpaces(u.patterns[i]) && u.patterns[i] != "*")
    && Distinct(u.channels) && (forall i | 0 <= i < |u.channels| :: !HasSpaces(u.channels[i]) && u.channels[i] != "*")
  }

  ghost predicate IsId(t: Table, id: nat) {
    exists i | 0 <= i < |t| :: t[i].id == id
  }

  /** Subcommands differ whatever their case, and none is empty. */
  ghost predicate SubsOk(subs: seq<string>) {
    && subs != []
    && (forall i | 0 <= i < |subs| :: subs[i] != "")
    && (forall i, j | 0 <= i < j < |subs| :: Lower(subs[i]) != Lower(subs[j]))
  }

  /** Ids without a command follow the bit of future commands, subcommands are listed only for commands that are
      not allowed as a whole, and the flag for all commands means all bits. */
  ghost predicate CommandsOk(u: User, t: Table) {
    && |u.bits| == BITS
    && (forall id: nat | id < BITS && !IsId(t, id) :: u.bits[id] == u.bits[FUTURE])
    && (forall id | id in u.subs :: IsId(t, id) && id < BITS && !u.bits[id] && SubsOk(u.subs[id]))
    && (u.allcommands ==> forall id | 0 <= id < BITS :: u.bits[id])
  }

  ghost predicate UserOk(u: User, t: Table) {
    FlagsOk(u) && ListsOk(u) && CommandsOk(u, t)
  }

  /** The rules text can express: a lone star is the rule for everything. */
  predicate Expressible(r: Rule) {
    (r.KeyPattern? ==> r.p != "*") && (r.ChannelPattern? ==> r.p != "*")
  }

  lemma {:induction false} RemoveKeeps(xs: seq<string>, x: string)
    requires Distinct(xs)
    ensures Distinct(Remove(xs, x)) && forall i | 0 <= i < |Remove(xs, x)| :: Remove(xs, x)[i] in xs
  {
    if xs != [] && xs[0] != x {
      RemoveKeeps(xs[1..], x);
      assert xs[0] !in xs[1..];
    }
  }

  lemma HashesRemoved(u: User, t: Table, h: string)
    requires UserOk(u, t) && h in u.passwords
    ensures UserOk(u.(passwords := Remove(u.passwords, h)), t)
  {
    hide CommandsOk;
    RemoveKeeps(u.passwords, h);
    var v := u.(passwords := Remove(u.passwords, h));
    forall i | 0 <= i < |v.passwords|
      ensures IsHash(v.passwords[i])
    {
      assert v.passwords[i] in u.passwords;
    }
    CommandsSame(u, v, t);
  }

  lemma HashAdded(u: User, t: Table, h: string)
    requires UserOk(u, t) && IsHash(h)
    ensures UserOk(u.(passwords := AddUnique(u.passwords, h), nopass := false), t)
  {
    hide CommandsOk, IsHash;
    CommandsSame(u, u.(passwords := AddUnique(u.passwords, h), nopass := false), t);
  }

  lemma PatternAdded(u: User, t: Table, p: string)
    requires UserOk(u, t) && !HasSpaces(p) && p != "*"
    ensures !u.allkeys ==> UserOk(u.(patterns := AddUnique(u.patterns, p)), t)
    ensures !u.allchannels ==> UserOk(u.(channels := AddUnique(u.channels, p)), t)
  {
    hide CommandsOk, IsHash, HasSpaces;
    CommandsSame(u, u.(patterns := AddUnique(u.patterns, p)), t);
    CommandsSame(u, u.(channels := AddUnique(u.channels, p)), t);
  }

  lemma ListRulesOk(u: User, sv: Server, r: Rule)
    requires ServerOk(sv) && UserOk(u, sv.table) && Expressible(r) && SetUser(u, sv, r).Ok?
    requires r.AddPassword? || r.AddHash? || r.DelPassword? || r.DelHash? || r.KeyPattern? || r.ChannelPattern?
    ensures UserOk(SetUser(u, sv, r).user, sv.table)
  {
    hide UserOk, IsHash, HasSpaces, TableOk;
    match r {
      case AddPassword(clear) => HashAdded(u, sv.table, sv.hash(clear));
      case AddHash(h) => HashAdded(u, sv.table, h);
      case DelPassword(clear) => HashesRemoved(u, sv.table, sv.hash(clear));
      case DelHash(h) => HashesRemoved(u, sv.table, h);
      case KeyPattern(p) => PatternAdded(u, sv.table, p);
      case ChannelPattern(p) => PatternAdded(u, sv.table, p);
      case _ =>
    }
  }

  lemma CommandsSame(u: User, v: User, t: Table)
    requires CommandsOk(u, t) && v.bits == u.bits && v.subs == u.subs && v.allcommands == u.allcommands
    ensures CommandsOk(v, t)
  {
  }

  lemma BitRuleOk(u: User, t: Table, k: nat, value: bool)
    requires TableOk(t) && CommandsOk(u, t) && k < |t|
    ensures CommandsOk(SetCommand(u, t[k].id, value), t)
  {
    assert IsId(t, t[k].id);
  }

  lemma SubRuleOk(u: User, t: Table, k: nat, sub: string)
    requires TableOk(t) && CommandsOk(u, t) && k < |t| && sub != ""
    ensures CommandsOk(AllowSubcommand(u, t[k].id, sub), t)
  {
    var id := t[k].id;
    assert IsId(t, id);
    hide IsId;
    var v := AllowSubcommand(u, id, sub);
    if v != u {
      var old' := if id in u.subs then u.subs[id] else [];
      SubAdded(old', sub);
      hide SubsOk, HasSub;
    }
  }

  lemma SubAdded(subs: seq<string>, sub: string)
    requires (subs == [] || SubsOk(subs)) && sub != "" && !HasSub(subs, sub)
    ensures SubsOk(subs + [sub])
  {
  }

  lemma CategoryRuleOk(u: User, t: Table, cat: nat, value: bool)
    requires TableOk(t) && CommandsOk(u, t)
    ensures CommandsOk(SetCategory(u, t, cat, value), t)
  {
    var ids := CategoryIds(t, cat);
    assert forall id | id in ids :: IsId(t, id) && id < FUTURE;
  }

  lemma CommandRulesOk(u: User, sv: Server, r: Rule)
    requires ServerOk(sv) && CommandsOk(u, sv.table) && SetUser(u, sv, r).Ok?
    requires r.AllowCommand? || r.DenyCommand? || r.AllowSub? || r.AllowCategory? || r.DenyCategory?
    ensures CommandsOk(SetUser(u, sv, r).user, sv.table)
  {
    hide CommandsOk, TableOk, SetCategory, SetCommand, AllowSubcommand;
    ServerTable(sv);
    if r.AllowCategory? || r.DenyCategory? {
      CategoryRuleOk(u, sv.table, FindCategory(r.cat, |CATEGORIES|), r.AllowCategory?);
    } else if r.AllowSub? {
      SubRuleOk(u, sv.table, Find(sv.table, r.name), r.sub);
    } else {
      BitRuleOk(u, sv.table, Find(sv.table, r.name), r.AllowCommand?);
    }
  }

  /** Command rules touch nothing but commands. */
  lemma CommandRulesFrame(u: User, sv: Server, r: Rule)
    requires SetUser(u, sv, r).Ok?
    requires r.AllowCommand? || r.DenyCommand? || r.AllowSub? || r.AllowCategory? || r.DenyCategory?
    ensures var v := SetUser(u, sv, r).user; v == u.(bits := v.bits, subs := v.subs, allcommands := v.allcommands)
  {
    hide SetCategory, SetCommand, AllowSubcommand, Find, FindCategory;
  }

  lemma CommandRulesKeepOk(u: User, sv: Server, r: Rule)
    requires ServerOk(sv) && UserOk(u, sv.table) && SetUser(u, sv, r).Ok?
    requires r.AllowCommand? || r.DenyCommand? || r.AllowSub? || r.AllowCategory? || r.DenyCategory?
    ensures UserOk(SetUser(u, sv, r).user, sv.table)
  {
    hide SetUser, CommandsOk, ServerOk;
    CommandRulesOk(u, sv, r);
    CommandRulesFrame(u, sv, r);
  }

  lemma ServerTable(sv: Server)
    requires ServerOk(sv)
    ensures TableOk(sv.table)
  {
  }

  lemma AllCommandsOk(u: User, t: Table, value: bool)
    requires |u.bits| == BITS
    ensures CommandsOk(SetAllCommands(u, value), t)
  {
  }

  /** The rules about all commands, and the one that resets the user. */
  lemma WholeRulesOk(u: User, sv: Server, r: Rule)
    requires UserOk(u, sv.table) && (r.AllCommands? || r.NoCommands? || r.Reset?)
    ensures SetUser(u, sv, r).Ok? && UserOk(SetUser(u, sv, r).user, sv.table)
  {
    var v := SetUser(u, sv, r).user;
    AllCommandsOk(u, sv.table, r.AllCommands?);
    CommandsSame(SetAllCommands(u, r.AllCommands?), v, sv.table);
    hide CommandsOk, IsHash, HasSpaces;
  }

  /** The rules about flags, and about all or none of the passwords, keys and channels. */
  lemma FlagRulesOk(u: User, sv: Server, r: Rule)
    requires UserOk(u, sv.table)
    requires r.Nothing? || r.On? || r.Off? || r.SkipSanitize? || r.Sanitize? || r.NoPass? || r.ResetPass?
             || r.AllKeys? || r.ResetKeys? || r.AllChannels? || r.ResetChannels?
    ensures SetUser(u, sv, r).Ok? && UserOk(SetUser(u, sv, r).user, sv.table)
  {
    hide CommandsOk, IsHash, HasSpaces;
    CommandsSame(u, SetUser(u, sv, r).user, sv.table);
  }

  /** Every rule that succeeds keeps the invariant. */
  lemma RuleKeepsOk(u: User, sv: Server, r: Rule)
    requires ServerOk(sv) && UserOk(u, sv.table) && Expressible(r) && SetUser(u, sv, r).Ok?
    ensures UserOk(SetUser(u, sv, r).user, sv.table)
  {
    UnknownFails(u, sv);
    hide SetUser, UserOk, ServerOk, Expressible;
    match r {
      case Unknown =>
      case AddPassword(_) => ListRulesOk(u, sv, r);
      case AddHash(_) => ListRulesOk(u, sv, r);
      case DelPassword(_) => ListRulesOk(u, sv, r);
      case DelHash(_) => ListRulesOk(u, sv, r);
      case KeyPattern(_) => ListRulesOk(u, sv, r);
      case ChannelPattern(_) => ListRulesOk(u, sv, r);
      case AllowCommand(_) => CommandRulesKeepOk(u, sv, r);
      case DenyCommand(_) => CommandRulesKeepOk(u, sv, r);
      case AllowSub(_, _) => CommandRulesKeepOk(u, sv, r);
      case AllowCategory(_) => CommandRulesKeepOk(u, sv, r);
      case DenyCategory(_) => CommandRulesKeepOk(u, sv, r);
      case AllCommands => WholeRulesOk(u, sv, r);
      case NoCommands => WholeRulesOk(u, sv, r);
      case Reset => WholeRulesOk(u, sv, r);
      case _ => FlagRulesOk(u, sv, r);
    }
  }

  lemma UnknownFails(u: User, sv: Server)
    ensures SetUser(u, sv, Unknown) == Err(EINVAL)
  {
  }

  /** Every user reached from a fresh one by rules that succeed. */
  lemma {:induction false} ReachableOk(sv: Server, rules: seq<Rule>)
    requires ServerOk(sv) && (forall i | 0 <= i < |rules| :: Expressible(rules[i]))
    requires SetAll(Fresh(sv), sv, rules).Ok?
    ensures UserOk(SetAll(Fresh(sv), sv, rules).user, sv.table)
  {
    if rules != [] {
      ReachableOk(sv, rules[..|rules| - 1]);
      RuleKeepsOk(SetAll(Fresh(sv), sv, rules[..|rules| - 1]).user, sv, rules[|rules| - 1]);
      hide UserOk;
    }
  }
}
