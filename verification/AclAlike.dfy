/**
 A rule does the same to two users that differ only in the flags about payloads,
 and no rule changes the length of the command bitmap.
 */
module AclAlike {
  import opened AclUser

  /** Two users that differ at most in the flags about payloads. */
  ghost predicate Alike(b: User, c: User) {
    c == b.(sanitize := c.sanitize, skipSanitize := c.skipSanitize)
  }

  ghost predicate AlikeResults(b: Result, c: Result) {
    match b
    case Ok(u) => c.Ok? && Alike(u, c.user)
    case Err(e) => c == Err(e)
  }

  /** The same commands. */
  ghost predicate SameCommands(b: User, c: User) {
    b.bits == c.bits && b.subs == c.subs && b.allcommands == c.allcommands
  }

  /** The subcommands AddSub leaves. */
  ghost function WithSub(subs: map<nat, seq<string>>, id: nat, sub: string): map<nat, seq<string>> {
    var old' := if id in subs then subs[id] else [];
    if HasSub(old', sub) then subs else subs[id := old' + [sub]]
  }

  lemma SubsAdded(u: User, id: nat, sub: string)
    ensures AddSub(u, id, sub).subs == WithSub(u.subs, id, sub)
  {
    hide HasSub;
    var old' := if id in u.subs then u.subs[id] else [];
    if HasSub(old', sub) {} else {}
  }

  lemma SetFields(b: User, c: User, id: nat, value: bool)
    requires SameCommands(b, c)
    ensures SameCommands(SetCommand(b, id, value), SetCommand(c, id, value))
  {
  }

  lemma SubFields(b: User, c: User, id: nat, sub: string)
    requires SameCommands(b, c)
    ensures AllowSubcommand(b, id, sub).subs == AllowSubcommand(c, id, sub).subs
  {
    hide HasSub, AddSub, WithSub;
    SubsAdded(b, id, sub);
    SubsAdded(c, id, sub);
  }

  lemma AlikeCommand(b: User, c: User, id: nat, value: bool)
    requires Alike(b, c)
    ensures Alike(SetCommand(b, id, value), SetCommand(c, id, value))
  {
    hide SetCommand;
    SetFields(b, c, id, value);
  }

  lemma AlikeSub(b: User, c: User, id: nat, sub: string)
    requires Alike(b, c)
    ensures Alike(AllowSubcommand(b, id, sub), AllowSubcommand(c, id, sub))
  {
    hide AllowSubcommand;
    SubFields(b, c, id, sub);
  }

  lemma AlikeCategory(b: User, c: User, t: Table, cat: nat, value: bool)
    requires Alike(b, c)
    ensures Alike(SetCategory(b, t, cat, value), SetCategory(c, t, cat, value))
    ensures Alike(SetAllCommands(b, value), SetAllCommands(c, value))
  {
    hide CategoryIds, Beyond;
  }

  lemma AlikeCommandRule(b: User, c: User, sv: Server, r: Rule)
    requires Alike(b, c) && (r.AllowCommand? || r.DenyCommand? || r.AllowSub?)
    ensures AlikeResults(SetCommandRule(b, sv, r), SetCommandRule(c, sv, r))
  {
    hide Find, SetCommand, AllowSubcommand, Alike;
    var k := Find(sv.table, r.name);
    if k >= 0 {
      if r.AllowSub? {
        AlikeSub(b, c, sv.table[k].id, r.sub);
      } else {
        AlikeCommand(b, c, sv.table[k].id, r.AllowCommand?);
      }
    }
  }

  lemma AlikeCommandRules(b: User, c: User, sv: Server, r: Rule)
    requires Alike(b, c) && (r.AllowCommand? || r.DenyCommand? || r.AllowSub?)
    ensures AlikeResults(SetUser(b, sv, r), SetUser(c, sv, r))
  {
    hide SetCommandRule, Alike, AlikeResults;
    AlikeCommandRule(b, c, sv, r);
  }

  lemma AlikeCategoryRule(b: User, c: User, sv: Server, r: Rule)
    requires Alike(b, c) && (r.AllowCategory? || r.DenyCategory? || r.AllCommands? || r.NoCommands?)
    ensures AlikeResults(SetUser(b, sv, r), SetUser(c, sv, r))
  {
    hide FindCategory, SetCategory, SetAllCommands, Alike;
    if r.AllowCategory? || r.DenyCategory? {
      var cat := FindCategory(r.cat, |CATEGORIES|);
      if cat >= 0 {
        AlikeCategory(b, c, sv.table, cat, r.AllowCategory?);
      }
    } else {
      AlikeCategory(b, c, sv.table, 0, r.AllCommands?);
    }
  }

  lemma AlikePatternRules(b: User, c: User, sv: Server, r: Rule)
    requires Alike(b, c) && (r.KeyPattern? || r.ChannelPattern?)
    ensures AlikeResults(SetUser(b, sv, r), SetUser(c, sv, r))
  {
    hide HasSpaces, AddUnique;
  }

  lemma AlikeDel(b: User, c: User, h: string)
    requires Alike(b, c)
    ensures AlikeResults(DelHashed(b, h), DelHashed(c, h))
  {
    hide Remove;
  }

  lemma AlikePasswordRules(b: User, c: User, sv: Server, r: Rule)
    requires Alike(b, c)
    requires r.AddPassword? || r.AddHash? || r.DelPassword? || r.DelHash?
    ensures AlikeResults(SetUser(b, sv, r), SetUser(c, sv, r))
  {
    hide IsHash, DelHashed, AddUnique;
    match r {
      case AddPassword(_) =>
      case AddHash(h) => if IsHash(h) {}
      case DelPassword(clear) => AlikeDel(b, c, sv.hash(clear));
      case DelHash(h) => AlikeDel(b, c, h);
    }
  }

  lemma AlikeReset(b: User, c: User, sv: Server)
    requires Alike(b, c)
    ensures AlikeResults(SetUser(b, sv, Reset), SetUser(c, sv, Reset))
  {
  }

  lemma AlikeFlagRules(b: User, c: User, sv: Server, r: Rule)
    requires Alike(b, c)
    requires r.Nothing? || r.Unknown? || r.On? || r.Off? || r.SkipSanitize? || r.Sanitize? || r.NoPass? || r.ResetPass?
             || r.AllKeys? || r.ResetKeys? || r.AllChannels? || r.ResetChannels?
    ensures AlikeResults(SetUser(b, sv, r), SetUser(c, sv, r))
  {
  }

  /** A rule does the same to both. */
  lemma AlikeRule(b: User, c: User, sv: Server, r: Rule)
    requires Alike(b, c)
    ensures AlikeResults(SetUser(b, sv, r), SetUser(c, sv, r))
  {
    hide SetUser, Alike, AlikeResults;
    match r {
      case AllowCommand(_) => AlikeCommandRules(b, c, sv, r);
      case DenyCommand(_) => AlikeCommandRules(b, c, sv, r);
      case AllowSub(_, _) => AlikeCommandRules(b, c, sv, r);
      case AllowCategory(_) => AlikeCategoryRule(b, c, sv, r);
      case DenyCategory(_) => AlikeCategoryRule(b, c, sv, r);
      case AllCommands => AlikeCategoryRule(b, c, sv, r);
      case NoCommands => AlikeCategoryRule(b, c, sv, r);
      case AddPassword(_) => AlikePasswordRules(b, c, sv, r);
      case AddHash(_) => AlikePasswordRules(b, c, sv, r);
      case DelPassword(_) => AlikePasswordRules(b, c, sv, r);
      case DelHash(_) => AlikePasswordRules(b, c, sv, r);
      case KeyPattern(_) => AlikePatternRules(b, c, sv, r);
      case ChannelPattern(_) => AlikePatternRules(b, c, sv, r);
      case Reset => AlikeReset(b, c, sv);
      case _ => AlikeFlagRules(b, c, sv, r);
    }
  }

  lemma {:induction false} AlikeRules(b: User, c: User, sv: Server, rules: seq<Rule>)
    requires Alike(b, c)
    ensures AlikeResults(SetAll(b, sv, rules), SetAll(c, sv, rules))
  {
    hide SetUser;
    if rules != [] {
      var n := |rules| - 1;
      AlikeRules(b, c, sv, rules[..n]);
      if SetAll(b, sv, rules[..n]).Ok? {
        AlikeRule(SetAll(b, sv, rules[..n]).user, SetAll(c, sv, rules[..n]).user, sv, rules[n]);
      }
    }
  }

  lemma CommandKeepsLength(u: User, t: Table, id: nat, sub: string, cat: nat, value: bool)
    ensures |SetCommand(u, id, value).bits| == |AllowSubcommand(u, id, sub).bits| == |u.bits|
    ensures |SetCategory(u, t, cat, value).bits| == |SetAllCommands(u, value).bits| == |u.bits|
  {
    hide HasSub, CategoryIds, Beyond;
  }

  lemma RuleKeepsLength(u: User, sv: Server, r: Rule)
    requires SetUser(u, sv, r).Ok?
    ensures |SetUser(u, sv, r).user.bits| == |u.bits|
  {
    hide Find, FindCategory, SetCommand, AllowSubcommand, SetCategory, SetAllCommands, HasSpaces, IsHash, Remove, AddUnique;
    match r {
      case AllowCommand(name) => CommandKeepsLength(u, sv.table, sv.table[Find(sv.table, name)].id, "", 0, true);
      case DenyCommand(name) => CommandKeepsLength(u, sv.table, sv.table[Find(sv.table, name)].id, "", 0, false);
      case AllowSub(name, sub) => CommandKeepsLength(u, sv.table, sv.table[Find(sv.table, name)].id, sub, 0, true);
      case AllowCategory(cat) => CommandKeepsLength(u, sv.table, 0, "", FindCategory(cat, |CATEGORIES|), true);
      case DenyCategory(cat) => CommandKeepsLength(u, sv.table, 0, "", FindCategory(cat, |CATEGORIES|), false);
      case AllCommands => CommandKeepsLength(u, sv.table, 0, "", 0, true);
      case NoCommands => CommandKeepsLength(u, sv.table, 0, "", 0, false);
      case Reset => ResetKeepsLength(u, sv);
      case _ =>
    }
  }

  lemma ResetKeepsLength(u: User, sv: Server)
    ensures |ResetUser(u, sv).bits| == |u.bits|
  {
  }

  lemma {:induction false} RulesKeepLength(u: User, sv: Server, rules: seq<Rule>)
    requires SetAll(u, sv, rules).Ok?
    ensures |SetAll(u, sv, rules).user.bits| == |u.bits|
  {
    hide SetUser;
    if rules != [] {
      RulesKeepLength(u, sv, rules[..|rules| - 1]);
      RuleKeepsLength(SetAll(u, sv, rules[..|rules| - 1]).user, sv, rules[|rules| - 1]);
    }
  }
}
