/**
 The description of a whole user, and the proof that its rules rebuild the user
 from a fresh one: flags, passwords, patterns, channels and commands.
 */
module AclUserRules {
  import opened AclUser
  import opened AclInvariant
  import opened AclDescribe
  import opened AclText

  // ----- rules one after the other -----

  lemma {:induction false} SetAllConcat(b: User, sv: Server, first: seq<Rule>, rest: seq<Rule>)
    requires SetAll(b, sv, first).Ok?
    ensures SetAll(b, sv, first + rest) == SetAll(SetAll(b, sv, first).user, sv, rest)
  {
    hide SetUser;
    if rest == [] {
      assert first + rest == first;
    } else {
      SetAllConcat(b, sv, first, rest[..|rest| - 1]);
      assert (first + rest)[..|first + rest| - 1] == first + rest[..|rest| - 1];
    }
  }

  /** Rules that turn b into w. */
  ghost predicate Turns(sv: Server, b: User, rules: seq<Rule>, w: User) {
    SetAll(b, sv, rules) == Ok(w)
  }

  lemma TurnsNothing(sv: Server, b: User)
    ensures Turns(sv, b, [], b)
  {
  }

  lemma TurnsThen(sv: Server, b: User, first: seq<Rule>, v: User, rest: seq<Rule>, w: User)
    requires Turns(sv, b, first, v) && Turns(sv, v, rest, w)
    ensures Turns(sv, b, first + rest, w)
  {
    SetAllConcat(b, sv, first, rest);
  }

  lemma TurnsSnoc(sv: Server, b: User, rules: seq<Rule>, v: User, r: Rule, w: User)
    requires Turns(sv, b, rules, v) && SetUser(v, sv, r) == Ok(w)
    ensures Turns(sv, b, rules + [r], w)
  {
    hide SetUser;
    SetAllSnoc(b, sv, rules, r);
  }

  /** At most one rule. */
  function When(c: bool, r: Rule): seq<Rule> {
    if c then [r] else []
  }

  lemma TurnsWhen(sv: Server, b: User, rules: seq<Rule>, v: User, c: bool, r: Rule, w: User)
    requires Turns(sv, b, rules, v)
    requires if c then SetUser(v, sv, r) == Ok(w) else v == w
    ensures Turns(sv, b, rules + When(c, r), w)
  {
    hide SetUser, SetAll;
    if c {
      TurnsSnoc(sv, b, rules, v, r, w);
    } else {
      assert rules + When(c, r) == rules;
    }
  }

  // ----- flags -----

  /** The flags in the order of ACLUserFlags, without those for all keys, channels and commands. */
  function FlagRules(u: User): seq<Rule> {
    When(u.enabled, On) + When(u.disabled, Off) + When(u.nopass, NoPass)
    + When(u.skipSanitize, SkipSanitize) + When(u.sanitize, Sanitize)
  }

  /** A user that has no passwords and no patterns yet, as created or as reset. */
  ghost predicate Blank(b: User) {
    && !b.nopass && b.passwords == [] && !b.allkeys && b.patterns == [] && b.channels == []
    && !b.skipSanitize && |b.bits| == BITS
  }

  /** The user the rules make of b: u itself, but for the two flags the text does not carry. */
  ghost function Described(u: User, b: User): User {
    u.(allcommands := AllBits(u.bits), sanitize := u.sanitize || (b.sanitize && !u.skipSanitize))
  }

  /** b with the flags of u. */
  ghost function WithFlags(b: User, u: User): User {
    b.(enabled := u.enabled, disabled := u.disabled, nopass := u.nopass,
       skipSanitize := u.skipSanitize, sanitize := u.sanitize || (b.sanitize && !u.skipSanitize))
  }

  lemma FlagRuleSets(v: User, sv: Server)
    ensures SetUser(v, sv, On) == Ok(v.(enabled := true, disabled := false))
    ensures SetUser(v, sv, Off) == Ok(v.(enabled := false, disabled := true))
    ensures SetUser(v, sv, NoPass) == Ok(v.(nopass := true, passwords := []))
    ensures SetUser(v, sv, SkipSanitize) == Ok(v.(skipSanitize := true, sanitize := false))
    ensures SetUser(v, sv, Sanitize) == Ok(v.(skipSanitize := false, sanitize := true))
  {
  }

  /** The first flags: on or off, and no password. */
  lemma FirstFlagsTurn(sv: Server, b: User, u: User)
    requires FlagsOk(u) && Blank(b)
    ensures Turns(sv, b, When(u.enabled, On) + When(u.disabled, Off) + When(u.nopass, NoPass),
                  b.(enabled := u.enabled, disabled := u.disabled, nopass := u.nopass))
  {
    hide Turns, SetUser;
    var b1 := b.(enabled := u.enabled || b.enabled, disabled := !u.enabled && b.disabled);
    var b2 := b.(enabled := u.enabled, disabled := u.disabled);
    var r1 := When(u.enabled, On);
    FlagRuleSets(b, sv);
    FlagRuleSets(b1, sv);
    FlagRuleSets(b2, sv);
    TurnsNothing(sv, b);
    assert [] + r1 == r1;
    TurnsWhen(sv, b, [], b, u.enabled, On, b1);
    TurnsWhen(sv, b, r1, b1, u.disabled, Off, b2);
    TurnsWhen(sv, b, r1 + When(u.disabled, Off), b2, u.nopass, NoPass, b2.(nopass := u.nopass));
  }

  lemma FlagsTurn(sv: Server, b: User, u: User)
    requires FlagsOk(u) && Blank(b)
    ensures Turns(sv, b, FlagRules(u), WithFlags(b, u))
  {
    hide Turns, SetUser;
    var b3 := b.(enabled := u.enabled, disabled := u.disabled, nopass := u.nopass);
    var b4 := b3.(skipSanitize := u.skipSanitize, sanitize := b.sanitize && !u.skipSanitize);
    var r3 := When(u.enabled, On) + When(u.disabled, Off) + When(u.nopass, NoPass);
    FirstFlagsTurn(sv, b, u);
    FlagRuleSets(b3, sv);
    FlagRuleSets(b4, sv);
    TurnsWhen(sv, b, r3, b3, u.skipSanitize, SkipSanitize, b4);
    TurnsWhen(sv, b, r3 + When(u.skipSanitize, SkipSanitize), b4, u.sanitize, Sanitize, WithFlags(b, u));
  }

  // ----- lists -----

  /** One rule per element, in order. */
  function Each(xs: seq<string>, rule: string -> Rule): (r: seq<Rule>)
    ensures |r| == |xs| && forall i | 0 <= i < |xs| :: r[i] == rule(xs[i])
  {
    seq(|xs|, i requires 0 <= i < |xs| => rule(xs[i]))
  }

  lemma HashStep(sv: Server, v: User, xs: seq<string>, h: string)
    requires !v.nopass && IsHash(h) && h !in xs
    ensures SetUser(v.(passwords := xs), sv, AddHash(h)) == Ok(v.(passwords := xs + [h]))
  {
    hide IsHash;
  }

  lemma PatternStep(sv: Server, v: User, xs: seq<string>, p: string)
    requires !HasSpaces(p) && p !in xs
    ensures !v.allkeys ==> SetUser(v.(patterns := xs), sv, KeyPattern(p)) == Ok(v.(patterns := xs + [p]))
    ensures !v.allchannels ==> SetUser(v.(channels := xs), sv, ChannelPattern(p)) == Ok(v.(channels := xs + [p]))
  {
    hide HasSpaces;
  }

  lemma {:induction false} HashesTurn(sv: Server, v: User, xs: seq<string>)
    requires v.passwords == [] && Distinct(xs) && (forall i | 0 <= i < |xs| :: IsHash(xs[i])) && (v.nopass ==> xs == [])
    ensures Turns(sv, v, Each(xs, x => AddHash(x)), v.(passwords := xs))
  {
    hide Turns, IsHash, SetUser;
    if xs == [] {
      TurnsNothing(sv, v);
    } else {
      var n := |xs| - 1;
      HashesTurn(sv, v, xs[..n]);
      HashStep(sv, v, xs[..n], xs[n]);
      assert Each(xs, x => AddHash(x)) == Each(xs[..n], x => AddHash(x)) + [AddHash(xs[n])];
      assert xs[n] !in xs[..n] && xs[..n] + [xs[n]] == xs;
      TurnsSnoc(sv, v, Each(xs[..n], x => AddHash(x)), v.(passwords := xs[..n]), AddHash(xs[n]), v.(passwords := xs));
    }
  }

  lemma {:induction false} PatternsTurn(sv: Server, v: User, xs: seq<string>)
    requires v.patterns == [] && !v.allkeys && Distinct(xs) && forall i | 0 <= i < |xs| :: !HasSpaces(xs[i])
    ensures Turns(sv, v, Each(xs, x => KeyPattern(x)), v.(patterns := xs))
  {
    hide Turns, HasSpaces, SetUser;
    if xs == [] {
      TurnsNothing(sv, v);
    } else {
      var n := |xs| - 1;
      PatternsTurn(sv, v, xs[..n]);
      PatternStep(sv, v, xs[..n], xs[n]);
      assert Each(xs, x => KeyPattern(x)) == Each(xs[..n], x => KeyPattern(x)) + [KeyPattern(xs[n])];
      assert xs[n] !in xs[..n] && xs[..n] + [xs[n]] == xs;
      TurnsSnoc(sv, v, Each(xs[..n], x => KeyPattern(x)), v.(patterns := xs[..n]), KeyPattern(xs[n]), v.(patterns := xs));
    }
  }

  lemma {:induction false} ChannelsTurn(sv: Server, v: User, xs: seq<string>)
    requires v.channels == [] && !v.allchannels && Distinct(xs) && forall i | 0 <= i < |xs| :: !HasSpaces(xs[i])
    ensures Turns(sv, v, Each(xs, x => ChannelPattern(x)), v.(channels := xs))
  {
    hide Turns, HasSpaces, SetUser;
    if xs == [] {
      TurnsNothing(sv, v);
    } else {
      var n := |xs| - 1;
      ChannelsTurn(sv, v, xs[..n]);
      PatternStep(sv, v, xs[..n], xs[n]);
      assert Each(xs, x => ChannelPattern(x)) == Each(xs[..n], x => ChannelPattern(x)) + [ChannelPattern(xs[n])];
      assert xs[n] !in xs[..n] && xs[..n] + [xs[n]] == xs;
      TurnsSnoc(sv, v, Each(xs[..n], x => ChannelPattern(x)), v.(channels := xs[..n]), ChannelPattern(xs[n]), v.(channels := xs));
    }
  }

  // ----- the whole user -----

  function KeyRules(u: User): seq<Rule> {
    if u.allkeys then [AllKeys] else Each(u.patterns, x => KeyPattern(x))
  }

  function ChannelRules(u: User): seq<Rule> {
    if u.allchannels then [AllChannels] else [ResetChannels] + Each(u.channels, x => ChannelPattern(x))
  }

  lemma TurnsOne(sv: Server, v: User, r: Rule, w: User)
    requires SetUser(v, sv, r) == Ok(w)
    ensures Turns(sv, v, [r], w)
  {
    hide SetUser;
    TurnsNothing(sv, v);
    assert [] + [r] == [r];
    TurnsSnoc(sv, v, [], v, r, w);
  }

  lemma KeysTurn(sv: Server, v: User, u: User)
    requires UserOk(u, sv.table) && v.patterns == [] && !v.allkeys
    ensures Turns(sv, v, KeyRules(u), v.(allkeys := u.allkeys, patterns := u.patterns))
  {
    hide Turns, HasSpaces, CommandsOk, IsHash;
    if u.allkeys {
      TurnsOne(sv, v, AllKeys, v.(allkeys := true, patterns := []));
    } else {
      PatternsTurn(sv, v, u.patterns);
    }
  }

  lemma ChannelRulesTurn(sv: Server, v: User, u: User)
    requires UserOk(u, sv.table) && v.channels == []
    ensures Turns(sv, v, ChannelRules(u), v.(allchannels := u.allchannels, channels := u.channels))
  {
    hide Turns, HasSpaces, CommandsOk, IsHash;
    if u.allchannels {
      TurnsOne(sv, v, AllChannels, v.(allchannels := true, channels := []));
    } else {
      var v' := v.(allchannels := false, channels := []);
      TurnsOne(sv, v, ResetChannels, v');
      ChannelsTurn(sv, v', u.channels);
      TurnsThen(sv, v, [ResetChannels], v', Each(u.channels, x => ChannelPattern(x)), v'.(channels := u.channels));
    }
  }

  /** Everything but the commands. */
  function HeadRules(u: User): seq<Rule> {
    FlagRules(u) + Each(u.passwords, x => AddHash(x)) + KeyRules(u) + ChannelRules(u)
  }

  lemma HeadTurns(sv: Server, b: User, u: User)
    requires UserOk(u, sv.table) && Blank(b)
    ensures Turns(sv, b, HeadRules(u), WithCommands(Described(u, b), b.bits, b.subs, b.allcommands))
  {
    hide Turns, FlagRules, Each, KeyRules, ChannelRules, HasSpaces, CommandsOk, IsHash, Distinct, AllBits;
    var b1 := WithFlags(b, u);
    var b2 := b1.(passwords := u.passwords);
    var b3 := b2.(allkeys := u.allkeys, patterns := u.patterns);
    var b4 := b3.(allchannels := u.allchannels, channels := u.channels);
    FlagsTurn(sv, b, u);
    HashesTurn(sv, b1, u.passwords);
    KeysTurn(sv, b2, u);
    ChannelRulesTurn(sv, b3, u);
    TurnsThen(sv, b, FlagRules(u), b1, Each(u.passwords, x => AddHash(x)), b2);
    TurnsThen(sv, b, FlagRules(u) + Each(u.passwords, x => AddHash(x)), b2, KeyRules(u), b3);
    TurnsThen(sv, b, FlagRules(u) + Each(u.passwords, x => AddHash(x)) + KeyRules(u), b3, ChannelRules(u), b4);
    assert b4 == WithCommands(Described(u, b), b.bits, b.subs, b.allcommands);
  }

  /** With the rules of the commands behind, the user is complete. */
  lemma WholeTurns(sv: Server, b: User, u: User, commands: seq<Rule>)
    requires UserOk(u, sv.table) && Blank(b)
    requires Rebuilds(sv, commands, u.bits, u.subs, AllBits(u.bits))
    ensures Turns(sv, b, HeadRules(u) + commands, Described(u, b))
  {
    hide SetAll, HeadRules, UserOk, AllBits;
    var w := WithCommands(Described(u, b), b.bits, b.subs, b.allcommands);
    HeadTurns(sv, b, u);
    assert SetAll(w, sv, commands) == Ok(WithCommands(w, u.bits, u.subs, AllBits(u.bits)));
    assert WithCommands(w, u.bits, u.subs, AllBits(u.bits)) == Described(u, b);
    TurnsThen(sv, b, HeadRules(u), w, commands, Described(u, b));
  }

  /** The rules make of every blank user the one described. */
  ghost predicate Describes(sv: Server, rules: seq<Rule>, u: User) {
    forall b: User {:trigger SetAll(b, sv, rules)} | Blank(b) :: SetAll(b, sv, rules) == Ok(Described(u, b))
  }

  /** The rules of a list appended one by one. */
  method AppendEach(rules: seq<Rule>, xs: seq<string>, rule: string -> Rule) returns (r: seq<Rule>)
    ensures r == rules + Each(xs, rule)
  {
    r := rules;
    for i := 0 to |xs|
      invariant r == rules + Each(xs[..i], rule)
    {
      assert xs[..i + 1] == xs[..i] + [xs[i]];
      assert Each(xs[..i + 1], rule) == Each(xs[..i], rule) + [rule(xs[i])];
      r := r + [rule(xs[i])];
    }
    assert xs[..|xs|] == xs;
  }

  /** The part of ACLDescribeUser before the commands. */
  method DescribeHead(u: User) returns (rules: seq<Rule>)
    ensures rules == HeadRules(u)
  {
    hide Each, FlagRules;
    rules := AppendEach(FlagRules(u), u.passwords, x => AddHash(x));
    if u.allkeys {
      rules := rules + [AllKeys];
    } else {
      rules := AppendEach(rules, u.patterns, x => KeyPattern(x));
    }
    ghost var head := rules;
    if u.allchannels {
      rules := rules + [AllChannels];
    } else {
      rules := AppendEach(rules + [ResetChannels], u.channels, x => ChannelPattern(x));
      assert rules == head + ([ResetChannels] + Each(u.channels, x => ChannelPattern(x)));
    }
  }

  /** ACLDescribeUser */
  method DescribeUser(u: User, sv: Server) returns (rules: seq<Rule>)
    requires ServerOk(sv) && UserOk(u, sv.table)
    ensures Describes(sv, rules, u)
    ensures Says(rules, u) && rules != []
  {
    hide UserOk, CommandsOk, TableOk, Describes, Says, HeadRules;
    var head := DescribeHead(u);
    UserParts(u, sv);
    var commands := DescribeCommands(u, sv);
    rules := head + commands;
    DescribesAll(sv, u, commands);
    HeadSays(u, sv.table);
    SaysConcat(head, commands, u);
  }

  lemma SaysConcat(first: seq<Rule>, rest: seq<Rule>, u: User)
    requires Says(first, u) && Says(rest, u)
    ensures Says(first + rest, u)
  {
    hide Printable, HasSubcommand;
  }

  lemma FlagsSay(u: User)
    ensures Says(FlagRules(u), u)
  {
    assert forall c: bool, r: Rule | IsFlagWord(r) || IsWholeWord(r) :: Says(When(c, r), u);
    hide Says;
    SaysConcat(When(u.enabled, On), When(u.disabled, Off), u);
    SaysConcat(When(u.enabled, On) + When(u.disabled, Off), When(u.nopass, NoPass), u);
    SaysConcat(When(u.enabled, On) + When(u.disabled, Off) + When(u.nopass, NoPass), When(u.skipSanitize, SkipSanitize), u);
    SaysConcat(When(u.enabled, On) + When(u.disabled, Off) + When(u.nopass, NoPass) + When(u.skipSanitize, SkipSanitize),
               When(u.sanitize, Sanitize), u);
  }

  lemma ListsSay(u: User)
    requires ListsOk(u)
    ensures Says(Each(u.passwords, x => AddHash(x)), u) && Says(KeyRules(u), u) && Says(ChannelRules(u), u)
  {
    hide IsHash, HasSpaces, HasSubcommand;
    assert Says(Each(u.passwords, x => AddHash(x)), u);
    assert Says(KeyRules(u), u);
    assert Says([ResetChannels], u) && Says([AllChannels], u);
    assert Says(Each(u.channels, x => ChannelPattern(x)), u);
    hide Says, Each;
    SaysConcat([ResetChannels], Each(u.channels, x => ChannelPattern(x)), u);
  }

  lemma HeadSays(u: User, t: Table)
    requires UserOk(u, t)
    ensures Says(HeadRules(u), u)
  {
    hide Says, ListsOk, CommandsOk, FlagRules, Each, KeyRules, ChannelRules;
    FlagsSay(u);
    ListsSay(u);
    SaysConcat(FlagRules(u), Each(u.passwords, x => AddHash(x)), u);
    SaysConcat(FlagRules(u) + Each(u.passwords, x => AddHash(x)), KeyRules(u), u);
    SaysConcat(FlagRules(u) + Each(u.passwords, x => AddHash(x)) + KeyRules(u), ChannelRules(u), u);
  }

  lemma UserParts(u: User, sv: Server)
    requires ServerOk(sv) && UserOk(u, sv.table)
    ensures TableOk(sv.table) && CommandsOk(u, sv.table)
  {
  }

  lemma DescribesAll(sv: Server, u: User, commands: seq<Rule>)
    requires UserOk(u, sv.table)
    requires Rebuilds(sv, commands, u.bits, u.subs, AllBits(u.bits))
    ensures Describes(sv, HeadRules(u) + commands, u)
  {
    hide SetAll, HeadRules, UserOk, AllBits, Rebuilds, Blank, Described;
    forall b: User {:trigger SetAll(b, sv, HeadRules(u) + commands)} | Blank(b)
      ensures SetAll(b, sv, HeadRules(u) + commands) == Ok(Described(u, b))
    {
      WholeTurns(sv, b, u, commands);
    }
  }

  /** Applied to a fresh user or to any user after 'reset', a description gives back the user it describes. A reset
      also leaves the flag to sanitize payloads set, which a fresh user has not. */
  lemma FreshOrReset(sv: Server, rules: seq<Rule>, u: User, w: User)
    requires UserOk(u, sv.table) && Describes(sv, rules, u) && |w.bits| == BITS
    ensures SetAll(Fresh(sv), sv, rules) == Ok(u.(allcommands := AllBits(u.bits)))
    ensures SetAll(w, sv, [Reset] + rules) == Ok(u.(allcommands := AllBits(u.bits), sanitize := !u.skipSanitize))
  {
    hide AllBits, ListsOk, CommandsOk, SetAll;
    assert Blank(Fresh(sv)) && Blank(ResetUser(w, sv));
    TurnsOne(sv, w, Reset, ResetUser(w, sv));
    SetAllConcat(w, sv, [Reset], rules);
  }
}
