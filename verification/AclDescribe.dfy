/**
 Describing a user as rules. The greedy choice of categories, and the proof that
 the rules it prints rebuild the user from scratch.
 */
module AclDescribe {
  import opened AclUser
  import opened AclInvariant
  import opened AclText

  ghost predicate AllBits(bits: seq<bool>) {
    forall i | 0 <= i < |bits| :: bits[i]
  }

  /** Applied to any user at all, the rules succeed and set the commands as given, and nothing else. */
  ghost predicate Rebuilds(sv: Server, rules: seq<Rule>, bits: seq<bool>, subs: map<nat, seq<string>>, all: bool) {
    && |bits| == BITS
    && forall b: User {:trigger SetAll(b, sv, rules)} | |b.bits| == BITS ::
         SetAll(b, sv, rules) == Ok(WithCommands(b, bits, subs, all))
  }

  lemma SetAllSnoc(b: User, sv: Server, rules: seq<Rule>, r: Rule)
    requires SetAll(b, sv, rules).Ok?
    ensures SetAll(b, sv, rules + [r]) == SetUser(SetAll(b, sv, rules).user, sv, r)
  {
    assert (rules + [r])[..|rules|] == rules;
  }

  lemma RebuildsStart(sv: Server, value: bool)
    ensures Rebuilds(sv, [if value then AllCommands else NoCommands], seq(BITS, _ => value), map[], value)
  {
    var rules := [if value then AllCommands else NoCommands];
    forall b: User | |b.bits| == BITS
      ensures SetAll(b, sv, rules) == Ok(WithCommands(b, seq(BITS, _ => value), map[], value))
    {
      assert SetAll(b, sv, []) == Ok(b);
      assert [] + rules == rules;
      SetAllSnoc(b, sv, [], rules[0]);
    }
  }

  /** A user with its commands replaced. */
  function WithCommands(b: User, bits: seq<bool>, subs: map<nat, seq<string>>, all: bool): (r: User)
    ensures r.bits == bits && r.subs == subs && r.allcommands == all
  {
    b.(bits := bits, subs := subs, allcommands := all)
  }

  lemma RebuildsOne(b: User, sv: Server, rules: seq<Rule>, bits: seq<bool>, subs: map<nat, seq<string>>, all: bool,
                    r: Rule, bits': seq<bool>, subs': map<nat, seq<string>>, all': bool)
    requires Rebuilds(sv, rules, bits, subs, all) && |b.bits| == BITS
    requires SetUser(WithCommands(b, bits, subs, all), sv, r) == Ok(WithCommands(b, bits', subs', all'))
    ensures SetAll(b, sv, rules + [r]) == Ok(WithCommands(b, bits', subs', all'))
  {
    hide SetUser, SetAll, WithCommands;
    assert SetAll(b, sv, rules) == Ok(WithCommands(b, bits, subs, all));
    SetAllSnoc(b, sv, rules, r);
  }

  /** One more rule about commands. */
  lemma RebuildsSnoc(sv: Server, rules: seq<Rule>, bits: seq<bool>, subs: map<nat, seq<string>>, all: bool,
                     r: Rule, bits': seq<bool>, subs': map<nat, seq<string>>, all': bool)
    requires Rebuilds(sv, rules, bits, subs, all) && |bits'| == BITS
    requires forall b: User {:trigger WithCommands(b, bits, subs, all)} ::
      SetUser(WithCommands(b, bits, subs, all), sv, r) == Ok(WithCommands(b, bits', subs', all'))
    ensures Rebuilds(sv, rules + [r], bits', subs', all')
  {
    hide SetUser, SetAll, WithCommands;
    forall b: User {:trigger SetAll(b, sv, rules + [r])} | |b.bits| == BITS
      ensures SetAll(b, sv, rules + [r]) == Ok(WithCommands(b, bits', subs', all'))
    {
      RebuildsOne(b, sv, rules, bits, subs, all, r, bits', subs', all');
    }
  }

  // ----- counting -----

  /** How many of the first n commands of the category have their bit equal to 'on'; modules count here. */
  function CountBits(t: Table, n: nat, cat: nat, bits: seq<bool>, on: bool): nat
    requires n <= |t|
  {
    if n == 0 then 0
    else CountBits(t, n - 1, cat, bits, on)
         + if cat in t[n - 1].cats && (t[n - 1].id < |bits| && bits[t[n - 1].id]) == on then 1 else 0
  }

  /** ACLCountCategoryBitsForUser */
  method CountCategory(t: Table, cat: nat, bits: seq<bool>) returns (on: nat, off: nat)
    ensures on == CountBits(t, |t|, cat, bits, true) && off == CountBits(t, |t|, cat, bits, false)
  {
    on, off := 0, 0;
    for i := 0 to |t|
      invariant on == CountBits(t, i, cat, bits, true) && off == CountBits(t, i, cat, bits, false)
    {
      if cat in t[i].cats {
        if t[i].id < |bits| && bits[t[i].id] {
          on := on + 1;
        } else {
          off := off + 1;
        }
      }
    }
  }

  lemma {:induction false} NoneOff(t: Table, n: nat, cat: nat, bits: seq<bool>)
    requires n <= |t| && TableOk(t) && |bits| == BITS && AllBits(bits)
    ensures CountBits(t, n, cat, bits, false) == 0
  {
    if n > 0 {
      NoneOff(t, n - 1, cat, bits);
    }
  }

  /** Category j has more commands in common with the bits than against them. */
  predicate Fits(t: Table, bits: seq<bool>, additive: bool, j: nat) {
    Same(t, bits, additive, j) > Diff(t, bits, additive, j)
  }

  function Same(t: Table, bits: seq<bool>, additive: bool, j: nat): nat {
    CountBits(t, |t|, j, bits, additive)
  }

  function Diff(t: Table, bits: seq<bool>, additive: bool, j: nat): nat {
    CountBits(t, |t|, j, bits, !additive)
  }

  /** Category i is at least as good a choice as j: fewer differences, or as many and no less in common. */
  predicate NoWorse(t: Table, bits: seq<bool>, additive: bool, i: nat, j: nat) {
    || Diff(t, bits, additive, i) < Diff(t, bits, additive, j)
    || (Diff(t, bits, additive, i) == Diff(t, bits, additive, j) && Same(t, bits, additive, i) >= Same(t, bits, additive, j))
  }

  const INT_MAX: nat := 2147483647

  /** The inner loop of ACLDescribeUserCommandRules: the best fitting category not applied yet, or -1. */
  method BestCategory(t: Table, applied: set<nat>, bits: seq<bool>, additive: bool) returns (best: int)
    ensures -1 <= best < |CATEGORIES|
    ensures best >= 0 ==> best !in applied && Fits(t, bits, additive, best)
    ensures best >= 0 ==> forall j: nat | j < |CATEGORIES| && j !in applied && Fits(t, bits, additive, j) ::
      NoWorse(t, bits, additive, best, j)
    ensures best == -1 ==> forall j: nat | j < |CATEGORIES| && j !in applied && Fits(t, bits, additive, j) ::
      Diff(t, bits, additive, j) > INT_MAX
  {
    best := -1;
    var mindiff, maxsame := INT_MAX, 0;
    for j := 0 to |CATEGORIES|
      invariant -1 <= best < j
      invariant best == -1 ==> mindiff == INT_MAX && maxsame == 0
      invariant best == -1 ==> forall i: nat | i < j && i !in applied && Fits(t, bits, additive, i) ::
        Diff(t, bits, additive, i) > INT_MAX
      invariant best >= 0 ==> best !in applied && Fits(t, bits, additive, best)
      invariant best >= 0 ==> mindiff == Diff(t, bits, additive, best) && maxsame == Same(t, bits, additive, best)
      invariant best >= 0 ==> forall i: nat | i < j && i !in applied && Fits(t, bits, additive, i) ::
        NoWorse(t, bits, additive, best, i)
    {
      if j !in applied {
        var on, off := CountCategory(t, j, bits);
        var diff := if additive then off else on;
        var same := if additive then on else off;
        assert diff == Diff(t, bits, additive, j) && same == Same(t, bits, additive, j);
        if same > diff && (diff < mindiff || (diff == mindiff && same > maxsame)) {
          best, mindiff, maxsame := j, diff, same;
        }
      }
    }
  }

  // ----- what each printed rule does to the commands -----

  lemma CategoriesDiffer(i: nat, j: nat)
    requires i < j < |CATEGORIES|
    ensures CATEGORIES[i] != CATEGORIES[j]
  {
  }

  /** A category is found again by its own name. */
  lemma CategoryFound(c: nat)
    requires c < |CATEGORIES|
    ensures FindCategory(CATEGORIES[c], |CATEGORIES|) == c
  {
    hide FindCategory;
    assert Lower(CATEGORIES[c]) == CATEGORIES[c];
    var f := FindCategory(CATEGORIES[c], |CATEGORIES|);
    if f != c {
      CategoriesDiffer(if f < c then f else c, if f < c then c else f);
    }
  }

  /** A command is found again by its own name. */
  lemma CommandFound(t: Table, i: nat)
    requires TableOk(t) && i < |t|
    ensures Find(t, t[i].name) == i
  {
    hide Find;
  }

  /** The rule for a category by its index. */
  function CategoryRule(c: nat, value: bool): Rule
    requires c < |CATEGORIES|
  {
    if value then AllowCategory(CATEGORIES[c]) else DenyCategory(CATEGORIES[c])
  }

  /** The rule for a command by its index. */
  function CommandRule(t: Table, i: nat, value: bool): Rule
    requires i < |t|
  {
    if value then AllowCommand(t[i].name) else DenyCommand(t[i].name)
  }

  lemma CategoryRuleSets(u: User, sv: Server, c: nat, value: bool)
    requires c < |CATEGORIES|
    ensures SetUser(u, sv, CategoryRule(c, value)) == Ok(SetCategory(u, sv.table, c, value))
  {
    hide SetCategory, FindCategory;
    CategoryFound(c);
  }

  lemma CommandRuleSets(u: User, sv: Server, i: nat, value: bool)
    requires TableOk(sv.table) && i < |sv.table|
    ensures SetUser(u, sv, CommandRule(sv.table, i, value)) == Ok(SetCommand(u, sv.table[i].id, value))
  {
    hide SetCommand, Find;
    CommandFound(sv.table, i);
  }

  lemma SubRuleSets(u: User, sv: Server, i: nat, sub: string)
    requires TableOk(sv.table) && i < |sv.table| && sub != ""
    ensures SetUser(u, sv, AllowSub(sv.table[i].name, sub)) == Ok(AllowSubcommand(u, sv.table[i].id, sub))
  {
    hide AllowSubcommand, Find;
    CommandFound(sv.table, i);
  }

  /** One more category rule. */
  lemma CategoryStep(sv: Server, rules: seq<Rule>, fake: User, c: nat, value: bool)
    requires Rebuilds(sv, rules, fake.bits, map[], fake.allcommands) && c < |CATEGORIES|
    ensures var v := SetCategory(fake, sv.table, c, value);
      Rebuilds(sv, rules + [CategoryRule(c, value)], v.bits, map[], v.allcommands)
  {
    hide SetUser, SetAll, CategoryRule;
    var v := SetCategory(fake, sv.table, c, value);
    assert |v.bits| == BITS;
    forall b: User
      ensures SetUser(WithCommands(b, fake.bits, map[], fake.allcommands), sv, CategoryRule(c, value))
           == Ok(WithCommands(b, v.bits, map[], v.allcommands))
    {
      CategoryRuleSets(WithCommands(b, fake.bits, map[], fake.allcommands), sv, c, value);
    }
    hide SetCategory, WithCommands;
    RebuildsSnoc(sv, rules, fake.bits, map[], fake.allcommands, CategoryRule(c, value), v.bits, map[], v.allcommands);
  }

  /** One more command rule. */
  lemma CommandStep(sv: Server, rules: seq<Rule>, fake: User, subs: map<nat, seq<string>>, i: nat, value: bool)
    requires Rebuilds(sv, rules, fake.bits, subs, fake.allcommands)
    requires TableOk(sv.table) && i < |sv.table| && sv.table[i].id !in subs
    ensures var v := SetBit(fake, sv.table[i].id, value);
      Rebuilds(sv, rules + [CommandRule(sv.table, i, value)], v.bits, subs, v.allcommands)
  {
    hide SetUser, SetAll, CommandRule;
    var v := SetBit(fake, sv.table[i].id, value);
    assert subs - {sv.table[i].id} == subs;
    forall b: User
      ensures SetUser(WithCommands(b, fake.bits, subs, fake.allcommands), sv, CommandRule(sv.table, i, value))
           == Ok(WithCommands(b, v.bits, subs, v.allcommands))
    {
      CommandRuleSets(WithCommands(b, fake.bits, subs, fake.allcommands), sv, i, value);
    }
    hide SetBit, WithCommands;
    RebuildsSnoc(sv, rules, fake.bits, subs, fake.allcommands, CommandRule(sv.table, i, value), v.bits, subs, v.allcommands);
  }

  /** The subcommands of a command. */
  function SubsOf(subs: map<nat, seq<string>>, id: nat): seq<string> {
    if id in subs then subs[id] else []
  }

  /** One more subcommand rule. */
  lemma SubStep(sv: Server, rules: seq<Rule>, fake: User, subs: map<nat, seq<string>>, i: nat, sub: string)
    requires Rebuilds(sv, rules, fake.bits, subs, fake.allcommands)
    requires TableOk(sv.table) && i < |sv.table| && !fake.bits[sv.table[i].id]
    requires sub != "" && !HasSub(SubsOf(subs, sv.table[i].id), sub)
    ensures var id := sv.table[i].id;
      Rebuilds(sv, rules + [AllowSub(sv.table[i].name, sub)], fake.bits, subs[id := SubsOf(subs, id) + [sub]], fake.allcommands)
  {
    hide SetUser, SetAll, HasSub;
    var id := sv.table[i].id;
    var subs' := subs[id := SubsOf(subs, id) + [sub]];
    var r := AllowSub(sv.table[i].name, sub);
    forall b: User
      ensures SetUser(WithCommands(b, fake.bits, subs, fake.allcommands), sv, r)
           == Ok(WithCommands(b, fake.bits, subs', fake.allcommands))
    {
      SubRuleSets(WithCommands(b, fake.bits, subs, fake.allcommands), sv, i, sub);
    }
    hide WithCommands;
    RebuildsSnoc(sv, rules, fake.bits, subs, fake.allcommands, r, fake.bits, subs', fake.allcommands);
  }

  // ----- the description of the commands -----

  ghost predicate HasSubcommand(u: User, sub: string) {
    exists id | id in u.subs :: sub in u.subs[id]
  }

  /** Rules that can be printed, and subcommands that are the user's. */
  ghost predicate Says(rules: seq<Rule>, u: User) {
    forall i | 0 <= i < |rules| :: Printable(rules[i]) && (rules[i].AllowSub? ==> HasSubcommand(u, rules[i].sub))
  }

  lemma SaysSnoc(rules: seq<Rule>, u: User, r: Rule)
    requires Says(rules, u) && Printable(r) && (r.AllowSub? ==> HasSubcommand(u, r.sub))
    ensures Says(rules + [r], u)
  {
  }

  lemma SaysStart(u: User, value: bool)
    ensures Says([if value then AllCommands else NoCommands], u)
  {
  }

  lemma RulesPrintable(t: Table, c: nat, value: bool)
    ensures c < |CATEGORIES| ==> Printable(CategoryRule(c, value)) && !CategoryRule(c, value).AllowSub?
    ensures TableOk(t) && c < |t| ==> Printable(CommandRule(t, c, value)) && !CommandRule(t, c, value).AllowSub?
  {
    hide NameOk;
    if c < |CATEGORIES| {
      assert CATEGORIES[c] in CATEGORIES;
    }
  }

  /** A user of which only the commands matter. */
  function Bare(bits: seq<bool>, all: bool): User {
    User(false, false, false, false, all, false, false, false, bits, map[], [], [], [])
  }

  /** The flag for all commands stands for all bits, and ids without a command follow the bit of future commands. */
  ghost predicate FakeOk(fake: User, u: User, t: Table) {
    && |fake.bits| == |u.bits| == BITS
    && (forall id: nat | id < BITS && !IsId(t, id) :: fake.bits[id] == u.bits[FUTURE])
    && (fake.allcommands ==> AllBits(fake.bits))
    && (AllBits(u.bits) ==> fake.allcommands)
  }

  lemma FakeStart(u: User, t: Table)
    requires CommandsOk(u, t)
    ensures FakeOk(Bare(seq(BITS, _ => u.bits[FUTURE]), u.bits[FUTURE]), u, t)
    ensures AllBits(u.bits) ==> u.bits[FUTURE]
  {
  }

  lemma CategoryLength(u: User, t: Table, c: nat, value: bool)
    ensures |SetCategory(u, t, c, value).bits| == |u.bits|
  {
  }

  lemma PickKeepsFake(fake: User, u: User, t: Table, c: nat, value: bool)
    requires TableOk(t) && FakeOk(fake, u, t) && !AllBits(u.bits)
    ensures FakeOk(SetCategory(fake, t, c, value), u, t)
  {
    var ids := CategoryIds(t, c);
    assert forall id | id in ids :: IsId(t, id);
  }

  ghost function Indices(n: nat): (r: set<nat>)
    ensures forall i: nat :: i in r <==> i < n
  {
    if n == 0 then {} else Indices(n - 1) + {n - 1}
  }

  /** The first pass of ACLDescribeUserCommandRules: categories, the best fit first. */
  method DescribeCategories(u: User, sv: Server) returns (rules: seq<Rule>, fake: User)
    requires TableOk(sv.table) && CommandsOk(u, sv.table)
    ensures rules != [] && rules[0] == if u.bits[FUTURE] then AllCommands else NoCommands
    ensures FakeOk(fake, u, sv.table) && Says(rules, u)
    ensures Rebuilds(sv, rules, fake.bits, map[], fake.allcommands)
  {
    hide Says, IsId, SubsOk, FakeOk, AllBits, Rebuilds, SetCategory, CategoryRule, TableOk, Indices;
    var additive := !u.bits[FUTURE];
    FakeStart(u, sv.table);
    SaysStart(u, !additive);
    rules := [if additive then NoCommands else AllCommands];
    fake := Bare(seq(BITS, _ => !additive), !additive);
    var temp := Bare(u.bits, false);
    var applied: set<nat> := {};
    RebuildsStart(sv, !additive);
    while true
      invariant applied <= Indices(|CATEGORIES|)
      invariant rules != [] && rules[0] == if additive then NoCommands else AllCommands
      invariant FakeOk(fake, u, sv.table) && |temp.bits| == BITS && Says(rules, u)
      invariant AllBits(u.bits) ==> !additive && temp.bits == u.bits
      invariant Rebuilds(sv, rules, fake.bits, map[], fake.allcommands)
      decreases Indices(|CATEGORIES|) - applied
    {
      var best := BestCategory(sv.table, applied, temp.bits, additive);
      if best == -1 {
        break;
      }
      if AllBits(u.bits) {
        NoneOff(sv.table, |sv.table|, best, u.bits);
      }
      CategoryStep(sv, rules, fake, best, additive);
      PickKeepsFake(fake, u, sv.table, best, additive);
      CategoryLength(temp, sv.table, best, !additive);
      RulesPrintable(sv.table, best, additive);
      SaysSnoc(rules, u, CategoryRule(best, additive));
      rules := rules + [CategoryRule(best, additive)];
      fake := SetCategory(fake, sv.table, best, additive);
      temp := SetCategory(temp, sv.table, best, !additive);
      applied := applied + {best};
    }
  }

  /** The subcommands of the first n commands. */
  ghost function Listed(subs: map<nat, seq<string>>, t: Table, n: nat): map<nat, seq<string>>
    requires n <= |t|
  {
    map id | id in subs && IsId(t[..n], id) :: subs[id]
  }

  lemma IdsNext(t: Table, i: nat, id: nat)
    requires i < |t|
    ensures IsId(t[..i + 1], id) <==> IsId(t[..i], id) || id == t[i].id
  {
    if IsId(t[..i], id) {
      var k :| 0 <= k < i && t[..i][k].id == id;
      assert t[..i + 1][k].id == id;
    }
    if id == t[i].id {
      assert t[..i + 1][i].id == id;
    }
    if IsId(t[..i + 1], id) && id != t[i].id {
      var k :| 0 <= k < i + 1 && t[..i + 1][k].id == id;
      assert t[..i][k].id == id;
    }
  }

  lemma ListedNext(u: User, t: Table, i: nat)
    requires TableOk(t) && CommandsOk(u, t) && i < |t|
    ensures t[i].id !in Listed(u.subs, t, i)
    ensures var id := t[i].id;
      Listed(u.subs, t, i + 1) == if id in u.subs then Listed(u.subs, t, i)[id := u.subs[id]] else Listed(u.subs, t, i)
  {
    hide NameOk, SubsOk;
    forall id: nat
      ensures IsId(t[..i + 1], id) <==> IsId(t[..i], id) || id == t[i].id
    {
      IdsNext(t, i, id);
    }
  }

  lemma ListedAll(u: User, t: Table)
    requires CommandsOk(u, t)
    ensures Listed(u.subs, t, |t|) == u.subs
  {
    assert t[..|t|] == t;
  }

  /** Rules for the subcommands of one command that is not allowed as a whole. */
  method DescribeSubs(u: User, sv: Server, i: nat, rules: seq<Rule>, fake: User, ghost subs: map<nat, seq<string>>)
    returns (rules': seq<Rule>)
    requires TableOk(sv.table) && CommandsOk(u, sv.table) && i < |sv.table| && sv.table[i].id in u.subs
    requires sv.table[i].id !in subs && |fake.bits| == BITS && !fake.bits[sv.table[i].id]
    requires Rebuilds(sv, rules, fake.bits, subs, fake.allcommands) && Says(rules, u)
    ensures rules <= rules' && Says(rules', u)
    ensures var id := sv.table[i].id; Rebuilds(sv, rules', fake.bits, subs[id := u.subs[id]], fake.allcommands)
  {
    var id := sv.table[i].id;
    var list := u.subs[id];
    rules' := rules;
    ghost var now := subs;
    assert SubsOk(list);
    for j := 0 to |list|
      invariant rules <= rules' && Says(rules', u)
      invariant now == if j == 0 then subs else subs[id := list[..j]]
      invariant Rebuilds(sv, rules', fake.bits, now, fake.allcommands)
    {
      hide Rebuilds, CommandsOk, Says, NameOk;
      assert SubsOf(now, id) == list[..j];
      assert list[..j + 1] == list[..j] + [list[j]];
      assert !HasSub(list[..j], list[j]);
      SubStep(sv, rules', fake, now, i, list[j]);
      assert list[j] in u.subs[id];
      SaysSnoc(rules', u, AllowSub(sv.table[i].name, list[j]));
      rules' := rules' + [AllowSub(sv.table[i].name, list[j])];
      now := now[id := list[..j + 1]];
    }
    assert list[..|list|] == list;
  }

  /** The fake user has the bits of the first n commands right. */
  ghost predicate Fixed(fake: User, u: User, t: Table, n: nat) {
    && |fake.bits| == |u.bits| == BITS && n <= |t|
    && forall i | 0 <= i < n && t[i].id < BITS :: fake.bits[t[i].id] == u.bits[t[i].id]
  }

  lemma FixKeepsFake(fake: User, u: User, t: Table, i: nat)
    requires TableOk(t) && FakeOk(fake, u, t) && Fixed(fake, u, t, i) && i < |t|
    requires fake.bits[t[i].id] != u.bits[t[i].id]
    ensures var v := SetBit(fake, t[i].id, u.bits[t[i].id]); FakeOk(v, u, t) && Fixed(v, u, t, i + 1)
  {
    assert IsId(t, t[i].id);
  }

  lemma FixedAll(fake: User, u: User, t: Table)
    requires TableOk(t) && CommandsOk(u, t) && FakeOk(fake, u, t) && Fixed(fake, u, t, |t|)
    ensures fake.bits == u.bits && fake.allcommands == AllBits(u.bits)
  {
    forall id: nat | id < BITS
      ensures fake.bits[id] == u.bits[id]
    {
      if IsId(t, id) {
        var i :| 0 <= i < |t| && t[i].id == id;
      }
    }
  }

  /** ACLDescribeUserCommandRules. The bitmaps always match in the end: the check that panics otherwise never fires. */
  method DescribeCommands(u: User, sv: Server) returns (rules: seq<Rule>)
    requires TableOk(sv.table) && CommandsOk(u, sv.table)
    ensures rules != [] && rules[0] == if u.bits[FUTURE] then AllCommands else NoCommands
    ensures Rebuilds(sv, rules, u.bits, u.subs, AllBits(u.bits)) && Says(rules, u)
  {
    hide Rebuilds, Says;
    var fake;
    var t := sv.table;
    rules, fake := DescribeCategories(u, sv);
    for i := 0 to |t|
      invariant rules != [] && rules[0] == if u.bits[FUTURE] then AllCommands else NoCommands
      invariant FakeOk(fake, u, t) && Fixed(fake, u, t, i) && Says(rules, u)
      invariant Rebuilds(sv, rules, fake.bits, Listed(u.subs, t, i), fake.allcommands)
    {
      hide FakeOk, Listed;
      ListedNext(u, t, i);
      var id := t[i].id;
      var userbit := u.bits[id];
      if userbit != fake.bits[id] {
        CommandStep(sv, rules, fake, Listed(u.subs, t, i), i, userbit);
        FixKeepsFake(fake, u, t, i);
        RulesPrintable(t, i, userbit);
        SaysSnoc(rules, u, CommandRule(t, i, userbit));
        rules := rules + [CommandRule(t, i, userbit)];
        fake := SetBit(fake, id, userbit);
      }
      if !userbit && id in u.subs {
        rules := DescribeSubs(u, sv, i, rules, fake, Listed(u.subs, t, i));
      }
    }
    FixedAll(fake, u, t);
    ListedAll(u, t);
    assert fake.bits == u.bits;
  }
}
