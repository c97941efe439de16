/**
 A user as the server holds it: flags, a bitmap and lists updated in place by
 the rules, proved against the rules as functions on values.
 */
module AclAccount {
  import opened AclUser
  import opened AclText

  datatype Outcome = Done | Failed(error: Error)

  class Account {
    var enabled: bool
    var disabled: bool
    var allkeys: bool
    var allchannels: bool
    var allcommands: bool
    var nopass: bool
    var sanitize: bool
    var skipSanitize: bool
    const bits: array<bool>
    var subs: map<nat, seq<string>>
    var passwords: seq<string>
    var patterns: seq<string>
    var channels: seq<string>

    ghost predicate Valid()
      reads this
    {
      bits.Length == BITS
    }

    ghost function Value(): User
      reads this, bits
    {
      User(enabled, disabled, allkeys, allchannels, allcommands, nopass, sanitize, skipSanitize,
           bits[..], subs, passwords, patterns, channels)
    }

    /** ACLCreateUser */
    constructor (channelsByDefault: bool)
      ensures Valid() && fresh(bits)
      ensures forall sv: Server | sv.channelsByDefault == channelsByDefault :: Value() == Fresh(sv)
    {
      enabled, disabled, allkeys, allchannels, allcommands := false, true, false, channelsByDefault, false;
      nopass, sanitize, skipSanitize := false, false, false;
      bits := new bool[BITS](_ => false);
      subs, passwords, patterns, channels := map[], [], [], [];
      new;
      assert bits[..] == seq(BITS, _ => false);
    }

    /** ACLSetUserCommandBit */
    method SetCommandBit(id: nat, value: bool)
      requires Valid()
      modifies this, bits
      ensures Valid() && Value() == SetBit(old(Value()), id, value)
    {
      if id >= bits.Length {
        return;
      }
      bits[id] := value;
      if !value {
        allcommands := false;
      }
      assert bits[..] == old(bits[..])[id := value];
    }

    /** ACLSetUserCommandBitsForCategory, for a category that exists. */
    method SetCategoryBits(t: Table, cat: nat, value: bool)
      requires Valid()
      modifies this, bits
      ensures Valid() && Value() == SetCategory(old(Value()), t, cat, value)
    {
      ghost var was := Value();
      CategoryNone(was, cat, value);
      for i := 0 to |t|
        invariant Valid() && Value() == SetCategory(was, t[..i], cat, value)
      {
        hide SetCategory, SetBit;
        if !t[i].isModule && cat in t[i].cats {
          SetCommandBit(t[i].id, value);
          subs := subs - {t[i].id};
          CategoryNext(was, t, i, cat, value);
        } else {
          CategorySkips(was, t, i, cat, value);
        }
      }
      assert t[..|t|] == t;
    }

    method SetAllBits(value: bool)
      requires Valid()
      modifies this, bits
      ensures Valid() && Value() == SetAllCommands(old(Value()), value)
    {
      forall i | 0 <= i < bits.Length {
        bits[i] := value;
      }
      assert bits[..] == seq(bits.Length, _ => value);
      allcommands := value;
      subs := map[];
    }

    /** The rules about one command. */
    method SetCommand(sv: Server, r: Rule) returns (res: Outcome)
      requires Valid() && (r.AllowCommand? || r.DenyCommand? || r.AllowSub?)
      modifies this, bits
      ensures Valid() && Agrees(res, Value(), old(Value()), SetUser(old(Value()), sv, r))
    {
      hide Find;
      var k := Find(sv.table, r.name);
      if k == -1 {
        return Failed(ENOENT);
      }
      var id := sv.table[k].id;
      if r.AllowSub? {
        if r.sub == "" {
          return Failed(EINVAL);
        }
        if id >= bits.Length || !bits[id] {
          AddSubcommand(id, r.sub);
        }
      } else {
        SetCommandBit(id, r.AllowCommand?);
        subs := subs - {id};
      }
      return Done;
    }

    /** ACLAddAllowedSubcommand: appended unless it is there already, whatever its case. */
    method AddSubcommand(id: nat, sub: string)
      requires Valid()
      modifies this`subs
      ensures Valid() && Value() == AddSub(old(Value()), id, sub)
    {
      var list := if id in subs then subs[id] else [];
      var items := 0;
      while items < |list|
        invariant 0 <= items <= |list|
        invariant forall k | 0 <= k < items :: Lower(list[k]) != Lower(sub)
      {
        if Lower(list[items]) == Lower(sub) {
          return;
        }
        items := items + 1;
      }
      subs := subs[id := list + [sub]];
    }

    /** A password hash added or removed. */
    method SetPassword(h: string, add: bool) returns (res: Outcome)
      requires Valid()
      modifies this
      ensures Valid()
      ensures if add then res == Done && Value() == old(Value()).(passwords := AddUnique(old(passwords), h), nopass := false)
              else Agrees(res, Value(), old(Value()), DelHashed(old(Value()), h))
    {
      var i := 0;
      while i < |passwords| && passwords[i] != h
        invariant 0 <= i <= |passwords| && h !in passwords[..i]
      {
        assert passwords[..i + 1] == passwords[..i] + [passwords[i]];
        i := i + 1;
      }
      if add {
        if i == |passwords| {
          assert passwords[..i] == passwords;
          passwords := passwords + [h];
        }
        nopass := false;
        return Done;
      }
      if i == |passwords| {
        assert passwords[..i] == passwords;
        return Failed(ENODEV);
      }
      RemoveAt(passwords, i);
      passwords := passwords[..i] + passwords[i + 1..];
      return Done;
    }

    method SetEnabled(sv: Server, r: Rule)
      requires Valid() && (r.Nothing? || r.On? || r.Off?)
      modifies this
      ensures Valid() && Ok(Value()) == SetUser(old(Value()), sv, r)
    {
      hide SetUser;
      FlagSets(Value(), sv);
      match r {
        case On => enabled, disabled := true, false;
        case Off => enabled, disabled := false, true;
        case _ =>
      }
    }

    method SetSanitize(sv: Server, r: Rule)
      requires Valid() && (r.SkipSanitize? || r.Sanitize?)
      modifies this
      ensures Valid() && Ok(Value()) == SetUser(old(Value()), sv, r)
    {
      hide SetUser;
      FlagSets(Value(), sv);
      skipSanitize, sanitize := r.SkipSanitize?, r.Sanitize?;
    }

    /** The flags of the user itself. */
    method SetFlag(sv: Server, r: Rule)
      requires Valid() && IsFlag(r)
      modifies this
      ensures Valid() && Ok(Value()) == SetUser(old(Value()), sv, r)
    {
      hide SetUser;
      FlagSets(Value(), sv);
      if r.SkipSanitize? || r.Sanitize? {
        SetSanitize(sv, r);
      } else if r.NoPass? || r.ResetPass? {
        nopass, passwords := r.NoPass?, [];
      } else {
        SetEnabled(sv, r);
      }
    }

    /** Everything or nothing of a kind. */
    method SetWhole(sv: Server, r: Rule)
      requires Valid() && IsWhole(r)
      modifies this, bits
      ensures Valid() && Ok(Value()) == SetUser(old(Value()), sv, r)
    {
      hide SetAllCommands, SetUser;
      WholeSets(Value(), sv);
      if r.AllKeys? || r.ResetKeys? {
        allkeys, patterns := r.AllKeys?, [];
      } else if r.AllChannels? || r.ResetChannels? {
        allchannels, channels := r.AllChannels?, [];
      } else {
        SetAllBits(r.AllCommands?);
      }
    }

    /** The rule 'reset': other rules one after the other. */
    method ResetAll(sv: Server)
      requires Valid()
      modifies this, bits
      ensures Valid() && Value() == ResetUser(old(Value()), sv)
    {
      hide SetUser, ResetUser;
      ghost var v0 := Value();
      SetFlag(sv, ResetPass);
      ghost var v1 := Value();
      SetWhole(sv, ResetKeys);
      ghost var v2 := Value();
      SetWhole(sv, ResetChannels);
      ghost var v3 := Value();
      if sv.channelsByDefault {
        SetWhole(sv, AllChannels);
      }
      ghost var v4 := Value();
      ResetFirst(v0, v1, v2, v3, v4, sv);
      SetFlag(sv, Off);
      ghost var v5 := Value();
      SetFlag(sv, Sanitize);
      ghost var v6 := Value();
      SetWhole(sv, NoCommands);
      ResetRest(v0, v4, v5, v6, Value(), sv);
    }

    /** Passwords and patterns. */
    method SetList(sv: Server, r: Rule) returns (res: Outcome)
      requires Valid()
      requires r.AddPassword? || r.AddHash? || r.DelPassword? || r.DelHash? || r.KeyPattern? || r.ChannelPattern?
      modifies this
      ensures Valid() && Agrees(res, Value(), old(Value()), SetUser(old(Value()), sv, r))
    {
      hide IsHash, HasSpaces, AddUnique, DelHashed, SetUser;
      ListSets(Value(), sv, r);
      if r.KeyPattern? {
        if allkeys {
          return Failed(EEXIST);
        }
        if HasSpaces(r.p) {
          return Failed(EINVAL);
        }
        patterns := AddUnique(patterns, r.p);
        return Done;
      }
      if r.ChannelPattern? {
        if allchannels {
          return Failed(EISDIR);
        }
        if HasSpaces(r.p) {
          return Failed(EINVAL);
        }
        channels := AddUnique(channels, r.p);
        return Done;
      }
      if (r.AddHash? || r.DelHash?) && !IsHash(r.hash) {
        return Failed(EBADMSG);
      }
      var h := if r.AddHash? || r.DelHash? then r.hash else sv.hash(r.clear);
      res := SetPassword(h, r.AddPassword? || r.AddHash?);
    }

    /** ACLSetUser: as the function on values says, and nothing changes when it fails. */
    method Set(sv: Server, r: Rule) returns (res: Outcome)
      requires Valid()
      modifies this, bits
      ensures Valid() && Agrees(res, Value(), old(Value()), SetUser(old(Value()), sv, r))
    {
      hide SetCategory, SetCommandRule, FindCategory, ResetUser;
      if IsFlag(r) {
        SetFlag(sv, r);
        return Done;
      } else if IsWhole(r) {
        SetWhole(sv, r);
        return Done;
      } else if r.Reset? {
        ResetAll(sv);
        return Done;
      } else if r.Unknown? {
        return Failed(EINVAL);
      } else if r.AllowCategory? || r.DenyCategory? {
        res := SetCategoryRule(sv, r);
      } else if r.AllowCommand? || r.DenyCommand? || r.AllowSub? {
        res := SetCommand(sv, r);
      } else {
        res := SetList(sv, r);
      }
    }

    /** ACLSetUser on the text of an operation. */
    method SetText(sv: Server, op: string) returns (res: Outcome)
      requires Valid()
      modifies this, bits
      ensures Valid() && Agrees(res, Value(), old(Value()), SetUser(old(Value()), sv, Parse(op)))
    {
      hide SetUser, Parse;
      res := Set(sv, Parse(op));
    }

    method SetCategoryRule(sv: Server, r: Rule) returns (res: Outcome)
      requires Valid() && (r.AllowCategory? || r.DenyCategory?)
      modifies this, bits
      ensures Valid() && Agrees(res, Value(), old(Value()), SetUser(old(Value()), sv, r))
    {
      hide SetCategory, FindCategory;
      var c := FindCategory(r.cat, |CATEGORIES|);
      if c == -1 {
        return Failed(ENOENT);
      }
      SetCategoryBits(sv.table, c, r.AllowCategory?);
      return Done;
    }
  }

  predicate IsFlag(r: Rule) {
    r.Nothing? || r.On? || r.Off? || r.SkipSanitize? || r.Sanitize? || r.NoPass? || r.ResetPass?
  }

  predicate IsWhole(r: Rule) {
    r.AllKeys? || r.ResetKeys? || r.AllChannels? || r.ResetChannels? || r.AllCommands? || r.NoCommands?
  }

  /** The outcome and the new value are those of the function; a failure changes nothing. */
  ghost predicate Agrees(res: Outcome, now: User, was: User, spec: Result) {
    match spec
    case Ok(v) => res == Done && now == v
    case Err(e) => res == Failed(e) && now == was
  }

  lemma FlagSets(v: User, sv: Server)
    ensures SetUser(v, sv, Nothing) == Ok(v)
    ensures SetUser(v, sv, On) == Ok(v.(enabled := true, disabled := false))
    ensures SetUser(v, sv, Off) == Ok(v.(enabled := false, disabled := true))
    ensures SetUser(v, sv, SkipSanitize) == Ok(v.(skipSanitize := true, sanitize := false))
    ensures SetUser(v, sv, Sanitize) == Ok(v.(skipSanitize := false, sanitize := true))
    ensures SetUser(v, sv, NoPass) == Ok(v.(nopass := true, passwords := []))
    ensures SetUser(v, sv, ResetPass) == Ok(v.(nopass := false, passwords := []))
  {
  }

  lemma WholeSets(v: User, sv: Server)
    ensures SetUser(v, sv, AllKeys) == Ok(v.(allkeys := true, patterns := []))
    ensures SetUser(v, sv, ResetKeys) == Ok(v.(allkeys := false, patterns := []))
    ensures SetUser(v, sv, AllChannels) == Ok(v.(allchannels := true, channels := []))
    ensures SetUser(v, sv, ResetChannels) == Ok(v.(allchannels := false, channels := []))
    ensures SetUser(v, sv, AllCommands) == Ok(SetAllCommands(v, true))
    ensures SetUser(v, sv, NoCommands) == Ok(SetAllCommands(v, false))
  {
    hide SetAllCommands;
  }

  lemma ListSets(v: User, sv: Server, r: Rule)
    ensures r.KeyPattern? ==>
      SetUser(v, sv, r) == if v.allkeys then Err(EEXIST) else if HasSpaces(r.p) then Err(EINVAL)
                           else Ok(v.(patterns := AddUnique(v.patterns, r.p)))
    ensures r.ChannelPattern? ==>
      SetUser(v, sv, r) == if v.allchannels then Err(EISDIR) else if HasSpaces(r.p) then Err(EINVAL)
                           else Ok(v.(channels := AddUnique(v.channels, r.p)))
    ensures r.AddHash? || r.DelHash? ==> IsHash(r.hash) || SetUser(v, sv, r) == Err(EBADMSG)
    ensures r.AddPassword? || (r.AddHash? && IsHash(r.hash)) ==>
      SetUser(v, sv, r) == Ok(v.(passwords := AddUnique(v.passwords, if r.AddHash? then r.hash else sv.hash(r.clear)), nopass := false))
    ensures r.DelPassword? || (r.DelHash? && IsHash(r.hash)) ==>
      SetUser(v, sv, r) == DelHashed(v, if r.DelHash? then r.hash else sv.hash(r.clear))
  {
    hide IsHash, HasSpaces, AddUnique, DelHashed;
  }

  lemma ResetFirst(v0: User, v1: User, v2: User, v3: User, v4: User, sv: Server)
    requires SetUser(v0, sv, ResetPass) == Ok(v1) && SetUser(v1, sv, ResetKeys) == Ok(v2)
    requires SetUser(v2, sv, ResetChannels) == Ok(v3)
    requires if sv.channelsByDefault then SetUser(v3, sv, AllChannels) == Ok(v4) else v4 == v3
    ensures v4 == v0.(nopass := false, passwords := [], allkeys := false, patterns := [],
                      allchannels := sv.channelsByDefault, channels := [])
  {
  }

  lemma ResetRest(v0: User, v4: User, v5: User, v6: User, v7: User, sv: Server)
    requires v4 == v0.(nopass := false, passwords := [], allkeys := false, patterns := [],
                       allchannels := sv.channelsByDefault, channels := [])
    requires SetUser(v4, sv, Off) == Ok(v5) && SetUser(v5, sv, Sanitize) == Ok(v6) && SetUser(v6, sv, NoCommands) == Ok(v7)
    ensures v7 == ResetUser(v0, sv)
  {
  }

  lemma CategoryNone(was: User, cat: nat, value: bool)
    ensures SetCategory(was, [], cat, value) == was
  {
    var r := SetCategory(was, [], cat, value);
    assert r.bits == was.bits && r.subs == was.subs;
  }

  lemma CategoryNext(was: User, t: Table, i: nat, cat: nat, value: bool)
    requires i < |t| && !t[i].isModule && cat in t[i].cats
    ensures var before := SetCategory(was, t[..i], cat, value);
      SetCategory(was, t[..i + 1], cat, value)
      == SetBit(before, t[i].id, value).(subs := before.subs - {t[i].id})
  {
    IdsOfCategory(t, i, cat);
    hide CategoryIds, SetIds, SetBit;
    SetOneMore(was, CategoryIds(t[..i], cat), t[i].id, value);
  }

  lemma SetOneMore(was: User, ids: set<nat>, id: nat, value: bool)
    ensures var before := SetIds(was, ids, value);
      SetIds(was, ids + {id}, value) == SetBit(before, id, value).(subs := before.subs - {id})
  {
    var before := SetIds(was, ids, value);
    var after := SetIds(was, ids + {id}, value);
    BitsOneMore(was, ids, id, value);
    assert after.subs == before.subs - {id};
    FlagOneMore(was, ids, id, value);
    hide SetIds, SetBit;
  }

  lemma BitsOneMore(was: User, ids: set<nat>, id: nat, value: bool)
    ensures SetIds(was, ids + {id}, value).bits == SetBit(SetIds(was, ids, value), id, value).bits
  {
  }

  lemma BeyondMore(ids: set<nat>, id: nat, n: nat)
    ensures Beyond(ids + {id}, n) <==> Beyond(ids, n) && id >= n
  {
    assert id in ids + {id};
  }

  lemma FlagOneMore(was: User, ids: set<nat>, id: nat, value: bool)
    ensures SetIds(was, ids + {id}, value).allcommands == SetBit(SetIds(was, ids, value), id, value).allcommands
  {
    BeyondMore(ids, id, |was.bits|);
    hide Beyond;
  }

  lemma CategorySkips(was: User, t: Table, i: nat, cat: nat, value: bool)
    requires i < |t| && (t[i].isModule || cat !in t[i].cats)
    ensures SetCategory(was, t[..i + 1], cat, value) == SetCategory(was, t[..i], cat, value)
  {
    IdsOfCategory(t, i, cat);
  }

  lemma IdsOfCategory(t: Table, i: nat, cat: nat)
    requires i < |t|
    ensures CategoryIds(t[..i + 1], cat)
         == CategoryIds(t[..i], cat) + if !t[i].isModule && cat in t[i].cats then {t[i].id} else {}
  {
    var a, b := CategoryIds(t[..i], cat), CategoryIds(t[..i + 1], cat);
    forall id | id in a
      ensures id in b
    {
      var k :| 0 <= k < i && !t[k].isModule && cat in t[k].cats && t[k].id == id;
      assert t[..i + 1][k] == t[k];
    }
    assert t[..i + 1][i] == t[i];
  }

  lemma {:induction false} RemoveAt(xs: seq<string>, i: nat)
    requires i < |xs| && xs[i] !in xs[..i]
    ensures Remove(xs, xs[i]) == xs[..i] + xs[i + 1..]
  {
    if i > 0 {
      assert xs[i] != xs[0] by {
        assert xs[..i][0] == xs[0];
      }
      assert xs[1..][..i - 1] == xs[..i][1..];
      RemoveAt(xs[1..], i - 1);
    }
  }
}
