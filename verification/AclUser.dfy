/**
 ACL users and the rules that change them. A rule is one operation of ACL
 SETUSER; a command table fixes the commands, their ids and their categories.
 */
module AclUser {
  const BITS: nat := 1024

  /** The bit of future commands: no command has this id. */
  const FUTURE: nat := 1023

  /** ACLCommandCategories, in their order. */
  const CATEGORIES: seq<string> := [
    "keyspace", "read", "write", "set", "sortedset", "list", "hash", "string", "bitmap", "hyperloglog", "geo",
    "stream", "pubsub", "admin", "fast", "slow", "blocking", "dangerous", "connection", "transaction", "scripting"]

  /** A command of the original table; 'cats' are indices into CATEGORIES. */
  datatype Cmd = Cmd(name: string, id: nat, cats: set<nat>, isModule: bool)

  /** The commands in the order the table is walked. */
  type Table = seq<Cmd>

  /** Names and ids are unique, and ids stay below the reserved bit. */
  ghost predicate TableOk(t: Table) {
    && (forall i | 0 <= i < |t| :: t[i].id < FUTURE && NameOk(t[i].name))
    && (forall i, j | 0 <= i < j < |t| :: t[i].id != t[j].id && t[i].name != t[j].name)
  }

  /** Command names are lower case, not empty, and free of spaces and the characters rules give a meaning to. */
  predicate NameOk(name: string) {
    name != "" && name[0] != '@' && Lower(name) == name && '|' !in name && !HasSpaces(name)
  }

  function LowerChar(c: char): char {
    if 'A' <= c <= 'Z' then c - 'A' + 'a' else c
  }

  function Lower(s: string): (r: string)
    ensures |r| == |s| && forall i | 0 <= i < |s| :: r[i] == LowerChar(s[i])
  {
    seq(|s|, i requires 0 <= i < |s| => LowerChar(s[i]))
  }

  /** The rules ACLSetUser understands. */
  datatype Rule =
    | Nothing | Unknown | Reset
    | On | Off | SkipSanitize | Sanitize
    | AllKeys | ResetKeys | KeyPattern(p: string)
    | AllChannels | ResetChannels | ChannelPattern(p: string)
    | AllCommands | NoCommands
    | AllowCommand(name: string) | DenyCommand(name: string) | AllowSub(name: string, sub: string)
    | AllowCategory(cat: string) | DenyCategory(cat: string)
    | NoPass | ResetPass | AddPassword(clear: string) | AddHash(hash: string) | DelPassword(clear: string) | DelHash(hash: string)

  datatype Error = EINVAL | ENOENT | EEXIST | EISDIR | ENODEV | EBADMSG

  datatype User = User(enabled: bool, disabled: bool, allkeys: bool, allchannels: bool, allcommands: bool,
                       nopass: bool, sanitize: bool, skipSanitize: bool,
                       bits: seq<bool>, subs: map<nat, seq<string>>,
                       passwords: seq<string>, patterns: seq<string>, channels: seq<string>)

  datatype Result = Ok(user: User) | Err(error: Error)

  /** The server: its command table, the default of acl-pubsub-default and its password hash. */
  datatype Server = Server(table: Table, channelsByDefault: bool, hash: string -> string)

  /** ACLCheckPasswordHash */
  predicate IsHash(h: string) {
    |h| == 64 && forall i | 0 <= i < 64 :: 'a' <= h[i] <= 'f' || '0' <= h[i] <= '9'
  }

  ghost predicate ServerOk(sv: Server) {
    TableOk(sv.table) && forall s :: IsHash(sv.hash(s))
  }

  /** isspace, or the terminator. */
  predicate HasSpaces(s: string) {
    exists i | 0 <= i < |s| :: s[i] in {' ', '\t', '\n', '\r', 11 as char, 12 as char, 0 as char}
  }

  /** ACLCreateUser */
  function Fresh(sv: Server): User {
    User(false, true, false, sv.channelsByDefault, false, false, false, false,
         seq(BITS, _ => false), map[], [], [], [])
  }

  // ----- commands -----

  function Find(t: Table, name: string): (r: int)
    ensures -1 <= r < |t|
    ensures r >= 0 ==> t[r].name == Lower(name)
    ensures r == -1 ==> forall i | 0 <= i < |t| :: t[i].name != Lower(name)
  {
    if t == [] then -1
    else if t[|t| - 1].name == Lower(name) then |t| - 1
    else Find(t[..|t| - 1], name)
  }

  /** ACLGetCommandCategoryFlagByName */
  function FindCategory(name: string, n: nat): (r: int)
    requires n <= |CATEGORIES|
    ensures -1 <= r < n
    ensures r >= 0 ==> CATEGORIES[r] == Lower(name)
    ensures r == -1 ==> forall i | 0 <= i < n :: CATEGORIES[i] != Lower(name)
  {
    if n == 0 then -1 else if CATEGORIES[n - 1] == Lower(name) then n - 1 else FindCategory(name, n - 1)
  }

  function SetBit(u: User, id: nat, value: bool): (r: User)
    ensures r == u.(bits := r.bits, allcommands := r.allcommands) && |r.bits| == |u.bits|
  {
    if id >= |u.bits| then u
    else u.(bits := u.bits[id := value], allcommands := u.allcommands && value)
  }

  /** The ids a category rule touches; commands of modules are left alone. */
  function CategoryIds(t: Table, cat: nat): set<nat> {
    set i | 0 <= i < |t| && !t[i].isModule && cat in t[i].cats :: t[i].id
  }

  predicate Beyond(ids: set<nat>, n: nat) {
    forall id | id in ids :: id >= n
  }

  /** Every id of a set allowed or denied as a whole; ids beyond the bitmap change nothing. */
  function SetIds(u: User, ids: set<nat>, value: bool): (r: User)
    ensures r == u.(bits := r.bits, subs := r.subs, allcommands := r.allcommands)
  {
    u.(bits := seq(|u.bits|, i requires 0 <= i < |u.bits| => if i in ids then value else u.bits[i]),
       allcommands := u.allcommands && (value || Beyond(ids, |u.bits|)),
       subs := u.subs - ids)
  }

  /** ACLSetUserCommandBitsForCategory */
  function SetCategory(u: User, t: Table, cat: nat, value: bool): (r: User)
    ensures r == u.(bits := r.bits, subs := r.subs, allcommands := r.allcommands)
  {
    SetIds(u, CategoryIds(t, cat), value)
  }

  function SetAllCommands(u: User, value: bool): User {
    u.(bits := seq(|u.bits|, _ => value), allcommands := value, subs := map[])
  }

  predicate HasSub(subs: seq<string>, sub: string) {
    exists i | 0 <= i < |subs| :: Lower(subs[i]) == Lower(sub)
  }

  /** ACLAddAllowedSubcommand */
  function AddSub(u: User, id: nat, sub: string): (r: User)
    ensures r == u.(subs := r.subs)
  {
    var old' := if id in u.subs then u.subs[id] else [];
    if HasSub(old', sub) then u else u.(subs := u.subs[id := old' + [sub]])
  }

  function AddUnique(xs: seq<string>, x: string): seq<string> {
    if x in xs then xs else xs + [x]
  }

  function Remove(xs: seq<string>, x: string): seq<string> {
    if xs == [] then [] else if xs[0] == x then xs[1..] else [xs[0]] + Remove(xs[1..], x)
  }

  // ----- rules -----

  function DelHashed(u: User, h: string): Result {
    if h in u.passwords then Ok(u.(passwords := Remove(u.passwords, h))) else Err(ENODEV)
  }

  function ResetUser(u: User, sv: Server): User {
    SetAllCommands(
      u.(nopass := false, passwords := [], allkeys := false, patterns := [],
         allchannels := sv.channelsByDefault, channels := [],
         enabled := false, disabled := true, sanitize := true, skipSanitize := false), false)
  }

  /** +command and -command: the bit, and no subcommands any more. */
  function SetCommand(u: User, id: nat, value: bool): (r: User)
    ensures r == u.(bits := r.bits, subs := r.subs, allcommands := r.allcommands)
  {
    SetBit(u, id, value).(subs := u.subs - {id})
  }

  /** +command|subcommand: only for a command that is not allowed as a whole. */
  function AllowSubcommand(u: User, id: nat, sub: string): (r: User)
    ensures r == u.(subs := r.subs)
  {
    if id < |u.bits| && u.bits[id] then u else AddSub(u, id, sub)
  }

  /** The rules about one command. */
  function SetCommandRule(u: User, sv: Server, r: Rule): Result
    requires r.AllowCommand? || r.DenyCommand? || r.AllowSub?
  {
    var k := Find(sv.table, r.name);
    if k == -1 then Err(ENOENT)
    else if r.AllowSub? then
      if r.sub == "" then Err(EINVAL) else Ok(AllowSubcommand(u, sv.table[k].id, r.sub))
    else Ok(SetCommand(u, sv.table[k].id, r.AllowCommand?))
  }

  /** ACLSetUser */
  function SetUser(u: User, sv: Server, r: Rule): Result {
    match r
    case Nothing => Ok(u)
    case Unknown => Err(EINVAL)
    case Reset => Ok(ResetUser(u, sv))
    case On => Ok(u.(enabled := true, disabled := false))
    case Off => Ok(u.(enabled := false, disabled := true))
    case SkipSanitize => Ok(u.(skipSanitize := true, sanitize := false))
    case Sanitize => Ok(u.(skipSanitize := false, sanitize := true))
    case AllKeys => Ok(u.(allkeys := true, patterns := []))
    case ResetKeys => Ok(u.(allkeys := false, patterns := []))
    case AllChannels => Ok(u.(allchannels := true, channels := []))
    case ResetChannels => Ok(u.(allchannels := false, channels := []))
    case AllCommands => Ok(SetAllCommands(u, true))
    case NoCommands => Ok(SetAllCommands(u, false))
    case NoPass => Ok(u.(nopass := true, passwords := []))
    case ResetPass => Ok(u.(nopass := false, passwords := []))
    case AddPassword(clear) => Ok(u.(passwords := AddUnique(u.passwords, sv.hash(clear)), nopass := false))
    case AddHash(h) =>
      if !IsHash(h) then Err(EBADMSG) else Ok(u.(passwords := AddUnique(u.passwords, h), nopass := false))
    case DelPassword(clear) => DelHashed(u, sv.hash(clear))
    case DelHash(h) => if !IsHash(h) then Err(EBADMSG) else DelHashed(u, h)
    case KeyPattern(p) =>
      if u.allkeys then Err(EEXIST)
      else if HasSpaces(p) then Err(EINVAL)
      else Ok(u.(patterns := AddUnique(u.patterns, p)))
    case ChannelPattern(p) =>
      if u.allchannels then Err(EISDIR)
      else if HasSpaces(p) then Err(EINVAL)
      else Ok(u.(channels := AddUnique(u.channels, p)))
    case AllowCommand(_) => SetCommandRule(u, sv, r)
    case DenyCommand(_) => SetCommandRule(u, sv, r)
    case AllowSub(_, _) => SetCommandRule(u, sv, r)
    case AllowCategory(name) =>
      var c := FindCategory(name, |CATEGORIES|);
      if c == -1 then Err(ENOENT) else Ok(SetCategory(u, sv.table, c, true))
    case DenyCategory(name) =>
      var c := FindCategory(name, |CATEGORIES|);
      if c == -1 then Err(ENOENT) else Ok(SetCategory(u, sv.table, c, false))
  }

  /** Rules in order, up to the first that fails. */
  function SetAll(u: User, sv: Server, rules: seq<Rule>): Result {
    if rules == [] then Ok(u)
    else match SetAll(u, sv, rules[..|rules| - 1])
      case Err(e) => Err(e)
      case Ok(v) => SetUser(v, sv, rules[|rules| - 1])
  }
}
