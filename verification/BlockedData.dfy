/**
 What serving clients does to the lists and sorted sets they wait for, and that
 no element is lost or made up on the way.
 */
module BlockedData {
  import opened Common
  import opened BlockedIndex
  import opened BlockedOrder
  import opened BlockedState

  /** A list and the element a client takes from it: popped where the client says, and pushed to the list it asks for, a new
      one if need be; put back if that is not a list. */
  ghost function Serve(data: Data, k: Key, w: Waiting): Data {
    if k !in data || !data[k].List? || data[k].items == [] then data
    else
      var (value, rest) := Pop(data[k].items, w.from);
      var popped := data[k := List(rest)];
      if w.target.None? then popped
      else
        var dst := w.target.value;
        if dst !in popped then popped[dst := List([value])]
        else if popped[dst].List? then popped[dst := List(Push(popped[dst].items, value, w.to))]
        else data
  }

  /** Clients served in turn. */
  ghost function ServeAll(data: Data, k: Key, clients: Clients, q: seq<Client>): Data {
    if q == [] then data
    else
      var before := ServeAll(data, k, clients, q[..|q| - 1]);
      if q[|q| - 1] in clients then Serve(before, k, clients[q[|q| - 1]]) else before
  }

  /** Whether a client can be given an element: not if it asks for it to be pushed to a key that is not a list. */
  ghost predicate Accepts(data: Data, w: Waiting) {
    w.target.Some? && w.target.value in data ==> data[w.target.value].List?
  }

  /** What one client is given. */
  ghost function Gift(data: Data, k: Key, w: Waiting): seq<string> {
    if k in data && data[k].List? && data[k].items != [] && Accepts(data, w) then [Pop(data[k].items, w.from).0] else []
  }

  /** What clients are given, in turn. */
  ghost function Gifts(data: Data, k: Key, clients: Clients, q: seq<Client>): seq<string> {
    if q == [] then []
    else
      var before := ServeAll(data, k, clients, q[..|q| - 1]);
      Gifts(data, k, clients, q[..|q| - 1])
      + if q[|q| - 1] in clients then Gift(before, k, clients[q[|q| - 1]]) else []
  }

  /** What one client takes out of the lists: nothing if it moves the element to another. */
  ghost function Take(data: Data, k: Key, w: Waiting): multiset<string> {
    if w.target.None? then multiset(Gift(data, k, w)) else multiset{}
  }

  /** What clients take out of the lists, in turn. */
  ghost function Taken(data: Data, k: Key, clients: Clients, q: seq<Client>): multiset<string> {
    if q == [] then multiset{}
    else
      var before := ServeAll(data, k, clients, q[..|q| - 1]);
      Taken(data, k, clients, q[..|q| - 1]) + if q[|q| - 1] in clients then Take(before, k, clients[q[|q| - 1]]) else multiset{}
  }

  /** The elements given to clients, in order, and those of them that have left the lists. */
  datatype Log = Log(gifts: seq<string>, taken: multiset<string>)

  ghost function Noted(log: Log, data: Data, k: Key, w: Waiting): Log {
    Log(log.gifts + Gift(data, k, w), log.taken + Take(data, k, w))
  }

  ghost function LogAfter(was: Data, k: Key, clients: Clients, q: seq<Client>, log: Log): Log {
    Log(log.gifts + Gifts(was, k, clients, q), log.taken + Taken(was, k, clients, q))
  }

  lemma ServeOne(was: Data, k: Key, clients: Clients, q: seq<Client>, c: Client)
    requires c in clients
    ensures var now := ServeAll(was, k, clients, q);
      && ServeAll(was, k, clients, q + [c]) == Serve(now, k, clients[c])
      && Gifts(was, k, clients, q + [c]) == Gifts(was, k, clients, q) + Gift(now, k, clients[c])
      && Taken(was, k, clients, q + [c]) == Taken(was, k, clients, q) + Take(now, k, clients[c])
  {
    hide Serve, Gift, Take;
    var next := q + [c];
    assert next[..|next| - 1] == q && next[|next| - 1] == c;
  }

  // ----- a pass over a list -----

  /** The next client could be served, but no element is left for it. */
  ghost predicate Stops(data: Data, k: Key, clients: Clients, q: seq<Client>, j: nat)
    requires j < |q|
  {
    && q[j] in clients && clients[q[j]].btype == LIST
    && ItemsAt(ServeAll(data, k, clients, Pick(clients, q[..j], LIST, true)), k) == []
  }

  ghost function StopFrom(data: Data, k: Key, clients: Clients, q: seq<Client>, i: nat): (p: nat)
    requires i <= |q|
    ensures i <= p <= |q| && (p < |q| ==> Stops(data, k, clients, q, p))
    ensures forall j | i <= j < p :: !Stops(data, k, clients, q, j)
    decreases |q| - i
  {
    if i == |q| || Stops(data, k, clients, q, i) then i else StopFrom(data, k, clients, q, i + 1)
  }

  /** How many clients a pass over a list looks at: it stops at the first that could be served and finds no element. */
  ghost function ListStop(data: Data, k: Key, clients: Clients, q: seq<Client>): nat {
    StopFrom(data, k, clients, q, 0)
  }

  /** A pass over a list, p clients in: each of the picked ones found an element and was served. */
  ghost predicate Giving(was: Data, k: Key, clients: Clients, q: seq<Client>, p: nat, data: Data, before: Log, log: Log)
    requires p <= |q|
  {
    var picked := Pick(clients, q[..p], LIST, true);
    && data == ServeAll(was, k, clients, picked)
    && log == LogAfter(was, k, clients, picked, before)
    && forall j | 0 <= j < p :: !Stops(was, k, clients, q, j)
  }

  lemma GivingStart(was: Data, k: Key, clients: Clients, q: seq<Client>, log: Log)
    ensures Giving(was, k, clients, q, 0, was, log, log)
  {
  }

  lemma NotedAfter(was: Data, k: Key, clients: Clients, q: seq<Client>, c: Client, before: Log)
    requires c in clients
    ensures Noted(LogAfter(was, k, clients, q, before), ServeAll(was, k, clients, q), k, clients[c])
         == LogAfter(was, k, clients, q + [c], before)
  {
    ServeOne(was, k, clients, q, c);
    hide ServeAll, Gift, Gifts, Take, Taken;
    var now := ServeAll(was, k, clients, q);
    assert before.gifts + (Gifts(was, k, clients, q) + Gift(now, k, clients[c]))
        == (before.gifts + Gifts(was, k, clients, q)) + Gift(now, k, clients[c]);
    assert before.taken + (Taken(was, k, clients, q) + Take(now, k, clients[c]))
        == (before.taken + Taken(was, k, clients, q)) + Take(now, k, clients[c]);
  }

  lemma GivingNext(was: Data, k: Key, clients: Clients, q: seq<Client>, p: nat, data: Data, before: Log, log: Log)
    requires p < |q| && q[p] in clients && Giving(was, k, clients, q, p, data, before, log)
    ensures var w := clients[q[p]];
      if w.btype != LIST then Giving(was, k, clients, q, p + 1, data, before, log)
      else ItemsAt(data, k) != [] ==> Giving(was, k, clients, q, p + 1, Serve(data, k, w), before, Noted(log, data, k, w))
  {
    hide Pick, Serve, ServeAll, LogAfter, Noted, ItemsAt;
    var picked := Pick(clients, q[..p], LIST, true);
    PickNext(clients, q, LIST, true, p);
    assert Pick(clients, q[..p + 1], LIST, true) == if clients[q[p]].btype == LIST then picked + [q[p]] else picked;
    assert Stops(was, k, clients, q, p) <==> clients[q[p]].btype == LIST && ItemsAt(data, k) == [];
    hide Stops;
    if clients[q[p]].btype == LIST {
      ServeOne(was, k, clients, picked, q[p]);
      NotedAfter(was, k, clients, picked, q[p], before);
    }
  }

  /** Where the pass ends is where it had to. */
  lemma GivingStops(was: Data, k: Key, clients: Clients, q: seq<Client>, p: nat, data: Data, before: Log, log: Log)
    requires p <= |q| && Giving(was, k, clients, q, p, data, before, log)
    requires p < |q| ==> q[p] in clients && clients[q[p]].btype == LIST && ItemsAt(data, k) == []
    ensures p == ListStop(was, k, clients, q)
  {
    hide ServeAll, Pick, LogAfter;
    assert p < |q| ==> Stops(was, k, clients, q, p);
    hide Stops;
  }

  /** Clients of another type keep their order in a pass over a list if and only if they all wait before the client at
      which it stops, or all after. */
  lemma ListKeepsOthersIff(data: Data, k: Key, clients: Clients, q: seq<Client>, u: BType)
    requires u != LIST && Distinct(q)
    ensures var p := ListStop(data, k, clients, q);
      Pick(clients, Pass(clients, q, LIST, p), u, true) == Pick(clients, q, u, true)
      <==> Pick(clients, q[..p], u, true) == [] || Pick(clients, q[p..], u, true) == []
  {
    hide Pick, Pass, StopFrom;
    OthersKeepOrderIff(clients, q, LIST, ListStop(data, k, clients, q), u);
  }

  /** Members taken from either end, in turn. */
  ghost function PopAll(items: seq<string>, clients: Clients, q: seq<Client>): seq<string> {
    if q == [] then items
    else
      var before := PopAll(items, clients, q[..|q| - 1]);
      if before == [] || q[|q| - 1] !in clients then before else Pop(before, clients[q[|q| - 1]].from).1
  }

  lemma PopNext(items: seq<string>, clients: Clients, q: seq<Client>, t: BType, p: nat)
    requires p < |q| && q[p] in clients
    ensures var now := PopAll(items, clients, Pick(clients, q[..p], t, true));
      PopAll(items, clients, Pick(clients, q[..p + 1], t, true))
      == if clients[q[p]].btype == t && now != [] then Pop(now, clients[q[p]].from).1 else now
  {
    PickNext(clients, q, t, true, p);
    var picked := Pick(clients, q[..p], t, true);
    PopOne(items, clients, picked, q[p]);
    hide Pick, PopAll;
    assert Pick(clients, q[..p + 1], t, true) == if clients[q[p]].btype == t then picked + [q[p]] else picked;
  }

  lemma PopOne(items: seq<string>, clients: Clients, q: seq<Client>, c: Client)
    requires c in clients
    ensures var now := PopAll(items, clients, q);
      PopAll(items, clients, q + [c]) == if now != [] then Pop(now, clients[c].from).1 else now
  {
    var next := q + [c];
    assert next[..|next| - 1] == q && next[|next| - 1] == c;
  }

  /** A sorted set under a key, or no key when nothing is left of it. */
  ghost function WithMembers(data: Data, k: Key, members: seq<string>): Data {
    if members == [] then data - {k} else data[k := ZSet(members)]
  }

  /** A pass over a sorted set, p clients in: each of the picked ones has taken a member. */
  ghost predicate Taking(was: Data, k: Key, clients: Clients, q: seq<Client>, p: nat, data: Data, zcard: int)
    requires k in was && was[k].ZSet? && p <= |q|
  {
    var left := PopAll(was[k].members, clients, Pick(clients, q[..p], ZSET, true));
    data == WithMembers(was, k, left) && zcard == |left|
  }

  lemma TakingStart(was: Data, k: Key, clients: Clients, q: seq<Client>)
    requires k in was && was[k].ZSet?
    ensures Taking(was, k, clients, q, 0, was, |was[k].members|)
  {
    assert was[k := ZSet(was[k].members)] == was;
  }

  lemma TakingNext(was: Data, k: Key, clients: Clients, q: seq<Client>, p: nat, data: Data, zcard: int)
    requires k in was && was[k].ZSet? && p < |q| && q[p] in clients && zcard > 0
    requires Taking(was, k, clients, q, p, data, zcard)
    ensures k in data && data[k].ZSet? && |data[k].members| == zcard
    ensures if clients[q[p]].btype != ZSET then Taking(was, k, clients, q, p + 1, data, zcard)
      else
        var data' := if zcard == 1 then data - {k} else data[k := ZSet(Pop(data[k].members, clients[q[p]].from).1)];
        Taking(was, k, clients, q, p + 1, data', zcard - 1)
  {
    PopNext(was[k].members, clients, q, ZSET, p);
    hide Pick, PopAll;
    if clients[q[p]].btype == ZSET && zcard == 1 {
      assert data - {k} == was - {k};
    }
  }

  lemma TakingEnds(was: Data, k: Key, clients: Clients, q: seq<Client>, p: nat, data: Data, zcard: int)
    requires k in was && was[k].ZSet? && p <= |q| && Taking(was, k, clients, q, p, data, zcard)
    ensures data == WithMembers(was, k, PopAll(was[k].members, clients, Pick(clients, q[..p], ZSET, true)))
    ensures k in data <==> zcard != 0
    ensures k in data ==> data[k].ZSet?
  {
  }

  /** An empty list is deleted. */
  ghost function Cleaned(data: Data, k: Key): Data {
    if k in data && data[k] == List([]) then data - {k} else data
  }

  // ----- no element is lost or made up -----

  ghost function ItemsAt(data: Data, k: Key): seq<string> {
    if k in data && data[k].List? then data[k].items else []
  }

  /** How often an element occurs in some lists. */
  ghost function Held(data: Data, keys: seq<Key>, x: string): nat {
    if keys == [] then 0 else multiset(ItemsAt(data, keys[0]))[x] + Held(data, keys[1..], x)
  }

  lemma {:induction false} HeldElsewhere(data: Data, data': Data, keys: seq<Key>, x: string)
    requires forall j | j in keys :: ItemsAt(data, j) == ItemsAt(data', j)
    ensures Held(data, keys, x) == Held(data', keys, x)
  {
    if keys != [] {
      HeldElsewhere(data, data', keys[1..], x);
    }
  }

  lemma {:induction false} HeldChange(data: Data, keys: seq<Key>, k: Key, items: seq<string>, x: string)
    requires Distinct(keys) && k in keys
    ensures Held(data[k := List(items)], keys, x) + multiset(ItemsAt(data, k))[x] == Held(data, keys, x) + multiset(items)[x]
  {
    var data' := data[k := List(items)];
    if keys[0] == k {
      HeldElsewhere(data, data', keys[1..], x);
    } else {
      HeldChange(data, keys[1..], k, items, x);
    }
  }

  lemma PopSplits(items: seq<string>, from: End, x: string)
    requires items != []
    ensures multiset(items)[x] == multiset([Pop(items, from).0])[x] + multiset(Pop(items, from).1)[x]
  {
    assert items == [items[0]] + items[1..];
    assert items == items[..|items| - 1] + [items[|items| - 1]];
  }

  lemma PushAdds(items: seq<string>, value: string, to: End, x: string)
    ensures multiset(Push(items, value, to))[x] == multiset(items)[x] + multiset([value])[x]
  {
  }

  /** An element moved to the list a client asks for. */
  lemma MoveConserves(popped: Data, dst: Key, value: string, to: End, keys: seq<Key>, x: string)
    requires Distinct(keys) && dst in keys && (dst in popped ==> popped[dst].List?)
    ensures var items := if dst in popped then Push(popped[dst].items, value, to) else [value];
      Held(popped[dst := List(items)], keys, x) == Held(popped, keys, x) + multiset([value])[x]
  {
    var items := if dst in popped then Push(popped[dst].items, value, to) else [value];
    PushAdds(ItemsAt(popped, dst), value, to, x);
    HeldChange(popped, keys, dst, items, x);
  }

  /** One client: what it takes for itself leaves the lists, what it moves stays in them. */
  lemma ServeConserves(data: Data, k: Key, w: Waiting, keys: seq<Key>, x: string)
    requires Distinct(keys) && k in keys && (w.target.Some? ==> w.target.value in keys)
    ensures Held(data, keys, x) == Held(Serve(data, k, w), keys, x) + Take(data, k, w)[x]
  {
    hide Held, Distinct, Push, Pop;
    if k in data && data[k].List? && data[k].items != [] {
      var (value, rest) := Pop(data[k].items, w.from);
      PopSplits(data[k].items, w.from, x);
      HeldChange(data, keys, k, rest, x);
      if w.target.Some? && Accepts(data, w) {
        MoveConserves(data[k := List(rest)], w.target.value, value, w.to, keys, x);
      }
    }
  }

  /** Over all that are served, through any BLMOVE between the lists, the elements are those taken and those still there. */
  lemma {:induction false} ServingConserves(data: Data, k: Key, clients: Clients, q: seq<Client>, keys: seq<Key>, x: string)
    requires Distinct(keys) && k in keys
    requires forall c | c in q && c in clients && clients[c].target.Some? :: clients[c].target.value in keys
    ensures Held(data, keys, x) == Held(ServeAll(data, k, clients, q), keys, x) + Taken(data, k, clients, q)[x]
  {
    hide Held, Serve, Take, Distinct;
    if q != [] {
      var c, rest := q[|q| - 1], q[..|q| - 1];
      ServingConserves(data, k, clients, rest, keys, x);
      if c in clients {
        ServeConserves(ServeAll(data, k, clients, rest), k, clients[c], keys, x);
      }
    }
  }

  /** The keys have all the lists among them, and all keys that clients move elements to. */
  ghost predicate Covers(keys: seq<Key>, data: Data, clients: Clients) {
    && (forall j | j in data && data[j].List? :: j in keys)
    && (forall c | c in clients && clients[c].target.Some? :: clients[c].target.value in keys)
  }

  /** Over all lists, every element occurs as often as before, with those taken out. */
  ghost predicate Conserved(data: Data, clients: Clients, taken: multiset<string>,
                            data': Data, clients': Clients, taken': multiset<string>) {
    forall keys: seq<Key> | Distinct(keys) && Covers(keys, data, clients) ::
      Covers(keys, data', clients') && forall x: string :: Held(data, keys, x) + taken[x] == Held(data', keys, x) + taken'[x]
  }

  lemma ConservedNothing(data: Data, clients: Clients, taken: multiset<string>)
    ensures Conserved(data, clients, taken, data, clients, taken)
  {
  }

  lemma ConservedTrans(data: Data, clients: Clients, taken: multiset<string>, data': Data, clients': Clients,
                       taken': multiset<string>, data'': Data, clients'': Clients, taken'': multiset<string>)
    requires Conserved(data, clients, taken, data', clients', taken')
    requires Conserved(data', clients', taken', data'', clients'', taken'')
    ensures Conserved(data, clients, taken, data'', clients'', taken'')
  {
    hide Held, Covers, Distinct;
  }

  /** Every client left is one that was there, with the target it had. */
  ghost predicate SameTargets(clients: Clients, clients': Clients) {
    forall c | c in clients' :: c in clients && clients'[c].target == clients[c].target
  }

  /** A change that is not to a list. */
  lemma ConservedElsewhere(data: Data, clients: Clients, taken: multiset<string>, data': Data, clients': Clients)
    requires SameTargets(clients, clients')
    requires forall j: Key :: (j in data && data[j].List?) == (j in data' && data'[j].List?) && ItemsAt(data, j) == ItemsAt(data', j)
    ensures Conserved(data, clients, taken, data', clients', taken)
  {
    forall keys: seq<Key> | Distinct(keys) && Covers(keys, data, clients)
      ensures Covers(keys, data', clients')
      ensures forall x: string :: Held(data, keys, x) + taken[x] == Held(data', keys, x) + taken[x]
    {
      forall x: string
        ensures Held(data, keys, x) == Held(data', keys, x)
      {
        HeldElsewhere(data, data', keys, x);
      }
    }
  }

  lemma UnservedTargets(clients: Clients, q: seq<Client>, t: BType)
    ensures SameTargets(clients, Unserved(clients, q, t))
  {
  }

  /** A pass over a sorted set. */
  lemma ConservedZset(data: Data, k: Key, clients: Clients, left: seq<string>, taken: multiset<string>, clients': Clients)
    requires k in data && data[k].ZSet? && SameTargets(clients, clients')
    ensures Conserved(data, clients, taken, WithMembers(data, k, left), clients', taken)
  {
    hide SameTargets, Conserved;
    ConservedElsewhere(data, clients, taken, WithMembers(data, k, left), clients');
  }

  lemma ServeCovers(data: Data, k: Key, w: Waiting, keys: seq<Key>)
    requires (forall j | j in data && data[j].List? :: j in keys) && (w.target.Some? ==> w.target.value in keys)
    ensures forall j | j in Serve(data, k, w) && Serve(data, k, w)[j].List? :: j in keys
  {
  }

  lemma {:induction false} ServingCovers(data: Data, k: Key, clients: Clients, q: seq<Client>, keys: seq<Key>)
    requires Covers(keys, data, clients)
    ensures Covers(keys, ServeAll(data, k, clients, q), clients)
  {
    if q != [] {
      var c, rest := q[|q| - 1], q[..|q| - 1];
      ServingCovers(data, k, clients, rest, keys);
      if c in clients {
        ServeCovers(ServeAll(data, k, clients, rest), k, clients[c], keys);
      }
    }
  }

  /** A pass over a list, with the key deleted when nothing is left. */
  lemma ConservedPass(data: Data, k: Key, clients: Clients, q: seq<Client>, taken: multiset<string>, clients': Clients)
    requires k in data && data[k].List? && SameTargets(clients, clients')
    ensures Conserved(data, clients, taken, Cleaned(ServeAll(data, k, clients, q), k), clients',
                      taken + Taken(data, k, clients, q))
  {
    var data' := ServeAll(data, k, clients, q);
    forall keys: seq<Key> | Distinct(keys) && Covers(keys, data, clients)
      ensures Covers(keys, Cleaned(data', k), clients')
      ensures forall x: string ::
        Held(data, keys, x) + taken[x] == Held(Cleaned(data', k), keys, x) + (taken + Taken(data, k, clients, q))[x]
    {
      ServingCovers(data, k, clients, q, keys);
      hide ServeAll, Taken, Held;
      forall x: string
        ensures Held(data, keys, x) == Held(Cleaned(data', k), keys, x) + Taken(data, k, clients, q)[x]
      {
        ServingConserves(data, k, clients, q, keys, x);
        HeldElsewhere(data', Cleaned(data', k), keys, x);
      }
    }
  }

  /** Some keys in any order. */
  lemma {:induction false} Enumerate(keys: set<Key>) returns (q: seq<Key>)
    ensures Distinct(q) && forall k :: k in q <==> k in keys
    decreases |keys|
  {
    q := [];
    if keys != {} {
      var k :| k in keys;
      var rest := Enumerate(keys - {k});
      q := rest + [k];
    }
  }

  /** There are always keys over which the elements can be counted. */
  lemma CoverExists(data: Data, clients: Clients) returns (keys: seq<Key>)
    ensures Distinct(keys) && Covers(keys, data, clients)
  {
    keys := Enumerate(data.Keys + set c | c in clients && clients[c].target.Some? :: clients[c].target.value);
  }

  /** Clients of BLPOP get the elements from the head in the order in which they are served. */
  lemma {:induction false} PopsInOrder(data: Data, k: Key, clients: Clients, q: seq<Client>)
    requires k in data && data[k].List? && |q| <= |data[k].items|
    requires forall c | c in q :: c in clients && clients[c].from == Head && clients[c].target.None?
    ensures Gifts(data, k, clients, q) == data[k].items[..|q|]
    ensures ServeAll(data, k, clients, q) == data[k := List(data[k].items[|q|..])]
  {
    if q == [] {
      assert data[k := List(data[k].items[0..])] == data;
    } else {
      PopsInOrder(data, k, clients, q[..|q| - 1]);
      assert q[|q| - 1] in q;
    }
  }
}
