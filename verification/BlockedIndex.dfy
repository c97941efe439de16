/**
 Blocked clients: the two-way index between clients and the keys they wait for,
 the counters, and what blocking and unblocking do to them.
 */
module BlockedIndex {
  import opened Common

  type Client = nat

  /** Keys are told apart by their database too. */
  datatype Key = Key(db: nat, name: string)

  datatype BType = LIST | ZSET | STREAM | WAIT | PAUSE

  datatype End = Head | Tail

  /** What a blocked client remembers: why it is blocked, the keys it waits for with the last seen stream ID of each,
      and where a list element is taken from and put to. */
  datatype Waiting = Waiting(btype: BType, keys: map<Key, nat>, target: Option<Key>, from: End, to: End,
                             group: Option<string>)

  /** The clients that wait for a key, in the list that was allocated for them. */
  datatype Waiters = Waiters(handle: nat, queue: seq<Client>)

  type Clients = map<Client, Waiting>
  type Lists = map<Key, Waiters>

  predicate OnKeys(t: BType) {
    t == LIST || t == ZSET || t == STREAM
  }

  ghost predicate Distinct<T(!new)>(q: seq<T>) {
    forall i, j | 0 <= i < j < |q| :: q[i] != q[j]
  }

  /** The clients waiting for a key: none when it has no list. */
  function Queue(lists: Lists, k: Key): seq<Client> {
    if k in lists then lists[k].queue else []
  }

  /** A sequence without c. */
  function Without(q: seq<Client>, c: Client): seq<Client> {
    if q == [] then [] else (if q[0] == c then [] else [q[0]]) + Without(q[1..], c)
  }

  /** Listed under a key exactly when blocked on it. */
  ghost predicate Listed(clients: Clients, lists: Lists) {
    forall k: Key, c: Client :: c in Queue(lists, k) <==> c in clients && k in clients[c].keys
  }

  /** Listed once under a key exactly when blocked on it, and no list is empty. */
  ghost predicate Index(clients: Clients, lists: Lists) {
    && (forall k | k in lists :: lists[k].queue != [])
    && (forall k: Key :: Distinct(Queue(lists, k)))
    && Listed(clients, lists)
  }

  ghost predicate Handles(lists: Lists, next: nat) {
    && (forall k | k in lists :: lists[k].handle < next)
    && (forall j, k | j in lists && k in lists && j != k :: lists[j].handle != lists[k].handle)
  }

  ghost function OfType(clients: Clients, t: BType): set<Client> {
    set c | c in clients && clients[c].btype == t
  }

  /** Clients wait for keys exactly when they are blocked for data. */
  ghost predicate Typed(clients: Clients) {
    forall c | c in clients :: OnKeys(clients[c].btype) <==> clients[c].keys != map[]
  }

  /** The counters: all blocked clients, and those of each type. */
  ghost predicate Counts(clients: Clients, total: int, byType: map<BType, int>) {
    && total == |clients.Keys|
    && forall t: BType :: t in byType && byType[t] == |OfType(clients, t)|
  }

  // ----- queues -----

  lemma {:induction false} WithoutOf(q: seq<Client>, c: Client)
    ensures c !in Without(q, c)
    ensures forall d: Client | d != c :: d in Without(q, c) <==> d in q
    ensures Distinct(q) ==> Distinct(Without(q, c))
    ensures c !in q ==> Without(q, c) == q
  {
    if q != [] {
      WithoutOf(q[1..], c);
      var rest := Without(q[1..], c);
      if Distinct(q) && q[0] != c {
        assert q[0] !in q[1..];
        assert q[0] !in rest;
      }
    }
  }

  lemma {:induction false} WithoutConcat(p: seq<Client>, q: seq<Client>, c: Client)
    ensures Without(p + q, c) == Without(p, c) + Without(q, c)
  {
    if p == [] {
      assert p + q == q;
    } else {
      assert (p + q)[1..] == p[1..] + q;
      WithoutConcat(p[1..], q, c);
    }
  }

  // ----- a client joins and leaves one list -----

  /** listAddNodeTail, after a new list where there is none. */
  function Join(lists: Lists, k: Key, c: Client, next: nat): Lists {
    if k in lists then lists[k := lists[k].(queue := lists[k].queue + [c])]
    else lists[k := Waiters(next, [c])]
  }

  /** listDelNode, and the list released when it is empty. */
  function Leave(lists: Lists, k: Key, c: Client): Lists
    requires k in lists
  {
    var rest := Without(lists[k].queue, c);
    if rest == [] then lists - {k} else lists[k := lists[k].(queue := rest)]
  }

  lemma JoinIndex(clients: Clients, lists: Lists, c: Client, k: Key, id: nat, next: nat)
    requires c in clients && Index(clients, lists) && k !in clients[c].keys
    ensures Index(clients[c := clients[c].(keys := clients[c].keys[k := id])], Join(lists, k, c, next))
  {
    var lists' := Join(lists, k, c, next);
    forall j: Key
      ensures Queue(lists', j) == if j == k then Queue(lists, k) + [c] else Queue(lists, j)
      ensures Distinct(Queue(lists', j))
    {
      assert c !in Queue(lists, k);
    }
  }

  lemma JoinHandles(lists: Lists, k: Key, c: Client, next: nat)
    requires Handles(lists, next)
    ensures Handles(Join(lists, k, c, next), next + 1)
  {
  }

  lemma LeaveQueues(lists: Lists, k: Key, c: Client)
    requires k in lists
    ensures forall j: Key :: Queue(Leave(lists, k, c), j) == if j == k then Without(Queue(lists, k), c) else Queue(lists, j)
    ensures forall j | j in Leave(lists, k, c) :: j in lists && Leave(lists, k, c)[j].handle == lists[j].handle
  {
  }

  lemma LeaveIndex(clients: Clients, lists: Lists, c: Client, k: Key)
    requires c in clients && Index(clients, lists) && k in clients[c].keys
    ensures k in lists
    ensures Index(clients[c := clients[c].(keys := clients[c].keys - {k})], Leave(lists, k, c))
  {
    assert c in Queue(lists, k);
    LeaveQueues(lists, k, c);
    LeaveListed(clients, lists, c, k);
    hide Listed;
    var lists' := Leave(lists, k, c);
    assert forall j | j in lists' :: lists'[j].queue != [];
    hide Leave, Queue;
    forall j: Key
      ensures Distinct(Queue(lists', j))
    {
      WithoutOf(Queue(lists, k), c);
    }
  }

  lemma LeaveListed(clients: Clients, lists: Lists, c: Client, k: Key)
    requires c in clients && Listed(clients, lists) && k in clients[c].keys && k in lists
    ensures Listed(clients[c := clients[c].(keys := clients[c].keys - {k})], Leave(lists, k, c))
  {
    hide Leave, Queue, Without;
    var lists', clients' := Leave(lists, k, c), clients[c := clients[c].(keys := clients[c].keys - {k})];
    LeaveQueues(lists, k, c);
    WithoutOf(Queue(lists, k), c);
    forall j: Key, d: Client
      ensures d in Queue(lists', j) <==> d in clients' && j in clients'[d].keys
    {
      assert d in Queue(lists, j) <==> d in clients && j in clients[d].keys;
    }
  }

  // ----- counters -----

  lemma OfTypeAdd(clients: Clients, c: Client, w: Waiting, t: BType)
    requires c !in clients
    ensures OfType(clients[c := w], t) == if t == w.btype then OfType(clients, t) + {c} else OfType(clients, t)
    ensures c !in OfType(clients, t)
  {
  }

  lemma OfTypeDel(clients: Clients, c: Client, t: BType)
    requires c in clients
    ensures OfType(clients - {c}, t) == if t == clients[c].btype then OfType(clients, t) - {c} else OfType(clients, t)
    ensures c in OfType(clients, clients[c].btype)
  {
  }

  lemma CountsAdd(clients: Clients, total: int, byType: map<BType, int>, c: Client, w: Waiting)
    requires Counts(clients, total, byType) && c !in clients
    ensures Counts(clients[c := w], total + 1, byType[w.btype := byType[w.btype] + 1])
  {
    hide OfType;
    var clients' := clients[c := w];
    assert clients'.Keys == clients.Keys + {c};
    forall t: BType
      ensures |OfType(clients', t)| == |OfType(clients, t)| + if t == w.btype then 1 else 0
    {
      SizeAdd(clients, c, w, t);
    }
  }

  lemma SizeAdd(clients: Clients, c: Client, w: Waiting, t: BType)
    requires c !in clients
    ensures |OfType(clients[c := w], t)| == |OfType(clients, t)| + if t == w.btype then 1 else 0
  {
    hide OfType;
    OfTypeAdd(clients, c, w, t);
  }

  lemma CountsDel(clients: Clients, total: int, byType: map<BType, int>, c: Client)
    requires Counts(clients, total, byType) && c in clients
    ensures var t := clients[c].btype; byType[t] > 0 && Counts(clients - {c}, total - 1, byType[t := byType[t] - 1])
  {
    hide OfType;
    var clients' := clients - {c};
    assert clients'.Keys == clients.Keys - {c};
    SizeDel(clients, c, clients[c].btype);
    forall t: BType
      ensures |OfType(clients', t)| == |OfType(clients, t)| - if t == clients[c].btype then 1 else 0
    {
      SizeDel(clients, c, t);
    }
  }

  lemma SizeDel(clients: Clients, c: Client, t: BType)
    requires c in clients
    ensures |OfType(clients - {c}, t)| == |OfType(clients, t)| - if t == clients[c].btype then 1 else 0
    ensures t == clients[c].btype ==> |OfType(clients, t)| > 0
  {
    hide OfType;
    OfTypeDel(clients, c, t);
  }
}
