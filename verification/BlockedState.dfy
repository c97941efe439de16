/**
 The parts of the state of blocked clients, and how single changes keep them
 consistent: joining and leaving lists, ready keys, and keys that could serve.
 */
module BlockedState {
  import opened Common
  import opened BlockedIndex
  import opened BlockedOrder

  /** Sorted sets have members, in the order of their scores: a set that loses the last one is deleted. */
  type Members = s: seq<string> | s != [] witness ["member"]

  /** The greatest ID of an entry that is still in a stream, zero if there is none, and the last ID it has given out: they
      differ when entries were deleted. */
  datatype Ids = Ids(top: nat, last: nat)

  type StreamIds = i: Ids | i.top <= i.last witness Ids(0, 0)

  /** Values, as far as clients can be blocked for them. A stream has its IDs and those its groups have read. */
  datatype Obj = List(items: seq<string>) | ZSet(members: Members) | Stream(ids: StreamIds, groups: map<string, nat>) | Other

  type Data = map<Key, Obj>

  /** getBlockedTypeByType */
  function BlockType(o: Obj): Option<BType> {
    match o
    case List(_) => Some(LIST)
    case ZSet(_) => Some(ZSET)
    case Stream(_, _) => Some(STREAM)
    case Other => None
  }

  /** Whether a client blocked on a stream is due: its group is gone, or the stream has an ID beyond the last seen. */
  predicate Due(o: Obj, w: Waiting, k: Key)
    requires o.Stream? && k in w.keys
  {
    w.btype == STREAM
    && if w.group.None? then o.ids.last > w.keys[k]
       else w.group.value !in o.groups || o.ids.last > o.groups[w.group.value]
  }

  /** Whether the stream has something for it: its group is gone, or an entry beyond the last seen is there. */
  predicate News(o: Obj, w: Waiting, k: Key)
    requires o.Stream? && k in w.keys
  {
    w.btype == STREAM
    && if w.group.None? then o.ids.top > w.keys[k]
       else w.group.value !in o.groups || o.ids.top > o.groups[w.group.value]
  }

  /** A value under k that has what this client waits for. */
  predicate Serves(o: Obj, w: Waiting, k: Key)
    requires k in w.keys
  {
    match o
    case List(_) => w.btype == LIST
    case ZSet(_) => w.btype == ZSET
    case Stream(_, _) => News(o, w, k)
    case Other => false
  }

  /** No client waits for the key that this value could serve. */
  ghost predicate NoneWaits(clients: Clients, k: Key, o: Obj) {
    forall c | c in clients && k in clients[c].keys :: !Serves(o, clients[c], k)
  }

  /** Every key that could serve a client is queued to do so, with some keys set aside. */
  ghost predicate Woken(data: Data, clients: Clients, ready: set<Key>, aside: set<Key>) {
    forall k | k in data && k !in ready && k !in aside :: NoneWaits(clients, k, data[k])
  }

  /** The queue of ready keys and the table that tells which are in it. */
  ghost predicate ReadyOk(queue: seq<Key>, ready: set<Key>) {
    Distinct(queue) && forall k: Key :: k in ready <==> k in queue
  }

  /** A list of its own for the clients of one type. */
  ghost predicate Side(clients: Clients, q: seq<Client>, t: BType) {
    Distinct(q) && forall c: Client :: c in q <==> c in clients && clients[c].btype == t
  }

  // ----- lemmas about one change -----

  lemma DropIndex(clients: Clients, lists: Lists, c: Client)
    requires c in clients && Index(clients[c := clients[c].(keys := map[])], lists)
    ensures Index(clients - {c}, lists)
  {
    var clients' := clients[c := clients[c].(keys := map[])];
    forall k: Key, d: Client
      ensures d in Queue(lists, k) <==> d in clients - {c} && k in (clients - {c})[d].keys
    {
      assert d in Queue(lists, k) <==> d in clients' && k in clients'[d].keys;
    }
  }

  lemma NobodyCounts(byType: map<BType, int>)
    requires forall t: BType :: t in byType && byType[t] == 0
    ensures Counts(map[], 0, byType)
  {
    var nobody: Clients := map[];
    forall t: BType
      ensures OfType(nobody, t) == {}
    {
    }
  }

  lemma NobodyWaits()
    ensures Index(map[], map[]) && Handles(map[], 0) && Typed(map[]) && Side(map[], [], PAUSE) && Side(map[], [], WAIT)
  {
  }

  lemma LeftNone(lists: Lists, c: Client, keys: map<Key, nat>)
    ensures Left(lists, lists, c, keys, keys)
  {
  }

  /** The client has left the lists of the keys it does not wait for any more. */
  ghost predicate Left(before: Lists, lists: Lists, c: Client, keys: map<Key, nat>, left: map<Key, nat>) {
    && left.Keys <= keys.Keys
    && (forall k: Key :: Queue(lists, k) == if k in keys && k !in left then Without(Queue(before, k), c) else Queue(before, k))
    && (forall k | k in lists :: k in before && lists[k].handle == before[k].handle)
  }

  lemma LeftNext(before: Lists, lists: Lists, c: Client, keys: map<Key, nat>, left: map<Key, nat>, k: Key)
    requires Left(before, lists, c, keys, left) && k in left && k in lists
    ensures Left(before, Leave(lists, k, c), c, keys, left - {k})
  {
    LeaveQueues(lists, k, c);
    hide Queue, Leave, Without;
  }

  lemma LeftAll(clients: Clients, before: Lists, lists: Lists, c: Client)
    requires c in clients && Index(clients, before) && Left(before, lists, c, clients[c].keys, map[])
    ensures Gone(before, lists, c)
  {
    forall k: Key
      ensures Queue(lists, k) == Without(Queue(before, k), c)
    {
      if k !in clients[c].keys {
        assert c !in Queue(before, k);
        WithoutOf(Queue(before, k), c);
      }
    }
  }

  /** The client is in no list any more; the others stay in order in the same lists. */
  ghost predicate Gone(before: Lists, lists: Lists, c: Client) {
    && (forall k: Key :: Queue(lists, k) == Without(Queue(before, k), c))
    && (forall k | k in lists :: k in before && lists[k].handle == before[k].handle)
  }

  lemma LeaveOne(clients: Clients, lists: Lists, c: Client, left: map<Key, nat>, k: Key)
    requires c in clients && k in left && Index(clients[c := clients[c].(keys := left)], lists)
    ensures k in lists && Index(clients[c := clients[c].(keys := left - {k})], Leave(lists, k, c))
  {
    hide Index, Leave;
    var now := clients[c := clients[c].(keys := left)];
    LeaveIndex(now, lists, c, k);
    assert now[c := now[c].(keys := now[c].keys - {k})] == clients[c := clients[c].(keys := left - {k})];
  }

  lemma SideAdd(clients: Clients, q: seq<Client>, t: BType, c: Client, w: Waiting)
    requires Side(clients, q, t) && c !in clients
    ensures w.btype != t ==> Side(clients[c := w], q, t)
    ensures w.btype == t ==> Side(clients[c := w], q + [c], t) && Side(clients[c := w], [c] + q, t)
  {
  }

  lemma SideDel(clients: Clients, q: seq<Client>, t: BType, c: Client)
    requires Side(clients, q, t) && c in clients
    ensures clients[c].btype != t ==> Side(clients - {c}, q, t)
    ensures clients[c].btype == t ==> Side(clients - {c}, Without(q, c), t)
  {
    WithoutOf(q, c);
  }

  /** A client that waits for no key. */
  function Idle(t: BType): Waiting {
    Waiting(t, map[], None, Head, Head, None)
  }

  lemma TypedAdd(clients: Clients, c: Client, w: Waiting)
    requires Typed(clients) && OnKeys(w.btype) && w.keys != map[]
    ensures Typed(clients[c := w])
  {
  }

  lemma FirstIdsSome(keys: seq<Key>, ids: seq<nat>)
    requires keys != [] && |ids| == |keys|
    ensures FirstIds(keys, ids) != map[]
  {
    FirstIdsKeys(keys, ids);
    assert keys[0] in FirstIds(keys, ids);
  }

  lemma JoinedNone(lists: Lists, c: Client)
    ensures Joined(lists, lists, c, map[])
  {
  }

  lemma FirstIdsNone()
    ensures FirstIds([], []) == map[]
  {
  }

  lemma TypedIdle(clients: Clients, c: Client, t: BType)
    requires Typed(clients) && !OnKeys(t)
    ensures Typed(clients[c := Idle(t)])
  {
  }

  lemma TypedDel(clients: Clients, c: Client)
    requires Typed(clients)
    ensures Typed(clients - {c})
  {
  }

  lemma GoneHandles(before: Lists, lists: Lists, c: Client, next: nat)
    requires Handles(before, next) && Gone(before, lists, c)
    ensures Handles(lists, next)
  {
  }

  lemma NotOnKeys(clients: Clients, lists: Lists, c: Client)
    requires c in clients && !OnKeys(clients[c].btype) && Typed(clients) && Index(clients, lists)
    ensures Index(clients - {c}, lists) && Gone(lists, lists, c)
  {
    assert clients[c := clients[c].(keys := map[])] == clients;
    DropIndex(clients, lists, c);
    forall k: Key
      ensures Without(Queue(lists, k), c) == Queue(lists, k)
    {
      WithoutOf(Queue(lists, k), c);
    }
  }

  /** Each key with the ID given where it comes first. */
  function FirstIds(keys: seq<Key>, ids: seq<nat>): map<Key, nat>
    requires |ids| == |keys|
  {
    if keys == [] then map[]
    else
      var n := |keys| - 1;
      var m := FirstIds(keys[..n], ids[..n]);
      if keys[n] in m then m else m[keys[n] := ids[n]]
  }

  lemma {:induction false} FirstIdsKeys(keys: seq<Key>, ids: seq<nat>)
    requires |ids| == |keys|
    ensures forall k: Key :: k in FirstIds(keys, ids) <==> k in keys
  {
    if keys != [] {
      var n := |keys| - 1;
      FirstIdsKeys(keys[..n], ids[..n]);
      assert keys == keys[..n] + [keys[n]];
    }
  }

  lemma {:induction false} FirstIdsFirst(keys: seq<Key>, ids: seq<nat>, i: nat)
    requires |ids| == |keys| && i < |keys| && keys[i] !in keys[..i]
    ensures keys[i] in FirstIds(keys, ids) && FirstIds(keys, ids)[keys[i]] == ids[i]
  {
    var n := |keys| - 1;
    FirstIdsKeys(keys[..n], ids[..n]);
    if i < n {
      assert keys[..n][..i] == keys[..i];
      FirstIdsFirst(keys[..n], ids[..n], i);
    }
  }

  lemma FirstIdsNext(keys: seq<Key>, ids: seq<nat>, j: nat)
    requires |ids| == |keys| && j < |keys|
    ensures var m := FirstIds(keys[..j], ids[..j]);
      FirstIds(keys[..j + 1], ids[..j + 1]) == (if keys[j] in m then m else m[keys[j] := ids[j]])
  {
    assert keys[..j + 1][..j] == keys[..j] && ids[..j + 1][..j] == ids[..j];
  }

  /** The client is last in the list of each key it waits for, and nothing else has changed. */
  ghost predicate Joined(before: Lists, lists: Lists, c: Client, keys: map<Key, nat>) {
    && (forall k: Key :: Queue(lists, k) == Queue(before, k) + if k in keys then [c] else [])
    && (forall k | k in before :: k in lists && lists[k].handle == before[k].handle)
  }

  lemma JoinedNext(before: Lists, lists: Lists, c: Client, keys: map<Key, nat>, k: Key, id: nat, next: nat)
    requires Joined(before, lists, c, keys) && k !in keys
    ensures Joined(before, Join(lists, k, c, next), c, keys[k := id])
  {
  }

  lemma StartIndex(clients: Clients, lists: Lists, c: Client, w: Waiting)
    requires c !in clients && Index(clients, lists) && w.keys == map[]
    ensures Index(clients[c := w], lists)
  {
  }

  lemma JoinOne(clients: Clients, lists: Lists, c: Client, w: Waiting, bpop: map<Key, nat>, k: Key, id: nat, next: nat)
    requires Index(clients[c := w.(keys := bpop)], lists) && k !in bpop
    ensures Index(clients[c := w.(keys := bpop[k := id])], Join(lists, k, c, next))
  {
    hide Index, Join;
    var now := clients[c := w.(keys := bpop)];
    JoinIndex(now, lists, c, k, id, next);
    assert now[c := now[c].(keys := now[c].keys[k := id])] == clients[c := w.(keys := bpop[k := id])];
  }

  lemma NotEmpty(m: map<Key, nat>)
    requires m != map[]
    ensures exists k :: k in m.Keys
  {
    assert m.Keys == {} ==> m == map[];
  }

  lemma CountsTotal(clients: Clients, total: int, byType: map<BType, int>)
    requires Counts(clients, total, byType)
    ensures forall t: BType :: t in byType
  {
  }

  // ----- keys that could serve a client -----

  /** The counters tell whether anyone is blocked for a type; where no one is, or no one waits for the key, no client
      is left behind. */
  lemma SignalFacts(clients: Clients, lists: Lists, total: int, byType: map<BType, int>, k: Key, o: Obj)
    requires Counts(clients, total, byType) && Index(clients, lists)
    ensures forall t: BType :: t in byType && (byType[t] == 0 <==> OfType(clients, t) == {})
    ensures BlockType(o).None? || OfType(clients, BlockType(o).value) == {} || k !in lists ==> NoneWaits(clients, k, o)
  {
    forall c | c in clients && k in clients[c].keys
      ensures k in lists && c in OfType(clients, clients[c].btype)
    {
      assert c in Queue(lists, k);
    }
  }

  lemma WokenFewer(data: Data, clients: Clients, ready: set<Key>, aside: set<Key>, c: Client)
    requires Woken(data, clients, ready, aside)
    ensures Woken(data, clients - {c}, ready, aside)
  {
  }

  /** A key may change as long as it is set aside, is queued, has no client it could serve, or serves the same type. */
  lemma WokenChange(data: Data, clients: Clients, ready: set<Key>, aside: set<Key>, k: Key, o: Obj)
    requires Woken(data, clients, ready, aside)
    requires k in aside || k in ready || NoneWaits(clients, k, o)
             || (k in data && BlockType(data[k]) == BlockType(o) && !o.Stream?)
    ensures Woken(data[k := o], clients, ready, aside)
  {
    if k in data && BlockType(data[k]) == BlockType(o) && !o.Stream? && k !in aside && k !in ready {
      assert NoneWaits(clients, k, data[k]);
    }
  }

  /** A key overwritten without a signal: it is set aside if a client waits for it that it could serve. */
  lemma WokenOverwrite(data: Data, clients: Clients, ready: set<Key>, aside: set<Key>, k: Key, o: Obj)
    requires Woken(data, clients, ready, aside)
    ensures Woken(data[k := o], clients, ready, if k !in ready && !NoneWaits(clients, k, o) then aside + {k} else aside - {k})
  {
  }

  /** Entries deleted from a stream, and its last ID set, give no client anything new. */
  lemma WokenTrim(data: Data, clients: Clients, ready: set<Key>, aside: set<Key>, k: Key, ids: StreamIds)
    requires Woken(data, clients, ready, aside) && k in data && data[k].Stream? && ids.top <= data[k].ids.top
    ensures Woken(data[k := data[k].(ids := ids)], clients, ready, aside)
  {
    if k !in ready && k !in aside {
      assert NoneWaits(clients, k, data[k]);
    }
  }

  lemma WokenMore(data: Data, clients: Clients, ready: set<Key>, aside: set<Key>, ready': set<Key>)
    requires Woken(data, clients, ready, aside) && ready <= ready'
    ensures Woken(data, clients, ready', aside)
  {
  }

  /** The key set aside is done. */
  lemma WokenBack(data: Data, clients: Clients, ready: set<Key>, aside: set<Key>, k: Key)
    requires Woken(data, clients, ready, aside + {k}) && (k in data ==> NoneWaits(clients, k, data[k]))
    ensures Woken(data, clients, ready, aside)
  {
  }

  lemma WokenAside(data: Data, clients: Clients, ready: set<Key>, aside: set<Key>, k: Key)
    requires Woken(data, clients, ready, aside)
    ensures Woken(data, clients, ready - {k}, (aside - {k}) + {k})
  {
  }

  lemma ReadyNext(queue: seq<Key>, ready: set<Key>, k: Key)
    requires ReadyOk(queue, ready) && k !in ready
    ensures ReadyOk(queue + [k], ready + {k})
  {
  }

  lemma ReadyFirst(queue: seq<Key>, ready: set<Key>)
    requires ReadyOk(queue, ready) && queue != []
    ensures ReadyOk(queue[1..], ready - {queue[0]})
  {
    assert queue[0] !in queue[1..];
  }

  // ----- order of arrival -----

  /** c blocked before d, for the same type. */
  ghost predicate Before(clients: Clients, stamp: map<Client, nat>, c: Client, d: Client) {
    && c in clients && c in stamp && d in clients && d in stamp
    && stamp[c] < stamp[d] && clients[c].btype == clients[d].btype
  }

  /** Clients of one type, in the order in which they blocked. */
  ghost predicate InOrder(clients: Clients, q: seq<Client>, stamp: map<Client, nat>) {
    && (forall i | 0 <= i < |q| :: q[i] in clients && q[i] in stamp)
    && (forall i, j | 0 <= i < j < |q| :: Before(clients, stamp, q[i], q[j]))
  }

  /** Every list but those that have seen clients of two types is in the order in which its clients blocked. */
  ghost predicate Fair(clients: Clients, lists: Lists, stamp: map<Client, nat>, mixed: set<Key>) {
    forall k | k in lists && k !in mixed :: InOrder(clients, lists[k].queue, stamp)
  }

  ghost predicate Stamped(clients: Clients, stamp: map<Client, nat>, clock: nat) {
    forall c | c in clients && clients[c].keys != map[] :: c in stamp && stamp[c] < clock
  }

  lemma InOrderTail(clients: Clients, q: seq<Client>, stamp: map<Client, nat>)
    requires InOrder(clients, q, stamp) && q != []
    ensures InOrder(clients, q[1..], stamp) && forall d | d in q[1..] :: Before(clients, stamp, q[0], d)
  {
    hide Before;
  }

  lemma InOrderCons(clients: Clients, c: Client, q: seq<Client>, stamp: map<Client, nat>)
    requires InOrder(clients, q, stamp) && c in clients && c in stamp && forall d | d in q :: Before(clients, stamp, c, d)
    ensures InOrder(clients, [c] + q, stamp)
  {
    hide Before;
    var r := [c] + q;
    forall i, j | 0 <= i < j < |r|
      ensures Before(clients, stamp, r[i], r[j])
    {
      assert r[j] == q[j - 1] && q[j - 1] in q;
    }
  }

  /** Order does not depend on other clients. */
  lemma InOrderOther(clients: Clients, now: Clients, q: seq<Client>, stamp: map<Client, nat>)
    requires InOrder(clients, q, stamp)
    requires forall c | c in q :: c in now && c in clients && now[c].btype == clients[c].btype
    ensures InOrder(now, q, stamp)
  {
    forall i, j | 0 <= i < j < |q|
      ensures Before(now, stamp, q[i], q[j])
    {
      assert Before(clients, stamp, q[i], q[j]) && q[i] in q && q[j] in q;
    }
  }

  lemma {:induction false} InOrderWithout(clients: Clients, q: seq<Client>, stamp: map<Client, nat>, c: Client)
    requires InOrder(clients, q, stamp)
    ensures InOrder(clients, Without(q, c), stamp)
  {
    if q != [] {
      InOrderTail(clients, q, stamp);
      InOrderWithout(clients, q[1..], stamp, c);
      WithoutOf(q[1..], c);
      if q[0] != c {
        hide InOrder, Before;
        assert forall d | d in Without(q[1..], c) :: d in q[1..];
        assert q[0] in clients && q[0] in stamp by {
          InOrderKnown(clients, q, stamp);
        }
        InOrderCons(clients, q[0], Without(q[1..], c), stamp);
      }
    }
  }

  lemma InOrderKnown(clients: Clients, q: seq<Client>, stamp: map<Client, nat>)
    requires InOrder(clients, q, stamp)
    ensures forall i | 0 <= i < |q| :: q[i] in clients && q[i] in stamp
  {
  }

  lemma FairGone(clients: Clients, before: Lists, lists: Lists, stamp: map<Client, nat>, mixed: set<Key>, c: Client)
    requires Fair(clients, before, stamp, mixed) && Gone(before, lists, c)
    ensures Fair(clients - {c}, lists, stamp, mixed)
  {
    hide InOrder, Without;
    forall k | k in lists && k !in mixed
      ensures InOrder(clients - {c}, lists[k].queue, stamp)
    {
      assert Queue(lists, k) == Without(Queue(before, k), c);
      InOrderWithout(clients, before[k].queue, stamp, c);
      InOrderKnown(clients, lists[k].queue, stamp);
      WithoutOf(Queue(before, k), c);
      InOrderOther(clients, clients - {c}, lists[k].queue, stamp);
    }
  }

  /** The keys with clients of two types, after one more client: a new list starts afresh. */
  ghost function Mix(clients: Clients, before: Lists, mixed: set<Key>, keys: map<Key, nat>, t: BType): set<Key> {
    (set k | k in mixed && k in before) + (set k | k in keys && exists d :: d in Queue(before, k) && d in clients && clients[d].btype != t)
  }

  lemma FairJoined(clients: Clients, before: Lists, lists: Lists, stamp: map<Client, nat>, mixed: set<Key>, c: Client,
                   w: Waiting, clock: nat)
    requires Fair(clients, before, stamp, mixed) && Stamped(clients, stamp, clock) && Joined(before, lists, c, w.keys)
    requires c !in clients && Index(clients, before)
    ensures Fair(clients[c := w], lists, stamp[c := clock], Mix(clients, before, mixed, w.keys, w.btype))
    ensures Stamped(clients[c := w], stamp[c := clock], clock + 1)
  {
    var mixed' := Mix(clients, before, mixed, w.keys, w.btype);
    forall k | k in lists && k !in mixed'
      ensures InOrder(clients[c := w], lists[k].queue, stamp[c := clock])
    {
      assert lists[k].queue == Queue(lists, k) == Queue(before, k) + if k in w.keys then [c] else [];
      assert forall i | 0 <= i < |Queue(before, k)| :: Queue(before, k)[i] in Queue(before, k);
    }
  }

  /** A pass over clients of one type in order leaves them in order, if it stops only where a client of the type served
      is next, or has served one; and those it served blocked before those it left. */
  lemma InOrderPass(clients: Clients, q: seq<Client>, stamp: map<Client, nat>, t: BType, p: nat)
    requires InOrder(clients, q, stamp) && p <= |q|
    requires p == |q| || (q[p] in clients && clients[q[p]].btype == t) || Pick(clients, q[..p], t, true) != []
    ensures InOrder(clients, Pass(clients, q, t, p), stamp)
    ensures forall c, d | c in Pick(clients, q[..p], t, true) && d in Pass(clients, q, t, p) :: Before(clients, stamp, c, d)
  {
    if q != [] && clients[q[0]].btype == t {
      SameType(clients, q, stamp, t, true);
      PickAll(clients, q[..p], t, false);
      assert Pass(clients, q, t, p) == q[p..];
    } else {
      SameType(clients, q, stamp, t, false);
      PickAll(clients, q[..p], t, true);
      assert Pass(clients, q, t, p) == q;
    }
  }

  lemma SameType(clients: Clients, q: seq<Client>, stamp: map<Client, nat>, t: BType, same: bool)
    requires InOrder(clients, q, stamp) && (q != [] ==> (clients[q[0]].btype == t) == same)
    ensures forall i | 0 <= i < |q| :: q[i] in clients && (clients[q[i]].btype == t) == same
  {
    forall i | 0 < i < |q|
      ensures clients[q[i]].btype == clients[q[0]].btype
    {
      assert Before(clients, stamp, q[0], q[i]);
    }
  }

  /** A queue of one type: all of it is picked, or nothing. */
  lemma {:induction false} PickAll(clients: Clients, q: seq<Client>, t: BType, same: bool)
    requires forall i | 0 <= i < |q| :: q[i] in clients && (clients[q[i]].btype == t) == !same
    ensures Pick(clients, q, t, same) == [] && Pick(clients, q, t, !same) == q
  {
    if q != [] {
      var n := |q| - 1;
      PickAll(clients, q[..n], t, same);
      assert q == q[..n] + [q[n]];
    }
  }

  // ----- a pass over the clients of a key -----

  /** The blocked clients without those of one type among some. */
  ghost function Unserved(clients: Clients, q: seq<Client>, t: BType): Clients {
    map c | c in clients && !(c in q && clients[c].btype == t) :: clients[c]
  }

  /** After p of the clients that waited for k when a pass began: 'before' were the blocked clients, q their queue. */
  ghost predicate Passing(before: Clients, q: seq<Client>, clients: Clients, lists: Lists, k: Key, handle: nat, t: BType, p: nat) {
    && p <= |q| && Distinct(q)
    && clients == Unserved(before, q[..p], t)
    && Queue(lists, k) == Pass(before, q, t, p)
    && (k in lists ==> lists[k].handle == handle)
  }

  lemma PassingStart(clients: Clients, lists: Lists, k: Key, t: BType)
    requires Index(clients, lists) && k in lists
    ensures Passing(clients, lists[k].queue, clients, lists, k, lists[k].handle, t, 0)
    ensures Pick(clients, lists[k].queue[..0], t, true) == []
  {
    var q := lists[k].queue;
    assert Queue(lists, k) == q && q[0..] == q && q[..0] == [];
    assert Unserved(clients, [], t) == clients;
  }

  /** As long as clients are left to look at, the list is the same one and has not been released; its head is the next. */
  lemma PassingHead(before: Clients, q: seq<Client>, clients: Clients, lists: Lists, k: Key, handle: nat, t: BType, p: nat)
    requires Passing(before, q, clients, lists, k, handle, t, p) && Index(clients, lists) && p < |q|
    ensures k in lists && lists[k].handle == handle && lists[k].queue != [] && lists[k].queue[0] == q[p]
    ensures q[p] in clients && q[p] in before && clients[q[p]] == before[q[p]]
  {
    PassHead(before, q, t, p);
    assert lists[k].queue[0] in Queue(lists, k);
  }

  /** listRotateHeadToTail */
  function Rotate(lists: Lists, k: Key): Lists
    requires k in lists && lists[k].queue != []
  {
    lists[k := lists[k].(queue := lists[k].queue[1..] + [lists[k].queue[0]])]
  }

  lemma RotateIndex(clients: Clients, lists: Lists, k: Key, next: nat)
    requires Index(clients, lists) && Handles(lists, next) && k in lists
    ensures Index(clients, Rotate(lists, k)) && Handles(Rotate(lists, k), next)
  {
    RotateListed(clients, lists, k);
    hide Listed;
    var q := lists[k].queue;
    assert Queue(lists, k) == q && Distinct(q);
    RotateOf(q);
    assert forall j: Key :: Queue(Rotate(lists, k), j) == if j == k then q[1..] + [q[0]] else Queue(lists, j);
    hide Distinct, Queue;
  }

  lemma RotateQueues(lists: Lists, k: Key)
    requires k in lists && lists[k].queue != []
    ensures forall j: Key, c: Client :: c in Queue(Rotate(lists, k), j) <==> c in Queue(lists, j)
  {
    RotateOf(lists[k].queue);
  }

  lemma RotateListed(clients: Clients, lists: Lists, k: Key)
    requires Listed(clients, lists) && k in lists && lists[k].queue != []
    ensures Listed(clients, Rotate(lists, k))
  {
    hide Rotate, Queue;
    RotateQueues(lists, k);
    forall j: Key, c: Client
      ensures c in Queue(Rotate(lists, k), j) <==> c in clients && j in clients[c].keys
    {
      assert c in Queue(lists, j) <==> c in clients && j in clients[c].keys;
    }
  }

  lemma RotateOf(q: seq<Client>)
    requires q != []
    ensures forall c: Client :: c in q[1..] + [q[0]] <==> c in q
    ensures Distinct(q) ==> Distinct(q[1..] + [q[0]])
  {
    assert q == [q[0]] + q[1..];
  }

  lemma RotateStep(before: Clients, q: seq<Client>, clients: Clients, lists: Lists, k: Key, handle: nat, t: BType, p: nat)
    requires Passing(before, q, clients, lists, k, handle, t, p) && p < |q|
    requires k in lists && lists[k].queue != [] && q[p] in before && before[q[p]].btype != t
    ensures Passing(before, q, clients, Rotate(lists, k), k, handle, t, p + 1)
  {
    PassRotates(before, q, t, p);
    assert q[..p + 1] == q[..p] + [q[p]];
    assert Unserved(before, q[..p + 1], t) == Unserved(before, q[..p], t);
  }

  lemma ServeStep(before: Clients, q: seq<Client>, clients: Clients, lists: Lists, k: Key, handle: nat, t: BType, p: nat,
                  lists': Lists)
    requires Passing(before, q, clients, lists, k, handle, t, p) && p < |q|
    requires q[p] in clients && q[p] in before && before[q[p]].btype == t && Gone(lists, lists', q[p])
    ensures Passing(before, q, clients - {q[p]}, lists', k, handle, t, p + 1)
  {
    PassServes(before, q, t, p);
    assert q[..p + 1] == q[..p] + [q[p]];
    assert Queue(lists', k) == Without(Queue(lists, k), q[p]);
    hide Without, Pass;
    assert Unserved(before, q[..p + 1], t) == Unserved(before, q[..p], t) - {q[p]};
  }

  /** When the pass has seen every client, none of the type is left. */
  lemma PassingDone(before: Clients, q: seq<Client>, clients: Clients, lists: Lists, k: Key, handle: nat, t: BType)
    requires Passing(before, q, clients, lists, k, handle, t, |q|) && Index(clients, lists)
    ensures forall c | c in clients && k in clients[c].keys :: clients[c].btype != t
  {
    PickOf(before, q[..|q|], t, false);
    assert Pass(before, q, t, |q|) == Pick(before, q[..|q|], t, false);
    forall c | c in clients && k in clients[c].keys
      ensures clients[c].btype != t
    {
      assert c in Queue(lists, k);
    }
  }

  /** Order, after a pass. */
  lemma PassingFair(before: Clients, q: seq<Client>, clients: Clients, lists: Lists, k: Key, handle: nat, t: BType, p: nat,
                    stamp: map<Client, nat>, mixed: set<Key>)
    requires Passing(before, q, clients, lists, k, handle, t, p) && Index(clients, lists)
    requires Fair(clients, lists, stamp, mixed + {k})
    requires k !in mixed ==> InOrder(before, q, stamp)
    requires p == |q| || (q[p] in before && before[q[p]].btype == t) || Pick(before, q[..p], t, true) != []
    ensures Fair(clients, lists, stamp, mixed)
    ensures k !in mixed ==> FirstServed(before, q, t, p, lists, k, stamp)
  {
    hide InOrder, Before, Pass, Pick;
    if k !in mixed {
      InOrderPass(before, q, stamp, t, p);
      if k in lists {
        assert lists[k].queue == Queue(lists, k) == Pass(before, q, t, p);
        forall c | c in lists[k].queue
          ensures c in clients && c in before && clients[c].btype == before[c].btype
        {
          assert c in Queue(lists, k);
        }
        InOrderOther(before, clients, lists[k].queue, stamp);
      }
    }
  }

  /** The clients served blocked before those that are left. */
  ghost predicate FirstServed(before: Clients, q: seq<Client>, t: BType, p: nat, lists: Lists, k: Key, stamp: map<Client, nat>)
  {
    && p <= |q|
    && forall c, d | c in Pick(before, q[..p], t, true) && d in Queue(lists, k) :: Before(before, stamp, c, d)
  }

  // ----- turns -----

  /** Everyone in the queue blocked after a time. */
  ghost predicate Behind(q: seq<Client>, stamp: map<Client, nat>, time: nat) {
    forall d | d in q :: d in stamp && time < stamp[d]
  }

  /** Turns are keys with the times at which clients had blocked that were served from them, as lists or sorted sets. All who
      wait for a key blocked later, unless it has seen clients of two types. */
  ghost predicate Turns(turns: set<(Key, nat)>, lists: Lists, stamp: map<Client, nat>, mixed: set<Key>, clock: nat) {
    forall x | x in turns :: x.1 < clock && (x.0 !in mixed ==> Behind(Queue(lists, x.0), stamp, x.1))
  }

  /** The turns of some clients of a key. */
  ghost function TurnsOf(k: Key, stamp: map<Client, nat>, q: seq<Client>): set<(Key, nat)> {
    set c | c in q && c in stamp :: (k, stamp[c])
  }

  lemma TurnsNone(k: Key, stamp: map<Client, nat>)
    ensures TurnsOf(k, stamp, []) == {}
  {
  }

  lemma TurnsNext(k: Key, stamp: map<Client, nat>, q: seq<Client>, c: Client)
    requires c in stamp
    ensures TurnsOf(k, stamp, q + [c]) == TurnsOf(k, stamp, q) + {(k, stamp[c])}
  {
    assert c in q + [c];
    assert forall d | d in q :: d in q + [c];
  }

  lemma TurnsAside(turns: set<(Key, nat)>, lists: Lists, stamp: map<Client, nat>, mixed: set<Key>, clock: nat, k: Key)
    requires Turns(turns, lists, stamp, mixed, clock)
    ensures Turns(turns, lists, stamp, mixed + {k}, clock)
  {
    hide Behind;
  }

  lemma TurnsGone(turns: set<(Key, nat)>, before: Lists, lists: Lists, stamp: map<Client, nat>, mixed: set<Key>, clock: nat,
                  c: Client)
    requires Turns(turns, before, stamp, mixed, clock) && Gone(before, lists, c)
    ensures Turns(turns, lists, stamp, mixed, clock)
  {
    forall x | x in turns && x.0 !in mixed
      ensures Behind(Queue(lists, x.0), stamp, x.1)
    {
      assert Behind(Queue(before, x.0), stamp, x.1);
      assert Queue(lists, x.0) == Without(Queue(before, x.0), c);
      WithoutOf(Queue(before, x.0), c);
    }
  }

  lemma TurnsRotate(turns: set<(Key, nat)>, lists: Lists, stamp: map<Client, nat>, mixed: set<Key>, clock: nat, k: Key)
    requires Turns(turns, lists, stamp, mixed, clock) && k in mixed && k in lists && lists[k].queue != []
    ensures Turns(turns, Rotate(lists, k), stamp, mixed, clock)
  {
    hide Behind;
  }

  lemma TurnsServed(turns: set<(Key, nat)>, lists: Lists, stamp: map<Client, nat>, mixed: set<Key>, clock: nat, k: Key,
                    time: nat)
    requires Turns(turns, lists, stamp, mixed, clock) && k in mixed && time < clock
    ensures Turns(turns + {(k, time)}, lists, stamp, mixed, clock)
  {
    hide Behind;
  }

  /** A client that blocks is behind everyone who was served before. */
  lemma TurnsJoined(turns: set<(Key, nat)>, clients: Clients, before: Lists, lists: Lists, stamp: map<Client, nat>,
                    mixed: set<Key>, c: Client, w: Waiting, clock: nat)
    requires Turns(turns, before, stamp, mixed, clock) && Joined(before, lists, c, w.keys) && Index(clients, before)
    requires c !in clients
    ensures Turns(turns, lists, stamp[c := clock], Mix(clients, before, mixed, w.keys, w.btype), clock + 1)
  {
    forall x | x in turns && x.0 !in Mix(clients, before, mixed, w.keys, w.btype)
      ensures Behind(Queue(lists, x.0), stamp[c := clock], x.1)
    {
      assert Queue(lists, x.0) == Queue(before, x.0) + if x.0 in w.keys then [c] else [];
      assert c !in Queue(before, x.0);
      if x.0 !in mixed {
        assert Behind(Queue(before, x.0), stamp, x.1);
      }
    }
  }

  /** After a pass: those served are before those left. */
  lemma TurnsBack(turns: set<(Key, nat)>, before: Clients, was: Lists, lists: Lists, stamp: map<Client, nat>, mixed: set<Key>,
                  clock: nat, k: Key, t: BType, p: nat)
    requires p <= |Queue(was, k)| && Turns(turns, was, stamp, mixed, clock)
    requires var picked := Pick(before, Queue(was, k)[..p], t, true);
      Turns(turns + TurnsOf(k, stamp, picked), lists, stamp, mixed + {k}, clock)
    requires k !in mixed ==> FirstServed(before, Queue(was, k), t, p, lists, k, stamp)
    requires forall d | d in Queue(lists, k) :: d in Queue(was, k)
    ensures Turns(turns + TurnsOf(k, stamp, Pick(before, Queue(was, k)[..p], t, true)), lists, stamp, mixed, clock)
  {
    hide Pick;
    var picked := Pick(before, Queue(was, k)[..p], t, true);
    forall x | x in turns + TurnsOf(k, stamp, picked) && x.0 == k && k !in mixed
      ensures Behind(Queue(lists, k), stamp, x.1)
    {
      if x in turns {
        assert Behind(Queue(was, k), stamp, x.1);
      } else {
        var c :| c in picked && c in stamp && x == (k, stamp[c]);
        forall d | d in Queue(lists, k)
          ensures d in stamp && x.1 < stamp[d]
        {
          assert Before(before, stamp, c, d);
        }
      }
    }
  }

  lemma StampOf(clients: Clients, stamp: map<Client, nat>, clock: nat, c: Client)
    requires Stamped(clients, stamp, clock) && Typed(clients) && c in clients && OnKeys(clients[c].btype)
    ensures c in stamp && stamp[c] < clock
  {
  }

  /** Nobody joins a queue during a pass. */
  lemma PassingFrom(before: Clients, q: seq<Client>, clients: Clients, lists: Lists, k: Key, handle: nat, t: BType, p: nat)
    requires Passing(before, q, clients, lists, k, handle, t, p)
    ensures forall d | d in Queue(lists, k) :: d in q
  {
    PickOf(before, q[..p], t, false);
    assert forall d | d in q[..p] :: d in q;
  }

  lemma FairRotate(clients: Clients, lists: Lists, k: Key, stamp: map<Client, nat>, mixed: set<Key>)
    requires Fair(clients, lists, stamp, mixed) && k in mixed && k in lists && lists[k].queue != []
    ensures Fair(clients, Rotate(lists, k), stamp, mixed)
  {
    hide InOrder;
  }

  lemma FairAside(clients: Clients, lists: Lists, stamp: map<Client, nat>, mixed: set<Key>, k: Key)
    requires Fair(clients, lists, stamp, mixed)
    ensures Fair(clients, lists, stamp, mixed + {k})
    ensures k in lists && k !in mixed ==> InOrder(clients, lists[k].queue, stamp)
  {
    hide InOrder;
  }

  lemma StampedDel(clients: Clients, stamp: map<Client, nat>, clock: nat, c: Client)
    requires Stamped(clients, stamp, clock)
    ensures Stamped(clients - {c}, stamp, clock)
  {
  }

  lemma FewerClients(clients: Clients, c: Client)
    requires c in clients
    ensures |(clients - {c}).Keys| == |clients.Keys| - 1
  {
    assert (clients - {c}).Keys == clients.Keys - {c};
  }

  // ----- list elements -----

  function Pop(items: seq<string>, from: End): (string, seq<string>)
    requires items != []
  {
    if from == Head then (items[0], items[1..]) else (items[|items| - 1], items[..|items| - 1])
  }

  function Push(items: seq<string>, value: string, to: End): seq<string> {
    if to == Head then [value] + items else items + [value]
  }

  /** Pushing back what was popped, where it was popped, restores the list. */
  lemma PushUndoesPop(items: seq<string>, from: End)
    requires items != []
    ensures Push(Pop(items, from).1, Pop(items, from).0, from) == items
  {
  }

  lemma WokenDelete(data: Data, clients: Clients, ready: set<Key>, aside: set<Key>, k: Key)
    requires Woken(data, clients, ready, aside + {k})
    ensures Woken(data - {k}, clients, ready, aside)
  {
  }

  /** After a pass that saw all clients, or over no clients, a value of the type has nobody to serve. */
  lemma NoneLeft(clients: Clients, k: Key, o: Obj, t: BType)
    requires forall c | c in clients && k in clients[c].keys :: clients[c].btype != t
    requires BlockType(o) == Some(t)
    ensures NoneWaits(clients, k, o)
  {
  }

  /** A key without a list: a pass over nobody. */
  lemma NoList(clients: Clients, lists: Lists, k: Key, t: BType, stamp: map<Client, nat>)
    requires Index(clients, lists) && k !in lists
    ensures forall c | c in clients && k in clients[c].keys :: clients[c].btype != t
    ensures Queue(lists, k) == [] && Unserved(clients, [], t) == clients
    ensures Pass(clients, [], t, 0) == [] && Pick(clients, [], t, true) == [] && FirstServed(clients, [], t, 0, lists, k, stamp)
  {
    forall c | c in clients
      ensures k !in clients[c].keys
    {
      assert c !in Queue(lists, k);
    }
  }

  /** None of the keys has what this client waits for. */
  ghost predicate Missing(data: Data, w: Waiting) {
    forall k | k in w.keys && k in data :: !Serves(data[k], w, k)
  }

  /** A new client waits for nothing that is there already: nothing to be woken for. */
  lemma WokenJoined(data: Data, clients: Clients, ready: set<Key>, aside: set<Key>, c: Client, w: Waiting)
    requires c !in clients
    ensures Woken(data, clients, ready, aside) && Missing(data, w) ==> Woken(data, clients[c := w], ready, aside)
  {
  }

  /** What can be looked up before a value is stored: some client listed under the key would be served by it. */
  ghost predicate Wanted(clients: Clients, lists: Lists, k: Key, o: Obj) {
    exists c :: c in Queue(lists, k) && c in clients && k in clients[c].keys && Serves(o, clients[c], k)
  }

  lemma WantedIff(clients: Clients, lists: Lists, k: Key, o: Obj)
    requires Index(clients, lists)
    ensures Wanted(clients, lists, k, o) <==> !NoneWaits(clients, k, o)
  {
    if !NoneWaits(clients, k, o) {
      var c :| c in clients && k in clients[c].keys && Serves(o, clients[c], k);
      assert c in Queue(lists, k);
    }
  }

  /** The state of a pass over q, a sorted set of 'avail' members at the start and 'left' now. */
  ghost predicate Counting(before: Clients, q: seq<Client>, t: BType, p: nat, avail: nat, left: nat) {
    && p <= |q| && left == avail - |Pick(before, q[..p], t, true)|
    && (p > 0 ==> |Pick(before, q[..p - 1], t, true)| < avail)
  }

  lemma CountingStart(before: Clients, q: seq<Client>, t: BType, avail: nat)
    ensures Counting(before, q, t, 0, avail, avail)
  {
  }

  lemma WokenSome(data: Data, clients: Clients, ready: set<Key>, aside: set<Key>, k: Key)
    requires Woken(data, clients, ready, aside)
    ensures Woken(data, clients, ready, aside + {k})
  {
  }

  lemma CountingNext(before: Clients, q: seq<Client>, t: BType, p: nat, avail: nat, left: nat)
    requires Counting(before, q, t, p, avail, left) && p < |q| && left > 0 && q[p] in before
    ensures Counting(before, q, t, p + 1, avail, if before[q[p]].btype == t then left - 1 else left)
  {
    PickNext(before, q, t, true, p);
  }

  lemma CountingEnds(before: Clients, q: seq<Client>, t: BType, p: nat, avail: nat, left: nat)
    requires Counting(before, q, t, p, avail, left) && (p == |q| || left == 0) && avail > 0
    ensures p == Reach(before, q, t, avail) && (p < |q| ==> Pick(before, q[..p], t, true) != [])
  {
    if left == 0 {
      ReachStops(before, q, t, avail, p);
    } else {
      assert q[..p] == q;
      ReachAll(before, q, t, avail);
    }
  }

  // ----- streams -----

  /** A sequence without any of some clients. */
  function WithoutAll(q: seq<Client>, s: seq<Client>): seq<Client> {
    if s == [] then q else Without(WithoutAll(q, s[..|s| - 1]), s[|s| - 1])
  }

  /** The ID a client waits for changes; nothing else does. */
  lemma Retouch(clients: Clients, lists: Lists, total: int, byType: map<BType, int>, c: Client, k: Key, id: nat)
    requires c in clients && k in clients[c].keys && Index(clients, lists) && Typed(clients) && Counts(clients, total, byType)
    ensures var clients' := clients[c := clients[c].(keys := clients[c].keys[k := id])];
      Index(clients', lists) && Typed(clients') && Counts(clients', total, byType)
  {
    var clients' := clients[c := clients[c].(keys := clients[c].keys[k := id])];
    assert clients'.Keys == clients.Keys;
    assert clients'[c].keys.Keys == clients[c].keys.Keys;
    assert forall t: BType :: OfType(clients', t) == OfType(clients, t);
    forall d: Client, j: Key
      ensures d in clients' && j in clients'[d].keys <==> d in clients && j in clients[d].keys
    {
    }
  }

  lemma RetouchRest(data: Data, clients: Clients, lists: Lists, ready: set<Key>, aside: set<Key>, stamp: map<Client, nat>,
                    mixed: set<Key>, clock: nat, q: seq<Client>, t: BType, c: Client, k: Key, id: nat)
    requires c in clients && k in clients[c].keys && Index(clients, lists) && k in aside
    requires Woken(data, clients, ready, aside) && Fair(clients, lists, stamp, mixed) && Stamped(clients, stamp, clock)
    requires Side(clients, q, t)
    ensures var clients' := clients[c := clients[c].(keys := clients[c].keys[k := id])];
      Woken(data, clients', ready, aside) && Fair(clients', lists, stamp, mixed) && Stamped(clients', stamp, clock)
      && Side(clients', q, t)
  {
    var clients' := clients[c := clients[c].(keys := clients[c].keys[k := id])];
    forall j | j in lists && j !in mixed
      ensures InOrder(clients', lists[j].queue, stamp)
    {
      assert Queue(lists, j) == lists[j].queue;
      InOrderOther(clients, clients', lists[j].queue, stamp);
    }
  }

  /** Some elements of q, in their order. */
  ghost predicate Subsequence(s: seq<Client>, q: seq<Client>) {
    if s == [] then true
    else if q == [] then false
    else
      || (s[|s| - 1] == q[|q| - 1] && Subsequence(s[..|s| - 1], q[..|q| - 1]))
      || Subsequence(s, q[..|q| - 1])
  }

  /** A walk over the clients q of a key: i have been looked at, s of them were served and left all their lists. */
  ghost predicate Walking(before: Lists, lists: Lists, k: Key, handle: nat, q: seq<Client>, i: nat, s: seq<Client>) {
    && i <= |q| && Distinct(q)
    && (forall j | i <= j < |q| :: q[j] in Queue(lists, k))
    && (k in lists ==> lists[k].handle == handle)
    && Subsequence(s, q[..i])
    && (forall j: Key :: Queue(lists, j) == WithoutAll(Queue(before, j), s))
  }

  lemma WalkingStart(clients: Clients, lists: Lists, k: Key)
    requires Index(clients, lists) && k in lists
    ensures Walking(lists, lists, k, lists[k].handle, lists[k].queue, 0, [])
  {
    assert Queue(lists, k) == lists[k].queue;
  }

  /** The next client is still in the list, and the list has not been released. */
  lemma WalkingHead(before: Lists, clients: Clients, lists: Lists, k: Key, handle: nat, q: seq<Client>, i: nat, s: seq<Client>)
    requires Walking(before, lists, k, handle, q, i, s) && i < |q| && Index(clients, lists)
    ensures k in lists && lists[k].handle == handle && q[i] in lists[k].queue
    ensures q[i] in clients && k in clients[q[i]].keys
  {
    assert q[i] in Queue(lists, k);
  }

  lemma WalkingStays(before: Lists, lists: Lists, k: Key, handle: nat, q: seq<Client>, i: nat, s: seq<Client>)
    requires Walking(before, lists, k, handle, q, i, s) && i < |q|
    ensures Walking(before, lists, k, handle, q, i + 1, s)
  {
    assert q[..i + 1] == q[..i] + [q[i]];
    assert q[..i + 1][..i] == q[..i];
  }

  lemma WalkingLeaves(before: Lists, lists: Lists, k: Key, handle: nat, q: seq<Client>, i: nat, s: seq<Client>, lists': Lists)
    requires Walking(before, lists, k, handle, q, i, s) && i < |q| && Gone(lists, lists', q[i])
    ensures Walking(before, lists', k, handle, q, i + 1, s + [q[i]])
  {
    SubsequenceSnoc(s, q, i);
    hide Subsequence;
    var s' := s + [q[i]];
    assert s'[..|s|] == s;
    forall j: Key
      ensures Queue(lists', j) == WithoutAll(Queue(before, j), s')
    {
    }
    hide WithoutAll;
    assert Queue(lists', k) == Without(Queue(lists, k), q[i]);
    WithoutOf(Queue(lists, k), q[i]);
    hide Without, Queue;
  }

  lemma SubsequenceSnoc(s: seq<Client>, q: seq<Client>, i: nat)
    requires i < |q| && Subsequence(s, q[..i])
    ensures Subsequence(s + [q[i]], q[..i + 1])
  {
    assert q[..i + 1][..i] == q[..i] && (s + [q[i]])[..|s|] == s;
  }

  ghost predicate FewerOrSame(before: Clients, clients: Clients) {
    |clients.Keys| < |before.Keys| || clients.Keys == before.Keys
  }

  lemma SameClients(clients: Clients)
    ensures FewerOrSame(clients, clients)
  {
  }

  lemma FewerStep(before: Clients, clients: Clients, now: Clients, c: Client, gone: bool)
    requires FewerOrSame(before, clients) && c in clients && now.Keys == clients.Keys - if gone then {c} else {}
    ensures FewerOrSame(before, now)
  {
  }

  lemma WalkingEnds(before: Lists, lists: Lists, k: Key, handle: nat, q: seq<Client>, s: seq<Client>)
    requires Walking(before, lists, k, handle, q, |q|, s) && q == Queue(before, k)
    ensures Walked(before, lists, k, s)
  {
    assert q[..|q|] == q;
  }

  lemma WalkedNobody(lists: Lists, k: Key)
    ensures Walked(lists, lists, k, [])
  {
  }

  /** Some clients of a key, in order, have left all their lists. */
  ghost predicate Walked(before: Lists, lists: Lists, k: Key, s: seq<Client>) {
    Subsequence(s, Queue(before, k)) && forall j: Key :: Queue(lists, j) == WithoutAll(Queue(before, j), s)
  }

  lemma NoDataWakes(clients: Clients, ready: set<Key>, aside: set<Key>)
    ensures Woken(map[], clients, ready, aside)
  {
  }

  lemma OthersWakeNobody(clients: Clients, k: Key)
    ensures NoneWaits(clients, k, Other)
  {
  }

  lemma IndexDistinct(clients: Clients, lists: Lists, k: Key)
    requires Index(clients, lists)
    ensures Distinct(Queue(lists, k))
  {
  }

  lemma NothingReady(data: Data, clients: Clients, ready: set<Key>, aside: set<Key>)
    requires ReadyOk([], ready) && Woken(data, clients, ready, aside)
    ensures ready == {} && forall k | k in data && k !in aside :: NoneWaits(clients, k, data[k])
  {
  }
}
