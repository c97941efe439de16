/**
 The scheduler of blocked clients: blocking, unblocking, signalling keys and
 serving the clients that wait for them.
 */
module BlockedServer {
  import opened Common
  import opened BlockedIndex
  import opened BlockedOrder
  import opened BlockedState
  import opened BlockedData
  import opened BlockedStreams

  /** The clients served so far, and their turns. */
  datatype Past = Past(served: seq<Client>, turns: set<(Key, nat)>)

  class Scheduler {
    var clients: Clients
    var lists: Lists
    var nextList: nat
    var total: int
    var byType: map<BType, int>
    var paused: seq<Client>
    var acks: seq<Client>
    var unblocked: seq<Client>
    var readyKeys: seq<Key>
    var readySet: set<Key>
    var data: Data

    // When each client blocked, the lists that have seen clients of two types, the clients served and their turns,
    // the elements of lists given to them, and the keys that were overwritten without a signal while a client waited
    // for the new value.
    ghost var clock: nat
    ghost var stamp: map<Client, nat>
    ghost var mixed: set<Key>
    ghost var served: seq<Client>
    ghost var turns: set<(Key, nat)>
    ghost var given: Log
    ghost var lost: set<Key>

    ghost predicate Valid()
      reads this`clients, this`lists, this`nextList, this`total, this`byType, this`paused, this`acks, this`unblocked
    {
      && Index(clients, lists) && Handles(lists, nextList) && Typed(clients) && Counts(clients, total, byType)
      && Side(clients, paused, PAUSE) && Side(clients, acks, WAIT) && Distinct(unblocked)
    }

    /** Lists are in the order in which clients blocked, and those who were ever served from a key blocked before all who wait
        for it, unless it has seen clients of two types. */
    ghost predicate InTurn()
      reads this`clients, this`lists, this`stamp, this`clock, this`mixed, this`turns
    {
      Stamped(clients, stamp, clock) && Fair(clients, lists, stamp, mixed) && Turns(turns, lists, stamp, mixed, clock)
    }

    constructor ()
      ensures Valid() && InTurn() && clients == map[] && lists == map[] && data == map[] && readyKeys == [] && readySet == {}
      ensures lost == {}
    {
      clients, lists, nextList, data := map[], map[], 0, map[];
      total, byType := 0, map[LIST := 0, ZSET := 0, STREAM := 0, WAIT := 0, PAUSE := 0];
      paused, acks, unblocked, readyKeys, readySet := [], [], [], [], {};
      clock, stamp, mixed, served, turns, given, lost := 0, map[], {}, [], {}, Log([], multiset{}), {};
      new;
      hide Index, Handles, Counts, Typed, Side;
      forall t: BType
        ensures t in byType && byType[t] == 0
      {
        match t {
          case LIST =>
          case ZSET =>
          case STREAM =>
          case WAIT =>
          case PAUSE =>
        }
      }
      NobodyCounts(byType);
      NobodyWaits();
    }

    /** blockClient */
    method BlockClient(c: Client, w: Waiting)
      requires c !in clients && Index(clients[c := w], lists) && Handles(lists, nextList) && Typed(clients[c := w])
      requires Counts(clients, total, byType) && Side(clients, paused, PAUSE) && Side(clients[c := w], acks, WAIT)
      requires Distinct(unblocked)
      modifies this`clients, this`total, this`byType, this`paused
      ensures Valid() && clients == old(clients)[c := w]
      ensures paused == if w.btype == PAUSE then old(paused) + [c] else old(paused)
    {
      hide Index, Handles, Counts, Typed, Side;
      CountsAdd(clients, total, byType, c, w);
      SideAdd(clients, paused, PAUSE, c, w);
      CountsTotal(clients, total, byType);
      total := total + 1;
      byType := byType[w.btype := byType[w.btype] + 1];
      if w.btype == PAUSE {
        paused := paused + [c];
      }
      clients := clients[c := w];
    }

    /** unblockClientWaitingData: the client leaves the list of every key it waits for. */
    method UnblockWaitingData(c: Client)
      requires c in clients && Index(clients, lists)
      modifies this`lists
      ensures Index(clients[c := clients[c].(keys := map[])], lists) && Gone(old(lists), lists, c)
    {
      hide Index, Left;
      ghost var before := lists;
      var left := clients[c].keys;
      LeftNone(lists, c, left);
      assert clients[c := clients[c].(keys := left)] == clients;
      while left != map[]
        invariant Index(clients[c := clients[c].(keys := left)], lists)
        invariant Left(before, lists, c, clients[c].keys, left)
        decreases |left.Keys|
      {
        NotEmpty(left);
        var k :| k in left.Keys;
        LeaveOne(clients, lists, c, left, k);
        assert k in lists;
        LeftNext(before, lists, c, clients[c].keys, left, k);
        lists := Leave(lists, k, c);
        left := left - {k};
      }
      LeftAll(clients, before, lists, c);
    }

    /** unblockClient */
    method UnblockClient(c: Client)
      requires Valid() && c in clients
      modifies this`clients, this`lists, this`total, this`byType, this`paused, this`acks, this`unblocked
      ensures Valid() && clients == old(clients) - {c} && Gone(old(lists), lists, c)
      ensures unblocked == if c in old(unblocked) then old(unblocked) else old(unblocked) + [c]
    {
      hide Index, Handles, Counts, Typed, Side, Gone, Left;
      ghost var before := lists;
      var btype := clients[c].btype;
      SideDel(clients, paused, PAUSE, c);
      SideDel(clients, acks, WAIT, c);
      CountsDel(clients, total, byType, c);
      CountsTotal(clients, total, byType);
      TypedDel(clients, c);
      if OnKeys(btype) {
        UnblockWaitingData(c);
        GoneHandles(before, lists, c, nextList);
        DropIndex(clients, lists, c);
      } else {
        NotOnKeys(clients, lists, c);
        if btype == WAIT {
          acks := Without(acks, c);
        } else {
          paused := Without(paused, c);
        }
      }
      total := total - 1;
      byType := byType[btype := byType[btype] - 1];
      clients := clients - {c};
      if c !in unblocked {
        unblocked := unblocked + [c];
      }
    }

    /** The loop of blockForKeys: a key named twice counts once. */
    method JoinLists(c: Client, keys: seq<Key>, ids: seq<nat>, ghost w: Waiting) returns (bpop: map<Key, nat>)
      requires Index(clients, lists) && Handles(lists, nextList) && c !in clients && |ids| == |keys|
      modifies this`lists, this`nextList
      ensures bpop == FirstIds(keys, ids) && Handles(lists, nextList)
      ensures Index(clients[c := w.(keys := bpop)], lists) && Joined(old(lists), lists, c, bpop)
    {
      hide Index, Handles, Joined, FirstIds;
      ghost var before := lists;
      bpop := map[];
      StartIndex(clients, lists, c, w.(keys := bpop));
      JoinedNone(lists, c);
      FirstIdsNone();
      for j := 0 to |keys|
        invariant bpop == FirstIds(keys[..j], ids[..j])
        invariant Index(clients[c := w.(keys := bpop)], lists) && Handles(lists, nextList)
        invariant Joined(before, lists, c, bpop)
      {
        FirstIdsNext(keys, ids, j);
        if keys[j] !in bpop {
          JoinOne(clients, lists, c, w, bpop, keys[j], ids[j], nextList);
          JoinHandles(lists, keys[j], c, nextList);
          JoinedNext(before, lists, c, bpop, keys[j], ids[j], nextList);
          bpop := bpop[keys[j] := ids[j]];
          lists := Join(lists, keys[j], c, nextList);
          nextList := nextList + 1;
        }
      }
      assert keys[..|keys|] == keys && ids[..|ids|] == ids;
    }

    /** Order and readiness with one more client. */
    lemma NewClient(before: Lists, c: Client, w: Waiting)
      requires Stamped(clients, stamp, clock) && Fair(clients, before, stamp, mixed) && Turns(turns, before, stamp, mixed, clock)
      requires c !in clients && Index(clients, before) && Joined(before, lists, c, w.keys)
      ensures var stamp', mixed' := stamp[c := clock], Mix(clients, before, mixed, w.keys, w.btype);
        && Stamped(clients[c := w], stamp', clock + 1) && Fair(clients[c := w], lists, stamp', mixed')
        && Turns(turns, lists, stamp', mixed', clock + 1)
      ensures Woken(data, clients, readySet, lost) && Missing(data, w) ==> Woken(data, clients[c := w], readySet, lost)
    {
      hide Index, Joined, Fair, Stamped, Turns, Mix, Woken, Missing;
      WokenJoined(data, clients, readySet, lost, c, w);
      FairJoined(clients, before, lists, stamp, mixed, c, w, clock);
      TurnsJoined(turns, clients, before, lists, stamp, mixed, c, w, clock);
    }

    /** blockForKeys: listed last under each of the keys, once. */
    method BlockForKeys(c: Client, btype: BType, keys: seq<Key>, ids: seq<nat>, target: Option<Key>, from: End, to: End,
                        group: Option<string>)
      requires Valid() && InTurn() && c !in clients && OnKeys(btype) && keys != [] && |ids| == |keys|
      modifies this`clients, this`lists, this`nextList, this`total, this`byType, this`paused
      modifies this`clock, this`stamp, this`mixed
      ensures Valid() && InTurn() && paused == old(paused)
      ensures clients == old(clients)[c := Waiting(btype, FirstIds(keys, ids), target, from, to, group)]
      ensures Joined(old(lists), lists, c, FirstIds(keys, ids))
      ensures old(Woken(data, clients, readySet, lost)) && Missing(data, clients[c]) ==> Woken(data, clients, readySet, lost)
    {
      hide Index, Handles, Joined, Counts, Typed, Side, FirstIds, Fair, Stamped, Turns, Mix, Woken, Missing;
      ghost var before := lists;
      var bpop := JoinLists(c, keys, ids, Waiting(btype, map[], target, from, to, group));
      var w := Waiting(btype, bpop, target, from, to, group);
      FirstIdsSome(keys, ids);
      TypedAdd(clients, c, w);
      NewClient(before, c, w);
      stamp, clock, mixed := stamp[c := clock], clock + 1, Mix(clients, before, mixed, bpop, btype);
      SideAdd(clients, acks, WAIT, c, w);
      BlockClient(c, w);
    }

    /** waitCommand: blocked until enough replicas acknowledge. */
    method BlockForReplicas(c: Client)
      requires Valid() && c !in clients
      modifies this`clients, this`total, this`byType, this`acks, this`paused
      ensures Valid() && clients == old(clients)[c := Idle(WAIT)] && acks == [c] + old(acks) && paused == old(paused)
    {
      hide Index, Handles, Counts, Side, Typed;
      StartIndex(clients, lists, c, Idle(WAIT));
      SideAdd(clients, acks, WAIT, c, Idle(WAIT));
      TypedIdle(clients, c, WAIT);
      acks := [c] + acks;
      BlockClient(c, Idle(WAIT));
    }

    /** Blocked until the pause is over. */
    method PauseClient(c: Client)
      requires Valid() && c !in clients
      modifies this`clients, this`total, this`byType, this`paused
      ensures Valid() && clients == old(clients)[c := Idle(PAUSE)] && paused == old(paused) + [c]
    {
      hide Index, Handles, Counts, Side, Typed;
      StartIndex(clients, lists, c, Idle(PAUSE));
      TypedIdle(clients, c, PAUSE);
      SideAdd(clients, acks, WAIT, c, Idle(PAUSE));
      BlockClient(c, Idle(PAUSE));
    }

    // ----- ready keys -----

    /** Someone waits for the key, and someone is blocked for its type. */
    ghost predicate Queued(k: Key, o: Obj)
      requires Valid()
      reads this
    {
      BlockType(o).Some? && OfType(clients, BlockType(o).value) != {} && k in lists
    }

    /** signalKeyAsReady, while the keys in l are being handled. */
    method SignalKeyAsReady(k: Key, o: Obj, ghost l: seq<Key>)
      requires Valid() && ReadyOk(l + readyKeys, readySet)
      modifies this`readyKeys, this`readySet
      ensures ReadyOk(l + readyKeys, readySet)
      ensures k in readySet || NoneWaits(clients, k, o)
      ensures readySet == old(readySet) + if Queued(k, o) then {k} else {}
      ensures readyKeys == if readySet == old(readySet) then old(readyKeys) else old(readyKeys) + [k]
    {
      hide Index, Handles, Counts, Typed, Side, NoneWaits, OfType, ReadyOk;
      SignalFacts(clients, lists, total, byType, k, o);
      if BlockType(o).None? || byType[BlockType(o).value] == 0 || k !in lists || k in readySet {
        return;
      }
      ReadyNext(l + readyKeys, readySet, k);
      assert (l + readyKeys) + [k] == l + (readyKeys + [k]);
      readyKeys := readyKeys + [k];
      readySet := readySet + {k};
    }

    /** dbAdd */
    method AddKey(k: Key, o: Obj, ghost l: seq<Key>, ghost aside: set<Key>)
      requires Valid() && ReadyOk(l + readyKeys, readySet) && Woken(data, clients, readySet, aside) && k !in data
      modifies this`data, this`readyKeys, this`readySet
      ensures ReadyOk(l + readyKeys, readySet) && Woken(data, clients, readySet, aside)
      ensures data == old(data)[k := o] && old(readySet) <= readySet <= old(readySet) + {k}
      ensures BlockType(o).None? ==> readyKeys == old(readyKeys)
    {
      hide Index, Handles, Counts, Typed, Side, NoneWaits, Woken, ReadyOk;
      SignalKeyAsReady(k, o, l);
      WokenMore(data, clients, old(readySet), aside, readySet);
      WokenChange(data, clients, readySet, aside, k, o);
      data := data[k := o];
    }

    /** dbOverwrite: the key is not signalled, so that it is lost to clients that wait for the new value. XGROUP SETID, which
        may set a group back, does the same to a stream. */
    method OverwriteKey(k: Key, o: Obj)
      requires Valid() && k in data && Woken(data, clients, readySet, lost)
      modifies this`data, this`lost
      ensures Valid() && data == old(data)[k := o] && Woken(data, clients, readySet, lost)
      ensures lost == if k !in readySet && Wanted(clients, lists, k, o) then old(lost) + {k} else old(lost) - {k}
    {
      hide Index, Handles, Counts, Typed, Side, Woken, NoneWaits, Wanted;
      WantedIff(clients, lists, k, o);
      lost := if k !in readySet && Wanted(clients, lists, k, o) then lost + {k} else lost - {k};
      WokenOverwrite(data, clients, readySet, old(lost), k, o);
      data := data[k := o];
    }

    /** A list or sorted set changes in place; an element pushed or popped. */
    method UpdateKey(k: Key, o: Obj)
      requires k in data && BlockType(data[k]) == BlockType(o) && !o.Stream? && Woken(data, clients, readySet, lost)
      modifies this`data
      ensures data == old(data)[k := o] && Woken(data, clients, readySet, lost)
    {
      hide Woken;
      WokenChange(data, clients, readySet, lost, k, o);
      data := data[k := o];
    }

    /** Entries of a stream deleted, or its last ID set. */
    method TrimStream(k: Key, ids: StreamIds)
      requires k in data && data[k].Stream? && ids.top <= data[k].ids.top && Woken(data, clients, readySet, lost)
      modifies this`data
      ensures data == old(data)[k := old(data)[k].(ids := ids)] && Woken(data, clients, readySet, lost)
    {
      hide Woken;
      WokenTrim(data, clients, readySet, lost, k, ids);
      data := data[k := data[k].(ids := ids)];
    }

    /** An entry added to a stream, or a group of it destroyed: the key is signalled. */
    method UpdateStream(k: Key, o: Obj, ghost l: seq<Key>)
      requires Valid() && ReadyOk(l + readyKeys, readySet) && k in data && data[k].Stream? && o.Stream?
      requires Woken(data, clients, readySet, lost)
      modifies this`data, this`readyKeys, this`readySet
      ensures Valid() && ReadyOk(l + readyKeys, readySet) && data == old(data)[k := o] && Woken(data, clients, readySet, lost)
    {
      hide Index, Handles, Counts, Typed, Side, NoneWaits, Woken, ReadyOk;
      SignalKeyAsReady(k, o, l);
      WokenMore(data, clients, old(readySet), lost, readySet);
      WokenChange(data, clients, readySet, lost, k, o);
      data := data[k := o];
    }

    // ----- serving -----

    /** serveClientBlockedOnList: the element goes to the client, or to the list it asked for. */
    method ServeListClient(c: Client, k: Key, value: string, ghost l: seq<Key>) returns (ok: bool)
      requires Valid() && ReadyOk(l + readyKeys, readySet) && Woken(data, clients, readySet, lost + {k})
      requires c in clients && k in data && data[k].List?
      modifies this`data, this`readyKeys, this`readySet
      ensures ReadyOk(l + readyKeys, readySet) && Woken(data, clients, readySet, lost + {k})
      ensures k in data && data[k].List?
      ensures var w := old(clients)[c]; ok <==> (w.target.Some? && w.target.value in old(data) ==> old(data)[w.target.value].List?)
      ensures var w := old(clients)[c];
        data == if !ok || w.target.None? then old(data)
                else if w.target.value in old(data)
                then old(data)[w.target.value := List(Push(old(data)[w.target.value].items, value, w.to))]
                else old(data)[w.target.value := List([value])]
    {
      hide Index, Handles, Counts, Typed, Side, NoneWaits, Woken, ReadyOk;
      var w := clients[c];
      if w.target.None? {
        return true;
      }
      var dst := w.target.value;
      if dst in data && !data[dst].List? {
        return false;
      }
      if dst in data {
        WokenChange(data, clients, readySet, lost + {k}, dst, List(Push(data[dst].items, value, w.to)));
        data := data[dst := List(Push(data[dst].items, value, w.to))];
      } else {
        AddKey(dst, List([value]), l, lost + {k});
      }
      return true;
    }

    /** Order, but for one list that is being served. */
    ghost predicate InTurnBut(k: Key)
      reads this`clients, this`lists, this`stamp, this`clock, this`mixed, this`turns
    {
      && Stamped(clients, stamp, clock) && Fair(clients, lists, stamp, mixed + {k})
      && Turns(turns, lists, stamp, mixed + {k}, clock)
    }

    /** In the middle of a pass over the clients q of a key, of which p have been looked at. */
    ghost predicate At(before: Clients, q: seq<Client>, log: Past, k: Key, handle: nat, t: BType, p: nat)
      reads this`clients, this`lists, this`served, this`turns, this`stamp
    {
      && Passing(before, q, clients, lists, k, handle, t, p)
      && served == log.served + Pick(before, q[..p], t, true)
      && turns == log.turns + TurnsOf(k, stamp, Pick(before, q[..p], t, true))
    }

    lemma AtStart(k: Key, t: BType)
      requires Index(clients, lists) && k in lists && InTurn()
      ensures At(clients, lists[k].queue, Past(served, turns), k, lists[k].handle, t, 0) && InTurnBut(k)
      ensures Progress(clients, readyKeys)
    {
      hide Index, Passing, Fair, Stamped, Turns, Pick, TurnsOf;
      FairAside(clients, lists, stamp, mixed, k);
      TurnsAside(turns, lists, stamp, mixed, clock, k);
      TurnsNone(k, stamp);
      PassingStart(clients, lists, k, t);
    }

    lemma AtHead(before: Clients, q: seq<Client>, log: Past, k: Key, handle: nat, t: BType, p: nat)
      requires Index(clients, lists) && At(before, q, log, k, handle, t, p) && p < |q|
      ensures k in lists && lists[k].handle == handle && lists[k].queue != [] && lists[k].queue[0] == q[p]
      ensures q[p] in clients && q[p] in before && clients[q[p]] == before[q[p]]
    {
      hide Index, Passing, Pick, TurnsOf;
      PassingHead(before, q, clients, lists, k, handle, t, p);
    }

    /** What a pass over the clients of a key did: the first p were looked at; those of the type were served in order. */
    ghost predicate Served(before: Clients, q: seq<Client>, log: seq<Client>, k: Key, t: BType, p: nat)
      reads this
    {
      && p <= |q|
      && clients == Unserved(before, q[..p], t)
      && Queue(lists, k) == Pass(before, q, t, p)
      && served == log + Pick(before, q[..p], t, true)
    }

    /** Fewer clients are blocked, or nothing was queued. */
    ghost predicate Progress(before: Clients, ready: seq<Key>)
      reads this
    {
      |clients.Keys| < |before.Keys| || (clients.Keys == before.Keys && readyKeys == ready)
    }

    /** The client at the head of the list is served and leaves. */
    method Release(c: Client, ghost before: Clients, ghost q: seq<Client>, ghost log: Past, ghost k: Key,
                   ghost handle: nat, ghost t: BType, ghost p: nat)
      requires Valid() && At(before, q, log, k, handle, t, p) && InTurnBut(k) && Woken(data, clients, readySet, lost + {k})
      requires p < |q| && q[p] == c && c in clients && c in before && clients[c].btype == before[c].btype == t && OnKeys(t)
      modifies this`clients, this`lists, this`total, this`byType, this`paused, this`acks, this`unblocked, this`served, this`turns
      ensures Valid() && At(before, q, log, k, handle, t, p + 1) && InTurnBut(k) && Woken(data, clients, readySet, lost + {k})
      ensures |clients.Keys| == |old(clients).Keys| - 1
    {
      hide Index, Handles, Counts, Typed, Side, Woken, Passing, Gone, Fair, Stamped, Pick, Turns, TurnsOf;
      ghost var lists0, clients0 := lists, clients;
      StampOf(clients, stamp, clock, c);
      UnblockClient(c);
      served := served + [c];
      TurnsGone(turns, lists0, lists, stamp, mixed + {k}, clock, c);
      TurnsServed(turns, lists, stamp, mixed + {k}, clock, k, stamp[c]);
      TurnsNext(k, stamp, Pick(before, q[..p], t, true), c);
      turns := turns + {(k, stamp[c])};
      ServeStep(before, q, clients0, lists0, k, handle, t, p, lists);
      PickNext(before, q, t, true, p);
      FairGone(clients0, lists0, lists, stamp, mixed + {k}, c);
      StampedDel(clients0, stamp, clock, c);
      WokenFewer(data, clients0, readySet, lost + {k}, c);
      FewerClients(clients0, c);
    }

    /** A client blocked for another type moves to the tail. */
    method Skip(ghost before: Clients, ghost q: seq<Client>, ghost log: Past, k: Key,
                ghost handle: nat, ghost t: BType, ghost p: nat)
      requires Valid() && At(before, q, log, k, handle, t, p) && InTurnBut(k)
      requires p < |q| && k in lists && lists[k].queue != [] && q[p] in before && before[q[p]].btype != t
      modifies this`lists
      ensures Valid() && At(before, q, log, k, handle, t, p + 1) && InTurnBut(k)
    {
      hide Index, Handles, Counts, Typed, Side, Passing, Fair, Stamped, Pick, Rotate, Turns, TurnsOf;
      TurnsRotate(turns, lists, stamp, mixed + {k}, clock, k);
      RotateIndex(clients, lists, k, nextList);
      RotateStep(before, q, clients, lists, k, handle, t, p);
      PickNext(before, q, t, true, p);
      assert Pick(before, q[..p + 1], t, true) == Pick(before, q[..p], t, true);
      FairRotate(clients, lists, k, stamp, mixed + {k});
      lists := Rotate(lists, k);
    }

    /** An element popped for a client and handed over, or put back. */
    method TakeElement(c: Client, k: Key, ghost l: seq<Key>) returns (ghost gift: seq<string>)
      requires Valid() && ReadyOk(l + readyKeys, readySet) && Woken(data, clients, readySet, lost + {k})
      requires c in clients && k in data && data[k].List? && data[k].items != []
      modifies this`data, this`readyKeys, this`readySet
      ensures Valid() && ReadyOk(l + readyKeys, readySet) && Woken(data, clients, readySet, lost + {k}) && k in data && data[k].List?
      ensures data == Serve(old(data), k, clients[c]) && gift == Gift(old(data), k, clients[c])
    {
      hide Index, Handles, Counts, Typed, Side, Woken, ReadyOk;
      ghost var was := data;
      var from := clients[c].from;
      var (value, rest) := Pop(data[k].items, from);
      PushUndoesPop(data[k].items, from);
      WokenChange(data, clients, readySet, lost + {k}, k, List(rest));
      data := data[k := List(rest)];
      var ok := ServeListClient(c, k, value, l);
      gift := if ok then [value] else [];
      if !ok {
        WokenChange(data, clients, readySet, lost + {k}, k, List(Push(data[k].items, value, from)));
        data := data[k := List(Push(data[k].items, value, from))];
        assert data == was;
      }
    }

    /** The client at the head of the list gets an element and leaves. */
    method Give(c: Client, ghost before: Clients, ghost q: seq<Client>, ghost log: Past, k: Key,
                ghost handle: nat, ghost p: nat, ghost l: seq<Key>)
      requires Valid() && At(before, q, log, k, handle, LIST, p) && InTurnBut(k)
      requires ReadyOk(l + readyKeys, readySet) && Woken(data, clients, readySet, lost + {k})
      requires p < |q| && k in lists && lists[k].queue != [] && c == q[p] && c in before && c in clients
      requires clients[c].btype == before[c].btype == LIST && k in data && data[k].List? && data[k].items != []
      modifies this`data, this`readyKeys, this`readySet, this`given
      modifies this`clients, this`lists, this`total, this`byType, this`paused, this`acks, this`unblocked, this`served, this`turns
      ensures Valid() && At(before, q, log, k, handle, LIST, p + 1) && InTurnBut(k)
      ensures ReadyOk(l + readyKeys, readySet) && Woken(data, clients, readySet, lost + {k}) && k in data && data[k].List?
      ensures data == Serve(old(data), k, old(clients)[c]) && given == Noted(old(given), old(data), k, old(clients)[c])
      ensures |clients.Keys| == |old(clients).Keys| - 1
    {
      hide Index, Handles, Counts, Typed, Side, Woken, Passing, Fair, Stamped, Turns, Pick, ReadyOk, InOrder, Serve, Gift, Noted;
      ghost var was, w := data, clients[c];
      ghost var gift := TakeElement(c, k, l);
      given := Noted(given, was, k, w);
      Release(c, before, q, log, k, handle, LIST, p);
    }

    /** The loop of serveClientsBlockedOnListKey. It never looks at a list that was released, and ends when it has seen
        every client or when the next could be served but no element is left. */
    method ListPass(k: Key, ghost l: seq<Key>) returns (ghost p: nat)
      requires Valid() && InTurn() && ReadyOk(l + readyKeys, readySet) && Woken(data, clients, readySet, lost + {k})
      requires k in data && data[k].List? && k in lists
      modifies this`data, this`readyKeys, this`readySet, this`given
      modifies this`clients, this`lists, this`total, this`byType, this`paused, this`acks, this`unblocked, this`served, this`turns
      ensures Valid() && InTurnBut(k) && ReadyOk(l + readyKeys, readySet) && Woken(data, clients, readySet, lost + {k})
      ensures p <= old(|lists[k].queue|)
      ensures Giving(old(data), k, old(clients), old(lists[k].queue), p, data, old(given), given)
      ensures At(old(clients), old(lists[k].queue), Past(old(served), old(turns)), k, old(lists[k].handle), LIST, p)
      ensures Progress(old(clients), old(readyKeys)) && k in data && data[k].List?
      ensures p == ListStop(old(data), k, old(clients), old(lists[k].queue))
      ensures var q := old(lists[k].queue);
        p == |q| || (p < |q| && q[p] in old(clients) && old(clients)[q[p]].btype == LIST && data[k].items == [])
    {
      hide Index, Handles, Counts, Typed, Side, Woken, Fair, Stamped, Turns, Pick, ReadyOk, InOrder;
      hide Serve, ServeAll, Gift, Gifts, Giving, Noted, ListStop, At, InTurnBut;
      AtStart(k, LIST);
      ghost var before, log, q, was := clients, Past(served, turns), lists[k].queue, data;
      p := 0;
      GivingStart(was, k, before, q, given);
      var numclients := |lists[k].queue|;
      ghost var handle := lists[k].handle;
      while numclients > 0
        invariant 0 <= numclients && p + numclients == |q|
        invariant Valid() && At(before, q, log, k, handle, LIST, p) && InTurnBut(k)
        invariant ReadyOk(l + readyKeys, readySet) && Woken(data, clients, readySet, lost + {k})
        invariant k in data && data[k].List?
        invariant Giving(was, k, before, q, p, data, old(given), given)
        invariant Progress(before, old(readyKeys))
      {
        numclients := numclients - 1;
        AtHead(before, q, log, k, handle, LIST, p);
        GivingNext(was, k, before, q, p, data, old(given), given);
        var c := lists[k].queue[0];
        if clients[c].btype != LIST {
          Skip(before, q, log, k, handle, LIST, p);
          p := p + 1;
          continue;
        }
        if data[k].items == [] {
          break;
        }
        Give(c, before, q, log, k, handle, p, l);
        p := p + 1;
      }
      GivingStops(was, k, before, q, p, data, old(given), given);
    }

    /** The clients of a list, if there are any. */
    method ServeListClients(k: Key, ghost l: seq<Key>) returns (ghost p: nat)
      requires Valid() && InTurn() && ReadyOk(l + readyKeys, readySet) && Woken(data, clients, readySet, lost + {k})
      requires k in data && data[k].List?
      modifies this`data, this`readyKeys, this`readySet, this`given
      modifies this`clients, this`lists, this`total, this`byType, this`paused, this`acks, this`unblocked, this`served, this`turns
      ensures Valid() && InTurn() && ReadyOk(l + readyKeys, readySet) && Woken(data, clients, readySet, lost + {k})
      ensures Served(old(clients), Queue(old(lists), k), old(served), k, LIST, p) && Progress(old(clients), old(readyKeys))
      ensures Giving(old(data), k, old(clients), Queue(old(lists), k), p, data, old(given), given)
      ensures k in data && data[k].List? && p == ListStop(old(data), k, old(clients), Queue(old(lists), k))
      ensures if p < |Queue(old(lists), k)| then data[k].items == [] else NoneWaits(clients, k, data[k])
      ensures turns == old(turns) + TurnsOf(k, stamp, Pick(old(clients), Queue(old(lists), k)[..p], LIST, true))
      ensures k !in mixed ==> FirstServed(old(clients), Queue(old(lists), k), LIST, p, lists, k, stamp)
    {
      hide Index, Handles, Counts, Typed, Side, Woken, Fair, Stamped, Turns, Pick, ReadyOk, InOrder, FirstServed, NoneWaits;
      hide Pass, Unserved, Serve, ServeAll, Gift, Gifts, Giving;
      ghost var before, q := clients, Queue(lists, k);
      p := 0;
      GivingStart(data, k, before, q, given);
      if k in lists {
        ghost var handle := lists[k].handle;
        FairAside(clients, lists, stamp, mixed, k);
        p := ListPass(k, l);
        PassingFair(before, q, clients, lists, k, handle, LIST, p, stamp, mixed);
        PassingFrom(before, q, clients, lists, k, handle, LIST, p);
        TurnsBack(old(turns), before, old(lists), lists, stamp, mixed, clock, k, LIST, p);
        if p == |q| {
          PassingDone(before, q, clients, lists, k, handle, LIST);
          NoneLeft(clients, k, data[k], LIST);
        }
      } else {
        NoList(clients, lists, k, LIST, stamp);
        TurnsNone(k, stamp);
        NoneLeft(clients, k, data[k], LIST);
        GivingStops(data, k, before, q, 0, data, given, given);
      }
    }

    /** serveClientsBlockedOnListKey */
    method ServeList(k: Key, ghost l: seq<Key>) returns (ghost p: nat)
      requires Valid() && InTurn() && ReadyOk(l + readyKeys, readySet) && Woken(data, clients, readySet, lost + {k})
      requires k in data && data[k].List?
      modifies this`data, this`readyKeys, this`readySet, this`given
      modifies this`clients, this`lists, this`total, this`byType, this`paused, this`acks, this`unblocked, this`served, this`turns
      ensures Valid() && InTurn() && ReadyOk(l + readyKeys, readySet) && Woken(data, clients, readySet, lost)
      ensures Served(old(clients), Queue(old(lists), k), old(served), k, LIST, p) && Progress(old(clients), old(readyKeys))
      ensures p == ListStop(old(data), k, old(clients), Queue(old(lists), k))
      ensures var picked := Pick(old(clients), Queue(old(lists), k)[..p], LIST, true);
        && given == LogAfter(old(data), k, old(clients), picked, old(given))
        && data == Cleaned(ServeAll(old(data), k, old(clients), picked), k)
      ensures Conserved(old(data), old(clients), old(given).taken, data, clients, given.taken)
      ensures p < |Queue(old(lists), k)| ==> k !in data
      ensures turns == old(turns) + TurnsOf(k, stamp, Pick(old(clients), Queue(old(lists), k)[..p], LIST, true))
      ensures k !in mixed ==> FirstServed(old(clients), Queue(old(lists), k), LIST, p, lists, k, stamp)
    {
      hide Index, Handles, Counts, Typed, Side, Woken, Fair, Stamped, Turns, Pick, ReadyOk, InOrder, FirstServed, NoneWaits;
      hide Pass, Unserved, Serve, ServeAll, Gift, Gifts, Taken, Conserved, ListStop, SameTargets;
      p := ServeListClients(k, l);
      UnservedTargets(old(clients), Queue(old(lists), k)[..p], LIST);
      ConservedPass(old(data), k, old(clients), Pick(old(clients), Queue(old(lists), k)[..p], LIST, true), old(given).taken, clients);
      if data[k].items == [] {
        WokenDelete(data, clients, readySet, lost, k);
        data := data - {k};
      } else {
        WokenBack(data, clients, readySet, lost, k);
      }
    }

    /** genericZpopCommand for one member: the key goes with its last one. */
    method ZPop(k: Key, from: End)
      requires Valid() && Woken(data, clients, readySet, lost + {k}) && k in data && data[k].ZSet?
      modifies this`data
      ensures Valid() && Woken(data, clients, readySet, lost + {k})
      ensures data == if |old(data)[k].members| == 1 then old(data) - {k} else old(data)[k := ZSet(Pop(old(data)[k].members, from).1)]
    {
      hide Index, Handles, Counts, Typed, Side, Woken;
      var (_, rest) := Pop(data[k].members, from);
      if rest == [] {
        WokenDelete(data, clients, readySet, lost, k);
        WokenSome(data - {k}, clients, readySet, lost, k);
        data := data - {k};
      } else {
        WokenChange(data, clients, readySet, lost + {k}, k, ZSet(rest));
        data := data[k := ZSet(rest)];
      }
    }

    /** The client at the head of the list gets a member and leaves. */
    method TakeMember(c: Client, ghost before: Clients, ghost q: seq<Client>, ghost log: Past, k: Key,
                      ghost handle: nat, ghost p: nat)
      requires Valid() && At(before, q, log, k, handle, ZSET, p) && InTurnBut(k) && Woken(data, clients, readySet, lost + {k})
      requires p < |q| && c == q[p] && c in before && c in clients && k in data && data[k].ZSet?
      requires clients[c].btype == before[c].btype == ZSET
      modifies this`data
      modifies this`clients, this`lists, this`total, this`byType, this`paused, this`acks, this`unblocked, this`served, this`turns
      ensures Valid() && At(before, q, log, k, handle, ZSET, p + 1) && InTurnBut(k)
      ensures Woken(data, clients, readySet, lost + {k})
      ensures data == if |old(data)[k].members| == 1 then old(data) - {k}
                      else old(data)[k := ZSet(Pop(old(data)[k].members, old(clients)[c].from).1)]
      ensures |clients.Keys| == |old(clients).Keys| - 1
    {
      hide Index, Handles, Counts, Typed, Side, Woken, Passing, Fair, Stamped, Turns, Pick, InOrder, Pop;
      ZPop(k, clients[c].from);
      Release(c, before, q, log, k, handle, ZSET, p);
    }

    /** The client at the head of a sorted set's list: served, or moved to the tail. */
    method ZsetTurn(k: Key, zcard: nat, ghost was: Data, ghost before: Clients, ghost q: seq<Client>, ghost log: Past,
                    ghost handle: nat, ghost p: nat, ghost avail: nat) returns (rest: nat)
      requires Valid() && At(before, q, log, k, handle, ZSET, p) && InTurnBut(k) && Woken(data, clients, readySet, lost + {k})
      requires p < |q| && zcard > 0 && k in was && was[k].ZSet? && Progress(before, readyKeys)
      requires Counting(before, q, ZSET, p, avail, zcard) && Taking(was, k, before, q, p, data, zcard)
      modifies this`data
      modifies this`clients, this`lists, this`total, this`byType, this`paused, this`acks, this`unblocked, this`served, this`turns
      ensures Valid() && At(before, q, log, k, handle, ZSET, p + 1) && InTurnBut(k) && Woken(data, clients, readySet, lost + {k})
      ensures Counting(before, q, ZSET, p + 1, avail, rest) && Taking(was, k, before, q, p + 1, data, rest)
      ensures Progress(before, readyKeys)
    {
      hide Index, Handles, Counts, Typed, Side, Woken, Fair, Stamped, Turns, Pick, InOrder, Counting, Reach, Taking;
      hide PopAll, WithMembers, At, InTurnBut, Pop;
      AtHead(before, q, log, k, handle, ZSET, p);
      TakingNext(was, k, before, q, p, data, zcard);
      CountingNext(before, q, ZSET, p, avail, zcard);
      var c := lists[k].queue[0];
      if clients[c].btype != ZSET {
        Skip(before, q, log, k, handle, ZSET, p);
        rest := zcard;
      } else {
        TakeMember(c, before, q, log, k, handle, p);
        rest := zcard - 1;
      }
    }

    /** The loop of serveClientsBlockedOnSortedSetKey. */
    method ZsetPass(k: Key) returns (ghost p: nat)
      requires Valid() && InTurn() && Woken(data, clients, readySet, lost + {k})
      requires k in data && data[k].ZSet? && k in lists
      modifies this`data
      modifies this`clients, this`lists, this`total, this`byType, this`paused, this`acks, this`unblocked, this`served, this`turns
      ensures Valid() && InTurnBut(k) && Woken(data, clients, readySet, lost + {k})
      ensures p <= old(|lists[k].queue|)
      ensures data == WithMembers(old(data), k,
                                  PopAll(old(data[k].members), old(clients), Pick(old(clients), old(lists[k].queue)[..p], ZSET, true)))
      ensures At(old(clients), old(lists[k].queue), Past(old(served), old(turns)), k, old(lists[k].handle), ZSET, p)
      ensures Progress(old(clients), old(readyKeys)) && (k in data ==> data[k].ZSet? && p == old(|lists[k].queue|))
      ensures p == Reach(old(clients), old(lists[k].queue), ZSET, old(|data[k].members|))
      ensures p < old(|lists[k].queue|) ==> Pick(old(clients), old(lists[k].queue)[..p], ZSET, true) != []
    {
      hide Index, Handles, Counts, Typed, Side, Woken, Fair, Stamped, Turns, Pick, InOrder, Counting, Reach, Taking;
      hide PopAll, WithMembers, At, InTurnBut, Progress;
      AtStart(k, ZSET);
      ghost var before, log, q, was := clients, Past(served, turns), lists[k].queue, data;
      ghost var avail, handle := |data[k].members|, lists[k].handle;
      p := 0;
      CountingStart(before, q, ZSET, avail);
      TakingStart(was, k, before, q);
      var numclients := |lists[k].queue|;
      var zcard := |data[k].members|;
      while numclients > 0 && zcard > 0
        invariant 0 <= numclients && p + numclients == |q| && 0 <= zcard
        invariant Valid() && At(before, q, log, k, handle, ZSET, p) && InTurnBut(k) && Woken(data, clients, readySet, lost + {k})
        invariant Counting(before, q, ZSET, p, avail, zcard)
        invariant Taking(was, k, before, q, p, data, zcard)
        invariant Progress(before, readyKeys)
      {
        numclients := numclients - 1;
        zcard := ZsetTurn(k, zcard, was, before, q, log, handle, p, avail);
        p := p + 1;
      }
      CountingEnds(before, q, ZSET, p, avail, zcard);
      TakingEnds(was, k, before, q, p, data, zcard);
    }

    /** serveClientsBlockedOnSortedSetKey: one member for each client, as long as there are both. */
    method ServeZset(k: Key, ghost l: seq<Key>) returns (ghost p: nat)
      requires Valid() && InTurn() && ReadyOk(l + readyKeys, readySet) && Woken(data, clients, readySet, lost + {k})
      requires k in data && data[k].ZSet?
      modifies this`data
      modifies this`clients, this`lists, this`total, this`byType, this`paused, this`acks, this`unblocked, this`served, this`turns
      ensures Valid() && InTurn() && ReadyOk(l + readyKeys, readySet) && Woken(data, clients, readySet, lost)
      ensures Served(old(clients), Queue(old(lists), k), old(served), k, ZSET, p) && Progress(old(clients), old(readyKeys))
      ensures p == Reach(old(clients), Queue(old(lists), k), ZSET, old(|data[k].members|))
      ensures data == WithMembers(old(data), k,
                                  PopAll(old(data[k].members), old(clients), Pick(old(clients), Queue(old(lists), k)[..p], ZSET, true)))
      ensures Conserved(old(data), old(clients), given.taken, data, clients, given.taken)
      ensures turns == old(turns) + TurnsOf(k, stamp, Pick(old(clients), Queue(old(lists), k)[..p], ZSET, true))
      ensures k !in mixed ==> FirstServed(old(clients), Queue(old(lists), k), ZSET, p, lists, k, stamp)
    {
      hide Index, Handles, Counts, Typed, Side, Woken, Fair, Stamped, Turns, Pick, ReadyOk, InOrder, FirstServed, NoneWaits;
      hide Pass, Unserved, PopAll, Conserved, SameTargets;
      ghost var before, q := clients, Queue(lists, k);
      p := 0;
      TakingStart(data, k, before, q);
      if k in lists {
        ghost var handle := lists[k].handle;
        FairAside(clients, lists, stamp, mixed, k);
        p := ZsetPass(k);
        PassingFair(before, q, clients, lists, k, handle, ZSET, p, stamp, mixed);
        PassingFrom(before, q, clients, lists, k, handle, ZSET, p);
        TurnsBack(old(turns), before, old(lists), lists, stamp, mixed, clock, k, ZSET, p);
        if p == |q| {
          PassingDone(before, q, clients, lists, k, handle, ZSET);
        }
      } else {
        NoList(clients, lists, k, ZSET, stamp);
        TurnsNone(k, stamp);
      }
      if k in data {
        NoneLeft(clients, k, data[k], ZSET);
      }
      UnservedTargets(old(clients), q[..p], ZSET);
      ghost var left := PopAll(old(data[k].members), before, Pick(before, q[..p], ZSET, true));
      ConservedZset(old(data), k, old(clients), left, given.taken, clients);
      WokenBack(data, clients, readySet, lost, k);
    }

    /** The ID a client waits for is the one its group has read. */
    method Touch(c: Client, k: Key, id: nat)
      requires Valid() && InTurn() && Woken(data, clients, readySet, lost + {k}) && c in clients && k in clients[c].keys
      modifies this`clients
      ensures Valid() && InTurn() && Woken(data, clients, readySet, lost + {k})
      ensures clients == old(clients)[c := old(clients)[c].(keys := old(clients)[c].keys[k := id])]
    {
      hide Index, Handles, Counts, Typed, Side, Woken, Fair, Stamped, Turns;
      Retouch(clients, lists, total, byType, c, k, id);
      RetouchRest(data, clients, lists, readySet, lost + {k}, stamp, mixed, clock, paused, PAUSE, c, k, id);
      RetouchRest(data, clients, lists, readySet, lost + {k}, stamp, mixed, clock, acks, WAIT, c, k, id);
      clients := clients[c := clients[c].(keys := clients[c].keys[k := id])];
    }

    /** A client served from a stream. */
    method Drop(c: Client, ghost k: Key)
      requires Valid() && InTurn() && Woken(data, clients, readySet, lost + {k}) && c in clients
      modifies this`clients, this`lists, this`total, this`byType, this`paused, this`acks, this`unblocked, this`served
      ensures Valid() && InTurn() && Woken(data, clients, readySet, lost + {k})
      ensures clients == old(clients) - {c} && Gone(old(lists), lists, c) && served == old(served) + [c]
    {
      hide Index, Handles, Counts, Typed, Side, Woken, Fair, Stamped, Turns, Gone;
      ghost var clients0, lists0 := clients, lists;
      UnblockClient(c);
      served := served + [c];
      FairGone(clients0, lists0, lists, stamp, mixed, c);
      TurnsGone(turns, lists0, lists, stamp, mixed, clock, c);
      StampedDel(clients0, stamp, clock, c);
      WokenFewer(data, clients0, readySet, lost + {k}, c);
    }

    lemma ValidIndex()
      requires Valid()
      ensures Index(clients, lists)
    {
    }

    /** One step of serveClientsBlockedOnStreamKey. A group remembers how far it has read; 'upto' is how far this client
        gets. */
    method StreamClient(c: Client, k: Key, upto: nat) returns (gone: bool)
      requires Valid() && InTurn() && Woken(data, clients, readySet, lost + {k})
      requires c in clients && k in clients[c].keys && k in data && data[k].Stream?
      modifies this`data
      modifies this`clients, this`lists, this`total, this`byType, this`paused, this`acks, this`unblocked, this`served
      ensures Valid() && InTurn() && Woken(data, clients, readySet, lost + {k})
      ensures gone <==> Due(old(data)[k], old(clients)[c], k)
      ensures data == if gone then old(data)[k := Advance(old(data)[k], old(clients)[c], upto)] else old(data)
      ensures clients == if gone then old(clients) - {c} else old(clients)[c := Refreshed(old(data)[k], old(clients)[c], k)]
      ensures if gone then Gone(old(lists), lists, c) && served == old(served) + [c]
              else lists == old(lists) && served == old(served)
    {
      hide Valid, InTurn, Woken, Gone;
      var w := clients[c];
      assert clients[c := w] == clients && data[k := data[k]] == data;
      if w.btype != STREAM {
        return false;
      }
      if w.group.None? {
        if data[k].ids.last <= w.keys[k] {
          return false;
        }
      } else if w.group.value in data[k].groups {
        var gt := data[k].groups[w.group.value];
        Touch(c, k, gt);
        if data[k].ids.last <= gt {
          return false;
        }
        var o := data[k].(groups := data[k].groups[w.group.value := if gt <= upto <= data[k].ids.last then upto else data[k].ids.last]);
        WokenChange(data, clients, readySet, lost + {k}, k, o);
        data := data[k := o];
      }
      Drop(c, k);
      assert clients == old(clients) - {c};
      return true;
    }

    /** The loop of serveClientsBlockedOnStreamKey. The list is walked while clients leave it: the next one is always still
        in it. */
    method StreamPass(k: Key, upTos: seq<nat>) returns (ghost s: seq<Client>)
      requires Valid() && InTurn() && Woken(data, clients, readySet, lost + {k})
      requires k in data && data[k].Stream? && k in lists && |upTos| == |lists[k].queue|
      modifies this`data
      modifies this`clients, this`lists, this`total, this`byType, this`paused, this`acks, this`unblocked, this`served
      ensures Valid() && InTurn() && Woken(data, clients, readySet, lost + {k})
      ensures FewerOrSame(old(clients), clients) && served == old(served) + s
      ensures Walking(old(lists), lists, k, old(lists[k].handle), old(lists[k].queue), old(|lists[k].queue|), s)
      ensures Streaming(old(data), old(clients), k, old(lists[k].queue), upTos, |upTos|, data, clients, s)
    {
      hide Valid, InTurn, Woken, Gone, NoneWaits, Walking, FewerOrSame, Streaming, Refreshed, Advance, Due, Index, Distinct;
      s := [];
      var q := lists[k].queue;
      ghost var handle := lists[k].handle;
      ValidIndex();
      IndexDistinct(clients, lists, k);
      WalkingStart(clients, lists, k);
      StreamingStart(data, clients, k, q, upTos);
      SameClients(clients);
      for i := 0 to |q|
        invariant Valid() && InTurn() && Woken(data, clients, readySet, lost + {k})
        invariant Walking(old(lists), lists, k, handle, q, i, s)
        invariant Streaming(old(data), old(clients), k, q, upTos, i, data, clients, s)
        invariant FewerOrSame(old(clients), clients) && served == old(served) + s
      {
        ValidIndex();
        WalkingHead(old(lists), clients, lists, k, handle, q, i, s);
        assert k in lists && lists[k].handle == handle;
        StreamingNext(old(data), old(clients), k, q, upTos, i, data, clients, s);
        ghost var lists0, clients0 := lists, clients;
        var gone := StreamClient(q[i], k, upTos[i]);
        FewerStep(old(clients), clients0, clients, q[i], gone);
        if gone {
          WalkingLeaves(old(lists), lists0, k, handle, q, i, s, lists);
          s := s + [q[i]];
        } else {
          WalkingStays(old(lists), lists, k, handle, q, i, s);
        }
      }
    }

    /** serveClientsBlockedOnStreamKey: every client that is due when its turn comes is served, in order, and nobody who
        is due is left. */
    method ServeStream(k: Key, upTos: seq<nat>, ghost l: seq<Key>) returns (ghost s: seq<Client>)
      requires Valid() && InTurn() && ReadyOk(l + readyKeys, readySet) && Woken(data, clients, readySet, lost + {k})
      requires k in data && data[k].Stream? && |upTos| == |Queue(lists, k)|
      modifies this`data
      modifies this`clients, this`lists, this`total, this`byType, this`paused, this`acks, this`unblocked, this`served
      ensures Valid() && InTurn() && ReadyOk(l + readyKeys, readySet) && Woken(data, clients, readySet, lost)
      ensures Progress(old(clients), old(readyKeys)) && served == old(served) + s && Walked(old(lists), lists, k, s)
      ensures Walk(old(data), old(clients), k, Queue(old(lists), k), upTos, data, clients, s)
      ensures Conserved(old(data), old(clients), given.taken, data, clients, given.taken)
    {
      hide Valid, InTurn, Woken, ReadyOk, NoneWaits, Walking, Walked, Walk, Streaming, Conserved;
      s := [];
      ValidIndex();
      WalkedNobody(lists, k);
      StreamingStart(data, clients, k, Queue(lists, k), upTos);
      if k in lists {
        ghost var handle, q := lists[k].handle, lists[k].queue;
        s := StreamPass(k, upTos);
        WalkingEnds(old(lists), lists, k, handle, q, s);
      }
      StreamingEnds(old(data), old(clients), old(lists), k, upTos, data, clients, s);
      ConservedWalk(old(data), old(clients), k, Queue(old(lists), k), upTos, data, clients, s, given.taken);
      WokenBack(data, clients, readySet, lost, k);
    }

    // ----- the loop over ready keys -----

    /** One ready key: taken out of the table first, so that serving it may signal it again. */
    method HandleKey(k: Key, ghost l: seq<Key>)
      requires Valid() && InTurn() && ReadyOk([k] + l + readyKeys, readySet) && Woken(data, clients, readySet, lost)
      modifies this`data, this`readyKeys, this`readySet, this`given, this`lost
      modifies this`clients, this`lists, this`total, this`byType, this`paused, this`acks, this`unblocked, this`served, this`turns
      ensures Valid() && InTurn() && ReadyOk(l + readyKeys, readySet) && Woken(data, clients, readySet, lost)
      ensures Progress(old(clients), old(readyKeys)) && old(served) <= served && old(turns) <= turns && lost <= old(lost)
      ensures Conserved(old(data), old(clients), old(given).taken, data, clients, given.taken)
    {
      hide Valid, InTurn, Woken, ReadyOk, Served, FirstServed, NoneWaits, Conserved, Walk, Walked, Pick, TurnsOf, Cleaned, ServeAll;
      hide LogAfter, WithMembers, PopAll, ListStop, Reach;
      ReadyFirst([k] + l + readyKeys, readySet);
      assert ([k] + l + readyKeys)[1..] == l + readyKeys;
      WokenAside(data, clients, readySet, lost, k);
      ConservedNothing(data, clients, given.taken);
      readySet, lost := readySet - {k}, lost - {k};
      if k in data {
        match data[k] {
          case List(_) =>
            ghost var p := ServeList(k, l);
            ServedMore(old(clients), Queue(old(lists), k), old(served), k, LIST, p);
          case ZSet(_) =>
            ghost var p := ServeZset(k, l);
            ServedMore(old(clients), Queue(old(lists), k), old(served), k, ZSET, p);
          case Stream(_, _) =>
            var n := |Queue(lists, k)|;
            assert |seq(n, _ => 0)| == n;
            var upTos: seq<nat> :| |upTos| == n;
            ghost var s := ServeStream(k, upTos, l);
          case Other =>
            OthersWakeNobody(clients, k);
            WokenBack(data, clients, readySet, lost, k);
        }
      } else {
        WokenBack(data, clients, readySet, lost, k);
      }
    }

    lemma ServedMore(before: Clients, q: seq<Client>, log: seq<Client>, k: Key, t: BType, p: nat)
      requires Served(before, q, log, k, t, p)
      ensures log <= served
    {
    }

    /** One round: the keys that are ready now. */
    method HandleRound()
      requires Valid() && InTurn() && ReadyOk(readyKeys, readySet) && Woken(data, clients, readySet, lost)
      modifies this`data, this`readyKeys, this`readySet, this`given, this`lost
      modifies this`clients, this`lists, this`total, this`byType, this`paused, this`acks, this`unblocked, this`served, this`turns
      ensures Valid() && InTurn() && ReadyOk(readyKeys, readySet) && Woken(data, clients, readySet, lost)
      ensures |clients.Keys| < |old(clients).Keys| || (|clients.Keys| == |old(clients).Keys| && readyKeys == [])
      ensures old(served) <= served && old(turns) <= turns && lost <= old(lost)
      ensures Conserved(old(data), old(clients), old(given).taken, data, clients, given.taken)
    {
      hide Valid, InTurn, Woken, ReadyOk, Conserved;
      ConservedNothing(data, clients, given.taken);
      var l := readyKeys;
      readyKeys := [];
      assert l + readyKeys == l;
      while |l| != 0
        invariant Valid() && InTurn() && ReadyOk(l + readyKeys, readySet) && Woken(data, clients, readySet, lost)
        invariant |clients.Keys| < |old(clients).Keys| || (|clients.Keys| == |old(clients).Keys| && readyKeys == [])
        invariant old(served) <= served && old(turns) <= turns && lost <= old(lost)
        invariant Conserved(old(data), old(clients), old(given).taken, data, clients, given.taken)
        decreases |l|
      {
        assert l + readyKeys == [l[0]] + l[1..] + readyKeys;
        ghost var data0, clients0, given0 := data, clients, given;
        HandleKey(l[0], l[1..]);
        ConservedTrans(old(data), old(clients), old(given).taken, data0, clients0, given0.taken, data, clients, given.taken);
        l := l[1..];
      }
      assert l + readyKeys == readyKeys;
    }

    /** handleClientsBlockedOnKeys. It ends: each round serves a client or queues nothing more. When it does, no client
        waits for a key that could serve it, but for keys overwritten without a signal; and over all lists no element was
        lost or made up. */
    method HandleBlockedOnKeys()
      requires Valid() && InTurn() && ReadyOk(readyKeys, readySet) && Woken(data, clients, readySet, lost)
      modifies this`data, this`readyKeys, this`readySet, this`given, this`lost
      modifies this`clients, this`lists, this`total, this`byType, this`paused, this`acks, this`unblocked, this`served, this`turns
      ensures Valid() && InTurn() && readyKeys == [] && readySet == {} && Woken(data, clients, readySet, lost)
      ensures forall k | k in data && k !in lost :: NoneWaits(clients, k, data[k])
      ensures |clients.Keys| <= |old(clients).Keys| && old(served) <= served && old(turns) <= turns && lost <= old(lost)
      ensures Conserved(old(data), old(clients), old(given).taken, data, clients, given.taken)
      ensures old(readyKeys) == [] ==> data == old(data) && clients == old(clients) && lists == old(lists) && lost == old(lost)
    {
      hide Valid, InTurn, Woken, ReadyOk, Conserved, NoneWaits;
      ConservedNothing(data, clients, given.taken);
      while |readyKeys| != 0
        invariant Valid() && InTurn() && ReadyOk(readyKeys, readySet) && Woken(data, clients, readySet, lost)
        invariant |clients.Keys| <= |old(clients).Keys| && old(served) <= served && old(turns) <= turns && lost <= old(lost)
        invariant Conserved(old(data), old(clients), old(given).taken, data, clients, given.taken)
        invariant old(readyKeys) == [] ==>
          readyKeys == [] && data == old(data) && clients == old(clients) && lists == old(lists) && lost == old(lost)
        decreases |clients.Keys|, |readyKeys|
      {
        ghost var data0, clients0, given0 := data, clients, given;
        HandleRound();
        ConservedTrans(old(data), old(clients), old(given).taken, data0, clients0, given0.taken, data, clients, given.taken);
      }
      NothingReady(data, clients, readySet, lost);
    }

    /** Whoever was served from a key that has seen clients of one type only blocked before all who wait for it now. */
    lemma ServedInTurn(k: Key, time: nat, d: Client)
      requires InTurn() && (k, time) in turns && k !in mixed && d in Queue(lists, k)
      ensures d in stamp && time < stamp[d]
    {
      assert Behind(Queue(lists, k), stamp, time);
    }

    /** A client waits for a key that could serve it. */
    ghost predicate LeftBehind()
      reads this
    {
      exists k :: k in data && !NoneWaits(clients, k, data[k])
    }

    /** genericSetKey */
    method SetKey(k: Key, o: Obj)
      requires Valid() && ReadyOk(readyKeys, readySet) && Woken(data, clients, readySet, lost)
      modifies this`data, this`readyKeys, this`readySet, this`lost
      ensures Valid() && ReadyOk(readyKeys, readySet) && Woken(data, clients, readySet, lost) && data == old(data)[k := o]
      ensures if k in old(data)
              then readyKeys == old(readyKeys)
                && lost == (if k !in readySet && Wanted(clients, lists, k, o) then old(lost) + {k} else old(lost) - {k})
              else lost == old(lost) && (BlockType(o).None? ==> readyKeys == old(readyKeys))
    {
      hide Index, Handles, Counts, Typed, Side, Woken, ReadyOk, Wanted;
      if k in data {
        OverwriteKey(k, o);
      } else {
        assert [] + readyKeys == readyKeys;
        AddKey(k, o, [], lost);
        assert [] + readyKeys == readyKeys;
      }
    }

    /** A command that sets a key, with the clients served after it: it leaves a client behind if and only if the key was
        there already and a client listed under it waits for the new value. */
    method SetAndServe(k: Key, o: Obj)
      requires Valid() && InTurn() && readyKeys == [] && readySet == {} && lost == {} && Woken(data, clients, readySet, lost)
      modifies this`data, this`readyKeys, this`readySet, this`given, this`lost
      modifies this`clients, this`lists, this`total, this`byType, this`paused, this`acks, this`unblocked, this`served, this`turns
      ensures Valid() && InTurn() && readyKeys == [] && readySet == {} && Woken(data, clients, readySet, lost)
      ensures LeftBehind() <==> k in old(data) && Wanted(old(clients), old(lists), k, o)
      ensures lost == if LeftBehind() then {k} else {}
      ensures k in old(data) || BlockType(o).None? ==> data == old(data)[k := o] && clients == old(clients) && lists == old(lists)
    {
      hide Index, Handles, Counts, Typed, Side, Woken, ReadyOk, Wanted, NoneWaits, Fair, Stamped, Turns, Conserved;
      NoKeysReady();
      WantedIff(clients, lists, k, o);
      SetKey(k, o);
      HandleBlockedOnKeys();
      if k in old(data) && Wanted(old(clients), old(lists), k, o) {
        assert data[k] == o && !NoneWaits(clients, k, data[k]);
      }
    }

    lemma NoKeysReady()
      requires readyKeys == [] && readySet == {}
      ensures ReadyOk(readyKeys, readySet)
    {
    }
  }

  /** What a client of BLPOP for one key waits for. */
  function Popper(k: Key): Waiting {
    Waiting(LIST, map[k := 0], None, Head, Head, None)
  }

  /** One client blocked by BLPOP on a missing key. */
  method OneBlocked(k: Key) returns (s: Scheduler)
    ensures fresh(s) && s.Valid() && s.InTurn() && s.readyKeys == [] && s.readySet == {} && s.lost == {}
    ensures s.data == map[] && s.clients == map[1 := Popper(k)] && Woken(s.data, s.clients, s.readySet, s.lost)
    ensures Wanted(s.clients, s.lists, k, List(["element"]))
  {
    s := new Scheduler();
    hide Index, Handles, Counts, Typed, Side, Woken, Fair, Stamped, Turns, Joined, FirstIds, Wanted;
    s.BlockForKeys(1, LIST, [k], [0], None, Head, Head, None);
    NoDataWakes(s.clients, s.readySet, s.lost);
    OneId(k);
    WantedByOne(s.clients, s.lists, k);
  }

  lemma OneId(k: Key)
    ensures FirstIds([k], [0]) == map[k := 0]
  {
  }

  lemma WantedByOne(clients: Clients, lists: Lists, k: Key)
    requires clients == map[1 := Popper(k)] && Index(clients, lists)
    ensures Wanted(clients, lists, k, List(["element"]))
  {
    assert 1 in Queue(lists, k);
  }

  /** BLPOP on a missing key, a string stored under it, and a list stored over the string, as SORT does: the client is
      still blocked beside a list that could serve it. */
  method ClientLeftBehind(k: Key) returns (s: Scheduler)
    ensures fresh(s) && s.Valid() && s.readyKeys == [] && s.LeftBehind()
    ensures s.clients == map[1 := Popper(k)] && s.data == map[k := List(["element"])]
  {
    hide Index, Handles, Counts, Typed, Side, Woken, Fair, Stamped, Turns, Wanted, NoneWaits;
    s := OneBlocked(k);
    s.SetAndServe(k, Other);
    s.SetAndServe(k, List(["element"]));
  }
}
