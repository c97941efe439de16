/**
 A walk over the clients blocked on a stream: who is served, how far consumer
 groups have read, and that nobody who is due is left.
 */
module BlockedStreams {
  import opened Common
  import opened BlockedIndex
  import opened BlockedState
  import opened BlockedData

  /** The group of a client that is served reads on: to 'upto', or to the end where that is not within reach. */
  function Advance(o: Obj, w: Waiting, upto: nat): (r: Obj)
    requires o.Stream?
    ensures r.Stream? && r.ids == o.ids
  {
    if w.group.Some? && w.group.value in o.groups then
      var g := w.group.value;
      o.(groups := o.groups[g := if o.groups[g] <= upto <= o.ids.last then upto else o.ids.last])
    else o
  }

  /** The ID a client of a group waits for is the one the group has read. */
  function Refreshed(o: Obj, w: Waiting, k: Key): Waiting
    requires o.Stream?
  {
    if k in w.keys && w.btype == STREAM && w.group.Some? && w.group.value in o.groups
    then w.(keys := w.keys[k := o.groups[w.group.value]])
    else w
  }

  ghost predicate DueAt(o: Obj, clients: Clients, k: Key, c: Client)
    requires o.Stream?
  {
    c in clients && k in clients[c].keys && Due(o, clients[c], k)
  }

  /** The stream after clients were looked at in turn. */
  ghost function After(o: Obj, clients: Clients, k: Key, q: seq<Client>, upTos: seq<nat>): (r: Obj)
    requires o.Stream? && |upTos| == |q|
    ensures r.Stream? && r.ids == o.ids
  {
    if q == [] then o
    else
      var n := |q| - 1;
      var before := After(o, clients, k, q[..n], upTos[..n]);
      if DueAt(before, clients, k, q[n]) then Advance(before, clients[q[n]], upTos[n]) else before
  }

  /** The clients served, in turn: each is due in the stream that those before it left. */
  ghost function ServedBy(o: Obj, clients: Clients, k: Key, q: seq<Client>, upTos: seq<nat>): seq<Client>
    requires o.Stream? && |upTos| == |q|
  {
    if q == [] then []
    else
      var n := |q| - 1;
      ServedBy(o, clients, k, q[..n], upTos[..n])
      + if DueAt(After(o, clients, k, q[..n], upTos[..n]), clients, k, q[n]) then [q[n]] else []
  }

  /** The clients that are still blocked, those of a group with the ID it has read. */
  ghost function Remaining(o: Obj, clients: Clients, k: Key, q: seq<Client>, upTos: seq<nat>): Clients
    requires o.Stream? && |upTos| == |q|
  {
    if q == [] then clients
    else
      var n := |q| - 1;
      var before, rest := After(o, clients, k, q[..n], upTos[..n]), Remaining(o, clients, k, q[..n], upTos[..n]);
      if DueAt(before, clients, k, q[n]) then rest - {q[n]}
      else if q[n] in rest then rest[q[n] := Refreshed(before, rest[q[n]], k)]
      else rest
  }

  /** A walk, i clients in. */
  ghost predicate Streaming(was: Data, before: Clients, k: Key, q: seq<Client>, upTos: seq<nat>, i: nat,
                            data: Data, clients: Clients, s: seq<Client>)
    requires k in was && was[k].Stream? && |upTos| == |q| && i <= |q|
  {
    && data == was[k := After(was[k], before, k, q[..i], upTos[..i])]
    && clients == Remaining(was[k], before, k, q[..i], upTos[..i])
    && s == ServedBy(was[k], before, k, q[..i], upTos[..i])
  }

  lemma StreamingStart(was: Data, before: Clients, k: Key, q: seq<Client>, upTos: seq<nat>)
    requires k in was && was[k].Stream? && |upTos| == |q|
    ensures Streaming(was, before, k, q, upTos, 0, was, before, [])
  {
    assert was[k := was[k]] == was;
  }

  /** Clients that were not looked at are as they were. */
  lemma {:induction false} RemainingOther(o: Obj, clients: Clients, k: Key, q: seq<Client>, upTos: seq<nat>, c: Client)
    requires o.Stream? && |upTos| == |q| && c !in q
    ensures c in Remaining(o, clients, k, q, upTos) <==> c in clients
    ensures c in clients ==> Remaining(o, clients, k, q, upTos)[c] == clients[c]
  {
    if q != [] {
      var n := |q| - 1;
      RemainingOther(o, clients, k, q[..n], upTos[..n], c);
    }
  }

  lemma StreamingHead(was: Data, before: Clients, k: Key, q: seq<Client>, upTos: seq<nat>, i: nat, data: Data, clients: Clients,
                      s: seq<Client>)
    requires k in was && was[k].Stream? && |upTos| == |q| && i < |q| && Distinct(q)
    requires Streaming(was, before, k, q, upTos, i, data, clients, s)
    ensures k in data && data[k].Stream?
    ensures q[i] in clients <==> q[i] in before
    ensures q[i] in clients ==> clients[q[i]] == before[q[i]]
  {
    assert q[i] !in q[..i];
    RemainingOther(was[k], before, k, q[..i], upTos[..i], q[i]);
  }

  lemma StreamingNext(was: Data, before: Clients, k: Key, q: seq<Client>, upTos: seq<nat>, i: nat, data: Data, clients: Clients,
                      s: seq<Client>)
    requires k in was && was[k].Stream? && |upTos| == |q| && i < |q| && Distinct(q) && q[i] in clients && k in clients[q[i]].keys
    requires Streaming(was, before, k, q, upTos, i, data, clients, s)
    ensures k in data && data[k].Stream?
    ensures var c := q[i]; var w, o := clients[c], data[k];
      if Due(o, w, k)
      then Streaming(was, before, k, q, upTos, i + 1, data[k := Advance(o, w, upTos[i])], clients - {c}, s + [c])
      else Streaming(was, before, k, q, upTos, i + 1, data, clients[c := Refreshed(o, w, k)], s)
  {
    StreamingHead(was, before, k, q, upTos, i, data, clients, s);
    assert q[..i + 1][..i] == q[..i] && upTos[..i + 1][..i] == upTos[..i];
    hide Advance, Refreshed, Due;
    var o := data[k];
    assert o == After(was[k], before, k, q[..i], upTos[..i]);
  }

  // ----- who is served -----

  lemma {:induction false} ServedOf(o: Obj, clients: Clients, k: Key, q: seq<Client>, upTos: seq<nat>)
    requires o.Stream? && |upTos| == |q|
    ensures forall c | c in ServedBy(o, clients, k, q, upTos) :: c in q
  {
    if q != [] {
      ServedOf(o, clients, k, q[..|q| - 1], upTos[..|q| - 1]);
    }
  }

  /** A client is served exactly when it is due in the stream that the clients before it left. */
  lemma {:induction false} ServedIffDue(o: Obj, clients: Clients, k: Key, q: seq<Client>, upTos: seq<nat>, j: nat)
    requires o.Stream? && |upTos| == |q| && Distinct(q) && j < |q|
    ensures q[j] in ServedBy(o, clients, k, q, upTos)
            <==> DueAt(After(o, clients, k, q[..j], upTos[..j]), clients, k, q[j])
  {
    var n := |q| - 1;
    if j < n {
      ServedIffDue(o, clients, k, q[..n], upTos[..n], j);
      assert q[..n][..j] == q[..j] && upTos[..n][..j] == upTos[..j];
    } else {
      ServedOf(o, clients, k, q[..n], upTos[..n]);
    }
  }

  /** A client without a group is served exactly when it is due at the start. */
  lemma PlainServedIffDue(o: Obj, clients: Clients, k: Key, q: seq<Client>, upTos: seq<nat>, j: nat)
    requires o.Stream? && |upTos| == |q| && Distinct(q) && j < |q|
    requires q[j] in clients && clients[q[j]].group.None?
    ensures q[j] in ServedBy(o, clients, k, q, upTos) <==> DueAt(o, clients, k, q[j])
  {
    ServedIffDue(o, clients, k, q, upTos, j);
  }

  /** Groups only read on, and none is dropped. */
  lemma {:induction false} GroupsReadOn(o: Obj, clients: Clients, k: Key, q: seq<Client>, upTos: seq<nat>, g: string)
    requires o.Stream? && |upTos| == |q| && g in o.groups
    ensures var r := After(o, clients, k, q, upTos); g in r.groups && o.groups[g] <= r.groups[g] && r.groups[g] <= Most(o, g)
  {
    if q != [] {
      GroupsReadOn(o, clients, k, q[..|q| - 1], upTos[..|q| - 1], g);
    }
  }

  /** The end of the stream, or where the group was. */
  ghost function Most(o: Obj, g: string): nat
    requires o.Stream? && g in o.groups
  {
    if o.groups[g] <= o.ids.last then o.ids.last else o.groups[g]
  }

  /** Nobody among q is due any more. */
  ghost predicate NoneDue(o: Obj, clients: Clients, k: Key, q: seq<Client>)
    requires o.Stream?
  {
    forall c | c in q :: !DueAt(o, clients, k, c)
  }

  lemma {:induction false} WalkLeavesNoneDue(o: Obj, clients: Clients, k: Key, q: seq<Client>, upTos: seq<nat>)
    requires o.Stream? && |upTos| == |q| && Distinct(q)
    ensures NoneDue(After(o, clients, k, q, upTos), Remaining(o, clients, k, q, upTos), k, q)
  {
    if q != [] {
      var n := |q| - 1;
      WalkLeavesNoneDue(o, clients, k, q[..n], upTos[..n]);
      hide After, Remaining;
      forall d | d in q
        ensures !DueAt(After(o, clients, k, q, upTos), Remaining(o, clients, k, q, upTos), k, d)
      {
        NextNotDue(o, clients, k, q, upTos, d);
      }
    }
  }

  lemma NextNotDue(o: Obj, clients: Clients, k: Key, q: seq<Client>, upTos: seq<nat>, d: Client)
    requires o.Stream? && |upTos| == |q| && q != [] && Distinct(q) && d in q
    requires var n := |q| - 1;
      NoneDue(After(o, clients, k, q[..n], upTos[..n]), Remaining(o, clients, k, q[..n], upTos[..n]), k, q[..n])
    ensures !DueAt(After(o, clients, k, q, upTos), Remaining(o, clients, k, q, upTos), k, d)
  {
    var n := |q| - 1;
    var c := q[n];
    assert c !in q[..n];
    RemainingOther(o, clients, k, q[..n], upTos[..n], c);
    if d != c {
      assert d in q[..n];
    }
  }

  /** After a walk over all clients of a key, no client waits for it that the stream could serve. */
  lemma WalkServesAll(o: Obj, clients: Clients, lists: Lists, k: Key, upTos: seq<nat>)
    requires o.Stream? && Index(clients, lists) && |upTos| == |Queue(lists, k)|
    ensures var q := Queue(lists, k); NoneWaits(Remaining(o, clients, k, q, upTos), k, After(o, clients, k, q, upTos))
  {
    var q := Queue(lists, k);
    WalkLeavesNoneDue(o, clients, k, q, upTos);
    var o', rest := After(o, clients, k, q, upTos), Remaining(o, clients, k, q, upTos);
    forall c | c in rest && k in rest[c].keys
      ensures !Serves(o', rest[c], k)
    {
      if c in q {
        assert !DueAt(o', rest, k, c);
      } else {
        RemainingOther(o, clients, k, q, upTos, c);
      }
    }
  }

  lemma StreamingEnds(was: Data, before: Clients, lists: Lists, k: Key, upTos: seq<nat>, data: Data, clients: Clients,
                      s: seq<Client>)
    requires k in was && was[k].Stream? && |upTos| == |Queue(lists, k)| && Index(before, lists)
    requires Streaming(was, before, k, Queue(lists, k), upTos, |upTos|, data, clients, s)
    ensures k in data && data[k].Stream? && NoneWaits(clients, k, data[k])
    ensures Walk(was, before, k, Queue(lists, k), upTos, data, clients, s)
  {
    WalkServesAll(was[k], before, lists, k, upTos);
    hide After, Remaining, ServedBy, NoneWaits, Index;
    var q := Queue(lists, k);
    assert q[..|q|] == q && upTos[..|q|] == upTos;
  }

  /** What a walk over the clients q of a stream does. */
  ghost predicate Walk(was: Data, before: Clients, k: Key, q: seq<Client>, upTos: seq<nat>, data: Data, clients: Clients,
                       s: seq<Client>)
    requires k in was && was[k].Stream? && |upTos| == |q|
  {
    && data == was[k := After(was[k], before, k, q, upTos)]
    && clients == Remaining(was[k], before, k, q, upTos)
    && s == ServedBy(was[k], before, k, q, upTos)
  }

  lemma {:induction false} RemainingTargets(o: Obj, clients: Clients, k: Key, q: seq<Client>, upTos: seq<nat>)
    requires o.Stream? && |upTos| == |q|
    ensures SameTargets(clients, Remaining(o, clients, k, q, upTos))
  {
    if q != [] {
      RemainingTargets(o, clients, k, q[..|q| - 1], upTos[..|q| - 1]);
    }
  }

  /** A walk changes no list. */
  lemma ConservedWalk(was: Data, before: Clients, k: Key, q: seq<Client>, upTos: seq<nat>, data: Data, clients: Clients,
                      s: seq<Client>, taken: multiset<string>)
    requires k in was && was[k].Stream? && |upTos| == |q| && Walk(was, before, k, q, upTos, data, clients, s)
    ensures Conserved(was, before, taken, data, clients, taken)
  {
    hide SameTargets, Conserved, Remaining;
    RemainingTargets(was[k], before, k, q, upTos);
    ConservedElsewhere(was, before, taken, data, clients);
  }
}
