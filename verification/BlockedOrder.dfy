/**
 The order in which waiting clients are served: what one pass over the clients
 of a key does to their queue, and when it keeps the order in which they blocked.
 */
module BlockedOrder {
  import opened BlockedIndex

  /** The clients of a queue of one type, or of all the others, in order. */
  function Pick(clients: Clients, q: seq<Client>, t: BType, same: bool): seq<Client> {
    if q == [] then []
    else Pick(clients, q[..|q| - 1], t, same)
         + if q[|q| - 1] in clients && (clients[q[|q| - 1]].btype == t) == same then [q[|q| - 1]] else []
  }

  /** The queue after the first p clients were looked at: those of the type were served and left, the others went to
      the tail. */
  function Pass(clients: Clients, q: seq<Client>, t: BType, p: nat): seq<Client>
    requires p <= |q|
  {
    q[p..] + Pick(clients, q[..p], t, false)
  }

  lemma {:induction false} PickOf(clients: Clients, q: seq<Client>, t: BType, same: bool)
    ensures forall c | c in Pick(clients, q, t, same) :: c in q && c in clients && (clients[c].btype == t) == same
    ensures forall c | c in q && c in clients && (clients[c].btype == t) == same :: c in Pick(clients, q, t, same)
    ensures Distinct(q) ==> Distinct(Pick(clients, q, t, same))
  {
    if q != [] {
      var n := |q| - 1;
      PickOf(clients, q[..n], t, same);
      if Distinct(q) {
        assert q[n] !in q[..n];
      }
    }
  }

  lemma {:induction false} PickConcat(clients: Clients, p: seq<Client>, q: seq<Client>, t: BType, same: bool)
    ensures Pick(clients, p + q, t, same) == Pick(clients, p, t, same) + Pick(clients, q, t, same)
  {
    if q == [] {
      assert p + q == p;
    } else {
      PickConcat(clients, p, q[..|q| - 1], t, same);
      assert (p + q)[..|p + q| - 1] == p + q[..|q| - 1];
    }
  }

  lemma PickNext(clients: Clients, q: seq<Client>, t: BType, same: bool, p: nat)
    requires p < |q|
    ensures Pick(clients, q[..p + 1], t, same)
         == Pick(clients, q[..p], t, same) + if q[p] in clients && (clients[q[p]].btype == t) == same then [q[p]] else []
  {
    assert q[..p + 1][..p] == q[..p];
  }

  /** The queue of a pass, with its head apart. */
  lemma PassHead(clients: Clients, q: seq<Client>, t: BType, p: nat)
    requires p < |q|
    ensures Pass(clients, q, t, p) == [q[p]] + (q[p + 1..] + Pick(clients, q[..p], t, false))
  {
    assert q[p..] == [q[p]] + q[p + 1..];
  }

  /** One client further: a client of another type moves from the head to the tail. */
  lemma PassRotates(clients: Clients, q: seq<Client>, t: BType, p: nat)
    requires p < |q| && q[p] in clients && clients[q[p]].btype != t
    ensures var now := Pass(clients, q, t, p); Pass(clients, q, t, p + 1) == now[1..] + [now[0]]
  {
    PassHead(clients, q, t, p);
    PickNext(clients, q, t, false, p);
    hide Pick;
    var others := Pick(clients, q[..p], t, false);
    assert q[p + 1..] + (others + [q[p]]) == (q[p + 1..] + others) + [q[p]];
  }

  /** One client further: a client of the type leaves the queue. */
  lemma PassServes(clients: Clients, q: seq<Client>, t: BType, p: nat)
    requires p < |q| && Distinct(q) && q[p] in clients && clients[q[p]].btype == t
    ensures Pass(clients, q, t, p + 1) == Without(Pass(clients, q, t, p), q[p])
  {
    PassHead(clients, q, t, p);
    PickNext(clients, q, t, false, p);
    PickOf(clients, q[..p], t, false);
    var others := Pick(clients, q[..p], t, false);
    hide Pick;
    assert q[p] !in q[..p] && q[p] !in q[p + 1..];
    WithoutConcat([q[p]], q[p + 1..] + others, q[p]);
    WithoutOf(q[p + 1..] + others, q[p]);
    assert Without([q[p]], q[p]) == [];
  }

  // ----- fairness of one pass -----

  /** Clients of the served type keep their order: those served are the first, those left are the rest. */
  lemma ServedAreFirst(clients: Clients, q: seq<Client>, t: BType, p: nat)
    requires p <= |q|
    ensures Pick(clients, q, t, true) == Pick(clients, q[..p], t, true) + Pick(clients, Pass(clients, q, t, p), t, true)
  {
    assert q == q[..p] + q[p..];
    PickConcat(clients, q[..p], q[p..], t, true);
    PickConcat(clients, q[p..], Pick(clients, q[..p], t, false), t, true);
    PickOthers(clients, q[..p], t);
  }

  lemma {:induction false} PickOthers(clients: Clients, q: seq<Client>, t: BType)
    ensures Pick(clients, Pick(clients, q, t, false), t, true) == []
  {
    if q != [] {
      var n := |q| - 1;
      PickOthers(clients, q[..n], t);
      PickConcat(clients, Pick(clients, q[..n], t, false),
                 if q[n] in clients && clients[q[n]].btype != t then [q[n]] else [], t, true);
    }
  }

  lemma {:induction false} PickTwice(clients: Clients, q: seq<Client>, t: BType, u: BType)
    requires u != t
    ensures Pick(clients, Pick(clients, q, t, false), u, true) == Pick(clients, q, u, true)
  {
    if q != [] {
      var n := |q| - 1;
      PickTwice(clients, q[..n], t, u);
      PickConcat(clients, Pick(clients, q[..n], t, false),
                 if q[n] in clients && clients[q[n]].btype != t then [q[n]] else [], u, true);
    }
  }

  lemma SwapIsSame(a: seq<Client>, b: seq<Client>)
    requires Distinct(a + b)
    ensures b + a == a + b <==> a == [] || b == []
  {
    if a != [] && b != [] {
      assert (b + a)[0] == b[0] == (a + b)[|a|] != (a + b)[0];
    }
  }

  /** Clients of another type keep their order if and only if the pass did not stop between two of them. */
  lemma OthersKeepOrderIff(clients: Clients, q: seq<Client>, t: BType, p: nat, u: BType)
    requires p <= |q| && u != t && Distinct(q)
    ensures Pick(clients, Pass(clients, q, t, p), u, true) == Pick(clients, q, u, true)
            <==> Pick(clients, q[..p], u, true) == [] || Pick(clients, q[p..], u, true) == []
  {
    assert q == q[..p] + q[p..];
    PickConcat(clients, q[..p], q[p..], u, true);
    PickConcat(clients, q[p..], Pick(clients, q[..p], t, false), u, true);
    PickTwice(clients, q[..p], t, u);
    PickOf(clients, q, u, true);
    SwapIsSame(Pick(clients, q[..p], u, true), Pick(clients, q[p..], u, true));
  }

  /** How many clients a pass looks at when each one served takes one of 'avail' elements and the pass stops as soon
      as none is left. */
  function Reach(clients: Clients, q: seq<Client>, t: BType, avail: nat): (p: nat)
    ensures p <= |q|
    ensures p < |q| ==> |Pick(clients, q[..p], t, true)| == avail
    decreases |q|
  {
    if q == [] then 0 else
      var n := |q| - 1;
      var p := Reach(clients, q[..n], t, avail);
      assert q[..n][..p] == q[..p];
      if p < n || |Pick(clients, q[..n], t, true)| == avail then p else |q|
  }

  /** Clients of another type keep their order in a pass over a sorted set if and only if they all wait before the client
      at which its members run out, or all after. */
  lemma ZsetKeepsOthersIff(clients: Clients, q: seq<Client>, avail: nat, u: BType)
    requires u != ZSET && Distinct(q)
    ensures var p := Reach(clients, q, ZSET, avail);
      Pick(clients, Pass(clients, q, ZSET, p), u, true) == Pick(clients, q, u, true)
      <==> Pick(clients, q[..p], u, true) == [] || Pick(clients, q[p..], u, true) == []
  {
    hide Pick, Pass;
    OthersKeepOrderIff(clients, q, ZSET, Reach(clients, q, ZSET, avail), u);
  }

  /** Two clients of type u in a queue, in this order before a pass for type t and in the other order after it. */
  ghost predicate Swaps(clients: Clients, q: seq<Client>, t: BType, avail: nat, u: BType) {
    && Distinct(q) && (forall c | c in q :: c in clients)
    && exists c: Client, d: Client :: Pick(clients, q, u, true) == [c, d]
         && Pick(clients, Pass(clients, q, t, Reach(clients, q, t, avail)), u, true) == [d, c]
  }

  /** Fairness fails when clients of two types wait for one key: with one member in a sorted set, the client blocked
      for a list first ends up behind the one blocked last. */
  lemma MixedTypesSwap(clients: Clients)
    requires 1 in clients && 2 in clients && 3 in clients
    requires clients[1].btype == LIST && clients[2].btype == ZSET && clients[3].btype == LIST
    ensures Swaps(clients, [1, 2, 3], ZSET, 1, LIST)
  {
    hide Reach, Pick;
    var q: seq<Client> := [1, 2, 3];
    assert q[..1] == [1] && q[..2] == [1, 2] && q[2..] == [3];
    PickOne(clients, 1, ZSET, true);
    PickTwo(clients, 1, 2, ZSET, true);
    ReachStops(clients, q, ZSET, 1, 2);
    PickTwo(clients, 1, 2, ZSET, false);
    assert Pass(clients, q, ZSET, 2) == [3, 1];
    PickTwo(clients, 3, 1, LIST, true);
    PickTwo(clients, 1, 2, LIST, true);
    PickNext(clients, q, LIST, true, 2);
    assert q[..3] == q;
  }

  lemma PickOne(clients: Clients, c: Client, t: BType, same: bool)
    requires c in clients
    ensures Pick(clients, [c], t, same) == if (clients[c].btype == t) == same then [c] else []
  {
    assert [c][..0] == [];
  }

  lemma PickTwo(clients: Clients, c: Client, d: Client, t: BType, same: bool)
    requires c in clients && d in clients
    ensures Pick(clients, [c, d], t, same)
         == (if (clients[c].btype == t) == same then [c] else []) + (if (clients[d].btype == t) == same then [d] else [])
  {
    PickOne(clients, c, t, same);
    hide Pick;
    assert [c, d][..1] == [c] && [c, d][..2] == [c, d];
    PickNext(clients, [c, d], t, same, 1);
  }

  /** The pass stops where the elements run out. */
  lemma {:induction false} ReachStops(clients: Clients, q: seq<Client>, t: BType, avail: nat, p: nat)
    requires p <= |q| && |Pick(clients, q[..p], t, true)| == avail
    requires p == 0 || |Pick(clients, q[..p - 1], t, true)| < avail
    ensures Reach(clients, q, t, avail) == p
    decreases |q|
  {
    if q != [] {
      var n := |q| - 1;
      if p <= n {
        assert q[..n][..p] == q[..p];
        if p > 0 {
          assert q[..n][..p - 1] == q[..p - 1];
        }
        ReachStops(clients, q[..n], t, avail, p);
      } else {
        ReachAll(clients, q[..n], t, avail);
        assert q[..p] == q;
      }
    }
  }

  lemma {:induction false} ReachAll(clients: Clients, q: seq<Client>, t: BType, avail: nat)
    requires |Pick(clients, q, t, true)| < avail
    ensures Reach(clients, q, t, avail) == |q|
    decreases |q|
  {
    if q != [] {
      ReachAll(clients, q[..|q| - 1], t, avail);
    }
  }
}
