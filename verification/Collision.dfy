/**
 Configuration epoch collisions. Two masters that find the same configuration
 epoch: the one with the smaller name takes the next epoch. The module bounds
 the number of such steps over any run in which nothing else moves configuration
 epochs, and shows that up to date masters end with different ones.
 */
module Collision {
  import opened Common
  import opened ClusterNode
  import opened Cluster
  import Bits

  /** The configuration epoch of x, as x itself has it. */
  function OwnEpoch(s: Cluster, x: NodeId): nat {
    if x in s.nodes && x in s.nodes[x].view.nodes then s.nodes[x].view.nodes[x].configEpoch else 0
  }

  /** This action is a PING whose handling ends in the collision branch. */
  ghost predicate Bumped(s: Cluster, a: Action) {
    && Inv(s) && Enabled(s, a)
    && a.Deliver? && a.m.kind.Ping?
    && var n := SeeHeader(s.nodes[a.m.dst], a.m);
    && a.m.src in n.view.nodes
    && Collides(ApplyConfig(n, a.m, a.o), a.m.src, a.m.configEpoch)
  }

  ghost predicate MovesByCollision(s: Cluster, a: Action, t: Cluster) {
    forall x | OwnEpoch(t, x) != OwnEpoch(s, x) :: Bumped(s, a) && a.m.dst == x
  }

  /** No node's own configuration epoch changes except in the collision branch of that node. */
  ghost predicate OnlyCollisions(states: seq<Cluster>, acts: seq<Action>)
    requires |states| == |acts| + 1
  {
    forall k | 0 <= k < |acts| :: MovesByCollision(states[k], acts[k], states[k + 1])
  }

  // ----- one step -----

  /** A collision is with a greater name that announced exactly this epoch; the new one is the node's new
      current epoch, above the old current epoch. */
  lemma BumpStep(s: Cluster, a: Action)
    requires Bumped(s, a)
    ensures var x, t := a.m.dst, Apply(s, a);
      && x in s.nodes && x < a.m.src
      && a.m in s.net && a.m.slaveof.None?
      && OwnEpoch(s, x) == a.m.configEpoch
      && s.nodes[x].currentEpoch < OwnEpoch(t, x) == t.nodes[x].currentEpoch
      && a.m.currentEpoch < OwnEpoch(t, x)
      && forall y | y != x :: OwnEpoch(t, y) == OwnEpoch(s, y)
  {
    hide SeeHeader, ApplyConfig, Collides, NodeOk, Receive, Votes, Header, Local, Apply;
    BumpDelivers(s, a);
    BumpReceive(s.nodes[a.m.dst], a.m, a.o);
  }

  lemma BumpDelivers(s: Cluster, a: Action)
    requires Bumped(s, a)
    ensures a.m.dst in s.nodes && a.m in s.net && MessageOk(a.m)
    ensures var n := s.nodes[a.m.dst]; NodeOk(n) && n.me == a.m.dst != a.m.src
    ensures Apply(s, a).nodes == s.nodes[a.m.dst := Receive(s.nodes[a.m.dst], a.m, a.o)]
  {
    hide SeeHeader, ApplyConfig, Collides, NodeOk, Receive, Votes, Header, Apply;
    DeliverIs(s, a);
  }

  lemma BumpReceive(n: NodeState, m: Message, o: Oracle)
    requires NodeOk(n) && MessageOk(m) && m.src != n.me && m.kind.Ping?
    requires var h := SeeHeader(n, m); m.src in h.view.nodes && Collides(ApplyConfig(h, m, o), m.src, m.configEpoch)
    ensures var r := Receive(n, m, o);
      && n.me < m.src && m.slaveof.None? && n.me in n.view.nodes && n.me in r.view.nodes
      && n.view.nodes[n.me].configEpoch == m.configEpoch
      && n.currentEpoch < r.view.nodes[n.me].configEpoch == r.currentEpoch
      && m.currentEpoch < r.currentEpoch
  {
    SeeHeaderKeepsNodeOk(n, m);
  }

  /** A packet from a node that is nobody's replica carries that node's own epoch. */
  lemma SentEpoch(n: NodeState, a: Action, m: Message)
    requires NodeOk(n) && Legal(n, a) && m in Sent(n, a) && m.slaveof.None?
    ensures Local(n, a).me == n.me
    ensures m.src == n.me
    ensures m.configEpoch == Local(n, a).view.nodes[n.me].configEpoch
  {
    LocalKeepsNodeOk(n, a);
  }

  lemma NetStep(s: Cluster, a: Action, m: Message)
    requires Inv(s) && Enabled(s, a) && m in Apply(s, a).net && m.slaveof.None?
    ensures m in s.net || m.configEpoch == OwnEpoch(Apply(s, a), m.src)
  {
    hide Local, Sent, Legal, MessageOk;
    var n := s.nodes[Actor(a)];
    LocalKeepsNodeOk(n, a);
    if m in Sent(n, a) {
      SentEpoch(n, a, m);
    }
  }

  // ----- the values an epoch takes -----

  /** The values x's own epoch took up to step k. */
  ghost function Values(states: seq<Cluster>, x: NodeId, k: nat): set<nat>
    requires k < |states|
  {
    set i | 0 <= i <= k :: OwnEpoch(states[i], x)
  }

  lemma ValuesStep(states: seq<Cluster>, x: NodeId, k: nat)
    requires k + 1 < |states|
    ensures Values(states, x, k + 1) == Values(states, x, k) + {OwnEpoch(states[k + 1], x)}
    ensures OwnEpoch(states[k], x) in Values(states, x, k)
  {
    var before, after := Values(states, x, k), Values(states, x, k + 1);
    forall v | v in after
      ensures v in before + {OwnEpoch(states[k + 1], x)}
    {
      var i :| 0 <= i <= k + 1 && v == OwnEpoch(states[i], x);
    }
    forall v | v in before
      ensures v in after
    {
      var i :| 0 <= i <= k && v == OwnEpoch(states[i], x);
    }
    assert OwnEpoch(states[k + 1], x) in after;
  }

  lemma OwnBound(s: Cluster, x: NodeId)
    requires Inv(s) && x in s.nodes
    ensures OwnEpoch(s, x) <= s.nodes[x].currentEpoch
  {
  }

  /** Packets announce epochs their sender had, an own epoch is the greatest value it took, and every
      value it left was a value of some greater name. */
  ghost predicate Traced(states: seq<Cluster>, k: nat)
    requires k < |states|
  {
    && (forall m | m in states[k].net && m.slaveof.None? :: m.configEpoch in Values(states, m.src, k))
    && (forall x, v | x in states[k].nodes && v in Values(states, x, k) :: v <= OwnEpoch(states[k], x))
    && (forall x, v | x in states[k].nodes && v in Values(states, x, k) && v != OwnEpoch(states[k], x) ::
          HadByGreater(states, x, v, k))
  }

  ghost predicate HadByGreater(states: seq<Cluster>, x: NodeId, v: nat, k: nat)
    requires k < |states|
  {
    exists y | y in states[k].nodes && x < y :: v in Values(states, y, k)
  }

  lemma TracedNet(states: seq<Cluster>, acts: seq<Action>, k: nat, m: Message)
    requires Run(states, acts) && k < |acts| && Traced(states, k)
    requires m in states[k + 1].net && m.slaveof.None?
    ensures m.configEpoch in Values(states, m.src, k + 1)
  {
    RunStep(states, acts, k);
    hide Apply, Local, Legal, Inv, Run;
    ValuesStep(states, m.src, k);
    NetStep(states[k], acts[k], m);
  }

  lemma BumpIsDelivery(s: Cluster, a: Action)
    requires Bumped(s, a)
    ensures a.Deliver?
  {
  }

  lemma SenderKnown(s: Cluster, m: Message)
    requires Inv(s) && m in s.net
    ensures m.src in s.nodes
  {
  }

  lemma MovedAt(states: seq<Cluster>, acts: seq<Action>, k: nat)
    requires |states| == |acts| + 1 && OnlyCollisions(states, acts) && k < |acts|
    ensures MovesByCollision(states[k], acts[k], states[k + 1])
  {
  }

  lemma TracedValues(states: seq<Cluster>, acts: seq<Action>, k: nat, x: NodeId, v: nat)
    requires Run(states, acts) && OnlyCollisions(states, acts) && k < |acts| && Traced(states, k)
    requires x in states[k + 1].nodes && v in Values(states, x, k + 1)
    ensures v <= OwnEpoch(states[k + 1], x)
    ensures v != OwnEpoch(states[k + 1], x) ==> HadByGreater(states, x, v, k + 1)
  {
    hide Apply, Enabled, Inv, Bumped, Run, OnlyCollisions;
    RunLength(states, acts);
    RunStep(states, acts, k);
    RunInv(states, acts, k);
    RunInv(states, acts, k + 1);
    var s, a, t := states[k], acts[k], states[k + 1];
    MovedAt(states, acts, k);
    ValuesStep(states, x, k);
    if v != OwnEpoch(t, x) {
      assert v in Values(states, x, k);
      if OwnEpoch(t, x) == OwnEpoch(s, x) || v != OwnEpoch(s, x) {
        assert HadByGreater(states, x, v, k);
        var y :| y in s.nodes && x < y && v in Values(states, y, k);
        ValuesStep(states, y, k);
      } else {
        BumpIsDelivery(s, a);
        BumpStep(s, a);
        ValuesStep(states, a.m.src, k);
        assert a.m.configEpoch in Values(states, a.m.src, k);
        SenderKnown(s, a.m);
      }
    }
    if OwnEpoch(t, x) != OwnEpoch(s, x) {
      BumpIsDelivery(s, a);
      BumpStep(s, a);
      OwnBound(s, x);
    }
  }

  lemma {:induction false} RunIsTraced(states: seq<Cluster>, acts: seq<Action>, k: nat)
    requires Run(states, acts) && OnlyCollisions(states, acts) && k < |states|
    ensures Traced(states, k)
  {
    if k == 0 {
      assert forall x :: Values(states, x, 0) == {OwnEpoch(states[0], x)};
    } else {
      RunIsTraced(states, acts, k - 1);
      hide Run, OnlyCollisions;
      forall m | m in states[k].net && m.slaveof.None?
        ensures m.configEpoch in Values(states, m.src, k)
      {
        TracedNet(states, acts, k - 1, m);
      }
      forall x, v | x in states[k].nodes && v in Values(states, x, k)
        ensures v <= OwnEpoch(states[k], x)
        ensures v != OwnEpoch(states[k], x) ==> HadByGreater(states, x, v, k)
      {
        TracedValues(states, acts, k - 1, x, v);
      }
    }
  }

  // ----- counting -----

  ghost function Above(s: Cluster, x: NodeId): set<NodeId> {
    set y | y in s.nodes && x < y
  }

  /** No value is lost: whoever is left holding it still holds it. */
  lemma {:induction false} HeldNow(states: seq<Cluster>, acts: seq<Action>, k: nat, x: NodeId, v: nat)
    requires Run(states, acts) && OnlyCollisions(states, acts) && k < |states|
    requires x in states[k].nodes && v in Values(states, x, k)
    ensures exists y | y in states[k].nodes && x <= y :: OwnEpoch(states[k], y) == v
    decreases |Above(states[k], x)|
  {
    if v != OwnEpoch(states[k], x) {
      RunIsTraced(states, acts, k);
      assert HadByGreater(states, x, v, k);
      hide Run, OnlyCollisions, OwnEpoch;
      var y :| y in states[k].nodes && x < y && v in Values(states, y, k);
      assert Above(states[k], y) + {y} <= Above(states[k], x);
      SubsetSize(Above(states[k], y) + {y}, Above(states[k], x));
      HeldNow(states, acts, k, y, v);
    }
  }

  lemma {:induction false} ImageSize(s: Cluster, Y: set<NodeId>)
    ensures |set y | y in Y :: OwnEpoch(s, y)| <= |Y|
  {
    if Y != {} {
      var x :| x in Y;
      ImageSize(s, Y - {x});
      assert (set y | y in Y :: OwnEpoch(s, y)) == (set y | y in Y - {x} :: OwnEpoch(s, y)) + {OwnEpoch(s, x)};
    }
  }

  lemma FewValues(states: seq<Cluster>, acts: seq<Action>, k: nat, x: NodeId)
    requires Run(states, acts) && OnlyCollisions(states, acts) && k < |states| && x in states[k].nodes
    ensures |Values(states, x, k)| <= 1 + |Above(states[k], x)|
  {
    var Y := Above(states[k], x) + {x};
    var held := set y | y in Y :: OwnEpoch(states[k], y);
    forall v | v in Values(states, x, k)
      ensures v in held
    {
      HeldNow(states, acts, k, x, v);
    }
    SubsetSize(Values(states, x, k), held);
    ImageSize(states[k], Y);
  }

  ghost predicate BumpedAt(s: Cluster, a: Action, x: NodeId) {
    Bumped(s, a) && a.m.dst == x
  }

  /** How many of the first k actions are collision steps of x. */
  ghost function BumpsOf(states: seq<Cluster>, acts: seq<Action>, x: NodeId, k: nat): nat
    requires k <= |acts| < |states|
  {
    if k == 0 then 0
    else BumpsOf(states, acts, x, k - 1) + if BumpedAt(states[k - 1], acts[k - 1], x) then 1 else 0
  }

  /** How many of the first k actions are collision steps. */
  ghost function Bumps(states: seq<Cluster>, acts: seq<Action>, k: nat): nat
    requires k <= |acts| < |states|
  {
    if k == 0 then 0 else Bumps(states, acts, k - 1) + if Bumped(states[k - 1], acts[k - 1]) then 1 else 0
  }

  lemma NewValue(states: seq<Cluster>, acts: seq<Action>, k: nat, x: NodeId)
    requires Run(states, acts) && OnlyCollisions(states, acts) && k < |acts| && x in states[k].nodes
    ensures BumpedAt(states[k], acts[k], x) ==> OwnEpoch(states[k + 1], x) !in Values(states, x, k)
    ensures !BumpedAt(states[k], acts[k], x) ==> OwnEpoch(states[k + 1], x) == OwnEpoch(states[k], x)
  {
    RunStep(states, acts, k);
    RunIsTraced(states, acts, k);
    assert MovesByCollision(states[k], acts[k], states[k + 1]);
    hide Run, OnlyCollisions, Apply, Local, Legal, NodeOk, MessageOk, Bumped, HadByGreater;
    if BumpedAt(states[k], acts[k], x) {
      BumpStep(states[k], acts[k]);
      OwnBound(states[k], x);
    }
  }

  lemma ValuesGrow(states: seq<Cluster>, acts: seq<Action>, k: nat, x: NodeId)
    requires Run(states, acts) && OnlyCollisions(states, acts) && k < |acts| && x in states[0].nodes
    ensures |Values(states, x, k + 1)| ==
            |Values(states, x, k)| + if BumpedAt(states[k], acts[k], x) then 1 else 0
  {
    hide *;
    RunLength(states, acts);
    RunInv(states, acts, k);
    ValuesStep(states, x, k);
    NewValue(states, acts, k, x);
    if !BumpedAt(states[k], acts[k], x) {
      assert Values(states, x, k + 1) == Values(states, x, k);
    }
  }

  /** Each collision step of x gives it a value it never had. */
  lemma {:induction false} BumpsAreValues(states: seq<Cluster>, acts: seq<Action>, k: nat, x: NodeId)
    requires Run(states, acts) && OnlyCollisions(states, acts) && k < |states| && x in states[0].nodes
    ensures |Values(states, x, k)| == 1 + BumpsOf(states, acts, x, k)
  {
    hide Run, OnlyCollisions, BumpedAt, OwnEpoch;
    RunLength(states, acts);
    if k == 0 {
      assert Values(states, x, 0) == {OwnEpoch(states[0], x)};
    } else {
      hide Values;
      BumpsAreValues(states, acts, k - 1, x);
      ValuesGrow(states, acts, k - 1, x);
    }
  }

  /** A master makes at most as many collision steps as there are greater names: the greatest never moves. */
  lemma BumpsOfBound(states: seq<Cluster>, acts: seq<Action>, x: NodeId)
    requires Run(states, acts) && OnlyCollisions(states, acts) && x in states[0].nodes
    ensures BumpsOf(states, acts, x, |acts|) <= |Above(states[0], x)|
  {
    hide Run, OnlyCollisions, BumpsOf, Inv;
    RunLength(states, acts);
    RunInv(states, acts, |acts|);
    BumpsAreValues(states, acts, |acts|, x);
    FewValues(states, acts, |acts|, x);
    assert Above(states[0], x) == Above(states[|acts|], x);
  }

  ghost function Least(Y: set<NodeId>): (x: NodeId)
    requires Y != {}
    ensures x in Y && forall y | y in Y :: x <= y
  {
    var z :| z in Y;
    if Y == {z} then z
    else
      assert forall y | y in Y :: y == z || y in Y - {z};
      var m := Least(Y - {z});
      if z < m then z else m
  }

  ghost function SumOfBumps(states: seq<Cluster>, acts: seq<Action>, Y: set<NodeId>, k: nat): nat
    requires k <= |acts| < |states|
  {
    if Y == {} then 0
    else BumpsOf(states, acts, Least(Y), k) + SumOfBumps(states, acts, Y - {Least(Y)}, k)
  }

  lemma {:induction false} SumStep(states: seq<Cluster>, acts: seq<Action>, Y: set<NodeId>, k: nat)
    requires k < |acts| < |states|
    ensures SumOfBumps(states, acts, Y, k + 1) ==
            SumOfBumps(states, acts, Y, k) + if Bumped(states[k], acts[k]) && acts[k].m.dst in Y then 1 else 0
  {
    if Y != {} {
      SumStep(states, acts, Y - {Least(Y)}, k);
    }
  }

  lemma BumpTarget(states: seq<Cluster>, acts: seq<Action>, k: nat)
    requires Run(states, acts) && k < |acts|
    ensures Bumped(states[k], acts[k]) ==> acts[k].m.dst in states[0].nodes
  {
    RunInv(states, acts, k);
  }

  lemma {:induction false} SumIsTotal(states: seq<Cluster>, acts: seq<Action>, k: nat)
    requires Run(states, acts) && k <= |acts|
    ensures SumOfBumps(states, acts, states[0].nodes.Keys, k) == Bumps(states, acts, k)
  {
    hide Run, SumOfBumps, Bumped;
    RunLength(states, acts);
    if k == 0 {
      SumOfNothing(states, acts, states[0].nodes.Keys);
    } else {
      SumIsTotal(states, acts, k - 1);
      SumStep(states, acts, states[0].nodes.Keys, k - 1);
      BumpTarget(states, acts, k - 1);
    }
  }

  lemma {:induction false} SumOfNothing(states: seq<Cluster>, acts: seq<Action>, Y: set<NodeId>)
    requires |acts| < |states|
    ensures SumOfBumps(states, acts, Y, 0) == 0
  {
    if Y != {} {
      SumOfNothing(states, acts, Y - {Least(Y)});
    }
  }

  /** Y holds every node above each of its members. */
  ghost predicate UpperSet(s: Cluster, Y: set<NodeId>) {
    Y <= s.nodes.Keys && forall x, y | x in Y && y in s.nodes && x < y :: y in Y
  }

  lemma Triangle(n: int)
    ensures n * (n - 1) == 2 * (n - 1) + (n - 1) * (n - 2)
  {
  }

  lemma {:induction false} SumBound(states: seq<Cluster>, acts: seq<Action>, Y: set<NodeId>)
    requires Run(states, acts) && OnlyCollisions(states, acts) && UpperSet(states[0], Y)
    ensures 2 * SumOfBumps(states, acts, Y, |acts|) <= |Y| * (|Y| - 1)
  {
    hide Run, OnlyCollisions, BumpsOf;
    RunLength(states, acts);
    if Y != {} {
      var x := Least(Y);
      var Z := Y - {x};
      assert UpperSet(states[0], Z);
      assert Above(states[0], x) == Z;
      BumpsOfBound(states, acts, x);
      SumBound(states, acts, Z);
      assert |Z| == |Y| - 1;
      Triangle(|Y|);
    }
  }

  lemma {:induction false} TriangleBelowPower(n: nat)
    ensures n * (n - 1) <= 2 * (Bits.Pow2(n) - 1 - n)
  {
    if n > 0 {
      TriangleBelowPower(n - 1);
      Triangle(n);
      PowerIsLarge(n - 1);
    }
  }

  lemma {:induction false} PowerIsLarge(n: nat)
    ensures n + 1 <= Bits.Pow2(n)
  {
    if n > 0 {
      PowerIsLarge(n - 1);
    }
  }

  /** In any run n masters make at most n(n-1)/2 collision steps, and so at most 2^n - 1 - n. */
  lemma CollisionsTerminate(states: seq<Cluster>, acts: seq<Action>)
    requires Run(states, acts) && OnlyCollisions(states, acts)
    ensures var n := |states[0].nodes|;
      2 * Bumps(states, acts, |acts|) <= n * (n - 1) && Bumps(states, acts, |acts|) <= Bits.Pow2(n) - 1 - n
  {
    hide Run, OnlyCollisions, Bumps, SumOfBumps;
    RunLength(states, acts);
    TriangleBelowPower(|states[0].nodes|);
    SumIsTotal(states, acts, |acts|);
    SumBound(states, acts, states[0].nodes.Keys);
  }

  // ----- up to date masters -----

  ghost predicate AlwaysMaster(states: seq<Cluster>, x: NodeId) {
    forall k | 0 <= k < |states| :: MasterNow(states[k], x)
  }

  ghost predicate MasterNow(s: Cluster, x: NodeId) {
    x in s.nodes && x in s.nodes[x].view.nodes && s.nodes[x].view.nodes[x].isMaster
  }

  lemma MasterThroughout(states: seq<Cluster>, x: NodeId, k: nat)
    requires AlwaysMaster(states, x) && k < |states|
    ensures MasterNow(states[k], x) && x in states[k].nodes
  {
  }

  /** Nobody believes, and no packet says, that y has a configuration epoch above its own. */
  ghost predicate NotOverstated(s: Cluster, y: NodeId) {
    && (forall x | x in s.nodes && y in s.nodes[x].view.nodes ::
          s.nodes[x].view.nodes[y].configEpoch <= OwnEpoch(s, y))
    && (forall m | m in s.net && m.src == y :: m.slaveof.None? && m.configEpoch <= OwnEpoch(s, y))
    && (forall m | m in s.net && m.kind.Update? && m.kind.about == y :: m.kind.aboutEpoch <= OwnEpoch(s, y))
  }

  /** Where a node's opinion of another node's epoch can come from. */
  lemma OpinionStep(n: NodeState, a: Action, y: NodeId, bound: nat)
    requires NodeOk(n) && Legal(n, a) && y != n.me
    requires y in n.view.nodes ==> n.view.nodes[y].configEpoch <= bound
    requires a.Deliver? && a.m.src == y ==> a.m.configEpoch <= bound
    requires a.Deliver? && a.m.kind.Update? && a.m.kind.about == y ==> a.m.kind.aboutEpoch <= bound
    ensures y in Local(n, a).view.nodes ==> Local(n, a).view.nodes[y].configEpoch <= bound
  {
    if a.Deliver? {
      ReceiveOpinion(n, a.m, a.o, y, bound);
      hide Receive;
    }
  }

  lemma PingOpinion(n: NodeState, m: Message, o: Oracle, y: NodeId)
    requires WellFormed(n.view, n.me) && m.src != n.me && y != n.me
    ensures var r := ReceivePing(n, m, o);
      && (y in r.view.nodes <==> y in n.view.nodes)
      && (y in n.view.nodes ==> r.view.nodes[y].configEpoch == n.view.nodes[y].configEpoch)
  {
    hide WellFormed;
  }

  lemma HeaderOpinion(n: NodeState, m: Message, y: NodeId, bound: nat)
    requires y in n.view.nodes ==> n.view.nodes[y].configEpoch <= bound
    requires m.src == y ==> m.configEpoch <= bound
    ensures y in SeeHeader(n, m).view.nodes ==> SeeHeader(n, m).view.nodes[y].configEpoch <= bound
  {
  }

  lemma ReceiveOpinion(n: NodeState, m: Message, o: Oracle, y: NodeId, bound: nat)
    requires NodeOk(n) && MessageOk(m) && m.dst == n.me && y != n.me
    requires y in n.view.nodes ==> n.view.nodes[y].configEpoch <= bound
    requires m.src == y ==> m.configEpoch <= bound
    requires m.kind.Update? && m.kind.about == y ==> m.kind.aboutEpoch <= bound
    ensures y in Receive(n, m, o).view.nodes ==> Receive(n, m, o).view.nodes[y].configEpoch <= bound
  {
    SeeHeaderKeepsNodeOk(n, m);
    hide SeeHeader, WellFormed;
    var n1 := SeeHeader(n, m);
    HeaderOpinion(n, m, y, bound);
    if m.kind.Ping? {
      hide ReceivePing;
      PingOpinion(n1, m, o, y);
    } else {
      hide ReceivePing, Grants, CountsVote;
    }
  }

  /** What a packet says about y when it leaves. */
  lemma SentOpinion(n: NodeState, a: Action, m: Message, y: NodeId, bound: nat)
    requires NodeOk(n) && Legal(n, a) && m in Sent(n, a)
    requires y in n.view.nodes ==> n.view.nodes[y].configEpoch <= bound
    requires n.me == y ==> y in Local(n, a).view.nodes
    requires n.me == y ==> Local(n, a).view.nodes[y].isMaster && Local(n, a).view.nodes[y].configEpoch <= bound
    ensures m.src == y ==> m.slaveof.None? && m.configEpoch <= bound
    ensures m.kind.Update? && m.kind.about == y ==> m.kind.aboutEpoch <= bound
  {
    LocalKeepsNodeOk(n, a);
  }

  lemma OpinionKept(s: Cluster, a: Action, y: NodeId)
    requires Inv(s) && Enabled(s, a) && y in s.nodes && NotOverstated(s, y)
    requires OwnEpoch(s, y) <= OwnEpoch(Apply(s, a), y) && MasterNow(Apply(s, a), y)
    ensures NotOverstated(Apply(s, a), y)
  {
    hide Apply, Local, Legal, NodeOk, MessageOk, Sent, Inv, Enabled;
    ApplyShape(s, a);
    var t, n, bound := Apply(s, a), s.nodes[Actor(a)], OwnEpoch(Apply(s, a), y);
    if y != n.me {
      OpinionStep(n, a, y, bound);
    }
    forall m | m in Sent(n, a)
      ensures m.src == y ==> m.slaveof.None? && m.configEpoch <= bound
      ensures m.kind.Update? && m.kind.about == y ==> m.kind.aboutEpoch <= bound
    {
      SentOpinion(n, a, m, y, bound);
    }
  }

  lemma OwnGrows(states: seq<Cluster>, acts: seq<Action>, k: nat, x: NodeId)
    requires Run(states, acts) && OnlyCollisions(states, acts) && k < |acts| && x in states[0].nodes
    ensures OwnEpoch(states[k], x) <= OwnEpoch(states[k + 1], x)
    ensures OwnEpoch(states[k + 1], x) == OwnEpoch(states[k], x)
         || (x in states[k].nodes && states[k].nodes[x].currentEpoch < OwnEpoch(states[k + 1], x))
  {
    RunStep(states, acts, k);
    RunInv(states, acts, k);
    assert MovesByCollision(states[k], acts[k], states[k + 1]);
    hide Run, OnlyCollisions, Apply, Local, Legal, NodeOk, MessageOk, Bumped;
    if OwnEpoch(states[k + 1], x) != OwnEpoch(states[k], x) {
      BumpStep(states[k], acts[k]);
      OwnBound(states[k], x);
    }
  }

  lemma {:induction false} NeverOverstated(states: seq<Cluster>, acts: seq<Action>, k: nat, y: NodeId)
    requires Run(states, acts) && OnlyCollisions(states, acts) && AlwaysMaster(states, y) && k < |states|
    requires NotOverstated(states[0], y)
    ensures NotOverstated(states[k], y)
  {
    hide *;
    if k > 0 {
      RunLength(states, acts);
      NeverOverstated(states, acts, k - 1, y);
      RunStep(states, acts, k - 1);
      MasterThroughout(states, y, 0);
      MasterThroughout(states, y, k - 1);
      MasterThroughout(states, y, k);
      OwnGrows(states, acts, k - 1, y);
      OpinionKept(states[k - 1], acts[k - 1], y);
    }
  }

  /** An epoch that later differs from today's exceeds today's current epoch. */
  lemma {:induction false} OwnLater(states: seq<Cluster>, acts: seq<Action>, i: nat, k: nat, x: NodeId)
    requires Run(states, acts) && OnlyCollisions(states, acts) && i <= k < |states| && x in states[0].nodes
    ensures x in states[i].nodes && OwnEpoch(states[i], x) <= OwnEpoch(states[k], x)
    ensures OwnEpoch(states[k], x) == OwnEpoch(states[i], x)
         || states[i].nodes[x].currentEpoch < OwnEpoch(states[k], x)
    decreases k
  {
    hide Run, OnlyCollisions, OwnEpoch, Inv;
    RunLength(states, acts);
    RunInv(states, acts, i);
    if i < k {
      OwnLater(states, acts, i, k - 1, x);
      OwnGrows(states, acts, k - 1, x);
      CurrentEpochNeverDecreases(states, acts, i, k - 1, x);
    }
  }

  /** x handles a PING in which y, a node it knows, announces the configuration epoch e. */
  ghost predicate Hears(s: Cluster, a: Action, x: NodeId, y: NodeId, e: nat) {
    && Inv(s) && Enabled(s, a)
    && a.Deliver? && a.m.kind.Ping? && a.m.dst == x && a.m.src == y && a.m.configEpoch == e
    && y in s.nodes[x].view.nodes
  }

  lemma HearingSeparates(s: Cluster, a: Action, x: NodeId, y: NodeId, e: nat)
    requires Hears(s, a, x, y, e) && x < y
    requires MasterNow(Apply(s, a), x) && a.m.slaveof.None?
    requires s.nodes[x].view.nodes[y].configEpoch <= e
    ensures OwnEpoch(Apply(s, a), x) != e
    ensures x in Apply(s, a).nodes && e <= Apply(s, a).nodes[x].currentEpoch
  {
    hide SeeHeader, ApplyConfig, Collides, NodeOk, Receive, Votes, Header, Local, Apply;
    DeliverIs(s, a);
    HearReceive(s.nodes[x], a.m, a.o);
  }

  /** The same at the receiver: it stays a master with another epoch, by a collision if need be. */
  lemma HearReceive(n: NodeState, m: Message, o: Oracle)
    requires NodeOk(n) && MessageOk(m) && n.me < m.src && m.kind.Ping? && m.slaveof.None?
    requires m.src in n.view.nodes && n.view.nodes[m.src].configEpoch <= m.configEpoch
    ensures var r := Receive(n, m, o);
      && m.configEpoch <= r.currentEpoch && n.me in r.view.nodes
      && (r.view.nodes[n.me].isMaster ==> r.view.nodes[n.me].configEpoch != m.configEpoch)
  {
    SeeHeaderKeepsNodeOk(n, m);
  }

  /** x has heard y announce the configuration epoch y now has. */
  ghost predicate UpToDate(states: seq<Cluster>, acts: seq<Action>, x: NodeId, y: NodeId)
    requires |states| == |acts| + 1
  {
    exists i | 0 <= i < |acts| :: Hears(states[i], acts[i], x, y, OwnEpoch(states[|acts|], y))
  }

  lemma UpToDateDiffer(states: seq<Cluster>, acts: seq<Action>, x: NodeId, y: NodeId)
    requires Run(states, acts) && OnlyCollisions(states, acts)
    requires AlwaysMaster(states, x) && AlwaysMaster(states, y) && NotOverstated(states[0], y)
    requires x < y && UpToDate(states, acts, x, y)
    ensures OwnEpoch(states[|acts|], x) != OwnEpoch(states[|acts|], y)
  {
    var e := OwnEpoch(states[|acts|], y);
    var i :| 0 <= i < |acts| && Hears(states[i], acts[i], x, y, e);
    assert MasterNow(states[0], x) && MasterNow(states[0], y) && MasterNow(states[i + 1], x);
    assert MovesByCollision(states[i], acts[i], states[i + 1]);
    RunStep(states, acts, i);
    NeverOverstated(states, acts, i, y);
    assert acts[i].m in states[i].net && acts[i].m.slaveof.None? && x in states[i].nodes;
    assert states[i].nodes[x].view.nodes[y].configEpoch <= OwnEpoch(states[i], y);
    hide Run, OnlyCollisions, Apply, Enabled, Inv, MasterNow, MovesByCollision, OwnEpoch;
    OwnLater(states, acts, i, |acts|, y);
    HearingSeparates(states[i], acts[i], x, y, e);
    OwnLater(states, acts, i + 1, |acts|, x);
  }

  /** Once every master has heard the present epoch of every greater one, all their epochs differ. */
  lemma UpToDateMastersDiffer(states: seq<Cluster>, acts: seq<Action>, P: set<NodeId>)
    requires Run(states, acts) && OnlyCollisions(states, acts)
    requires forall x | x in P :: AlwaysMaster(states, x) && NotOverstated(states[0], x)
    requires forall x, y | x in P && y in P && x < y :: UpToDate(states, acts, x, y)
    ensures forall x, y | x in P && y in P && x != y :: OwnEpoch(states[|acts|], x) != OwnEpoch(states[|acts|], y)
  {
    forall x, y | x in P && y in P && x < y
      ensures OwnEpoch(states[|acts|], x) != OwnEpoch(states[|acts|], y)
    {
      UpToDateDiffer(states, acts, x, y);
    }
  }
}
