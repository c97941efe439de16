/**
 A whole cluster: the states of its nodes and the packets in flight between
 them. One action is one handler call on one node, the loss of a packet, or the
 sending of one. Packets may be delayed, lost and reordered, never duplicated.
 Runs leave out hard resets and restarts.
 */
module Cluster {
  import opened Common
  import opened ClusterNode

  datatype Action =
    | Deliver(m: Message, o: Oracle)
    | Lose(m: Message)
    | Send(src: NodeId, dst: NodeId, kind: Kind)
    | Failover(id: NodeId, env: Env, links: seq<NodeId>)
    | Bump(id: NodeId)
    | TakeOver(id: NodeId)
    | SetEpoch(id: NodeId, epoch: nat)
    | Meet(id: NodeId, peer: NodeId, isMaster: bool)
    | Forget(id: NodeId, peer: NodeId)
    | MarkFailed(id: NodeId, peer: NodeId, failed: bool)
    | CountSize(id: NodeId)
    | AssignSlots(id: NodeId, slots: seq<Option<NodeId>>, importing: map<nat, NodeId>)
    | Replicate(id: NodeId, master: NodeId)

  /** The node an action runs on. */
  function Actor(a: Action): NodeId {
    match a
    case Deliver(m, _) => m.dst
    case Lose(m) => m.dst
    case Send(src, _, _) => src
    case _ => a.id
  }

  // ----- one node -----

  /** What every node keeps: a sound view, and a current epoch above every other epoch it holds. */
  ghost predicate NodeOk(n: NodeState) {
    && WellFormed(n.view, n.me)
    && n.lastVoteEpoch <= n.currentEpoch
    && n.authEpoch <= n.currentEpoch
    && forall x | x in n.view.nodes :: n.view.nodes[x].configEpoch <= n.currentEpoch
  }

  /** What every packet keeps: no epoch in it exceeds its sender's current epoch. */
  ghost predicate MessageOk(m: Message) {
    && m.src != m.dst
    && m.configEpoch <= m.currentEpoch
    && (m.kind.Update? ==> m.kind.aboutEpoch <= m.currentEpoch)
  }

  /** The guards the command handlers check before acting. */
  ghost predicate Legal(n: NodeState, a: Action) {
    && Actor(a) == n.me
    && match a
       case Deliver(m, _) => MessageOk(m)
       case Lose(_) => true
       case Send(src, dst, kind) =>
         && dst != src
         && (match kind
             case Update(about, e, slots) =>
               about in n.view.nodes && e == n.view.nodes[about].configEpoch && slots == SlotsOf(n.view.slots, about)
             case _ => kind.Ping? || kind.Other?)
       case Failover(id, _, links) => id !in links && forall i, j | 0 <= i < j < |links| :: links[i] != links[j]
       case SetEpoch(id, _) => n.view.nodes.Keys == {id} && n.view.nodes[id].configEpoch == 0
       case Forget(id, peer) => peer != id && id in n.view.nodes && n.view.nodes[id].slaveof != Some(peer)
       case MarkFailed(_, peer, _) => peer in n.view.nodes
       case AssignSlots(_, slots, _) =>
         |slots| == SLOTS && forall j | 0 <= j < |slots| && slots[j].Some? :: slots[j].value in n.view.nodes
       case Replicate(id, master) => master != id && master in n.view.nodes && NumSlots(n.view, id) == 0
       case _ => true
  }

  /** What the action does to the node it runs on. */
  ghost function Local(n: NodeState, a: Action): NodeState
    requires NodeOk(n) && Legal(n, a)
  {
    match a
    case Deliver(m, o) => Receive(n, m, o)
    case Lose(_) => n
    case Send(_, _, _) => n
    case Failover(_, env, _) => HandleSlaveFailover(n, env).0
    case Bump(_) => BumpWithoutConsensus(n)
    case TakeOver(_) => Takeover(n)
    case SetEpoch(_, e) => n.(currentEpoch := Max(n.currentEpoch, e), view := SetConfigEpoch(n.view, n.me, e))
    case Meet(_, peer, isMaster) => n.(view := AddNode(n.view, peer, isMaster))
    case Forget(_, peer) => n.(view := DelNode(n.view, peer))
    case MarkFailed(_, peer, failed) => n.(view := SetInfo(n.view, peer, n.view.nodes[peer].(failed := failed)))
    case CountSize(_) => n.(view := n.view.(size := |ServingMasters(n.view)|))
    case AssignSlots(_, slots, importing) => n.(view := n.view.(slots := slots, importing := importing))
    case Replicate(_, master) => n.(view := SetMaster(n.view, n.me, master))
  }

  lemma SeeHeaderKeepsNodeOk(n: NodeState, m: Message)
    requires NodeOk(n) && MessageOk(m)
    ensures var r := SeeHeader(n, m); NodeOk(r) && r.me == n.me && n.currentEpoch <= r.currentEpoch
    ensures m.src in n.view.nodes ==> m.currentEpoch <= SeeHeader(n, m).currentEpoch
  {
  }

  lemma ReceivePingKeepsNodeOk(n: NodeState, m: Message, o: Oracle)
    requires NodeOk(n) && m.src != n.me
    ensures var r := ReceivePing(n, m, o); NodeOk(r) && r.me == n.me && n.currentEpoch <= r.currentEpoch
  {
    if m.src in n.view.nodes {
      var n1 := ApplyConfig(n, m, o);
      assert NodeOk(n1);
      assert NodeOk(TakeNextEpoch(n1));
    }
  }

  lemma ReceiveKeepsNodeOk(n: NodeState, m: Message, o: Oracle)
    requires NodeOk(n) && MessageOk(m) && m.dst == n.me
    ensures var r := Receive(n, m, o); NodeOk(r) && r.me == n.me && n.currentEpoch <= r.currentEpoch
  {
    SeeHeaderKeepsNodeOk(n, m);
    var n1 := SeeHeader(n, m);
    match m.kind
    case Ping => ReceivePingKeepsNodeOk(n1, m, o);
    case Update(_, _, _) =>
      var r := ReceiveUpdate(n1, m, o);
      assert NodeOk(r);
    case _ =>
  }

  lemma FailoverKeepsNodeOk(n: NodeState, env: Env)
    requires NodeOk(n)
    ensures var r := HandleSlaveFailover(n, env).0; NodeOk(r) && r.me == n.me && n.currentEpoch <= r.currentEpoch
  {
  }

  lemma ForgetKeepsNodeOk(n: NodeState, peer: NodeId)
    requires NodeOk(n) && peer != n.me && n.view.nodes[n.me].slaveof != Some(peer)
    ensures NodeOk(n.(view := DelNode(n.view, peer)))
  {
  }

  lemma TakeoverKeepsNodeOk(n: NodeState)
    requires NodeOk(n)
    ensures var r := Takeover(n); NodeOk(r) && r.me == n.me && n.currentEpoch <= r.currentEpoch
  {
    assert NodeOk(BumpWithoutConsensus(n));
  }

  lemma SetEpochKeepsNodeOk(n: NodeState, e: nat)
    requires NodeOk(n)
    ensures NodeOk(n.(currentEpoch := Max(n.currentEpoch, e), view := SetConfigEpoch(n.view, n.me, e)))
  {
  }

  lemma MeetKeepsNodeOk(n: NodeState, peer: NodeId, isMaster: bool)
    requires NodeOk(n)
    ensures NodeOk(n.(view := AddNode(n.view, peer, isMaster)))
  {
  }

  lemma ReplicateKeepsNodeOk(n: NodeState, master: NodeId)
    requires NodeOk(n) && master != n.me && master in n.view.nodes
    ensures NodeOk(n.(view := SetMaster(n.view, n.me, master)))
  {
  }

  lemma BumpKeepsNodeOk(n: NodeState)
    requires NodeOk(n)
    ensures var r := BumpWithoutConsensus(n); NodeOk(r) && r.me == n.me && n.currentEpoch <= r.currentEpoch
  {
  }

  lemma MarkKeepsNodeOk(n: NodeState, peer: NodeId, failed: bool)
    requires NodeOk(n) && peer in n.view.nodes
    ensures NodeOk(n.(view := SetInfo(n.view, peer, n.view.nodes[peer].(failed := failed))))
  {
  }

  lemma CountKeepsNodeOk(n: NodeState)
    requires NodeOk(n)
    ensures NodeOk(n.(view := n.view.(size := |ServingMasters(n.view)|)))
  {
  }

  lemma AssignKeepsNodeOk(n: NodeState, slots: seq<Option<NodeId>>, importing: map<nat, NodeId>)
    requires NodeOk(n)
    requires |slots| == SLOTS && forall j | 0 <= j < |slots| && slots[j].Some? :: slots[j].value in n.view.nodes
    ensures NodeOk(n.(view := n.view.(slots := slots, importing := importing)))
  {
  }

  lemma AdminKeepsNodeOk(n: NodeState, a: Action)
    requires NodeOk(n) && Legal(n, a) && !a.Deliver? && !a.Failover?
    ensures NodeOk(Local(n, a)) && Local(n, a).me == n.me && n.currentEpoch <= Local(n, a).currentEpoch
  {
    hide NodeOk, WellFormed, BumpWithoutConsensus, Takeover, AddNode, DelNode, SetMaster, ServingMasters, NumSlots, SlotsOf;
    match a
    case Bump(_) => BumpKeepsNodeOk(n);
    case SetEpoch(_, e) => SetEpochKeepsNodeOk(n, e);
    case Meet(_, peer, isMaster) => MeetKeepsNodeOk(n, peer, isMaster);
    case Forget(_, peer) => ForgetKeepsNodeOk(n, peer);
    case TakeOver(_) => TakeoverKeepsNodeOk(n);
    case MarkFailed(_, peer, failed) => MarkKeepsNodeOk(n, peer, failed);
    case CountSize(_) => CountKeepsNodeOk(n);
    case AssignSlots(_, slots, importing) => AssignKeepsNodeOk(n, slots, importing);
    case Replicate(_, master) => ReplicateKeepsNodeOk(n, master);
    case _ =>
  }

  /** No handler breaks the node's invariant or lowers its current epoch. */
  lemma LocalKeepsNodeOk(n: NodeState, a: Action)
    requires NodeOk(n) && Legal(n, a)
    ensures NodeOk(Local(n, a)) && Local(n, a).me == n.me && n.currentEpoch <= Local(n, a).currentEpoch
  {
    hide NodeOk, Receive, HandleSlaveFailover;
    match a
    case Deliver(m, o) => ReceiveKeepsNodeOk(n, m, o);
    case Failover(_, env, _) => FailoverKeepsNodeOk(n, env);
    case _ => AdminKeepsNodeOk(n, a);
  }

  /** This node votes for the sender of the request m. */
  ghost predicate Votes(n: NodeState, m: Message, o: Oracle)
    requires NodeOk(n)
  {
    m.kind.AuthRequest? && Grants(SeeHeader(n, m), m, o)
  }

  /** The packets an action puts on the wire. */
  ghost function Sent(n: NodeState, a: Action): multiset<Message>
    requires NodeOk(n) && Legal(n, a)
  {
    LocalKeepsNodeOk(n, a);
    match a
    case Deliver(m, o) =>
      if Votes(n, m, o) && o.linkUp then multiset{Header(Local(n, a), AuthAck, m.src)} else multiset{}
    case Send(_, dst, kind) => multiset{Header(n, kind, dst)}
    case Failover(_, env, links) =>
      if HandleSlaveFailover(n, env).1.Requested?
      then multiset(seq(|links|, i requires 0 <= i < |links| => Header(Local(n, a), AuthRequest(env.mfEnd), links[i])))
      else multiset{}
    case _ => multiset{}
  }

  lemma SentOk(n: NodeState, a: Action, m: Message)
    requires NodeOk(n) && Legal(n, a) && m in Sent(n, a)
    ensures MessageOk(m) && m.src == n.me && m.currentEpoch <= Local(n, a).currentEpoch
  {
    LocalKeepsNodeOk(n, a);
  }

  // ----- the cluster -----

  datatype Cluster = Cluster(nodes: map<NodeId, NodeState>, net: multiset<Message>)

  ghost predicate Inv(s: Cluster) {
    && (forall x | x in s.nodes :: NodeOk(s.nodes[x]) && s.nodes[x].me == x)
    && (forall m | m in s.net :: MessageOk(m) && m.src in s.nodes && m.currentEpoch <= s.nodes[m.src].currentEpoch)
  }

  ghost predicate Enabled(s: Cluster, a: Action) {
    && Actor(a) in s.nodes
    && Legal(s.nodes[Actor(a)], a)
    && (a.Deliver? ==> a.m in s.net)
    && (a.Lose? ==> a.m in s.net)
  }

  ghost function Apply(s: Cluster, a: Action): Cluster
    requires Inv(s) && Enabled(s, a)
  {
    var n := s.nodes[Actor(a)];
    var taken := match a case Deliver(m, _) => multiset{m} case Lose(m) => multiset{m} case _ => multiset{};
    Cluster(s.nodes[n.me := Local(n, a)], s.net - taken + Sent(n, a))
  }

  /** An action changes one node, and only adds what that node sends. */
  lemma ApplyShape(s: Cluster, a: Action)
    requires Inv(s) && Enabled(s, a)
    ensures Actor(a) in s.nodes
    ensures var n, t := s.nodes[Actor(a)], Apply(s, a);
      && NodeOk(n) && Legal(n, a) && n.me == Actor(a) && Local(n, a).me == n.me
      && t.nodes == s.nodes[n.me := Local(n, a)]
      && (forall m | m in t.net :: m in s.net || m in Sent(n, a))
      && (a.Deliver? ==> a.m in s.net)
  {
    LocalKeepsNodeOk(s.nodes[Actor(a)], a);
    hide Local, Sent;
  }

  /** What the delivery of a packet does. */
  lemma DeliverIs(s: Cluster, a: Action)
    requires Inv(s) && a.Deliver? && a.m.dst in s.nodes && a.m in s.net
    ensures Enabled(s, a)
    ensures var n, r := s.nodes[a.m.dst], Receive(s.nodes[a.m.dst], a.m, a.o);
      && NodeOk(n) && NodeOk(r) && r.me == n.me == a.m.dst
      && Apply(s, a) == Cluster(s.nodes[a.m.dst := r],
                                if Votes(n, a.m, a.o) && a.o.linkUp then s.net - multiset{a.m} + multiset{Header(r, AuthAck, a.m.src)}
                                else s.net - multiset{a.m})
  {
    hide Receive, NodeOk, MessageOk, Votes, Header;
    LocalKeepsNodeOk(s.nodes[a.m.dst], a);
    assert s.net - multiset{a.m} + multiset{} == s.net - multiset{a.m};
  }

  /** What the failover timer does when no election starts. */
  lemma FailoverIs(s: Cluster, a: Action)
    requires Inv(s) && a.Failover? && a.id in s.nodes && Enabled(s, a)
    requires !HandleSlaveFailover(s.nodes[a.id], a.env).1.Requested?
    ensures Apply(s, a) == Cluster(s.nodes[a.id := HandleSlaveFailover(s.nodes[a.id], a.env).0], s.net)
  {
    hide HandleSlaveFailover, NodeOk, MessageOk;
    LocalKeepsNodeOk(s.nodes[a.id], a);
    assert s.net - multiset{} + multiset{} == s.net;
  }

  /** What it does when one starts. */
  lemma StartIs(s: Cluster, a: Action)
    requires Inv(s) && a.Failover? && a.id in s.nodes && Enabled(s, a)
    requires HandleSlaveFailover(s.nodes[a.id], a.env).1.Requested?
    ensures var r := HandleSlaveFailover(s.nodes[a.id], a.env).0;
      && NodeOk(r)
      && Apply(s, a) == Cluster(s.nodes[a.id := r],
                                s.net + multiset(seq(|a.links|, i requires 0 <= i < |a.links| =>
                                                     Header(r, AuthRequest(a.env.mfEnd), a.links[i]))))
  {
    hide HandleSlaveFailover, NodeOk, MessageOk, Header;
    LocalKeepsNodeOk(s.nodes[a.id], a);
    assert s.net - multiset{} == s.net;
  }

  lemma ApplyKeepsInv(s: Cluster, a: Action)
    requires Inv(s) && Enabled(s, a)
    ensures Inv(Apply(s, a))
  {
    hide Local, Sent, NodeOk, MessageOk, Legal;
    var n := s.nodes[Actor(a)];
    LocalKeepsNodeOk(n, a);
    forall m | m in Sent(n, a)
      ensures MessageOk(m) && m.src == n.me && m.currentEpoch <= Local(n, a).currentEpoch
    {
      SentOk(n, a, m);
    }
  }

  // ----- runs -----

  /** Nothing in flight, no election attempted yet; epochs and tables are arbitrary within the invariant. */
  ghost predicate Initial(s: Cluster) {
    && Inv(s)
    && s.net == multiset{}
    && forall x | x in s.nodes ::
         s.nodes[x].authEpoch == 0 && s.nodes[x].authCount == 0 && !s.nodes[x].authSent
  }

  /** One action. What happens outside the invariant is left open; RunInv shows no run gets there. */
  ghost predicate Step(s: Cluster, a: Action, s': Cluster) {
    Inv(s) ==> Enabled(s, a) && s' == Apply(s, a)
  }

  ghost predicate Run(states: seq<Cluster>, acts: seq<Action>) {
    && |states| == |acts| + 1
    && Initial(states[0])
    && forall k | 0 <= k < |acts| ::
         Step(states[k], acts[k], states[k + 1])
  }

  lemma ApplyKeepsNodes(s: Cluster, a: Action)
    requires Inv(s) && Enabled(s, a)
    ensures Apply(s, a).nodes.Keys == s.nodes.Keys
  {
    hide Local, Sent, NodeOk, MessageOk;
  }

  lemma {:induction false} RunInv(states: seq<Cluster>, acts: seq<Action>, k: nat)
    requires Run(states, acts) && k < |states|
    ensures Inv(states[k]) && states[k].nodes.Keys == states[0].nodes.Keys
  {
    hide Inv, Enabled, Apply;
    if k > 0 {
      RunInv(states, acts, k - 1);
      assert Step(states[k - 1], acts[k - 1], states[k]);
      ApplyKeepsInv(states[k - 1], acts[k - 1]);
      ApplyKeepsNodes(states[k - 1], acts[k - 1]);
    }
  }

  lemma RunLength(states: seq<Cluster>, acts: seq<Action>)
    requires Run(states, acts)
    ensures |states| == |acts| + 1
  {
  }

  lemma RunStep(states: seq<Cluster>, acts: seq<Action>, k: nat)
    requires Run(states, acts) && k < |acts|
    ensures Inv(states[k]) && Enabled(states[k], acts[k]) && states[k + 1] == Apply(states[k], acts[k])
  {
    RunInv(states, acts, k);
    assert Step(states[k], acts[k], states[k + 1]);
  }

  /** Over any run a node's current epoch never decreases. */
  lemma {:induction false} CurrentEpochNeverDecreases(states: seq<Cluster>, acts: seq<Action>, i: nat, j: nat, x: NodeId)
    requires Run(states, acts) && i <= j < |states| && x in states[i].nodes
    ensures x in states[j].nodes && states[i].nodes[x].currentEpoch <= states[j].nodes[x].currentEpoch
  {
    hide Run, Apply, Inv, Enabled;
    if i < j {
      CurrentEpochNeverDecreases(states, acts, i, j - 1, x);
      RunLength(states, acts);
      RunStep(states, acts, j - 1);
      ApplyIsMonotone(states[j - 1], acts[j - 1], x);
    }
  }

  lemma ApplyIsMonotone(s: Cluster, a: Action, x: NodeId)
    requires Inv(s) && Enabled(s, a) && x in s.nodes
    ensures x in Apply(s, a).nodes && s.nodes[x].currentEpoch <= Apply(s, a).nodes[x].currentEpoch
  {
    LocalKeepsNodeOk(s.nodes[Actor(a)], a);
  }
}
