/**
 The epochs of a cluster over whole runs, and what a configuration epoch taken
 without an election is worth.
 */
module Epochs {
  import opened ClusterNode
  import opened Cluster

  function Own(n: NodeState): nat
    requires n.me in n.view.nodes
  {
    n.view.nodes[n.me].configEpoch
  }

  /** In every reachable state the current epoch of a node bounds every epoch it holds,
      and the current epoch of a packet bounds every epoch in the packet. */
  lemma EpochInvariant(states: seq<Cluster>, acts: seq<Action>, k: nat)
    requires Run(states, acts) && k < |states|
    ensures forall x | x in states[k].nodes :: var n := states[k].nodes[x];
      && n.lastVoteEpoch <= n.currentEpoch
      && n.authEpoch <= n.currentEpoch
      && forall y | y in n.view.nodes :: n.view.nodes[y].configEpoch <= n.currentEpoch
    ensures forall m | m in states[k].net ::
      && m.configEpoch <= m.currentEpoch
      && (m.kind.Update? ==> m.kind.aboutEpoch <= m.currentEpoch)
      && m.src in states[k].nodes && m.currentEpoch <= states[k].nodes[m.src].currentEpoch
  {
    RunInv(states, acts, k);
  }

  /** r is n after taking an epoch above everything n knew. */
  ghost predicate TookFreshEpoch(n: NodeState, r: NodeState)
    requires n.me in n.view.nodes && r.me in r.view.nodes
  {
    && Own(r) == r.currentEpoch
    && n.currentEpoch < Own(r)
    && (forall x | x in n.view.nodes :: n.view.nodes[x].configEpoch < Own(r))
    && (forall x | x in r.view.nodes && x != r.me :: r.view.nodes[x].configEpoch < Own(r))
  }

  /** BUMPEPOCH, TAKEOVER and the collision handler either leave the node's configuration epoch alone
      or take one above every epoch the node knew before and knows after. */
  lemma UnilateralBumpIsFresh(n: NodeState, a: Action)
    requires NodeOk(n) && Legal(n, a)
    requires a.Bump? || a.TakeOver? || (a.Deliver? && a.m.kind.Ping?)
    ensures Local(n, a).me in Local(n, a).view.nodes
    ensures Own(Local(n, a)) == Own(n) || TookFreshEpoch(n, Local(n, a))
  {
    LocalKeepsNodeOk(n, a);
    if a.Deliver? {
      PingBumpIsFresh(n, a.m, a.o);
    }
  }

  lemma PingBumpIsFresh(n: NodeState, m: Message, o: Oracle)
    requires NodeOk(n) && MessageOk(m) && m.dst == n.me && m.kind.Ping?
    ensures var r := Receive(n, m, o);
      r.me == n.me && NodeOk(r) && (Own(r) == Own(n) || TookFreshEpoch(n, r))
  {
    ReceiveKeepsNodeOk(n, m, o);
    SeeHeaderKeepsNodeOk(n, m);
  }

  /** After BUMPEPOCH the node's configuration epoch is not zero and nothing it knows exceeds it;
      it changes exactly when that was not so before. */
  lemma BumpLeavesMax(n: NodeState)
    requires NodeOk(n)
    ensures var r := BumpWithoutConsensus(n);
      && r.me in r.view.nodes && 0 < Own(r)
      && (forall x | x in r.view.nodes :: r.view.nodes[x].configEpoch <= Own(r))
      && (Own(r) != Own(n) <==> Own(n) == 0 || Own(n) < n.currentEpoch)
  {
  }
}
