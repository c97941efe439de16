/**
 Slot ownership as one node learns it: masters with fixed, pairwise different
 configuration epochs claim slots, in PINGs of their own and in UPDATEs sent by
 others, and the observer ends with every slot bound to its strongest claimant.
 */
module Convergence {
  import opened Common
  import opened ClusterNode
  import opened Cluster

  datatype Claim = Claim(epoch: nat, slots: set<nat>)

  type Claims = map<NodeId, Claim>

  ghost predicate DistinctEpochs(claims: Claims) {
    forall c, d | c in claims && d in claims && c != d :: claims[c].epoch != claims[d].epoch
  }

  /** A packet of a claimant: its header carries its own claim, an UPDATE repeats the claim of another. */
  ghost predicate Truthful(claims: Claims, n: NodeState, m: Message) {
    && MessageOk(m) && m.dst == n.me
    && m.src in claims && m.slaveof.None?
    && m.configEpoch == claims[m.src].epoch && m.claims == claims[m.src].slots
    && (m.kind.Update? ==>
          && m.kind.about in claims
          && m.kind.aboutEpoch == claims[m.kind.about].epoch && m.kind.aboutSlots == claims[m.kind.about].slots)
  }

  /** The claimant whose slots the observer compares with its table when it handles m, if any: the sender of a PING,
      or the subject of an UPDATE that is news. */
  function Heard(n: NodeState, m: Message): set<NodeId> {
    match m.kind
    case Ping => {m.src}
    case Update(about, e, _) =>
      var known := SeeHeader(n, m).view.nodes;
      if about in known && known[about].configEpoch < e then {about} else {}
    case _ => {}
  }

  /** o is the owner of slot j among the claimants A: one with the greatest epoch, or none if none claims it. */
  ghost predicate Strongest(claims: Claims, A: set<NodeId>, j: nat, o: Option<NodeId>) {
    match o
    case None => forall c | c in A && c in claims :: j !in claims[c].slots
    case Some(c) =>
      && c in A && c in claims && j in claims[c].slots
      && forall d | d in A && d in claims && j in claims[d].slots :: claims[d].epoch <= claims[c].epoch
  }

  /** The observer after it has applied the claims of A. */
  ghost predicate Learned(claims: Claims, A: set<NodeId>, n: NodeState) {
    && NodeOk(n)
    && n.me !in claims && n.view.importing == map[]
    && A <= claims.Keys && claims.Keys <= n.view.nodes.Keys
    && (forall c | c in claims :: n.view.nodes[c].configEpoch <= claims[c].epoch)
    && (forall c | c in A :: n.view.nodes[c].configEpoch == claims[c].epoch)
    && (forall j | 0 <= j < SLOTS :: Strongest(claims, A, j, n.view.slots[j]))
  }

  /** Rebinding to c turns the strongest of A into the strongest of A + {c}. */
  lemma RebindSlot(claims: Claims, A: set<NodeId>, v: View, c: NodeId, j: nat)
    requires DistinctEpochs(claims) && A <= claims.Keys && c in claims
    requires forall k | 0 <= k < |v.slots| && v.slots[k].Some? :: v.slots[k].value in v.nodes
    requires j < |v.slots| == SLOTS && v.importing == map[]
    requires forall d | d in A + {c} :: d in v.nodes && v.nodes[d].configEpoch == claims[d].epoch
    requires Strongest(claims, A, j, v.slots[j])
    ensures Strongest(claims, A + {c}, j,
              if j in Rebound(v, c, claims[c].epoch, claims[c].slots) then Some(c) else v.slots[j])
  {
  }

  lemma UpdateLearns(claims: Claims, A: set<NodeId>, v: View, me: NodeId, c: NodeId, allow: bool)
    requires DistinctEpochs(claims) && A <= claims.Keys && c in claims && c != me
    requires WellFormed(v, me) && v.importing == map[]
    requires forall d | d in A + {c} :: d in v.nodes && v.nodes[d].configEpoch == claims[d].epoch
    requires forall j | 0 <= j < SLOTS :: Strongest(claims, A, j, v.slots[j])
    ensures var r := UpdateSlotsConfigWith(v, me, c, claims[c].epoch, claims[c].slots, allow);
      && r.importing == map[]
      && forall j | 0 <= j < SLOTS :: Strongest(claims, A + {c}, j, r.slots[j])
  {
    var r := UpdateSlotsConfigWith(v, me, c, claims[c].epoch, claims[c].slots, allow);
    forall j | 0 <= j < SLOTS
      ensures Strongest(claims, A + {c}, j, r.slots[j])
    {
      RebindSlot(claims, A, v, c, j);
    }
  }

  /** A claim the table already agrees with needs no rebinding. */
  lemma CleanLearns(claims: Claims, A: set<NodeId>, v: View, c: NodeId)
    requires A <= claims.Keys && c in claims && |v.slots| == SLOTS
    requires SlotsOf(v.slots, c) == claims[c].slots
    requires forall j | 0 <= j < SLOTS :: Strongest(claims, A, j, v.slots[j])
    ensures forall j | 0 <= j < SLOTS :: Strongest(claims, A + {c}, j, v.slots[j])
  {
    forall j | 0 <= j < SLOTS
      ensures Strongest(claims, A + {c}, j, v.slots[j])
    {
      assert j in SlotsOf(v.slots, c) <==> v.slots[j] == Some(c);
    }
  }

  lemma HeaderLearns(claims: Claims, A: set<NodeId>, n: NodeState, m: Message)
    requires Learned(claims, A, n) && Truthful(claims, n, m)
    ensures Learned(claims, A, SeeHeader(n, m))
    ensures SeeHeader(n, m).view.nodes[m.src].configEpoch == m.configEpoch
  {
    SeeHeaderKeepsNodeOk(n, m);
  }

  lemma PingConfigLearns(claims: Claims, A: set<NodeId>, n: NodeState, m: Message, o: Oracle)
    requires DistinctEpochs(claims) && Learned(claims, A, n) && Truthful(claims, n, m)
    requires n.view.nodes[m.src].configEpoch == m.configEpoch
    ensures var r := ApplyConfig(n, m, o);
      && r.view.importing == map[]
      && forall j | 0 <= j < SLOTS :: Strongest(claims, A + {m.src}, j, r.view.slots[j])
  {
    var v := SwitchRole(n.view, n.me, m.src, m.slaveof);
    assert v.slots == n.view.slots;
    if SlotsOf(v.slots, m.src) != m.claims {
      UpdateLearns(claims, A, v, n.me, m.src, o.allowMigration);
    } else {
      CleanLearns(claims, A, v, m.src);
    }
  }

  lemma PingLearns(claims: Claims, A: set<NodeId>, n: NodeState, m: Message, o: Oracle)
    requires DistinctEpochs(claims) && Learned(claims, A, n) && Truthful(claims, n, m)
    requires n.view.nodes[m.src].configEpoch == m.configEpoch
    ensures Learned(claims, A + {m.src}, ReceivePing(n, m, o))
  {
    hide Strongest, WellFormed, NodeOk, ApplyConfig, ReceivePing;
    PingConfigLearns(claims, A, n, m, o);
    LearnedOk(claims, A, n);
    ReceivePingKeepsNodeOk(n, m, o);
    PingIsConfig(n, m, o);
    ClaimantsKnown(claims, A, n, m);
  }

  lemma LearnedOk(claims: Claims, A: set<NodeId>, n: NodeState)
    requires Learned(claims, A, n)
    ensures NodeOk(n) && WellFormed(n.view, n.me)
  {
  }

  lemma ClaimantsKnown(claims: Claims, A: set<NodeId>, n: NodeState, m: Message)
    requires Learned(claims, A, n) && Truthful(claims, n, m)
    ensures m.src in n.view.nodes && m.src != n.me
  {
  }

  /** A heartbeat changes slots and imports as its configuration says, and epochs only of the receiver. */
  lemma PingIsConfig(n: NodeState, m: Message, o: Oracle)
    requires WellFormed(n.view, n.me) && m.src in n.view.nodes && m.src != n.me
    ensures var r, c := ReceivePing(n, m, o), ApplyConfig(n, m, o);
      && r.me == n.me && r.view.slots == c.view.slots && r.view.importing == c.view.importing
      && (forall x :: x in r.view.nodes <==> x in n.view.nodes)
      && forall x | x in n.view.nodes && x != n.me :: r.view.nodes[x].configEpoch == n.view.nodes[x].configEpoch
  {
    hide ApplyConfig;
  }

  lemma NewsLearns(claims: Claims, A: set<NodeId>, n: NodeState, m: Message, o: Oracle)
    requires DistinctEpochs(claims) && Learned(claims, A, n) && Truthful(claims, n, m) && m.kind.Update?
    requires n.view.nodes[m.kind.about].configEpoch < m.kind.aboutEpoch
    ensures var r := ReceiveUpdate(n, m, o);
      && r.view.importing == map[]
      && forall j | 0 <= j < SLOTS :: Strongest(claims, A + {m.kind.about}, j, r.view.slots[j])
  {
    var about := m.kind.about;
    var v := SetConfigEpoch(SetNodeAsMaster(n.view, about), about, m.kind.aboutEpoch);
    UpdateLearns(claims, A, v, n.me, about, o.allowMigration);
  }

  lemma UpdateMessageLearns(claims: Claims, A: set<NodeId>, n: NodeState, m: Message, o: Oracle)
    requires DistinctEpochs(claims) && Learned(claims, A, n) && Truthful(claims, n, m) && m.kind.Update?
    requires NodeOk(ReceiveUpdate(n, m, o))
    ensures var about := m.kind.about;
      var heard := if n.view.nodes[about].configEpoch < m.kind.aboutEpoch then {about} else {};
      Learned(claims, A + heard, ReceiveUpdate(n, m, o))
  {
    hide Strongest, WellFormed, NodeOk, ReceiveUpdate;
    LearnedOk(claims, A, n);
    ClaimantsKnown(claims, A, n, m);
    if n.view.nodes[m.kind.about].configEpoch < m.kind.aboutEpoch {
      NewsLearns(claims, A, n, m, o);
    } else {
      assert A + {} == A;
      OldNews(n, m, o);
    }
  }

  lemma OldNews(n: NodeState, m: Message, o: Oracle)
    requires WellFormed(n.view, n.me) && m.kind.Update? && m.kind.about in n.view.nodes
    requires n.view.nodes[m.kind.about].configEpoch >= m.kind.aboutEpoch
    ensures ReceiveUpdate(n, m, o) == n
  {
    hide WellFormed, UpdateSlotsConfigWith;
  }

  lemma SameViewLearns(claims: Claims, A: set<NodeId>, n: NodeState, r: NodeState)
    requires Learned(claims, A, n) && NodeOk(r) && r.view == n.view && r.me == n.me
    ensures Learned(claims, A + {}, r)
  {
    assert A + {} == A;
  }

  /** Every packet of a claimant, of any kind, keeps what was learned and adds the claim it is heard with. */
  lemma ReceiveLearns(claims: Claims, A: set<NodeId>, n: NodeState, m: Message, o: Oracle)
    requires DistinctEpochs(claims) && Learned(claims, A, n) && Truthful(claims, n, m)
    ensures Learned(claims, A + Heard(n, m), Receive(n, m, o))
  {
    assert NodeOk(n);
    HeaderLearns(claims, A, n, m);
    ReceiveKeepsNodeOk(n, m, o);
    var n1 := SeeHeader(n, m);
    assert n1.me == n.me;
    assert m.kind.Update? ==> m.kind.about in n1.view.nodes;
    hide SeeHeader, Learned, NodeOk, WellFormed, ReceivePing, ReceiveUpdate, Grants, CountsVote;
    match m.kind
    case Ping => PingLearns(claims, A, n1, m, o);
    case Update(about, e, slots) => UpdateMessageLearns(claims, A, n1, m, o);
    case _ => SameViewLearns(claims, A, n1, Receive(n, m, o));
  }

  // ----- any sequence of packets -----

  ghost function Observe(n: NodeState, ms: seq<Message>, os: seq<Oracle>): NodeState
    requires |ms| == |os|
  {
    if ms == [] then n
    else
      var r := Observe(n, ms[..|ms| - 1], os[..|os| - 1]);
      var m := ms[|ms| - 1];
      if WellFormed(r.view, r.me) && m.src != r.me then Receive(r, m, os[|os| - 1]) else r
  }

  /** The claimants heard along the way. */
  ghost function HeardIn(n: NodeState, ms: seq<Message>, os: seq<Oracle>): set<NodeId>
    requires |ms| == |os|
  {
    if ms == [] then {}
    else HeardIn(n, ms[..|ms| - 1], os[..|os| - 1])
         + Heard(Observe(n, ms[..|ms| - 1], os[..|os| - 1]), ms[|ms| - 1])
  }

  lemma ReceiveKeepsMe(n: NodeState, m: Message, o: Oracle)
    requires WellFormed(n.view, n.me) && m.src != n.me
    ensures Receive(n, m, o).me == n.me
  {
  }

  lemma {:induction false} ObserveLearns(claims: Claims, n: NodeState, ms: seq<Message>, os: seq<Oracle>)
    requires |ms| == |os| && DistinctEpochs(claims) && Learned(claims, {}, n)
    requires forall i | 0 <= i < |ms| :: Truthful(claims, n, ms[i])
    ensures Observe(n, ms, os).me == n.me
    ensures Learned(claims, HeardIn(n, ms, os), Observe(n, ms, os))
  {
    if ms != [] {
      var ms', os', m, o := ms[..|ms| - 1], os[..|os| - 1], ms[|ms| - 1], os[|os| - 1];
      ObserveLearns(claims, n, ms', os');
      var r := Observe(n, ms', os');
      assert Truthful(claims, n, m);
      assert WellFormed(r.view, r.me) && m.src != r.me;
      hide Learned, WellFormed;
      ReceiveLearns(claims, HeardIn(n, ms', os'), r, m, o);
      ReceiveKeepsMe(r, m, o);
    }
  }

  lemma {:induction false} PingsAreHeard(n: NodeState, ms: seq<Message>, os: seq<Oracle>, i: nat)
    requires |ms| == |os| && i < |ms| && ms[i].kind.Ping?
    ensures ms[i].src in HeardIn(n, ms, os)
    decreases |ms|
  {
    if i < |ms| - 1 {
      PingsAreHeard(n, ms[..|ms| - 1], os[..|os| - 1], i);
    }
  }

  /** An observer with an unassigned table that hears every claimant at least once, in any order and with any
      repetition, among any other packets of the claimants, binds every slot to its strongest claimant. */
  lemma SlotsConverge(claims: Claims, n: NodeState, ms: seq<Message>, os: seq<Oracle>)
    requires |ms| == |os| && DistinctEpochs(claims)
    requires NodeOk(n) && n.me !in claims && n.view.importing == map[] && claims.Keys <= n.view.nodes.Keys
    requires forall j | 0 <= j < SLOTS :: n.view.slots[j].None?
    requires forall c | c in claims :: n.view.nodes[c].configEpoch <= claims[c].epoch
    requires forall i | 0 <= i < |ms| :: Truthful(claims, n, ms[i])
    requires forall c | c in claims :: exists i | 0 <= i < |ms| :: ms[i].kind.Ping? && ms[i].src == c
    ensures var r := Observe(n, ms, os).view;
      |r.slots| == SLOTS && forall j | 0 <= j < SLOTS :: Strongest(claims, claims.Keys, j, r.slots[j])
  {
    ObserveLearns(claims, n, ms, os);
    forall c | c in claims
      ensures c in HeardIn(n, ms, os)
    {
      var i :| 0 <= i < |ms| && ms[i].kind.Ping? && ms[i].src == c;
      PingsAreHeard(n, ms, os, i);
    }
    assert HeardIn(n, ms, os) == claims.Keys;
  }

  /** The strongest claimant is one node: two observers end with the same table. */
  lemma StrongestIsUnique(claims: Claims, A: set<NodeId>, j: nat, o: Option<NodeId>, p: Option<NodeId>)
    requires DistinctEpochs(claims) && Strongest(claims, A, j, o) && Strongest(claims, A, j, p)
    ensures o == p
  {
  }
}
