/**
 One node of a Redis Cluster: what it knows about the other nodes, and the
 handlers that change it. Every handler is a function from the old node state
 to the new one; clocks, random delays and administrator options are arguments.
 Epochs are 64-bit counters in the source and unbounded here.
 */
module ClusterNode {
  import opened Common

  const SLOTS: nat := 16384

  /** Node names are compared with memcmp; only their order matters. */
  type NodeId = nat

  /** What a node remembers about one node of its table (itself included). */
  datatype Info = Info(isMaster: bool, slaveof: Option<NodeId>, configEpoch: nat, failed: bool, votedTime: int)

  /** The node table, the slot table, the slots being imported and the cluster size. */
  datatype View = View(nodes: map<NodeId, Info>, slots: seq<Option<NodeId>>, importing: map<nat, NodeId>, size: nat)

  datatype NodeState = NodeState(
    me: NodeId,
    currentEpoch: nat,
    lastVoteEpoch: nat,
    authEpoch: nat,
    authCount: nat,
    authSent: bool,
    authTime: int,
    authRank: nat,
    view: View)

  datatype Kind =
    | Ping
    | AuthRequest(forceAck: bool)
    | AuthAck
    | Update(about: NodeId, aboutEpoch: nat, aboutSlots: set<nat>)
    | Other

  /** The header every packet carries, and the body of the packets that have one. */
  datatype Message = Message(kind: Kind, src: NodeId, dst: NodeId, currentEpoch: nat, configEpoch: nat,
                             slaveof: Option<NodeId>, claims: set<nat>)

  function Max(a: nat, b: nat): nat {
    if a < b then b else a
  }

  // ----- the view -----

  /** Every owner and every master the view names is in its node table, and no master is a replica. */
  ghost predicate WellFormed(v: View, me: NodeId) {
    && me in v.nodes
    && |v.slots| == SLOTS
    && (v.nodes[me].isMaster || v.nodes[me].slaveof.Some?)
    && (forall x | x in v.nodes && v.nodes[x].isMaster :: v.nodes[x].slaveof.None?)
    && (forall x | x in v.nodes && v.nodes[x].slaveof.Some? :: v.nodes[x].slaveof.value in v.nodes)
    && (forall j | 0 <= j < |v.slots| && v.slots[j].Some? :: v.slots[j].value in v.nodes)
  }

  /** The bitmap of a node: the slots the table binds to it. */
  function SlotsOf(slots: seq<Option<NodeId>>, n: NodeId): set<nat> {
    set j: nat | j < |slots| && slots[j] == Some(n)
  }

  function NumSlots(v: View, n: NodeId): nat {
    |SlotsOf(v.slots, n)|
  }

  function SetInfo(v: View, n: NodeId, i: Info): View {
    v.(nodes := v.nodes[n := i])
  }

  function SetConfigEpoch(v: View, n: NodeId, e: nat): View
    requires n in v.nodes
  {
    SetInfo(v, n, v.nodes[n].(configEpoch := e))
  }

  /** clusterSetNodeAsMaster */
  function SetNodeAsMaster(v: View, n: NodeId): View
    requires n in v.nodes
  {
    if v.nodes[n].isMaster then v
    else SetInfo(v, n, v.nodes[n].(isMaster := true, slaveof := None))
  }

  /** Binds exactly the slots in 'moved' to 'owner'. */
  function BindSlots(slots: seq<Option<NodeId>>, moved: set<nat>, owner: Option<NodeId>): seq<Option<NodeId>> {
    seq(|slots|, j requires 0 <= j < |slots| => if j in moved then owner else slots[j])
  }

  /** clusterSetMaster: this node starts replicating 'n'; a master also closes its open slots. */
  function SetMaster(v: View, me: NodeId, n: NodeId): View
    requires me in v.nodes
  {
    SetInfo(v.(importing := if v.nodes[me].isMaster then map[] else v.importing), me,
            v.nodes[me].(isMaster := false, slaveof := Some(n)))
  }

  /** The slots the loop of clusterUpdateSlotsConfigWith rebinds to a sender claiming them at epoch e. */
  function Rebound(v: View, sender: NodeId, e: nat, claims: set<nat>): set<nat>
    requires forall j | 0 <= j < |v.slots| && v.slots[j].Some? :: v.slots[j].value in v.nodes
  {
    set j: nat | j in claims
              && j < |v.slots|
              && v.slots[j] != Some(sender)
              && j !in v.importing
              && (v.slots[j].None? || v.nodes[v.slots[j].value].configEpoch < e)
  }

  /** The master this node is, or replicates. */
  function CurMaster(v: View, me: NodeId): NodeId
    requires me in v.nodes
    requires v.nodes[me].isMaster || v.nodes[me].slaveof.Some?
  {
    if v.nodes[me].isMaster then me else v.nodes[me].slaveof.value
  }

  /** clusterUpdateSlotsConfigWith */
  function UpdateSlotsConfigWith(v: View, me: NodeId, sender: NodeId, e: nat, claims: set<nat>,
                                 allowMigration: bool): (r: View)
    requires WellFormed(v, me) && sender in v.nodes
    ensures WellFormed(r, me)
    ensures forall x :: x in r.nodes <==> x in v.nodes
    ensures forall x | x in v.nodes :: r.nodes[x].configEpoch == v.nodes[x].configEpoch
    ensures forall x | x in v.nodes && x != me :: r.nodes[x] == v.nodes[x]
    ensures r.size == v.size
    ensures if sender == me then r == v else r.slots == BindSlots(v.slots, Rebound(v, sender, e, claims), Some(sender))
  {
    if sender == me then v
    else
      var cur := CurMaster(v, me);
      var moved := Rebound(v, sender, e, claims);
      var v1 := v.(slots := BindSlots(v.slots, moved, Some(sender)));
      var ours := moved * SlotsOf(v.slots, cur);
      var served := set j: nat | j in claims && j < SLOTS;
      if ours != {} && NumSlots(v1, cur) == 0 && (allowMigration || |served| == |ours|)
      then SetMaster(v1, me, sender)
      else v1
  }

  /** The master this node is, or replicates, has lost a slot to the sender and has none left; and either replicas may
      migrate, or all the sender claims are slots it took from that master. */
  ghost predicate Replaced(v: View, r: View, me: NodeId, sender: NodeId, claims: set<nat>, allowMigration: bool)
    requires WellFormed(v, me) && WellFormed(r, me)
  {
    var cur := CurMaster(v, me);
    && cur != sender
    && (exists j | 0 <= j < SLOTS :: v.slots[j] == Some(cur) && r.slots[j] == Some(sender))
    && (forall j | 0 <= j < SLOTS :: r.slots[j] != Some(cur))
    && (allowMigration || forall j | j in claims && j < SLOTS :: v.slots[j] == Some(cur) && r.slots[j] == Some(sender))
  }

  /** A claim turns this node into a replica of the sender exactly when its master was replaced; otherwise the node stays
      what it is. */
  lemma TurnsReplicaIff(v: View, me: NodeId, sender: NodeId, e: nat, claims: set<nat>, allowMigration: bool)
    requires WellFormed(v, me) && sender in v.nodes && sender != me
    ensures var r := UpdateSlotsConfigWith(v, me, sender, e, claims, allowMigration);
      if Replaced(v, r, me, sender, claims, allowMigration)
      then r.nodes[me] == v.nodes[me].(isMaster := false, slaveof := Some(sender))
        && r.importing == if v.nodes[me].isMaster then map[] else v.importing
      else r.nodes[me] == v.nodes[me] && r.importing == v.importing
  {
    hide Rebound, BindSlots, SlotsOf;
    var r := UpdateSlotsConfigWith(v, me, sender, e, claims, allowMigration);
    var cur, moved := CurMaster(v, me), Rebound(v, sender, e, claims);
    var ours := moved * SlotsOf(v.slots, cur);
    var served := set j: nat | j in claims && j < SLOTS;
    MovedFromMaster(v, me, sender, e, claims, r.slots);
    SameSize(ours, served);
    EmptyIff(r.slots, cur);
  }

  /** What the loop counts: the slots that went from the master to the sender. */
  lemma MovedFromMaster(v: View, me: NodeId, sender: NodeId, e: nat, claims: set<nat>, slots: seq<Option<NodeId>>)
    requires WellFormed(v, me) && slots == BindSlots(v.slots, Rebound(v, sender, e, claims), Some(sender))
    ensures var cur := CurMaster(v, me); var ours := Rebound(v, sender, e, claims) * SlotsOf(v.slots, cur);
      && (cur == sender ==> ours == {})
      && (cur != sender ==> forall j: nat :: j in ours <==> j < SLOTS && v.slots[j] == Some(cur) && slots[j] == Some(sender))
      && ours <= set j: nat | j in claims && j < SLOTS
  {
  }

  lemma SameSize(a: set<nat>, b: set<nat>)
    requires a <= b
    ensures |a| == |b| <==> a == b
  {
    if a != b {
      SubsetSize(a, b);
      var x :| x in b && x !in a;
      SubsetSize(a, b - {x});
    }
  }

  lemma EmptyIff(slots: seq<Option<NodeId>>, n: NodeId)
    ensures |SlotsOf(slots, n)| == 0 <==> forall j | 0 <= j < |slots| :: slots[j] != Some(n)
  {
    assert forall j | 0 <= j < |slots| && slots[j] == Some(n) :: j in SlotsOf(slots, n);
  }

  /** The role switch a PING, PONG or MEET announces about its sender. */
  function SwitchRole(v: View, me: NodeId, sender: NodeId, slaveof: Option<NodeId>): (r: View)
    requires WellFormed(v, me) && sender in v.nodes && sender != me
    ensures WellFormed(r, me)
    ensures forall x :: x in r.nodes <==> x in v.nodes
    ensures forall x | x in v.nodes :: r.nodes[x].configEpoch == v.nodes[x].configEpoch
    ensures forall x | x in v.nodes && x != sender :: r.nodes[x] == v.nodes[x]
    ensures r.size == v.size && r.importing == v.importing
    ensures r.nodes[sender].isMaster <==> slaveof.None?
    ensures slaveof.Some? && slaveof.value in v.nodes ==> r.nodes[sender].slaveof == slaveof
    ensures |r.slots| == |v.slots| && forall j | 0 <= j < |v.slots| ::
      r.slots[j] == if slaveof.Some? && v.nodes[sender].isMaster && v.slots[j] == Some(sender) then None else v.slots[j]
  {
    match slaveof
    case None => SetNodeAsMaster(v, sender)
    case Some(master) =>
      var v1 := if v.nodes[sender].isMaster
                then SetInfo(v.(slots := BindSlots(v.slots, SlotsOf(v.slots, sender), None)), sender,
                             v.nodes[sender].(isMaster := false))
                else v;
      if master in v1.nodes && v1.nodes[sender].slaveof != Some(master)
      then SetInfo(v1, sender, v1.nodes[sender].(slaveof := Some(master)))
      else v1
  }

  // ----- epochs -----

  /** The epoch part of the packet handler, run for every packet of a known sender. */
  function SeeHeader(n: NodeState, m: Message): (r: NodeState)
    ensures WellFormed(n.view, n.me) ==> WellFormed(r.view, n.me)
  {
    if m.src !in n.view.nodes then n
    else n.(currentEpoch := Max(n.currentEpoch, m.currentEpoch),
            view := SetConfigEpoch(n.view, m.src, Max(n.view.nodes[m.src].configEpoch, m.configEpoch)))
  }

  /** e is what clusterGetMaxEpoch returns. */
  ghost predicate IsMaxEpoch(n: NodeState, e: nat) {
    && (forall x | x in n.view.nodes :: n.view.nodes[x].configEpoch <= e)
    && n.currentEpoch <= e
    && (e == n.currentEpoch || exists x | x in n.view.nodes :: n.view.nodes[x].configEpoch == e)
  }

  /** The next current epoch, taken as the own configuration epoch: shared by every unilateral bump. */
  function TakeNextEpoch(n: NodeState): NodeState
    requires n.me in n.view.nodes
  {
    n.(currentEpoch := n.currentEpoch + 1,
       view := SetConfigEpoch(n.view, n.me, n.currentEpoch + 1))
  }

  /** clusterBumpConfigEpochWithoutConsensus */
  ghost function BumpWithoutConsensus(n: NodeState): (r: NodeState)
    requires n.me in n.view.nodes
    ensures WellFormed(n.view, n.me) ==> WellFormed(r.view, n.me)
  {
    var mine := n.view.nodes[n.me].configEpoch;
    if mine == 0 || !IsMaxEpoch(n, mine) then TakeNextEpoch(n) else n
  }

  /** The guards of clusterHandleConfigEpochCollision and of its caller. */
  predicate Collides(n: NodeState, src: NodeId, headerEpoch: nat)
    requires n.me in n.view.nodes
  {
    && src in n.view.nodes
    && n.view.nodes[n.me].isMaster
    && n.view.nodes[src].isMaster
    && headerEpoch == n.view.nodes[n.me].configEpoch
    && n.view.nodes[src].configEpoch == n.view.nodes[n.me].configEpoch
    && n.me < src
  }

  // ----- packets -----

  /** What the packet handlers read from clocks, links and options. */
  datatype Oracle = Oracle(now: int, nodeTimeout: nat, linkUp: bool, allowMigration: bool)

  /** PING, PONG, MEET from a known sender, up to the collision check. */
  function ApplyConfig(n: NodeState, m: Message, o: Oracle): (r: NodeState)
    requires WellFormed(n.view, n.me) && m.src in n.view.nodes && m.src != n.me
    ensures WellFormed(r.view, n.me) && r == n.(view := r.view)
    ensures forall x :: x in r.view.nodes <==> x in n.view.nodes
    ensures forall x | x in n.view.nodes :: r.view.nodes[x].configEpoch == n.view.nodes[x].configEpoch
    ensures r.view.nodes[m.src].isMaster <==> m.slaveof.None?
    ensures r.view.size == n.view.size
  {
    var v1 := SwitchRole(n.view, n.me, m.src, m.slaveof);
    var owner := if v1.nodes[m.src].isMaster then Some(m.src) else v1.nodes[m.src].slaveof;
    var dirty := owner.Some? && SlotsOf(v1.slots, owner.value) != m.claims;
    if v1.nodes[m.src].isMaster && dirty
    then n.(view := UpdateSlotsConfigWith(v1, n.me, m.src, m.configEpoch, m.claims, o.allowMigration))
    else n.(view := v1)
  }

  /** Who has a slot after a claim at epoch e: the claimant takes it where it is free or held at a lower epoch and not being
      imported. */
  ghost function Claimed(v: View, sender: NodeId, e: nat, claims: set<nat>, j: nat): Option<NodeId>
    requires j < |v.slots| && (v.slots[j].Some? ==> v.slots[j].value in v.nodes)
  {
    if j in claims && j !in v.importing && (v.slots[j].None? || v.nodes[v.slots[j].value].configEpoch < e) then Some(sender)
    else v.slots[j]
  }

  /** After a PING a master has what it claims and can take, whether or not the packet was found to differ; a master that
      announces itself as a replica has nothing. */
  lemma ApplyConfigSlots(n: NodeState, m: Message, o: Oracle, j: nat)
    requires WellFormed(n.view, n.me) && m.src in n.view.nodes && m.src != n.me && j < SLOTS
    ensures ApplyConfig(n, m, o).view.slots[j] ==
      if m.slaveof.None? then Claimed(n.view, m.src, m.configEpoch, m.claims, j)
      else if n.view.nodes[m.src].isMaster && n.view.slots[j] == Some(m.src) then None
      else n.view.slots[j]
  {
    hide UpdateSlotsConfigWith, SwitchRole;
    var v1 := SwitchRole(n.view, n.me, m.src, m.slaveof);
    if m.slaveof.None? {
      assert SlotsOf(v1.slots, m.src) == m.claims && j in m.claims ==> v1.slots[j] == Some(m.src);
    }
  }

  /** The whole PING, PONG, MEET branch. */
  function ReceivePing(n: NodeState, m: Message, o: Oracle): NodeState
    requires WellFormed(n.view, n.me) && m.src != n.me
  {
    if m.src !in n.view.nodes then n
    else
      var n1 := ApplyConfig(n, m, o);
      if Collides(n1, m.src, m.configEpoch) then TakeNextEpoch(n1) else n1
  }

  /** The UPDATE branch: a configuration of 'about' reported by a third node. */
  function ReceiveUpdate(n: NodeState, m: Message, o: Oracle): (r: NodeState)
    requires WellFormed(n.view, n.me) && m.kind.Update?
    ensures WellFormed(r.view, n.me) && r == n.(view := r.view)
    ensures forall x :: x in r.view.nodes <==> x in n.view.nodes
    ensures forall x | x in n.view.nodes ::
      r.view.nodes[x].configEpoch ==
      if m.src in n.view.nodes && x == m.kind.about then Max(n.view.nodes[x].configEpoch, m.kind.aboutEpoch)
      else n.view.nodes[x].configEpoch
    ensures r.view.size == n.view.size
  {
    var about, e := m.kind.about, m.kind.aboutEpoch;
    if m.src !in n.view.nodes || about !in n.view.nodes || n.view.nodes[about].configEpoch >= e then n
    else
      var v1 := SetConfigEpoch(SetNodeAsMaster(n.view, about), about, e);
      n.(view := UpdateSlotsConfigWith(v1, n.me, about, e, m.kind.aboutSlots, o.allowMigration))
  }

  /** An UPDATE counts exactly when it is news about a known node from a known one: that node is then a master at the
      reported epoch and has the slots it can take, unless it is the receiver itself. */
  lemma ReceiveUpdateApplies(n: NodeState, m: Message, o: Oracle, j: nat)
    requires WellFormed(n.view, n.me) && m.kind.Update? && j < SLOTS
    ensures var r, about, e := ReceiveUpdate(n, m, o), m.kind.about, m.kind.aboutEpoch;
      if m.src in n.view.nodes && about in n.view.nodes && n.view.nodes[about].configEpoch < e
      then
        && r.view.nodes[about].isMaster && r.view.nodes[about].configEpoch == e
        && r.view.slots[j] == (if about == n.me || n.view.slots[j] == Some(about) then n.view.slots[j]
                               else Claimed(n.view, about, e, m.kind.aboutSlots, j))
      else r == n
  {
    hide UpdateSlotsConfigWith;
  }

  /** The test clusterSendFailoverAuthIfNeeded makes before voting. */
  predicate Grants(n: NodeState, m: Message, o: Oracle)
    requires WellFormed(n.view, n.me) && m.kind.AuthRequest?
  {
    && n.view.nodes[n.me].isMaster && NumSlots(n.view, n.me) > 0
    && n.currentEpoch <= m.currentEpoch
    && n.lastVoteEpoch != n.currentEpoch
    && m.src in n.view.nodes
    && !n.view.nodes[m.src].isMaster
    && n.view.nodes[m.src].slaveof.Some?
    && (n.view.nodes[n.view.nodes[m.src].slaveof.value].failed || m.kind.forceAck)
    && o.now - n.view.nodes[n.view.nodes[m.src].slaveof.value].votedTime >= o.nodeTimeout * 2
    && (forall j | j in m.claims && j < SLOTS ::
          n.view.slots[j].None? || n.view.nodes[n.view.slots[j].value].configEpoch <= m.configEpoch)
  }

  /** The master of a replica that got a vote remembers when. */
  function NoteVote(v: View, replica: NodeId, now: int): View
    requires replica in v.nodes && v.nodes[replica].slaveof.Some? && v.nodes[replica].slaveof.value in v.nodes
  {
    var master := v.nodes[replica].slaveof.value;
    SetInfo(v, master, v.nodes[master].(votedTime := now))
  }

  function ReceiveRequest(n: NodeState, m: Message, o: Oracle): NodeState
    requires WellFormed(n.view, n.me) && m.kind.AuthRequest?
  {
    if Grants(n, m, o) then n.(lastVoteEpoch := n.currentEpoch, view := NoteVote(n.view, m.src, o.now)) else n
  }

  /** The test of the FAILOVER_AUTH_ACK branch. */
  predicate CountsVote(n: NodeState, m: Message) {
    && m.src in n.view.nodes
    && n.view.nodes[m.src].isMaster
    && NumSlots(n.view, m.src) > 0
    && n.authEpoch <= m.currentEpoch
  }

  function ReceiveAck(n: NodeState, m: Message): NodeState {
    if CountsVote(n, m) then n.(authCount := n.authCount + 1) else n
  }

  /** The body of the packet, once the header has been seen. */
  function ReceiveBody(n: NodeState, m: Message, o: Oracle): NodeState
    requires WellFormed(n.view, n.me) && m.src != n.me
  {
    match m.kind
    case Ping => ReceivePing(n, m, o)
    case AuthRequest(_) => ReceiveRequest(n, m, o)
    case AuthAck => ReceiveAck(n, m)
    case Update(_, _, _) => ReceiveUpdate(n, m, o)
    case Other => n
  }

  /** clusterProcessPacket */
  function Receive(n: NodeState, m: Message, o: Oracle): NodeState
    requires WellFormed(n.view, n.me) && m.src != n.me
  {
    ReceiveBody(SeeHeader(n, m), m, o)
  }

  /** clusterBuildMessageHdr: a replica announces the slots and the epoch of its master. */
  function Header(n: NodeState, kind: Kind, dst: NodeId): Message
    requires WellFormed(n.view, n.me)
  {
    var master := CurMaster(n.view, n.me);
    Message(kind, n.me, dst, n.currentEpoch, n.view.nodes[master].configEpoch,
            n.view.nodes[n.me].slaveof, SlotsOf(n.view.slots, master))
  }

  // ----- failover -----

  /** What clusterHandleSlaveFailover reads from the clock, the options and the replication state. */
  datatype Env = Env(now: int, nodeTimeout: nat, mfEnd: bool, mfCanStart: bool, noFailover: bool,
                     dataTooOld: bool, rank: nat, random: nat)

  datatype Outcome = NotNeeded | DataTooOld | Scheduled | Waiting | Expired | Requested | Won | WaitingVotes

  /** clusterFailoverReplaceYourMaster */
  function ReplaceMaster(n: NodeState): (r: NodeState)
    requires WellFormed(n.view, n.me)
    ensures WellFormed(r.view, n.me) && r == n.(view := r.view)
    ensures forall x :: x in r.view.nodes <==> x in n.view.nodes
    ensures forall x | x in n.view.nodes :: r.view.nodes[x].configEpoch == n.view.nodes[x].configEpoch
    ensures r.view.nodes[n.me].isMaster
    ensures |r.view.slots| == |n.view.slots| && forall j | 0 <= j < |n.view.slots| ::
      r.view.slots[j] == if !n.view.nodes[n.me].isMaster && n.view.slots[j] == n.view.nodes[n.me].slaveof then Some(n.me)
                         else n.view.slots[j]
  {
    if n.view.nodes[n.me].isMaster then n
    else
      var oldMaster := n.view.nodes[n.me].slaveof.value;
      var v1 := SetNodeAsMaster(n.view, n.me);
      n.(view := v1.(slots := BindSlots(v1.slots, SlotsOf(v1.slots, oldMaster), Some(n.me))))
  }

  function NeededQuorum(size: nat): nat {
    size / 2 + 1
  }

  /** The replica reached the quorum: it takes the election's epoch and its master's slots. */
  function WinElection(n: NodeState): NodeState
    requires WellFormed(n.view, n.me)
  {
    ReplaceMaster(n.(view := SetConfigEpoch(n.view, n.me, Max(n.view.nodes[n.me].configEpoch, n.authEpoch))))
  }

  function Schedule(n: NodeState, env: Env): NodeState {
    if env.mfEnd then n.(authCount := 0, authSent := false, authTime := env.now, authRank := 0)
    else n.(authCount := 0, authSent := false, authRank := env.rank,
            authTime := env.now + 500 + env.random % 500 + env.rank * 1000)
  }

  /** A worse rank than when the election was scheduled delays it further. */
  function Rerank(n: NodeState, env: Env): NodeState {
    if !n.authSent && !env.mfEnd && env.rank > n.authRank
    then n.(authTime := n.authTime + (env.rank - n.authRank) * 1000, authRank := env.rank)
    else n
  }

  /** clusterHandleSlaveFailover */
  function HandleSlaveFailover(n: NodeState, env: Env): (NodeState, Outcome)
    requires WellFormed(n.view, n.me)
  {
    var authAge := env.now - n.authTime;
    var authTimeout := if env.nodeTimeout * 2 < 2000 then 2000 else env.nodeTimeout * 2;
    var manual := env.mfEnd && env.mfCanStart;
    var info := n.view.nodes[n.me];
    if info.isMaster || info.slaveof.None?
       || (!n.view.nodes[info.slaveof.value].failed && !manual)
       || (env.noFailover && !manual)
       || NumSlots(n.view, info.slaveof.value) == 0 then (n, NotNeeded)
    else if env.dataTooOld && !manual then (n, DataTooOld)
    else if authAge > authTimeout * 2 then (Schedule(n, env), Scheduled)
    else
      var n1 := Rerank(n, env);
      if env.now < n1.authTime then (n1, Waiting)
      else if authAge > authTimeout then (n1, Expired)
      else if !n1.authSent then
        (n1.(currentEpoch := n1.currentEpoch + 1, authEpoch := n1.currentEpoch + 1, authSent := true), Requested)
      else if n1.authCount >= NeededQuorum(n1.view.size) then (WinElection(n1), Won)
      else (n1, WaitingVotes)
  }

  // ----- administration and failure detection -----

  /** CLUSTER FAILOVER TAKEOVER */
  ghost function Takeover(n: NodeState): NodeState
    requires WellFormed(n.view, n.me)
  {
    ReplaceMaster(BumpWithoutConsensus(n))
  }

  /** clusterAddNode of a node created by a handshake: epoch zero, no slots, no master. */
  function AddNode(v: View, x: NodeId, isMaster: bool): View {
    if x in v.nodes then v else SetInfo(v, x, Info(isMaster, None, 0, false, 0))
  }

  /** clusterDelNode: its slots and imports are released and its replicas orphaned. */
  function DelNode(v: View, x: NodeId): View {
    var kept := map y | y in v.nodes && y != x ::
                  if v.nodes[y].slaveof == Some(x) then v.nodes[y].(slaveof := None) else v.nodes[y];
    v.(nodes := kept, slots := BindSlots(v.slots, SlotsOf(v.slots, x), None),
       importing := map j | j in v.importing && v.importing[j] != x :: v.importing[j])
  }

  /** The cluster size of clusterUpdateState: masters serving at least one slot. */
  function ServingMasters(v: View): set<NodeId> {
    set x | x in v.nodes && v.nodes[x].isMaster && NumSlots(v, x) > 0
  }
}
