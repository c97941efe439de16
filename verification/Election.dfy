/**
 Failover elections. The vote count a replica compares with the quorum is reset
 when an attempt is scheduled, not when it starts, so votes for an earlier
 attempt can be counted in between. The module proves what the count means in
 every run, and that a clean start makes every won epoch unique.
 */
module Election {
  import opened Common
  import opened ClusterNode
  import opened Cluster

  /** Bookkeeping that follows a run: who voted for whom, whose votes the current
      attempt of each replica has counted, and how many votes it started with. */
  datatype Book = Book(votes: map<(NodeId, nat), NodeId>, tally: map<NodeId, set<NodeId>>, stale: map<NodeId, nat>)

  ghost predicate CastsVote(s: Cluster, a: Action) {
    Inv(s) && Enabled(s, a) && a.Deliver? && Votes(s.nodes[a.m.dst], a.m, a.o)
  }

  ghost predicate CountsAck(s: Cluster, a: Action) {
    Inv(s) && Enabled(s, a) && a.Deliver? && a.m.kind.AuthAck? && CountsVote(SeeHeader(s.nodes[a.m.dst], a.m), a.m)
  }

  ghost predicate Starts(s: Cluster, a: Action) {
    Inv(s) && Enabled(s, a) && a.Failover? && HandleSlaveFailover(s.nodes[a.id], a.env).1.Requested?
  }

  /** This action makes its node win the election of epoch e. */
  ghost predicate Wins(s: Cluster, a: Action, e: nat) {
    Inv(s) && Enabled(s, a) && a.Failover? && HandleSlaveFailover(s.nodes[a.id], a.env).1.Won? && s.nodes[a.id].authEpoch == e
  }

  ghost function Track(b: Book, s: Cluster, a: Action): Book
    requires Inv(s) && Enabled(s, a)
  {
    if CastsVote(s, a) then
      b.(votes := b.votes[(a.m.dst, SeeHeader(s.nodes[a.m.dst], a.m).currentEpoch) := a.m.src])
    else if CountsAck(s, a) && s.nodes[a.m.dst].authSent && a.m.dst in b.tally then
      b.(tally := b.tally[a.m.dst := b.tally[a.m.dst] + {a.m.src}])
    else if Starts(s, a) then
      b.(tally := b.tally[a.id := {}], stale := b.stale[a.id := s.nodes[a.id].authCount])
    else b
  }

  ghost predicate VotesOk(s: Cluster, b: Book)
    requires Inv(s)
  {
    forall v, e | (v, e) in b.votes ::
      && v in s.nodes && e <= s.nodes[v].lastVoteEpoch
      && b.votes[(v, e)] in s.nodes && e <= s.nodes[b.votes[(v, e)]].authEpoch
  }

  ghost predicate RequestsOk(s: Cluster)
    requires Inv(s)
  {
    forall m | m in s.net && m.kind.AuthRequest? :: m.currentEpoch <= s.nodes[m.src].authEpoch
  }

  /** A vote on its way to the candidate: cast, and not yet counted. */
  ghost predicate AckOk(s: Cluster, b: Book, m: Message) {
    && (m.src, m.currentEpoch) in b.votes && b.votes[(m.src, m.currentEpoch)] == m.dst
    && s.net[m] == 1
    && m.dst in s.nodes && m.dst in b.tally
    && (s.nodes[m.dst].authSent && s.nodes[m.dst].authEpoch == m.currentEpoch ==> m.src !in b.tally[m.dst])
  }

  ghost predicate AcksOk(s: Cluster, b: Book) {
    && (forall m | m in s.net && m.kind.AuthAck? :: AckOk(s, b, m))
    && (forall m, m' | m in s.net && m' in s.net && m.kind.AuthAck? && m'.kind.AuthAck?
                    && m.src == m'.src && m.currentEpoch == m'.currentEpoch :: m == m')
  }

  /** The count of a running attempt: the votes it started with plus one per voter of its own epoch. */
  ghost predicate CountOk(x: NodeId, n: NodeState, b: Book) {
    && x in b.tally && x in b.stale
    && (n.authSent ==>
          && n.authCount == |b.tally[x]| + b.stale[x]
          && forall v | v in b.tally[x] :: (v, n.authEpoch) in b.votes && b.votes[(v, n.authEpoch)] == x)
  }

  ghost predicate BookOk(s: Cluster, b: Book) {
    && Inv(s)
    && VotesOk(s, b)
    && RequestsOk(s)
    && AcksOk(s, b)
    && forall x | x in s.nodes :: CountOk(x, s.nodes[x], b)
  }

  // ----- one step -----

  ghost function Ballot(n: NodeState): (nat, nat, nat, bool) {
    (n.lastVoteEpoch, n.authEpoch, n.authCount, n.authSent)
  }

  /** Only vote requests, votes and the failover handler touch the ballot or send ballot packets. */
  ghost predicate Quiet(a: Action) {
    !a.Failover? && !(a.Deliver? && (a.m.kind.AuthRequest? || a.m.kind.AuthAck?))
  }

  lemma QuietFrame(n: NodeState, a: Action)
    requires NodeOk(n) && Legal(n, a) && Quiet(a)
    ensures Ballot(Local(n, a)) == Ballot(n)
    ensures forall m | m in Sent(n, a) :: !m.kind.AuthRequest? && !m.kind.AuthAck?
  {
    hide Local, Sent, Ballot;
    QuietLocal(n, a);
    QuietSent(n, a);
  }

  lemma QuietLocal(n: NodeState, a: Action)
    requires NodeOk(n) && Legal(n, a) && Quiet(a)
    ensures Ballot(Local(n, a)) == Ballot(n)
  {
  }

  lemma QuietSent(n: NodeState, a: Action)
    requires NodeOk(n) && Legal(n, a) && Quiet(a)
    ensures forall m | m in Sent(n, a) :: !m.kind.AuthRequest? && !m.kind.AuthAck?
  {
  }

  ghost predicate BallotPacket(m: Message) {
    m.kind.AuthRequest? || m.kind.AuthAck?
  }

  /** A state with the same ballots and no new ballot packet keeps the books. */
  lemma SameBallots(s: Cluster, b: Book, t: Cluster)
    requires BookOk(s, b) && Inv(t) && t.nodes.Keys == s.nodes.Keys
    requires forall x | x in s.nodes :: Ballot(t.nodes[x]) == Ballot(s.nodes[x])
    requires forall m | m in t.net && BallotPacket(m) :: m in s.net && t.net[m] <= s.net[m]
    ensures BookOk(t, b)
  {
    hide NodeOk, MessageOk;
    SameBallotsAcks(s, b, t);
    forall x | x in t.nodes
      ensures CountOk(x, t.nodes[x], b)
    {
      assert CountOk(x, s.nodes[x], b) && Ballot(t.nodes[x]) == Ballot(s.nodes[x]);
    }
    assert forall x | x in s.nodes :: Ballot(t.nodes[x]).0 == Ballot(s.nodes[x]).0 && Ballot(t.nodes[x]).1 == Ballot(s.nodes[x]).1;
    assert forall m | m in t.net && m.kind.AuthRequest? :: BallotPacket(m);
    hide CountOk, AcksOk, Ballot;
  }

  lemma SameBallotsAcks(s: Cluster, b: Book, t: Cluster)
    requires AcksOk(s, b) && t.nodes.Keys == s.nodes.Keys
    requires forall x | x in s.nodes :: Ballot(t.nodes[x]) == Ballot(s.nodes[x])
    requires forall m | m in t.net && BallotPacket(m) :: m in s.net && t.net[m] <= s.net[m]
    ensures AcksOk(t, b)
  {
    forall m | m in t.net && m.kind.AuthAck?
      ensures AckOk(t, b, m) && m in s.net
    {
      assert BallotPacket(m);
      assert AckOk(s, b, m);
      assert Ballot(t.nodes[m.dst]) == Ballot(s.nodes[m.dst]);
    }
  }

  lemma QuietApply(s: Cluster, a: Action)
    requires Inv(s) && Enabled(s, a) && Quiet(a)
    ensures var t := Apply(s, a);
      && t.nodes.Keys == s.nodes.Keys
      && (forall x | x in s.nodes :: Ballot(t.nodes[x]) == Ballot(s.nodes[x]))
      && (forall m | m in t.net && BallotPacket(m) :: m in s.net && t.net[m] <= s.net[m])
  {
    hide Local, Sent, NodeOk, MessageOk, Legal, Quiet;
    QuietFrame(s.nodes[Actor(a)], a);
    LocalKeepsNodeOk(s.nodes[Actor(a)], a);
  }

  lemma QuietTrack(s: Cluster, b: Book, a: Action)
    requires Inv(s) && Enabled(s, a) && Quiet(a)
    ensures Track(b, s, a) == b
  {
    hide Inv, HandleSlaveFailover, SeeHeader;
  }

  lemma BookInv(s: Cluster, b: Book)
    requires BookOk(s, b)
    ensures Inv(s)
  {
    hide VotesOk, RequestsOk, AcksOk, CountOk, Inv;
  }

  lemma QuietStep(s: Cluster, b: Book, a: Action)
    requires BookOk(s, b) && Enabled(s, a) && Quiet(a)
    ensures BookOk(Apply(s, a), Track(b, s, a))
  {
    hide Apply, Local, Track, Legal, Enabled, Inv, Ballot, BallotPacket, BookOk;
    BookInv(s, b);
    QuietTrack(s, b, a);
    QuietApply(s, a);
    ApplyKeepsInv(s, a);
    SameBallots(s, b, Apply(s, a));
  }

  /** A vote: a new entry in the votes, and at most one new ballot packet carrying it. */
  ghost predicate VoteApplied(s: Cluster, t: Cluster, v: NodeId, c: NodeId, e: nat)
    requires t.nodes.Keys == s.nodes.Keys
  {
    && v in s.nodes && c in s.nodes && s.nodes[v].lastVoteEpoch < e
    && (forall x | x in s.nodes ::
          Ballot(t.nodes[x]) == if x == v then Ballot(s.nodes[x].(lastVoteEpoch := e)) else Ballot(s.nodes[x]))
    && exists ack: Message ::
         && ack.kind.AuthAck? && ack.src == v && ack.dst == c && ack.currentEpoch == e
         && forall p | p in t.net && BallotPacket(p) :: t.net[p] <= (s.net + multiset{ack})[p]
  }

  lemma VoteKeepsVotes(s: Cluster, b: Book, t: Cluster, v: NodeId, c: NodeId, e: nat)
    requires BookOk(s, b) && Inv(t) && t.nodes.Keys == s.nodes.Keys && VoteApplied(s, t, v, c, e)
    requires e <= s.nodes[c].authEpoch
    ensures (v, e) !in b.votes
    ensures VotesOk(t, b.(votes := b.votes[(v, e) := c])) && RequestsOk(t)
  {
    hide NodeOk, MessageOk, AcksOk, CountOk;
    assert forall x | x in s.nodes :: Ballot(t.nodes[x]).1 == Ballot(s.nodes[x]).1;
  }

  /** One of the acknowledgements in flight after a vote: an old one, or the new one. */
  lemma AckAfterVote(s: Cluster, b: Book, t: Cluster, v: NodeId, c: NodeId, e: nat, ack: Message, p: Message)
    requires AcksOk(s, b) && t.nodes.Keys == s.nodes.Keys && c in s.nodes && CountOk(c, s.nodes[c], b) && (v, e) !in b.votes
    requires forall x | x in s.nodes :: Ballot(t.nodes[x]).1 == Ballot(s.nodes[x]).1 && Ballot(t.nodes[x]).3 == Ballot(s.nodes[x]).3
    requires ack.kind.AuthAck? && ack.src == v && ack.dst == c && ack.currentEpoch == e
    requires p in t.net && p.kind.AuthAck? && t.net[p] <= (s.net + multiset{ack})[p]
    ensures (p in s.net && p != ack) || (p == ack && p !in s.net)
    ensures AckOk(t, b.(votes := b.votes[(v, e) := c]), p)
  {
    assert forall m | m in {ack, p} && m in s.net :: AckOk(s, b, m);
  }

  lemma VoteKeepsAcks(s: Cluster, b: Book, t: Cluster, v: NodeId, c: NodeId, e: nat)
    requires BookOk(s, b) && t.nodes.Keys == s.nodes.Keys && VoteApplied(s, t, v, c, e)
    requires (v, e) !in b.votes
    ensures AcksOk(t, b.(votes := b.votes[(v, e) := c]))
  {
    hide Inv, VotesOk, RequestsOk, AckOk, CountOk;
    var b' := b.(votes := b.votes[(v, e) := c]);
    var ack: Message :|
      && ack.kind.AuthAck? && ack.src == v && ack.dst == c && ack.currentEpoch == e
      && forall p | p in t.net && BallotPacket(p) :: t.net[p] <= (s.net + multiset{ack})[p];
    forall p | p in t.net && p.kind.AuthAck?
      ensures (p in s.net && p != ack) || (p == ack && p !in s.net)
      ensures AckOk(t, b', p)
    {
      assert BallotPacket(p);
      AckAfterVote(s, b, t, v, c, e, ack, p);
    }
    OneAckEach(s, b, t, v, e, ack);
  }

  lemma OneAckEach(s: Cluster, b: Book, t: Cluster, v: NodeId, e: nat, ack: Message)
    requires AcksOk(s, b) && (v, e) !in b.votes && ack.src == v && ack.currentEpoch == e
    requires forall p | p in t.net && p.kind.AuthAck? :: p in s.net || p == ack
    ensures forall m, m' | m in t.net && m' in t.net && m.kind.AuthAck? && m'.kind.AuthAck?
                        && m.src == m'.src && m.currentEpoch == m'.currentEpoch :: m == m'
  {
    assert forall p | p in s.net && p.kind.AuthAck? :: AckOk(s, b, p);
  }

  lemma VoteKeepsCount(s: Cluster, b: Book, t: Cluster, v: NodeId, c: NodeId, e: nat, x: NodeId)
    requires t.nodes.Keys == s.nodes.Keys && VoteApplied(s, t, v, c, e) && (v, e) !in b.votes
    requires x in s.nodes && CountOk(x, s.nodes[x], b)
    ensures CountOk(x, t.nodes[x], b.(votes := b.votes[(v, e) := c]))
  {
    assert Ballot(t.nodes[x]) == if x == v then Ballot(s.nodes[x].(lastVoteEpoch := e)) else Ballot(s.nodes[x]);
  }

  lemma VoteKeeps(s: Cluster, b: Book, t: Cluster, v: NodeId, c: NodeId, e: nat)
    requires BookOk(s, b) && Inv(t) && t.nodes.Keys == s.nodes.Keys && VoteApplied(s, t, v, c, e)
    requires e <= s.nodes[c].authEpoch
    ensures BookOk(t, b.(votes := b.votes[(v, e) := c]))
  {
    hide NodeOk, MessageOk, AcksOk, VotesOk, RequestsOk, CountOk, VoteApplied;
    VoteKeepsVotes(s, b, t, v, c, e);
    VoteKeepsAcks(s, b, t, v, c, e);
    forall x | x in t.nodes
      ensures CountOk(x, t.nodes[x], b.(votes := b.votes[(v, e) := c]))
    {
      VoteKeepsCount(s, b, t, v, c, e, x);
    }
  }

  lemma VoteApply(s: Cluster, a: Action)
    requires Inv(s) && Enabled(s, a) && CastsVote(s, a)
    ensures var t := Apply(s, a);
      && t.nodes.Keys == s.nodes.Keys
      && a.m.src in s.nodes
      && SeeHeader(s.nodes[a.m.dst], a.m).currentEpoch == a.m.currentEpoch
      && VoteApplied(s, t, a.m.dst, a.m.src, a.m.currentEpoch)
  {
    hide *;
    CastIsDelivery(s, a);
    Delivery(s, a);
    DeliverIs(s, a);
    VoteLocal(s.nodes[a.m.dst], a.m, a.o);
    OneMore(s, Apply(s, a), a.m, VoteOf(s.nodes[a.m.dst], a.m, a.o));
  }

  /** The acknowledgement of a vote. */
  ghost function VoteOf(n: NodeState, m: Message, o: Oracle): (ack: Message)
    requires NodeOk(n) && MessageOk(m) && m.dst == n.me
    ensures ack.kind.AuthAck? && ack.src == n.me && ack.dst == m.src
  {
    ReceiveKeepsNodeOk(n, m, o);
    Header(Receive(n, m, o), AuthAck, m.src)
  }

  lemma OneMore(s: Cluster, t: Cluster, m: Message, ack: Message)
    requires t.nodes.Keys == s.nodes.Keys && m.dst in s.nodes && m.src in s.nodes && s.nodes[m.dst].lastVoteEpoch < m.currentEpoch
    requires t.net == s.net - multiset{m} || t.net == s.net - multiset{m} + multiset{ack}
    requires ack.kind.AuthAck? && ack.src == m.dst && ack.dst == m.src && ack.currentEpoch == m.currentEpoch
    requires Ballot(t.nodes[m.dst]) == Ballot(s.nodes[m.dst].(lastVoteEpoch := m.currentEpoch))
    requires forall x | x in s.nodes && x != m.dst :: t.nodes[x] == s.nodes[x]
    ensures VoteApplied(s, t, m.dst, m.src, m.currentEpoch)
  {
    assert forall p :: t.net[p] <= (s.net + multiset{ack})[p];
  }

  lemma CastIsDelivery(s: Cluster, a: Action)
    requires CastsVote(s, a)
    ensures a.Deliver?
  {
    hide Inv, Enabled, Votes;
  }

  lemma VoteLocal(n: NodeState, m: Message, o: Oracle)
    requires NodeOk(n) && MessageOk(m) && m.dst == n.me && Votes(n, m, o)
    ensures var r := Receive(n, m, o);
      && SeeHeader(n, m).currentEpoch == r.currentEpoch == m.currentEpoch
      && n.lastVoteEpoch < m.currentEpoch
      && Ballot(r) == Ballot(n.(lastVoteEpoch := m.currentEpoch))
      && VoteOf(n, m, o) == (ReceiveKeepsNodeOk(n, m, o); Header(r, AuthAck, m.src)) && VoteOf(n, m, o).currentEpoch == m.currentEpoch
  {
  }

  lemma RefusalLocal(n: NodeState, m: Message, o: Oracle)
    requires NodeOk(n) && MessageOk(m) && m.dst == n.me && m.kind.AuthRequest? && !Votes(n, m, o)
    ensures Ballot(Receive(n, m, o)) == Ballot(n)
  {
  }

  /** A request that is refused changes no ballot and sends nothing. */
  lemma RefusalApply(s: Cluster, a: Action)
    requires Inv(s) && Enabled(s, a) && a.Deliver? && a.m.kind.AuthRequest? && !CastsVote(s, a)
    ensures var t := Apply(s, a);
      && t.nodes.Keys == s.nodes.Keys
      && (forall x | x in s.nodes :: Ballot(t.nodes[x]) == Ballot(s.nodes[x]))
      && (forall m | m in t.net && BallotPacket(m) :: m in s.net && t.net[m] <= s.net[m])
  {
    hide *;
    Delivery(s, a);
    DeliverIs(s, a);
    RefusalLocal(s.nodes[a.m.dst], a.m, a.o);
  }

  lemma RequestStep(s: Cluster, b: Book, a: Action)
    requires BookOk(s, b) && Enabled(s, a) && a.Deliver? && a.m.kind.AuthRequest?
    ensures BookOk(Apply(s, a), Track(b, s, a))
  {
    ApplyKeepsInv(s, a);
    if CastsVote(s, a) {
      VoteApply(s, a);
      assert a.m.currentEpoch <= s.nodes[a.m.src].authEpoch;
      hide Apply, Local, VotesOk, RequestsOk, AcksOk, CountOk, VoteApplied, CastsVote, SeeHeader;
      VoteKeeps(s, b, Apply(s, a), a.m.dst, a.m.src, a.m.currentEpoch);
    } else {
      RefusalApply(s, a);
      assert Track(b, s, a) == b;
      hide Apply, Local, Track, VotesOk, RequestsOk, AcksOk, CountOk;
      SameBallots(s, b, Apply(s, a));
    }
  }

  // ----- counting a vote -----

  lemma AckLocal(n: NodeState, m: Message, o: Oracle)
    requires NodeOk(n) && MessageOk(m) && m.dst == n.me && m.kind.AuthAck?
    ensures Ballot(Receive(n, m, o)) ==
      if CountsVote(SeeHeader(n, m), m) then (n.lastVoteEpoch, n.authEpoch, n.authCount + 1, n.authSent) else Ballot(n)
  {
  }

  /** The facts about a packet that can be delivered. */
  lemma Delivery(s: Cluster, a: Action)
    requires Inv(s) && Enabled(s, a) && a.Deliver?
    ensures a.m in s.net && a.m.src in s.nodes && a.m.dst in s.nodes && MessageOk(a.m)
    ensures NodeOk(s.nodes[a.m.dst]) && s.nodes[a.m.dst].me == a.m.dst
    ensures CastsVote(s, a) <==> Votes(s.nodes[a.m.dst], a.m, a.o)
    ensures CountsAck(s, a) <==> a.m.kind.AuthAck? && CountsVote(SeeHeader(s.nodes[a.m.dst], a.m), a.m)
  {
    hide Votes, CountsVote, SeeHeader;
  }

  lemma AckApply(s: Cluster, a: Action)
    requires Inv(s) && Enabled(s, a) && a.Deliver? && a.m.kind.AuthAck?
    ensures var t := Apply(s, a);
      && t.nodes.Keys == s.nodes.Keys
      && t.net == s.net - multiset{a.m}
      && (forall x | x in s.nodes && x != a.m.dst :: t.nodes[x] == s.nodes[x])
      && Ballot(t.nodes[a.m.dst]) ==
           var n := s.nodes[a.m.dst];
           if CountsAck(s, a) then (n.lastVoteEpoch, n.authEpoch, n.authCount + 1, n.authSent) else Ballot(n)
  {
    hide *;
    Delivery(s, a);
    DeliverIs(s, a);
    AckLocal(s.nodes[a.m.dst], a.m, a.o);
    AcksCastNoVote(s.nodes[a.m.dst], a.m, a.o);
  }

  lemma AcksCastNoVote(n: NodeState, m: Message, o: Oracle)
    requires NodeOk(n) && !m.kind.AuthRequest?
    ensures !Votes(n, m, o)
  {
  }

  /** One vote leaves the wire; if it is counted by a running attempt its voter joins the tally. */
  ghost predicate AckTaken(s: Cluster, b: Book, t: Cluster, b': Book, m: Message, counted: bool) {
    && m in s.net && m.kind.AuthAck? && m.dst in s.nodes && m.dst in b.tally
    && t.nodes.Keys == s.nodes.Keys
    && t.net == s.net - multiset{m}
    && (forall x | x in s.nodes && x != m.dst :: t.nodes[x] == s.nodes[x])
    && (var n := s.nodes[m.dst];
        && Ballot(t.nodes[m.dst]) ==
             (n.lastVoteEpoch, n.authEpoch, if counted then n.authCount + 1 else n.authCount, n.authSent)
        && (counted ==> m.currentEpoch == n.authEpoch)
        && b' == if counted && n.authSent then b.(tally := b.tally[m.dst := b.tally[m.dst] + {m.src}]) else b)
  }

  lemma AckTakenKeepsAcks(s: Cluster, b: Book, t: Cluster, b': Book, m: Message, counted: bool)
    requires AckTaken(s, b, t, b', m, counted) && AcksOk(s, b)
    ensures AcksOk(t, b')
  {
    assert AckOk(s, b, m);
    forall p | p in t.net && p.kind.AuthAck?
      ensures AckOk(t, b', p)
    {
      assert AckOk(s, b, p);
      assert p != m;
    }
  }

  lemma AckTakenKeepsVotes(s: Cluster, b: Book, t: Cluster, b': Book, m: Message, counted: bool)
    requires AckTaken(s, b, t, b', m, counted) && Inv(s) && Inv(t) && VotesOk(s, b) && RequestsOk(s)
    ensures VotesOk(t, b') && RequestsOk(t)
  {
    hide NodeOk, MessageOk;
    assert forall x | x in s.nodes :: Ballot(t.nodes[x]).0 == Ballot(s.nodes[x]).0 && Ballot(t.nodes[x]).1 == Ballot(s.nodes[x]).1;
  }

  lemma AckTakenKeepsCount(s: Cluster, b: Book, t: Cluster, b': Book, m: Message, counted: bool, x: NodeId)
    requires AckTaken(s, b, t, b', m, counted) && AckOk(s, b, m)
    requires x in s.nodes && CountOk(x, s.nodes[x], b)
    ensures CountOk(x, t.nodes[x], b')
  {
  }

  lemma AckTakenKeeps(s: Cluster, b: Book, t: Cluster, b': Book, m: Message, counted: bool)
    requires AckTaken(s, b, t, b', m, counted) && BookOk(s, b) && Inv(t)
    ensures BookOk(t, b')
  {
    hide NodeOk, MessageOk, AckOk, CountOk, VotesOk, RequestsOk;
    AckTakenKeepsAcks(s, b, t, b', m, counted);
    AckTakenKeepsVotes(s, b, t, b', m, counted);
    assert AckOk(s, b, m);
    hide AcksOk;
    forall x | x in t.nodes
      ensures CountOk(x, t.nodes[x], b')
    {
      AckTakenKeepsCount(s, b, t, b', m, counted, x);
    }
  }

  lemma CountedAckIsCurrent(s: Cluster, b: Book, a: Action)
    requires BookOk(s, b) && Enabled(s, a) && CountsAck(s, a)
    ensures a.m.currentEpoch == s.nodes[a.m.dst].authEpoch
  {
    assert AckOk(s, b, a.m);
  }

  lemma AckTrack(s: Cluster, b: Book, a: Action)
    requires Inv(s) && Enabled(s, a) && a.Deliver? && a.m.kind.AuthAck? && a.m.dst in b.tally
    ensures a.m in s.net && a.m.dst in s.nodes
    ensures Track(b, s, a) ==
            if CountsAck(s, a) && s.nodes[a.m.dst].authSent
            then b.(tally := b.tally[a.m.dst := b.tally[a.m.dst] + {a.m.src}]) else b
  {
  }

  lemma AckStep(s: Cluster, b: Book, a: Action)
    requires BookOk(s, b) && Enabled(s, a) && a.Deliver? && a.m.kind.AuthAck?
    ensures BookOk(Apply(s, a), Track(b, s, a))
  {
    hide Local, Apply, Track, CountsAck, CastsVote, Starts, NodeOk, MessageOk, VotesOk, RequestsOk, AcksOk, Legal;
    assert CountOk(a.m.dst, s.nodes[a.m.dst], b);
    hide CountOk;
    if CountsAck(s, a) {
      CountedAckIsCurrent(s, b, a);
    }
    AckTrack(s, b, a);
    AckApply(s, a);
    ApplyKeepsInv(s, a);
    AckTakenKeeps(s, b, Apply(s, a), Track(b, s, a), a.m, CountsAck(s, a));
  }

  // ----- the failover handler -----

  lemma FailoverLocal(n: NodeState, env: Env)
    requires NodeOk(n)
    ensures var (r, out) := HandleSlaveFailover(n, env);
      && Ballot(r) ==
           (if out.Scheduled? then (n.lastVoteEpoch, n.authEpoch, 0, false)
            else if out.Requested? then (n.lastVoteEpoch, n.currentEpoch + 1, n.authCount, true)
            else Ballot(n))
      && (out.Requested? ==> r.currentEpoch == n.currentEpoch + 1)
  {
  }

  lemma FailoverSent(n: NodeState, a: Action, m: Message)
    requires NodeOk(n) && Legal(n, a) && a.Failover? && m in Sent(n, a)
    ensures HandleSlaveFailover(n, a.env).1.Requested?
    ensures m.kind.AuthRequest? && m.src == n.me && m.currentEpoch == n.currentEpoch + 1
  {
    FailoverLocal(n, a.env);
    LocalKeepsNodeOk(n, a);
    hide HandleSlaveFailover, WellFormed;
  }

  /** What the handler does to the ballots and to the ballot packets, outcome by outcome. */
  lemma FailoverApply(s: Cluster, a: Action)
    requires Inv(s) && Enabled(s, a) && a.Failover?
    ensures var t, n, out := Apply(s, a), s.nodes[a.id], HandleSlaveFailover(s.nodes[a.id], a.env).1;
      && t.nodes.Keys == s.nodes.Keys
      && (forall x | x in s.nodes && x != a.id :: t.nodes[x] == s.nodes[x])
      && Ballot(t.nodes[a.id]) ==
           (if out.Scheduled? then (n.lastVoteEpoch, n.authEpoch, 0, false)
            else if out.Requested? then (n.lastVoteEpoch, n.currentEpoch + 1, n.authCount, true)
            else Ballot(n))
      && (forall m | m in t.net && !(m in s.net && t.net[m] <= s.net[m]) ::
            out.Requested? && m.kind.AuthRequest? && m.src == a.id && m.currentEpoch == n.currentEpoch + 1)
  {
    hide HandleSlaveFailover, WellFormed, MessageOk, Sent;
    var n := s.nodes[a.id];
    FailoverLocal(n, a.env);
    LocalKeepsNodeOk(n, a);
    forall m | m in Sent(n, a)
      ensures HandleSlaveFailover(n, a.env).1.Requested?
      ensures m.kind.AuthRequest? && m.src == a.id && m.currentEpoch == n.currentEpoch + 1
    {
      FailoverSent(n, a, m);
    }
  }

  lemma UpdateBallotKeepsAcks(s: Cluster, b: Book, t: Cluster, b': Book, id: NodeId)
    requires AcksOk(s, b) && t.nodes.Keys == s.nodes.Keys
    requires forall x | x in s.nodes && x != id :: t.nodes[x] == s.nodes[x]
    requires forall m | m in t.net && m.kind.AuthAck? :: m in s.net && t.net[m] <= s.net[m]
    requires id in s.nodes && b'.votes == b.votes
    requires (b' == b && !t.nodes[id].authSent) || b'.tally == b.tally[id := {}]
    ensures AcksOk(t, b')
  {
    forall m | m in t.net && m.kind.AuthAck?
      ensures AckOk(t, b', m)
    {
      assert AckOk(s, b, m);
    }
  }

  lemma ScheduleKeeps(s: Cluster, b: Book, t: Cluster, id: NodeId)
    requires BookOk(s, b) && Inv(t) && t.nodes.Keys == s.nodes.Keys && id in s.nodes
    requires forall x | x in s.nodes && x != id :: t.nodes[x] == s.nodes[x]
    requires var n := s.nodes[id]; Ballot(t.nodes[id]) == (n.lastVoteEpoch, n.authEpoch, 0, false)
    requires forall m | m in t.net :: m in s.net && t.net[m] <= s.net[m]
    ensures BookOk(t, b)
  {
    hide NodeOk, MessageOk;
    assert forall x | x in s.nodes :: Ballot(t.nodes[x]).0 == Ballot(s.nodes[x]).0 && Ballot(t.nodes[x]).1 == Ballot(s.nodes[x]).1;
    UpdateBallotKeepsAcks(s, b, t, b, id);
    assert forall x | x in s.nodes :: CountOk(x, s.nodes[x], b);
  }

  lemma StartKeepsCounts(s: Cluster, b: Book, t: Cluster, id: NodeId, e: nat)
    requires BookOk(s, b) && t.nodes.Keys == s.nodes.Keys && id in s.nodes
    requires forall x | x in s.nodes && x != id :: t.nodes[x] == s.nodes[x]
    requires var n := s.nodes[id]; Ballot(t.nodes[id]) == (n.lastVoteEpoch, e, n.authCount, true)
    ensures var b' := b.(tally := b.tally[id := {}], stale := b.stale[id := s.nodes[id].authCount]);
      forall x | x in t.nodes :: CountOk(x, t.nodes[x], b')
  {
    hide Inv, VotesOk, RequestsOk, AcksOk;
    assert forall x | x in s.nodes :: CountOk(x, s.nodes[x], b);
  }

  lemma StartKeeps(s: Cluster, b: Book, t: Cluster, id: NodeId, e: nat)
    requires BookOk(s, b) && Inv(t) && t.nodes.Keys == s.nodes.Keys && id in s.nodes
    requires forall x | x in s.nodes && x != id :: t.nodes[x] == s.nodes[x]
    requires var n := s.nodes[id]; n.authEpoch < e && Ballot(t.nodes[id]) == (n.lastVoteEpoch, e, n.authCount, true)
    requires forall m | m in t.net && !(m in s.net && t.net[m] <= s.net[m]) ::
      m.kind.AuthRequest? && m.src == id && m.currentEpoch == e
    ensures BookOk(t, b.(tally := b.tally[id := {}], stale := b.stale[id := s.nodes[id].authCount]))
  {
    hide NodeOk, MessageOk, AcksOk, CountOk;
    var b' := b.(tally := b.tally[id := {}], stale := b.stale[id := s.nodes[id].authCount]);
    assert forall x | x in s.nodes :: Ballot(t.nodes[x]).0 == Ballot(s.nodes[x]).0 && Ballot(t.nodes[x]).1 >= Ballot(s.nodes[x]).1;
    UpdateBallotKeepsAcks(s, b, t, b', id);
    StartKeepsCounts(s, b, t, id, e);
  }

  lemma EpochsInOrder(s: Cluster, a: Action)
    requires Inv(s) && Enabled(s, a)
    ensures Actor(a) in s.nodes && WellFormed(s.nodes[Actor(a)].view, s.nodes[Actor(a)].me)
    ensures s.nodes[Actor(a)].authEpoch <= s.nodes[Actor(a)].currentEpoch
  {
    hide MessageOk, Legal;
  }

  lemma FailoverStep(s: Cluster, b: Book, a: Action)
    requires BookOk(s, b) && Enabled(s, a) && a.Failover?
    ensures BookOk(Apply(s, a), Track(b, s, a))
  {
    hide Apply, Track, BookOk, Inv, Enabled, HandleSlaveFailover;
    BookInv(s, b);
    EpochsInOrder(s, a);
    FailoverTrack(s, b, a);
    FailoverApply(s, a);
    ApplyKeepsInv(s, a);
    var out, n := HandleSlaveFailover(s.nodes[a.id], a.env).1, s.nodes[a.id];
    if out.Scheduled? {
      ScheduleKeeps(s, b, Apply(s, a), a.id);
    } else if out.Requested? {
      StartKeeps(s, b, Apply(s, a), a.id, n.currentEpoch + 1);
    } else {
      SameBallots(s, b, Apply(s, a));
    }
  }

  lemma FailoverTrack(s: Cluster, b: Book, a: Action)
    requires Inv(s) && Enabled(s, a) && a.Failover?
    ensures a.id in s.nodes
    ensures Track(b, s, a) ==
            if HandleSlaveFailover(s.nodes[a.id], a.env).1.Requested?
            then b.(tally := b.tally[a.id := {}], stale := b.stale[a.id := s.nodes[a.id].authCount]) else b
  {
  }

  /** Every step of every node keeps the books. */
  lemma StepKeepsBook(s: Cluster, b: Book, a: Action)
    requires BookOk(s, b) && Enabled(s, a)
    ensures BookOk(Apply(s, a), Track(b, s, a))
  {
    hide Local, Apply, Track, BookOk, Enabled;
    if a.Failover? {
      FailoverStep(s, b, a);
    } else if a.Deliver? && a.m.kind.AuthRequest? {
      RequestStep(s, b, a);
    } else if a.Deliver? && a.m.kind.AuthAck? {
      AckStep(s, b, a);
    } else {
      QuietStep(s, b, a);
    }
  }

  // ----- runs -----

  ghost function EmptyBook(s: Cluster): Book {
    Book(map[], map x | x in s.nodes :: {}, map x | x in s.nodes :: 0)
  }

  ghost function BookAt(states: seq<Cluster>, acts: seq<Action>, k: nat): Book
    requires Run(states, acts) && k < |states|
  {
    if k == 0 then EmptyBook(states[0])
    else
      RunStep(states, acts, k - 1);
      Track(BookAt(states, acts, k - 1), states[k - 1], acts[k - 1])
  }

  lemma {:induction false} RunKeepsBook(states: seq<Cluster>, acts: seq<Action>, k: nat)
    requires Run(states, acts) && k < |states|
    ensures BookOk(states[k], BookAt(states, acts, k))
  {
    hide Track, Apply, Enabled, Inv;
    if k > 0 {
      RunKeepsBook(states, acts, k - 1);
      RunStep(states, acts, k - 1);
      StepKeepsBook(states[k - 1], BookAt(states, acts, k - 1), acts[k - 1]);
    }
  }

  /** Votes are never withdrawn or changed. */
  lemma VotesGrow(s: Cluster, b: Book, a: Action)
    requires BookOk(s, b) && Enabled(s, a)
    ensures b.votes.Keys <= Track(b, s, a).votes.Keys
    ensures forall p | p in b.votes :: Track(b, s, a).votes[p] == b.votes[p]
  {
    hide Apply, NodeOk, MessageOk, AcksOk, CountOk;
    if CastsVote(s, a) {
      VoteApply(s, a);
    }
  }

  lemma VotesStep(states: seq<Cluster>, acts: seq<Action>, k: nat)
    requires Run(states, acts) && k < |acts|
    ensures var v, v' := BookAt(states, acts, k).votes, BookAt(states, acts, k + 1).votes;
      v.Keys <= v'.Keys && forall p | p in v :: v'[p] == v[p]
  {
    RunKeepsBook(states, acts, k);
    RunStep(states, acts, k);
    hide Track, Apply, Enabled, Inv, BookOk;
    VotesGrow(states[k], BookAt(states, acts, k), acts[k]);
  }

  lemma {:induction false} VotesLast(states: seq<Cluster>, acts: seq<Action>, i: nat, j: nat, v: NodeId, e: nat)
    requires Run(states, acts) && i <= j < |states| && (v, e) in BookAt(states, acts, i).votes
    ensures (v, e) in BookAt(states, acts, j).votes
    ensures BookAt(states, acts, j).votes[(v, e)] == BookAt(states, acts, i).votes[(v, e)]
    decreases j
  {
    hide *;
    if i < j {
      RunLength(states, acts);
      VotesLast(states, acts, i, j - 1, v, e);
      VotesStep(states, acts, j - 1);
    }
  }

  /** Votes are counted only from the masters M, and every winner sees exactly |M| of them. */
  ghost predicate FixedMasters(states: seq<Cluster>, acts: seq<Action>, M: set<NodeId>)
    requires Run(states, acts)
  {
    forall k | 0 <= k < |acts| ::
      && (CountsAck(states[k], acts[k]) ==> acts[k].m.src in M)
      && (forall e | Wins(states[k], acts[k], e) :: states[k].nodes[acts[k].id].view.size == |M|)
  }

  /** Every election starts with a vote count of zero. */
  ghost predicate CleanStarts(states: seq<Cluster>, acts: seq<Action>)
    requires Run(states, acts)
  {
    forall k | 0 <= k < |acts| ::
      Starts(states[k], acts[k]) ==> states[k].nodes[acts[k].id].authCount == 0
  }

  lemma {:induction false} TalliesAreMasters(states: seq<Cluster>, acts: seq<Action>, M: set<NodeId>, k: nat)
    requires Run(states, acts) && FixedMasters(states, acts, M) && k < |states|
    ensures forall x | x in BookAt(states, acts, k).tally :: BookAt(states, acts, k).tally[x] <= M
  {
    hide Apply, NodeOk, MessageOk, Legal, CountsVote, SeeHeader, Votes, HandleSlaveFailover;
    if k > 0 {
      TalliesAreMasters(states, acts, M, k - 1);
      RunStep(states, acts, k - 1);
    }
  }

  lemma {:induction false} NothingStale(states: seq<Cluster>, acts: seq<Action>, k: nat)
    requires Run(states, acts) && CleanStarts(states, acts) && k < |states|
    ensures forall x | x in BookAt(states, acts, k).stale :: BookAt(states, acts, k).stale[x] == 0
  {
    hide Apply, NodeOk, MessageOk, Legal, CountsVote, SeeHeader, Votes, HandleSlaveFailover;
    if k > 0 {
      NothingStale(states, acts, k - 1);
      RunStep(states, acts, k - 1);
    }
  }

  lemma QuorumsMeet(M: set<NodeId>, A: set<NodeId>, B: set<NodeId>)
    requires A <= M && B <= M && |A| >= NeededQuorum(|M|) && |B| >= NeededQuorum(|M|)
    ensures exists v :: v in A && v in B
  {
    if A * B == {} {
      assert |A + B| == |A| + |B|;
      SubsetSize(A + B, M);
    } else {
      var v :| v in A * B;
    }
  }

  /** With a clean start, a won election was voted for by a quorum of M in its own epoch. */
  lemma WinIsBacked(states: seq<Cluster>, acts: seq<Action>, M: set<NodeId>, k: nat, e: nat)
    requires Run(states, acts) && FixedMasters(states, acts, M) && CleanStarts(states, acts)
    requires k < |acts| && Wins(states[k], acts[k], e)
    ensures var b, c := BookAt(states, acts, k), acts[k].id;
      && c in b.tally && b.tally[c] <= M && |b.tally[c]| >= NeededQuorum(|M|)
      && forall v | v in b.tally[c] :: (v, e) in b.votes && b.votes[(v, e)] == c
  {
    RunKeepsBook(states, acts, k);
    TalliesAreMasters(states, acts, M, k);
    NothingStale(states, acts, k);
    assert CountOk(acts[k].id, states[k].nodes[acts[k].id], BookAt(states, acts, k));
  }

  /** Election safety: no two replicas win the same epoch in any run whose elections start clean. */
  lemma ElectionSafety(states: seq<Cluster>, acts: seq<Action>, M: set<NodeId>, i: nat, j: nat, e: nat)
    requires Run(states, acts) && FixedMasters(states, acts, M) && CleanStarts(states, acts)
    requires i <= j < |acts| && Wins(states[i], acts[i], e) && Wins(states[j], acts[j], e)
    ensures acts[i].id == acts[j].id
  {
    assert |states| == |acts| + 1;
    hide Inv, Enabled, Run, FixedMasters, CleanStarts, BookAt, Wins;
    WinIsBacked(states, acts, M, i, e);
    WinIsBacked(states, acts, M, j, e);
    var bi, bj := BookAt(states, acts, i), BookAt(states, acts, j);
    QuorumsMeet(M, bi.tally[acts[i].id], bj.tally[acts[j].id]);
    var v :| v in bi.tally[acts[i].id] && v in bj.tally[acts[j].id];
    VotesLast(states, acts, i, j, v, e);
  }
}
