/**
 Two replicas of a failed master both win epoch 2, each with one vote of epoch 1
 cast and counted between rescheduling and starting again. No vote is in flight
 when they reschedule, only a request for one. Masters 1, 2 and 3 serve one slot
 each; 10 and 11 replicate master 1, which is down.
 */
module ElectionCounterexample {
  import opened Common
  import opened ClusterNode
  import opened Cluster
  import opened Election
  import opened ElectionHypotheses

  /** What every node knows, after a vote about master 1 at some time. */
  function Table(voted: int): View {
    View(map[1 := Info(true, None, 0, true, voted), 2 := Info(true, None, 0, false, 0), 3 := Info(true, None, 0, false, 0),
             10 := Info(false, Some(1), 0, false, 0), 11 := Info(false, Some(1), 0, false, 0)],
         seq(SLOTS, j => if j == 0 then Some(1) else if j == 1 then Some(2) else if j == 2 then Some(3) else None),
         map[], 3)
  }

  lemma TableSlots(n: NodeId, voted: int)
    requires 1 <= n <= 3
    ensures SlotsOf(Table(voted).slots, n) == {n - 1} && NumSlots(Table(voted), n) == 1
  {
    assert SlotsOf(Table(voted).slots, n) == {n - 1};
  }

  lemma TableIsWellFormed(n: NodeId, voted: int)
    requires n in {1, 2, 3, 10, 11}
    ensures WellFormed(Table(voted), n)
  {
  }

  function Fresh(n: NodeId): NodeState {
    NodeState(n, 0, 0, 0, 0, false, 0, 0, Table(0))
  }

  /** A voter that has voted in every epoch up to e, about master 1 for the last time at 'voted'. */
  function Voter(v: NodeId, e: nat, voted: int): NodeState {
    Fresh(v).(currentEpoch := e, lastVoteEpoch := e, view := Table(voted))
  }

  function Candidate(c: NodeId, e: nat, count: nat, sent: bool, time: int): NodeState {
    Fresh(c).(currentEpoch := e, authEpoch := e, authCount := count, authSent := sent, authTime := time)
  }

  function Idle(c: NodeId): NodeState {
    Candidate(c, 0, 0, false, 0)
  }

  function At(now: int): Env {
    Env(now, 1000, false, false, false, false, 0, 0)
  }

  function Request(c: NodeId, v: NodeId, e: nat): Message {
    Message(AuthRequest(false), c, v, e, 0, Some(1), {0})
  }

  function Ack(v: NodeId, c: NodeId, e: nat): Message
    requires v > 0
  {
    Message(AuthAck, v, c, e, 0, None, {v - 1})
  }

  ghost predicate Pair(c: NodeId, v: NodeId) {
    (c == 10 || c == 11) && (v == 2 || v == 3)
  }

  /** The same clock and node timeout for those who receive a packet. */
  function Plain(now: int): Oracle {
    Oracle(now, 1000, true, false)
  }

  /** A step that reads the clock. */
  ghost predicate Timed(a: Action, now: int) {
    Reads(a) == Some((now, 1000))
  }

  lemma FailoverTimed(c: NodeId, now: int, links: seq<NodeId>)
    ensures Timed(Failover(c, At(now), links), now)
  {
  }

  lemma DeliverTimed(m: Message, now: int)
    ensures Timed(Deliver(m, Plain(now)), now)
  {
  }

  /** Steps at times that do not decrease. */
  lemma ClockOf(acts: seq<Action>, times: seq<int>, lo: int, hi: int)
    requires |times| == |acts| && (forall k | 0 <= k < |acts| :: Timed(acts[k], times[k]) && lo <= times[k] <= hi)
    requires forall j, k | 0 <= j < k < |times| :: times[j] <= times[k]
    ensures OneClock(acts, 1000, lo, hi)
  {
    hide Reads;
    assert forall k | 0 <= k < |acts| :: Timed(acts[k], times[k]);
  }

  // ----- the candidate -----

  lemma CandidateIsOk(c: NodeId, e: nat, count: nat, sent: bool, time: int)
    requires c == 10 || c == 11
    ensures NodeOk(Candidate(c, e, count, sent, time))
  {
    TableIsWellFormed(c, 0);
  }

  lemma VoterIsOk(v: NodeId, e: nat, voted: int)
    requires v == 2 || v == 3
    ensures NodeOk(Voter(v, e, voted))
  {
    TableIsWellFormed(v, voted);
  }

  lemma Scheduling(c: NodeId, e: nat, count: nat, sent: bool, time: int, now: int)
    requires (c == 10 || c == 11) && now - time > 4000
    ensures NodeOk(Candidate(c, e, count, sent, time))
    ensures HandleSlaveFailover(Candidate(c, e, count, sent, time), At(now)) ==
            (Candidate(c, e, 0, false, now + 500), Scheduled)
  {
    CandidateIsOk(c, e, count, sent, time);
    TableSlots(1, 0);
  }

  lemma Starting(c: NodeId, v: NodeId, e: nat, count: nat, time: int)
    requires Pair(c, v)
    ensures NodeOk(Candidate(c, e, count, false, time)) && NodeOk(Candidate(c, e + 1, count, true, time))
    ensures HandleSlaveFailover(Candidate(c, e, count, false, time), At(time)) ==
            (Candidate(c, e + 1, count, true, time), Requested)
    ensures Header(Candidate(c, e + 1, count, true, time), AuthRequest(false), v) == Request(c, v, e + 1)
  {
    CandidateIsOk(c, e, count, false, time);
    CandidateIsOk(c, e + 1, count, true, time);
    TableSlots(1, 0);
  }

  lemma HeaderChangesNothing(n: NodeState, m: Message, voted: int)
    requires n.view == Table(voted) && m.configEpoch == 0
    ensures SeeHeader(n, m) == if m.src in n.view.nodes then n.(currentEpoch := Max(n.currentEpoch, m.currentEpoch)) else n
  {
    if m.src in n.view.nodes {
      assert n.view.nodes[m.src := n.view.nodes[m.src].(configEpoch := 0)] == n.view.nodes;
    }
  }

  lemma Voting(c: NodeId, v: NodeId, e: nat, voted: int, now: int)
    requires Pair(c, v) && now - voted >= 2000
    ensures NodeOk(Voter(v, e, voted)) && NodeOk(Voter(v, e + 1, now))
    ensures MessageOk(Request(c, v, e + 1))
    ensures Votes(Voter(v, e, voted), Request(c, v, e + 1), Plain(now))
    ensures Receive(Voter(v, e, voted), Request(c, v, e + 1), Plain(now)) == Voter(v, e + 1, now)
    ensures Header(Voter(v, e + 1, now), AuthAck, c) == Ack(v, c, e + 1)
  {
    VoterIsOk(v, e, voted);
    VoterIsOk(v, e + 1, now);
    TableSlots(v, voted);
    TableSlots(v, now);
    HeaderChangesNothing(Voter(v, e, voted), Request(c, v, e + 1), voted);
    VoteNoted(voted, c, now);
  }

  lemma VoteNoted(voted: int, c: NodeId, now: int)
    requires c == 10 || c == 11
    ensures NoteVote(Table(voted), c, now) == Table(now)
  {
    assert Table(voted).nodes[1 := Info(true, None, 0, true, now)] == Table(now).nodes;
  }

  lemma Counting(c: NodeId, v: NodeId, e: nat, count: nat, sent: bool, time: int, now: int)
    requires Pair(c, v)
    ensures NodeOk(Candidate(c, e, count, sent, time)) && MessageOk(Ack(v, c, e))
    ensures Receive(Candidate(c, e, count, sent, time), Ack(v, c, e), Plain(now)) ==
            Candidate(c, e, count + 1, sent, time)
  {
    CandidateIsOk(c, e, count, sent, time);
    TableSlots(v, 0);
    HeaderChangesNothing(Candidate(c, e, count, sent, time), Ack(v, c, e), 0);
  }

  lemma Winning(c: NodeId, e: nat, time: int, now: int)
    requires (c == 10 || c == 11) && time <= now <= time + 2000
    ensures NodeOk(Candidate(c, e, 2, true, time))
    ensures HandleSlaveFailover(Candidate(c, e, 2, true, time), At(now)).1 == Won
  {
    CandidateIsOk(c, e, 2, true, time);
    TableSlots(1, 0);
  }

  // ----- the cluster -----

  /** One step, with the facts the theorem about runs asks for. */
  ghost predicate Fair(s: Cluster, a: Action, t: Cluster) {
    && Inv(s) && Enabled(s, a) && t == Apply(s, a)
    && (CountsAck(s, a) ==> a.m.src in {1, 2, 3})
    && (forall e | Wins(s, a, e) :: s.nodes[a.id].view.size == 3)
    && (Reschedules(s, a) ==> NoVoteInFlight(s, a.id))
  }

  ghost predicate Chain(states: seq<Cluster>, acts: seq<Action>) {
    |states| == |acts| + 1 && forall k | 0 <= k < |acts| :: Fair(states[k], acts[k], states[k + 1])
  }

  function With(s: Cluster, c: NodeId, n: NodeState, net: multiset<Message>): Cluster {
    Cluster(s.nodes[c := n], net)
  }

  ghost predicate Holds(s: Cluster, c: NodeId, n: NodeState, net: multiset<Message>) {
    Inv(s) && c in s.nodes && s.nodes[c] == n && s.net == net
  }

  lemma FairDelivery(s: Cluster, a: Action)
    requires Inv(s) && a.Deliver? && Enabled(s, a) && (a.m.kind.AuthAck? ==> a.m.src in {1, 2, 3})
    ensures Fair(s, a, Apply(s, a))
  {
    hide Inv, Enabled, Apply, CountsVote, SeeHeader, NodeOk;
  }

  lemma FairFailover(s: Cluster, a: Action)
    requires Inv(s) && a.Failover? && Enabled(s, a) && a.id in s.nodes && s.nodes[a.id].view.size == 3
    requires HandleSlaveFailover(s.nodes[a.id], a.env).1.Scheduled? ==> NoVoteInFlight(s, a.id)
    ensures Fair(s, a, Apply(s, a))
  {
    hide Inv, Enabled, Apply, HandleSlaveFailover, NoVoteInFlight, NodeOk;
  }

  /** The timer of a candidate may go off at any time. */
  lemma MayFail(s: Cluster, c: NodeId, now: int, links: seq<NodeId>)
    requires Inv(s) && c in s.nodes && c !in links && forall i, j | 0 <= i < j < |links| :: links[i] != links[j]
    ensures Enabled(s, Failover(c, At(now), links)) && NodeOk(s.nodes[c])
  {
    hide NodeOk, MessageOk;
  }

  lemma CandidateView(c: NodeId, e: nat, count: nat, sent: bool, time: int)
    ensures Candidate(c, e, count, sent, time).view.size == 3
  {
  }

  lemma ScheduleStep(s: Cluster, c: NodeId, e: nat, count: nat, sent: bool, time: int, now: int)
    requires (c == 10 || c == 11) && now - time > 4000
    requires Holds(s, c, Candidate(c, e, count, sent, time), s.net) && NoVoteInFlight(s, c)
    ensures Fair(s, Failover(c, At(now), []), With(s, c, Candidate(c, e, 0, false, now + 500), s.net))
  {
    hide HandleSlaveFailover, NoVoteInFlight, Apply, Inv, Enabled, NodeOk, Candidate, At, Fair;
    var a := Failover(c, At(now), []);
    Scheduling(c, e, count, sent, time, now);
    CandidateView(c, e, count, sent, time);
    MayFail(s, c, now, []);
    FairFailover(s, a);
    FailoverIs(s, a);
  }

  lemma StartStep(s: Cluster, c: NodeId, v: NodeId, e: nat, count: nat, time: int)
    requires Pair(c, v) && Holds(s, c, Candidate(c, e, count, false, time), multiset{})
    ensures Fair(s, Failover(c, At(time), [v]),
                 With(s, c, Candidate(c, e + 1, count, true, time), multiset{Request(c, v, e + 1)}))
    ensures Inv(With(s, c, Candidate(c, e + 1, count, true, time), multiset{Request(c, v, e + 1)}))
  {
    hide Fair, Inv, Candidate, Request, At, With;
    StartMany(s, c, e, count, time, [v]);
    assert seq(1, i requires 0 <= i < 1 => Request(c, [v][i], e + 1)) == [Request(c, v, e + 1)];
    FairKeepsInv(s, Failover(c, At(time), [v]), With(s, c, Candidate(c, e + 1, count, true, time), multiset{Request(c, v, e + 1)}));
  }

  /** The candidate asks some masters. */
  lemma StartMany(s: Cluster, c: NodeId, e: nat, count: nat, time: int, links: seq<NodeId>)
    requires links != [] && (forall i | 0 <= i < |links| :: Pair(c, links[i])) && forall i, j | 0 <= i < j < |links| :: links[i] != links[j]
    requires Holds(s, c, Candidate(c, e, count, false, time), multiset{})
    ensures Fair(s, Failover(c, At(time), links),
                 With(s, c, Candidate(c, e + 1, count, true, time),
                      multiset(seq(|links|, i requires 0 <= i < |links| => Request(c, links[i], e + 1)))))
  {
    hide HandleSlaveFailover, Header, Apply, Inv, Enabled, NodeOk, Candidate, Fair, Request;
    var a, r := Failover(c, At(time), links), Candidate(c, e + 1, count, true, time);
    assert Pair(c, links[0]) && c !in links;
    MayFail(s, c, time, links);
    CandidateView(c, e, count, false, time);
    Starting(c, links[0], e, count, time);
    FairFailover(s, a);
    StartIs(s, a);
    SameRequests(c, e, count, time, links);
    NothingPlus(seq(|links|, i requires 0 <= i < |links| => Request(c, links[i], e + 1)));
  }

  lemma SameRequests(c: NodeId, e: nat, count: nat, time: int, links: seq<NodeId>)
    requires forall i | 0 <= i < |links| :: Pair(c, links[i])
    requires NodeOk(Candidate(c, e + 1, count, true, time))
    ensures seq(|links|, i requires 0 <= i < |links| => Header(Candidate(c, e + 1, count, true, time), AuthRequest(false), links[i]))
         == seq(|links|, i requires 0 <= i < |links| => Request(c, links[i], e + 1))
  {
    hide HandleSlaveFailover, Header, Candidate, Pair, Request;
    forall i | 0 <= i < |links|
      ensures Header(Candidate(c, e + 1, count, true, time), AuthRequest(false), links[i]) == Request(c, links[i], e + 1)
    {
      Starting(c, links[i], e, count, time);
    }
  }

  lemma NothingPlus<T>(q: seq<T>)
    ensures multiset{} + multiset(q) == multiset(q)
  {
  }

  lemma VoteAmong(s: Cluster, c: NodeId, v: NodeId, e: nat, voted: int, now: int)
    requires Pair(c, v) && now - voted >= 2000
    requires Holds(s, v, Voter(v, e, voted), s.net) && Request(c, v, e + 1) in s.net
    ensures Fair(s, Deliver(Request(c, v, e + 1), Plain(now)),
                 With(s, v, Voter(v, e + 1, now), s.net - multiset{Request(c, v, e + 1)} + multiset{Ack(v, c, e + 1)}))
  {
    hide Receive, Header, Votes, Inv, Apply, Enabled, NodeOk, Voter, Ack, Fair;
    Voting(c, v, e, voted, now);
    DeliverIs(s, Deliver(Request(c, v, e + 1), Plain(now)));
    FairDelivery(s, Deliver(Request(c, v, e + 1), Plain(now)));
  }

  lemma VoteStep(s: Cluster, c: NodeId, v: NodeId, e: nat, voted: int, now: int)
    requires Pair(c, v) && now - voted >= 2000 && Holds(s, v, Voter(v, e, voted), multiset{Request(c, v, e + 1)})
    ensures Fair(s, Deliver(Request(c, v, e + 1), Plain(now)),
                 With(s, v, Voter(v, e + 1, now), multiset{Ack(v, c, e + 1)}))
    ensures Inv(With(s, v, Voter(v, e + 1, now), multiset{Ack(v, c, e + 1)}))
  {
    hide Fair, Inv, Voter, Request, Ack;
    VoteAmong(s, c, v, e, voted, now);
    var r, k := Request(c, v, e + 1), Ack(v, c, e + 1);
    assert multiset{r} - multiset{r} + multiset{k} == multiset{k};
    FairKeepsInv(s, Deliver(r, Plain(now)), With(s, v, Voter(v, e + 1, now), multiset{k}));
  }

  lemma CountAmong(s: Cluster, c: NodeId, v: NodeId, e: nat, count: nat, sent: bool, time: int, now: int)
    requires Pair(c, v) && Holds(s, c, Candidate(c, e, count, sent, time), s.net) && Ack(v, c, e) in s.net
    ensures Fair(s, Deliver(Ack(v, c, e), Plain(now)),
                 With(s, c, Candidate(c, e, count + 1, sent, time), s.net - multiset{Ack(v, c, e)}))
  {
    hide Receive, Header, Votes, Inv, Apply, Enabled, NodeOk, Candidate, Fair;
    Counting(c, v, e, count, sent, time, now);
    DeliverIs(s, Deliver(Ack(v, c, e), Plain(now)));
    AcksCastNoVote(s.nodes[c], Ack(v, c, e), Plain(now));
    FairDelivery(s, Deliver(Ack(v, c, e), Plain(now)));
  }

  lemma CountStep(s: Cluster, c: NodeId, v: NodeId, e: nat, count: nat, sent: bool, time: int, now: int)
    requires Pair(c, v) && Holds(s, c, Candidate(c, e, count, sent, time), multiset{Ack(v, c, e)})
    ensures Fair(s, Deliver(Ack(v, c, e), Plain(now)), With(s, c, Candidate(c, e, count + 1, sent, time), multiset{}))
    ensures Inv(With(s, c, Candidate(c, e, count + 1, sent, time), multiset{}))
  {
    hide Fair, Inv, Candidate, Ack;
    CountAmong(s, c, v, e, count, sent, time, now);
    var k := Ack(v, c, e);
    assert multiset{k} - multiset{k} == multiset{};
    FairKeepsInv(s, Deliver(k, Plain(now)), With(s, c, Candidate(c, e, count + 1, sent, time), multiset{}));
  }

  lemma CandidateEpoch(c: NodeId, e: nat, count: nat, sent: bool, time: int)
    ensures Candidate(c, e, count, sent, time).authEpoch == e
  {
  }

  lemma WinStep(s: Cluster, c: NodeId, e: nat, time: int, now: int)
    requires (c == 10 || c == 11) && time <= now <= time + 2000 && Holds(s, c, Candidate(c, e, 2, true, time), s.net)
    ensures var a := Failover(c, At(now), []);
      Enabled(s, a) && Fair(s, a, Apply(s, a)) && Wins(s, a, e) && Apply(s, a).net == s.net
  {
    hide HandleSlaveFailover, Apply, Inv, Enabled, NodeOk, Candidate, At, Fair, NoVoteInFlight;
    var a := Failover(c, At(now), []);
    Winning(c, e, time, now);
    CandidateView(c, e, 2, true, time);
    CandidateEpoch(c, e, 2, true, time);
    MayFail(s, c, now, []);
    FairFailover(s, a);
    FailoverIs(s, a);
  }

  lemma FairKeepsInv(s: Cluster, a: Action, t: Cluster)
    requires Fair(s, a, t)
    ensures Inv(t)
  {
    ApplyKeepsInv(s, a);
  }

  lemma NoVotes(s: Cluster, c: NodeId, v: NodeId, e: nat)
    requires s.net == multiset{} || s.net == multiset{Request(c, v, e)}
    ensures NoVoteInFlight(s, c)
  {
  }

  /** A candidate schedules with nothing in flight but a request. */
  lemma ScheduleAgain(s: Cluster, c: NodeId, v: NodeId, e: nat, count: nat, sent: bool, time: int, now: int)
    requires (c == 10 || c == 11) && now - time > 4000
    requires Holds(s, c, Candidate(c, e, count, sent, time), s.net)
    requires s.net == multiset{} || s.net == multiset{Request(c, v, e)}
    ensures var t := With(s, c, Candidate(c, e, 0, false, now + 500), s.net);
      Fair(s, Failover(c, At(now), []), t) && Inv(t)
  {
    hide Fair, Inv, Candidate, Request, At, NoVoteInFlight;
    NoVotes(s, c, v, e);
    ScheduleStep(s, c, e, count, sent, time, now);
    FairKeepsInv(s, Failover(c, At(now), []), With(s, c, Candidate(c, e, 0, false, now + 500), s.net));
  }

  lemma ChainOf3(s0: Cluster, s1: Cluster, s2: Cluster, s3: Cluster, a0: Action, a1: Action, a2: Action)
    requires Fair(s0, a0, s1) && Fair(s1, a1, s2) && Fair(s2, a2, s3)
    ensures Chain([s0, s1, s2, s3], [a0, a1, a2])
  {
    hide Fair;
  }

  /** Before the first attempt of a candidate. */
  ghost predicate Ready(s: Cluster, c: NodeId, v: NodeId) {
    Pair(c, v) && Holds(s, c, Idle(c), multiset{}) && Holds(s, v, Voter(v, 0, 0), multiset{})
  }

  /** After it has asked for a vote. */
  ghost predicate Asked(s: Cluster, t: Cluster, c: NodeId, v: NodeId, base: nat) {
    Inv(t) && t == Cluster(s.nodes[c := Candidate(c, 1, 0, true, base + 10500)], multiset{Request(c, v, 1)})
  }

  /** After the late vote has been counted. */
  ghost predicate Late(s: Cluster, t: Cluster, c: NodeId, v: NodeId, base: nat) {
    && Inv(t)
    && t == Cluster(s.nodes[c := Candidate(c, 1, 1, false, base + 20500)][v := Voter(v, 1, base + 20000)], multiset{})
  }

  /** After the second vote has been counted. */
  ghost predicate Backed(s: Cluster, t: Cluster, c: NodeId, v: NodeId, base: nat) {
    && Inv(t)
    && t == Cluster(s.nodes[c := Candidate(c, 2, 2, true, base + 20500)][v := Voter(v, 2, base + 22000)], multiset{})
  }

  lemma AskForVote(s: Cluster, c: NodeId, v: NodeId, base: nat) returns (states: seq<Cluster>, acts: seq<Action>)
    requires Ready(s, c, v)
    ensures |acts| == 2 && |states| == 3 && states[0] == s
    ensures Chain(states, acts) && Asked(s, states[2], c, v, base)
    ensures OneClock(acts, 1000, base + 10000, base + 10500)
  {
    hide Fair, Inv, Candidate, Request, At, Timed, OneClock;
    var t := base + 10500;
    var t1 := With(s, c, Candidate(c, 0, 0, false, t), multiset{});
    ScheduleAgain(s, c, v, 0, 0, false, 0, base + 10000);
    var t2 := With(t1, c, Candidate(c, 1, 0, true, t), multiset{Request(c, v, 1)});
    StartStep(t1, c, v, 0, 0, t);
    states, acts := [s, t1, t2], [Failover(c, At(base + 10000), []), Failover(c, At(t), [v])];
    assert t2.nodes == s.nodes[c := Candidate(c, 1, 0, true, t)];
    FailoverTimed(c, base + 10000, []);
    FailoverTimed(c, t, [v]);
    ClockOf(acts, [base + 10000, t], base + 10000, t);
  }

  /** The candidate reschedules while its request is in flight; the vote is cast and counted after. */
  lemma CountLateVote(first: Cluster, s: Cluster, c: NodeId, v: NodeId, base: nat)
    returns (states: seq<Cluster>, acts: seq<Action>)
    requires Ready(first, c, v) && Asked(first, s, c, v, base)
    ensures |acts| == 3 && |states| == 4 && states[0] == s
    ensures Chain(states, acts) && Late(first, states[3], c, v, base)
    ensures OneClock(acts, 1000, base + 20000, base + 20000)
  {
    hide Chain, Fair, Inv, Candidate, Voter, Request, Ack, At, Plain, Timed, OneClock;
    var now := base + 20000;
    var t1 := With(s, c, Candidate(c, 1, 0, false, now + 500), multiset{Request(c, v, 1)});
    ScheduleAgain(s, c, v, 1, 0, true, base + 10500, now);
    var t2 := With(t1, v, Voter(v, 1, now), multiset{Ack(v, c, 1)});
    VoteStep(t1, c, v, 0, 0, now);
    var t3 := With(t2, c, Candidate(c, 1, 1, false, now + 500), multiset{});
    CountStep(t2, c, v, 1, 0, false, now + 500, now);
    states := [s, t1, t2, t3];
    acts := [Failover(c, At(now), []), Deliver(Request(c, v, 1), Plain(now)), Deliver(Ack(v, c, 1), Plain(now))];
    ChainOf3(s, t1, t2, t3, acts[0], acts[1], acts[2]);
    assert t3.nodes == first.nodes[c := Candidate(c, 1, 1, false, now + 500)][v := Voter(v, 1, now)];
    FailoverTimed(c, now, []);
    DeliverTimed(Request(c, v, 1), now);
    DeliverTimed(Ack(v, c, 1), now);
    ClockOf(acts, [now, now, now], now, now);
  }

  /** The first attempt: its request is still in flight when the candidate reschedules. */
  lemma FirstAttempt(s: Cluster, c: NodeId, v: NodeId, base: nat) returns (states: seq<Cluster>, acts: seq<Action>)
    requires Ready(s, c, v)
    ensures |acts| == 5 && |states| == 6 && states[0] == s
    ensures Chain(states, acts) && Late(s, states[5], c, v, base)
    ensures OneClock(acts, 1000, base + 10000, base + 20000)
  {
    hide Chain, Ready, Asked, Late, OneClock;
    var s1, a1 := AskForVote(s, c, v, base);
    var s2, a2 := CountLateVote(s, s1[2], c, v, base);
    JoinChains(s1, a1, s2, a2);
    JoinClocks(a1, a2, 1000, base + 10000, base + 10500, base + 20000, base + 20000);
    states, acts := s1 + s2[1..], a1 + a2;
    assert states[5] == s2[3];
  }

  /** The second attempt starts with that vote and gets one of its own, which is cast as soon as the voter may vote about
      the same master again. */
  lemma CountSecondVote(first: Cluster, s: Cluster, c: NodeId, v: NodeId, base: nat)
    returns (states: seq<Cluster>, acts: seq<Action>)
    requires Ready(first, c, v) && Late(first, s, c, v, base)
    ensures |acts| == 3 && |states| == 4 && states[0] == s
    ensures Chain(states, acts) && Backed(first, states[3], c, v, base)
    ensures OneClock(acts, 1000, base + 20500, base + 22000)
  {
    hide Chain, Fair, Inv, Candidate, Voter, Request, Ack, At, Plain, Timed, OneClock;
    var t, now := base + 20500, base + 22000;
    var t1 := With(s, c, Candidate(c, 2, 1, true, t), multiset{Request(c, v, 2)});
    StartStep(s, c, v, 1, 1, t);
    var t2 := With(t1, v, Voter(v, 2, now), multiset{Ack(v, c, 2)});
    VoteStep(t1, c, v, 1, base + 20000, now);
    var t3 := With(t2, c, Candidate(c, 2, 2, true, t), multiset{});
    CountStep(t2, c, v, 2, 1, true, t, now);
    states := [s, t1, t2, t3];
    acts := [Failover(c, At(t), [v]), Deliver(Request(c, v, 2), Plain(now)), Deliver(Ack(v, c, 2), Plain(now))];
    ChainOf3(s, t1, t2, t3, acts[0], acts[1], acts[2]);
    assert t3.nodes == first.nodes[c := Candidate(c, 2, 2, true, t)][v := Voter(v, 2, now)];
    FailoverTimed(c, t, [v]);
    DeliverTimed(Request(c, v, 2), now);
    DeliverTimed(Ack(v, c, 2), now);
    ClockOf(acts, [t, now, now], t, now);
  }

  lemma WinNow(first: Cluster, s: Cluster, c: NodeId, v: NodeId, base: nat) returns (a: Action, t: Cluster)
    requires Ready(first, c, v) && Backed(first, s, c, v, base)
    ensures Chain([s, t], [a]) && Inv(t) && a.Failover? && a.id == c && Wins(s, a, 2)
    ensures t.net == multiset{} && Others(first, t, c, v)
    ensures OneClock([a], 1000, base + 22000, base + 22000)
  {
    hide Fair, Inv, Wins, Enabled, Candidate, Voter, At, Apply, Timed, OneClock;
    var now := base + 22000;
    WinStep(s, c, 2, base + 20500, now);
    a := Failover(c, At(now), []);
    t := Apply(s, a);
    FairKeepsInv(s, a, t);
    WinTouchesOnly(s, c, a);
    FailoverTimed(c, now, []);
    ClockOf([a], [now], now, now);
  }

  /** The second attempt wins. */
  lemma SecondAttempt(first: Cluster, s: Cluster, c: NodeId, v: NodeId, base: nat)
    returns (states: seq<Cluster>, acts: seq<Action>)
    requires Ready(first, c, v) && Late(first, s, c, v, base)
    ensures |acts| == 4 && |states| == 5 && states[0] == s
    ensures Chain(states, acts) && Inv(states[4])
    ensures acts[3].Failover? && acts[3].id == c
    ensures Wins(states[3], acts[3], 2)
    ensures states[4].net == multiset{} && Others(first, states[4], c, v)
    ensures OneClock(acts, 1000, base + 20500, base + 22000)
  {
    hide Chain, Inv, Wins, Ready, Late, Backed, Others, OneClock;
    var s1, a1 := CountSecondVote(first, s, c, v, base);
    var a, t := WinNow(first, s1[3], c, v, base);
    JoinChains(s1, a1, [s1[3], t], [a]);
    JoinClocks(a1, [a], 1000, base + 20500, base + 22000, base + 22000, base + 22000);
    states, acts := s1 + [s1[3], t][1..], a1 + [a];
  }

  lemma JoinClocks(a1: seq<Action>, a2: seq<Action>, timeout: nat, lo: int, mid: int, mid': int, hi: int)
    requires OneClock(a1, timeout, lo, mid) && OneClock(a2, timeout, mid', hi) && lo <= mid <= mid' <= hi
    ensures OneClock(a1 + a2, timeout, lo, hi)
  {
    hide Reads;
    var a := a1 + a2;
    assert forall k | 0 <= k < |a| :: a[k] == if k < |a1| then a1[k] else a2[k - |a1|];
  }

  /** Nobody else has changed. */
  ghost predicate Others(s: Cluster, t: Cluster, c: NodeId, v: NodeId) {
    forall n | n in s.nodes && n != c && n != v :: n in t.nodes && t.nodes[n] == s.nodes[n]
  }

  lemma WinTouchesOnly(s: Cluster, c: NodeId, a: Action)
    requires Inv(s) && Enabled(s, a) && Actor(a) == c
    ensures c in Apply(s, a).nodes && Apply(s, a).nodes == s.nodes[c := Apply(s, a).nodes[c]]
  {
  }

  lemma JoinChains(s1: seq<Cluster>, a1: seq<Action>, s2: seq<Cluster>, a2: seq<Action>)
    requires Chain(s1, a1) && Chain(s2, a2) && s1[|s1| - 1] == s2[0]
    ensures Chain(s1 + s2[1..], a1 + a2)
  {
    hide Fair;
    var s, a := s1 + s2[1..], a1 + a2;
    forall k | 0 <= k < |a|
      ensures Fair(s[k], a[k], s[k + 1])
    {
      if k >= |a1| {
        assert Fair(s2[k - |a1|], a2[k - |a1|], s2[k - |a1| + 1]);
        assert s[k] == s2[k - |a1|] && s[k + 1] == s2[k - |a1| + 1];
      }
    }
  }

  function Start(): Cluster {
    Cluster(map[1 := Voter(1, 0, 0), 2 := Voter(2, 0, 0), 3 := Voter(3, 0, 0), 10 := Idle(10), 11 := Idle(11)], multiset{})
  }

  lemma FreshIsOk(n: NodeId)
    requires n in {1, 2, 3, 10, 11}
    ensures NodeOk(Fresh(n)) && Fresh(n) == Voter(n, 0, 0) == Idle(n)
  {
    TableIsWellFormed(n, 0);
  }

  lemma StartIsInitial()
    ensures Initial(Start())
  {
    hide NodeOk, Table;
    forall n | n in {1, 2, 3, 10, 11}
      ensures NodeOk(Fresh(n)) && Fresh(n) == Voter(n, 0, 0) == Idle(n)
    {
      FreshIsOk(n);
    }
  }

  lemma OneReplica(s: Cluster, c: NodeId, v: NodeId, base: nat) returns (states: seq<Cluster>, acts: seq<Action>)
    requires Ready(s, c, v)
    ensures |acts| == 9 && |states| == 10 && states[0] == s
    ensures Chain(states, acts) && Inv(states[9])
    ensures acts[8].Failover? && acts[8].id == c
    ensures Wins(states[8], acts[8], 2)
    ensures states[9].net == multiset{} && Others(s, states[9], c, v)
    ensures OneClock(acts, 1000, base + 10000, base + 22000)
  {
    hide Chain, Inv, Wins, Ready, Late, Others, OneClock;
    var s1, a1 := FirstAttempt(s, c, v, base);
    var s2, a2 := SecondAttempt(s, s1[5], c, v, base);
    JoinChains(s1, a1, s2, a2);
    JoinClocks(a1, a2, 1000, base + 10000, base + 20000, base + 20500, base + 22000);
    states, acts := s1 + s2[1..], a1 + a2;
  }

  lemma ChainIsRun(states: seq<Cluster>, acts: seq<Action>)
    requires Chain(states, acts) && Initial(states[0])
    ensures Run(states, acts) && FixedMasters(states, acts, {1, 2, 3}) && VotesDrained(states, acts)
  {
    hide Apply, Inv, Legal, HandleSlaveFailover, CountsVote, SeeHeader, NoVoteInFlight;
    forall k | 0 <= k < |acts|
      ensures Step(states[k], acts[k], states[k + 1])
    {
      assert Fair(states[k], acts[k], states[k + 1]);
    }
    assert |{1, 2, 3}| == 3;
    forall k | 0 <= k < |acts|
      ensures CountsAck(states[k], acts[k]) ==> acts[k].m.src in {1, 2, 3}
      ensures forall e | Wins(states[k], acts[k], e) :: states[k].nodes[acts[k].id].view.size == |{1, 2, 3}|
      ensures Reschedules(states[k], acts[k]) ==> NoVoteInFlight(states[k], acts[k].id)
    {
      assert Fair(states[k], acts[k], states[k + 1]);
    }
  }

  /** Without clean starts election safety fails, with three masters that never change, one clock for all, and although no
      vote is in flight when a replica reschedules. */
  lemma TwoReplicasWinOneEpoch() returns (states: seq<Cluster>, acts: seq<Action>, i: nat, j: nat)
    ensures Run(states, acts) && FixedMasters(states, acts, {1, 2, 3}) && VotesDrained(states, acts)
    ensures i < j < |acts| && acts[i].Failover? && acts[j].Failover? && acts[i].id != acts[j].id
    ensures Wins(states[i], acts[i], 2)
    ensures Wins(states[j], acts[j], 2)
    ensures OneClock(acts, 1000, 10000, 42000)
    ensures !CleanStarts(states, acts)
  {
    StartIsInitial();
    hide Fair, Inv, Wins, Enabled, CleanStarts, FixedMasters, VotesDrained, OneClock;
    var s1, a1 := OneReplica(Start(), 10, 2, 0);
    var s2, a2 := OneReplica(s1[9], 11, 3, 20000);
    JoinChains(s1, a1, s2, a2);
    JoinClocks(a1, a2, 1000, 10000, 22000, 30000, 42000);
    states, acts, i, j := s1 + s2[1..], a1 + a2, 8, 17;
    ChainIsRun(states, acts);
    assert states[17] == s2[8] && acts[17] == a2[8];
    if CleanStarts(states, acts) {
      ElectionSafety(states, acts, {1, 2, 3}, 8, 17, 2);
    }
  }
}
