/**
 The hypotheses of election safety can be met: in a cluster of three masters a
 replica whose election starts clean collects two votes and wins.
 */
module ElectionWitness {
  import opened ClusterNode
  import opened Cluster
  import opened Election
  import opened ElectionHypotheses
  import opened ElectionCounterexample

  ghost predicate Two(c: NodeId, v: NodeId, w: NodeId) {
    Pair(c, v) && Pair(c, w) && v != w
  }

  /** The candidate asks both masters. */
  lemma StartBoth(s: Cluster, c: NodeId, v: NodeId, w: NodeId, e: nat, count: nat, time: int)
    requires Two(c, v, w) && Holds(s, c, Candidate(c, e, count, false, time), multiset{})
    ensures Fair(s, Failover(c, At(time), [v, w]),
                 With(s, c, Candidate(c, e + 1, count, true, time), multiset{Request(c, v, e + 1), Request(c, w, e + 1)}))
  {
    hide Fair, Inv, Candidate, Request, At, With;
    StartMany(s, c, e, count, time, [v, w]);
    assert seq(2, i requires 0 <= i < 2 => Request(c, [v, w][i], e + 1)) == [Request(c, v, e + 1), Request(c, w, e + 1)];
    AsMultiset(Request(c, v, e + 1), Request(c, w, e + 1));
  }

  lemma AsMultiset<T>(a: T, b: T)
    ensures multiset([a, b]) == multiset{a, b}
  {
  }

  /** Both masters vote. */
  lemma BothVote(s: Cluster, c: NodeId, v: NodeId, w: NodeId, e: nat, now: int) returns (t1: Cluster, t2: Cluster)
    requires Two(c, v, w) && now >= 2000 && Holds(s, v, Voter(v, e, 0), multiset{Request(c, v, e + 1), Request(c, w, e + 1)})
    requires Holds(s, w, Voter(w, e, 0), s.net)
    ensures Fair(s, Deliver(Request(c, v, e + 1), Plain(now)), t1) && Inv(t1)
    ensures Fair(t1, Deliver(Request(c, w, e + 1), Plain(now)), t2) && Inv(t2)
    ensures t2.net == multiset{Ack(v, c, e + 1), Ack(w, c, e + 1)}
    ensures t2.nodes == s.nodes[v := Voter(v, e + 1, now)][w := Voter(w, e + 1, now)]
  {
    hide Fair, Inv, Voter, Request, Ack;
    var r, r', k, k' := Request(c, v, e + 1), Request(c, w, e + 1), Ack(v, c, e + 1), Ack(w, c, e + 1);
    SwapFirst(r, r', k);
    SwapFirst(r', k, k');
    VoteAmong(s, c, v, e, 0, now);
    t1 := With(s, v, Voter(v, e + 1, now), s.net - multiset{r} + multiset{k});
    FairKeepsInv(s, Deliver(r, Plain(now)), t1);
    VoteAmong(t1, c, w, e, 0, now);
    t2 := With(t1, w, Voter(w, e + 1, now), t1.net - multiset{r'} + multiset{k'});
    FairKeepsInv(t1, Deliver(r', Plain(now)), t2);
  }

  lemma SwapFirst<T>(a: T, b: T, c: T)
    ensures multiset{a, b} - multiset{a} + multiset{c} == multiset{b, c}
    ensures multiset{a, b} - multiset{a} == multiset{b}
    ensures multiset{b} - multiset{b} == multiset{}
  {
  }

  /** Both votes are counted. */
  lemma BothCount(s: Cluster, c: NodeId, v: NodeId, w: NodeId, e: nat, time: int, now: int) returns (t1: Cluster, t2: Cluster)
    requires Two(c, v, w) && Holds(s, c, Candidate(c, e, 0, true, time), multiset{Ack(v, c, e), Ack(w, c, e)})
    ensures Fair(s, Deliver(Ack(v, c, e), Plain(now)), t1) && Inv(t1)
    ensures Fair(t1, Deliver(Ack(w, c, e), Plain(now)), t2) && Inv(t2)
    ensures t2 == Cluster(s.nodes[c := Candidate(c, e, 2, true, time)], multiset{})
  {
    hide Fair, Inv, Candidate, Ack;
    var k, k' := Ack(v, c, e), Ack(w, c, e);
    SwapFirst(k, k', k);
    CountAmong(s, c, v, e, 0, true, time, now);
    t1 := With(s, c, Candidate(c, e, 1, true, time), s.net - multiset{k});
    FairKeepsInv(s, Deliver(k, Plain(now)), t1);
    CountAmong(t1, c, w, e, 1, true, time, now);
    t2 := With(t1, c, Candidate(c, e, 2, true, time), t1.net - multiset{k'});
    FairKeepsInv(t1, Deliver(k', Plain(now)), t2);
    assert t2.nodes == s.nodes[c := Candidate(c, e, 2, true, time)];
  }

  lemma CountOf(c: NodeId, e: nat, time: int)
    ensures Candidate(c, e, 0, false, time).authCount == 0
  {
  }

  /** Scheduled, and started. */
  lemma Begin(s: Cluster, c: NodeId, v: NodeId, w: NodeId, e: nat, time: int) returns (t1: Cluster, t2: Cluster)
    requires Two(c, v, w) && time > 4000 && Holds(s, c, Candidate(c, e, 0, false, 0), multiset{})
    ensures Fair(s, Failover(c, At(time), []), t1) && Inv(t1) && c in t1.nodes && t1.nodes[c].authCount == 0
    ensures Fair(t1, Failover(c, At(time + 500), [v, w]), t2) && Inv(t2)
    ensures t2.nodes == s.nodes[c := Candidate(c, e + 1, 0, true, time + 500)]
    ensures t2.net == multiset{Request(c, v, e + 1), Request(c, w, e + 1)}
  {
    CountOf(c, e, time + 500);
    hide Fair, Inv, Candidate, Request, At;
    ScheduleAgain(s, c, v, e, 0, false, 0, time);
    t1 := With(s, c, Candidate(c, e, 0, false, time + 500), multiset{});
    StartBoth(t1, c, v, w, e, 0, time + 500);
    t2 := With(t1, c, Candidate(c, e + 1, 0, true, time + 500), multiset{Request(c, v, e + 1), Request(c, w, e + 1)});
    FairKeepsInv(t1, Failover(c, At(time + 500), [v, w]), t2);
    assert t2.nodes == s.nodes[c := Candidate(c, e + 1, 0, true, time + 500)];
  }

  /** One clean election, from scheduling to victory. */
  lemma Attempt(s: Cluster, c: NodeId, v: NodeId, w: NodeId, e: nat, time: int)
    returns (states: seq<Cluster>, acts: seq<Action>)
    requires Two(c, v, w) && time > 4000 && Holds(s, c, Candidate(c, e, 0, false, 0), multiset{})
    requires Holds(s, v, Voter(v, e, 0), multiset{}) && Holds(s, w, Voter(w, e, 0), multiset{})
    ensures |acts| == 7 && |states| == 8
    ensures Chain(states, acts) && states[0] == s && Wins(states[6], acts[6], e + 1)
    ensures acts[0].Failover? && acts[1].Failover? && acts[0].id == acts[1].id == c
    ensures c in states[1].nodes && states[1].nodes[c].authCount == 0 && forall k | 2 <= k < 6 :: acts[k].Deliver?
    ensures OneClock(acts, 1000, time, time + 500)
  {
    var schedule, start, win := Failover(c, At(time), []), Failover(c, At(time + 500), [v, w]), Failover(c, At(time + 500), []);
    hide Fair, Inv, Wins, Enabled, Candidate, Voter, Request, Ack, At, Plain, Apply, Timed, OneClock;
    var t1, t2 := Begin(s, c, v, w, e, time);
    var t3, t4 := BothVote(t2, c, v, w, e, time + 500);
    var t5, t6 := BothCount(t4, c, v, w, e + 1, time + 500, time + 500);
    WinStep(t6, c, e + 1, time + 500, time + 500);
    states := [s, t1, t2, t3, t4, t5, t6, Apply(t6, win)];
    acts := [schedule, start, Deliver(Request(c, v, e + 1), Plain(time + 500)), Deliver(Request(c, w, e + 1), Plain(time + 500)),
             Deliver(Ack(v, c, e + 1), Plain(time + 500)), Deliver(Ack(w, c, e + 1), Plain(time + 500)), win];
    FailoverTimed(c, time, []);
    FailoverTimed(c, time + 500, [v, w]);
    DeliverTimed(Request(c, v, e + 1), time + 500);
    DeliverTimed(Request(c, w, e + 1), time + 500);
    DeliverTimed(Ack(v, c, e + 1), time + 500);
    DeliverTimed(Ack(w, c, e + 1), time + 500);
    FailoverTimed(c, time + 500, []);
    var t := time + 500;
    ClockOf(acts, [time, t, t, t, t, t, t], time, t);
  }

  /** A replica wins epoch 1 in a run that meets the hypotheses of ElectionSafety. */
  lemma AReplicaWins() returns (states: seq<Cluster>, acts: seq<Action>)
    ensures Run(states, acts) && FixedMasters(states, acts, {1, 2, 3}) && CleanStarts(states, acts)
    ensures |acts| == 7 && Wins(states[6], acts[6], 1) && OneClock(acts, 1000, 10000, 10500)
  {
    StartIsInitial();
    hide Chain, OneClock, Wins, Inv, Voter, Idle, CleanStarts, FixedMasters, VotesDrained, Run, Table;
    CandidateAtStart();
    states, acts := Attempt(Start(), 10, 2, 3, 0, 10000);
    ChainIsRun(states, acts);
    OneStart(states, acts, 10);
  }

  lemma CandidateAtStart()
    ensures Idle(10) == Candidate(10, 0, 0, false, 0) && Candidate(10, 0, 0, false, 0).authCount == 0
    ensures Inv(Start())
  {
    StartIsInitial();
    hide Inv, Table;
  }

  /** The only election starts with a count of zero; winning is not starting. */
  lemma WinIsNoStart(s: Cluster, a: Action, e: nat)
    requires Wins(s, a, e)
    ensures !Starts(s, a)
  {
    hide HandleSlaveFailover, Inv, Enabled;
  }

  lemma DeliveryIsNoStart(s: Cluster, a: Action)
    requires a.Deliver?
    ensures !Starts(s, a)
  {
  }

  lemma OneStart(states: seq<Cluster>, acts: seq<Action>, c: NodeId)
    requires Run(states, acts) && |acts| == 7 && Wins(states[6], acts[6], 1)
    requires acts[0].Failover? && acts[1].Failover? && acts[0].id == acts[1].id == c
    requires c in states[0].nodes && states[0].nodes[c].authCount == 0
    requires c in states[1].nodes && states[1].nodes[c].authCount == 0
    requires forall k | 2 <= k < 6 :: acts[k].Deliver?
    ensures CleanStarts(states, acts)
  {
    hide HandleSlaveFailover, Inv, Enabled, Run, Wins;
    RunLength(states, acts);
    WinIsNoStart(states[6], acts[6], 1);
    forall k | 0 <= k < |acts|
      ensures Starts(states[k], acts[k]) ==> states[k].nodes[acts[k].id].authCount == 0
    {
      if 2 <= k < 6 {
        DeliveryIsNoStart(states[k], acts[k]);
      }
    }
  }
}
