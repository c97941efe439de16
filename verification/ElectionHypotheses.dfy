/**
 When elections start clean, and what happens when one does not.
 */
module ElectionHypotheses {
  import opened Common
  import opened ClusterNode
  import opened Cluster
  import opened Election

  /** No vote request of x and no vote for x is in flight. */
  ghost predicate NothingInFlight(s: Cluster, x: NodeId) {
    forall m | m in s.net :: !(m.kind.AuthRequest? && m.src == x) && !(m.kind.AuthAck? && m.dst == x)
  }

  /** A scheduled attempt has counted nothing, and nothing that could be counted is in flight. */
  ghost predicate Drained(s: Cluster) {
    forall x | x in s.nodes && !s.nodes[x].authSent :: s.nodes[x].authCount == 0 && NothingInFlight(s, x)
  }

  ghost predicate Reschedules(s: Cluster, a: Action) {
    Inv(s) && Enabled(s, a) && a.Failover? && HandleSlaveFailover(s.nodes[a.id], a.env).1.Scheduled?
  }

  /** A replica reschedules only when its earlier requests and the votes for them have all arrived or been lost. */
  ghost predicate DrainedReschedules(states: seq<Cluster>, acts: seq<Action>)
    requires Run(states, acts)
  {
    forall k | 0 <= k < |acts| ::
      Reschedules(states[k], acts[k]) ==> NothingInFlight(states[k], acts[k].id)
  }

  /** No vote for x is in flight. */
  ghost predicate NoVoteInFlight(s: Cluster, x: NodeId) {
    forall m | m in s.net :: !(m.kind.AuthAck? && m.dst == x)
  }

  /** A replica reschedules only when the votes for it have all arrived or been lost; its requests may still be in flight. */
  ghost predicate VotesDrained(states: seq<Cluster>, acts: seq<Action>)
    requires Run(states, acts)
  {
    forall k | 0 <= k < |acts| ::
      Reschedules(states[k], acts[k]) ==> NoVoteInFlight(states[k], acts[k].id)
  }

  /** The time a step reads, and the node timeout it goes by. */
  function Reads(a: Action): Option<(int, nat)> {
    match a
    case Deliver(_, o) => Some((o.now, o.nodeTimeout))
    case Failover(_, env, _) => Some((env.now, env.nodeTimeout))
    case _ => None
  }

  /** All nodes go by one clock, which runs from 'lo' to 'hi', and by one node timeout. */
  ghost predicate OneClock(acts: seq<Action>, timeout: nat, lo: int, hi: int) {
    && (forall k | 0 <= k < |acts| && Reads(acts[k]).Some? ::
          Reads(acts[k]).value.1 == timeout && lo <= Reads(acts[k]).value.0 <= hi)
    && (forall j, k | 0 <= j < k < |acts| && Reads(acts[j]).Some? && Reads(acts[k]).Some? ::
          Reads(acts[j]).value.0 <= Reads(acts[k]).value.0)
  }

  lemma QuietKeepsDrained(s: Cluster, t: Cluster)
    requires Drained(s) && t.nodes.Keys == s.nodes.Keys
    requires forall x | x in s.nodes :: Ballot(t.nodes[x]) == Ballot(s.nodes[x])
    requires forall m | m in t.net && BallotPacket(m) :: m in s.net && t.net[m] <= s.net[m]
    ensures Drained(t)
  {
    forall x | x in t.nodes && !t.nodes[x].authSent
      ensures t.nodes[x].authCount == 0 && NothingInFlight(t, x)
    {
      assert Ballot(t.nodes[x]) == Ballot(s.nodes[x]);
    }
  }

  lemma VoteKeepsDrained(s: Cluster, t: Cluster, m: Message)
    requires Drained(s) && t.nodes.Keys == s.nodes.Keys
    requires m in s.net && m.kind.AuthRequest?
    requires VoteApplied(s, t, m.dst, m.src, m.currentEpoch)
    ensures Drained(t)
  {
    var ack: Message :|
      && ack.kind.AuthAck? && ack.src == m.dst && ack.dst == m.src && ack.currentEpoch == m.currentEpoch
      && forall p | p in t.net && BallotPacket(p) :: t.net[p] <= (s.net + multiset{ack})[p];
    forall x | x in t.nodes && !t.nodes[x].authSent
      ensures t.nodes[x].authCount == 0 && NothingInFlight(t, x)
    {
      assert Ballot(t.nodes[x]).3 == Ballot(s.nodes[x]).3 && Ballot(t.nodes[x]).2 == Ballot(s.nodes[x]).2;
      forall p | p in t.net
        ensures !(p.kind.AuthRequest? && p.src == x) && !(p.kind.AuthAck? && p.dst == x)
      {
        if BallotPacket(p) {
          assert p in s.net || p == ack;
        }
      }
    }
  }

  lemma AckKeepsDrained(s: Cluster, a: Action)
    requires Inv(s) && Enabled(s, a) && a.Deliver? && a.m.kind.AuthAck? && Drained(s)
    ensures Drained(Apply(s, a))
  {
    AckApply(s, a);
    assert a.m in s.net;
    hide Apply, Local, Inv, Legal, CountsAck;
    var t := Apply(s, a);
    forall x | x in t.nodes && !t.nodes[x].authSent
      ensures t.nodes[x].authCount == 0 && NothingInFlight(t, x)
    {
      assert Ballot(t.nodes[x]).3 == Ballot(s.nodes[x]).3;
      assert x != a.m.dst;
    }
  }

  lemma FailoverKeepsDrained(s: Cluster, a: Action)
    requires Inv(s) && Enabled(s, a) && a.Failover? && Drained(s)
    requires Reschedules(s, a) ==> NothingInFlight(s, a.id)
    ensures Drained(Apply(s, a))
  {
    hide Apply, Local, Inv, Legal, HandleSlaveFailover;
    FailoverApply(s, a);
    var t := Apply(s, a);
    forall x | x in t.nodes && !t.nodes[x].authSent
      ensures t.nodes[x].authCount == 0 && NothingInFlight(t, x)
    {
      forall p | p in t.net
        ensures !(p.kind.AuthRequest? && p.src == x) && !(p.kind.AuthAck? && p.dst == x)
      {
        if !(p in s.net && t.net[p] <= s.net[p]) {
          assert Ballot(t.nodes[a.id]).3;
        }
      }
    }
  }

  lemma StepKeepsDrained(s: Cluster, a: Action)
    requires Inv(s) && Enabled(s, a) && Drained(s)
    requires Reschedules(s, a) ==> NothingInFlight(s, a.id)
    ensures Drained(Apply(s, a))
  {
    if a.Failover? {
      FailoverKeepsDrained(s, a);
    } else if a.Deliver? && a.m.kind.AuthAck? {
      AckKeepsDrained(s, a);
    } else if a.Deliver? && a.m.kind.AuthRequest? {
      assert a.m in s.net;
      if CastsVote(s, a) {
        VoteApply(s, a);
        hide Apply, Local, Inv, Legal, Drained;
        VoteKeepsDrained(s, Apply(s, a), a.m);
      } else {
        RefusalApply(s, a);
        hide Apply, Local, Inv, Legal, Drained;
        QuietKeepsDrained(s, Apply(s, a));
      }
    } else {
      QuietApply(s, a);
      hide Apply, Local, Inv, Legal, Drained;
      QuietKeepsDrained(s, Apply(s, a));
    }
  }

  lemma StartIsDrained(states: seq<Cluster>, acts: seq<Action>)
    requires Run(states, acts)
    ensures |states| > 0 && Drained(states[0])
  {
    hide Inv, Step;
  }

  lemma DrainedAt(states: seq<Cluster>, acts: seq<Action>, k: nat)
    requires Run(states, acts) && DrainedReschedules(states, acts) && k < |acts|
    ensures |states| == |acts| + 1
    ensures Reschedules(states[k], acts[k]) ==> NothingInFlight(states[k], acts[k].id)
  {
    hide Step, Initial, Reschedules, NothingInFlight;
  }

  /** An election that starts in a drained state starts with a count of zero. */
  lemma StartIsClean(s: Cluster, a: Action)
    requires Drained(s) && Starts(s, a)
    ensures a.Failover? && a.id in s.nodes && s.nodes[a.id].authCount == 0
  {
    hide NothingInFlight;
  }

  lemma {:induction false} RunIsDrained(states: seq<Cluster>, acts: seq<Action>, k: nat)
    requires Run(states, acts) && DrainedReschedules(states, acts) && k < |states|
    ensures Drained(states[k])
  {
    hide Run, Apply, Inv, Enabled, Drained, DrainedReschedules, Reschedules, NothingInFlight;
    RunLength(states, acts);
    if k == 0 {
      StartIsDrained(states, acts);
    } else {
      RunIsDrained(states, acts, k - 1);
      RunStep(states, acts, k - 1);
      DrainedAt(states, acts, k - 1);
      StepKeepsDrained(states[k - 1], acts[k - 1]);
    }
  }

  /** Draining requests and votes before rescheduling is enough for election safety. */
  lemma DrainedIsClean(states: seq<Cluster>, acts: seq<Action>)
    requires Run(states, acts) && DrainedReschedules(states, acts)
    ensures CleanStarts(states, acts)
  {
    RunLength(states, acts);
    hide Run, Drained, DrainedReschedules, Starts;
    forall k | 0 <= k < |acts| && Starts(states[k], acts[k])
      ensures acts[k].Failover? && acts[k].id in states[k].nodes && states[k].nodes[acts[k].id].authCount == 0
    {
      RunIsDrained(states, acts, k);
      StartIsClean(states[k], acts[k]);
    }
  }

  /** Replica x starts an election at this action. */
  ghost predicate StartsHere(s: Cluster, a: Action, x: NodeId) {
    Starts(s, a) && a.id == x
  }

  /** The attempt x started at step i is still its latest at step k. */
  ghost predicate LatestStart(states: seq<Cluster>, acts: seq<Action>, i: nat, k: nat, x: NodeId) {
    && i < k < |states| == |acts| + 1
    && StartsHere(states[i], acts[i], x)
    && forall j | i < j < k :: !StartsHere(states[j], acts[j], x)
  }

  lemma TrackStale(s: Cluster, b: Book, a: Action, x: NodeId)
    requires Inv(s) && Enabled(s, a)
    ensures StartsHere(s, a, x) ==>
      x in s.nodes && x in Track(b, s, a).stale && Track(b, s, a).stale[x] == s.nodes[x].authCount
    ensures x in b.stale && !StartsHere(s, a, x) ==>
      x in Track(b, s, a).stale && Track(b, s, a).stale[x] == b.stale[x]
  {
    hide HandleSlaveFailover, SeeHeader, CountsVote, Grants, Legal, NodeOk, MessageOk;
  }

  lemma BookStep(states: seq<Cluster>, acts: seq<Action>, k: nat, x: NodeId)
    requires Run(states, acts) && k < |acts|
    ensures var b, b' := BookAt(states, acts, k), BookAt(states, acts, k + 1);
      && (StartsHere(states[k], acts[k], x) ==>
            x in states[k].nodes && x in b'.stale && b'.stale[x] == states[k].nodes[x].authCount)
      && (x in b.stale && !StartsHere(states[k], acts[k], x) ==> x in b'.stale && b'.stale[x] == b.stale[x])
  {
    RunStep(states, acts, k);
    hide Apply, Track, StartsHere, Enabled, Inv, Step;
    TrackStale(states[k], BookAt(states, acts, k), acts[k], x);
  }

  lemma {:induction false} StaleIsStartCount(states: seq<Cluster>, acts: seq<Action>, i: nat, k: nat, x: NodeId)
    requires Run(states, acts) && LatestStart(states, acts, i, k, x)
    ensures x in BookAt(states, acts, k).stale && x in states[i].nodes
    ensures BookAt(states, acts, k).stale[x] == states[i].nodes[x].authCount
    decreases k
  {
    hide Run, BookAt, StartsHere;
    BookStep(states, acts, k - 1, x);
    if i < k - 1 {
      StaleIsStartCount(states, acts, i, k - 1, x);
    }
  }

  /** The count of a running attempt is the number of voters of its own epoch exactly when
      the attempt started with a count of zero. */
  lemma CountIsGenuineIff(states: seq<Cluster>, acts: seq<Action>, i: nat, k: nat, x: NodeId)
    requires Run(states, acts) && LatestStart(states, acts, i, k, x)
    requires x in states[k].nodes && states[k].nodes[x].authSent
    ensures var n, b := states[k].nodes[x], BookAt(states, acts, k);
      && x in b.tally
      && (forall v | v in b.tally[x] :: (v, n.authEpoch) in b.votes && b.votes[(v, n.authEpoch)] == x)
      && (n.authCount == |b.tally[x]| <==> states[i].nodes[x].authCount == 0)
  {
    StaleIsStartCount(states, acts, i, k, x);
    RunKeepsBook(states, acts, k);
    hide LatestStart, Run, BookAt;
    assert CountOk(x, states[k].nodes[x], BookAt(states, acts, k));
  }
}
