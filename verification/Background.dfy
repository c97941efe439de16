/**
 The background queue: submitters and one worker share a list and a counter
 under a lock. A run is any interleaving of their steps.
 */
module Background {
  type Job = nat
  type Submitter = nat

  datatype Holder = Free | Sub(who: Submitter) | Worker

  /** A list node: its identity and the job it carries. */
  datatype Node = Node(id: nat, job: Job)

  /** Where a submitter is in bioSubmitJob, holding the lock. */
  datatype Place = Locked(job: Job) | Appended | Counted | Signalled

  /** Where the worker is in its loop. It holds the lock at the top, after relocking and after deleting. */
  datatype Loop = Top | Waiting(woken: bool) | Woken | Running(node: Node) | Ran(node: Node) | Relocked(node: Node) | Deleted

  datatype State = State(lock: Holder, queue: seq<Node>, pending: int, next: nat, subs: map<Submitter, Place>, worker: Loop,
                         submitted: seq<Job>, executed: seq<Job>)

  datatype Action =
    | Lock(who: Submitter, job: Job) | Append(who: Submitter) | Count(who: Submitter) | Signal(who: Submitter) | Unlock(who: Submitter)
    | Wait | Wake | Resume | Take | Run | Relock | Delete | Uncount
    | Read(value: int)

  predicate Holds(w: Loop) {
    w.Top? || w.Relocked? || w.Deleted?
  }

  predicate Enabled(s: State, a: Action) {
    match a
    case Lock(i, _) => s.lock.Free? && i !in s.subs
    case Append(i) => i in s.subs && s.subs[i].Locked?
    case Count(i) => i in s.subs && s.subs[i].Appended?
    case Signal(i) => i in s.subs && s.subs[i].Counted?
    case Unlock(i) => i in s.subs && s.subs[i].Signalled?
    case Wait => s.worker.Top? && s.queue == []
    // A waiting thread may also wake without a signal.
    case Wake => s.worker.Waiting?
    case Resume => s.worker.Woken? && s.lock.Free?
    case Take => s.worker.Top? && s.queue != []
    case Run => s.worker.Running?
    case Relock => s.worker.Ran? && s.lock.Free?
    case Delete => s.worker.Relocked?
    case Uncount => s.worker.Deleted?
    case Read(value) => s.lock.Free? && value == s.pending
  }

  /** listDelNode: the node taken out wherever it is. */
  function Remove(q: seq<Node>, id: nat): seq<Node> {
    if q == [] then [] else if q[0].id == id then q[1..] else [q[0]] + Remove(q[1..], id)
  }

  function Apply(s: State, a: Action): State
    requires Enabled(s, a)
  {
    match a
    case Lock(i, job) => s.(lock := Sub(i), subs := s.subs[i := Locked(job)])
    case Append(i) =>
      var job := s.subs[i].job;
      s.(queue := s.queue + [Node(s.next, job)], next := s.next + 1, subs := s.subs[i := Appended], submitted := s.submitted + [job])
    case Count(i) => s.(pending := s.pending + 1, subs := s.subs[i := Counted])
    case Signal(i) =>
      s.(worker := if s.worker.Waiting? then Waiting(true) else s.worker, subs := s.subs[i := Signalled])
    case Unlock(i) => s.(lock := Free, subs := s.subs - {i})
    case Wait => s.(lock := Free, worker := Waiting(false))
    case Wake => s.(worker := Woken)
    case Resume => s.(lock := Worker, worker := Top)
    case Take => s.(lock := Free, worker := Running(s.queue[0]))
    case Run => s.(worker := Ran(s.worker.node), executed := s.executed + [s.worker.node.job])
    case Relock => s.(lock := Worker, worker := Relocked(s.worker.node))
    case Delete => s.(queue := Remove(s.queue, s.worker.node.id), worker := Deleted)
    case Uncount => s.(pending := s.pending - 1, worker := Top)
    case Read(_) => s
  }

  /** bioInit: an empty queue, and the worker about to take the lock. */
  predicate Initial(s: State) {
    s == State(Free, [], 0, 0, map[], Woken, [], [])
  }

  function Jobs(q: seq<Node>): (r: seq<Job>)
    ensures |r| == |q| && forall i | 0 <= i < |q| :: r[i] == q[i].job
  {
    seq(|q|, i requires 0 <= i < |q| => q[i].job)
  }

  /** At most one thread holds the lock, and only inside its critical section. */
  ghost predicate Exclusive(s: State) {
    && (forall i | i in s.subs :: s.lock == Sub(i))
    && (s.lock.Sub? ==> s.lock.who in s.subs)
    && (s.lock.Worker? <==> Holds(s.worker))
  }

  /** A submitter between adding its job and counting it. */
  predicate Uncounted(s: State) {
    s.lock.Sub? && s.lock.who in s.subs && s.subs[s.lock.who].Appended?
  }

  /** A submitter that has added its job and not signalled yet. */
  predicate Unsignalled(s: State) {
    s.lock.Sub? && s.lock.who in s.subs && (s.subs[s.lock.who].Appended? || s.subs[s.lock.who].Counted?)
  }

  /** The node the worker holds is the head of the queue. */
  ghost predicate HoldsHead(s: State) {
    s.worker.Running? || s.worker.Ran? || s.worker.Relocked? ==> s.queue != [] && s.queue[0] == s.worker.node
  }

  /** Jobs executed and jobs queued are the jobs submitted, in order; the job at the head may have run already. */
  ghost predicate InOrder(s: State) {
    s.submitted == s.executed + Jobs(if (s.worker.Ran? || s.worker.Relocked?) && s.queue != [] then s.queue[1..] else s.queue)
  }

  /** The counter differs from the queue only inside a critical section. */
  ghost predicate Counting(s: State) {
    s.pending == |s.queue| - (if Uncounted(s) then 1 else 0) + (if s.worker.Deleted? then 1 else 0)
  }

  /** No wake-up is lost: the worker waits for a signal only while there is nothing to do, or one is about to come. */
  ghost predicate Attentive(s: State) {
    s.worker.Waiting? && !s.worker.woken && s.queue != [] ==> Unsignalled(s)
  }

  ghost predicate Inv(s: State) {
    Exclusive(s) && HoldsHead(s) && InOrder(s) && Counting(s) && Attentive(s)
  }

  lemma KeepsExclusive(s: State, a: Action)
    requires Exclusive(s) && Enabled(s, a)
    ensures Exclusive(Apply(s, a))
  {
    hide Remove;
  }

  lemma RemoveHead(q: seq<Node>)
    requires q != []
    ensures Remove(q, q[0].id) == q[1..]
  {
  }

  lemma KeepsHead(s: State, a: Action)
    requires Exclusive(s) && HoldsHead(s) && Enabled(s, a)
    ensures HoldsHead(Apply(s, a))
  {
    hide Remove;
  }

  lemma KeepsOrder(s: State, a: Action)
    requires HoldsHead(s) && InOrder(s) && Enabled(s, a)
    ensures InOrder(Apply(s, a))
  {
    hide Remove, Jobs;
    match a {
      case Append(i) => AppendOrder(s, i);
      case Run => RunOrder(s);
      case Delete => DeleteOrder(s);
      case _ =>
    }
  }

  lemma JobsFirst(done: seq<Job>, q: seq<Node>)
    requires q != []
    ensures done + Jobs(q) == done + [q[0].job] + Jobs(q[1..])
  {
    assert Jobs(q) == [q[0].job] + Jobs(q[1..]);
  }

  lemma RunOrder(s: State)
    requires HoldsHead(s) && InOrder(s) && Enabled(s, Run)
    ensures InOrder(Apply(s, Run))
  {
    hide Jobs, Remove;
    JobsFirst(s.executed, s.queue);
  }

  lemma DeleteOrder(s: State)
    requires HoldsHead(s) && InOrder(s) && Enabled(s, Delete)
    ensures InOrder(Apply(s, Delete))
  {
    RemoveHead(s.queue);
  }

  lemma AppendOrder(s: State, i: Submitter)
    requires HoldsHead(s) && InOrder(s) && Enabled(s, Append(i))
    ensures InOrder(Apply(s, Append(i)))
  {
    var t := Apply(s, Append(i));
    var skip := s.worker.Ran? || s.worker.Relocked?;
    var before := if skip && s.queue != [] then s.queue[1..] else s.queue;
    var after := if skip && t.queue != [] then t.queue[1..] else t.queue;
    assert after == before + [Node(s.next, s.subs[i].job)];
    assert Jobs(after) == Jobs(before) + [s.subs[i].job];
  }

  lemma KeepsCount(s: State, a: Action)
    requires Exclusive(s) && HoldsHead(s) && Counting(s) && Enabled(s, a)
    ensures Counting(Apply(s, a))
  {
    if a.Delete? {
      RemoveHead(s.queue);
    }
    hide Remove;
  }

  lemma KeepsAttentive(s: State, a: Action)
    requires Exclusive(s) && Attentive(s) && Enabled(s, a)
    ensures Attentive(Apply(s, a))
  {
    hide Remove;
  }

  lemma StepKeepsInv(s: State, a: Action)
    requires Inv(s) && Enabled(s, a)
    ensures Inv(Apply(s, a))
  {
    hide Exclusive, HoldsHead, InOrder, Counting, Attentive, Apply, Enabled;
    KeepsExclusive(s, a);
    KeepsHead(s, a);
    KeepsOrder(s, a);
    KeepsCount(s, a);
    KeepsAttentive(s, a);
  }

  /** A run: a start, and one enabled step after the other. */
  ghost predicate IsRun(states: seq<State>, actions: seq<Action>) {
    && |states| == |actions| + 1 && Initial(states[0])
    && forall k | 0 <= k < |actions| :: Enabled(states[k], actions[k]) && states[k + 1] == Apply(states[k], actions[k])
  }

  lemma {:induction false} RunInv(states: seq<State>, actions: seq<Action>, k: nat)
    requires IsRun(states, actions) && k < |states|
    ensures Inv(states[k])
  {
    if k > 0 {
      RunInv(states, actions, k - 1);
      StepKeepsInv(states[k - 1], actions[k - 1]);
    }
  }

  /** In every state of every run: jobs run once each, in the order of submission; with the lock free the counter is the
      length of the queue; and the node the worker holds is still the head. */
  lemma JobsRunOnceInOrder(states: seq<State>, actions: seq<Action>, k: nat)
    requires IsRun(states, actions) && k < |states|
    ensures var s := states[k];
      && s.executed <= s.submitted
      && (s.lock.Free? ==> s.pending == |s.queue|)
      && (s.worker.Ran? ==> s.queue != [] && s.queue[0] == s.worker.node)
  {
    RunInv(states, actions, k);
  }

  /** A reader that sees no pending job knows that every job submitted so far has run. */
  lemma NothingPending(states: seq<State>, actions: seq<Action>, k: nat)
    requires IsRun(states, actions) && k < |actions| && actions[k] == Read(0)
    ensures states[k].executed == states[k].submitted
  {
    RunInv(states, actions, k);
    assert Enabled(states[k], actions[k]);
    assert states[k].queue == [];
  }

  /** With jobs queued, nobody in the critical section and the worker waiting, it has been woken. */
  lemma NoLostWakeup(states: seq<State>, actions: seq<Action>, k: nat)
    requires IsRun(states, actions) && k < |states|
    ensures var s := states[k]; s.lock.Free? && s.queue != [] && s.worker.Waiting? ==> s.worker.woken
  {
    RunInv(states, actions, k);
  }

  // ----- progress -----

  predicate Own(a: Action) {
    a.Wait? || a.Wake? || a.Resume? || a.Take? || a.Run? || a.Relock? || a.Delete? || a.Uncount?
  }

  /** How many steps of its own the worker makes among some actions. */
  function OwnSteps(actions: seq<Action>): nat {
    if actions == [] then 0 else OwnSteps(actions[..|actions| - 1]) + if Own(actions[|actions| - 1]) then 1 else 0
  }

  /** With jobs queued, the steps of its own after which the worker has run the next one. */
  function ToRun(w: Loop): nat {
    match w
    case Running(_) => 1
    case Top => 2
    case Deleted => 3
    case Woken => 3
    case Relocked(_) => 4
    case Waiting(_) => 4
    case Ran(_) => 5
  }

  /** The same for job number j in the order of submission. */
  function Left(s: State, j: nat): int {
    ToRun(s.worker) + 5 * (j - |s.executed|)
  }

  lemma StepCounts(s: State, a: Action, j: nat)
    requires Inv(s) && Enabled(s, a) && |s.executed| <= j < |s.submitted|
    ensures Left(Apply(s, a), j) == Left(s, j) - if Own(a) then 1 else 0
  {
    hide Remove, Jobs, Exclusive, Counting, Attentive;
  }

  lemma Grow(s: State, a: Action)
    requires Enabled(s, a)
    ensures s.submitted <= Apply(s, a).submitted && s.executed <= Apply(s, a).executed
  {
    hide Remove;
  }

  /** Up to the step that runs the job, the steps made and the steps left add up. */
  ghost predicate Tallied(s: State, t: State, made: nat, j: nat) {
    && s.submitted <= t.submitted
    && (|t.executed| <= j ==> made + Left(t, j) == Left(s, j))
    && (|t.executed| > j ==> made >= Left(s, j))
  }

  lemma CountsOn(s: State, t: State, made: nat, j: nat, a: Action)
    requires Inv(t) && Enabled(t, a) && j < |s.submitted| && Tallied(s, t, made, j)
    ensures Tallied(s, Apply(t, a), made + if Own(a) then 1 else 0, j)
  {
    hide Apply, Enabled, Inv, Own, ToRun;
    Grow(t, a);
    if |t.executed| <= j {
      StepCounts(t, a, j);
      if j < |Apply(t, a).executed| {
        LeftAfter(t, a, j);
      }
    }
  }

  /** The job that has just been run has no step left. */
  lemma LeftAfter(t: State, a: Action, j: nat)
    requires Enabled(t, a) && |t.executed| <= j < |Apply(t, a).executed|
    ensures Left(Apply(t, a), j) == 0
  {
    hide Remove;
  }

  lemma NoStep(s: State, j: nat)
    ensures OwnSteps([]) == 0 && (|s.executed| <= j ==> Tallied(s, s, 0, j))
  {
  }

  lemma OneMore(actions: seq<Action>, k: nat, m: nat)
    requires k < m <= |actions|
    ensures OwnSteps(actions[k..m]) == OwnSteps(actions[k..m - 1]) + if Own(actions[m - 1]) then 1 else 0
  {
    assert actions[k..m][..m - k - 1] == actions[k..m - 1];
  }

  lemma RunStep(states: seq<State>, actions: seq<Action>, k: nat)
    requires IsRun(states, actions) && k < |actions|
    ensures Enabled(states[k], actions[k]) && states[k + 1] == Apply(states[k], actions[k])
  {
    hide Apply, Enabled;
  }

  lemma {:induction false} RunCounts(states: seq<State>, actions: seq<Action>, k: nat, m: nat, j: nat)
    requires IsRun(states, actions) && k <= m < |states| && |states[k].executed| <= j < |states[k].submitted|
    ensures Tallied(states[k], states[m], OwnSteps(actions[k..m]), j)
  {
    hide Initial, Inv, Apply, Enabled, Tallied, Own, OwnSteps;
    if k == m {
      NoStep(states[k], j);
      assert actions[k..m] == [];
    } else {
      RunCounts(states, actions, k, m - 1, j);
      RunInv(states, actions, m - 1);
      RunStep(states, actions, m - 1);
      CountsOn(states[k], states[m - 1], OwnSteps(actions[k..m - 1]), j, actions[m - 1]);
      OneMore(actions, k, m);
    }
  }

  /** From any state of any run where job j is queued: it has run exactly when the worker has made as many steps of its
      own as Left says, at most five for each job up to it, however the steps of others come in between. */
  lemma JobRunsAfter(states: seq<State>, actions: seq<Action>, k: nat, m: nat, j: nat)
    requires IsRun(states, actions) && k <= m < |states| && |states[k].executed| <= j < |states[k].submitted|
    ensures j < |states[m].executed| <==> OwnSteps(actions[k..m]) >= Left(states[k], j)
    ensures 0 < Left(states[k], j) <= 5 * (j + 1 - |states[k].executed|)
    ensures j < |states[m].executed| ==> states[m].executed[j] == states[k].submitted[j]
  {
    hide IsRun;
    RunCounts(states, actions, k, m, j);
    JobsRunOnceInOrder(states, actions, m);
  }

  /** The next step of the thread in the critical section, or of the worker. */
  function Next(s: State): Action {
    if s.lock.Sub? && s.lock.who in s.subs then
      match s.subs[s.lock.who]
      case Locked(_) => Append(s.lock.who)
      case Appended => Count(s.lock.who)
      case Counted => Signal(s.lock.who)
      case Signalled => Unlock(s.lock.who)
    else
      match s.worker
      case Top => if s.queue == [] then Wait else Take
      case Waiting(_) => Wake
      case Woken => Resume
      case Running(_) => Run
      case Ran(_) => Relock
      case Relocked(_) => Delete
      case Deleted => Uncount
  }

  /** While a job has not run, some thread can go on without waiting for anything: a submitter that holds the lock, or
      else the worker, which was signalled if it sleeps. */
  lemma NeverStuck(states: seq<State>, actions: seq<Action>, k: nat)
    requires IsRun(states, actions) && k < |states| && states[k].executed != states[k].submitted
    ensures var s := states[k]; Enabled(s, Next(s)) && (Own(Next(s)) <==> !s.lock.Sub?) && !Next(s).Wait?
    ensures states[k].worker.Waiting? && Next(states[k]).Wake? ==> states[k].worker.woken
  {
    RunInv(states, actions, k);
  }
}
