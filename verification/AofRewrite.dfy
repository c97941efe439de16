/**
 Rewriting the append-only file in the background. A forked child writes the
 data set it inherited; the parent keeps serving, sends what it logs meanwhile
 through a pipe, stops when the child asks it to, and appends the rest itself
 once the child has finished. Every step of parent, child and pipe is an action
 that may happen at any time its guard allows.
 */
module AofRewrite {
  import opened Decimal
  import opened AofLog
  import opened AofCommands
  import opened AofRecovery

  // ----- commands and databases -----

  /** A command and the database it was executed in. */
  datatype Op = Op(db: nat, cmd: Command)

  /** The command as it is logged at a time. */
  function At(op: Op, now: int): Op {
    op.(cmd := Translate(op.cmd, now))
  }

  /** What feedAppendOnlyFile logs for one command: a SELECT first unless the database is the selected one. */
  function Logged(selected: int, op: Op, now: int): seq<Command> {
    if op.db != selected then [SelectDb(op.db), At(op, now).cmd] else [At(op, now).cmd]
  }

  /** Replaying a log: every command runs in the database selected last. */
  datatype Replayed = Replayed(ops: seq<Op>, db: int)

  function Interpret(log: seq<Command>, db: int): Replayed {
    if log == [] then Replayed([], db)
    else
      var r, c := Interpret(log[..|log| - 1], db), log[|log| - 1];
      if IsSelect(c) then Replayed(r.ops, Parse(c[1]))
      else Replayed(r.ops + [Op(if r.db < 0 then 0 else r.db, c)], r.db)
  }

  /** The log replays to 'ops' whatever database was selected before it, and leaves 'selected' selected. */
  ghost predicate Faithful(log: seq<Command>, ops: seq<Op>, selected: int) {
    forall d :: Interpret(log, d).ops == ops && (selected != -1 ==> Interpret(log, d).db == selected)
  }

  lemma InterpretAppend(log: seq<Command>, c: Command, db: int)
    ensures var r := Interpret(log, db);
      Interpret(log + [c], db) ==
        if IsSelect(c) then Replayed(r.ops, Parse(c[1]))
        else Replayed(r.ops + [Op(if r.db < 0 then 0 else r.db, c)], r.db)
  {
    assert (log + [c])[..|log|] == log;
  }

  lemma FeedIsFaithful(log: seq<Command>, ops: seq<Op>, selected: int, op: Op, now: int)
    requires Faithful(log, ops, selected) && !IsSelect(op.cmd)
    ensures Faithful(log + Logged(selected, op, now), ops + [At(op, now)], op.db)
  {
    var sel, cmd := SelectDb(op.db), At(op, now).cmd;
    TranslationKeepsSelect(op.cmd, now);
    SelectsDb(op.db);
    hide Translate, IsSelect, SelectDb;
    forall d
      ensures Interpret(log + Logged(selected, op, now), d) == Replayed(ops + [At(op, now)], op.db)
    {
      if op.db != selected {
        InterpretAppend(log, sel, d);
        InterpretAppend(log + [sel], cmd, d);
        assert log + [sel] + [cmd] == log + Logged(selected, op, now);
      } else {
        InterpretAppend(log, cmd, d);
      }
    }
  }

  lemma SelectsDb(db: nat)
    ensures IsSelect(SelectDb(db)) && Parse(SelectDb(db)[1]) == db
  {
    PrintParse(db, []);
    assert Print(db) + [] == Print(db);
  }

  lemma {:induction false} InterpretJoin(a: seq<Command>, b: seq<Command>, db: int)
    ensures var r := Interpret(a, db);
      Interpret(a + b, db) == Replayed(r.ops + Interpret(b, r.db).ops, Interpret(b, r.db).db)
  {
    if b == [] {
      assert a + b == a;
    } else {
      var front, c := b[..|b| - 1], b[|b| - 1];
      InterpretJoin(a, front, db);
      InterpretAppend(a + front, c, db);
      assert a + b == a + front + [c];
    }
  }

  // ----- the protocol -----

  datatype Phase = Writing | Asked | Draining | Finished | ChildFailed | Installed | Abandoned

  /** aof_state */
  datatype Mode = Off | WaitRewrite | On

  /** 'fed', 'log' and 'ops' record what was logged since the fork, as bytes, as commands and as the commands
      executed, with times made absolute. file and aofBuf are the log in use, 'before' what they held at the fork. */
  datatype State = State(snapshot: bytes, before: bytes,
                         fed: bytes, log: seq<Command>, ops: seq<Op>, selected: int,
                         mode: Mode, file: bytes, aofBuf: bytes,
                         rewriteBuf: bytes, stopSending: bool,
                         pipe: bytes, asks: nat, acks: nat,
                         phase: Phase, childDiff: bytes, childFile: bytes)

  datatype Action =
    | Feed(op: Op, now: int)   // feedAppendOnlyFile
    | FlushSome(n: nat)        // n bytes of aof_buf reach the file
    | SendDiff(n: nat)         // aofChildWriteDiffData: write takes n bytes
    | ReadDiff(n: nat)         // aofReadDiffFromParent: read takes n bytes
    | AskStop                  // the child writes '!'
    | AnswerStop(sent: bool)   // aofChildPipeReadable; the answer may not go out
    | GetAck                   // the child reads '!'
    | DrainedDiff              // the last read finds the pipe empty; the child writes its file and exits
    | ChildFails               // a timeout, a write error, a signal
    | Install(appended: bool)  // backgroundRewriteDoneHandler after a successful exit; the append may fail
    | Abandon                  // backgroundRewriteDoneHandler after a failed one

  /** The parent has a rewriting child, and so accumulates differences. */
  predicate HasChild(s: State) {
    !s.phase.Installed? && !s.phase.Abandoned?
  }

  predicate Enabled(s: State, a: Action) {
    match a
    case Feed(op, _) => !s.mode.Off? && !IsSelect(op.cmd)
    case FlushSome(n) => n <= |s.aofBuf|
    case SendDiff(n) => HasChild(s) && !s.stopSending && 0 < n <= |s.rewriteBuf|
    case ReadDiff(n) => (s.phase.Writing? || s.phase.Draining?) && 0 < n <= |s.pipe|
    case AskStop => s.phase.Writing?
    case AnswerStop(_) => HasChild(s) && s.asks > 0
    case GetAck => s.phase.Asked? && s.acks > 0
    case DrainedDiff => s.phase.Draining? && s.pipe == []
    case ChildFails => s.phase.Writing? || s.phase.Asked? || s.phase.Draining?
    case Install(_) => s.phase.Finished?
    case Abandon => s.phase.ChildFailed?
  }

  function FeedData(s: State, data: bytes): State {
    s.(fed := s.fed + data,
       aofBuf := if s.mode.On? then s.aofBuf + data else s.aofBuf,
       rewriteBuf := if HasChild(s) then s.rewriteBuf + data else s.rewriteBuf)
  }

  function Apply(s: State, a: Action): State
    requires Enabled(s, a)
  {
    match a
    case Feed(op, now) =>
      var added := Logged(s.selected, op, now);
      FeedData(s, EncodeAll(added)).(log := s.log + added, ops := s.ops + [At(op, now)], selected := op.db)
    case FlushSome(n) => s.(file := s.file + s.aofBuf[..n], aofBuf := s.aofBuf[n..])
    case SendDiff(n) => s.(pipe := s.pipe + s.rewriteBuf[..n], rewriteBuf := s.rewriteBuf[n..])
    case ReadDiff(n) => s.(childDiff := s.childDiff + s.pipe[..n], pipe := s.pipe[n..])
    case AskStop => s.(asks := s.asks + 1, phase := Asked)
    case AnswerStop(sent) => s.(asks := s.asks - 1, stopSending := true, acks := if sent then s.acks + 1 else s.acks)
    case GetAck => s.(acks := s.acks - 1, phase := Draining)
    case DrainedDiff => s.(childFile := s.snapshot + s.childDiff, phase := Finished)
    case ChildFails => s.(phase := ChildFailed)
    case Install(appended) =>
      if !appended then s.(rewriteBuf := [], phase := Abandoned)
      else if s.mode.Off? then s.(file := s.childFile + s.rewriteBuf, rewriteBuf := [], phase := Installed)
      else s.(file := s.childFile + s.rewriteBuf, aofBuf := [], rewriteBuf := [], mode := On, selected := -1,
              phase := Installed)
    case Abandon => s.(rewriteBuf := [], phase := Abandoned)
  }

  /** Just after the fork, which forgets the selected database. */
  predicate Forked(s: State) {
    && s.fed == [] && s.log == [] && s.ops == [] && s.selected == -1
    && s.rewriteBuf == [] && s.pipe == [] && s.childDiff == []
    && !s.stopSending && s.asks == 0 && s.acks == 0 && s.phase.Writing?
    && s.file + s.aofBuf == s.before && (s.mode.Off? ==> s.aofBuf == [])
  }

  /** The handshake: once the child has its answer, nothing more enters the pipe. */
  ghost predicate HandshakeOk(s: State) {
    && (s.phase.Writing? ==> s.asks == 0 && s.acks == 0)
    && (s.acks > 0 ==> s.stopSending)
    && (s.phase.Draining? || s.phase.Finished? ==> s.stopSending)
    && (s.phase.Finished? ==> s.pipe == [] && s.childFile == s.snapshot + s.childDiff)
  }

  /** Nothing logged since the fork is lost, repeated or out of order. */
  ghost predicate BytesOk(s: State) {
    && (HasChild(s) ==> s.childDiff + s.pipe + s.rewriteBuf == s.fed)
    && (s.mode.Off? ==> s.fed == [] && s.aofBuf == [])
    && (s.phase.Installed? ==> !s.mode.WaitRewrite? && s.file + s.aofBuf == s.snapshot + s.fed)
    && (!s.phase.Installed? && s.mode.On? ==> s.file + s.aofBuf == s.before + s.fed)
  }

  ghost predicate LogOk(s: State) {
    s.fed == EncodeAll(s.log) && Faithful(s.log, s.ops, s.selected)
  }

  ghost predicate Inv(s: State) {
    HandshakeOk(s) && BytesOk(s) && LogOk(s)
  }

  lemma FeedDataOk(s: State, data: bytes)
    requires BytesOk(s) && !s.mode.Off?
    ensures BytesOk(FeedData(s, data))
  {
    assert s.childDiff + s.pipe + (s.rewriteBuf + data) == s.childDiff + s.pipe + s.rewriteBuf + data;
    assert s.file + (s.aofBuf + data) == s.file + s.aofBuf + data;
    assert s.snapshot + (s.fed + data) == s.snapshot + s.fed + data;
    assert s.before + (s.fed + data) == s.before + s.fed + data;
  }

  lemma {:induction false} EncodeAllJoin(a: seq<Command>, b: seq<Command>)
    ensures EncodeAll(a + b) == EncodeAll(a) + EncodeAll(b)
  {
    hide Encode;
    if b == [] {
      assert a + b == a && EncodeAll(a) + [] == EncodeAll(a);
    } else {
      var front, c := b[..|b| - 1], b[|b| - 1];
      EncodeAllJoin(a, front);
      assert (a + b)[..|a + b| - 1] == a + front;
      assert EncodeAll(a) + (EncodeAll(front) + Encode(c)) == EncodeAll(a) + EncodeAll(front) + Encode(c);
    }
  }

  lemma FeedOk(s: State, op: Op, now: int)
    requires Inv(s) && Enabled(s, Feed(op, now))
    ensures Inv(Apply(s, Feed(op, now)))
  {
    hide EncodeAll, Faithful, Translate;
    var added := Logged(s.selected, op, now);
    FeedDataOk(s, EncodeAll(added));
    EncodeAllJoin(s.log, added);
    FeedIsFaithful(s.log, s.ops, s.selected, op, now);
  }

  lemma MoveOk(s: State, a: Action)
    requires Inv(s) && Enabled(s, a) && !a.Feed?
    ensures BytesOk(Apply(s, a))
  {
    hide EncodeAll, Faithful;
    match a
    case FlushSome(n) => assert s.file + s.aofBuf[..n] + s.aofBuf[n..] == s.file + s.aofBuf;
    case SendDiff(n) =>
      assert s.childDiff + (s.pipe + s.rewriteBuf[..n]) + s.rewriteBuf[n..] == s.childDiff + s.pipe + s.rewriteBuf;
    case ReadDiff(n) =>
      assert s.childDiff + s.pipe[..n] + s.pipe[n..] + s.rewriteBuf == s.childDiff + s.pipe + s.rewriteBuf;
    case Install(appended) =>
      assert s.childDiff + [] + s.rewriteBuf == s.childDiff + s.rewriteBuf;
      assert s.snapshot + s.childDiff + s.rewriteBuf == s.snapshot + (s.childDiff + s.rewriteBuf);
      assert s.childFile + s.rewriteBuf + [] == s.childFile + s.rewriteBuf;
    case _ =>
  }

  lemma StepKeepsInv(s: State, a: Action)
    requires Inv(s) && Enabled(s, a)
    ensures Inv(Apply(s, a))
  {
    if a.Feed? {
      FeedOk(s, a.op, a.now);
    } else {
      hide EncodeAll;
      MoveOk(s, a);
    }
  }

  ghost predicate Run(states: seq<State>, acts: seq<Action>) {
    && |states| == |acts| + 1
    && Forked(states[0])
    && forall k | 0 <= k < |acts| :: Enabled(states[k], acts[k]) && states[k + 1] == Apply(states[k], acts[k])
  }

  lemma {:induction false} RunKeepsInv(states: seq<State>, acts: seq<Action>, k: nat)
    requires Run(states, acts) && k < |states|
    ensures Inv(states[k]) && states[k].snapshot == states[0].snapshot
  {
    if k > 0 {
      RunKeepsInv(states, acts, k - 1);
      StepKeepsInv(states[k - 1], acts[k - 1]);
      hide Inv;
    }
  }

  /** At every step of every run, while the child lives, what it has read, what is in the pipe and what the parent
      still holds are, in this order, exactly what was logged since the fork. */
  lemma NothingLostOnTheWay(states: seq<State>, acts: seq<Action>, k: nat)
    requires Run(states, acts) && k < |states| && HasChild(states[k])
    ensures states[k].childDiff + states[k].pipe + states[k].rewriteBuf == states[k].fed
  {
    RunKeepsInv(states, acts, k);
  }

  /** Once the new file is in place, it and the buffer are the snapshot followed by everything logged since the
      fork, and that replays every command in its own database whatever database the snapshot left selected. */
  lemma RewriteLosesNothing(states: seq<State>, acts: seq<Action>, k: nat)
    requires Run(states, acts) && k < |states| && states[k].phase.Installed?
    ensures var s := states[k];
      && s.file + s.aofBuf == states[0].snapshot + EncodeAll(s.log)
      && forall d :: Interpret(s.log, d).ops == s.ops
  {
    RunKeepsInv(states, acts, k);
    hide Run, EncodeAll, Interpret;
  }

  /** Loading that log runs the snapshot's commands and then every command executed since the fork. */
  lemma RewriteReloads(states: seq<State>, acts: seq<Action>, k: nat, snap: seq<Command>, known: bytes -> bool)
    requires Run(states, acts) && k < |states| && states[k].phase.Installed?
    requires states[0].snapshot == EncodeAll(snap) && snap + states[k].log != []
    requires forall i | 0 <= i < |snap + states[k].log| ::
      Sized((snap + states[k].log)[i]) && known((snap + states[k].log)[i][0])
    ensures var s := states[k];
      && Load(s.file + s.aofBuf, true, known) == Loaded(snap + s.log)
      && Interpret(snap + s.log, 0).ops == Interpret(snap, 0).ops + s.ops
  {
    RewriteLosesNothing(states, acts, k);
    hide Run, EncodeAll, Interpret, Load;
    EncodeAllJoin(snap, states[k].log);
    LogRoundTrip(snap + states[k].log, true, known);
    InterpretJoin(snap, states[k].log, 0);
  }
}
