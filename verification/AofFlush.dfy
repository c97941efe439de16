/**
 Flushing the append-only buffer to its file, through writes that may be short,
 interrupted or fail, and truncations that may fail.
 */
module AofFlush {
  import opened Decimal

  /** What one call of write returns: some of the bytes, EINTR, or another error. */
  datatype WriteOutcome = Wrote(n: nat) | Interrupted | Failed

  datatype Policy = Always | EverySec | No

  /** The rest of what a flush depends on. */
  datatype Env = Env(force: bool, policy: Policy, syncInProgress: bool, unixtime: int, writes: seq<WriteOutcome>,
                     truncates: bool, fsyncs: bool, childBusy: bool)

  datatype State = State(file: bytes, buf: bytes, size: nat, lastWriteOk: bool, postponedStart: int,
                         fsyncOffset: nat, lastFsync: int)

  datatype Result = Exit | Done(state: State)

  // ----- what the code computes -----

  /** aofWrite with 'len' bytes to go and 'total' written: the number written, or -1. */
  function WriteResult(len: nat, total: nat, writes: seq<WriteOutcome>): (r: int)
    ensures -1 <= r <= total + len && (r >= 0 ==> total <= r) && (r == -1 ==> total == 0 && len > 0)
    decreases |writes|
  {
    if len == 0 then total
    else if writes == [] then (if total > 0 then total else -1)
    else match writes[0]
      case Failed => if total > 0 then total else -1
      case Interrupted => WriteResult(len, total, writes[1..])
      case Wrote(n) =>
        var m := if n < len then n else len;
        WriteResult(len - m, total + m, writes[1..])
  }

  lemma WriteNext(len: nat, total: nat, writes: seq<WriteOutcome>, k: nat)
    requires len > 0 && k <= |writes|
    ensures WriteResult(len, total, writes[k..]) ==
            if k == |writes| || writes[k].Failed? then (if total > 0 then total else -1)
            else if writes[k].Interrupted? then WriteResult(len, total, writes[k + 1..])
            else var m := if writes[k].n < len then writes[k].n else len; WriteResult(len - m, total + m, writes[k + 1..])
  {
    if k < |writes| {
      assert writes[k..][1..] == writes[k + 1..];
    }
  }

  lemma WriteDone(total: nat, writes: seq<WriteOutcome>)
    ensures WriteResult(0, total, writes) == total
  {
  }

  /** The fsync part at the end of flushAppendOnlyFile. */
  function TryFsync(s: State, e: Env): Result {
    if e.childBusy then Done(s)
    else if e.policy.Always? then
      if e.fsyncs then Done(s.(fsyncOffset := s.size, lastFsync := e.unixtime)) else Exit
    else if e.policy.EverySec? && e.unixtime > s.lastFsync then
      Done(s.(fsyncOffset := if e.syncInProgress then s.fsyncOffset else s.size, lastFsync := e.unixtime))
    else Done(s)
  }

  /** Writing the whole buffer, and what happens when that fails. */
  function WriteOut(s: State, e: Env): Result {
    var n := WriteResult(|s.buf|, 0, e.writes);
    var s1 := s.(postponedStart := 0, file := if n > 0 then s.file + s.buf[..n] else s.file);
    if n != |s.buf| then
      var cut := n != -1 && e.truncates;
      var s2 := s1.(file := if cut && s1.size <= |s1.file| then s1.file[..s1.size] else s1.file);
      if e.policy.Always? then Exit
      else if n > 0 && !cut then Done(s2.(lastWriteOk := false, size := s2.size + n, buf := s2.buf[n..]))
      else Done(s2.(lastWriteOk := false))
    else TryFsync(s1.(lastWriteOk := true, size := s1.size + n, buf := []), e)
  }

  /** flushAppendOnlyFile */
  function Flush(s: State, e: Env): Result {
    if s.buf == [] then
      if e.policy.EverySec? && s.fsyncOffset != s.size && e.unixtime > s.lastFsync && !e.syncInProgress
      then TryFsync(s, e) else Done(s)
    else if e.policy.EverySec? && !e.force && e.syncInProgress && s.postponedStart == 0
    then Done(s.(postponedStart := e.unixtime))
    else if e.policy.EverySec? && !e.force && e.syncInProgress && e.unixtime - s.postponedStart < 2
    then Done(s)
    else WriteOut(s, e)
  }

  // ----- what it keeps -----

  /** The file and the buffer together are what was fed; the recorded size is the length of the file. */
  ghost predicate Conserves(s: State, fed: bytes) {
    s.file + s.buf == fed && s.size == |s.file|
  }

  /** Whatever write, ftruncate and fsync do, a flush that does not exit conserves every byte. */
  lemma FlushConserves(s: State, e: Env, fed: bytes)
    requires Conserves(s, fed)
    ensures Flush(s, e).Done? ==> Conserves(Flush(s, e).state, fed)
  {
    if s.buf != [] && Flush(s, e) == WriteOut(s, e) {
      var n := WriteResult(|s.buf|, 0, e.writes);
      if n > 0 {
        assert s.file + s.buf[..n] + s.buf[n..] == s.file + s.buf;
        assert (s.file + s.buf[..n])[..|s.file|] == s.file;
        assert n == |s.buf| ==> s.buf[..n] == s.buf && s.file + s.buf + [] == s.file + s.buf;
      }
    }
  }

  datatype Op = Feed(data: bytes) | DoFlush(e: Env)

  /** A sequence of feeds and flushes; it stops where the process exits. */
  function Run(s: State, ops: seq<Op>): Result {
    if ops == [] then Done(s)
    else match Run(s, ops[..|ops| - 1])
      case Exit => Exit
      case Done(t) =>
        match ops[|ops| - 1]
        case Feed(data) => Done(t.(buf := t.buf + data))
        case DoFlush(e) => Flush(t, e)
  }

  function Fed(ops: seq<Op>): bytes {
    if ops == [] then []
    else Fed(ops[..|ops| - 1]) + if ops[|ops| - 1].Feed? then ops[|ops| - 1].data else []
  }

  /** Over any sequence of feeds and flushes that does not exit, file and buffer are the stream fed so far. */
  lemma {:induction false} RunConserves(s: State, ops: seq<Op>, fed: bytes)
    requires Conserves(s, fed)
    ensures Run(s, ops).Done? ==> Conserves(Run(s, ops).state, fed + Fed(ops))
  {
    if ops == [] {
      assert fed + [] == fed;
    } else {
      var front, last := ops[..|ops| - 1], ops[|ops| - 1];
      RunConserves(s, front, fed);
      match Run(s, front)
      case Exit =>
      case Done(t) =>
        match last
        case Feed(data) =>
          assert t.file + (t.buf + data) == t.file + t.buf + data;
          assert fed + (Fed(front) + data) == fed + Fed(front) + data;
        case DoFlush(e) =>
          FlushConserves(t, e, fed + Fed(front));
          assert fed + (Fed(front) + []) == fed + Fed(front);
    }
  }

  /** A flush exits only under the policy 'always', when a write or an fsync fails. */
  lemma ExitMeansAlways(s: State, e: Env)
    ensures Flush(s, e).Exit? <==>
      && e.policy.Always? && s.buf != []
      && (WriteResult(|s.buf|, 0, e.writes) != |s.buf| || (!e.childBusy && !e.fsyncs))
  {
  }

  // ----- the code -----

  class Aof {
    var file: bytes
    var buf: bytes
    var size: nat
    var lastWriteOk: bool
    var postponedStart: int
    var fsyncOffset: nat
    var lastFsync: int

    ghost function Abs(): State
      reads this
    {
      State(file, buf, size, lastWriteOk, postponedStart, fsyncOffset, lastFsync)
    }

    /** aofWrite: retries short and interrupted writes. */
    method Write(data: bytes, writes: seq<WriteOutcome>) returns (total: int)
      modifies this`file
      ensures total == WriteResult(|data|, 0, writes)
      ensures file == if total > 0 then old(file) + data[..total] else old(file)
    {
      hide WriteResult;
      var len, k := |data|, 0;
      total := 0;
      assert writes[0..] == writes;
      while len > 0
        invariant 0 <= k <= |writes| && 0 <= total <= |data| && len == |data| - total
        invariant WriteResult(|data|, 0, writes) == WriteResult(len, total, writes[k..])
        invariant file == old(file) + data[..total]
        decreases |writes| - k
      {
        WriteNext(len, total, writes, k);
        if k == |writes| || writes[k].Failed? {
          return if total > 0 then total else -1;
        }
        if writes[k].Interrupted? {
          k := k + 1;
          continue;
        }
        var m := if writes[k].n < len then writes[k].n else len;
        file := file + data[total..total + m];
        assert data[..total] + data[total..total + m] == data[..total + m];
        len, total, k := len - m, total + m, k + 1;
      }
      WriteDone(total, writes[k..]);
    }

    /** The append at the end of feedAppendOnlyFile. */
    method Append(data: bytes)
      modifies this`buf
      ensures Abs() == old(Abs()).(buf := old(buf) + data)
    {
      buf := buf + data;
    }

    method Fsync(e: Env) returns (exited: bool)
      modifies this`fsyncOffset, this`lastFsync
      ensures if exited then TryFsync(old(Abs()), e).Exit? else TryFsync(old(Abs()), e) == Done(Abs())
    {
      exited := false;
      if e.childBusy {
        return;
      }
      if e.policy.Always? {
        if !e.fsyncs {
          return true;
        }
        fsyncOffset, lastFsync := size, e.unixtime;
      } else if e.policy.EverySec? && e.unixtime > lastFsync {
        if !e.syncInProgress {
          fsyncOffset := size;
        }
        lastFsync := e.unixtime;
      }
    }

    /** flushAppendOnlyFile */
    method FlushFile(e: Env) returns (exited: bool)
      modifies this
      ensures if exited then Flush(old(Abs()), e).Exit? else Flush(old(Abs()), e) == Done(Abs())
    {
      hide WriteResult, TryFsync;
      if buf == [] {
        if e.policy.EverySec? && fsyncOffset != size && e.unixtime > lastFsync && !e.syncInProgress {
          exited := Fsync(e);
          return;
        }
        return false;
      }
      if e.policy.EverySec? && !e.force && e.syncInProgress {
        if postponedStart == 0 {
          postponedStart := e.unixtime;
          return false;
        } else if e.unixtime - postponedStart < 2 {
          return false;
        }
      }
      var n := Write(buf, e.writes);
      postponedStart := 0;
      if n != |buf| {
        if n != -1 && e.truncates {
          file := if size <= |file| then file[..size] else file;
          n := -1;
        }
        if e.policy.Always? {
          return true;
        }
        lastWriteOk := false;
        if n > 0 {
          size, buf := size + n, buf[n..];
        }
        return false;
      }
      lastWriteOk := true;
      size, buf := size + n, [];
      exited := Fsync(e);
    }
  }
}
