/**
 The slot ranges of nodes.conf and CLUSTER NODES: two generators, one per node
 and one for the whole table in a single pass, and the loader that reads ranges
 back into a table.
 */
module SlotRanges {
  import opened Common
  import opened ClusterNode

  datatype Range = Range(lo: nat, hi: nat)

  /** slots[j] belongs to n. */
  predicate Owns(slots: seq<Option<NodeId>>, n: NodeId, j: int) {
    0 <= j < |slots| && slots[j] == Some(n)
  }

  /** r is a maximal run of slots of n. */
  ghost predicate IsRun(slots: seq<Option<NodeId>>, n: NodeId, r: Range) {
    && r.lo <= r.hi < |slots|
    && (forall j | r.lo <= j <= r.hi :: Owns(slots, n, j))
    && !Owns(slots, n, r.lo - 1) && !Owns(slots, n, r.hi + 1)
  }

  ghost predicate Covered(rs: seq<Range>, j: int) {
    exists k | 0 <= k < |rs| :: rs[k].lo <= j <= rs[k].hi
  }

  /** rs are runs of n in increasing order, covering its slots in [from, to) and nothing else. */
  ghost predicate Runs(slots: seq<Option<NodeId>>, n: NodeId, from: nat, to: nat, rs: seq<Range>) {
    && (forall k | 0 <= k < |rs| :: IsRun(slots, n, rs[k]) && from <= rs[k].lo && rs[k].hi < to)
    && (forall k, l | 0 <= k < l < |rs| :: rs[k].hi < rs[l].lo)
    && (forall j | from <= j < to && Owns(slots, n, j) :: Covered(rs, j))
  }

  /** The whole list for n. */
  ghost predicate RangesOf(slots: seq<Option<NodeId>>, n: NodeId, rs: seq<Range>) {
    Runs(slots, n, 0, |slots|, rs)
  }

  /** The next run joins the list. */
  lemma AddRun(slots: seq<Option<NodeId>>, n: NodeId, from: nat, to: nat, to': nat, rs: seq<Range>, r: Range)
    requires Runs(slots, n, from, to, rs) && IsRun(slots, n, r) && from <= to <= r.lo && r.hi < to'
    requires forall j | to <= j < to' && Owns(slots, n, j) :: r.lo <= j <= r.hi
    ensures Runs(slots, n, from, to', rs + [r])
  {
    var rs' := rs + [r];
    forall j | from <= j < to' && Owns(slots, n, j)
      ensures Covered(rs', j)
    {
      if j < to {
        assert Covered(rs, j);
        var k :| 0 <= k < |rs| && rs[k].lo <= j <= rs[k].hi;
        assert rs'[k].lo <= j <= rs'[k].hi;
      } else {
        assert rs'[|rs|].lo <= j <= rs'[|rs|].hi;
      }
    }
  }

  /** Slots of other owners extend the covered stretch. */
  lemma SkipSlots(slots: seq<Option<NodeId>>, n: NodeId, from: nat, to: nat, to': nat, rs: seq<Range>)
    requires Runs(slots, n, from, to, rs) && to <= to' && forall j | to <= j < to' :: !Owns(slots, n, j)
    ensures Runs(slots, n, from, to', rs)
  {
  }

  /** The scan of clusterGenNodeDescription over one node's bitmap. */
  method ScanNode(slots: seq<Option<NodeId>>, n: NodeId) returns (rs: seq<Range>)
    ensures RangesOf(slots, n, rs)
  {
    rs := [];
    var start := -1;
    var j := 0;
    while j < |slots|
      invariant 0 <= j <= |slots| && -1 <= start < j
      invariant start == -1 ==> Runs(slots, n, 0, j, rs) && (j == |slots| || !Owns(slots, n, j - 1))
      invariant start >= 0 ==> j < |slots| && Runs(slots, n, 0, start, rs) && !Owns(slots, n, start - 1)
      invariant start >= 0 ==> forall i | start <= i < j :: Owns(slots, n, i)
    {
      var bit := slots[j] == Some(n);
      if bit && start == -1 {
        start := j;
      }
      if start != -1 && (!bit || j == |slots| - 1) {
        if bit && j == |slots| - 1 {
          j := j + 1;
        }
        AddRun(slots, n, 0, start, if j < |slots| then j + 1 else j, rs, Range(start, j - 1));
        rs := rs + [Range(start, j - 1)];
        start := -1;
      }
      j := if j < |slots| then j + 1 else j;
    }
  }

  function Get(info: map<NodeId, seq<Range>>, n: NodeId): seq<Range> {
    if n in info then info[n] else []
  }

  ghost predicate AllRuns(slots: seq<Option<NodeId>>, filter: set<NodeId>, to: nat, info: map<NodeId, seq<Range>>) {
    forall m | m !in filter :: Runs(slots, m, 0, to, Get(info, m))
  }

  /** The table scan leaves an unassigned slot behind. */
  lemma PassFree(slots: seq<Option<NodeId>>, filter: set<NodeId>, i: nat, info: map<NodeId, seq<Range>>)
    requires AllRuns(slots, filter, i, info) && i < |slots| && slots[i] == None
    ensures AllRuns(slots, filter, i + 1, info)
  {
    forall m | m !in filter
      ensures Runs(slots, m, 0, i + 1, Get(info, m))
    {
      SkipSlots(slots, m, 0, i, i + 1, Get(info, m));
    }
  }

  /** The table scan closes the run [start, i) of n. */
  lemma CloseRun(slots: seq<Option<NodeId>>, filter: set<NodeId>, n: NodeId, start: nat, i: nat,
                 info: map<NodeId, seq<Range>>, info': map<NodeId, seq<Range>>)
    requires AllRuns(slots, filter, start, info) && start < i <= |slots|
    requires IsRun(slots, n, Range(start, i - 1))
    requires info' == if n in filter then info else info[n := Get(info, n) + [Range(start, i - 1)]]
    ensures AllRuns(slots, filter, i, info')
  {
    forall m | m !in filter
      ensures Runs(slots, m, 0, i, Get(info', m))
    {
      if m == n {
        AddRun(slots, m, 0, start, i, Get(info, m), Range(start, i - 1));
      } else {
        forall j | start <= j < i
          ensures !Owns(slots, m, j)
        {
          assert Owns(slots, n, j);
        }
        SkipSlots(slots, m, 0, start, i, Get(info, m));
      }
    }
  }

  /** clusterGenNodesSlotsInfo: one pass over the table, for every node not filtered out. */
  method ScanTable(slots: seq<Option<NodeId>>, filter: set<NodeId>) returns (info: map<NodeId, seq<Range>>)
    ensures forall n | n !in filter :: RangesOf(slots, n, Get(info, n))
    ensures forall n | n in filter :: n !in info
  {
    hide AllRuns, RangesOf;
    info := map[];
    var n: Option<NodeId> := None;
    var start, i := 0, 0;
    NoRuns(slots, filter);
    while true
      invariant 0 <= start <= i <= |slots|
      invariant forall m | m in filter :: m !in info
      invariant n.None? ==> AllRuns(slots, filter, i, info) && (i > 0 ==> slots[i - 1] == None)
      invariant n.Some? ==> AllRuns(slots, filter, start, info) && start < i && !Owns(slots, n.value, start - 1)
      invariant n.Some? ==> forall j | start <= j < i :: slots[j] == n
      decreases |slots| - i
    {
      if n.None? {
        if i == |slots| { break; }
        n, start := slots[i], i;
        if n.None? {
          PassFree(slots, filter, i, info);
        }
      } else if i == |slots| || n != slots[i] {
        ghost var before := info;
        if n.value !in filter {
          info := info[n.value := Get(info, n.value) + [Range(start, i - 1)]];
        }
        CloseRun(slots, filter, n.value, start, i, before, info);
        if i == |slots| { break; }
        n, start := slots[i], i;
        if n.None? {
          PassFree(slots, filter, i, info);
        }
      }
      i := i + 1;
    }
    AllRanges(slots, filter, info);
  }

  lemma NoRuns(slots: seq<Option<NodeId>>, filter: set<NodeId>)
    ensures AllRuns(slots, filter, 0, map[])
  {
  }

  lemma AllRanges(slots: seq<Option<NodeId>>, filter: set<NodeId>, info: map<NodeId, seq<Range>>)
    requires AllRuns(slots, filter, |slots|, info)
    ensures forall n | n !in filter :: RangesOf(slots, n, Get(info, n))
  {
    hide Runs;
  }

  lemma FirstRun(slots: seq<Option<NodeId>>, n: NodeId, from: nat, rs: seq<Range>, rs': seq<Range>)
    requires Runs(slots, n, from, |slots|, rs) && Runs(slots, n, from, |slots|, rs') && rs != []
    ensures rs' != [] && rs'[0].lo <= rs[0].lo
  {
    assert IsRun(slots, n, rs[0]);
    assert Owns(slots, n, rs[0].lo);
    assert Covered(rs', rs[0].lo);
    var k :| 0 <= k < |rs'| && rs'[k].lo <= rs[0].lo <= rs'[k].hi;
    if k > 0 {
      assert rs'[0].hi < rs'[k].lo && IsRun(slots, n, rs'[0]);
    }
  }

  lemma LaterRuns(slots: seq<Option<NodeId>>, n: NodeId, from: nat, rs: seq<Range>)
    requires Runs(slots, n, from, |slots|, rs) && rs != []
    ensures Runs(slots, n, rs[0].hi + 1, |slots|, rs[1..])
  {
    var tail := rs[1..];
    forall k | 0 <= k < |tail|
      ensures IsRun(slots, n, tail[k]) && rs[0].hi + 1 <= tail[k].lo && tail[k].hi < |slots|
    {
      assert tail[k] == rs[k + 1];
    }
    forall j | rs[0].hi + 1 <= j < |slots| && Owns(slots, n, j)
      ensures Covered(tail, j)
    {
      assert Covered(rs, j);
      var k :| 0 <= k < |rs| && rs[k].lo <= j <= rs[k].hi;
      assert tail[k - 1].lo <= j <= tail[k - 1].hi;
    }
  }

  /** A node has one list of maximal ranges: both generators print the same. */
  lemma {:induction false} RangesAreUnique(slots: seq<Option<NodeId>>, n: NodeId, from: nat,
                                           rs: seq<Range>, rs': seq<Range>)
    requires Runs(slots, n, from, |slots|, rs) && Runs(slots, n, from, |slots|, rs')
    ensures rs == rs'
    decreases |rs|
  {
    if rs == [] {
      if rs' != [] {
        FirstRun(slots, n, from, rs', rs);
      }
    } else {
      FirstRun(slots, n, from, rs, rs');
      FirstRun(slots, n, from, rs', rs);
      assert IsRun(slots, n, rs[0]) && IsRun(slots, n, rs'[0]);
      assert rs[0].hi == rs'[0].hi;
      LaterRuns(slots, n, from, rs);
      LaterRuns(slots, n, from, rs');
      RangesAreUnique(slots, n, rs[0].hi + 1, rs[1..], rs'[1..]);
    }
  }

  // ----- loading -----

  /** The table after the ranges of n have been added: a slot that already has an owner keeps it. */
  ghost function Added(slots: seq<Option<NodeId>>, n: NodeId, rs: seq<Range>): seq<Option<NodeId>> {
    seq(|slots|, j requires 0 <= j < |slots| => if slots[j] == None && Covered(rs, j) then Some(n) else slots[j])
  }

  /** The slot loop of clusterLoadConfig for the line of one node; false is the corrupted file error. */
  method LoadNode(table: array<Option<NodeId>>, n: NodeId, rs: seq<Range>) returns (ok: bool)
    modifies table
    ensures ok <==> forall k | 0 <= k < |rs| :: rs[k].lo < table.Length && rs[k].hi < table.Length
    ensures ok ==> table[..] == Added(old(table[..]), n, rs)
  {
    ghost var was := table[..];
    for k := 0 to |rs|
      invariant forall i | 0 <= i < k :: rs[i].lo < table.Length && rs[i].hi < table.Length
      invariant table[..] == Added(was, n, rs[..k])
    {
      if rs[k].lo >= table.Length || rs[k].hi >= table.Length {
        return false;
      }
      LoadRange(table, n, rs[k]);
      AddedOneMore(was, n, rs, k);
    }
    assert rs[..|rs|] == rs;
    return true;
  }

  lemma AddedOneMore(slots: seq<Option<NodeId>>, n: NodeId, rs: seq<Range>, k: nat)
    requires k < |rs|
    ensures Added(Added(slots, n, rs[..k]), n, [rs[k]]) == Added(slots, n, rs[..k + 1])
  {
    var a, b, c := rs[..k], [rs[k]], rs[..k + 1];
    forall j | 0 <= j < |slots|
      ensures Covered(c, j) <==> Covered(a, j) || Covered(b, j)
    {
      if Covered(c, j) {
        var i :| 0 <= i < |c| && c[i].lo <= j <= c[i].hi;
        if i < k { assert a[i].lo <= j <= a[i].hi; } else { assert b[0].lo <= j <= b[0].hi; }
      }
      if Covered(a, j) {
        var i :| 0 <= i < |a| && a[i].lo <= j <= a[i].hi;
        assert c[i].lo <= j <= c[i].hi;
      }
      if Covered(b, j) {
        assert c[k].lo <= j <= c[k].hi;
      }
    }
  }

  /** The slots of one range added one by one. */
  method LoadRange(table: array<Option<NodeId>>, n: NodeId, r: Range)
    requires r.lo < table.Length && r.hi < table.Length
    modifies table
    ensures table[..] == Added(old(table[..]), n, [r])
  {
    ghost var was := table[..];
    assert forall j :: Covered([r], j) <==> [r][0].lo <= j <= [r][0].hi;
    var start := r.lo;
    while start <= r.hi
      invariant r.lo <= start <= r.hi + 1 || (start == r.lo && r.hi < r.lo)
      invariant forall j | 0 <= j < table.Length ::
        table[j] == if was[j] == None && r.lo <= j < start then Some(n) else was[j]
    {
      if table[start].None? {
        table[start] := Some(n);
      }
      start := start + 1;
    }
  }

  /** The lines of a file, loaded in order. */
  ghost function LoadLines(slots: seq<Option<NodeId>>, lines: seq<(NodeId, seq<Range>)>): (r: seq<Option<NodeId>>)
    ensures |r| == |slots|
  {
    if lines == [] then slots
    else
      var last := lines[|lines| - 1];
      Added(LoadLines(slots, lines[..|lines| - 1]), last.0, last.1)
  }

  /** Line by line, slot j is bound once the line of its owner has been read. */
  lemma {:induction false} LoadedSlot(slots: seq<Option<NodeId>>, lines: seq<(NodeId, seq<Range>)>, j: nat)
    requires j < |slots|
    requires forall i | 0 <= i < |lines| :: RangesOf(slots, lines[i].0, lines[i].1)
    ensures var free := seq(|slots|, _ => None);
      LoadLines(free, lines)[j] ==
        if slots[j].Some? && (exists i | 0 <= i < |lines| :: lines[i].0 == slots[j].value) then slots[j] else None
  {
    if lines != [] {
      var front, last := lines[..|lines| - 1], lines[|lines| - 1];
      LoadedSlot(slots, front, j);
      assert RangesOf(slots, last.0, last.1);
      assert Covered(last.1, j) <==> Owns(slots, last.0, j);
      if slots[j].Some? && last.0 != slots[j].value && exists i | 0 <= i < |lines| :: lines[i].0 == slots[j].value {
        var i :| 0 <= i < |lines| && lines[i].0 == slots[j].value;
        assert front[i].0 == slots[j].value;
      }
    }
  }

  /** Loading the printed ranges of every owner, in any order of lines, rebuilds the table; the slots of nodes left
      out of the file stay free. */
  lemma RangesRoundTrip(slots: seq<Option<NodeId>>, lines: seq<(NodeId, seq<Range>)>, filter: set<NodeId>)
    requires forall i | 0 <= i < |lines| :: lines[i].0 !in filter && RangesOf(slots, lines[i].0, lines[i].1)
    requires forall j | 0 <= j < |slots| && slots[j].Some? && slots[j].value !in filter ::
      exists i | 0 <= i < |lines| :: lines[i].0 == slots[j].value
    ensures LoadLines(seq(|slots|, _ => None), lines) ==
            seq(|slots|, j requires 0 <= j < |slots| =>
              if slots[j].Some? && slots[j].value in filter then None else slots[j])
  {
    forall j | 0 <= j < |slots|
      ensures LoadLines(seq(|slots|, _ => None), lines)[j] ==
              if slots[j].Some? && slots[j].value in filter then None else slots[j]
    {
      LoadedSlot(slots, lines, j);
    }
  }
}
