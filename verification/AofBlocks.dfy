/**
 The rewrite buffer as the parent holds it: a list of blocks of bounded size,
 filled at the tail and drained at the head.
 */
module AofBlocks {
  import opened Decimal

  /** AOF_RW_BUF_BLOCK_SIZE */
  const BLOCK: nat := 10485760

  function Concat(blocks: seq<bytes>): bytes {
    if blocks == [] then [] else blocks[0] + Concat(blocks[1..])
  }

  lemma {:induction false} ConcatJoin(a: seq<bytes>, b: seq<bytes>)
    ensures Concat(a + b) == Concat(a) + Concat(b)
  {
    if a == [] {
      assert a + b == b;
    } else {
      assert (a + b)[1..] == a[1..] + b;
      ConcatJoin(a[1..], b);
    }
  }

  lemma ConcatOne(b: bytes)
    ensures Concat([b]) == b
  {
    assert [b][1..] == [];
  }

  lemma ConcatSplit(blocks: seq<bytes>, i: nat)
    requires i < |blocks|
    ensures Concat(blocks[..i + 1]) == Concat(blocks[..i]) + blocks[i]
    ensures Concat(blocks) == Concat(blocks[..i]) + (blocks[i] + Concat(blocks[i + 1..]))
  {
    var tail := blocks[i..];
    assert blocks == blocks[..i] + tail && blocks[..i + 1] == blocks[..i] + [blocks[i]];
    assert tail[0] == blocks[i] && tail[1..] == blocks[i + 1..];
    ConcatJoin(blocks[..i], tail);
    ConcatJoin(blocks[..i], [blocks[i]]);
    ConcatOne(blocks[i]);
  }

  /** Some bytes of the first block taken out. */
  lemma CutFirst(sent: bytes, blocks: seq<bytes>, n: nat)
    requires blocks != [] && n <= |blocks[0]|
    ensures sent + blocks[0][..n] + Concat([blocks[0][n..]] + blocks[1..]) == sent + Concat(blocks)
  {
    var block, rest := blocks[0], Concat(blocks[1..]);
    assert ([block[n..]] + blocks[1..])[1..] == blocks[1..];
    assert block[..n] + block[n..] == block;
    assert sent + block[..n] + (block[n..] + rest) == sent + (block[..n] + block[n..] + rest);
  }

  lemma DropFirst(blocks: seq<bytes>)
    requires blocks != [] && blocks[0] == []
    ensures Concat(blocks[1..]) == Concat(blocks)
  {
    assert [] + Concat(blocks[1..]) == Concat(blocks[1..]);
  }

  lemma ConcatEnds(blocks: seq<bytes>)
    ensures Concat(blocks[..0]) == [] && Concat(blocks[..|blocks|]) == Concat(blocks)
  {
    assert blocks[..|blocks|] == blocks;
  }

  /** The blocks before i and n bytes of block i written after a file. */
  lemma Written(file: bytes, blocks: seq<bytes>, i: nat, n: nat)
    requires i < |blocks| && n <= |blocks[i]|
    ensures file <= file + Concat(blocks[..i]) + blocks[i][..n] <= file + Concat(blocks)
    ensures file + Concat(blocks[..i + 1]) == file + Concat(blocks[..i]) + blocks[i]
  {
    hide Concat;
    ConcatSplit(blocks, i);
    var before, block, rest := Concat(blocks[..i]), blocks[i], Concat(blocks[i + 1..]);
    assert before + (block + rest) == before + block[..n] + (block[n..] + rest);
    assert file + (before + block[..n] + (block[n..] + rest)) == file + before + block[..n] + (block[n..] + rest);
  }

  class RewriteBuffer {
    var blocks: seq<bytes>

    /** Blocks are within their capacity. */
    ghost predicate Valid()
      reads this
    {
      forall i | 0 <= i < |blocks| :: |blocks[i]| <= BLOCK
    }

    ghost function Contents(): bytes
      reads this
    {
      Concat(blocks)
    }

    /** aofRewriteBufferReset */
    constructor ()
      ensures Valid() && Contents() == []
    {
      blocks := [];
    }

    /** Copies as much of s as the last block has room for. */
    method FillLast(s: bytes) returns (rest: bytes)
      requires Valid() && blocks != []
      modifies this
      ensures Valid() && |blocks| == |old(blocks)|
      ensures Contents() + rest == old(Contents()) + s
      ensures rest != [] ==> |blocks[|blocks| - 1]| == BLOCK
      ensures |rest| <= |s| && (old(|blocks[|blocks| - 1]|) < BLOCK && s != [] ==> |rest| < |s|)
    {
      var front, last := blocks[..|blocks| - 1], blocks[|blocks| - 1];
      var free := BLOCK - |last|;
      var n := if free < |s| then free else |s|;
      assert blocks == front + [last];
      ConcatJoin(front, [last]);
      ConcatJoin(front, [last + s[..n]]);
      ConcatOne(last);
      ConcatOne(last + s[..n]);
      blocks := front + [last + s[..n]];
      rest := s[n..];
      assert Concat(front) + (last + s[..n]) + s[n..] == Concat(front) + last + s by {
        assert s[..n] + s[n..] == s;
      }
    }

    /** aofRewriteBufferAppend */
    method Append(data: bytes)
      requires Valid()
      modifies this
      ensures Valid() && Contents() == old(Contents()) + data
    {
      var s := data;
      assert Concat(blocks) + s == old(Contents()) + data;
      while s != []
        invariant Valid() && Contents() + s == old(Contents()) + data
        decreases |s|, if blocks != [] && |blocks[|blocks| - 1]| < BLOCK then 0 else 1
      {
        if blocks != [] && |blocks[|blocks| - 1]| < BLOCK {
          s := FillLast(s);
        }
        if s != [] {
          ConcatJoin(blocks, [[]]);
          ConcatOne([]);
          blocks := blocks + [[]];
        }
      }
      assert Contents() + [] == Contents();
    }

    /** aofChildWriteDiffData: 'writes' are the results of write on the data pipe, zero or less meaning failure. */
    method SendDiff(stopSending: bool, writes: seq<int>) returns (sent: bytes)
      requires Valid()
      modifies this
      ensures Valid() && sent + Contents() == old(Contents())
      ensures stopSending ==> sent == []
    {
      hide Concat;
      sent := [];
      var k := 0;
      assert sent + Concat(blocks) == Concat(blocks);
      while true
        invariant 0 <= k <= |writes| && Valid()
        invariant sent + Concat(blocks) == old(Contents()) && (stopSending ==> sent == [])
        decreases |blocks| + |writes| - k
      {
        if stopSending || blocks == [] {
          return;
        }
        var block := blocks[0];
        if |block| > 0 {
          if k == |writes| || writes[k] <= 0 {
            return;
          }
          var n := if writes[k] < |block| then writes[k] else |block|;
          CutFirst(sent, blocks, n);
          sent := sent + block[..n];
          block := block[n..];
          blocks := [block] + blocks[1..];
          k := k + 1;
        }
        if |block| == 0 {
          DropFirst(blocks);
          blocks := blocks[1..];
        }
      }
    }

    /** aofRewriteBufferWrite: appends every block to the file; a short write is an error. */
    method WriteTo(file: bytes, writes: seq<nat>) returns (ok: bool, after: bytes)
      requires Valid()
      ensures file <= after <= file + Contents()
      ensures ok ==> after == file + Contents()
    {
      hide Concat;
      after := file;
      var k := 0;
      ConcatEnds(blocks);
      for i := 0 to |blocks|
        invariant 0 <= k <= i && after == file + Concat(blocks[..i])
      {
        var block := blocks[i];
        Written(file, blocks, i, |block|);
        if |block| > 0 {
          var n := if k < |writes| && writes[k] < |block| then writes[k] else |block|;
          k := k + 1;
          if n != |block| {
            Written(file, blocks, i, n);
            return false, after + block[..n];
          }
          after := after + block;
        }
      }
      return true, after;
    }
  }
}
