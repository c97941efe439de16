/**
 The slot table in memory: one array of owners for the whole cluster and one
 bitmap per node, kept in step by every operation that moves a slot.
 */
module SlotTable {
  import opened Common
  import opened ClusterNode

  const BYTES: nat := 2048

  // ----- bitmaps -----

  /** 1 << bit */
  function Mask(bit: nat): bv8
    requires bit < 8
  {
    if bit == 0 then 1 else if bit == 1 then 2 else if bit == 2 then 4 else if bit == 3 then 8
    else if bit == 4 then 16 else if bit == 5 then 32 else if bit == 6 then 64 else 128
  }

  predicate ByteHas(b: bv8, bit: nat)
    requires bit < 8
  {
    b & Mask(bit) != 0
  }

  function ByteWith(b: bv8, bit: nat): bv8
    requires bit < 8
  {
    b | Mask(bit)
  }

  function ByteWithout(b: bv8, bit: nat): bv8
    requires bit < 8
  {
    b & !Mask(bit)
  }

  lemma ByteBits(b: bv8, p: nat, q: nat)
    requires p < 8 && q < 8
    ensures ByteHas(ByteWith(b, p), q) <==> p == q || ByteHas(b, q)
    ensures ByteHas(ByteWithout(b, p), q) <==> p != q && ByteHas(b, q)
  {
  }

  /** bitmapTestBit */
  predicate TestBit(bitmap: seq<bv8>, pos: nat)
    requires |bitmap| == BYTES && pos < SLOTS
  {
    ByteHas(bitmap[pos / 8], pos % 8)
  }

  /** bitmapSetBit */
  function SetBit(bitmap: seq<bv8>, pos: nat): (r: seq<bv8>)
    requires |bitmap| == BYTES && pos < SLOTS
  {
    bitmap[pos / 8 := ByteWith(bitmap[pos / 8], pos % 8)]
  }

  /** bitmapClearBit */
  function ClearBit(bitmap: seq<bv8>, pos: nat): (r: seq<bv8>)
    requires |bitmap| == BYTES && pos < SLOTS
  {
    bitmap[pos / 8 := ByteWithout(bitmap[pos / 8], pos % 8)]
  }

  /** Setting or clearing one bit changes that bit and no other. */
  lemma OneBit(bitmap: seq<bv8>, p: nat, q: nat)
    requires |bitmap| == BYTES && p < SLOTS && q < SLOTS
    ensures TestBit(SetBit(bitmap, p), q) <==> p == q || TestBit(bitmap, q)
    ensures TestBit(ClearBit(bitmap, p), q) <==> p != q && TestBit(bitmap, q)
  {
    hide ByteHas, ByteWith, ByteWithout;
    if p / 8 == q / 8 {
      ByteBits(bitmap[p / 8], p % 8, q % 8);
    }
  }

  /** The slots a bitmap holds. */
  ghost function Bits(bitmap: seq<bv8>): set<nat>
    requires |bitmap| == BYTES
  {
    set j: nat | j < SLOTS && TestBit(bitmap, j)
  }

  lemma OneBitSets(bitmap: seq<bv8>, p: nat)
    requires |bitmap| == BYTES && p < SLOTS
    ensures Bits(SetBit(bitmap, p)) == Bits(bitmap) + {p}
    ensures Bits(ClearBit(bitmap, p)) == Bits(bitmap) - {p}
  {
    forall q: nat | q < SLOTS
      ensures TestBit(SetBit(bitmap, p), q) <==> p == q || TestBit(bitmap, q)
      ensures TestBit(ClearBit(bitmap, p), q) <==> p != q && TestBit(bitmap, q)
    {
      OneBit(bitmap, p, q);
    }
  }

  /** How many of the first n flags are set: the counting loops. */
  ghost function Count(flags: seq<bool>, n: nat): nat
    requires n <= |flags|
  {
    if n == 0 then 0 else Count(flags, n - 1) + if flags[n - 1] then 1 else 0
  }

  ghost function Where(flags: seq<bool>, n: nat): set<nat>
    requires n <= |flags|
  {
    set i: nat | i < n && flags[i]
  }

  lemma {:induction false} CountIsSize(flags: seq<bool>, n: nat)
    requires n <= |flags|
    ensures Count(flags, n) == |Where(flags, n)|
  {
    if n > 0 {
      CountIsSize(flags, n - 1);
      assert Where(flags, n) == if flags[n - 1] then Where(flags, n - 1) + {n - 1} else Where(flags, n - 1);
    }
  }

  lemma CountNone()
    ensures forall flags: seq<bool> :: Count(flags, 0) == 0
  {
  }

  lemma CountNext(flags: seq<bool>, n: nat)
    requires n < |flags|
    ensures Count(flags, n + 1) == Count(flags, n) + if flags[n] then 1 else 0
  {
  }

  lemma CountBits(b: seq<bv8>, flags: seq<bool>)
    requires |b| == BYTES && |flags| == SLOTS && forall i | 0 <= i < SLOTS :: flags[i] == TestBit(b, i)
    ensures Count(flags, SLOTS) == |Bits(b)|
  {
    CountIsSize(flags, SLOTS);
    assert Where(flags, SLOTS) == Bits(b);
  }

  lemma NoBits(b: seq<bv8>)
    requires |b| == BYTES && forall i | 0 <= i < BYTES :: b[i] == 0
    ensures Bits(b) == {}
  {
    forall j: nat | j < SLOTS
      ensures !TestBit(b, j)
    {
      ZeroHasNone(j % 8);
    }
  }

  lemma ZeroHasNone(k: nat)
    requires k < 8
    ensures !ByteHas(0, k)
  {
  }

  class Node {
    const name: NodeId
    const slots: array<bv8>
    var numslots: nat
    var configEpoch: nat

    /** createClusterNode */
    constructor (name: NodeId)
      ensures this.name == name && fresh(slots) && slots.Length == BYTES
      ensures numslots == 0 && configEpoch == 0
      ensures forall i | 0 <= i < BYTES :: slots[i] == 0
    {
      this.name := name;
      slots := new bv8[BYTES](_ => 0);
      numslots, configEpoch := 0, 0;
    }

    /** The bitmap has a byte for every eight slots, and numslots counts its bits. */
    ghost predicate Valid()
      reads this, slots
    {
      slots.Length == BYTES && numslots == |Bits(slots[..])|
    }

    /** clusterNodeSetSlotBit */
    method SetSlotBit(j: nat) returns (was: bool)
      requires Valid() && j < SLOTS
      modifies this`numslots, slots
      ensures Valid() && was == old(TestBit(slots[..], j))
      ensures Bits(slots[..]) == old(Bits(slots[..])) + {j}
    {
      hide ByteHas, ByteWith;
      was := ByteHas(slots[j / 8], j % 8);
      ghost var before := slots[..];
      slots[j / 8] := ByteWith(slots[j / 8], j % 8);
      assert slots[..] == SetBit(before, j);
      OneBitSets(before, j);
      if !was {
        numslots := numslots + 1;
      } else {
        assert Bits(before) + {j} == Bits(before);
      }
    }

    /** clusterNodeClearSlotBit */
    method ClearSlotBit(j: nat) returns (was: bool)
      requires Valid() && j < SLOTS
      modifies this`numslots, slots
      ensures Valid() && was == old(TestBit(slots[..], j))
      ensures Bits(slots[..]) == old(Bits(slots[..])) - {j}
    {
      hide ByteHas, ByteWithout;
      was := ByteHas(slots[j / 8], j % 8);
      ghost var before := slots[..];
      slots[j / 8] := ByteWithout(slots[j / 8], j % 8);
      assert slots[..] == ClearBit(before, j);
      OneBitSets(before, j);
      if was {
        assert j in Bits(before);
        numslots := numslots - 1;
      } else {
        assert Bits(before) - {j} == Bits(before);
      }
    }
  }

  /** server.cluster as far as slots go: the owner, the import source and the migration target of every slot. */
  class Table {
    const slots: array<Node?>
    const importing: array<Node?>
    const migrating: array<Node?>
    var nodes: set<Node>

    constructor ()
      ensures Valid() && fresh(slots) && fresh(importing) && fresh(migrating) && nodes == {}
    {
      slots := new Node?[SLOTS](_ => null);
      importing := new Node?[SLOTS](_ => null);
      migrating := new Node?[SLOTS](_ => null);
      nodes := {};
    }

    /** The nodes are sound, differ in name and share no bitmap. */
    ghost predicate NodesValid()
      reads this, nodes, set n | n in nodes :: n.slots
    {
      && (forall n | n in nodes :: n.Valid())
      && (forall n, m | n in nodes && m in nodes && n != m :: n.slots != m.slots && n.name != m.name)
    }

    /** A slot array names only nodes of the table. */
    ghost predicate Refers(a: array<Node?>)
      reads this, a
    {
      a.Length == SLOTS && forall j | 0 <= j < SLOTS :: a[j] == null || a[j] in nodes
    }

    /** slots[j] is n exactly when bit j of n is set. */
    ghost predicate Agrees(n: Node)
      requires slots.Length == SLOTS && n.slots.Length == BYTES
      reads slots, n.slots
    {
      forall j: nat | j < SLOTS :: j in Bits(n.slots[..]) <==> slots[j] == n
    }

    ghost predicate Valid()
      reads this, slots, importing, migrating, nodes, set n | n in nodes :: n.slots
    {
      && slots != importing && slots != migrating && importing != migrating
      && Refers(slots) && Refers(importing) && Refers(migrating)
      && NodesValid()
      && forall n | n in nodes :: Agrees(n)
    }

    /** The owners by name. */
    ghost function Owners(): (r: seq<Option<NodeId>>)
      requires slots.Length == SLOTS
      reads slots
    {
      seq(SLOTS, j requires 0 <= j < SLOTS reads slots => if slots[j] == null then None else Some(slots[j].name))
    }

    /** No slot is in two bitmaps. */
    lemma BitmapsDisjoint(n: Node, m: Node)
      requires Valid() && n in nodes && m in nodes && n != m
      ensures Bits(n.slots[..]) !! Bits(m.slots[..])
    {
      hide TestBit;
      assert n.Valid() && m.Valid() && Agrees(n) && Agrees(m);
    }

    /** clusterAddNode, of a node just created. */
    method AddNode(n: Node)
      requires Valid() && n !in nodes && n.slots.Length == BYTES && n.numslots == 0
      requires forall i | 0 <= i < BYTES :: n.slots[i] == 0
      requires forall m | m in nodes :: m.name != n.name && m.slots != n.slots
      modifies this`nodes
      ensures Valid() && nodes == old(nodes) + {n}
    {
      NoBits(n.slots[..]);
      hide Bits, TestBit;
      nodes := nodes + {n};
      forall m | m in nodes
        ensures m.Valid() && Agrees(m)
      {
        if m != n {
          assert old(m.Valid()) && old(Agrees(m));
        }
      }
    }

    /** clusterAddSlot */
    method AddSlot(n: Node, j: nat) returns (ok: bool)
      requires Valid() && n in nodes && j < SLOTS
      modifies slots, n.slots, n`numslots
      ensures Valid()
      ensures ok == (old(slots[j]) == null)
      ensures slots[..] == if ok then old(slots[..])[j := n] else old(slots[..])
      ensures unchanged(importing) && unchanged(migrating)
    {
      hide Bits, TestBit;
      if slots[j] != null {
        return false;
      }
      var was := n.SetSlotBit(j);
      slots[j] := n;
      ok := true;
      assert NodesValid() by {
        assert forall m | m in nodes && m != n :: old(m.Valid()) && m.slots != n.slots;
      }
      forall m | m in nodes
        ensures Agrees(m)
      {
        assert old(Agrees(m));
      }
    }

    /** clusterDelSlot; the assertion of the source holds. */
    method DelSlot(j: nat) returns (ok: bool)
      requires Valid() && j < SLOTS
      modifies slots, nodes`numslots, set n | n in nodes :: n.slots
      ensures Valid()
      ensures ok == (old(slots[j]) != null)
      ensures slots[..] == old(slots[..])[j := null]
      ensures unchanged(importing) && unchanged(migrating)
    {
      var n := slots[j];
      if n == null {
        assert slots[..] == old(slots[..])[j := null];
        return false;
      }
      var was := n.ClearSlotBit(j);
      assert was;
      slots[j] := null;
      ok := true;
    }
  
    /** clusterDelSlot followed by clusterAddSlot. */
    method MoveSlot(j: nat, to: Node)
      requires Valid() && j < SLOTS && to in nodes
      modifies slots, nodes`numslots, set n | n in nodes :: n.slots
      ensures Valid() && slots[..] == old(slots[..])[j := to]
      ensures unchanged(importing) && unchanged(migrating)
    {
      hide NodesValid, Agrees;
      var ok := DelSlot(j);
      ok := AddSlot(to, j);
    }

    /** The test of a node's own bitmap. */
    lemma HasSlot(n: Node, j: nat)
      requires Valid() && n in nodes && j < SLOTS
      ensures n.slots.Length == BYTES && slots.Length == SLOTS && (ByteHas(n.slots[j / 8], j % 8) <==> slots[j] == n)
    {
      hide ByteHas;
      assert n.Valid() && Agrees(n);
      assert j in Bits(n.slots[..]) <==> slots[j] == n;
    }

    /** clusterDelNodeSlots */
    method DelNodeSlots(n: Node) returns (deleted: nat)
      requires Valid() && n in nodes
      modifies slots, nodes`numslots, set m | m in nodes :: m.slots
      ensures Valid()
      ensures forall i | 0 <= i < SLOTS :: slots[i] == if old(slots[i]) == n then null else old(slots[i])
      ensures deleted == |set i: nat | i < SLOTS && old(slots[..])[i] == n|
    {
      hide Valid, Count;
      deleted := 0;
      ValidParts();
      CountNone();
      ghost var was := slots[..];
      ghost var ours := seq(SLOTS, i requires 0 <= i < SLOTS => was[i] == n);
      for j := 0 to SLOTS
        invariant Valid()
        invariant forall i | 0 <= i < j :: slots[i] == if was[i] == n then null else was[i]
        invariant forall i | j <= i < SLOTS :: slots[i] == was[i]
        invariant deleted == Count(ours, j)
      {
        HasSlot(n, j);
        CountNext(ours, j);
        if ByteHas(n.slots[j / 8], j % 8) {
          var ok := DelSlot(j);
          deleted := deleted + 1;
        }
      }
      CountIsSize(ours, SLOTS);
      assert Where(ours, SLOTS) == set i: nat | i < SLOTS && was[i] == n;
    }

    /** The slot loop of clusterFailoverReplaceYourMaster. */
    method TakeSlots(from: Node, to: Node)
      requires Valid() && from in nodes && to in nodes && from != to
      modifies slots, nodes`numslots, set m | m in nodes :: m.slots
      ensures Valid()
      ensures forall i | 0 <= i < SLOTS :: slots[i] == if old(slots[i]) == from then to else old(slots[i])
    {
      for j := 0 to SLOTS
        invariant Valid()
        invariant forall i | 0 <= i < j :: slots[i] == if old(slots[i]) == from then to else old(slots[i])
        invariant forall i | j <= i < SLOTS :: slots[i] == old(slots[i])
      {
        assert j in Bits(from.slots[..]) <==> slots[j] == from;
        if ByteHas(from.slots[j / 8], j % 8) {
          MoveSlot(j, to);
        }
      }
    }
  
    /** Slot j moves to a sender claiming it at epoch e: the test inside the loop of clusterUpdateSlotsConfigWith. */
    ghost predicate Moves(j: nat, sender: Node, e: nat, claims: seq<bv8>)
      requires Refers(slots) && Refers(importing) && j < SLOTS && |claims| == BYTES
      reads this, slots, importing, nodes
    {
      && TestBit(claims, j)
      && slots[j] != sender
      && importing[j] == null
      && (slots[j] == null || slots[j].configEpoch < e)
    }

    ghost function MovesAll(sender: Node, e: nat, claims: seq<bv8>): (r: seq<bool>)
      requires Refers(slots) && Refers(importing) && |claims| == BYTES
      reads this, slots, importing, nodes
      ensures |r| == SLOTS && forall i | 0 <= i < SLOTS :: r[i] == Moves(i, sender, e, claims)
    {
      seq(SLOTS, i requires 0 <= i < SLOTS && Refers(slots) && Refers(importing)
                   reads this, slots, importing, nodes => Moves(i, sender, e, claims))
    }

    /** One round of the slot loop of clusterUpdateSlotsConfigWith. */
    method RebindSlot(j: nat, sender: Node, e: nat, claims: seq<bv8>, cur: Node) returns (claimed: bool, lost: bool)
      requires Valid() && j < SLOTS && sender in nodes && cur in nodes && |claims| == BYTES
      modifies slots, nodes`numslots, set m | m in nodes :: m.slots
      ensures Valid() && unchanged(importing) && unchanged(migrating)
      ensures slots[..] == if old(Moves(j, sender, e, claims)) then old(slots[..])[j := sender] else old(slots[..])
      ensures claimed == TestBit(claims, j)
      ensures lost == (old(slots[j]) == cur && old(Moves(j, sender, e, claims)))
    {
      hide NodesValid, Agrees, ByteHas;
      claimed, lost := ByteHas(claims[j / 8], j % 8), false;
      if claimed && slots[j] != sender && importing[j] == null
         && (slots[j] == null || slots[j].configEpoch < e)
      {
        lost := slots[j] == cur;
        MoveSlot(j, sender);
      }
    }

    /** The slot loop of clusterUpdateSlotsConfigWith, with the counts its caller needs:
        the slots the sender claims, and the slots moved away from 'cur'. */
    method RebindSlots(sender: Node, e: nat, claims: seq<bv8>, cur: Node) returns (senderSlots: nat, lost: nat)
      requires Valid() && sender in nodes && cur in nodes && |claims| == BYTES
      modifies slots, nodes`numslots, set m | m in nodes :: m.slots
      ensures Valid()
      ensures forall i | 0 <= i < SLOTS ::
        slots[i] == if old(MovesAll(sender, e, claims))[i] then sender else old(slots[i])
      ensures senderSlots == |Bits(claims)|
      ensures lost == |set i: nat | i < SLOTS && old(slots[..])[i] == cur && old(MovesAll(sender, e, claims))[i]|
    {
      hide NodesValid, Agrees, ByteHas, Count, Bits;
      CountNone();
      senderSlots, lost := 0, 0;
      ghost var was, moves := slots[..], MovesAll(sender, e, claims);
      ghost var bits := seq(SLOTS, i requires 0 <= i < SLOTS => TestBit(claims, i));
      ghost var ours := seq(SLOTS, i requires 0 <= i < SLOTS => was[i] == cur && moves[i]);
      for j := 0 to SLOTS
        invariant Valid() && unchanged(importing)
        invariant forall i | 0 <= i < j :: slots[i] == if moves[i] then sender else was[i]
        invariant forall i | j <= i < SLOTS :: slots[i] == was[i]
        invariant senderSlots == Count(bits, j) && lost == Count(ours, j)
      {
        assert moves[j] == Moves(j, sender, e, claims);
        CountNext(bits, j);
        CountNext(ours, j);
        var claimed, gone := RebindSlot(j, sender, e, claims, cur);
        senderSlots := if claimed then senderSlots + 1 else senderSlots;
        lost := if gone then lost + 1 else lost;
      }
      CountBits(claims, bits);
      CountIsSize(ours, SLOTS);
      assert Where(ours, SLOTS) == set i: nat | i < SLOTS && was[i] == cur && moves[i];
    }

    /** Slot j stops being owned by, imported from or migrated to n. */
    method ReleaseSlot(j: nat, n: Node)
      requires Valid() && j < SLOTS && n in nodes
      modifies slots, importing, migrating, nodes`numslots, set m | m in nodes :: m.slots
      ensures Valid()
      ensures slots[..] == if old(slots[j]) == n then old(slots[..])[j := null] else old(slots[..])
      ensures importing[..] == if old(importing[j]) == n then old(importing[..])[j := null] else old(importing[..])
      ensures migrating[..] == if old(migrating[j]) == n then old(migrating[..])[j := null] else old(migrating[..])
    {
      hide NodesValid, Agrees;
      if slots[j] == n {
        var ok := DelSlot(j);
      }
      StopMoving(j, n);
    }

    /** Slot j is neither imported from nor migrated to n any more. */
    method StopMoving(j: nat, n: Node)
      requires Valid() && j < SLOTS
      modifies importing, migrating
      ensures Valid() && unchanged(slots)
      ensures importing[..] == if old(importing[j]) == n then old(importing[..])[j := null] else old(importing[..])
      ensures migrating[..] == if old(migrating[j]) == n then old(migrating[..])[j := null] else old(migrating[..])
    {
      hide Bits;
      if importing[j] == n {
        importing[j] := null;
      }
      if migrating[j] == n {
        migrating[j] := null;
      }
      assert NodesValid();
      forall m | m in nodes
        ensures Agrees(m)
      {
        assert old(Agrees(m));
      }
    }

    method ReleaseSlots(n: Node)
      requires Valid() && n in nodes
      modifies slots, importing, migrating, nodes`numslots, set m | m in nodes :: m.slots
      ensures Valid()
      ensures forall i | 0 <= i < SLOTS ::
        && slots[i] == (if old(slots[i]) == n then null else old(slots[i]))
        && importing[i] == (if old(importing[i]) == n then null else old(importing[i]))
        && migrating[i] == (if old(migrating[i]) == n then null else old(migrating[i]))
    {
      hide NodesValid, Agrees;
      for j := 0 to SLOTS
        invariant Valid()
        invariant forall i | 0 <= i < j ::
          && slots[i] == (if old(slots[i]) == n then null else old(slots[i]))
          && importing[i] == (if old(importing[i]) == n then null else old(importing[i]))
          && migrating[i] == (if old(migrating[i]) == n then null else old(migrating[i]))
        invariant forall i | j <= i < SLOTS ::
          slots[i] == old(slots[i]) && importing[i] == old(importing[i]) && migrating[i] == old(migrating[i])
      {
        ReleaseSlot(j, n);
      }
    }

    /** clusterDelNode, as far as slots go: no slot array names the deleted node any more. */
    method DelNode(n: Node)
      requires Valid() && n in nodes
      modifies this`nodes, slots, importing, migrating, nodes`numslots, set m | m in nodes :: m.slots
      ensures Valid() && nodes == old(nodes) - {n}
      ensures forall i | 0 <= i < SLOTS ::
        && slots[i] == (if old(slots[i]) == n then null else old(slots[i]))
        && importing[i] == (if old(importing[i]) == n then null else old(importing[i]))
        && migrating[i] == (if old(migrating[i]) == n then null else old(migrating[i]))
    {
      ReleaseSlots(n);
      nodes := nodes - {n};
    }
  
    /** What the table says, in the terms of ClusterNode: owners, epochs and imports by name. */
    ghost function AsView(): (v: View)
      requires Valid()
      reads this, slots, importing, migrating, nodes, set n | n in nodes :: n.slots
      ensures forall n | n in nodes :: n.name in v.nodes && v.nodes[n.name].configEpoch == n.configEpoch
      ensures v.slots == Owners()
      ensures forall j | 0 <= j < |v.slots| && v.slots[j].Some? :: v.slots[j].value in v.nodes
      ensures forall j: nat :: j in v.importing <==> j < SLOTS && importing[j] != null
    {
      View(map n | n in nodes :: n.name := Info(true, None, n.configEpoch, false, 0), Owners(),
           map j: nat | j < SLOTS && importing[j] != null :: importing[j].name, 0)
    }

    lemma MovesIsRebound(sender: Node, e: nat, claims: seq<bv8>)
      requires Valid() && sender in nodes && |claims| == BYTES
      ensures forall j: nat | j < SLOTS ::
        Moves(j, sender, e, claims) <==> j in Rebound(AsView(), sender.name, e, Bits(claims))
    {
      hide Agrees, TestBit;
      forall j: nat | j < SLOTS
        ensures Moves(j, sender, e, claims) <==> j in Rebound(AsView(), sender.name, e, Bits(claims))
      {
        assert AsView().slots[j] == if slots[j] == null then None else Some(slots[j].name);
        assert slots[j] != null ==> (slots[j].name == sender.name <==> slots[j] == sender);
      }
    }

    /** The loop of clusterUpdateSlotsConfigWith leaves the owners that UpdateSlotsConfigWith computes, and its
        counts are the sizes UpdateSlotsConfigWith compares. */
    method ApplyClaims(sender: Node, e: nat, claims: seq<bv8>, cur: Node) returns (senderSlots: nat, lost: nat)
      requires Valid() && sender in nodes && cur in nodes && |claims| == BYTES
      modifies slots, nodes`numslots, set m | m in nodes :: m.slots
      ensures Valid()
      ensures var moved := Rebound(old(AsView()), sender.name, e, Bits(claims));
        && Owners() == BindSlots(old(Owners()), moved, Some(sender.name))
        && senderSlots == |Bits(claims)|
        && lost == |moved * SlotsOf(old(Owners()), cur.name)|
    {
      hide Valid, Rebound, Moves, Bits, SlotsOf;
      ValidParts();
      ghost var v, moves := AsView(), MovesAll(sender, e, claims);
      ghost var moved := Rebound(v, sender.name, e, Bits(claims));
      ClaimsMove(sender, e, claims, cur);
      senderSlots, lost := RebindSlots(sender, e, claims, cur);
      ValidParts();
      assert Owners() == BindSlots(v.slots, moved, Some(sender.name));
    }

    lemma ValidParts()
      requires Valid()
      ensures Refers(slots) && Refers(importing)
    {
    }

    /** The slots that move, in the terms of ClusterNode, and those of them that 'cur' owned. */
    lemma ClaimsMove(sender: Node, e: nat, claims: seq<bv8>, cur: Node)
      requires Valid() && sender in nodes && cur in nodes && |claims| == BYTES
      ensures Refers(slots) && Refers(importing)
      ensures var moved := Rebound(AsView(), sender.name, e, Bits(claims));
        var moves := MovesAll(sender, e, claims);
        && (forall j: nat | j < SLOTS :: moves[j] <==> j in moved)
        && (set i: nat | i < SLOTS && slots[..][i] == cur && moves[i]) == moved * SlotsOf(Owners(), cur.name)
    {
      MovesIsRebound(sender, e, claims);
      assert forall j: nat | j < SLOTS :: slots[j] == cur <==> j in SlotsOf(Owners(), cur.name);
      hide Agrees, TestBit, Rebound, Moves, Bits;
    }
  }
}
