/**
 The generic doubly linked list: every operation keeps the pointers and the
 length consistent and acts as an operation on a sequence.
 */
module LinkedList {
  import opened Common

  class Node<T> {
    var prev: Node?<T>
    var next: Node?<T>
    const value: T

    constructor (value: T)
      ensures this.value == value && prev == null && next == null
    {
      this.value, prev, next := value, null, null;
    }
  }

  ghost predicate Distinct<T(!new)>(q: seq<Node<T>>) {
    forall i, j | 0 <= i < j < |q| :: q[i] != q[j]
  }

  lemma NodesDiffer<T(!new)>(q: seq<Node<T>>, k: nat)
    requires Distinct(q) && k < |q|
    ensures forall i | 0 <= i < |q| && i != k :: q[i] != q[k]
  {
  }

  lemma DistinctApart<T(!new)>(q: seq<Node<T>>, r: seq<Node<T>>)
    requires Distinct(q + r)
    ensures forall i, j | 0 <= i < |q| && 0 <= j < |r| :: q[i] != r[j]
  {
    forall i, j | 0 <= i < |q| && 0 <= j < |r|
      ensures q[i] != r[j]
    {
      assert (q + r)[i] != (q + r)[|q| + j];
    }
  }

  lemma NoneLinked<T(!new)>(q: seq<Node<T>>)
    requires q == []
    ensures Linked(q)
  {
  }

  lemma NoneDistinct<T(!new)>(q: seq<Node<T>>)
    requires q == []
    ensures Distinct(q)
  {
  }

  /** The node at a position, null beyond either end. */
  ghost function At<T>(q: seq<Node<T>>, i: int): Node?<T> {
    if 0 <= i < |q| then q[i] else null
  }

  /** A node points at its neighbours, or at nothing. */
  ghost predicate LinkedAt<T(!new)>(q: seq<Node<T>>, i: int)
    requires 0 <= i < |q|
    reads q
  {
    q[i].prev == At(q, i - 1) && q[i].next == At(q, i + 1)
  }

  ghost predicate Linked<T(!new)>(q: seq<Node<T>>)
    reads q
  {
    forall i | 0 <= i < |q| :: LinkedAt(q, i)
  }

  ghost function Values<T>(q: seq<Node<T>>): (s: seq<T>)
    ensures |s| == |q| && forall i | 0 <= i < |q| :: s[i] == q[i].value
  {
    seq(|q|, i requires 0 <= i < |q| => q[i].value)
  }

  ghost function Neighbours<T>(q: seq<Node<T>>, k: nat): set<Node<T>>
    requires k < |q|
  {
    (if k > 0 then {q[k - 1]} else {}) + (if k + 1 < |q| then {q[k + 1]} else {})
  }

  lemma ValuesConcat<T>(a: seq<Node<T>>, b: seq<Node<T>>)
    ensures Values(a + b) == Values(a) + Values(b)
  {
  }

  lemma ValuesNone<T>()
    ensures Values<T>([]) == []
  {
  }

  lemma ValuesOne<T>(node: Node<T>)
    ensures Values([node]) == [node.value]
  {
  }

  lemma ValuesSlice<T>(q: seq<Node<T>>, i: nat, j: nat)
    requires i <= j <= |q|
    ensures Values(q[i..j]) == Values(q)[i..j]
  {
  }

  /** A node put in, or taken out. */
  lemma ValuesInsert<T>(q: seq<Node<T>>, p: nat, node: Node<T>)
    requires p <= |q|
    ensures Values(q[..p] + [node] + q[p..]) == Values(q)[..p] + [node.value] + Values(q)[p..]
  {
    ValuesConcat(q[..p] + [node], q[p..]);
    ValuesConcat(q[..p], [node]);
    ValuesSlice(q, 0, p);
    ValuesSlice(q, p, |q|);
    assert Values([node]) == [node.value];
  }

  lemma ValuesDelete<T>(q: seq<Node<T>>, k: nat)
    requires k < |q|
    ensures Values(q[..k] + q[k + 1..]) == Values(q)[..k] + Values(q)[k + 1..]
  {
    ValuesConcat(q[..k], q[k + 1..]);
    ValuesSlice(q, 0, k);
    ValuesSlice(q, k + 1, |q|);
  }

  class List<T(==,!new)> {
    var head: Node?<T>
    var tail: Node?<T>
    var len: nat
    ghost var nodes: seq<Node<T>>

    ghost predicate Valid()
      reads this, nodes
    {
      && len == |nodes| && Distinct(nodes) && Linked(nodes)
      && head == At(nodes, 0) && tail == At(nodes, |nodes| - 1)
    }

    ghost function Contents(): seq<T>
      reads this
    {
      Values(nodes)
    }

    /** listCreate */
    constructor ()
      ensures Valid() && nodes == [] && Contents() == []
    {
      head, tail, len, nodes := null, null, 0, [];
    }

    /** listAddNodeHead */
    method AddHead(value: T)
      requires Valid()
      modifies this, nodes
      ensures Valid() && |nodes| == |old(nodes)| + 1 && nodes[1..] == old(nodes) && fresh(nodes[0])
      ensures Contents() == [value] + old(Contents())
    {
      hide Values;
      ghost var q := nodes;
      assert q != [] ==> LinkedAt(q, 0);
      var node := new Node(value);
      ValuesConcat([node], q);
      ValuesOne(node);
      if len == 0 {
        head, tail := node, node;
      } else {
        node.next := head;
        head.prev := node;
        head := node;
      }
      len := len + 1;
      nodes := [node] + nodes;
      forall i | 0 <= i < |nodes|
        ensures LinkedAt(nodes, i)
      {
        if i > 0 {
          assert old(LinkedAt(q, i - 1));
        }
      }
    }

    /** listAddNodeTail */
    method AddTail(value: T)
      requires Valid()
      modifies this, nodes
      ensures Valid() && |nodes| == |old(nodes)| + 1 && nodes[..|old(nodes)|] == old(nodes) && fresh(nodes[|old(nodes)|])
      ensures Contents() == old(Contents()) + [value]
    {
      hide Values;
      ghost var q := nodes;
      assert q != [] ==> LinkedAt(q, |q| - 1);
      var node := new Node(value);
      ValuesConcat(q, [node]);
      ValuesOne(node);
      if len == 0 {
        head, tail := node, node;
      } else {
        node.prev := tail;
        tail.next := node;
        tail := node;
      }
      len := len + 1;
      nodes := nodes + [node];
      forall i | 0 <= i < |nodes|
        ensures LinkedAt(nodes, i)
      {
        if i < |q| {
          assert old(LinkedAt(q, i));
        }
      }
    }

    /** listInsertNode, at the place of a node of the list or behind it. */
    method InsertNode(place: Node<T>, value: T, after: bool, ghost k: nat) returns (ghost added: Node<T>)
      requires Valid() && k < |nodes| && nodes[k] == place
      modifies this, nodes
      ensures Valid() && fresh(added)
      ensures var p := if after then k + 1 else k;
        nodes == old(nodes)[..p] + [added] + old(nodes)[p..]
        && Contents() == old(Contents())[..p] + [value] + old(Contents())[p..]
    {
      hide Values, Distinct;
      ghost var q := nodes;
      ghost var p := if after then k + 1 else k;
      assert LinkedAt(q, k);
      NodesDiffer(q, k);
      var node := new Node(value);
      ValuesInsert(q, p, node);
      if after {
        node.prev, node.next := place, place.next;
        if tail == place {
          tail := node;
        }
      } else {
        node.next, node.prev := place, place.prev;
        if head == place {
          head := node;
        }
      }
      assert Linked(q) by {
        forall i | 0 <= i < |q|
          ensures LinkedAt(q, i)
        {
          assert old(LinkedAt(q, i));
        }
      }
      LinkIn(node, p);
      added := node;
    }

    /** The rest of listInsertNode: the neighbours of a new node point at it. */
    method LinkIn(node: Node<T>, ghost p: nat)
      requires len == |nodes| && Distinct(nodes) && Linked(nodes) && p <= |nodes| && node !in nodes
      requires node.prev == At(nodes, p - 1) && node.next == At(nodes, p)
      modifies this`len, this`nodes, nodes
      ensures nodes == old(nodes)[..p] + [node] + old(nodes)[p..]
      ensures len == |nodes| && Distinct(nodes) && Linked(nodes)
    {
      ghost var q := nodes;
      if node.prev != null {
        node.prev.next := node;
      }
      if node.next != null {
        node.next.prev := node;
      }
      len := len + 1;
      nodes := q[..p] + [node] + q[p..];
      forall i | 0 <= i < |nodes|
        ensures LinkedAt(nodes, i)
      {
        if i < p {
          assert old(LinkedAt(q, i));
        } else if i > p {
          assert old(LinkedAt(q, i - 1));
        }
      }
    }

    /** listDelNode */
    method DelNode(node: Node<T>, ghost k: nat)
      requires Valid() && k < |nodes| && nodes[k] == node
      modifies this, Neighbours(nodes, k)
      ensures Valid() && nodes == old(nodes)[..k] + old(nodes)[k + 1..]
      ensures Contents() == old(Contents())[..k] + old(Contents())[k + 1..]
      ensures unchanged(node)
    {
      hide Values;
      ghost var q := nodes;
      ValuesDelete(q, k);
      assert LinkedAt(q, k);
      if node.prev != null {
        node.prev.next := node.next;
      } else {
        head := node.next;
      }
      if node.next != null {
        node.next.prev := node.prev;
      } else {
        tail := node.prev;
      }
      len := len - 1;
      nodes := q[..k] + q[k + 1..];
      forall i | 0 <= i < |nodes|
        ensures LinkedAt(nodes, i)
      {
        if i < k {
          assert old(LinkedAt(q, i));
          assert nodes[i] == q[i] && At(nodes, i - 1) == At(q, i - 1);
          assert At(nodes, i + 1) == if i + 1 < k then q[i + 1] else At(q, k + 1);
        } else {
          assert old(LinkedAt(q, i + 1));
          assert nodes[i] == q[i + 1] && At(nodes, i + 1) == At(q, i + 2);
          assert At(nodes, i - 1) == if i > k then q[i] else At(q, k - 1);
        }
      }
    }

    /** listRotateTailToHead */
    method RotateTailToHead()
      requires Valid()
      modifies this, nodes
      ensures Valid()
      ensures nodes == if old(nodes) == [] then [] else [old(nodes)[|old(nodes)| - 1]] + old(nodes)[..|old(nodes)| - 1]
      ensures Contents() == if old(nodes) == [] then []
                            else [old(Contents())[|old(nodes)| - 1]] + old(Contents())[..|old(nodes)| - 1]
    {
      if len <= 1 {
        return;
      }
      ghost var q := nodes;
      ghost var n := |q| - 1;
      assert LinkedAt(q, n) && LinkedAt(q, n - 1);
      var last := tail;
      tail := last.prev;
      tail.next := null;
      head.prev := last;
      last.prev := null;
      last.next := head;
      head := last;
      nodes := [q[n]] + q[..n];
      forall i | 0 <= i < |nodes|
        ensures LinkedAt(nodes, i)
      {
        if i > 0 {
          assert old(LinkedAt(q, i - 1));
        }
      }
    }

    /** listRotateHeadToTail */
    method RotateHeadToTail()
      requires Valid()
      modifies this, nodes
      ensures Valid()
      ensures nodes == if old(nodes) == [] then [] else old(nodes)[1..] + [old(nodes)[0]]
      ensures Contents() == if old(nodes) == [] then [] else old(Contents())[1..] + [old(Contents())[0]]
    {
      if len <= 1 {
        return;
      }
      ghost var q := nodes;
      assert LinkedAt(q, 0) && LinkedAt(q, 1);
      var first := head;
      head := first.next;
      head.prev := null;
      tail.next := first;
      first.next := null;
      first.prev := tail;
      tail := first;
      nodes := q[1..] + [q[0]];
      forall i | 0 <= i < |nodes|
        ensures LinkedAt(nodes, i)
      {
        if i < |q| - 1 {
          assert old(LinkedAt(q, i + 1));
        }
      }
    }

    /** listJoin: all the nodes of another list move to the end of this one. */
    method Join(o: List<T>)
      requires Valid() && o.Valid() && o != this && Distinct(nodes + o.nodes)
      modifies this, nodes, o, o.nodes
      ensures Valid() && o.Valid() && o.nodes == []
      ensures nodes == old(nodes) + old(o.nodes) && Contents() == old(Contents()) + old(o.Contents())
    {
      hide Values, Distinct, Linked;
      ghost var q, r := nodes, o.nodes;
      ValuesConcat(q, r);
      ValuesNone<T>();
      NoneDistinct<T>([]);
      NoneLinked<T>([]);
      if o.len == 0 {
        return;
      }
      LinkEnds(o.head, q, r);
      if tail == null {
        head := o.head;
      }
      tail := o.tail;
      len := len + o.len;
      nodes := q + r;
      o.head, o.tail, o.len, o.nodes := null, null, 0, [];
    }

    /** The first node of a list is linked behind the last of this one. */
    method LinkEnds(first: Node<T>, ghost q: seq<Node<T>>, ghost r: seq<Node<T>>)
      requires r != [] && first == r[0] && tail == At(q, |q| - 1) && Linked(q) && Linked(r) && Distinct(q + r)
      modifies q, r
      ensures Linked(q + r)
    {
      DistinctApart(q, r);
      hide Distinct;
      assert LinkedAt(r, 0) && (q != [] ==> LinkedAt(q, |q| - 1));
      first.prev := tail;
      if tail != null {
        tail.next := first;
      }
      ghost var all := q + r;
      forall i | 0 <= i < |all|
        ensures LinkedAt(all, i)
      {
        if i < |q| {
          assert old(LinkedAt(q, i));
        } else {
          assert old(LinkedAt(r, i - |q|));
        }
      }
    }

    /** listEmpty */
    method Empty()
      requires Valid()
      modifies this
      ensures Valid() && nodes == [] && Contents() == []
    {
      var current, n := head, len;
      ghost var i := 0;
      while n > 0
        invariant i + n == |nodes| && current == At(nodes, i)
        invariant unchanged(this) && Valid()
      {
        assert LinkedAt(nodes, i);
        current := current.next;
        n, i := n - 1, i + 1;
      }
      head, tail, len, nodes := null, null, 0, [];
    }

    /** listIndex: negative positions count from the tail. */
    method Index(index: int) returns (n: Node?<T>)
      requires Valid()
      ensures n == At(nodes, if index < 0 then |nodes| + index else index)
    {
      var left := index;
      ghost var i;
      if index < 0 {
        left := -index - 1;
        n, i := tail, |nodes| - 1;
        while left > 0 && n != null
          invariant n == At(nodes, i) && 0 <= left && -1 <= i
          invariant i - left == |nodes| + index || (n == null && i - left >= |nodes| + index && i < 0)
        {
          assert LinkedAt(nodes, i);
          n := n.prev;
          left, i := left - 1, i - 1;
        }
      } else {
        n, i := head, 0;
        while left > 0 && n != null
          invariant n == At(nodes, i) && 0 <= left && 0 <= i <= |nodes|
          invariant i + left == index
        {
          assert LinkedAt(nodes, i);
          n := n.next;
          left, i := left - 1, i + 1;
        }
      }
    }

    /** listSearchKey: the first node that matches, from the head. */
    method SearchKey(matches: T -> bool) returns (n: Node?<T>)
      requires Valid()
      ensures n == null <==> forall i | 0 <= i < |nodes| :: !matches(nodes[i].value)
      ensures n != null ==> exists k | 0 <= k < |nodes| ::
        n == nodes[k] && matches(n.value) && forall i | 0 <= i < k :: !matches(nodes[i].value)
    {
      var next := head;
      ghost var i := 0;
      while next != null
        invariant 0 <= i <= |nodes| && next == At(nodes, i)
        invariant forall j | 0 <= j < i :: !matches(nodes[j].value)
        decreases |nodes| - i
      {
        assert LinkedAt(nodes, i);
        n := next;
        next := n.next;
        if matches(n.value) {
          return;
        }
        i := i + 1;
      }
      n := null;
    }

    /** listDup: null when a value cannot be copied; the original never changes. */
    method Dup(dup: T -> Option<T>) returns (copy: List?<T>)
      requires Valid()
      ensures copy == null <==> exists i | 0 <= i < |nodes| :: dup(nodes[i].value).None?
      ensures copy != null ==> fresh(copy) && copy.Valid() && |copy.nodes| == |nodes|
      ensures copy != null ==> (forall i | 0 <= i < |nodes| :: fresh(copy.nodes[i]) && Some(copy.nodes[i].value) == dup(nodes[i].value))
    {
      hide Values, Valid;
      var l := new List<T>();
      var next := head;
      HeadOf();
      ghost var i := 0;
      while next != null
        invariant 0 <= i <= |nodes| && next == At(nodes, i)
        invariant Valid() && fresh(l) && l.Valid() && |l.nodes| == i
        invariant forall j | 0 <= j < i :: fresh(l.nodes[j]) && Some(l.nodes[j].value) == dup(nodes[j].value)
        decreases |nodes| - i
      {
        LinkOf(i);
        var node := next;
        next := node.next;
        var value := dup(node.value);
        if value.None? {
          return null;
        }
        l.AddTail(value.value);
        i := i + 1;
      }
      return l;
    }

    /** An iteration from the head that removes the current node wherever 'drop' says so: it visits each original element
        once, in order, and leaves those not dropped. */
    method Sweep(drop: T -> bool) returns (visited: seq<T>)
      requires Valid()
      modifies this, nodes
      ensures Valid() && visited == old(Contents()) && nodes == Kept(old(nodes), drop)
    {
      hide Valid, Kept, Values, Sweeping;
      ghost var q := nodes;
      ghost var i := 0;
      visited := [];
      var next := head;
      SweepStart(q, drop);
      HeadOf();
      while next != null
        invariant 0 <= i <= |q| && next == At(q, i)
        invariant Valid() && Sweeping(q, i, drop, nodes) && visited == Values(q[..i])
        decreases |q| - i
      {
        var node := next;
        ghost var k, now := |Kept(q[..i], drop)|, nodes;
        SweepHere(q, i, drop, now);
        LinkOf(k);
        next := node.next;
        visited := visited + [node.value];
        SweepNext(q, i, drop, now);
        if drop(node.value) {
          assert k > 0 ==> nodes[k - 1] in q;
          assert k + 1 < |nodes| ==> nodes[k + 1] in q;
          DelNode(node, k);
        }
        i := i + 1;
      }
      SweepEnd(q, drop, nodes);
    }

    /** The same from the tail: each original element once, in the reverse order. */
    method SweepBack(drop: T -> bool) returns (visited: seq<T>)
      requires Valid()
      modifies this, nodes
      ensures Valid() && visited == Reversed(old(Contents())) && nodes == Kept(old(nodes), drop)
    {
      hide Valid, Kept, Values, SweepingBack, Reversed;
      ghost var q := nodes;
      ghost var i := |q|;
      visited := [];
      var next := tail;
      BackStart(q, drop);
      HeadOf();
      while next != null
        invariant 0 <= i <= |q| && next == At(q, i - 1)
        invariant Valid() && SweepingBack(q, i, drop, nodes) && visited == Reversed(Values(q[i..]))
        decreases i
      {
        var node := next;
        ghost var k, now := i - 1, nodes;
        BackHere(q, i, drop, now);
        LinkOf(k);
        next := node.prev;
        visited := visited + [node.value];
        BackNext(q, i, drop, now);
        if drop(node.value) {
          assert k > 0 ==> nodes[k - 1] in q;
          assert k + 1 < |nodes| ==> nodes[k + 1] in q;
          DelNode(node, k);
        }
        i := i - 1;
      }
      BackEnd(q, drop, nodes);
    }

    lemma HeadOf()
      requires Valid()
      ensures head == At(nodes, 0) && tail == At(nodes, |nodes| - 1)
    {
    }

    lemma LinkOf(k: nat)
      requires Valid() && k < |nodes|
      ensures nodes[k].next == At(nodes, k + 1) && nodes[k].prev == At(nodes, k - 1)
    {
      assert LinkedAt(nodes, k);
    }
  }

  /** The nodes after an iteration has passed i of those of q. */
  ghost predicate Sweeping<T(!new)>(q: seq<Node<T>>, i: nat, drop: T -> bool, nodes: seq<Node<T>>) {
    i <= |q| && nodes == Kept(q[..i], drop) + q[i..] && forall n | n in nodes :: n in q
  }

  lemma SweepStart<T(!new)>(q: seq<Node<T>>, drop: T -> bool)
    ensures Sweeping(q, 0, drop, q) && Values(q[..0]) == []
  {
    assert q[..0] == [] && q[0..] == q;
  }

  lemma SweepHere<T(!new)>(q: seq<Node<T>>, i: nat, drop: T -> bool, nodes: seq<Node<T>>)
    requires Sweeping(q, i, drop, nodes) && i < |q|
    ensures var k := |Kept(q[..i], drop)|; k < |nodes| && nodes[k] == q[i] && At(nodes, k + 1) == At(q, i + 1)
    ensures forall n | n in nodes :: n in q
  {
    hide Kept;
  }

  lemma SweepNext<T(!new)>(q: seq<Node<T>>, i: nat, drop: T -> bool, nodes: seq<Node<T>>)
    requires Sweeping(q, i, drop, nodes) && i < |q|
    ensures var k := |Kept(q[..i], drop)|;
      k < |nodes| && Sweeping(q, i + 1, drop, if drop(q[i].value) then nodes[..k] + nodes[k + 1..] else nodes)
    ensures Values(q[..i + 1]) == Values(q[..i]) + [q[i].value]
  {
    assert q[..i + 1][..i] == q[..i] && q[i..] == [q[i]] + q[i + 1..];
  }

  lemma SweepEnd<T(!new)>(q: seq<Node<T>>, drop: T -> bool, nodes: seq<Node<T>>)
    requires Sweeping(q, |q|, drop, nodes)
    ensures nodes == Kept(q, drop) && q[..|q|] == q
  {
    assert q[..|q|] == q && q[|q|..] == [];
  }

  /** The nodes when an iteration from the tail has i of those of q before it. */
  ghost predicate SweepingBack<T(!new)>(q: seq<Node<T>>, i: nat, drop: T -> bool, nodes: seq<Node<T>>) {
    i <= |q| && nodes == q[..i] + Kept(q[i..], drop) && forall n | n in nodes :: n in q
  }

  function Reversed<T>(s: seq<T>): seq<T> {
    if s == [] then [] else Reversed(s[1..]) + [s[0]]
  }

  lemma BackStart<T(!new)>(q: seq<Node<T>>, drop: T -> bool)
    ensures SweepingBack(q, |q|, drop, q) && Reversed(Values(q[|q|..])) == []
  {
    assert q[|q|..] == [] && q[..|q|] == q;
  }

  lemma BackHere<T(!new)>(q: seq<Node<T>>, i: nat, drop: T -> bool, nodes: seq<Node<T>>)
    requires SweepingBack(q, i, drop, nodes) && 0 < i
    ensures i <= |q| && i - 1 < |nodes| && nodes[i - 1] == q[i - 1] && At(nodes, i - 2) == At(q, i - 2)
    ensures forall n | n in nodes :: n in q
  {
    hide Kept;
  }

  lemma {:induction false} KeptFirst<T(!new)>(n: Node<T>, q: seq<Node<T>>, drop: T -> bool)
    ensures Kept([n] + q, drop) == (if drop(n.value) then [] else [n]) + Kept(q, drop)
  {
    var r := [n] + q;
    if q != [] {
      KeptFirst(n, q[..|q| - 1], drop);
      assert r[..|r| - 1] == [n] + q[..|q| - 1];
    }
  }

  lemma BackNext<T(!new)>(q: seq<Node<T>>, i: nat, drop: T -> bool, nodes: seq<Node<T>>)
    requires SweepingBack(q, i, drop, nodes) && 0 < i
    ensures i <= |q| && i - 1 < |nodes|
    ensures SweepingBack(q, i - 1, drop, if drop(q[i - 1].value) then nodes[..i - 1] + nodes[i..] else nodes)
    ensures Reversed(Values(q[i - 1..])) == Reversed(Values(q[i..])) + [q[i - 1].value]
  {
    hide Kept, Reversed, Values;
    KeptFirst(q[i - 1], q[i..], drop);
    ReversedNext(q, i);
    assert q[i - 1..] == [q[i - 1]] + q[i..];
    var head, rest := q[..i - 1], Kept(q[i..], drop);
    assert nodes == head + ([q[i - 1]] + rest);
    assert nodes[..i - 1] + nodes[i..] == head + rest;
  }

  lemma ReversedNext<T>(q: seq<Node<T>>, i: nat)
    requires 0 < i <= |q|
    ensures Reversed(Values(q[i - 1..])) == Reversed(Values(q[i..])) + [q[i - 1].value]
  {
    assert Values(q[i - 1..])[1..] == Values(q[i..]);
  }

  lemma BackEnd<T(!new)>(q: seq<Node<T>>, drop: T -> bool, nodes: seq<Node<T>>)
    requires SweepingBack(q, 0, drop, nodes)
    ensures nodes == Kept(q, drop) && q[0..] == q
  {
    assert q[0..] == q && q[..0] == [];
  }

  /** The nodes whose values are not dropped. */
  ghost function Kept<T>(q: seq<Node<T>>, drop: T -> bool): seq<Node<T>> {
    if q == [] then []
    else Kept(q[..|q| - 1], drop) + if drop(q[|q| - 1].value) then [] else [q[|q| - 1]]
  }
}
