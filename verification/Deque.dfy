/** The doubly linked list of cs_2200/playground/threading/threadsafeLinkedList.c; each method is a critical section. */
module Deque {
  import opened Basics

  class Node {
    var next: Node?
    var prev: Node?
    const data: int

    constructor (data: int)
      ensures next == null && prev == null && this.data == data
    {
      this.next, this.prev, this.data := null, null, data;
    }
  }

  function Data(nodes: seq<Node>): (d: seq<int>)
    ensures |d| == |nodes| && forall k :: 0 <= k < |d| ==> d[k] == nodes[k].data
  {
    if nodes == [] then [] else Data(nodes[..|nodes| - 1]) + [nodes[|nodes| - 1].data]
  }

  lemma {:induction false} DataPrepend(n: Node, nodes: seq<Node>)
    ensures Data([n] + nodes) == [n.data] + Data(nodes)
  {
  }

  function At(nodes: seq<Node>, k: int): Node?
  {
    if 0 <= k < |nodes| then nodes[k] else null
  }

  /** `next` leads through the nodes to null; `prev` leads back to `before`. */
  ghost predicate Chain(nodes: seq<Node>, before: Node?)
    reads nodes
  {
    && Distinct(nodes)
    && (forall k {:trigger nodes[k].next} :: 0 <= k < |nodes| ==> nodes[k].next == At(nodes, k + 1))
    && (forall k {:trigger nodes[k].prev} :: 0 <= k < |nodes|
            ==> nodes[k].prev == if k == 0 then before else nodes[k - 1])
  }

  lemma Prepend(n: Node, nodes: seq<Node>)
    requires Chain(nodes, n) && n !in nodes && n.prev == null && n.next == At(nodes, 0)
    ensures Chain([n] + nodes, null)
  {
    var all := [n] + nodes;
    forall k | 0 <= k < |all|
      ensures all[k].next == At(all, k + 1) && all[k].prev == if k == 0 then null else all[k - 1]
    {
      if k > 0 {
        var j := k - 1;
        assert all[k] == nodes[j];
      }
    }
  }

  lemma DropHead(nodes: seq<Node>, before: Node?)
    requires nodes != [] && Chain(nodes, before)
    ensures Chain(nodes[1..], nodes[0])
  {
    var rest := nodes[1..];
    forall k | 0 <= k < |rest|
      ensures rest[k].next == At(rest, k + 1) && rest[k].prev == if k == 0 then nodes[0] else rest[k - 1]
    {
      var j := k + 1;
      assert rest[k] == nodes[j];
    }
  }

  lemma SplitHead(nodes: seq<Node>)
    requires nodes != []
    ensures Data(nodes) == [nodes[0].data] + Data(nodes[1..])
    ensures At(nodes[1..], 0) == At(nodes, 1) && (|nodes| > 1 ==> At(nodes[1..], |nodes| - 2) == At(nodes, |nodes| - 1))
  {
    assert nodes == [nodes[0]] + nodes[1..];
    DataPrepend(nodes[0], nodes[1..]);
  }

  /** A store to the first node's prev pointer. */
  method SetPrev(first: Node, before: Node?, ghost nodes: seq<Node>)
    requires nodes != [] && nodes[0] == first && Chain(nodes, first.prev)
    modifies first`prev
    ensures first.prev == before && Chain(nodes, before)
  {
    first.prev := before;
  }

  /** A new first node: its next pointer, and the old first node's prev pointer. */
  method LinkFirst(first: Node, node: Node, ghost nodes: seq<Node>)
    requires nodes != [] && nodes[0] == first && Chain(nodes, null) && node !in nodes && node.prev == null
    modifies first`prev, node`next
    ensures Chain([node] + nodes, null)
  {
    node.next := first;
    SetPrev(first, node, nodes);
    Prepend(node, nodes);
  }

  /** A new last node: its prev pointer, and the old last node's next pointer. */
  method LinkLast(last: Node, node: Node, ghost nodes: seq<Node>)
    requires nodes != [] && nodes[|nodes| - 1] == last && Chain(nodes, null) && node !in nodes && node.next == null
    modifies last`next, node`prev
    ensures Chain(nodes + [node], null)
  {
    node.prev := last;
    last.next := node;
  }

  // ----- interleavings of critical sections -----

  datatype Op = AddHead(data: int) | AddTail(data: int) | RemoveHead | RemoveTail

  /** What the threads took out so far, in order, and what is left. */
  datatype Trace = Trace(out: seq<int>, left: seq<int>)

  function Step(t: Trace, op: Op): Trace
  {
    var q := t.left;
    match op
    case AddHead(d) => t.(left := [d] + q)
    case AddTail(d) => t.(left := q + [d])
    case RemoveHead => if q == [] then t else Trace(t.out + [q[0]], q[1..])
    case RemoveTail => if q == [] then t else Trace(t.out + [q[|q| - 1]], q[..|q| - 1])
  }

  function Run(q: seq<int>, ops: seq<Op>): Trace
  {
    if ops == [] then Trace([], q) else Step(Run(q, ops[..|ops| - 1]), ops[|ops| - 1])
  }

  function Added(ops: seq<Op>): seq<int>
  {
    if ops == [] then []
    else
      var last := ops[|ops| - 1];
      Added(ops[..|ops| - 1]) + if last.AddHead? || last.AddTail? then [last.data] else []
  }

  lemma RunNext(q: seq<int>, ops: seq<Op>, k: nat)
    requires k < |ops|
    ensures Run(q, ops[..k + 1]) == Step(Run(q, ops[..k]), ops[k])
  {
    assert ops[..k + 1][..k] == ops[..k];
  }

  class LinkedList {
    var head: Node?
    var tail: Node?
    var size: nat
    /** The nodes from head to tail. */
    ghost var nodes: seq<Node>

    /** Both chains run through `nodes`, in opposite directions; so they are inverse to each other. */
    ghost predicate Valid()
      reads this, nodes
    {
      && size == |nodes| && head == At(nodes, 0) && tail == At(nodes, |nodes| - 1)
      && Chain(nodes, null)
    }

    ghost function Contents(): seq<int>
      reads this
    {
      Data(nodes)
    }

    constructor ()
      ensures Valid() && Contents() == []
    {
      head, tail, size, nodes := null, null, 0, [];
    }

    method AddToHead(data: int)
      requires Valid()
      modifies this, nodes
      ensures Valid() && Contents() == [data] + old(Contents())
      ensures forall n :: n in nodes ==> n in old(nodes) || fresh(n)
    {
      var node := new Node(data);
      if head == null {
        head, tail, size := node, node, 1;
      } else {
        LinkFirst(head, node, nodes);
        head := node;
        size := size + 1;
      }
      DataPrepend(node, nodes);
      ghost var all := [node] + nodes;
      assert nodes != [] ==> all[|nodes|] == nodes[|nodes| - 1];
      nodes := all;
    }

    method AddToTail(data: int)
      requires Valid()
      modifies this, nodes
      ensures Valid() && Contents() == old(Contents()) + [data]
      ensures forall n :: n in nodes ==> n in old(nodes) || fresh(n)
    {
      var node := new Node(data);
      if head == null {
        head, tail, size := node, node, 1;
      } else {
        LinkLast(tail, node, nodes);
        tail := node;
        size := size + 1;
      }
      ghost var was := nodes;
      nodes := was + [node];
      assert nodes[..|was|] == was && Data(nodes) == Data(was) + [data];
    }

    /** None: the list is empty, and the caller goes on waiting. */
    method RemoveFromHead() returns (data: Option<int>)
      requires Valid()
      modifies this, nodes
      ensures Valid() && (data == None <==> old(Contents()) == [])
      ensures data.Some? ==> old(Contents()) == [data.value] + Contents()
      ensures data.None? ==> Contents() == old(Contents())
      ensures forall n :: n in nodes ==> n in old(nodes)
    {
      if size == 0 {
        return None;
      }
      var oldHead := head;
      DropHead(nodes, null);
      SplitHead(nodes);
      ghost var rest := nodes[1..];
      head := oldHead.next;
      if head == null {
        tail := null;
      } else {
        SetPrev(head, null, rest);
      }
      size := size - 1;
      data := Some(oldHead.data);
      nodes := rest;
    }

    method RemoveFromTail() returns (data: Option<int>)
      requires Valid()
      modifies this, nodes
      ensures Valid() && (data == None <==> old(Contents()) == [])
      ensures data.Some? ==> old(Contents()) == Contents() + [data.value]
      ensures data.None? ==> Contents() == old(Contents())
      ensures forall n :: n in nodes ==> n in old(nodes)
    {
      if size == 0 {
        return None;
      }
      var oldTail := tail;
      tail := oldTail.prev;
      if tail == null {
        head := null;
      } else {
        tail.next := null;
      }
      size := size - 1;
      data := Some(oldTail.data);
      nodes := nodes[..|nodes| - 1];
    }

    /** One critical section; a removal appends what it took out to `removed`. */
    method Act(op: Op, removed: seq<int>) returns (removed': seq<int>)
      requires Valid()
      modifies this, nodes
      ensures Valid() && Trace(removed', Contents()) == Step(Trace(removed, old(Contents())), op)
      ensures forall n :: n in nodes ==> n in old(nodes) || fresh(n)
    {
      removed' := removed;
      match op
      case AddHead(d) => AddToHead(d);
      case AddTail(d) => AddToTail(d);
      case RemoveHead =>
        var d := RemoveFromHead();
        if d.Some? {
          removed' := removed + [d.value];
        }
      case RemoveTail =>
        var d := RemoveFromTail();
        if d.Some? {
          removed' := removed + [d.value];
        }
    }

    /** The threads' critical sections in the order in which they get the lock. */
    method Perform(ops: seq<Op>) returns (removed: seq<int>)
      requires Valid()
      modifies this, nodes
      ensures Valid() && Trace(removed, Contents()) == Run(old(Contents()), ops)
      ensures forall n :: n in nodes ==> n in old(nodes) || fresh(n)
    {
      ghost var start := Contents();
      removed := [];
      var k := 0;
      while k < |ops|
        invariant 0 <= k <= |ops| && Valid()
        invariant Trace(removed, Contents()) == Run(start, ops[..k])
        invariant forall n :: n in nodes ==> n in old(nodes) || fresh(n)
      {
        assert forall i :: 0 <= i < |nodes| ==> nodes[i] in nodes;
        RunNext(start, ops, k);
        removed := Act(ops[k], removed);
        k := k + 1;
      }
      assert ops[..k] == ops;
    }
  }

  lemma StepConserves(t: Trace, op: Op)
    ensures var t', d := Step(t, op), if op.AddHead? || op.AddTail? then multiset{op.data} else multiset{};
            multiset(t'.out) + multiset(t'.left) == multiset(t.out) + multiset(t.left) + d
  {
    var l := t.left;
    if op.RemoveHead? && l != [] {
      assert l == [l[0]] + l[1..];
    } else if op.RemoveTail? && l != [] {
      assert l == l[..|l| - 1] + [l[|l| - 1]];
    }
  }

  /** Nothing is lost or made up, whoever adds and removes where. */
  lemma {:induction false} Conserves(q: seq<int>, ops: seq<Op>)
    ensures multiset(Run(q, ops).out) + multiset(Run(q, ops).left) == multiset(q) + multiset(Added(ops))
  {
    if ops != [] {
      var init, last := ops[..|ops| - 1], ops[|ops| - 1];
      Conserves(q, init);
      StepConserves(Run(q, init), last);
    }
  }

  /** With additions at the tail and removals at the head the list is a queue: first in, first out. */
  lemma {:induction false} IsFifo(q: seq<int>, ops: seq<Op>)
    requires forall op :: op in ops ==> op.AddTail? || op.RemoveHead?
    ensures Run(q, ops).out + Run(q, ops).left == q + Added(ops)
  {
    if ops != [] {
      var init, last := ops[..|ops| - 1], ops[|ops| - 1];
      assert last in ops;
      IsFifo(q, init);
      var t := Run(q, init);
      if last.AddTail? {
        assert t.out + (t.left + [last.data]) == (t.out + t.left) + [last.data];
        assert q + (Added(init) + [last.data]) == (q + Added(init)) + [last.data];
      } else if t.left != [] {
        assert t.out + t.left == (t.out + [t.left[0]]) + t.left[1..];
      }
    }
  }

  function Balance(ops: seq<Op>): int
  {
    if ops == [] then 0
    else
      var last := ops[|ops| - 1];
      Balance(ops[..|ops| - 1]) + if last.AddHead? || last.AddTail? then 1 else -1
  }

  /** Only operations at the head, and never more removals than additions. */
  ghost predicate AtHead(ops: seq<Op>)
  {
    && (forall op :: op in ops ==> op.AddHead? || op.RemoveHead?)
    && forall k :: 0 <= k <= |ops| ==> Balance(ops[..k]) >= 0
  }

  /** What was there before stays below until everything added since has been taken out. */
  lemma {:induction false} StaysBelow(q: seq<int>, ops: seq<Op>)
    requires AtHead(ops)
    ensures 0 <= Balance(ops) && |Run(q, ops).left| == |q| + Balance(ops) && Run(q, ops).left[Balance(ops)..] == q
  {
    assert ops[..|ops|] == ops;
    if ops != [] {
      var init, last := ops[..|ops| - 1], ops[|ops| - 1];
      assert last in ops;
      forall k | 0 <= k <= |init|
        ensures Balance(init[..k]) >= 0
      {
        assert init[..k] == ops[..k];
      }
      StaysBelow(q, init);
    }
  }

  /** An addition at the head, and then the rest. */
  lemma {:induction false} RunAfterAdd(q: seq<int>, d: int, ops: seq<Op>)
    ensures Run(q, [AddHead(d)] + ops) == Run([d] + q, ops)
  {
    var all := [AddHead(d)] + ops;
    if ops == [] {
      assert all == [AddHead(d)] && all[..0] == [];
    } else {
      RunAfterAdd(q, d, ops[..|ops| - 1]);
      assert all[..|all| - 1] == [AddHead(d)] + ops[..|ops| - 1];
    }
  }

  /** Last in, first out: a removal at the head takes out the element added last of those still there, which is the one
      whose addition it balances. */
  lemma IsLifo(q: seq<int>, d: int, between: seq<Op>)
    requires AtHead(between) && Balance(between) == 0
    ensures Run(q, [AddHead(d)] + between + [RemoveHead]) == Trace(Run([d] + q, between).out + [d], q)
  {
    var ops := [AddHead(d)] + between;
    RunAfterAdd(q, d, between);
    StaysBelow([d] + q, between);
    assert (ops + [RemoveHead])[..|ops|] == ops;
    assert Run([d] + q, between).left == [d] + q;
  }
}
