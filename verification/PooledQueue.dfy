/**
 The pooled FIFO queue of include/linkedlist.h (DECLARE_LINKED_LIST).

 One node array holds two intrusive singly linked chains: the live chain, whose
 first node is a sentinel and whose other nodes carry the queued values, and the
 free chain, again headed by a sentinel.  A C pointer into the node array is
 modelled as the index of the node; the null pointer is -1.
 */
module PooledQueue {

  const ZERO_VALUE: int := -1
  const NULL: int := -1

  /** The nodes, in order, are linked by `next`, and the last one is linked to nothing. */
  ghost predicate Chain(next: seq<int>, nodes: seq<nat>)
  {
    && nodes != []
    && (forall i :: 0 <= i < |nodes| ==> nodes[i] < |next|)
    && (forall i, j :: 0 <= i && j == i + 1 && j < |nodes| ==> next[nodes[i]] == nodes[j])
    && next[nodes[|nodes| - 1]] == NULL
  }

  ghost predicate NoDuplicates(nodes: seq<nat>)
  {
    forall i, j :: 0 <= i < j < |nodes| ==> nodes[i] != nodes[j]
  }

  ghost predicate Disjoint(a: seq<nat>, b: seq<nat>)
  {
    forall i, j :: 0 <= i < |a| && 0 <= j < |b| ==> a[i] != b[j]
  }

  /** The two chains with their sentinels are acyclic, disjoint, and account for `size` nodes. */
  ghost predicate Partition(live: seq<nat>, free: seq<nat>, size: nat)
  {
    && NoDuplicates(live) && NoDuplicates(free) && Disjoint(live, free)
    && |live| + |free| == size
  }

  /** Linking the second node out of a chain, and nulling its link, leaves a chain without it. */
  lemma UnlinkSecond(next: seq<int>, nodes: seq<nat>)
    requires Chain(next, nodes) && NoDuplicates(nodes) && |nodes| > 1
    ensures next[nodes[0]] == nodes[1]
    ensures next[nodes[1]] == NULL <==> |nodes| == 2
    ensures Chain(next[nodes[0] := next[nodes[1]]][nodes[1] := NULL], [nodes[0]] + nodes[2..])
  {
    if |nodes| > 2 { assert next[nodes[1]] == nodes[2]; }
  }

  /** Linking an outside node after the last node of a chain extends the chain. */
  lemma LinkLast(next: seq<int>, nodes: seq<nat>, node: nat)
    requires Chain(next, nodes) && NoDuplicates(nodes) && node !in nodes && node < |next|
    requires next[node] == NULL
    ensures Chain(next[nodes[|nodes| - 1] := node], nodes + [node])
  {
  }

  /** A chain is not disturbed by relinking a node outside it. */
  lemma ChainFrame(next: seq<int>, nodes: seq<nat>, node: nat, to: int)
    requires Chain(next, nodes) && node !in nodes && node < |next|
    ensures Chain(next[node := to], nodes)
  {
  }

  /** Moving the second node of `from` to the end of `to` keeps the partition. */
  lemma MoveNode(from: seq<nat>, to: seq<nat>, size: nat)
    requires Partition(from, to, size) && |from| > 1 && to != []
    ensures Partition([from[0]] + from[2..], to + [from[1]], size)
    ensures forall node :: node in from ==> node !in to
    ensures from[1] !in [from[0]] + from[2..]
  {
  }

  lemma PartitionSwap(a: seq<nat>, b: seq<nat>, size: nat)
    requires Partition(a, b, size)
    ensures Partition(b, a, size)
  {
  }

  /** What `next` becomes when the second node of `from` is unlinked and appended to `to`. */
  ghost function Moved(next: seq<int>, from: seq<nat>, to: seq<nat>): (moved: seq<int>)
    requires Chain(next, from) && Chain(next, to) && |from| > 1
    ensures |moved| == |next|
  {
    next[from[0] := next[from[1]]][from[1] := NULL][to[|to| - 1] := from[1]]
  }

  /** Both operations of the queue move one node between the chains; both chains survive it. */
  lemma MoveKeepsChains(next: seq<int>, from: seq<nat>, to: seq<nat>, size: nat)
    requires Chain(next, from) && Chain(next, to) && |from| > 1
    requires Partition(from, to, size) || Partition(to, from, size)
    ensures next[from[0]] == from[1] && from[1] !in to && from[0] !in to
    ensures next[from[1]] == NULL <==> |from| == 2
    ensures Chain(Moved(next, from, to), [from[0]] + from[2..])
    ensures Chain(Moved(next, from, to), to + [from[1]])
    ensures Partition([from[0]] + from[2..], to + [from[1]], size)
    ensures Partition(to + [from[1]], [from[0]] + from[2..], size)
  {
    if !Partition(from, to, size) { PartitionSwap(to, from, size); }
    UnlinkSecond(next, from);
    MoveNode(from, to, size);
    var cut := next[from[0] := next[from[1]]];
    ChainFrame(next, to, from[0], next[from[1]]);
    ChainFrame(cut, to, from[1], NULL);
    LinkLast(cut[from[1] := NULL], to, from[1]);
    ChainFrame(cut[from[1] := NULL], [from[0]] + from[2..], to[|to| - 1], from[1]);
    PartitionSwap([from[0]] + from[2..], to + [from[1]], size);
  }

  lemma EmptyChain(next: seq<int>, nodes: seq<nat>)
    requires Chain(next, nodes)
    ensures next[nodes[0]] == NULL <==> |nodes| == 1
  {
    if |nodes| > 1 { assert next[nodes[0]] == nodes[1]; }
  }

  /** The values held by the given nodes. */
  ghost function Values(elem: seq<int>, nodes: seq<nat>): (vs: seq<int>)
    requires forall i :: 0 <= i < |nodes| ==> nodes[i] < |elem|
    ensures |vs| == |nodes|
    ensures forall i :: 0 <= i < |nodes| ==> vs[i] == elem[nodes[i]]
  {
    seq(|nodes|, i requires 0 <= i < |nodes| => elem[nodes[i]])
  }

  lemma ValuesAppend(elem: seq<int>, nodes: seq<nat>, node: nat, v: int)
    requires forall i :: 0 <= i < |nodes| ==> nodes[i] < |elem| && nodes[i] != node
    requires node < |elem|
    ensures Values(elem[node := v], nodes + [node]) == Values(elem, nodes) + [v]
  {
  }

  class VbufQueue {
    const capacity: nat
    const elem: array<int>
    const next: array<int>
    var freeHead: nat
    var freeTail: nat
    var head: nat
    var tail: nat

    // The two chains, sentinels first.
    ghost var live: seq<nat>
    ghost var free: seq<nat>

    ghost predicate Valid()
      reads this, elem, next
    {
      && elem != next
      && elem.Length == next.Length == capacity + 2
      && Chain(next[..], live) && head == live[0] && tail == live[|live| - 1]
      && Chain(next[..], free) && freeHead == free[0] && freeTail == free[|free| - 1]
      && Partition(live, free, capacity + 2)
    }

    ghost function Contents(): (vs: seq<int>)
      reads this, elem, next
      requires Valid()
      ensures |vs| == |live| - 1 <= capacity
    {
      Values(elem[..], live[1..])
    }

    constructor Init(poolSize: nat)
      ensures Valid() && fresh(elem) && fresh(next)
      ensures capacity == poolSize
      ensures Contents() == []
    {
      capacity := poolSize;
      var size := poolSize + 2;
      elem := new int[size];
      next := new int[size];
      freeHead, freeTail := 1, size - 1;
      head, tail := 0, 0;
      live := [0];
      free := seq(size - 1, i => i + 1);
      new;
      var i := 1;
      while i < size - 1
        modifies elem, next
        invariant 1 <= i <= size - 1
        invariant forall k :: 1 <= k < i ==> next[k] == k + 1
      {
        elem[i] := ZERO_VALUE;
        next[i] := i + 1;
        i := i + 1;
      }
      elem[0] := ZERO_VALUE;
      next[0] := NULL;
      elem[size - 1] := ZERO_VALUE;
      next[size - 1] := NULL;
    }

    method Clear()
      requires Valid()
      modifies this, next
      ensures Valid()
      ensures Contents() == []
    {
      EmptyChain(next[..], live);
      var first := next[head];
      if first != NULL {
        var last := tail;
        next[freeTail] := first;
        freeTail := last;
        free := free + live[1..];
      }
      next[head] := NULL;
      tail := head;
      live := [head];
    }

    /** What an enqueue is about to make of the node array and of the two chains. */
    lemma PlanEnqueue(v: int) returns (moved: seq<int>, values: seq<int>, live': seq<nat>, free': seq<nat>)
      requires Valid() && |free| > 1
      ensures next[freeHead] == free[1]
      ensures next[free[1]] == NULL <==> |free| == 2
      ensures moved == next[..][freeHead := next[free[1]]][free[1] := NULL][tail := free[1]]
      ensures values == elem[..][free[1] := v]
      ensures Chain(moved, live') && Chain(moved, free') && Partition(live', free', capacity + 2)
      ensures live'[0] == head && live'[|live'| - 1] == free[1]
      ensures free'[0] == freeHead && free'[|free'| - 1] == if |free| == 2 then freeHead else freeTail
      ensures Values(values, live'[1..]) == Contents() + [v]
    {
      MoveKeepsChains(next[..], free, live, capacity + 2);
      ValuesAppend(elem[..], live[1..], free[1], v);
      moved := Moved(next[..], free, live);
      values := elem[..][free[1] := v];
      live' := live + [free[1]];
      free' := [free[0]] + free[2..];
      assert live'[1..] == live[1..] + [free[1]];
    }

    /** `ok == false` is the source's exit with "linked list full". */
    method Enqueue(v: int) returns (ok: bool)
      requires Valid()
      modifies this, elem, next
      ensures Valid()
      ensures ok == (|old(Contents())| < capacity)
      ensures Contents() == if ok then old(Contents()) + [v] else old(Contents())
    {
      if freeHead == freeTail {
        return false;
      }
      ghost var moved, values, live', free' := PlanEnqueue(v);
      var node: nat := next[freeHead];
      next[freeHead] := next[node];
      if next[node] == NULL {
        freeTail := freeHead;
      }
      elem[node] := v;
      next[node] := NULL;
      next[tail] := node;
      tail := node;
      live, free := live', free';
      assert next[..] == moved;
      assert elem[..] == values;
      return true;
    }

    /** What a dequeue is about to make of the node array and of the two chains. */
    lemma PlanTake() returns (moved: seq<int>, values: seq<int>, live': seq<nat>, free': seq<nat>)
      requires Valid() && |live| > 1
      ensures next[head] == live[1] && Contents()[0] == elem[live[1]]
      ensures next[live[1]] == NULL <==> |live| == 2
      ensures moved == next[..][head := next[live[1]]][live[1] := NULL][freeTail := live[1]]
      ensures values == elem[..][live[1] := ZERO_VALUE]
      ensures Chain(moved, live') && Chain(moved, free') && Partition(live', free', capacity + 2)
      ensures live'[0] == head && live'[|live'| - 1] == if |live| == 2 then head else tail
      ensures free'[0] == freeHead && free'[|free'| - 1] == live[1]
      ensures Values(values, live'[1..]) == Contents()[1..]
    {
      MoveKeepsChains(next[..], live, free, capacity + 2);
      moved := Moved(next[..], live, free);
      values := elem[..][live[1] := ZERO_VALUE];
      live' := [live[0]] + live[2..];
      free' := free + [live[1]];
      assert live'[1..] == live[2..] && live[1..][1..] == live[2..];
    }

    /** The statements shared by both dequeue operations: unlink the first live node and give it to the free chain. */
    method TakeFirst() returns (v: int)
      requires Valid()
      requires Contents() != []
      modifies this, elem, next
      ensures Valid()
      ensures v == old(Contents())[0] && Contents() == old(Contents())[1..]
    {
      ghost var moved, values, live', free' := PlanTake();
      var node: nat := next[head];
      v := elem[node];
      next[head] := next[node];
      if next[node] == NULL {
        tail := head;
      }
      elem[node] := ZERO_VALUE;
      next[node] := NULL;
      next[freeTail] := node;
      freeTail := node;
      live, free := live', free';
      assert next[..] == moved;
      assert elem[..] == values;
    }

    method Dequeue() returns (v: int)
      requires Valid()
      modifies this, elem, next
      ensures Valid()
      ensures old(Contents()) == [] ==> v == ZERO_VALUE && Contents() == []
      ensures old(Contents()) != [] ==> v == old(Contents())[0] && Contents() == old(Contents())[1..]
    {
      if head == tail {
        return ZERO_VALUE;
      }
      v := TakeFirst();
    }

    /** `current` is what the caller's variable holds before the call; it is left alone when the queue is empty. */
    method DequeueInplace(current: int) returns (status: int, v: int)
      requires Valid()
      modifies this, elem, next
      ensures Valid()
      ensures old(Contents()) == [] ==> status == -1 && v == current && Contents() == []
      ensures old(Contents()) != [] ==> status == 0 && v == old(Contents())[0] && Contents() == old(Contents())[1..]
    {
      if head == tail {
        return -1, current;
      }
      v := TakeFirst();
      status := 0;
    }
  }

  // ---- The chains account for every node of the pool ----

  ghost function Nodes(nodes: seq<nat>): (r: set<nat>)
    ensures forall x :: x in r <==> x in nodes
  {
    set x | x in nodes
  }

  lemma {:induction false} NodesCount(nodes: seq<nat>)
    requires NoDuplicates(nodes)
    ensures |Nodes(nodes)| == |nodes|
  {
    if nodes != [] {
      var rest := nodes[1..];
      NodesCount(rest);
      assert Nodes(nodes) == {nodes[0]} + Nodes(rest);
    }
  }

  /** The indices of a pool of `size` nodes. */
  ghost function Pool(size: nat): (r: set<nat>)
    ensures |r| == size
    ensures forall k: nat :: k in r <==> k < size
  {
    if size == 0 then {} else Pool(size - 1) + {size - 1}
  }

  lemma SubsetOfEqualSize(a: set<nat>, b: set<nat>)
    requires a <= b && |a| == |b|
    ensures a == b
  {
    if x :| x in b && x !in a {
      assert a <= b - {x};
      SubsetSize(a, b - {x});
    }
  }

  lemma {:induction false} SubsetSize(a: set<nat>, b: set<nat>)
    requires a <= b
    ensures |a| <= |b|
  {
    if x :| x in a {
      SubsetSize(a - {x}, b - {x});
    }
  }

  /** Every node of the pool is on exactly one of the two chains. */
  lemma ChainsCoverPool(next: seq<int>, live: seq<nat>, free: seq<nat>, node: nat)
    requires Chain(next, live) && Chain(next, free) && Partition(live, free, |next|)
    requires node < |next|
    ensures node in live <==> node !in free
  {
    var all := live + free;
    NodesCount(all);
    SubsetOfEqualSize(Nodes(all), Pool(|next|));
    assert node in all;
  }

  // ---- The queue refines a bounded FIFO sequence ----

  datatype Op = Enqueue(v: int) | Dequeue | DequeueInplace(current: int) | Clear

  datatype Reply = Enqueued(ok: bool) | Dequeued(v: int) | DequeuedInplace(status: int, v: int) | Cleared

  /** One operation on a plain sequence of at most `capacity` values. */
  function FifoStep(q: seq<int>, capacity: nat, op: Op): (seq<int>, Reply) {
    match op
    case Enqueue(v) => if |q| < capacity then (q + [v], Enqueued(true)) else (q, Enqueued(false))
    case Dequeue => if q == [] then (q, Dequeued(ZERO_VALUE)) else (q[1..], Dequeued(q[0]))
    case DequeueInplace(current) =>
      if q == [] then (q, DequeuedInplace(-1, current)) else (q[1..], DequeuedInplace(0, q[0]))
    case Clear => ([], Cleared)
  }

  function FifoRun(capacity: nat, ops: seq<Op>): (seq<int>, seq<Reply>) {
    if ops == [] then ([], [])
    else
      var (q, replies) := FifoRun(capacity, ops[..|ops| - 1]);
      var (q', reply) := FifoStep(q, capacity, ops[|ops| - 1]);
      (q', replies + [reply])
  }

  method Apply(q: VbufQueue, op: Op) returns (reply: Reply)
    requires q.Valid()
    modifies q, q.elem, q.next
    ensures q.Valid()
    ensures (q.Contents(), reply) == FifoStep(old(q.Contents()), q.capacity, op)
  {
    match op {
      case Enqueue(v) =>
        var ok := q.Enqueue(v);
        reply := Enqueued(ok);
      case Dequeue =>
        var v := q.Dequeue();
        reply := Dequeued(v);
      case DequeueInplace(current) =>
        var status, v := q.DequeueInplace(current);
        reply := DequeuedInplace(status, v);
      case Clear =>
        q.Clear();
        reply := Cleared;
    }
  }

  /** Any sequence of operations on a fresh queue answers like the plain sequence. */
  method Execute(capacity: nat, ops: seq<Op>) returns (replies: seq<Reply>)
    ensures replies == FifoRun(capacity, ops).1
  {
    var q := new VbufQueue.Init(capacity);
    replies := [];
    for i := 0 to |ops|
      invariant q.Valid() && q.capacity == capacity && fresh(q) && fresh(q.elem) && fresh(q.next)
      invariant (q.Contents(), replies) == FifoRun(capacity, ops[..i])
    {
      assert ops[..i + 1][..i] == ops[..i];
      var reply := Apply(q, ops[i]);
      replies := replies + [reply];
    }
    assert ops[..|ops|] == ops;
  }

  /** The values accepted by the enqueues of a run, in order. */
  ghost function Inserted(capacity: nat, ops: seq<Op>): seq<int> {
    if ops == [] then []
    else
      var before, op := ops[..|ops| - 1], ops[|ops| - 1];
      Inserted(capacity, before)
      + (if op.Enqueue? && |FifoRun(capacity, before).0| < capacity then [op.v] else [])
  }

  /** The values that left the queue in a run, by a dequeue or by a clear, in order. */
  ghost function Removed(capacity: nat, ops: seq<Op>): seq<int> {
    if ops == [] then []
    else
      var before, op := ops[..|ops| - 1], ops[|ops| - 1];
      var q := FifoRun(capacity, before).0;
      Removed(capacity, before)
      + (match op
         case Enqueue(_) => []
         case Clear => q
         case _ => if q == [] then [] else [q[0]])
  }

  /**
   First in, first out: what went in is what came out followed by what is still queued, never more than the
   capacity.
   */
  lemma {:induction false} FirstInFirstOut(capacity: nat, ops: seq<Op>)
    ensures Inserted(capacity, ops) == Removed(capacity, ops) + FifoRun(capacity, ops).0
    ensures |FifoRun(capacity, ops).0| <= capacity
    decreases |ops|
  {
    if ops != [] {
      var before, op := ops[..|ops| - 1], ops[|ops| - 1];
      FirstInFirstOut(capacity, before);
      var q := FifoRun(capacity, before).0;
      var q' := FifoStep(q, capacity, op).0;
      assert q == [] || q == [q[0]] + q[1..];
      assert FifoRun(capacity, ops).0 == q';
    }
  }

  /** If -1 is never enqueued, a dequeue answers -1 exactly when the queue is empty. */
  lemma {:induction false} MinusOneMeansEmpty(capacity: nat, ops: seq<Op>)
    requires Enqueue(ZERO_VALUE) !in ops
    ensures ZERO_VALUE !in FifoRun(capacity, ops).0
    ensures FifoStep(FifoRun(capacity, ops).0, capacity, Dequeue).1 == Dequeued(ZERO_VALUE)
            <==> FifoRun(capacity, ops).0 == []
    decreases |ops|
  {
    if ops != [] {
      MinusOneMeansEmpty(capacity, ops[..|ops| - 1]);
    }
  }
}
