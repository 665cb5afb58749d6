/**
 What the messaging layer of src/ympi.c promises its clients over whole runs of
 the network of YmpiNetwork: delivery in order, exact credits, vbufs that are
 never lost, and received messages that stay put until they are returned.
 */
module YmpiRuns {
  import opened Common
  import opened YmpiProcess
  import opened YmpiSetup
  import opened YmpiNode
  import opened YmpiNetwork

  /** Every event of the list can take place when its turn comes. */
  ghost predicate Allowed(sys: System, events: seq<Event>)
    requires Inv(sys)
    decreases |events|
  {
    events == [] ||
    (Enabled(sys, events[0]) && (StepKeeps(sys, events[0]); Allowed(Step(sys, events[0]), events[1..])))
  }

  ghost function Run(sys: System, events: seq<Event>): (after: System)
    requires Inv(sys) && Allowed(sys, events)
    ensures Inv(after) && |after.nodes| == |sys.nodes|
    decreases |events|
  {
    if events == [] then sys
    else
      StepKeeps(sys, events[0]);
      Run(Step(sys, events[0]), events[1..])
  }

  /** The messages sent from `s` to `d` in a run, in order. */
  ghost function SentLog(sys: System, events: seq<Event>, s: nat, d: nat): seq<Bytes>
    requires Inv(sys) && Allowed(sys, events)
    decreases |events|
  {
    if events == [] then []
    else
      StepKeeps(sys, events[0]);
      SentBy(sys, events[0], s, d) + SentLog(Step(sys, events[0]), events[1..], s, d)
  }

  /** The messages from `s` handed to the client of `d` in a run, in order. */
  ghost function ReceivedLog(sys: System, events: seq<Event>, s: nat, d: nat): seq<Bytes>
    requires Inv(sys) && Allowed(sys, events)
    decreases |events|
  {
    if events == [] then []
    else
      StepKeeps(sys, events[0]);
      ReceivedBy(sys, events[0], s, d) + ReceivedLog(Step(sys, events[0]), events[1..], s, d)
  }

  /** The processes right after `YMPID_Context_create`: all vbufs in `vbuf_fetched`, nothing posted. */
  ghost predicate Initial(sys: System) {
    && Shaped(sys)
    && (forall p: nat :: p < |sys.nodes| ==> InitialNode(sys.nodes[p], |sys.nodes|))
    && (forall s: nat, d: nat :: s < |sys.nodes| && d < |sys.nodes| ==> sys.links[(s, d)] == Link([], []))
    && RoutesOk(sys)
  }

  ghost predicate InitialNode(node: Node, nprocs: nat) {
    && node.host.WellFormed(nprocs)
    && node.host.pendingSendWr == 0
    && (forall d :: 0 <= d < nprocs ==> node.host.qpPendingSendWr[d] == 0 && node.host.pendingRecv[d] == [])
    && (forall i :: 0 <= i < PREPOST_DEPTH ==> node.host.bufBytes[i] == 0)
    && node.host.vbufFetched == UpTo(PREPOST_DEPTH)
    && node.srq == {} && node.cq == [] && node.unflushed == []
    && |node.rx| == Base(PREPOST_DEPTH)
  }

  /** The numbers 0, ..., n - 1 in order. */
  ghost function UpTo(n: nat): seq<int> {
    if n == 0 then [] else UpTo(n - 1) + [n - 1]
  }

  lemma {:induction false} UpToCount(n: nat, x: int)
    ensures multiset(UpTo(n))[x] == if 0 <= x < n then 1 else 0
  {
    if n > 0 { UpToCount(n - 1, x); }
  }

  lemma UpToAsSet(n: nat)
    ensures multiset(UpTo(n)) == multiset(Below(n))
  {
    forall x ensures multiset(UpTo(n))[x] == multiset(Below(n))[x] {
      UpToCount(n, x);
    }
  }

  lemma {:induction false} NoPending(queues: seq<seq<int>>)
    requires forall i :: 0 <= i < |queues| ==> queues[i] == []
    ensures PendingIds(queues) == multiset{}
  {
    if queues != [] { NoPending(queues[1..]); }
  }

  lemma InitialConserved(node: Node, nprocs: nat)
    requires InitialNode(node, nprocs)
    ensures Conserved(node)
  {
    hide PendingIds, UpTo, Below;
    UpToAsSet(PREPOST_DEPTH);
    NoPending(node.host.pendingRecv);
  }

  lemma InitialNodeOk(node: Node, nprocs: nat)
    requires InitialNode(node, nprocs)
    ensures NodeOk(node, nprocs)
  {
    hide Sum, UpTo, Conserved;
    SumOfZeros(node.host.qpPendingSendWr);
    InitialConserved(node, nprocs);
  }

  lemma InitialInv(sys: System)
    requires Initial(sys)
    ensures Inv(sys)
  {
    hide NodeOk;
    forall p: nat | p < |sys.nodes| ensures NodeOk(sys.nodes[p], |sys.nodes|) {
      InitialNodeOk(sys.nodes[p], |sys.nodes|);
    }
  }

  /** What the set-up makes of a rank: its table, and everything else empty. */
  ghost function FreshNode(nprocs: nat, table: seq<int>, tx: Bytes): (node: Node)
    requires |table| == QPN_HASH_SIZE && forall k :: 0 <= k < |table| ==> table[k] < nprocs
    ensures InitialNode(node, nprocs) && Ready(node, nprocs) && node.tx == tx && node.host.qpRank == table
  {
    hide UpTo;
    Node(Process(table, 0, seq(nprocs, _ => 0), seq(PREPOST_DEPTH, _ => 0), seq(nprocs, _ => []), UpTo(PREPOST_DEPTH)),
         {}, [], seq(Base(PREPOST_DEPTH), _ => 0), tx, [])
  }

  ghost function FreshLinks(n: nat): (links: map<(nat, nat), Link>)
    ensures forall s: nat, d: nat :: s < n && d < n ==> (s, d) in links && links[(s, d)] == Link([], [])
  {
    map s: nat, d: nat | s < n && d < n :: (s, d) := Link([], [])
  }

  /** The queue pairs of each rank: their numbers, and which of them it makes. */
  datatype Pairs = Pairs(qpNums: seq<nat>, wanted: seq<bool>)

  ghost predicate PairsOk(pairs: seq<Pairs>) {
    forall p :: 0 <= p < |pairs| ==>
      && |pairs[p].qpNums| == |pairs[p].wanted| == |pairs|
      && forall i, j :: !Collide(pairs[p].qpNums, pairs[p].wanted, i, j)
  }

  ghost function Numbers(pairs: seq<Pairs>): (numbers: map<(nat, nat), nat>)
    requires PairsOk(pairs)
    ensures forall p: nat, s: nat :: (p, s) in numbers <==> p < |pairs| && s < |pairs| && pairs[p].wanted[s]
    ensures forall p: nat, s: nat :: (p, s) in numbers ==> numbers[(p, s)] == pairs[p].qpNums[s]
  {
    map p: nat, s: nat | p < |pairs| && s < |pairs| && pairs[p].wanted[s] :: (p, s) := pairs[p].qpNums[s]
  }

  /** The tables that the set-up builds on each rank. */
  lemma {:induction false} Tables(pairs: seq<Pairs>, n: nat) returns (tables: seq<seq<int>>)
    requires PairsOk(pairs) && n <= |pairs|
    ensures |tables| == n
    ensures forall p :: 0 <= p < n ==> IsTable(tables[p], pairs[p].qpNums, pairs[p].wanted)
  {
    hide IsTable, Collide;
    if n == 0 {
      tables := [];
    } else {
      tables := Tables(pairs, n - 1);
      var table := TableExists(pairs[n - 1].qpNums, pairs[n - 1].wanted);
      tables := tables + [table];
    }
  }

  ghost function FreshNodes(tables: seq<seq<int>>, memories: seq<Bytes>): (nodes: seq<Node>)
    requires |memories| == |tables|
    requires forall p :: 0 <= p < |tables| ==>
               |tables[p]| == QPN_HASH_SIZE && forall k :: 0 <= k < |tables[p]| ==> tables[p][k] < |tables|
    ensures |nodes| == |memories|
    ensures forall p :: 0 <= p < |nodes| ==> nodes[p] == FreshNode(|tables|, tables[p], memories[p])
  {
    seq(|memories|, p requires 0 <= p < |memories| => FreshNode(|tables|, tables[p], memories[p]))
  }

  /**
   There are such networks with any number of ranks, any choice of queue pairs whose numbers do not collide,
   and anything in the memories of the clients; their tables are those that the set-up builds.
   */
  lemma InitialExists(memories: seq<Bytes>, pairs: seq<Pairs>) returns (sys: System)
    requires |memories| == |pairs| && PairsOk(pairs)
    ensures Initial(sys) && |sys.nodes| == |memories|
    ensures forall p: nat :: p < |memories| ==> sys.nodes[p].tx == memories[p]
    ensures forall p: nat :: p < |memories| ==> IsTable(sys.nodes[p].host.qpRank, pairs[p].qpNums, pairs[p].wanted)
    ensures forall p: nat, s: nat :: (p, s) in sys.qpNum <==> p < |pairs| && s < |pairs| && pairs[p].wanted[s]
  {
    hide InitialNode, FreshNode, FreshLinks, Numbers, FreshNodes, Ready, Collide;
    var n := |memories|;
    var tables := Tables(pairs, n);
    sys := System(FreshNodes(tables, memories), FreshLinks(n), Numbers(pairs), 0);
    forall p: nat | p < n
      ensures InitialNode(sys.nodes[p], n) && Ready(sys.nodes[p], n) && sys.nodes[p].tx == memories[p]
      ensures sys.nodes[p].host.qpRank == tables[p]
    {
      assert sys.nodes[p] == FreshNode(n, tables[p], memories[p]);
    }
    assert Shaped(sys);
    assert RoutesOk(sys);
  }

  // ---- Delivery in order ----

  /** In any run, what was in flight and what is sent is what is received and what is in flight at the end. */
  lemma {:induction false} InOrder(sys: System, events: seq<Event>, s: nat, d: nat)
    requires Inv(sys) && Allowed(sys, events) && s < |sys.nodes| && d < |sys.nodes|
    ensures InFlight(sys, s, d) + SentLog(sys, events, s, d)
         == ReceivedLog(sys, events, s, d) + InFlight(Run(sys, events), s, d)
    decreases |events|
  {
    hide Shaped, NodesOk, LinksOk, RoutesOk, Step, InFlight, Enabled, SentBy, ReceivedBy;
    if events != [] {
      StepIsFifo(sys, events[0], s, d);
      var next, rest := Step(sys, events[0]), events[1..];
      InOrder(next, rest, s, d);
      var sent, got := SentBy(sys, events[0], s, d), ReceivedBy(sys, events[0], s, d);
      assert InFlight(sys, s, d) + (sent + SentLog(next, rest, s, d))
          == (InFlight(sys, s, d) + sent) + SentLog(next, rest, s, d);
      assert got + InFlight(next, s, d) + SentLog(next, rest, s, d)
          == got + (InFlight(next, s, d) + SentLog(next, rest, s, d));
      assert got + (ReceivedLog(next, rest, s, d) + InFlight(Run(next, rest), s, d))
          == got + ReceivedLog(next, rest, s, d) + InFlight(Run(next, rest), s, d);
    }
  }

  /**
   From the start, the k-th message `d` receives from `s` is the k-th message `s` sent to `d`, byte for byte.
   (By `InitialInv` the second precondition follows from the first.)
   */
  lemma KthReceivedIsKthSent(sys: System, events: seq<Event>, s: nat, d: nat, k: nat)
    requires Initial(sys) && Inv(sys) && Allowed(sys, events)
    requires s < |sys.nodes| && d < |sys.nodes| && k < |ReceivedLog(sys, events, s, d)|
    ensures k < |SentLog(sys, events, s, d)|
    ensures ReceivedLog(sys, events, s, d)[k] == SentLog(sys, events, s, d)[k]
  {
    InOrder(sys, events, s, d);
    assert InFlight(sys, s, d) == [];
    var received, rest := ReceivedLog(sys, events, s, d), InFlight(Run(sys, events), s, d);
    assert SentLog(sys, events, s, d) == received + rest;
  }

  lemma RunPrepend(sys: System, e: Event, rest: seq<Event>, s: nat, d: nat)
    requires Inv(sys) && Enabled(sys, e) && Inv(Step(sys, e)) && Allowed(Step(sys, e), rest)
    ensures Allowed(sys, [e] + rest)
    ensures ReceivedLog(sys, [e] + rest, s, d) == ReceivedBy(sys, e, s, d) + ReceivedLog(Step(sys, e), rest, s, d)
  {
    hide Inv, Step, Enabled, ReceivedBy;
    assert ([e] + rest)[1..] == rest;
  }

  /** A message from `source` is waiting at the node, or a vbuf is posted there for one. */
  ghost predicate CanTake(node: Node, source: nat) {
    (exists id :: id in node.srq) ||
    (|node.host.qpRank| == QPN_HASH_SIZE && source < |node.host.pendingRecv| && Waiting(node, source) != [])
  }

  /** A poll brings the node of the receiver closer to the message. */
  lemma PollBrings(sys: System, s: nat, d: nat)
    requires Inv(sys) && s < |sys.nodes| && d < |sys.nodes| && sys.nodes[d].cq != [] && CanTake(sys.nodes[d], s)
    ensures Enabled(sys, Poll(d, 1))
    ensures var after := Step(sys, Poll(d, 1));
            && Inv(after) && |after.nodes| == |sys.nodes| && after.links == sys.links
            && |after.nodes[d].cq| == |sys.nodes[d].cq| - 1
            && CanTake(after.nodes[d], s)
            && InFlight(after, s, d) == InFlight(sys, s, d)
            && ReceivedBy(sys, Poll(d, 1), s, d) == []
  {
    hide Conserved, TotalOk, LengthsOk, Genuine, CreditOk, FramesOk, Waiting, Undelivered, ProcessBatch;
    var e := Poll(d, 1);
    NeverExits(sys, d, 1);
    StepKeeps(sys, e);
    PollIsFifo(sys, e, s, d);
    PollKeepsMessages(sys.nodes[d], |sys.nodes|, 1, s);
  }

  /** So does a delivery into any posted vbuf. */
  lemma DeliverBrings(sys: System, s: nat, d: nat, id: int)
    requires Inv(sys) && s < |sys.nodes| && d < |sys.nodes| && sys.links[(s, d)].frames != [] && id in sys.nodes[d].srq
    ensures Enabled(sys, Deliver(s, d, id))
    ensures var after := Step(sys, Deliver(s, d, id));
            && Inv(after) && |after.nodes| == |sys.nodes|
            && |after.links[(s, d)].frames| == |sys.links[(s, d)].frames| - 1
            && CanTake(after.nodes[d], s)
            && InFlight(after, s, d) == InFlight(sys, s, d)
            && ReceivedBy(sys, Deliver(s, d, id), s, d) == []
  {
    hide Conserved, TotalOk, LengthsOk, Genuine, CreditOk, FramesOk, Waiting, Undelivered;
    var e := Deliver(s, d, id);
    var frame := sys.links[(s, d)].frames[0];
    StepKeeps(sys, e);
    DeliverIsFifo(sys, e, s, d);
    DeliverableFits(sys, s, d, id);
    if !frame.OneSided? {
      ArrivalAppends(sys.nodes[d], id, sys.qpNum[(d, s)], Data(frame, sys.nodes[s].tx), s);
    }
  }

  /** The receive itself hands out the oldest message. */
  lemma ReceiveBrings(sys: System, s: nat, d: nat)
    requires Inv(sys) && s < |sys.nodes| && d < |sys.nodes| && sys.nodes[d].host.pendingRecv[s] != []
    ensures Enabled(sys, Zrecv(d, s)) && Inv(Step(sys, Zrecv(d, s)))
    ensures InFlight(sys, s, d) != [] && ReceivedBy(sys, Zrecv(d, s), s, d) == [InFlight(sys, s, d)[0]]
  {
    hide Conserved, TotalOk, LengthsOk, Genuine, CreditOk, FramesOk, Waiting, Undelivered, Handed;
    StepKeeps(sys, Zrecv(d, s));
    ReceiveIsFifo(sys, Zrecv(d, s), s, d);
  }

  /**
   No message is lost or stuck: from every reachable state with a vbuf posted (or the message already arrived)
   some run hands the oldest message in flight to its receiver.
   */
  lemma {:induction false} CanBeReceived(sys: System, s: nat, d: nat) returns (events: seq<Event>)
    requires Inv(sys) && s < |sys.nodes| && d < |sys.nodes| && (s, d) in sys.links
    requires InFlight(sys, s, d) != [] && CanTake(sys.nodes[d], s)
    ensures Allowed(sys, events) && ReceivedLog(sys, events, s, d) == [InFlight(sys, s, d)[0]]
    decreases |sys.links[(s, d)].frames|, |sys.nodes[d].cq|
  {
    hide Inv, Enabled, Step, InFlight, ReceivedBy, CanTake;
    InvLinks(sys, s, d);
    if sys.nodes[d].host.pendingRecv[s] != [] {
      ReceiveBrings(sys, s, d);
      RunPrepend(sys, Zrecv(d, s), [], s, d);
      events := [Zrecv(d, s)] + [];
    } else if sys.nodes[d].cq != [] {
      PollBrings(sys, s, d);
      var rest := CanBeReceived(Step(sys, Poll(d, 1)), s, d);
      RunPrepend(sys, Poll(d, 1), rest, s, d);
      events := [Poll(d, 1)] + rest;
    } else {
      var id := FirstMove(sys, s, d);
      DeliverBrings(sys, s, d, id);
      InvLinks(Step(sys, Deliver(s, d, id)), s, d);
      var rest := CanBeReceived(Step(sys, Deliver(s, d, id)), s, d);
      RunPrepend(sys, Deliver(s, d, id), rest, s, d);
      events := [Deliver(s, d, id)] + rest;
    }
  }

  lemma InvLinks(sys: System, s: nat, d: nat)
    requires Inv(sys) && s < |sys.nodes| && d < |sys.nodes|
    ensures (s, d) in sys.links && |sys.nodes[d].host.pendingRecv| == |sys.nodes|
  {
    hide Conserved, TotalOk, LengthsOk, Genuine, CreditOk, FramesOk;
  }

  /** With nothing pending and nothing to poll, the oldest message in flight is on its link, and a vbuf is posted. */
  lemma FirstMove(sys: System, s: nat, d: nat) returns (id: int)
    requires Inv(sys) && s < |sys.nodes| && d < |sys.nodes| && InFlight(sys, s, d) != [] && CanTake(sys.nodes[d], s)
    requires |sys.nodes[d].host.pendingRecv| == |sys.nodes|
    requires sys.nodes[d].host.pendingRecv[s] == [] && sys.nodes[d].cq == []
    ensures (s, d) in sys.links && sys.links[(s, d)].frames != [] && id in sys.nodes[d].srq
  {
    hide Conserved, TotalOk, LengthsOk, Genuine, CreditOk, FramesOk;
    assert Waiting(sys.nodes[d], s) == [];
    id :| id in sys.nodes[d].srq;
  }

  // ---- Every vbuf is in exactly one place ----

  lemma {:induction false} PendingTwice(queues: seq<seq<int>>, i: nat, j: nat)
    requires i < j < |queues|
    ensures multiset(queues[i]) + multiset(queues[j]) <= PendingIds(queues)
  {
    if i == 0 {
      PendingContains(queues[1..], j - 1);
      assert queues[1..][j - 1] == queues[j];
    } else {
      PendingTwice(queues[1..], i - 1, j - 1);
    }
  }

  lemma {:induction false} PendingSomewhere(queues: seq<seq<int>>, id: int) returns (source: nat)
    requires id in PendingIds(queues)
    ensures source < |queues| && id in queues[source]
  {
    if id in queues[0] {
      source := 0;
    } else {
      assert id !in multiset(queues[0]);
      var rest := PendingSomewhere(queues[1..], id);
      source := rest + 1;
    }
  }

  ghost predicate InPlace(node: Node, id: int, place: int)
  {
    if place == -3 then id in node.srq
    else if place == -2 then id in ArrivedIds(node.cq)
    else if place == -1 then id in node.host.vbufFetched
    else 0 <= place < |node.host.pendingRecv| && id in node.host.pendingRecv[place]
  }

  lemma OnlyOnce(node: Node, id: int, q: seq<int>, r: seq<int>)
    requires Conserved(node) && multiset(q) + multiset(r) <= PendingIds(node.host.pendingRecv) && id in q
    ensures id !in r
  {
    assert multiset(Below(PREPOST_DEPTH))[id] <= 1;
    assert PendingIds(node.host.pendingRecv)[id] <= 1;
    assert (multiset(q) + multiset(r))[id] <= 1;
    assert multiset(q)[id] >= 1;
    assert multiset(r)[id] == 0;
  }

  lemma OneQueue(node: Node, id: int, a: nat, b: nat)
    requires Conserved(node) && a < |node.host.pendingRecv| && b < |node.host.pendingRecv|
    requires id in node.host.pendingRecv[a] && id in node.host.pendingRecv[b]
    ensures a == b
  {
    var queues := node.host.pendingRecv;
    if a < b {
      PendingTwice(queues, a, b);
      OnlyOnce(node, id, queues[a], queues[b]);
    } else if b < a {
      PendingTwice(queues, b, a);
      OnlyOnce(node, id, queues[b], queues[a]);
    }
  }

  lemma SomePlace(node: Node, id: int) returns (place: int)
    requires Conserved(node) && IsVbuf(id)
    ensures InPlace(node, id, place)
  {
    PlacesExclude(node, id);
    if id in node.srq { place := -3; }
    else if id in ArrivedIds(node.cq) { place := -2; }
    else if id in node.host.vbufFetched { place := -1; }
    else { place := PendingSomewhere(node.host.pendingRecv, id); }
  }

  lemma OnePlace(node: Node, id: int, a: int, b: int)
    requires Conserved(node) && InPlace(node, id, a) && InPlace(node, id, b)
    ensures IsVbuf(id) && a == b
  {
    hide Conserved;
    PlacesExclude(node, id);
    if a >= 0 { QueueIsPending(node, a, id); }
    if b >= 0 { QueueIsPending(node, b, id); }
    if a >= 0 && b >= 0 { OneQueue(node, id, a, b); }
  }

  /**
   In every reachable state a vbuf is posted, or arrived, or handed out, or pending for one source:
   in exactly one of these places, and nothing but the vbufs 0, ..., 255 is in any of them.
   (The places are numbered -3, -2, -1, and by source.)
   */
  lemma ExactlyOnePlace(sys: System, p: nat, id: int)
    requires Inv(sys) && p < |sys.nodes|
    ensures IsVbuf(id) <==> exists place :: InPlace(sys.nodes[p], id, place)
    ensures forall a, b :: InPlace(sys.nodes[p], id, a) && InPlace(sys.nodes[p], id, b) ==> a == b
  {
    hide Conserved, Ready, Genuine, TotalOk, LengthsOk, CreditOk, FramesOk, InPlace;
    var node := sys.nodes[p];
    forall a, b | InPlace(node, id, a) && InPlace(node, id, b) ensures IsVbuf(id) && a == b {
      OnePlace(node, id, a, b);
    }
    if IsVbuf(id) {
      var place := SomePlace(node, id);
    }
  }

  /** No queue of a process can overflow, and the shared receive queue always has room for every vbuf it is given. */
  lemma QueuesNeverFull(sys: System, p: nat, source: nat)
    requires Inv(sys) && p < |sys.nodes| && source < |sys.nodes|
    ensures |sys.nodes[p].host.pendingRecv[source]| <= PREPOST_DEPTH < RECV_PER_PROCESS
    ensures sys.nodes[p].host.pendingRecv[source] != [] ==> |sys.nodes[p].host.vbufFetched| < PREPOST_DEPTH
    ensures |sys.nodes[p].srq| + |sys.nodes[p].host.vbufFetched| <= PREPOST_DEPTH
  {
    hide Conserved, Genuine, TotalOk, LengthsOk, CreditOk, FramesOk;
    QueuesHaveRoom(sys.nodes[p], source);
  }

  /** No completion that a process can poll makes it exit. */
  lemma NeverExits(sys: System, p: nat, count: nat)
    requires Inv(sys) && p < |sys.nodes| && count <= |sys.nodes[p].cq|
    ensures ProcessBatch(sys.nodes[p].host, |sys.nodes|, sys.nodes[p].cq[..count]).Running?
  {
    hide Conserved, Genuine, TotalOk, LengthsOk, CreditOk, FramesOk;
    PollKeeps(sys.nodes[p], |sys.nodes|, count);
  }

  // ---- Received messages stay put ----

  /** The messages the client of a node holds pointers to. */
  ghost function HandedOut(node: Node): seq<Bytes> {
    Held(node.rx, node.host.bufBytes, node.host.vbufFetched)
  }

  /** The client of `node` still finds every message where it got it, and perhaps some more. */
  ghost predicate Undisturbed(node: Node, node': Node) {
    node.host.vbufFetched <= node'.host.vbufFetched && HandedOut(node) <= HandedOut(node')
  }

  lemma PollOneUndisturbed(node: Node, nprocs: nat)
    requires Ready(node, nprocs) && node.cq != [] && Conserved(node)
    requires ProcessWc(node.host, nprocs, node.cq[0]).Running?
    ensures Undisturbed(node, PolledOne(node, nprocs))
  {
    if node.cq[0].Received? {
      PlacesExclude(node, node.cq[0].id);
      HeldFrame(node.rx, node.host.bufBytes, node.host.vbufFetched, node.cq[0].id, node.cq[0].byteLen);
    }
  }

  lemma {:induction false} PollUndisturbed(node: Node, nprocs: nat, k: nat)
    requires NodeOk(node, nprocs) && k <= |node.cq|
    ensures Undisturbed(node, Polled(node, nprocs, k))
    decreases k
  {
    hide Conserved, TotalOk, LengthsOk, Genuine;
    if k == 0 {
      assert Polled(node, nprocs, 0) == node;
    } else {
      PollOneKeeps(node, nprocs);
      PollOneUndisturbed(node, nprocs);
      PolledUnfold(node, nprocs, k);
      PollKeeps(PolledOne(node, nprocs), nprocs, k - 1);
      PollUndisturbed(PolledOne(node, nprocs), nprocs, k - 1);
    }
  }

  lemma ArrivalUndisturbed(node: Node, id: int, qpNum: nat, data: Bytes)
    requires Conserved(node) && id in node.srq && IsVbuf(id) && |data| <= VBUF_BYTES && |node.rx| == Base(PREPOST_DEPTH)
    ensures Undisturbed(node, Arrived(node, id, qpNum, data))
  {
    PlacesExclude(node, id);
    var rx' := Arrived(node, id, qpNum, data).rx;
    forall other: int, len: nat {:trigger Window(rx', other, len)}
      ensures other != id ==> Window(rx', other, len) == Window(node.rx, other, len)
    {
      WindowAfterWrite(node.rx, id, data, other, len);
    }
    HeldElsewhere(node.rx, rx', node.host.bufBytes, node.host.vbufFetched, id);
  }

  /** No step of anybody but a return of `p` itself touches what `p` was handed. */
  lemma StepUndisturbed(sys: System, e: Event, p: nat)
    requires Inv(sys) && Enabled(sys, e) && p < |sys.nodes| && e != Return(p)
    ensures Undisturbed(sys.nodes[p], Step(sys, e).nodes[p])
  {
    hide Conserved, TotalOk, LengthsOk, Genuine, CreditOk, FramesOk, ProcessBatch;
    var node := sys.nodes[p];
    if e.Deliver? && e.dest == p {
      DeliverableFits(sys, e.rank, p, e.id);
      var frame := sys.links[(e.rank, p)].frames[0];
      if !frame.OneSided? {
        ArrivalUndisturbed(node, e.id, sys.qpNum[(p, e.rank)], Data(frame, sys.nodes[e.rank].tx));
      }
    } else if e.Poll? && e.rank == p {
      PollUndisturbed(node, |sys.nodes|, e.count);
    }
  }

  /** Until a process returns its vbufs, no run changes the bytes or the length of any message it was handed. */
  lemma {:induction false} StableUntilReturn(sys: System, events: seq<Event>, p: nat)
    requires Inv(sys) && Allowed(sys, events) && p < |sys.nodes| && Return(p) !in events
    ensures Undisturbed(sys.nodes[p], Run(sys, events).nodes[p])
    decreases |events|
  {
    hide Inv, Step, Enabled;
    if events != [] {
      StepKeeps(sys, events[0]);
      StepUndisturbed(sys, events[0], p);
      StableUntilReturn(Step(sys, events[0]), events[1..], p);
    }
  }

  /** The messages handed out lie in windows of the receive region that have no byte in common. */
  lemma HandedOutApart(sys: System, p: nat, i: nat, j: nat)
    requires Inv(sys) && p < |sys.nodes| && i < j < |sys.nodes[p].host.vbufFetched|
    ensures var node := sys.nodes[p];
            var a, b := node.host.vbufFetched[i], node.host.vbufFetched[j];
            && IsVbuf(a) && IsVbuf(b) && Base(a) >= 0 && Base(b) >= 0
            && Base(a) + node.host.bufBytes[a] <= |node.rx| && Base(b) + node.host.bufBytes[b] <= |node.rx|
            && Apart(Span(Base(a), node.host.bufBytes[a]), Span(Base(b), node.host.bufBytes[b]))
  {
    hide TotalOk, Genuine, CreditOk, FramesOk;
    var node := sys.nodes[p];
    var fetched := node.host.vbufFetched;
    PlacesExclude(node, fetched[i]);
    PlacesExclude(node, fetched[j]);
    assert multiset(Below(PREPOST_DEPTH))[fetched[i]] <= 1;
    if fetched[i] == fetched[j] {
      DuplicateCounts(fetched, i, j);
      assert false;
    }
  }

  lemma DuplicateCounts(ids: seq<int>, i: nat, j: nat)
    requires i < j < |ids| && ids[i] == ids[j]
    ensures multiset(ids)[ids[i]] >= 2
  {
    assert ids == ids[..j] + ids[j..];
    assert ids[i] in ids[..j] && ids[i] in ids[j..];
    assert multiset(ids) == multiset(ids[..j]) + multiset(ids[j..]);
  }

  // ---- Send credits ----

  /** Processing a batch settles, for each rank, as many credits as the batch has completions for it. */
  lemma BatchSettles(p: Process, nprocs: nat, wcs: seq<Completion>, dest: nat)
    requires p.WellFormed(nprocs) && dest < nprocs
    requires forall i :: 0 <= i < |wcs| ==> InRange(nprocs, wcs[i])
    requires ProcessBatch(p, nprocs, wcs).Running?
    ensures ProcessBatch(p, nprocs, wcs).process.qpPendingSendWr[dest]
         == p.qpPendingSendWr[dest] - Reported(wcs, dest)
  {
    BatchCounts(p, nprocs, wcs, dest);
  }

  lemma {:induction false} ReportedNone(wcs: seq<Completion>, dest: nat)
    ensures Reported(wcs, dest) > 0 <==> exists wc :: wc in wcs && wc.Completed? && wc.dest == dest
  {
    if wcs != [] {
      ReportedNone(wcs[1..], dest);
      if wc :| wc in wcs && wc.Completed? && wc.dest == dest {
        assert wc == wcs[0] || wc in wcs[1..];
      }
    }
  }

  /**
   The throttle after a post: when the counter reached its limit, one batch is polled.
   Afterwards there is room for the next post exactly when that batch had a completion for the same destination.
   */
  lemma ThrottleLeavesRoom(sys: System, p: nat, dest: nat, count: nat)
    requires Inv(sys) && p < |sys.nodes| && dest < |sys.nodes| && count <= |sys.nodes[p].cq|
    requires sys.nodes[p].host.qpPendingSendWr[dest] == MAX_SEND_WR_PER_QP
    ensures Polled(sys.nodes[p], |sys.nodes|, count).host.WellFormed(|sys.nodes|)
    ensures Polled(sys.nodes[p], |sys.nodes|, count).host.qpPendingSendWr[dest] < MAX_SEND_WR_PER_QP
            <==> exists wc :: wc in sys.nodes[p].cq[..count] && wc.Completed? && wc.dest == dest
  {
    hide Conserved, TotalOk, LengthsOk, Genuine, CreditOk, FramesOk, Reported;
    NeverExits(sys, p, count);
    BatchSettles(sys.nodes[p].host, |sys.nodes|, sys.nodes[p].cq[..count], dest);
    ReportedNone(sys.nodes[p].cq[..count], dest);
  }

  /**
   The counter of a destination never exceeds the length of its send queue, and counts exactly its requests in
   progress.
   */
  lemma CreditsExact(sys: System, p: nat, dest: nat)
    requires Inv(sys) && p < |sys.nodes| && dest < |sys.nodes|
    ensures var node, link := sys.nodes[p], sys.links[(p, dest)];
            && node.host.qpPendingSendWr[dest] == |link.frames| + |link.unacked| + Reported(node.cq, dest)
            && node.host.qpPendingSendWr[dest] <= MAX_SEND_WR_PER_QP
            && node.host.pendingSendWr == Sum(node.host.qpPendingSendWr)
            && (node.host.pendingSendWr <= 0 ==>
                       link.frames == [] && link.unacked == [] && Reported(node.cq, dest) == 0)
  {
    hide Conserved, LengthsOk, Genuine, FramesOk, Reported;
    assert CreditOk(sys.nodes[p], sys.links[(p, dest)], dest);
    if sys.nodes[p].host.pendingSendWr <= 0 {
      FlushMeansDone(sys, p, dest);
    }
  }
}
