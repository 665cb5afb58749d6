/**
 n YMPI processes (src/ympi.c) joined by reliable-connected queue pairs, as a
 step system.

 A link carries the requests posted by one rank for another, in order.  The
 network card may at any time take the oldest request of any link, put its bytes
 into any vbuf the receiver has posted, and report the arrival; and, later, report
 the completion to the sender.  The processes poll, receive, return and send in
 any interleaving with that.
 */
module YmpiNetwork {
  import opened Common
  import opened YmpiProcess
  import opened YmpiNode

  datatype System = System(
    nodes: seq<Node>,
    links: map<(nat, nat), Link>,
    qpNum: map<(nat, nat), nat>,
    maxInline: nat)

  datatype Event =
    | Zsend(rank: nat, dest: nat, span: Span)
    | PostOneSided(rank: nat, dest: nat, request: Request)
    | Deliver(rank: nat, dest: nat, id: int)
    | Ack(rank: nat, dest: nat)
    | Poll(rank: nat, count: nat)
    | Zrecv(rank: nat, source: nat)
    | Return(rank: nat)
    | Zflush(rank: nat)
    | Store(rank: nat, off: nat, data: Bytes)

  /** There is a link for every two ranks, and what a process holds has the size of the network. */
  ghost predicate Shaped(sys: System) {
    && (forall p: nat :: p < |sys.nodes| ==> Ready(sys.nodes[p], |sys.nodes|))
    && (forall s: nat, d: nat :: s < |sys.nodes| && d < |sys.nodes| ==> (s, d) in sys.links)
  }

  ghost predicate NodesOk(sys: System) {
    forall p: nat :: p < |sys.nodes| ==> NodeOk(sys.nodes[p], |sys.nodes|)
  }

  ghost predicate LinksOk(sys: System)
    requires Shaped(sys)
  {
    forall s: nat, d: nat :: s < |sys.nodes| && d < |sys.nodes| ==>
      FramesOk(sys.nodes[s], sys.links[(s, d)]) && CreditOk(sys.nodes[s], sys.links[(s, d)], d)
  }

  /** Both ranks made a queue pair for the other: `qpNum` has the number of each queue pair that was made. */
  ghost predicate Connected(sys: System, s: nat, d: nat) {
    (s, d) in sys.qpNum && (d, s) in sys.qpNum
  }

  /**
   The hash table of every process maps the number of each of its queue pairs to the rank on the other side,
   and requests travel only to ranks with a queue pair to receive them.
   */
  ghost predicate RoutesOk(sys: System)
    requires Shaped(sys)
  {
    && (forall p: nat, s: nat :: p < |sys.nodes| && s < |sys.nodes| && (p, s) in sys.qpNum ==>
          sys.nodes[p].host.RankOf(sys.qpNum[(p, s)]) == s)
    && (forall s: nat, d: nat :: s < |sys.nodes| && d < |sys.nodes| && sys.links[(s, d)].frames != [] ==>
          (d, s) in sys.qpNum)
  }

  ghost predicate Inv(sys: System) {
    Shaped(sys) && NodesOk(sys) && LinksOk(sys) && RoutesOk(sys)
  }

  // ---- The steps ----

  /**
   Sends and one-sided requests go to a connected rank and are accepted while the send queue has room; the
   client keeps its hands off unflushed spans.
   */
  ghost predicate Enabled(sys: System, e: Event)
    requires Shaped(sys)
  {
    && e.rank < |sys.nodes|
    && var node := sys.nodes[e.rank];
    match e
    case Zsend(s, d, span) =>
      && d < |sys.nodes| && Connected(sys, s, d)
      && span.off + span.len <= |node.tx| && span.len <= VBUF_BYTES
      && node.host.qpPendingSendWr[d] < MAX_SEND_WR_PER_QP
    case PostOneSided(s, d, request) =>
      && d < |sys.nodes| && Connected(sys, s, d) && !request.Send?
      && node.host.qpPendingSendWr[d] < MAX_SEND_WR_PER_QP
    case Deliver(s, d, id) =>
      && d < |sys.nodes| && sys.links[(s, d)].frames != []
      && (sys.links[(s, d)].frames[0].OneSided? || id in sys.nodes[d].srq)
    case Ack(s, d) => d < |sys.nodes| && sys.links[(s, d)].unacked != []
    case Poll(p, count) => count <= POLL_LIMIT && count <= |node.cq|
    case Zrecv(p, source) => source < |sys.nodes| && node.host.pendingRecv[source] != []
    case Return(p) => node.host.vbufFetched != []
    case Zflush(p) => node.host.pendingSendWr <= 0
    case Store(p, off, data) =>
      && off + |data| <= |node.tx|
      && forall span :: span in node.unflushed ==> Apart(span, Span(off, |data|))
  }

  /** A short message is captured when it is posted, a long one is fetched from user memory on delivery. */
  function SendFrame(tx: Bytes, span: Span, maxInline: nat): Frame
    requires span.off + span.len <= |tx|
  {
    if span.len < maxInline then Inline(tx[span.off..span.off + span.len]) else Gather(span)
  }

  /** One node changes. */
  ghost function WithNode(sys: System, p: nat, node: Node): (after: System)
    requires Shaped(sys) && p < |sys.nodes| && Ready(node, |sys.nodes|)
    ensures Shaped(after) && |after.nodes| == |sys.nodes|
  {
    sys.(nodes := sys.nodes[p := node])
  }

  /** One link changes. */
  ghost function WithLink(sys: System, s: nat, d: nat, link: Link): (after: System)
    requires Shaped(sys) && s < |sys.nodes| && d < |sys.nodes|
    ensures Shaped(after) && after.nodes == sys.nodes
  {
    sys.(links := sys.links[(s, d) := link])
  }

  /** A request is posted. */
  ghost function PostedOn(sys: System, s: nat, d: nat, unflushed: seq<Span>, frame: Frame): (after: System)
    requires Shaped(sys) && s < |sys.nodes| && d < |sys.nodes|
    ensures Shaped(after) && |after.nodes| == |sys.nodes|
  {
    var link := sys.links[(s, d)];
    WithLink(WithNode(sys, s, PostedTo(sys.nodes[s], d, unflushed)), s, d, link.(frames := link.frames + [frame]))
  }

  /** The oldest request of a link was carried out, and waits to be reported. */
  ghost function Shifted(sys: System, s: nat, d: nat): (after: System)
    requires Shaped(sys) && s < |sys.nodes| && d < |sys.nodes| && sys.links[(s, d)].frames != []
    ensures Shaped(after) && after.nodes == sys.nodes
  {
    var link := sys.links[(s, d)];
    WithLink(sys, s, d, Link(link.frames[1..], link.unacked + [link.frames[0].Kind()]))
  }

  /** What the delivery of a message needs: a vbuf that it fits, and a queue pair to come through. */
  ghost predicate Fits(sys: System, s: nat, d: nat, id: int)
    requires Shaped(sys) && s < |sys.nodes| && d < |sys.nodes| && sys.links[(s, d)].frames != []
  {
    && IsVbuf(id) && (d, s) in sys.qpNum && |sys.nodes[d].rx| == Base(PREPOST_DEPTH)
    && |Data(sys.links[(s, d)].frames[0], sys.nodes[s].tx)| <= VBUF_BYTES
  }

  /** A send is put into a posted vbuf of the receiver; a one-sided request takes no vbuf. */
  ghost function Delivered(sys: System, s: nat, d: nat, id: int): (after: System)
    requires Shaped(sys) && s < |sys.nodes| && d < |sys.nodes| && sys.links[(s, d)].frames != []
    requires !sys.links[(s, d)].frames[0].OneSided? ==> Fits(sys, s, d, id)
    ensures Shaped(after) && |after.nodes| == |sys.nodes|
  {
    var frame := sys.links[(s, d)].frames[0];
    if frame.OneSided? then Shifted(sys, s, d)
    else
      var node := Arrived(sys.nodes[d], id, sys.qpNum[(d, s)], Data(frame, sys.nodes[s].tx));
      WithNode(Shifted(sys, s, d), d, node)
  }

  /** The oldest request that was carried out is reported. */
  ghost function Reports(sys: System, s: nat, d: nat): (after: System)
    requires Shaped(sys) && s < |sys.nodes| && d < |sys.nodes| && sys.links[(s, d)].unacked != []
    ensures Shaped(after) && |after.nodes| == |sys.nodes|
  {
    var link := sys.links[(s, d)];
    WithLink(WithNode(sys, s, Acknowledged(sys.nodes[s], link.unacked[0], d)), s, d,
             link.(unacked := link.unacked[1..]))
  }

  ghost function Step(sys: System, e: Event): (after: System)
    requires Inv(sys) && Enabled(sys, e)
    ensures Shaped(after) && |after.nodes| == |sys.nodes|
  {
    var node := sys.nodes[e.rank];
    match e
    case Zsend(s, d, span) =>
      PostedOn(sys, s, d, node.unflushed + [span], SendFrame(node.tx, span, sys.maxInline))
    case PostOneSided(s, d, request) =>
      PostedOn(sys, s, d, node.unflushed, OneSided(request))
    case Deliver(s, d, id) =>
      DeliverableFits(sys, s, d, id);
      Delivered(sys, s, d, id)
    case Ack(s, d) => Reports(sys, s, d)
    case Poll(p, count) => WithNode(sys, p, Polled(node, |sys.nodes|, count))
    case Zrecv(p, source) => WithNode(sys, p, TakenFrom(node, source))
    case Return(p) => WithNode(sys, p, GivenBack(node))
    case Zflush(p) => WithNode(sys, p, node.(unflushed := []))
    case Store(p, off, data) => WithNode(sys, p, node.(tx := Overwrite(node.tx, off, data)))
  }

  /** The oldest undelivered message fits a vbuf, and only vbufs are ever posted. */
  lemma DeliverableFits(sys: System, s: nat, d: nat, id: int)
    requires Inv(sys) && s < |sys.nodes| && d < |sys.nodes| && sys.links[(s, d)].frames != []
    requires sys.links[(s, d)].frames[0].OneSided? || id in sys.nodes[d].srq
    ensures !sys.links[(s, d)].frames[0].OneSided? ==> Fits(sys, s, d, id)
  {
    hide Conserved, TotalOk, LengthsOk, Genuine, CreditOk, ArrivedIds, PendingIds;
    assert FrameOk(sys.nodes[s], sys.links[(s, d)].frames[0]);
    PlacesExclude(sys.nodes[d], id);
  }

  // ---- What each step keeps ----

  /**
   A step that changes one node, and possibly the links leaving it, keeps the invariant if the node and those
   links are in order.
   */
  lemma Assemble(sys: System, sys': System, p: nat)
    requires Inv(sys) && p < |sys.nodes| == |sys'.nodes| && sys'.qpNum == sys.qpNum && Shaped(sys')
    requires sys'.nodes == sys.nodes[p := sys'.nodes[p]]
    requires sys'.nodes[p].host.qpRank == sys.nodes[p].host.qpRank
    requires NodeOk(sys'.nodes[p], |sys.nodes|)
    requires forall s: nat, d: nat :: s < |sys.nodes| && d < |sys.nodes| && s != p ==>
               sys'.links[(s, d)] == sys.links[(s, d)]
    requires forall d: nat :: d < |sys.nodes| ==> LinkOk(sys', p, d)
    ensures Inv(sys')
  {
    hide Conserved, TotalOk, LengthsOk, Genuine, CreditOk, FramesOk;
    forall s: nat, d: nat | s < |sys.nodes| && d < |sys.nodes| ensures LinkOk(sys', s, d) {
      if s != p {
        assert FramesOk(sys.nodes[s], sys.links[(s, d)]);
      }
    }
    assert LinksOk(sys') by {
      forall s: nat, d: nat | s < |sys.nodes| && d < |sys.nodes|
        ensures FramesOk(sys'.nodes[s], sys'.links[(s, d)]) && CreditOk(sys'.nodes[s], sys'.links[(s, d)], d)
      {
        assert LinkOk(sys', s, d);
      }
    }
    assert RoutesOk(sys') by {
      forall s: nat, d: nat | s < |sys.nodes| && d < |sys.nodes| && sys'.links[(s, d)].frames != []
        ensures (d, s) in sys'.qpNum
      {
        assert LinkOk(sys', s, d);
      }
    }
  }

  /** A link is in order: its requests, the credits of its sender, and a queue pair to receive them. */
  ghost predicate LinkOk(sys: System, s: nat, d: nat)
    requires Shaped(sys) && s < |sys.nodes| && d < |sys.nodes|
  {
    && FramesOk(sys.nodes[s], sys.links[(s, d)])
    && CreditOk(sys.nodes[s], sys.links[(s, d)], d)
    && (sys.links[(s, d)].frames != [] ==> (d, s) in sys.qpNum)
  }

  lemma ShiftKeeps(sys: System, s: nat, d: nat)
    requires Inv(sys) && s < |sys.nodes| && d < |sys.nodes| && sys.links[(s, d)].frames != []
    ensures Inv(Shifted(sys, s, d))
  {
    hide Conserved, TotalOk, LengthsOk, Genuine, FrameOk;
    var shifted := Shifted(sys, s, d);
    forall other: nat | other < |sys.nodes| ensures LinkOk(shifted, s, other) {
      assert FramesOk(sys.nodes[s], sys.links[(s, other)]);
    }
    Assemble(sys, shifted, s);
  }

  lemma LocalStepKeeps(sys: System, p: nat, node': Node)
    requires Inv(sys) && p < |sys.nodes| && NodeOk(node', |sys.nodes|)
    requires node'.host.qpRank == sys.nodes[p].host.qpRank && |node'.tx| == |sys.nodes[p].tx|
    requires forall d: nat :: d < |sys.nodes| ==> CreditOk(node', sys.links[(p, d)], d)
    requires node'.unflushed == sys.nodes[p].unflushed
             || forall d: nat :: d < |sys.nodes| ==> sys.links[(p, d)].frames == []
    ensures Inv(WithNode(sys, p, node'))
  {
    hide Conserved, TotalOk, LengthsOk, Genuine, CreditOk, FrameOk;
    var after := WithNode(sys, p, node');
    forall d: nat | d < |sys.nodes| ensures LinkOk(after, p, d) {
      if node'.unflushed == sys.nodes[p].unflushed {
        FramesUnmoved(sys.nodes[p], node', sys.links[(p, d)]);
      }
    }
    Assemble(sys, after, p);
  }

  lemma ArrivalStepKeeps(sys: System, d: nat, id: int, qpNum: nat, data: Bytes)
    requires Inv(sys) && d < |sys.nodes| && id in sys.nodes[d].srq && IsVbuf(id) && |data| <= VBUF_BYTES
    requires sys.nodes[d].host.RankOf(qpNum) >= 0
    ensures |sys.nodes[d].rx| == Base(PREPOST_DEPTH) && Ready(Arrived(sys.nodes[d], id, qpNum, data), |sys.nodes|)
    ensures Inv(WithNode(sys, d, Arrived(sys.nodes[d], id, qpNum, data)))
  {
    hide Conserved, TotalOk, LengthsOk, Genuine, Reported, FramesOk;
    var node := sys.nodes[d];
    ArrivalKeeps(node, |sys.nodes|, id, qpNum, data);
    forall other: nat | other < |sys.nodes|
      ensures CreditOk(Arrived(node, id, qpNum, data), sys.links[(d, other)], other)
    {
      ArrivalKeepsCredit(node, id, qpNum, data, sys.links[(d, other)], other);
    }
    LocalStepKeeps(sys, d, Arrived(node, id, qpNum, data));
  }

  lemma DeliverKeeps(sys: System, s: nat, d: nat, id: int)
    requires Inv(sys) && s < |sys.nodes| && d < |sys.nodes| && sys.links[(s, d)].frames != []
    requires sys.links[(s, d)].frames[0].OneSided? || id in sys.nodes[d].srq
    ensures !sys.links[(s, d)].frames[0].OneSided? ==> Fits(sys, s, d, id)
    ensures Inv(Delivered(sys, s, d, id))
  {
    DeliverableFits(sys, s, d, id);
    ShiftKeeps(sys, s, d);
    var frame := sys.links[(s, d)].frames[0];
    if !frame.OneSided? {
      ArrivalStepKeeps(Shifted(sys, s, d), d, id, sys.qpNum[(d, s)], Data(frame, sys.nodes[s].tx));
    }
  }

  /** Frames stay in order while user memory keeps its size and no span is forgotten. */
  lemma FramesUnmoved(node: Node, node': Node, link: Link)
    requires FramesOk(node, link) && |node'.tx| == |node.tx|
    requires forall span :: span in node.unflushed ==> span in node'.unflushed
    ensures FramesOk(node', link)
  {
    forall i | 0 <= i < |link.frames| ensures FrameOk(node', link.frames[i]) {
      assert FrameOk(node, link.frames[i]);
    }
  }

  lemma AckStepKeeps(sys: System, s: nat, d: nat)
    requires Inv(sys) && Enabled(sys, Ack(s, d))
    ensures Inv(Step(sys, Ack(s, d)))
  {
    hide Conserved, TotalOk, LengthsOk, Genuine, CreditOk, FrameOk;
    var node, after, request := sys.nodes[s], Step(sys, Ack(s, d)), sys.links[(s, d)].unacked[0];
    AckKeeps(node, |sys.nodes|, request, d);
    forall other: nat | other < |sys.nodes| ensures LinkOk(after, s, other) {
      AckMovesCredit(node, request, d, sys.links[(s, other)], other);
      FramesUnmoved(node, after.nodes[s], sys.links[(s, other)]);
    }
    Assemble(sys, after, s);
  }

  lemma PostKeepsLink(node: Node, d: nat, unflushed: seq<Span>, frame: Frame, link: Link, other: nat)
    requires d < |node.host.qpPendingSendWr| && node.host.qpPendingSendWr[d] < MAX_SEND_WR_PER_QP
    requires forall span :: span in node.unflushed ==> span in unflushed
    requires FrameOk(PostedTo(node, d, unflushed), frame)
    requires FramesOk(node, link) && CreditOk(node, link, other)
    ensures FramesOk(PostedTo(node, d, unflushed), if other == d then link.(frames := link.frames + [frame]) else link)
    ensures CreditOk(PostedTo(node, d, unflushed),
                     if other == d then link.(frames := link.frames + [frame]) else link, other)
  {
    FramesUnmoved(node, PostedTo(node, d, unflushed), link);
  }

  lemma PostStepKeeps(sys: System, s: nat, d: nat, unflushed: seq<Span>, frame: Frame)
    requires Inv(sys) && s < |sys.nodes| && d < |sys.nodes|
    requires sys.nodes[s].host.qpPendingSendWr[d] < MAX_SEND_WR_PER_QP
    requires forall span :: span in sys.nodes[s].unflushed ==> span in unflushed
    requires FrameOk(PostedTo(sys.nodes[s], d, unflushed), frame) && (d, s) in sys.qpNum
    ensures Inv(PostedOn(sys, s, d, unflushed, frame))
  {
    hide CreditOk, FramesOk, FrameOk, Conserved, TotalOk, LengthsOk, Genuine;
    var node, after := sys.nodes[s], PostedOn(sys, s, d, unflushed, frame);
    PostKeeps(node, |sys.nodes|, d, unflushed);
    forall other: nat | other < |sys.nodes| ensures LinkOk(after, s, other) {
      PostKeepsLink(node, d, unflushed, frame, sys.links[(s, other)], other);
    }
    Assemble(sys, after, s);
  }

  /**
   When `YMPI_Zflush` finds no pending request, every request this rank ever posted was carried out, reported
   and polled.
   */
  lemma FlushMeansDone(sys: System, p: nat, d: nat)
    requires Inv(sys) && p < |sys.nodes| && d < |sys.nodes| && sys.nodes[p].host.pendingSendWr <= 0
    ensures sys.links[(p, d)].frames == [] && sys.links[(p, d)].unacked == []
    ensures Reported(sys.nodes[p].cq, d) == 0
  {
    var counts := sys.nodes[p].host.qpPendingSendWr;
    forall k | 0 <= k < |counts| ensures counts[k] >= 0 {
      assert CreditOk(sys.nodes[p], sys.links[(p, k)], k);
    }
    SumAtLeast(counts, d);
    assert CreditOk(sys.nodes[p], sys.links[(p, d)], d);
  }

  lemma PollStepKeeps(sys: System, p: nat, count: nat)
    requires Inv(sys) && Enabled(sys, Poll(p, count))
    ensures Inv(Step(sys, Poll(p, count)))
  {
    hide Conserved, TotalOk, LengthsOk, Genuine, CreditOk, FramesOk, ProcessBatch;
    var node := sys.nodes[p];
    PollKeeps(node, |sys.nodes|, count);
    forall d: nat | d < |sys.nodes| ensures CreditOk(Polled(node, |sys.nodes|, count), sys.links[(p, d)], d) {
      PollKeepsCredit(node, |sys.nodes|, count, sys.links[(p, d)], d);
    }
    LocalStepKeeps(sys, p, Polled(node, |sys.nodes|, count));
  }

  lemma FlushStepKeeps(sys: System, p: nat)
    requires Inv(sys) && p < |sys.nodes| && sys.nodes[p].host.pendingSendWr <= 0
    ensures Inv(WithNode(sys, p, sys.nodes[p].(unflushed := [])))
  {
    hide Conserved, TotalOk, LengthsOk, Genuine, Reported;
    forall d: nat | d < |sys.nodes| ensures sys.links[(p, d)].frames == [] {
      FlushMeansDone(sys, p, d);
    }
    UserMemoryIsFree(sys.nodes[p], |sys.nodes|, sys.nodes[p].tx, []);
    LocalStepKeeps(sys, p, sys.nodes[p].(unflushed := []));
  }

  lemma StoreStepKeeps(sys: System, p: nat, off: nat, data: Bytes)
    requires Inv(sys) && p < |sys.nodes| && off + |data| <= |sys.nodes[p].tx|
    ensures Inv(WithNode(sys, p, sys.nodes[p].(tx := Overwrite(sys.nodes[p].tx, off, data))))
  {
    hide Conserved, TotalOk, LengthsOk, Genuine, Reported;
    UserMemoryIsFree(sys.nodes[p], |sys.nodes|, Overwrite(sys.nodes[p].tx, off, data), sys.nodes[p].unflushed);
    LocalStepKeeps(sys, p, sys.nodes[p].(tx := Overwrite(sys.nodes[p].tx, off, data)));
  }

  lemma ReturnStepKeeps(sys: System, p: nat)
    requires Inv(sys) && p < |sys.nodes| && sys.nodes[p].host.vbufFetched != []
    requires Ready(GivenBack(sys.nodes[p]), |sys.nodes|)
    ensures Inv(WithNode(sys, p, GivenBack(sys.nodes[p])))
  {
    hide Conserved, TotalOk, LengthsOk, Genuine, Reported, FramesOk;
    GiveBackKeeps(sys.nodes[p], |sys.nodes|);
    LocalStepKeeps(sys, p, GivenBack(sys.nodes[p]));
  }

  lemma ZrecvStepKeeps(sys: System, p: nat, source: nat)
    requires Inv(sys) && Enabled(sys, Zrecv(p, source))
    ensures Inv(Step(sys, Zrecv(p, source)))
  {
    hide Conserved, TotalOk, LengthsOk, Genuine, Reported, FramesOk;
    TakeKeeps(sys.nodes[p], |sys.nodes|, source);
    LocalStepKeeps(sys, p, TakenFrom(sys.nodes[p], source));
  }

  lemma ZsendStepKeeps(sys: System, s: nat, d: nat, span: Span)
    requires Inv(sys) && Enabled(sys, Zsend(s, d, span))
    ensures Inv(Step(sys, Zsend(s, d, span)))
  {
    hide Conserved, TotalOk, LengthsOk, Genuine, CreditOk;
    var node := sys.nodes[s];
    PostStepKeeps(sys, s, d, node.unflushed + [span], SendFrame(node.tx, span, sys.maxInline));
  }

  /** Every step keeps the invariant: conservation of vbufs, credit accounting, genuine completions, stable routes. */
  lemma StepKeeps(sys: System, e: Event)
    requires Inv(sys) && Enabled(sys, e)
    ensures Inv(Step(sys, e)) && |Step(sys, e).nodes| == |sys.nodes|
  {
    hide NodeOk, FramesOk, CreditOk;
    match e {
      case Zsend(s, d, span) => ZsendStepKeeps(sys, s, d, span);
      case PostOneSided(s, d, request) => PostStepKeeps(sys, s, d, sys.nodes[s].unflushed, OneSided(request));
      case Deliver(s, d, id) => DeliverKeeps(sys, s, d, id);
      case Ack(s, d) => AckStepKeeps(sys, s, d);
      case Poll(p, count) => PollStepKeeps(sys, p, count);
      case Zrecv(p, source) => ZrecvStepKeeps(sys, p, source);
      case Return(p) => ReturnStepKeeps(sys, p);
      case Zflush(p) => FlushStepKeeps(sys, p);
      case Store(p, off, data) => StoreStepKeeps(sys, p, off, data);
    }
  }

  // ---- Each pair of ranks is one plain FIFO ----

  /** The messages of `s` for `d` that were sent but not received: the abstract queue of the pair. */
  ghost function InFlight(sys: System, s: nat, d: nat): seq<Bytes>
    requires Shaped(sys) && s < |sys.nodes| && d < |sys.nodes|
  {
    Waiting(sys.nodes[d], s) + Undelivered(sys.links[(s, d)].frames, sys.nodes[s].tx)
  }

  /** The message that a step sends from `s` to `d`: the bytes of the span at the time of the call. */
  ghost function SentBy(sys: System, e: Event, s: nat, d: nat): seq<Bytes>
    requires Shaped(sys) && Enabled(sys, e)
  {
    if e.Zsend? && e.rank == s && e.dest == d
    then [sys.nodes[s].tx[e.span.off..e.span.off + e.span.len]] else []
  }

  /** The message that a step hands to the client of `d` as coming from `s`. */
  ghost function ReceivedBy(sys: System, e: Event, s: nat, d: nat): seq<Bytes>
    requires Shaped(sys) && Enabled(sys, e)
  {
    if e.Zrecv? && e.rank == d && e.source == s then [Handed(sys.nodes[d], s)] else []
  }

  lemma NodeMessagesUnmoved(node: Node, node': Node, source: nat)
    requires |node.host.qpRank| == QPN_HASH_SIZE && source < |node.host.pendingRecv|
    requires node'.host == node.host && node'.rx == node.rx && node'.cq == node.cq
    ensures Waiting(node', source) == Waiting(node, source)
  {
  }

  lemma UndeliveredSingle(frame: Frame, tx: Bytes)
    ensures Undelivered([frame], tx) == if frame.OneSided? then [] else [Data(frame, tx)]
  {
    assert [frame][1..] == [];
  }

  /** A step that changes one node but not what it has waiting nor what it sends from is invisible. */
  lemma NodeStepIsFifo(sys: System, p: nat, node: Node, s: nat, d: nat)
    requires Shaped(sys) && p < |sys.nodes| && Ready(node, |sys.nodes|) && s < |sys.nodes| && d < |sys.nodes|
    requires d == p ==> Waiting(node, s) == Waiting(sys.nodes[p], s)
    requires s == p ==> node.tx == sys.nodes[p].tx
    ensures InFlight(WithNode(sys, p, node), s, d) == InFlight(sys, s, d)
  {
    hide Waiting, Undelivered;
  }

  /** A posted request goes to the end of the pair's queue if it is a send, and nowhere otherwise. */
  lemma PostedIsFifo(sys: System, p: nat, dest: nat, unflushed: seq<Span>, frame: Frame, s: nat, d: nat)
    requires Shaped(sys) && p < |sys.nodes| && dest < |sys.nodes| && s < |sys.nodes| && d < |sys.nodes|
    ensures InFlight(PostedOn(sys, p, dest, unflushed, frame), s, d)
         == InFlight(sys, s, d)
            + if p == s && dest == d && !frame.OneSided? then [Data(frame, sys.nodes[s].tx)] else []
  {
    hide Waiting, Undelivered;
    if p == d {
      PostKeepsMessages(sys.nodes[p], dest, unflushed, s);
    }
    if p == s && dest == d {
      UndeliveredAppend(sys.links[(s, d)].frames, frame, sys.nodes[s].tx);
      UndeliveredSingle(frame, sys.nodes[s].tx);
    }
  }

  lemma PostIsFifo(sys: System, e: Event, s: nat, d: nat)
    requires Inv(sys) && Enabled(sys, e) && (e.Zsend? || e.PostOneSided?)
    requires s < |sys.nodes| && d < |sys.nodes|
    ensures InFlight(Step(sys, e), s, d) == InFlight(sys, s, d) + SentBy(sys, e, s, d)
  {
    hide NodesOk, LinksOk, RoutesOk, InFlight, PostedOn, Connected, Ready;
    var node := sys.nodes[e.rank];
    if e.Zsend? {
      PostedIsFifo(sys, e.rank, e.dest, node.unflushed + [e.span], SendFrame(node.tx, e.span, sys.maxInline), s, d);
    } else {
      PostedIsFifo(sys, e.rank, e.dest, node.unflushed, OneSided(e.request), s, d);
    }
  }

  /** A delivered message moves from the head of the link to the end of what its source has waiting. */
  lemma DeliveredIsFifo(sys: System, p: nat, dest: nat, id: int, s: nat, d: nat)
    requires Shaped(sys) && p < |sys.nodes| && dest < |sys.nodes| && sys.links[(p, dest)].frames != []
    requires !sys.links[(p, dest)].frames[0].OneSided? ==>
               && Fits(sys, p, dest, id) && Conserved(sys.nodes[dest]) && id in sys.nodes[dest].srq
               && sys.nodes[dest].host.RankOf(sys.qpNum[(dest, p)]) == p
    requires s < |sys.nodes| && d < |sys.nodes|
    ensures InFlight(Delivered(sys, p, dest, id), s, d) == InFlight(sys, s, d)
  {
    hide Waiting, Conserved;
    var frame := sys.links[(p, dest)].frames[0];
    if !frame.OneSided? && dest == d {
      ArrivalAppends(sys.nodes[d], id, sys.qpNum[(d, p)], Data(frame, sys.nodes[p].tx), s);
    }
  }

  lemma DeliverIsFifo(sys: System, e: Event, s: nat, d: nat)
    requires Inv(sys) && Enabled(sys, e) && e.Deliver?
    requires s < |sys.nodes| && d < |sys.nodes|
    ensures InFlight(Step(sys, e), s, d) == InFlight(sys, s, d)
  {
    hide Conserved, TotalOk, LengthsOk, Genuine, CreditOk, FramesOk, InFlight, Delivered;
    DeliverableFits(sys, e.rank, e.dest, e.id);
    DeliveredIsFifo(sys, e.rank, e.dest, e.id, s, d);
  }

  lemma StoreIsFifo(sys: System, e: Event, s: nat, d: nat)
    requires Inv(sys) && Enabled(sys, e) && e.Store?
    requires s < |sys.nodes| && d < |sys.nodes|
    ensures InFlight(Step(sys, e), s, d) == InFlight(sys, s, d)
  {
    hide Conserved, TotalOk, LengthsOk, Genuine, CreditOk, Waiting, Undelivered;
    var node := sys.nodes[e.rank];
    var tx' := Overwrite(node.tx, e.off, e.data);
    var frames := sys.links[(s, d)].frames;
    if e.rank == s {
      forall i | 0 <= i < |frames| ensures Data(frames[i], tx') == Data(frames[i], node.tx) {
        assert FrameOk(node, frames[i]);
        if frames[i].Gather? {
          var span := frames[i].span;
          OverwriteElsewhere(node.tx, e.off, e.data, span.off, span.off + span.len);
        }
      }
      UndeliveredFrame(frames, node.tx, tx');
    }
    NodeMessagesUnmoved(sys.nodes[d], Step(sys, e).nodes[d], s);
  }

  lemma PollIsFifo(sys: System, e: Event, s: nat, d: nat)
    requires Inv(sys) && Enabled(sys, e) && e.Poll?
    requires s < |sys.nodes| && d < |sys.nodes|
    ensures InFlight(Step(sys, e), s, d) == InFlight(sys, s, d)
  {
    hide Conserved, TotalOk, LengthsOk, Genuine, CreditOk, FramesOk, Waiting, InFlight, ProcessBatch, RoutesOk, LinksOk;
    var node := sys.nodes[e.rank];
    PollKeepsMessages(node, |sys.nodes|, e.count, s);
    NodeStepIsFifo(sys, e.rank, Polled(node, |sys.nodes|, e.count), s, d);
  }

  lemma AckIsFifo(sys: System, p: nat, dest: nat, s: nat, d: nat)
    requires Shaped(sys) && p < |sys.nodes| && dest < |sys.nodes| && s < |sys.nodes| && d < |sys.nodes|
    requires sys.links[(p, dest)].unacked != []
    ensures InFlight(Reports(sys, p, dest), s, d) == InFlight(sys, s, d)
  {
    hide Waiting, Undelivered;
    AckKeepsMessages(sys.nodes[p], sys.links[(p, dest)].unacked[0], dest, s);
  }

  lemma ReportIsFifo(sys: System, e: Event, s: nat, d: nat)
    requires Inv(sys) && Enabled(sys, e) && (e.Ack? || e.Return? || e.Zflush?)
    requires s < |sys.nodes| && d < |sys.nodes|
    ensures InFlight(Step(sys, e), s, d) == InFlight(sys, s, d)
  {
    hide NodesOk, LinksOk, RoutesOk, InFlight, Waiting, Reports;
    var node := sys.nodes[e.rank];
    match e {
      case Ack(p, dest) => AckIsFifo(sys, p, dest, s, d);
      case Return(p) =>
        GiveBackKeepsMessages(node, s);
        NodeStepIsFifo(sys, p, GivenBack(node), s, d);
      case Zflush(p) =>
        NodeMessagesUnmoved(node, node.(unflushed := []), s);
        NodeStepIsFifo(sys, p, node.(unflushed := []), s, d);
    }
  }

  lemma ReceiveIsFifo(sys: System, e: Event, s: nat, d: nat)
    requires Inv(sys) && Enabled(sys, e) && e.Zrecv?
    requires s < |sys.nodes| && d < |sys.nodes|
    ensures InFlight(sys, s, d) == ReceivedBy(sys, e, s, d) + InFlight(Step(sys, e), s, d)
  {
    hide Conserved, TotalOk, LengthsOk, Genuine, CreditOk, FramesOk, Waiting, Undelivered, Handed;
    if e.rank == d {
      TakeIsOldest(sys.nodes[d], e.source, s);
    }
  }

  /**
   Refinement: for every pair of ranks, a send appends to the pair's queue, a receive takes its head, and every
   other step is invisible.
   */
  lemma StepIsFifo(sys: System, e: Event, s: nat, d: nat)
    requires Inv(sys) && Enabled(sys, e) && s < |sys.nodes| && d < |sys.nodes|
    ensures Inv(Step(sys, e)) && |Step(sys, e).nodes| == |sys.nodes|
    ensures InFlight(sys, s, d) + SentBy(sys, e, s, d)
         == ReceivedBy(sys, e, s, d) + InFlight(Step(sys, e), s, d)
  {
    hide Inv, NodesOk, LinksOk, RoutesOk, Step, InFlight, Enabled;
    StepKeeps(sys, e);
    if e.Zsend? || e.PostOneSided? {
      PostIsFifo(sys, e, s, d);
    } else if e.Deliver? {
      DeliverIsFifo(sys, e, s, d);
    } else if e.Store? {
      StoreIsFifo(sys, e, s, d);
    } else if e.Poll? {
      PollIsFifo(sys, e, s, d);
    } else if e.Zrecv? {
      ReceiveIsFifo(sys, e, s, d);
    } else {
      ReportIsFifo(sys, e, s, d);
    }
  }
}
