/**
 One YMPI process (src/ympi.c) together with its half of the network card: the
 vbufs posted for receiving, the completion queue, the receive region and the
 memory the client sends from.  Each section is one thing that can happen to such
 a node, and what it does to the place of every vbuf, to the send credits and to
 the messages the node holds for its client.
 */
module YmpiNode {
  import opened Common
  import opened YmpiProcess

  type Bytes = seq<byte>

  datatype Span = Span(off: nat, len: nat)

  /** The spans have no byte in common. */
  predicate Apart(a: Span, b: Span) {
    a.len == 0 || b.len == 0 || a.off + a.len <= b.off || b.off + b.len <= a.off
  }

  /**
   A posted request: a send captured when it was posted, a send whose bytes are fetched on delivery, or a one-
   sided request.
   */
  datatype Frame = Inline(data: Bytes) | Gather(span: Span) | OneSided(request: Request)
  {
    function Kind(): Request {
      match this
      case OneSided(request) => request
      case _ => Send
    }
  }

  /** The requests of one rank for another: not yet carried out, and carried out but not yet reported. */
  datatype Link = Link(frames: seq<Frame>, unacked: seq<Request>)

  /** A process with its half of the network card: posted vbufs, completion queue, receive region, user memory. */
  datatype Node = Node(
    host: Process,
    srq: set<int>,
    cq: seq<Completion>,
    rx: Bytes,
    tx: Bytes,
    unflushed: seq<Span>)

  // ---- Windows of the receive region ----

  predicate IsVbuf(id: int) { 0 <= id < PREPOST_DEPTH }

  /** The first `len` bytes of a vbuf. */
  ghost function Window(rx: Bytes, id: int, len: nat): Bytes {
    if IsVbuf(id) && len <= VBUF_BYTES && |rx| == Base(PREPOST_DEPTH)
    then rx[Base(id)..Base(id) + len] else []
  }

  ghost function Overwrite(mem: Bytes, off: nat, data: Bytes): (r: Bytes)
    requires off + |data| <= |mem|
    ensures |r| == |mem|
    ensures forall i :: 0 <= i < |mem| ==> r[i] == if off <= i < off + |data| then data[i - off] else mem[i]
  {
    mem[..off] + data + mem[off + |data|..]
  }

  lemma OverwriteElsewhere(mem: Bytes, off: nat, data: Bytes, from: nat, to: nat)
    requires off + |data| <= |mem| && from <= to <= |mem|
    requires to <= off || off + |data| <= from || from == to || data == []
    ensures Overwrite(mem, off, data)[from..to] == mem[from..to]
  {
  }

  /** Writing a vbuf changes no other vbuf, and reads back. */
  lemma WindowAfterWrite(rx: Bytes, id: int, data: Bytes, other: int, len: nat)
    requires IsVbuf(id) && |data| <= VBUF_BYTES && |rx| == Base(PREPOST_DEPTH)
    ensures 0 <= Base(id) && Base(id) + |data| <= |rx|
    ensures Window(Overwrite(rx, Base(id), data), id, |data|) == data
    ensures other != id ==> Window(Overwrite(rx, Base(id), data), other, len) == Window(rx, other, len)
  {
    if other != id && IsVbuf(other) && len <= VBUF_BYTES {
      OverwriteElsewhere(rx, Base(id), data, Base(other), Base(other) + len);
    }
  }

  // ---- Where a vbuf can be ----

  ghost function ArrivedIds(cq: seq<Completion>): multiset<int> {
    if cq == [] then multiset{}
    else (if cq[0].Received? then multiset{cq[0].id as int} else multiset{}) + ArrivedIds(cq[1..])
  }

  ghost function PendingIds(queues: seq<seq<int>>): multiset<int> {
    if queues == [] then multiset{} else multiset(queues[0]) + PendingIds(queues[1..])
  }

  /** The numbers 0, ..., n - 1. */
  ghost function Below(n: nat): (r: set<int>)
    ensures |r| == n
    ensures forall i :: i in r <==> 0 <= i < n
  {
    if n == 0 then {} else Below(n - 1) + {n - 1}
  }

  /** Every vbuf is in exactly one place, once. */
  ghost predicate Conserved(node: Node) {
    multiset(node.srq) + ArrivedIds(node.cq) + PendingIds(node.host.pendingRecv) + multiset(node.host.vbufFetched)
    == multiset(Below(PREPOST_DEPTH))
  }

  lemma {:induction false} ArrivedAppend(cq: seq<Completion>, wc: Completion)
    ensures ArrivedIds(cq + [wc]) == ArrivedIds(cq) + ArrivedIds([wc])
  {
    if cq == [] {
      assert cq + [wc] == [wc];
    } else {
      ArrivedAppend(cq[1..], wc);
      assert (cq + [wc])[1..] == cq[1..] + [wc];
    }
  }

  lemma MultisetCancel(h: multiset<int>, a: multiset<int>, b: multiset<int>, c: multiset<int>, d: multiset<int>)
    requires a + b == c + d
    ensures h + a + b == h + c + d
  {
    assert h + a + b == h + (a + b);
    assert h + c + d == h + (c + d);
  }

  lemma ArrivedSingle(wc: Completion)
    ensures ArrivedIds([wc]) == if wc.Received? then multiset{wc.id as int} else multiset{}
  {
    assert [wc][1..] == [];
  }

  lemma {:induction false} PendingUpdate(queues: seq<seq<int>>, i: nat, q: seq<int>)
    requires i < |queues|
    ensures PendingIds(queues[i := q]) + multiset(queues[i]) == PendingIds(queues) + multiset(q)
  {
    if i == 0 {
      assert queues[i := q][1..] == queues[1..];
    } else {
      var rest := queues[1..];
      PendingUpdate(rest, i - 1, q);
      var updated := queues[i := q];
      assert updated[1..] == rest[i - 1 := q] && updated[0] == queues[0] && rest[i - 1] == queues[i];
      MultisetCancel(multiset(queues[0]), PendingIds(rest[i - 1 := q]), multiset(queues[i]), PendingIds(rest),
                     multiset(q));
    }
  }

  lemma PendingAppend(queues: seq<seq<int>>, i: nat, id: int)
    requires i < |queues|
    ensures PendingIds(queues[i := queues[i] + [id]]) == PendingIds(queues) + multiset{id}
  {
    var q := queues[i] + [id];
    PendingUpdate(queues, i, q);
    var before, after := PendingIds(queues), PendingIds(queues[i := q]);
    assert multiset(q) == multiset(queues[i]) + multiset{id};
    assert after + multiset(queues[i]) == before + multiset{id} + multiset(queues[i]);
    assert after == (after + multiset(queues[i])) - multiset(queues[i]);
  }

  lemma MultisetMove(s: multiset<int>, id: int, a: multiset<int>, p: multiset<int>, f: multiset<int>)
    ensures s + (multiset{id} + a) + p + f == s + a + (p + multiset{id}) + f
  {
  }

  lemma MultisetShift(s: multiset<int>, a: multiset<int>, p: multiset<int>, f: multiset<int>, x: multiset<int>)
    ensures (s + x) + a + p + f == s + (a + x) + p + f
    ensures s + a + (p + x) + f == s + a + p + (f + x)
  {
  }

  lemma MultisetBack(s: multiset<int>, a: multiset<int>, p: multiset<int>, f: multiset<int>, x: multiset<int>)
    ensures (s + x) + a + p + f == s + a + p + (x + f)
  {
  }

  lemma PendingTake(queues: seq<seq<int>>, i: nat)
    requires i < |queues| && queues[i] != []
    ensures PendingIds(queues) == PendingIds(queues[i := queues[i][1..]]) + multiset{queues[i][0]}
  {
    var q := queues[i][1..];
    var updated := queues[i := q];
    PendingAppendFront(updated, i, queues[i][0]);
    assert [queues[i][0]] + q == queues[i];
    assert updated[i := queues[i]] == queues;
  }

  lemma PendingAppendFront(queues: seq<seq<int>>, i: nat, id: int)
    requires i < |queues|
    ensures PendingIds(queues[i := [id] + queues[i]]) == PendingIds(queues) + multiset{id}
  {
    PendingAppend(queues, i, id);
    SameIds(queues[i := queues[i] + [id]], i, [id] + queues[i]);
    assert queues[i := queues[i] + [id]][i := [id] + queues[i]] == queues[i := [id] + queues[i]];
  }

  lemma {:induction false} SameIds(queues: seq<seq<int>>, i: nat, q: seq<int>)
    requires i < |queues| && multiset(q) == multiset(queues[i])
    ensures PendingIds(queues[i := q]) == PendingIds(queues)
  {
    if i == 0 {
      assert queues[i := q][1..] == queues[1..];
    } else {
      SameIds(queues[1..], i - 1, q);
      assert queues[i := q][1..] == queues[1..][i - 1 := q];
    }
  }

  lemma {:induction false} PendingContains(queues: seq<seq<int>>, i: nat)
    requires i < |queues|
    ensures multiset(queues[i]) <= PendingIds(queues)
  {
    if i > 0 {
      PendingContains(queues[1..], i - 1);
    }
  }

  /** The places of a vbuf exclude one another. */
  lemma PlacesExclude(node: Node, id: int)
    requires Conserved(node)
    ensures id in node.srq ==> ArrivedIds(node.cq)[id] == 0
    ensures id in node.srq || id in ArrivedIds(node.cq) ==>
              id !in PendingIds(node.host.pendingRecv) && id !in node.host.vbufFetched
    ensures id in PendingIds(node.host.pendingRecv) ==> id !in node.host.vbufFetched
    ensures IsVbuf(id) <==> (id in node.srq || id in ArrivedIds(node.cq)
                             || id in PendingIds(node.host.pendingRecv) || id in node.host.vbufFetched)
  {
    assert id in node.host.vbufFetched <==> id in multiset(node.host.vbufFetched);
    assert multiset(Below(PREPOST_DEPTH))[id] == if IsVbuf(id) then 1 else 0;
  }

  lemma QueueIsPending(node: Node, source: nat, id: int)
    requires source < |node.host.pendingRecv| && id in node.host.pendingRecv[source]
    ensures id in PendingIds(node.host.pendingRecv)
  {
    PendingContains(node.host.pendingRecv, source);
    assert id in multiset(node.host.pendingRecv[source]);
  }

  /** A queue about to gain a vbuf that is still in the completion queue has room for it. */
  lemma QueuesHaveRoom(node: Node, source: nat)
    requires Conserved(node) && source < |node.host.pendingRecv|
    ensures |node.host.pendingRecv[source]| + |ArrivedIds(node.cq)| <= PREPOST_DEPTH
    ensures |node.host.vbufFetched| + |node.host.pendingRecv[source]| <= PREPOST_DEPTH
    ensures |node.srq| + |node.host.vbufFetched| <= PREPOST_DEPTH
  {
    PendingContains(node.host.pendingRecv, source);
    var pending := PendingIds(node.host.pendingRecv);
    var mine := multiset(node.host.pendingRecv[source]);
    assert pending == mine + (pending - mine);
    assert |pending| >= |mine|;
    var total := multiset(node.srq) + ArrivedIds(node.cq) + pending + multiset(node.host.vbufFetched);
    assert |total| == |multiset(node.srq)| + |ArrivedIds(node.cq)| + |pending| + |multiset(node.host.vbufFetched)|;
    assert |total| == PREPOST_DEPTH;
  }

  // ---- Send credits ----

  lemma {:induction false} ReportedAppend(cq: seq<Completion>, wc: Completion, dest: nat)
    ensures Reported(cq + [wc], dest) == Reported(cq, dest) + Reported([wc], dest)
  {
    if cq == [] {
      assert cq + [wc] == [wc];
    } else {
      ReportedAppend(cq[1..], wc, dest);
      assert (cq + [wc])[1..] == cq[1..] + [wc];
    }
  }

  // ---- The messages between two ranks ----

  ghost function Data(frame: Frame, tx: Bytes): Bytes {
    match frame
    case Inline(data) => data
    case Gather(span) => if span.off + span.len <= |tx| then tx[span.off..span.off + span.len] else []
    case OneSided(_) => []
  }

  /** The messages of a link that were not delivered yet. */
  ghost function Undelivered(frames: seq<Frame>, tx: Bytes): seq<Bytes> {
    if frames == [] then []
    else (if frames[0].OneSided? then [] else [Data(frames[0], tx)]) + Undelivered(frames[1..], tx)
  }

  /** The messages from `source` that were delivered but not polled. */
  ghost function Unpolled(rx: Bytes, p: Process, cq: seq<Completion>, source: nat): seq<Bytes>
    requires |p.qpRank| == QPN_HASH_SIZE
  {
    if cq == [] then []
    else
      (if cq[0].Received? && p.RankOf(cq[0].qpNum) == source
       then [Window(rx, cq[0].id, cq[0].byteLen)] else [])
      + Unpolled(rx, p, cq[1..], source)
  }

  ghost function LengthOf(bufBytes: seq<nat>, id: int): nat {
    if 0 <= id < |bufBytes| then bufBytes[id] else 0
  }

  /** The messages in the given vbufs. */
  ghost function Held(rx: Bytes, bufBytes: seq<nat>, ids: seq<int>): (r: seq<Bytes>)
    ensures |r| == |ids|
    ensures forall i :: 0 <= i < |ids| ==> r[i] == Window(rx, ids[i], LengthOf(bufBytes, ids[i]))
  {
    seq(|ids|, i requires 0 <= i < |ids| => Window(rx, ids[i], LengthOf(bufBytes, ids[i])))
  }

  /** The messages from `source` that reached this node but were not handed to its client. */
  ghost function Waiting(node: Node, source: nat): seq<Bytes>
    requires |node.host.qpRank| == QPN_HASH_SIZE && source < |node.host.pendingRecv|
  {
    Held(node.rx, node.host.bufBytes, node.host.pendingRecv[source])
    + Unpolled(node.rx, node.host, node.cq, source)
  }

  lemma {:induction false} UndeliveredAppend(frames: seq<Frame>, frame: Frame, tx: Bytes)
    ensures Undelivered(frames + [frame], tx) == Undelivered(frames, tx) + Undelivered([frame], tx)
  {
    if frames == [] {
      assert frames + [frame] == [frame];
    } else {
      UndeliveredAppend(frames[1..], frame, tx);
      assert (frames + [frame])[1..] == frames[1..] + [frame];
    }
  }

  lemma {:induction false} UnpolledAppend(rx: Bytes, p: Process, cq: seq<Completion>, wc: Completion, source: nat)
    requires |p.qpRank| == QPN_HASH_SIZE
    ensures Unpolled(rx, p, cq + [wc], source) == Unpolled(rx, p, cq, source) + Unpolled(rx, p, [wc], source)
  {
    if cq == [] {
      assert cq + [wc] == [wc];
    } else {
      UnpolledAppend(rx, p, cq[1..], wc, source);
      assert (cq + [wc])[1..] == cq[1..] + [wc];
    }
  }

  lemma UnpolledSingle(rx: Bytes, p: Process, wc: Completion, source: nat)
    requires |p.qpRank| == QPN_HASH_SIZE
    ensures Unpolled(rx, p, [wc], source)
         == if wc.Received? && p.RankOf(wc.qpNum) == source then [Window(rx, wc.id, wc.byteLen)] else []
  {
    assert [wc][1..] == [];
  }

  /** `Unpolled` looks only at the rank table of a process, and only at vbufs named in the completion queue. */
  lemma {:induction false} UnpolledFrame(rx: Bytes, rx': Bytes, p: Process, p': Process, cq: seq<Completion>,
                                         source: nat)
    requires |p.qpRank| == QPN_HASH_SIZE && p'.qpRank == p.qpRank
    requires forall id: int, len: nat {:trigger Window(rx', id, len)} ::
               id in ArrivedIds(cq) ==> Window(rx', id, len) == Window(rx, id, len)
    ensures Unpolled(rx', p', cq, source) == Unpolled(rx, p, cq, source)
  {
    if cq != [] {
      UnpolledFrame(rx, rx', p, p', cq[1..], source);
    }
  }

  /** User memory may change anywhere outside the spans of undelivered sends. */
  lemma {:induction false} UndeliveredFrame(frames: seq<Frame>, tx: Bytes, tx': Bytes)
    requires forall i :: 0 <= i < |frames| ==> Data(frames[i], tx') == Data(frames[i], tx)
    ensures Undelivered(frames, tx') == Undelivered(frames, tx)
  {
    if frames != [] {
      UndeliveredFrame(frames[1..], tx, tx');
    }
  }

  // ---- Polling, for one node ----

  /** The completions waiting at a node can be looked at by `process_wc`. */
  ghost predicate Ready(node: Node, nprocs: nat) {
    && node.host.WellFormed(nprocs)
    && forall i :: 0 <= i < |node.cq| ==> InRange(nprocs, node.cq[i])
  }

  /** The completions at a node are successes from known queue pairs, no longer than a vbuf. */
  ghost predicate Genuine(node: Node)
    requires |node.host.qpRank| == QPN_HASH_SIZE
  {
    forall i :: 0 <= i < |node.cq| ==> GenuineCompletion(node.host, node.cq[i])
  }

  ghost predicate GenuineCompletion(p: Process, wc: Completion)
    requires |p.qpRank| == QPN_HASH_SIZE
  {
    && !wc.Failed?
    && (wc.Received? ==> 0 <= p.RankOf(wc.qpNum) && wc.byteLen <= VBUF_BYTES)
  }

  ghost predicate LengthsOk(node: Node) {
    forall i :: 0 <= i < |node.host.bufBytes| ==> node.host.bufBytes[i] <= VBUF_BYTES
  }

  /** The counter of all pending requests is the sum of the counters for the queue pairs. */
  ghost predicate TotalOk(node: Node) {
    node.host.pendingSendWr == Sum(node.host.qpPendingSendWr)
  }

  ghost function PolledOne(node: Node, nprocs: nat): Node
    requires Ready(node, nprocs) && node.cq != []
  {
    match ProcessWc(node.host, nprocs, node.cq[0])
    case Running(p) => node.(host := p, cq := node.cq[1..])
    case Exited => node
  }

  /** `process_wc` never exits: no queue is full, no queue pair unknown, no completion failed. */
  lemma PollOneRuns(node: Node, nprocs: nat)
    requires Ready(node, nprocs) && node.cq != [] && Genuine(node) && Conserved(node)
    ensures ProcessWc(node.host, nprocs, node.cq[0]).Running?
    ensures Ready(PolledOne(node, nprocs), nprocs)
    ensures Genuine(PolledOne(node, nprocs))
  {
    var wc := node.cq[0];
    assert GenuineCompletion(node.host, wc);
    if wc.Received? {
      QueuesHaveRoom(node, node.host.RankOf(wc.qpNum));
    }
    var after := PolledOne(node, nprocs);
    forall i | 0 <= i < |after.cq| ensures GenuineCompletion(after.host, after.cq[i]) {
      assert GenuineCompletion(node.host, node.cq[i + 1]);
    }
  }

  /** Processing a receive completion moves its vbuf to a pending queue. */
  lemma PollOneConserves(node: Node, nprocs: nat)
    requires Ready(node, nprocs) && node.cq != [] && Conserved(node)
    requires ProcessWc(node.host, nprocs, node.cq[0]).Running?
    ensures Conserved(PolledOne(node, nprocs))
  {
    var wc, queues := node.cq[0], node.host.pendingRecv;
    if wc.Received? {
      var source := node.host.RankOf(wc.qpNum);
      PendingAppend(queues, source, wc.id);
      MultisetMove(multiset(node.srq), wc.id, ArrivedIds(node.cq[1..]), PendingIds(queues),
                   multiset(node.host.vbufFetched));
    }
  }

  lemma PollOneKeepsTotal(node: Node, nprocs: nat)
    requires Ready(node, nprocs) && node.cq != [] && TotalOk(node)
    ensures TotalOk(PolledOne(node, nprocs))
  {
    if node.cq[0].Completed? {
      var counts, dest := node.host.qpPendingSendWr, node.cq[0].dest;
      SumUpdate(counts, dest, counts[dest] - 1);
    }
  }

  lemma PollOneKeepsLengths(node: Node, nprocs: nat)
    requires Ready(node, nprocs) && node.cq != [] && Genuine(node) && LengthsOk(node)
    ensures LengthsOk(PolledOne(node, nprocs))
  {
    assert GenuineCompletion(node.host, node.cq[0]);
  }

  lemma HeldFrame(rx: Bytes, bufBytes: seq<nat>, ids: seq<int>, id: nat, len: nat)
    requires id < |bufBytes| && id !in ids
    ensures Held(rx, bufBytes[id := len], ids) == Held(rx, bufBytes, ids)
    ensures Held(rx, bufBytes[id := len], ids + [id]) == Held(rx, bufBytes, ids) + [Window(rx, id, len)]
  {
    forall i | 0 <= i < |ids| ensures ids[i] != id {
      assert ids[i] in ids;
    }
  }

  /** The arrived vbuf at the head of the completion queue is in no pending queue. */
  lemma ArrivedNotPending(node: Node, source: nat)
    requires Conserved(node) && node.cq != [] && node.cq[0].Received? && source < |node.host.pendingRecv|
    ensures node.cq[0].id !in node.host.pendingRecv[source]
  {
    var id: int := node.cq[0].id;
    if id in node.host.pendingRecv[source] {
      QueueIsPending(node, source, id);
      PlacesExclude(node, id);
      assert false;
    }
  }

  lemma UnpolledFirst(rx: Bytes, p: Process, cq: seq<Completion>, source: nat)
    requires |p.qpRank| == QPN_HASH_SIZE && cq != []
    ensures Unpolled(rx, p, cq, source)
         == (if cq[0].Received? && p.RankOf(cq[0].qpNum) == source then [Window(rx, cq[0].id, cq[0].byteLen)] else [])
            + Unpolled(rx, p, cq[1..], source)
  {
  }

  /** Processing a receive completion moves its message from the completion queue to the end of a pending queue. */
  lemma ReceiptMovesMessage(rx: Bytes, p: Process, p': Process, cq: seq<Completion>, source: nat)
    requires |p.qpRank| == QPN_HASH_SIZE && |p.bufBytes| == PREPOST_DEPTH && source < |p.pendingRecv|
    requires cq != [] && cq[0].Received? && cq[0].id < PREPOST_DEPTH && cq[0].id !in p.pendingRecv[source]
    requires p'.qpRank == p.qpRank && p'.bufBytes == p.bufBytes[cq[0].id := cq[0].byteLen]
    requires |p'.pendingRecv| == |p.pendingRecv|
    requires p'.pendingRecv[source]
          == p.pendingRecv[source] + if p.RankOf(cq[0].qpNum) == source then [cq[0].id as int] else []
    ensures Held(rx, p'.bufBytes, p'.pendingRecv[source]) + Unpolled(rx, p', cq[1..], source)
         == Held(rx, p.bufBytes, p.pendingRecv[source]) + Unpolled(rx, p, cq, source)
  {
    hide Held, Window, Unpolled;
    var ids, wc := p.pendingRecv[source], cq[0];
    UnpolledFirst(rx, p, cq, source);
    UnpolledFrame(rx, rx, p, p', cq[1..], source);
    HeldFrame(rx, p.bufBytes, ids, wc.id, wc.byteLen);
    var held, rest := Held(rx, p.bufBytes, ids), Unpolled(rx, p, cq[1..], source);
    if p.RankOf(wc.qpNum) == source {
      var message := [Window(rx, wc.id, wc.byteLen)];
      assert held + message + rest == held + (message + rest);
    } else {
      assert [] + rest == rest && ids + [] == ids;
    }
  }

  lemma PollOneMovesMessage(node: Node, nprocs: nat, source: nat)
    requires Ready(node, nprocs) && node.cq != [] && source < nprocs
    requires ProcessWc(node.host, nprocs, node.cq[0]).Running?
    requires node.cq[0].Received? ==> node.cq[0].id !in node.host.pendingRecv[source]
    ensures Waiting(PolledOne(node, nprocs), source) == Waiting(node, source)
  {
    var after := PolledOne(node, nprocs);
    if node.cq[0].Received? {
      ReceiptMovesMessage(node.rx, node.host, after.host, node.cq, source);
    } else {
      UnpolledFrame(node.rx, node.rx, node.host, after.host, after.cq, source);
    }
  }

  lemma PollOneKeepsMessages(node: Node, nprocs: nat, source: nat)
    requires Ready(node, nprocs) && node.cq != [] && source < nprocs && Conserved(node)
    requires ProcessWc(node.host, nprocs, node.cq[0]).Running?
    ensures Waiting(PolledOne(node, nprocs), source) == Waiting(node, source)
  {
    if node.cq[0].Received? {
      ArrivedNotPending(node, source);
    }
    PollOneMovesMessage(node, nprocs, source);
  }

  /** The node after a batch of `k` completions was taken from the queue and processed. */
  ghost function Polled(node: Node, nprocs: nat, k: nat): Node
    requires Ready(node, nprocs) && k <= |node.cq|
  {
    match ProcessBatch(node.host, nprocs, node.cq[..k])
    case Running(p) => node.(host := p, cq := node.cq[k..])
    case Exited => node
  }

  /** Polling a batch is polling one completion after the other. */
  lemma PolledUnfold(node: Node, nprocs: nat, k: nat)
    requires Ready(node, nprocs) && 0 < k <= |node.cq|
    requires ProcessWc(node.host, nprocs, node.cq[0]).Running?
    ensures Ready(PolledOne(node, nprocs), nprocs)
    ensures var next := PolledOne(node, nprocs);
            && ProcessBatch(node.host, nprocs, node.cq[..k]) == ProcessBatch(next.host, nprocs, next.cq[..k - 1])
            && (ProcessBatch(next.host, nprocs, next.cq[..k - 1]).Running?
                ==> Polled(node, nprocs, k) == Polled(next, nprocs, k - 1))
  {
    assert node.cq[..k][1..] == node.cq[1..][..k - 1];
    assert node.cq[1..][k - 1..] == node.cq[k..];
  }

  // ---- The invariant of a node ----

  ghost predicate NodeOk(node: Node, nprocs: nat) {
    && Ready(node, nprocs)
    && Genuine(node)
    && LengthsOk(node)
    && TotalOk(node)
    && Conserved(node)
    && |node.rx| == Base(PREPOST_DEPTH)
  }

  ghost predicate FrameOk(node: Node, frame: Frame) {
    match frame
    case Inline(data) => |data| <= VBUF_BYTES
    case Gather(span) => span.off + span.len <= |node.tx| && span.len <= VBUF_BYTES && span in node.unflushed
    case OneSided(request) => !request.Send?
  }

  ghost predicate FramesOk(node: Node, link: Link) {
    forall i :: 0 <= i < |link.frames| ==> FrameOk(node, link.frames[i])
  }

  /** The counter for `dest` is the number of its requests that were posted but whose completion was not polled. */
  ghost predicate CreditOk(node: Node, link: Link, dest: nat) {
    && dest < |node.host.qpPendingSendWr|
    && node.host.qpPendingSendWr[dest] == |link.frames| + |link.unacked| + Reported(node.cq, dest)
    && node.host.qpPendingSendWr[dest] <= MAX_SEND_WR_PER_QP
  }

  // ---- Polling a batch ----

  lemma PollOneKeepsCredit(node: Node, nprocs: nat, link: Link, dest: nat)
    requires Ready(node, nprocs) && node.cq != [] && CreditOk(node, link, dest)
    requires ProcessWc(node.host, nprocs, node.cq[0]).Running?
    ensures CreditOk(PolledOne(node, nprocs), link, dest)
  {
  }

  lemma PollOneKeeps(node: Node, nprocs: nat)
    requires NodeOk(node, nprocs) && node.cq != []
    ensures ProcessWc(node.host, nprocs, node.cq[0]).Running?
    ensures NodeOk(PolledOne(node, nprocs), nprocs)
  {
    PollOneRuns(node, nprocs);
    PollOneConserves(node, nprocs);
    PollOneKeepsTotal(node, nprocs);
    PollOneKeepsLengths(node, nprocs);
  }

  /** Polling never makes the process exit, and keeps the node in order. */
  lemma {:induction false} PollKeeps(node: Node, nprocs: nat, k: nat)
    requires NodeOk(node, nprocs) && k <= |node.cq|
    ensures ProcessBatch(node.host, nprocs, node.cq[..k]).Running?
    ensures NodeOk(Polled(node, nprocs, k), nprocs)
    decreases k
  {
    if k == 0 {
      assert Polled(node, nprocs, 0) == node;
    } else {
      PollOneKeeps(node, nprocs);
      PolledUnfold(node, nprocs, k);
      PollKeeps(PolledOne(node, nprocs), nprocs, k - 1);
    }
  }

  /** Polling takes the same requests from the completion queue and from the counters. */
  lemma {:induction false} PollKeepsCredit(node: Node, nprocs: nat, k: nat, link: Link, dest: nat)
    requires NodeOk(node, nprocs) && k <= |node.cq| && CreditOk(node, link, dest)
    ensures CreditOk(Polled(node, nprocs, k), link, dest)
    decreases k
  {
    hide Conserved, TotalOk, LengthsOk, Genuine, CreditOk;
    if k == 0 {
      assert Polled(node, nprocs, 0) == node;
    } else {
      PollOneKeeps(node, nprocs);
      PolledUnfold(node, nprocs, k);
      PollOneKeepsCredit(node, nprocs, link, dest);
      PollKeeps(PolledOne(node, nprocs), nprocs, k - 1);
      PollKeepsCredit(PolledOne(node, nprocs), nprocs, k - 1, link, dest);
    }
  }

  /** Polling neither loses nor reorders the messages of any source. */
  lemma {:induction false} PollKeepsMessages(node: Node, nprocs: nat, k: nat, source: nat)
    requires NodeOk(node, nprocs) && k <= |node.cq| && source < nprocs
    ensures Polled(node, nprocs, k).host.WellFormed(nprocs)
    ensures Waiting(Polled(node, nprocs, k), source) == Waiting(node, source)
    decreases k
  {
    hide Conserved, TotalOk, LengthsOk, Genuine, Waiting;
    if k == 0 {
      assert Polled(node, nprocs, 0) == node;
    } else {
      PollOneKeeps(node, nprocs);
      PolledUnfold(node, nprocs, k);
      PollOneKeepsMessages(node, nprocs, source);
      PollKeeps(PolledOne(node, nprocs), nprocs, k - 1);
      PollKeepsMessages(PolledOne(node, nprocs), nprocs, k - 1, source);
    }
  }

  // ---- The network card puts a message into a posted vbuf ----

  ghost function Arrived(node: Node, id: int, qpNum: nat, data: Bytes): Node
    requires IsVbuf(id) && |data| <= VBUF_BYTES && |node.rx| == Base(PREPOST_DEPTH)
  {
    WindowAfterWrite(node.rx, id, data, id, 0);
    node.(srq := node.srq - {id},
          rx := Overwrite(node.rx, Base(id), data),
          cq := node.cq + [Received(id, qpNum, |data|)])
  }

  lemma ArrivalConserves(node: Node, id: int, qpNum: nat, data: Bytes)
    requires Conserved(node) && id in node.srq
    requires IsVbuf(id) && |data| <= VBUF_BYTES && |node.rx| == Base(PREPOST_DEPTH)
    ensures Conserved(Arrived(node, id, qpNum, data))
  {
    hide ArrivedIds, PendingIds;
    var wc := Received(id, qpNum, |data|);
    ArrivedAppend(node.cq, wc);
    ArrivedSingle(wc);
    assert multiset(node.srq) == multiset(node.srq - {id}) + multiset{id};
    MultisetShift(multiset(node.srq - {id}), ArrivedIds(node.cq), PendingIds(node.host.pendingRecv),
                  multiset(node.host.vbufFetched), multiset{id});
  }

  lemma ArrivalKeeps(node: Node, nprocs: nat, id: int, qpNum: nat, data: Bytes)
    requires NodeOk(node, nprocs) && id in node.srq && |data| <= VBUF_BYTES
    requires node.host.RankOf(qpNum) >= 0
    ensures IsVbuf(id)
    ensures NodeOk(Arrived(node, id, qpNum, data), nprocs)
  {
    hide Conserved, Sum;
    PlacesExclude(node, id);
    ArrivalConserves(node, id, qpNum, data);
    var after := Arrived(node, id, qpNum, data);
    forall i | 0 <= i < |after.cq|
      ensures InRange(nprocs, after.cq[i]) && GenuineCompletion(after.host, after.cq[i])
    {
      if i < |node.cq| {
        assert GenuineCompletion(node.host, node.cq[i]);
      }
    }
  }

  /** A vbuf that is posted holds no message. */
  lemma PostedIsIdle(node: Node, id: int, source: nat)
    requires Conserved(node) && id in node.srq && source < |node.host.pendingRecv|
    ensures IsVbuf(id) && ArrivedIds(node.cq)[id] == 0 && id !in node.host.pendingRecv[source]
  {
    PlacesExclude(node, id);
    if id in node.host.pendingRecv[source] {
      QueueIsPending(node, source, id);
      assert false;
    }
  }

  lemma HeldElsewhere(rx: Bytes, rx': Bytes, bufBytes: seq<nat>, ids: seq<int>, id: int)
    requires id !in ids
    requires forall other: int, len: nat {:trigger Window(rx', other, len)} ::
               other != id ==> Window(rx', other, len) == Window(rx, other, len)
    ensures Held(rx', bufBytes, ids) == Held(rx, bufBytes, ids)
  {
    forall i | 0 <= i < |ids| ensures ids[i] != id {
      assert ids[i] in ids;
    }
  }

  /** A delivered message goes behind the messages its source has waiting, and disturbs no other message. */
  lemma ArrivalAppends(node: Node, id: int, qpNum: nat, data: Bytes, source: nat)
    requires Conserved(node) && id in node.srq && IsVbuf(id) && |data| <= VBUF_BYTES
    requires |node.rx| == Base(PREPOST_DEPTH)
    requires |node.host.qpRank| == QPN_HASH_SIZE && source < |node.host.pendingRecv|
    ensures Waiting(Arrived(node, id, qpNum, data), source)
         == Waiting(node, source) + if node.host.RankOf(qpNum) == source then [data] else []
  {
    hide Conserved, Held, Unpolled, Window, Overwrite, ArrivedIds, PendingIds;
    PostedIsIdle(node, id, source);
    var rx' := Arrived(node, id, qpNum, data).rx;
    var wc, host := Received(id, qpNum, |data|), node.host;
    forall other: int, len: nat {:trigger Window(rx', other, len)}
      ensures other != id ==> Window(rx', other, len) == Window(node.rx, other, len)
    {
      WindowAfterWrite(node.rx, id, data, other, len);
    }
    HeldElsewhere(node.rx, rx', host.bufBytes, host.pendingRecv[source], id);
    UnpolledAppend(rx', host, node.cq, wc, source);
    UnpolledFrame(node.rx, rx', host, host, node.cq, source);
    WindowAfterWrite(node.rx, id, data, id, |data|);
    UnpolledSingle(rx', host, wc, source);
  }

  /** A receive completion is not a send credit. */
  lemma ArrivalKeepsCredit(node: Node, id: int, qpNum: nat, data: Bytes, link: Link, dest: nat)
    requires IsVbuf(id) && |data| <= VBUF_BYTES && |node.rx| == Base(PREPOST_DEPTH)
    requires CreditOk(node, link, dest)
    ensures CreditOk(Arrived(node, id, qpNum, data), link, dest)
  {
    ReportedAppend(node.cq, Received(id, qpNum, |data|), dest);
  }

  // ---- The network card reports a completed request ----

  ghost function Acknowledged(node: Node, request: Request, dest: nat): Node {
    node.(cq := node.cq + [Completed(request, dest)])
  }

  lemma AckConserves(node: Node, request: Request, dest: nat)
    requires Conserved(node)
    ensures Conserved(Acknowledged(node, request, dest))
  {
    ArrivedAppend(node.cq, Completed(request, dest));
    ArrivedSingle(Completed(request, dest));
  }

  lemma AckKeeps(node: Node, nprocs: nat, request: Request, dest: nat)
    requires NodeOk(node, nprocs) && dest < nprocs
    ensures NodeOk(Acknowledged(node, request, dest), nprocs)
  {
    hide Conserved, Sum;
    AckConserves(node, request, dest);
    var after := Acknowledged(node, request, dest);
    forall i | 0 <= i < |after.cq|
      ensures InRange(nprocs, after.cq[i]) && GenuineCompletion(after.host, after.cq[i])
    {
      if i < |node.cq| {
        assert GenuineCompletion(node.host, node.cq[i]);
      }
    }
  }

  lemma AckKeepsMessages(node: Node, request: Request, dest: nat, source: nat)
    requires |node.host.qpRank| == QPN_HASH_SIZE && source < |node.host.pendingRecv|
    ensures Waiting(Acknowledged(node, request, dest), source) == Waiting(node, source)
  {
    var wc := Completed(request, dest);
    UnpolledAppend(node.rx, node.host, node.cq, wc, source);
    UnpolledSingle(node.rx, node.host, wc, source);
  }

  /** A reported request counts in the completion queue instead of on its link. */
  lemma AckMovesCredit(node: Node, request: Request, dest: nat, link: Link, other: nat)
    requires CreditOk(node, link, other)
    ensures other != dest ==> CreditOk(Acknowledged(node, request, dest), link, other)
    ensures other == dest && link.unacked != [] ==>
              CreditOk(Acknowledged(node, request, dest), link.(unacked := link.unacked[1..]), other)
  {
    ReportedAppend(node.cq, Completed(request, dest), other);
  }

  // ---- The client takes a message, and gives vbufs back ----

  ghost function TakenFrom(node: Node, source: nat): Node
    requires source < |node.host.pendingRecv| && node.host.pendingRecv[source] != []
  {
    node.(host := Taken(node.host, source))
  }

  /** What `YMPI_Zrecv` hands out: the recorded length of the oldest pending vbuf, from the start of that vbuf. */
  ghost function Handed(node: Node, source: nat): Bytes
    requires source < |node.host.pendingRecv| && node.host.pendingRecv[source] != []
  {
    var id := node.host.pendingRecv[source][0];
    Window(node.rx, id, LengthOf(node.host.bufBytes, id))
  }

  lemma TakeConserves(node: Node, source: nat)
    requires Conserved(node) && source < |node.host.pendingRecv| && node.host.pendingRecv[source] != []
    ensures Conserved(TakenFrom(node, source))
  {
    var queues, fetched := node.host.pendingRecv, node.host.vbufFetched;
    var id := queues[source][0];
    PendingTake(queues, source);
    assert multiset(fetched + [id]) == multiset(fetched) + multiset{id};
    MultisetShift(multiset(node.srq), ArrivedIds(node.cq), PendingIds(queues[source := queues[source][1..]]),
                  multiset(fetched), multiset{id});
  }

  lemma TakeKeeps(node: Node, nprocs: nat, source: nat)
    requires NodeOk(node, nprocs) && source < nprocs && node.host.pendingRecv[source] != []
    ensures NodeOk(TakenFrom(node, source), nprocs)
    ensures |node.host.vbufFetched| < PREPOST_DEPTH
  {
    TakeConserves(node, source);
    QueuesHaveRoom(node, source);
  }

  lemma HeldFirst(rx: Bytes, bufBytes: seq<nat>, ids: seq<int>)
    requires ids != []
    ensures Held(rx, bufBytes, ids)
         == [Window(rx, ids[0], LengthOf(bufBytes, ids[0]))] + Held(rx, bufBytes, ids[1..])
  {
  }

  /** The message handed out is the oldest one waiting from that source. */
  lemma TakeIsOldest(node: Node, source: nat, other: nat)
    requires |node.host.qpRank| == QPN_HASH_SIZE && source < |node.host.pendingRecv| && other < |node.host.pendingRecv|
    requires node.host.pendingRecv[source] != []
    ensures Waiting(node, other)
         == (if other == source then [Handed(node, source)] else []) + Waiting(TakenFrom(node, source), other)
  {
    UnpolledFrame(node.rx, node.rx, node.host, TakenFrom(node, source).host, node.cq, other);
    HeldFirst(node.rx, node.host.bufBytes, node.host.pendingRecv[source]);
  }

  /** One round of `YMPID_Return`: the first fetched vbuf is posted again. */
  ghost function GivenBack(node: Node): Node
    requires node.host.vbufFetched != []
  {
    node.(host := node.host.(vbufFetched := node.host.vbufFetched[1..]),
          srq := node.srq + {node.host.vbufFetched[0]})
  }

  lemma FetchedIsNotPosted(node: Node)
    requires Conserved(node) && node.host.vbufFetched != []
    ensures node.host.vbufFetched[0] !in node.srq
  {
    hide Conserved;
    var id := node.host.vbufFetched[0];
    assert id in node.host.vbufFetched;
    PlacesExclude(node, id);
  }

  lemma MultisetOfMore(posted: set<int>, ids: seq<int>)
    requires ids != [] && ids[0] !in posted
    ensures multiset(posted + {ids[0]}) == multiset(posted) + multiset{ids[0]}
    ensures multiset(ids) == multiset{ids[0]} + multiset(ids[1..])
  {
    assert ids == [ids[0]] + ids[1..];
  }

  lemma GiveBackConserves(node: Node)
    requires Conserved(node) && node.host.vbufFetched != []
    ensures Conserved(GivenBack(node))
  {
    hide ArrivedIds, PendingIds, Below;
    var fetched := node.host.vbufFetched;
    FetchedIsNotPosted(node);
    MultisetOfMore(node.srq, fetched);
    MultisetBack(multiset(node.srq), ArrivedIds(node.cq), PendingIds(node.host.pendingRecv),
                 multiset(fetched[1..]), multiset{fetched[0]});
  }

  lemma GiveBackKeeps(node: Node, nprocs: nat)
    requires NodeOk(node, nprocs) && node.host.vbufFetched != []
    ensures NodeOk(GivenBack(node), nprocs)
  {
    hide Conserved;
    GiveBackConserves(node);
    var after := GivenBack(node);
    forall i | 0 <= i < |after.cq| ensures GenuineCompletion(after.host, after.cq[i]) {
      assert GenuineCompletion(node.host, node.cq[i]);
    }
  }

  lemma GiveBackKeepsMessages(node: Node, source: nat)
    requires |node.host.qpRank| == QPN_HASH_SIZE && source < |node.host.pendingRecv|
    requires node.host.vbufFetched != []
    ensures Waiting(GivenBack(node), source) == Waiting(node, source)
  {
    UnpolledFrame(node.rx, node.rx, node.host, GivenBack(node).host, node.cq, source);
  }

  /** User memory, and what the client still has to flush, is no concern of the rest of the node. */
  lemma UserMemoryIsFree(node: Node, nprocs: nat, tx: Bytes, unflushed: seq<Span>)
    requires NodeOk(node, nprocs)
    ensures NodeOk(node.(tx := tx, unflushed := unflushed), nprocs)
  {
    var after := node.(tx := tx, unflushed := unflushed);
    forall i | 0 <= i < |after.cq| ensures GenuineCompletion(after.host, after.cq[i]) {
      assert GenuineCompletion(node.host, node.cq[i]);
    }
  }

  // ---- The client posts a request ----

  ghost function PostedTo(node: Node, dest: nat, unflushed: seq<Span>): Node
    requires dest < |node.host.qpPendingSendWr|
  {
    node.(host := Posted(node.host, dest), unflushed := unflushed)
  }

  lemma PostKeepsTotal(node: Node, dest: nat, unflushed: seq<Span>)
    requires TotalOk(node) && dest < |node.host.qpPendingSendWr|
    ensures TotalOk(PostedTo(node, dest, unflushed))
  {
    var counts := node.host.qpPendingSendWr;
    SumUpdate(counts, dest, counts[dest] + 1);
  }

  lemma PostKeeps(node: Node, nprocs: nat, dest: nat, unflushed: seq<Span>)
    requires NodeOk(node, nprocs) && dest < nprocs
    ensures NodeOk(PostedTo(node, dest, unflushed), nprocs)
  {
    PostKeepsTotal(node, dest, unflushed);
    var after := PostedTo(node, dest, unflushed);
    forall i | 0 <= i < |after.cq| ensures GenuineCompletion(after.host, after.cq[i]) {
      assert GenuineCompletion(node.host, node.cq[i]);
    }
  }

  lemma PostKeepsMessages(node: Node, dest: nat, unflushed: seq<Span>, source: nat)
    requires |node.host.qpRank| == QPN_HASH_SIZE && source < |node.host.pendingRecv|
    requires dest < |node.host.qpPendingSendWr|
    ensures Waiting(PostedTo(node, dest, unflushed), source) == Waiting(node, source)
  {
    UnpolledFrame(node.rx, node.rx, node.host, PostedTo(node, dest, unflushed).host, node.cq, source);
  }
}
