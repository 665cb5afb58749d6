/**
 One YMPI process (src/ympi.c): the counters, the length array and the vbuf
 queues that `process_wc` and the messaging calls update, as values.

 Everything the network card does is left to YmpiNetwork; here a completion is
 simply a value read from the completion queue.
 */
module YmpiProcess {

  const VBUF_BYTES: nat := 0x20_0000
  const PREPOST_DEPTH: nat := 256
  const MAX_SEND_WR_PER_QP: nat := 256
  const RECV_PER_PROCESS: nat := 1024
  const QPN_HASH_SIZE: nat := 0x10_0000
  const POLL_LIMIT: nat := 64

  /** The offset of a vbuf in the receive region. */
  function Base(id: int): int { id * VBUF_BYTES }

  /** The requests that occupy a send queue: SEND_WRID, WRITE_WRID and READ_WRID. */
  datatype Request = Send | Write | Read

  /** A work completion, as `process_wc` looks at it. */
  datatype Completion =
    | Completed(request: Request, dest: nat)
    | Received(id: nat, qpNum: nat, byteLen: nat)
    | Failed

  datatype Process = Process(
    qpRank: seq<int>,
    pendingSendWr: int,
    qpPendingSendWr: seq<int>,
    bufBytes: seq<nat>,
    pendingRecv: seq<seq<int>>,
    vbufFetched: seq<int>)
  {
    ghost predicate WellFormed(nprocs: nat) {
      && |qpRank| == QPN_HASH_SIZE
      && (forall i :: 0 <= i < |qpRank| ==> qpRank[i] < nprocs)
      && |qpPendingSendWr| == |pendingRecv| == nprocs
      && |bufBytes| == PREPOST_DEPTH
    }

    /** The rank behind a queue pair number, or a negative number for an unused table slot. */
    function RankOf(qpNum: nat): int
      requires |qpRank| == QPN_HASH_SIZE
    {
      qpRank[qpNum % QPN_HASH_SIZE]
    }
  }

  /** Only ids that a process put into its work requests come back in completions. */
  predicate InRange(nprocs: nat, wc: Completion) {
    match wc
    case Completed(_, dest) => dest < nprocs
    case Received(id, _, _) => id < PREPOST_DEPTH
    case Failed => true
  }

  /** The effect of a call: the process may leave through `exit` or `assert`. */
  datatype Outcome = Exited | Running(process: Process)

  /** `process_wc` */
  function ProcessWc(p: Process, nprocs: nat, wc: Completion): (r: Outcome)
    requires p.WellFormed(nprocs) && InRange(nprocs, wc)
    ensures r.Running? ==> r.process.WellFormed(nprocs) && r.process.qpRank == p.qpRank
  {
    match wc
    case Failed => Exited
    case Completed(_, dest) =>
      Running(p.(qpPendingSendWr := p.qpPendingSendWr[dest := p.qpPendingSendWr[dest] - 1],
                 pendingSendWr := p.pendingSendWr - 1))
    case Received(id, qpNum, byteLen) =>
      var source := p.RankOf(qpNum);
      if source < 0 || |p.pendingRecv[source]| >= RECV_PER_PROCESS then Exited
      else
        Running(p.(bufBytes := p.bufBytes[id := byteLen],
                   pendingRecv := p.pendingRecv[source := p.pendingRecv[source] + [id]]))
  }

  /** The loop over a polled batch. */
  function ProcessBatch(p: Process, nprocs: nat, wcs: seq<Completion>): (r: Outcome)
    requires p.WellFormed(nprocs)
    requires forall i :: 0 <= i < |wcs| ==> InRange(nprocs, wcs[i])
    ensures r.Running? ==> r.process.WellFormed(nprocs) && r.process.qpRank == p.qpRank
    decreases |wcs|
  {
    if wcs == [] then Running(p)
    else
      match ProcessWc(p, nprocs, wcs[0])
      case Exited => Exited
      case Running(q) => ProcessBatch(q, nprocs, wcs[1..])
  }

  // ---- What a batch does, told from its completions ----

  /** The completions for requests to `dest`. */
  ghost function Reported(wcs: seq<Completion>, dest: nat): nat {
    if wcs == [] then 0
    else (if wcs[0].Completed? && wcs[0].dest == dest then 1 else 0) + Reported(wcs[1..], dest)
  }

  /** All completions for requests. */
  ghost function Completions(wcs: seq<Completion>): nat {
    if wcs == [] then 0 else (if wcs[0].Completed? then 1 else 0) + Completions(wcs[1..])
  }

  /** The vbufs in which messages from `source` arrived, in order. */
  ghost function ArrivedFrom(p: Process, wcs: seq<Completion>, source: nat): seq<int>
    requires |p.qpRank| == QPN_HASH_SIZE
  {
    if wcs == [] then []
    else
      (if wcs[0].Received? && p.RankOf(wcs[0].qpNum) == source then [wcs[0].id as int] else [])
      + ArrivedFrom(p, wcs[1..], source)
  }

  /** The length of the last message that arrived in a vbuf, or the one that it had before. */
  ghost function LengthAfter(len: nat, wcs: seq<Completion>, id: nat): nat
    decreases |wcs|
  {
    if wcs == [] then len
    else LengthAfter(if wcs[0].Received? && wcs[0].id == id then wcs[0].byteLen else len, wcs[1..], id)
  }

  /** The completion is for a request that succeeded, or for a message through a queue pair of the table. */
  ghost predicate CanHandle(p: Process, wc: Completion)
    requires |p.qpRank| == QPN_HASH_SIZE
  {
    !wc.Failed? && (wc.Received? ==> p.RankOf(wc.qpNum) >= 0)
  }

  /** The pending queue of a source has room for what arrived from it. */
  ghost predicate RoomFor(p: Process, wcs: seq<Completion>, source: nat)
    requires |p.qpRank| == QPN_HASH_SIZE && source < |p.pendingRecv|
  {
    var ids := ArrivedFrom(p, wcs, source);
    ids == [] || |p.pendingRecv[source]| + |ids| <= RECV_PER_PROCESS
  }

  /** A batch leads out of the process exactly if a completion cannot be handled or a pending queue overflows. */
  lemma {:induction false} BatchRunsIff(p: Process, nprocs: nat, wcs: seq<Completion>)
    requires p.WellFormed(nprocs) && forall i :: 0 <= i < |wcs| ==> InRange(nprocs, wcs[i])
    ensures ProcessBatch(p, nprocs, wcs).Running? <==>
              && (forall i :: 0 <= i < |wcs| ==> CanHandle(p, wcs[i]))
              && (forall source: nat :: source < nprocs ==> RoomFor(p, wcs, source))
    decreases |wcs|
  {
    if wcs != [] {
      var first := ProcessWc(p, nprocs, wcs[0]);
      assert forall i :: 0 < i < |wcs| ==> wcs[i] == wcs[1..][i - 1];
      if first.Running? {
        var q := first.process;
        BatchRunsIff(q, nprocs, wcs[1..]);
        SameTable(p, q, wcs[1..]);
        forall source: nat | source < nprocs ensures RoomFor(p, wcs, source) <==> RoomFor(q, wcs[1..], source) {
        }
        assert (forall i :: 0 <= i < |wcs| ==> CanHandle(p, wcs[i]))
          <==> (forall i :: 0 <= i < |wcs[1..]| ==> CanHandle(q, wcs[1..][i]));
      } else if CanHandle(p, wcs[0]) {
        assert !RoomFor(p, wcs, p.RankOf(wcs[0].qpNum));
      }
    }
  }

  lemma {:induction false} SameTable(p: Process, q: Process, wcs: seq<Completion>)
    requires |p.qpRank| == QPN_HASH_SIZE && q.qpRank == p.qpRank
    ensures forall source: nat :: ArrivedFrom(q, wcs, source) == ArrivedFrom(p, wcs, source)
  {
    if wcs != [] { SameTable(p, q, wcs[1..]); }
  }

  /** A batch lowers the counters by its completions, and leaves the fetched vbufs alone. */
  lemma {:induction false} BatchCounts(p: Process, nprocs: nat, wcs: seq<Completion>, dest: nat)
    requires p.WellFormed(nprocs) && forall i :: 0 <= i < |wcs| ==> InRange(nprocs, wcs[i])
    requires ProcessBatch(p, nprocs, wcs).Running?
    ensures var q := ProcessBatch(p, nprocs, wcs).process;
            && q.pendingSendWr == p.pendingSendWr - Completions(wcs)
            && (dest < nprocs ==> q.qpPendingSendWr[dest] == p.qpPendingSendWr[dest] - Reported(wcs, dest))
            && q.vbufFetched == p.vbufFetched
    decreases |wcs|
  {
    if wcs != [] {
      BatchCounts(ProcessWc(p, nprocs, wcs[0]).process, nprocs, wcs[1..], dest);
    }
  }

  /** It puts what arrived behind what was pending, in order, and records the lengths. */
  lemma {:induction false} BatchFiles(p: Process, nprocs: nat, wcs: seq<Completion>, source: nat, id: nat)
    requires p.WellFormed(nprocs) && source < nprocs && id < PREPOST_DEPTH
    requires forall i :: 0 <= i < |wcs| ==> InRange(nprocs, wcs[i])
    requires ProcessBatch(p, nprocs, wcs).Running?
    ensures var q := ProcessBatch(p, nprocs, wcs).process;
            && q.pendingRecv[source] == p.pendingRecv[source] + ArrivedFrom(p, wcs, source)
            && q.bufBytes[id] == LengthAfter(p.bufBytes[id], wcs, id)
    decreases |wcs|
  {
    if wcs != [] {
      var q := ProcessWc(p, nprocs, wcs[0]).process;
      BatchFiles(q, nprocs, wcs[1..], source, id);
      SameTable(p, q, wcs[1..]);
    }
  }

  /** Two batches one after the other are one batch. */
  lemma {:induction false} BatchConcat(p: Process, nprocs: nat, first: seq<Completion>, second: seq<Completion>)
    requires p.WellFormed(nprocs)
    requires forall i :: 0 <= i < |first| ==> InRange(nprocs, first[i])
    requires forall i :: 0 <= i < |second| ==> InRange(nprocs, second[i])
    ensures ProcessBatch(p, nprocs, first + second)
         == match ProcessBatch(p, nprocs, first)
            case Exited => Exited
            case Running(q) => ProcessBatch(q, nprocs, second)
    decreases |first|
  {
    if first == [] {
      assert first + second == second;
    } else {
      assert (first + second)[1..] == first[1..] + second;
      match ProcessWc(p, nprocs, first[0])
      case Exited =>
      case Running(q) => BatchConcat(q, nprocs, first[1..], second);
    }
  }

  /** The counters after a request was accepted by the send queue of `dest`. */
  function Posted(p: Process, dest: nat): Process
    requires dest < |p.qpPendingSendWr|
  {
    p.(qpPendingSendWr := p.qpPendingSendWr[dest := p.qpPendingSendWr[dest] + 1],
       pendingSendWr := p.pendingSendWr + 1)
  }

  /** The queues after `YMPI_Zrecv` took the oldest vbuf of `source`. */
  function Taken(p: Process, source: nat): Process
    requires source < |p.pendingRecv| && p.pendingRecv[source] != []
  {
    p.(pendingRecv := p.pendingRecv[source := p.pendingRecv[source][1..]],
       vbufFetched := p.vbufFetched + [p.pendingRecv[source][0]])
  }
}
