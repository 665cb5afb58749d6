/**
 The global `ctx` of src/ympi.c and the calls that update it in place, proved
 against the functions on values of YmpiProcess.

 What the completion queue answers to the successive polls of one call is a
 parameter, `polls`: a call that would still be spinning when they are used up
 ends as `Spinning`.
 */
module YmpiContext {
  import opened Common
  import opened PooledQueue
  import opened YmpiProcess

  /** The answer of `ibv_poll_cq`. */
  datatype PollResult = PollError | Batch(wcs: seq<Completion>)

  /** How a call ends: with a return value, by leaving the process, or not yet. */
  datatype Ending = Done(status: int) | Exit | Spinning

  datatype Receipt = Got(bufOffset: int, len: nat) | RecvExit | RecvSpinning

  /**
   What a posting call hands to the network card: `len` bytes from `from` on in the registered buffer, captured at
   once or fetched later, and for the one-sided requests the place on the other side with its key.
   */
  datatype WorkRequest =
    WorkRequest(request: Request, dest: nat, from: nat, len: nat, inline: bool, remote: Option<(nat, nat)>)

  /** A receive posted on the shared queue: the id that its completion brings back, and where the message goes. */
  datatype RecvRequest = RecvRequest(id: int, to: int, len: nat)

  predicate BatchOk(nprocs: nat, poll: PollResult) {
    poll.Batch? ==> |poll.wcs| <= POLL_LIMIT && forall i :: 0 <= i < |poll.wcs| ==> InRange(nprocs, poll.wcs[i])
  }

  predicate PollsOk(nprocs: nat, polls: seq<PollResult>) {
    forall i :: 0 <= i < |polls| ==> BatchOk(nprocs, polls[i])
  }

  predicate AllVbufs(ids: seq<int>) {
    forall id :: id in ids ==> 0 <= id < PREPOST_DEPTH
  }

  // ---- The waiting loops, on values ----

  /** The loop of `YMPI_Zflush`. */
  function FlushLoop(p: Process, nprocs: nat, polls: seq<PollResult>): (r: (Ending, Process))
    requires p.WellFormed(nprocs) && PollsOk(nprocs, polls)
    decreases |polls|
  {
    if p.pendingSendWr <= 0 then (Done(0), p)
    else if polls == [] then (Spinning, p)
    else if polls[0].PollError? then (Exit, p)
    else
      assert BatchOk(nprocs, polls[0]);
      match ProcessBatch(p, nprocs, polls[0].wcs)
      case Exited => (Exit, p)
      case Running(q) => FlushLoop(q, nprocs, polls[1..])
  }

  /** The loop of `YMPI_Zrecv`. */
  function RecvLoop(p: Process, nprocs: nat, polls: seq<PollResult>, source: nat): (r: (Receipt, Process))
    requires p.WellFormed(nprocs) && PollsOk(nprocs, polls) && source < nprocs
    requires AllVbufs(p.pendingRecv[source])
    decreases |polls|
  {
    if p.pendingRecv[source] != [] then
      var id := p.pendingRecv[source][0];
      assert id in p.pendingRecv[source];
      if |p.vbufFetched| >= PREPOST_DEPTH then (RecvExit, p)
      else (Got(Base(id), p.bufBytes[id]), Taken(p, source))
    else if polls == [] then (RecvSpinning, p)
    else if polls[0].PollError? then (RecvExit, p)
    else
      assert BatchOk(nprocs, polls[0]);
      BatchKeepsIds(p, nprocs, polls[0].wcs, source);
      match ProcessBatch(p, nprocs, polls[0].wcs)
      case Exited => (RecvExit, p)
      case Running(q) => RecvLoop(q, nprocs, polls[1..], source)
  }

  /** The pending queue of a source holds only ids of vbufs, whatever is polled. */
  lemma {:induction false} BatchKeepsIds(p: Process, nprocs: nat, wcs: seq<Completion>, source: nat)
    requires p.WellFormed(nprocs) && source < nprocs
    requires forall i :: 0 <= i < |wcs| ==> InRange(nprocs, wcs[i])
    requires AllVbufs(p.pendingRecv[source])
    ensures ProcessBatch(p, nprocs, wcs).Running? ==>
              AllVbufs(ProcessBatch(p, nprocs, wcs).process.pendingRecv[source])
    decreases |wcs|
  {
    if wcs != [] && ProcessWc(p, nprocs, wcs[0]).Running? {
      BatchKeepsIds(ProcessWc(p, nprocs, wcs[0]).process, nprocs, wcs[1..], source);
    }
  }

  // ---- How the waiting loops end, told from the polls ----

  /** What the first `k` polls found. */
  ghost function Found(polls: seq<PollResult>, k: nat): (wcs: seq<Completion>)
    requires k <= |polls|
  {
    if k == 0 then [] else Found(polls, k - 1) + if polls[k - 1].Batch? then polls[k - 1].wcs else []
  }

  lemma {:induction false} FoundInRange(nprocs: nat, polls: seq<PollResult>, k: nat)
    requires PollsOk(nprocs, polls) && k <= |polls|
    ensures forall i :: 0 <= i < |Found(polls, k)| ==> InRange(nprocs, Found(polls, k)[i])
  {
    if k > 0 {
      FoundInRange(nprocs, polls, k - 1);
      assert BatchOk(nprocs, polls[k - 1]);
    }
  }

  /** The process after the first `k` polls. */
  ghost function AfterPolls(p: Process, nprocs: nat, polls: seq<PollResult>, k: nat): (r: Outcome)
    requires p.WellFormed(nprocs) && PollsOk(nprocs, polls) && k <= |polls|
    ensures r.Running? ==> r.process.WellFormed(nprocs)
  {
    FoundInRange(nprocs, polls, k);
    ProcessBatch(p, nprocs, Found(polls, k))
  }

  /** The next poll fails, or finds what the process cannot handle. */
  ghost predicate NextIsFatal(p: Process, nprocs: nat, polls: seq<PollResult>, k: nat)
    requires p.WellFormed(nprocs) && PollsOk(nprocs, polls)
  {
    k < |polls| && (polls[k].PollError? || AfterPolls(p, nprocs, polls, k + 1) == Exited)
  }

  lemma AfterNext(p: Process, nprocs: nat, polls: seq<PollResult>, k: nat)
    requires p.WellFormed(nprocs) && PollsOk(nprocs, polls) && k < |polls| && polls[k].Batch?
    requires AfterPolls(p, nprocs, polls, k).Running?
    ensures forall i :: 0 <= i < |polls[k].wcs| ==> InRange(nprocs, polls[k].wcs[i])
    ensures AfterPolls(p, nprocs, polls, k + 1)
         == ProcessBatch(AfterPolls(p, nprocs, polls, k).process, nprocs, polls[k].wcs)
  {
    hide ProcessBatch;
    assert BatchOk(nprocs, polls[k]);
    FoundInRange(nprocs, polls, k);
    BatchConcat(p, nprocs, Found(polls, k), polls[k].wcs);
  }

  lemma StillPending(p: Process, nprocs: nat, polls: seq<PollResult>, k: nat)
    requires p.WellFormed(nprocs) && PollsOk(nprocs, polls) && k <= |polls|
    requires AfterPolls(p, nprocs, polls, k).Running?
    ensures AfterPolls(p, nprocs, polls, k).process.pendingSendWr == p.pendingSendWr - Completions(Found(polls, k))
  {
    FoundInRange(nprocs, polls, k);
    BatchCounts(p, nprocs, Found(polls, k), 0);
  }

  lemma {:induction false} FlushFrom(p: Process, nprocs: nat, polls: seq<PollResult>, at: nat) returns (k: nat)
    requires p.WellFormed(nprocs) && PollsOk(nprocs, polls) && at <= |polls|
    requires AfterPolls(p, nprocs, polls, at).Running?
    ensures at <= k <= |polls| && AfterPolls(p, nprocs, polls, k).Running?
    ensures forall j :: at <= j < k ==> polls[j].Batch? && Completions(Found(polls, j)) < p.pendingSendWr
    ensures FlushLoop(AfterPolls(p, nprocs, polls, at).process, nprocs, polls[at..])
         == if Completions(Found(polls, k)) >= p.pendingSendWr
            then (Done(0), AfterPolls(p, nprocs, polls, k).process)
            else (if k == |polls| then Spinning else Exit, AfterPolls(p, nprocs, polls, k).process)
    ensures Completions(Found(polls, k)) < p.pendingSendWr && k < |polls| ==> NextIsFatal(p, nprocs, polls, k)
    decreases |polls| - at
  {
    hide ProcessBatch, Found, Completions, AfterPolls, Process.WellFormed;
    k := at;
    StillPending(p, nprocs, polls, at);
    if Completions(Found(polls, at)) < p.pendingSendWr && at < |polls| && polls[at].Batch? {
      AfterNext(p, nprocs, polls, at);
      assert polls[at..][1..] == polls[at + 1..];
      if AfterPolls(p, nprocs, polls, at + 1).Running? {
        k := FlushFrom(p, nprocs, polls, at + 1);
      }
    }
  }

  /**
   A flush returns 0 after the first poll by which it has seen as many completions as there were requests
   pending; it leaves the process exactly on a fatal poll before that, and spins otherwise.
   */
  lemma FlushEnds(p: Process, nprocs: nat, polls: seq<PollResult>) returns (k: nat)
    requires p.WellFormed(nprocs) && PollsOk(nprocs, polls)
    ensures k <= |polls| && AfterPolls(p, nprocs, polls, k).Running?
    ensures forall j :: 0 <= j < k ==> polls[j].Batch? && Completions(Found(polls, j)) < p.pendingSendWr
    ensures FlushLoop(p, nprocs, polls)
         == (if Completions(Found(polls, k)) >= p.pendingSendWr then Done(0)
             else if k == |polls| then Spinning else Exit,
             AfterPolls(p, nprocs, polls, k).process)
    ensures Completions(Found(polls, k)) < p.pendingSendWr && k < |polls| ==> NextIsFatal(p, nprocs, polls, k)
  {
    assert polls[0..] == polls;
    k := FlushFrom(p, nprocs, polls, 0);
  }

  /** What is pending from a source after the first `k` polls, if the process can handle what they found. */
  ghost function PendingAfter(p: Process, polls: seq<PollResult>, k: nat, source: nat): seq<int>
    requires |p.qpRank| == QPN_HASH_SIZE && source < |p.pendingRecv| && k <= |polls|
  {
    p.pendingRecv[source] + ArrivedFrom(p, Found(polls, k), source)
  }

  lemma StillNothing(p: Process, nprocs: nat, polls: seq<PollResult>, k: nat, source: nat)
    requires p.WellFormed(nprocs) && PollsOk(nprocs, polls) && k <= |polls| && source < nprocs
    requires AfterPolls(p, nprocs, polls, k).Running? && AllVbufs(p.pendingRecv[source])
    ensures AfterPolls(p, nprocs, polls, k).process.pendingRecv[source] == PendingAfter(p, polls, k, source)
    ensures AfterPolls(p, nprocs, polls, k).process.vbufFetched == p.vbufFetched
    ensures AllVbufs(PendingAfter(p, polls, k, source))
    ensures forall id: nat :: id < PREPOST_DEPTH ==>
              AfterPolls(p, nprocs, polls, k).process.bufBytes[id]
              == LengthAfter(p.bufBytes[id], Found(polls, k), id)
  {
    hide ProcessBatch, Completions, ArrivedFrom, LengthAfter, Found;
    FoundInRange(nprocs, polls, k);
    BatchCounts(p, nprocs, Found(polls, k), 0);
    forall id: nat | id < PREPOST_DEPTH
      ensures AfterPolls(p, nprocs, polls, k).process.bufBytes[id]
              == LengthAfter(p.bufBytes[id], Found(polls, k), id)
    {
      BatchFiles(p, nprocs, Found(polls, k), source, id);
    }
    BatchFiles(p, nprocs, Found(polls, k), source, 0);
    BatchKeepsIds(p, nprocs, Found(polls, k), source);
  }

  /**
   The end of a receive after `k` polls: the oldest pending vbuf with the length that was recorded for it, unless
   there is no room to note it down.
   */
  ghost function RecvEnd(p: Process, nprocs: nat, polls: seq<PollResult>, source: nat, k: nat): (Receipt, Process)
    requires p.WellFormed(nprocs) && PollsOk(nprocs, polls) && source < nprocs && k <= |polls|
    requires AfterPolls(p, nprocs, polls, k).Running? && AllVbufs(p.pendingRecv[source])
  {
    StillNothing(p, nprocs, polls, k, source);
    var q, ids := AfterPolls(p, nprocs, polls, k).process, PendingAfter(p, polls, k, source);
    if ids == [] then (if k == |polls| then RecvSpinning else RecvExit, q)
    else if |p.vbufFetched| >= PREPOST_DEPTH then (RecvExit, q)
    else
      assert ids[0] in ids;
      (Got(ids[0] * VBUF_BYTES, LengthAfter(p.bufBytes[ids[0]], Found(polls, k), ids[0])),
       q.(pendingRecv := q.pendingRecv[source := ids[1..]], vbufFetched := p.vbufFetched + [ids[0]]))
  }

  lemma RecvAt(p: Process, nprocs: nat, polls: seq<PollResult>, source: nat, k: nat)
    requires p.WellFormed(nprocs) && PollsOk(nprocs, polls) && source < nprocs && k <= |polls|
    requires AllVbufs(p.pendingRecv[source]) && AfterPolls(p, nprocs, polls, k).Running?
    requires PendingAfter(p, polls, k, source) != [] || k == |polls| || NextIsFatal(p, nprocs, polls, k)
    ensures AllVbufs(AfterPolls(p, nprocs, polls, k).process.pendingRecv[source])
    ensures RecvLoop(AfterPolls(p, nprocs, polls, k).process, nprocs, polls[k..], source)
         == RecvEnd(p, nprocs, polls, source, k)
  {
    hide ProcessBatch, Found, AfterPolls, PendingAfter, LengthAfter;
    StillNothing(p, nprocs, polls, k, source);
    var q, ids := AfterPolls(p, nprocs, polls, k).process, PendingAfter(p, polls, k, source);
    assert q.pendingRecv[source] == ids;
    if ids != [] {
      assert ids[0] in ids;
      var id: nat := ids[0];
      assert q.bufBytes[id] == LengthAfter(p.bufBytes[id], Found(polls, k), id);
    } else if k < |polls| && polls[k].Batch? {
      AfterNext(p, nprocs, polls, k);
    }
  }

  lemma {:induction false} RecvFrom(p: Process, nprocs: nat, polls: seq<PollResult>, source: nat, at: nat)
    returns (k: nat)
    requires p.WellFormed(nprocs) && PollsOk(nprocs, polls) && source < nprocs && at <= |polls|
    requires AllVbufs(p.pendingRecv[source]) && AfterPolls(p, nprocs, polls, at).Running?
    ensures at <= k <= |polls| && AfterPolls(p, nprocs, polls, k).Running?
    ensures forall j :: at <= j < k ==> polls[j].Batch? && PendingAfter(p, polls, j, source) == []
    ensures AllVbufs(PendingAfter(p, polls, k, source))
    ensures AllVbufs(AfterPolls(p, nprocs, polls, at).process.pendingRecv[source])
    ensures RecvLoop(AfterPolls(p, nprocs, polls, at).process, nprocs, polls[at..], source)
         == RecvEnd(p, nprocs, polls, source, k)
    ensures PendingAfter(p, polls, k, source) == [] && k < |polls| ==> NextIsFatal(p, nprocs, polls, k)
    decreases |polls| - at
  {
    hide ProcessBatch, Found, AfterPolls, PendingAfter, AllVbufs, LengthAfter;
    StillNothing(p, nprocs, polls, at, source);
    if PendingAfter(p, polls, at, source) == [] && at < |polls| && polls[at].Batch? {
      AfterNext(p, nprocs, polls, at);
      assert polls[at..][1..] == polls[at + 1..];
      if AfterPolls(p, nprocs, polls, at + 1).Running? {
        k := RecvFrom(p, nprocs, polls, source, at + 1);
        return;
      }
    }
    k := at;
    RecvAt(p, nprocs, polls, source, at);
  }

  /**
   A receive ends after the first poll by which a vbuf of the source is pending; it leaves the process exactly
   on a fatal poll before that or without room for the vbuf, and spins otherwise.
   */
  lemma RecvEnds(p: Process, nprocs: nat, polls: seq<PollResult>, source: nat) returns (k: nat)
    requires p.WellFormed(nprocs) && PollsOk(nprocs, polls) && source < nprocs && AllVbufs(p.pendingRecv[source])
    ensures k <= |polls| && AfterPolls(p, nprocs, polls, k).Running?
    ensures forall j :: 0 <= j < k ==> polls[j].Batch? && PendingAfter(p, polls, j, source) == []
    ensures RecvLoop(p, nprocs, polls, source) == RecvEnd(p, nprocs, polls, source, k)
    ensures PendingAfter(p, polls, k, source) == [] && k < |polls| ==> NextIsFatal(p, nprocs, polls, k)
  {
    assert polls[0..] == polls;
    k := RecvFrom(p, nprocs, polls, source, 0);
  }

  /** The first poll that does not come back empty. */
  function FirstAnswer(polls: seq<PollResult>): (k: nat)
    ensures k <= |polls|
    ensures forall i :: 0 <= i < k ==> polls[i] == Batch([])
    ensures k < |polls| ==> polls[k] != Batch([])
  {
    if polls == [] || polls[0] != Batch([]) then 0 else 1 + FirstAnswer(polls[1..])
  }

  /** The common end of `YMPI_Zsend`, `YMPI_Write` and `YMPI_Read` once a request was accepted. */
  function Throttle(p: Process, nprocs: nat, dest: nat, polls: seq<PollResult>): (r: (Ending, Process))
    requires p.WellFormed(nprocs) && PollsOk(nprocs, polls) && dest < nprocs
  {
    if p.qpPendingSendWr[dest] != MAX_SEND_WR_PER_QP then (Done(0), p)
    else
      var k := FirstAnswer(polls);
      if k == |polls| then (Spinning, p)
      else if polls[k].PollError? then (Done(0), p)
      else
        assert BatchOk(nprocs, polls[k]);
        match ProcessBatch(p, nprocs, polls[k].wcs)
        case Exited => (Exit, p)
        case Running(q) => (Done(0), q)
  }

  // ---- The context ----

  ghost function Parts(q: VbufQueue): set<object> {
    {q, q.elem, q.next}
  }

  /** The counters, lengths and queues of a fresh process. */
  ghost function InitialProcess(nprocs: nat, qpRank: seq<int>): Process {
    Process(qpRank, 0, seq(nprocs, _ => 0), seq(PREPOST_DEPTH, _ => 0), seq(nprocs, _ => []),
            seq(PREPOST_DEPTH, i => i))
  }

  lemma InitialProcessOk(nprocs: nat, qpRank: seq<int>)
    requires |qpRank| == QPN_HASH_SIZE
    requires forall k :: 0 <= k < |qpRank| ==> qpRank[k] < nprocs
    ensures InitialProcess(nprocs, qpRank).WellFormed(nprocs)
    ensures AllVbufs(InitialProcess(nprocs, qpRank).vbufFetched) && AllVbufs([])
  {
  }

  method CreateQueues(nprocs: nat) returns (queues: seq<VbufQueue>)
    ensures |queues| == nprocs
    ensures forall i :: 0 <= i < nprocs ==>
              && queues[i].Valid() && queues[i].capacity == RECV_PER_PROCESS && queues[i].Contents() == []
              && fresh(Parts(queues[i]))
    ensures forall i, j :: 0 <= i < j < nprocs ==> Parts(queues[i]) !! Parts(queues[j])
  {
    hide VbufQueue.Valid, VbufQueue.Contents;
    queues := [];
    for k := 0 to nprocs
      invariant |queues| == k
      invariant forall i :: 0 <= i < k ==>
                  && queues[i].Valid() && queues[i].capacity == RECV_PER_PROCESS && queues[i].Contents() == []
                  && fresh(Parts(queues[i]))
      invariant forall i, j :: 0 <= i < j < k ==> Parts(queues[i]) !! Parts(queues[j])
    {
      var q := new VbufQueue.Init(RECV_PER_PROCESS);
      queues := queues + [q];
    }
  }

  method CreateFetched() returns (q: VbufQueue)
    ensures q.Valid() && q.capacity == PREPOST_DEPTH && fresh(Parts(q))
    ensures q.Contents() == seq(PREPOST_DEPTH, i => i)
  {
    q := new VbufQueue.Init(PREPOST_DEPTH);
    for k := 0 to PREPOST_DEPTH
      invariant q.Valid() && q.capacity == PREPOST_DEPTH && fresh(Parts(q))
      invariant q.Contents() == seq(k, i => i)
    {
      var ok := q.Enqueue(k);
    }
  }

  class Context {
    const nprocs: nat
    const qpRank: array<int>
    var pendingSendWr: int
    const qpPendingSendWr: array<int>
    const bufBytes: array<nat>
    const pendingRecv: seq<VbufQueue>
    const vbufFetched: VbufQueue

    // The values of all of this.
    ghost var model: Process

    ghost function Footprint(): set<object> {
      {this, qpRank, qpPendingSendWr, bufBytes} + Parts(vbufFetched)
      + (set i, o | 0 <= i < |pendingRecv| && o in Parts(pendingRecv[i]) :: o)
    }

    ghost predicate Separate() {
      && qpRank != qpPendingSendWr && qpRank as object != bufBytes && qpPendingSendWr as object != bufBytes
      && Parts(vbufFetched) !! {this, qpRank, qpPendingSendWr, bufBytes}
      && (forall i :: 0 <= i < |pendingRecv| ==>
            Parts(pendingRecv[i]) !! {this, qpRank, qpPendingSendWr, bufBytes} + Parts(vbufFetched))
      && (forall i, j :: 0 <= i < j < |pendingRecv| ==> Parts(pendingRecv[i]) !! Parts(pendingRecv[j]))
    }

    ghost predicate QueueOk(i: int)
      requires 0 <= i < |pendingRecv|
      reads this, Parts(pendingRecv[i])
    {
      && pendingRecv[i].Valid()
      && pendingRecv[i].capacity == RECV_PER_PROCESS
      && i < |model.pendingRecv| && model.pendingRecv[i] == pendingRecv[i].Contents()
      && AllVbufs(model.pendingRecv[i])
    }

    ghost predicate Valid()
      reads Footprint()
    {
      && Separate()
      && model.WellFormed(nprocs)
      && model.qpRank == qpRank[..]
      && model.pendingSendWr == pendingSendWr
      && model.qpPendingSendWr == qpPendingSendWr[..]
      && model.bufBytes == bufBytes[..]
      && |pendingRecv| == nprocs
      && (forall i :: 0 <= i < |pendingRecv| ==> QueueOk(i))
      && vbufFetched.Valid()
      && vbufFetched.capacity == PREPOST_DEPTH
      && model.vbufFetched == vbufFetched.Contents()
      && AllVbufs(model.vbufFetched)
    }

    /**
     `YMPID_Context_create`: empty pending queues, and every vbuf in `vbuf_fetched`, to be posted by the first
     return.
     */
    constructor (nprocs: nat, table: array<int>)
      requires table.Length == QPN_HASH_SIZE
      requires forall k :: 0 <= k < table.Length ==> table[k] < nprocs
      ensures Valid()
      ensures this.nprocs == nprocs && qpRank == table
      ensures model == InitialProcess(nprocs, table[..])
    {
      hide VbufQueue.Valid, VbufQueue.Contents, AllVbufs, Process.WellFormed;
      InitialProcessOk(nprocs, table[..]);
      this.nprocs := nprocs;
      qpRank := table;
      pendingSendWr := 0;
      qpPendingSendWr := new int[nprocs](_ => 0);
      bufBytes := new nat[PREPOST_DEPTH](_ => 0);
      var queues := CreateQueues(nprocs);
      pendingRecv := queues;
      var fetched := CreateFetched();
      vbufFetched := fetched;
      model := InitialProcess(nprocs, table[..]);
      new;
      assert Separate();
      assert forall i :: 0 <= i < |pendingRecv| ==> QueueOk(i);
    }

    /** The counters of `process_wc` for a completed request. */
    method SettleCredit(dest: nat)
      requires Valid() && dest < nprocs
      modifies this, qpPendingSendWr
      ensures Valid()
      ensures model == old(model).(pendingSendWr := old(model).pendingSendWr - 1,
                                   qpPendingSendWr :=
                                     old(model).qpPendingSendWr[dest := old(model).qpPendingSendWr[dest] - 1])
    {
      qpPendingSendWr[dest] := qpPendingSendWr[dest] - 1;
      pendingSendWr := pendingSendWr - 1;
      model := model.(pendingSendWr := pendingSendWr, qpPendingSendWr := qpPendingSendWr[..]);
      forall i | 0 <= i < |pendingRecv| ensures QueueOk(i) {
        assert old(QueueOk(i));
      }
    }

    /** The queues of `process_wc` for an arrived message; the answer is false when the pending queue is full. */
    method FileVbuf(source: nat, id: nat, byteLen: nat) returns (ok: bool)
      requires Valid() && source < nprocs && id < PREPOST_DEPTH
      modifies this, bufBytes, Parts(pendingRecv[source])
      ensures ok == (|old(model).pendingRecv[source]| < RECV_PER_PROCESS)
      ensures ok ==> Valid()
      ensures ok ==> model == old(model).(bufBytes := old(model).bufBytes[id := byteLen],
                                          pendingRecv :=
                                            old(model).pendingRecv[source := old(model).pendingRecv[source] + [id]])
    {
      hide VbufQueue.Valid, VbufQueue.Contents;
      assert QueueOk(source);
      ghost var before := model;
      bufBytes[id] := byteLen;
      ok := pendingRecv[source].Enqueue(id);
      if ok {
        model := before.(bufBytes := bufBytes[..],
                         pendingRecv := before.pendingRecv[source := before.pendingRecv[source] + [id]]);
        forall i | 0 <= i < |pendingRecv| ensures QueueOk(i) {
          assert old(QueueOk(i));
        }
      }
    }

    /** `process_wc`; the answer is false when the process would exit. */
    method HandleCompletion(wc: Completion) returns (ok: bool)
      requires Valid() && InRange(nprocs, wc)
      modifies Footprint()
      ensures ok <==> ProcessWc(old(model), nprocs, wc).Running?
      ensures ok ==> Valid() && model == ProcessWc(old(model), nprocs, wc).process
    {
      match wc {
        case Failed =>
          ok := false;
        case Completed(_, dest) =>
          SettleCredit(dest);
          ok := true;
        case Received(id, qpNum, byteLen) =>
          var source := qpRank[qpNum % QPN_HASH_SIZE];
          assert source == model.RankOf(qpNum);
          if source < 0 {
            return false;
          }
          ok := FileVbuf(source, id, byteLen);
      }
    }

    /** The loop over the completions of one poll. */
    method HandleBatch(wcs: seq<Completion>) returns (ok: bool)
      requires Valid()
      requires forall i :: 0 <= i < |wcs| ==> InRange(nprocs, wcs[i])
      modifies Footprint()
      ensures ok <==> ProcessBatch(old(model), nprocs, wcs).Running?
      ensures ok ==> Valid() && model == ProcessBatch(old(model), nprocs, wcs).process
    {
      for i := 0 to |wcs|
        invariant Valid()
        invariant ProcessBatch(model, nprocs, wcs[i..]) == ProcessBatch(old(model), nprocs, wcs)
      {
        assert wcs[i..][1..] == wcs[i + 1..];
        ok := HandleCompletion(wcs[i]);
        if !ok {
          return;
        }
      }
      ok := true;
    }

    /** `YMPI_Zflush` */
    method Zflush(polls: seq<PollResult>) returns (ending: Ending)
      requires Valid() && PollsOk(nprocs, polls)
      modifies Footprint()
      ensures ending == FlushLoop(old(model), nprocs, polls).0
      ensures old(model).pendingSendWr <= 0 ==> ending == Done(0) && model == old(model)
      ensures ending != Exit ==> (ending == Done(0) <==> model.pendingSendWr <= 0)
      ensures ending != Exit ==> Valid() && model == FlushLoop(old(model), nprocs, polls).1
    {
      var i := 0;
      while pendingSendWr > 0
        invariant i <= |polls| && Valid()
        invariant FlushLoop(model, nprocs, polls[i..]) == FlushLoop(old(model), nprocs, polls)
        decreases |polls| - i
      {
        if i == |polls| {
          return Spinning;
        }
        assert BatchOk(nprocs, polls[i]);
        assert polls[i..][1..] == polls[i + 1..];
        match polls[i] {
          case PollError => return Exit;
          case Batch(wcs) =>
            var ok := HandleBatch(wcs);
            if !ok {
              return Exit;
            }
        }
        i := i + 1;
      }
      ending := Done(0);
    }

    method DropPending(source: nat) returns (id: int)
      requires Valid() && source < nprocs
      modifies this, Parts(pendingRecv[source])
      ensures Valid()
      ensures old(model).pendingRecv[source] == [] ==> id == ZERO_VALUE && model == old(model)
      ensures old(model).pendingRecv[source] != [] ==>
                && id == old(model).pendingRecv[source][0] && 0 <= id < PREPOST_DEPTH
                && model == old(model).(pendingRecv :=
                                          old(model).pendingRecv[source := old(model).pendingRecv[source][1..]])
    {
      hide VbufQueue.Valid, VbufQueue.Contents;
      assert QueueOk(source);
      ghost var q := model.pendingRecv[source];
      assert q != [] ==> q[0] in q && forall id :: id in q[1..] ==> id in q;
      id := pendingRecv[source].Dequeue();
      if id != ZERO_VALUE {
        model := model.(pendingRecv := model.pendingRecv[source := q[1..]]);
      }
      forall i | 0 <= i < |pendingRecv| ensures QueueOk(i) {
        assert old(QueueOk(i));
      }
    }

    method PushFetched(id: int) returns (ok: bool)
      requires Valid() && 0 <= id < PREPOST_DEPTH
      modifies this, Parts(vbufFetched)
      ensures ok == (|old(model).vbufFetched| < PREPOST_DEPTH)
      ensures ok ==> Valid() && model == old(model).(vbufFetched := old(model).vbufFetched + [id])
    {
      hide VbufQueue.Valid, VbufQueue.Contents;
      ok := vbufFetched.Enqueue(id);
      if ok {
        model := model.(vbufFetched := model.vbufFetched + [id]);
        forall i | 0 <= i < |pendingRecv| ensures QueueOk(i) {
          assert old(QueueOk(i));
        }
      }
    }

    /** One round of `YMPI_Zrecv`: move the oldest pending vbuf of the source, if any, to `vbuf_fetched`. */
    method TakeVbuf(source: nat) returns (id: int, ok: bool)
      requires Valid() && source < nprocs
      modifies Footprint()
      ensures old(model).pendingRecv[source] == [] ==> id == ZERO_VALUE && ok && Valid() && model == old(model)
      ensures old(model).pendingRecv[source] != [] ==>
                && id == old(model).pendingRecv[source][0] && 0 <= id < PREPOST_DEPTH
                && ok == (|old(model).vbufFetched| < PREPOST_DEPTH)
                && (ok ==> Valid() && model == Taken(old(model), source))
    {
      hide VbufQueue.Valid, VbufQueue.Contents, QueueOk, Separate;
      id := DropPending(source);
      ok := true;
      if id != ZERO_VALUE {
        ok := PushFetched(id);
      }
    }

    lemma PendingAreVbufs(source: nat)
      requires Valid() && source < nprocs
      ensures AllVbufs(model.pendingRecv[source])
    {
      assert QueueOk(source);
    }

    /** `YMPI_Zrecv` */
    method Zrecv(source: nat, polls: seq<PollResult>) returns (r: Receipt)
      requires Valid() && source < nprocs && PollsOk(nprocs, polls)
      modifies Footprint()
      ensures AllVbufs(old(model).pendingRecv[source])
      ensures r == RecvLoop(old(model), nprocs, polls, source).0
      ensures !r.RecvExit? ==> Valid() && model == RecvLoop(old(model), nprocs, polls, source).1
    {
      hide VbufQueue.Valid, VbufQueue.Contents, QueueOk, Separate;
      PendingAreVbufs(source);
      var i := 0;
      while true
        invariant i <= |polls| && Valid()
        invariant AllVbufs(model.pendingRecv[source])
        invariant RecvLoop(model, nprocs, polls[i..], source) == RecvLoop(old(model), nprocs, polls, source)
        decreases |polls| - i
      {
        var id, ok := TakeVbuf(source);
        if id != ZERO_VALUE {
          if !ok {
            return RecvExit;
          }
          assert |bufBytes[..]| == PREPOST_DEPTH;
          return Got(Base(id), bufBytes[id]);
        }
        if i == |polls| {
          return RecvSpinning;
        }
        assert BatchOk(nprocs, polls[i]);
        assert polls[i..][1..] == polls[i + 1..];
        match polls[i] {
          case PollError => return RecvExit;
          case Batch(wcs) =>
            ok := HandleBatch(wcs);
            if !ok {
              return RecvExit;
            }
        }
        PendingAreVbufs(source);
        i := i + 1;
      }
    }

    /**
     `YMPI_Zsend`, `YMPI_Write` and `YMPI_Read`, which differ only in the request they post; `target` is the place
     on the other side with its key.  `size` is the length of the registered buffer, `connected` whether the queue
     pair of `dest` exists, `accepted` whether the network card takes the request.
     */
    method Post(request: Request, size: nat, offset: nat, bytes: nat, dest: nat, target: (nat, nat), maxInline: nat,
                connected: bool, accepted: bool, polls: seq<PollResult>)
      returns (ending: Ending, handed: seq<WorkRequest>)
      requires Valid() && dest < nprocs && PollsOk(nprocs, polls)
      modifies Footprint()
      ensures offset + bytes > size || !connected ==> ending == Exit && handed == []
      ensures offset + bytes <= size && connected ==>
                && |handed| == 1 && handed[0].request == request && handed[0].dest == dest
                && handed[0].from == offset && handed[0].len == bytes
                && (handed[0].inline <==> bytes < maxInline && !request.Read?)
                && handed[0].remote == if request.Send? then None else Some(target)
      ensures offset + bytes <= size && connected && !accepted ==> ending == Done(-1) && Valid() && model == old(model)
      ensures offset + bytes <= size && connected && accepted ==>
                && ending == Throttle(Posted(old(model), dest), nprocs, dest, polls).0
                && (ending != Exit ==> Valid() && model == Throttle(Posted(old(model), dest), nprocs, dest, polls).1)
    {
      if offset + bytes > size || !connected {
        return Exit, [];
      }
      var inline := match request case Read => false case _ => bytes < maxInline;
      var remote := match request case Send => None case _ => Some(target);
      handed := [WorkRequest(request, dest, offset, bytes, inline, remote)];
      if !accepted {
        return Done(-1), handed;
      }
      TakeCredit(dest);
      if qpPendingSendWr[dest] == MAX_SEND_WR_PER_QP {
        ending := PollOnce(polls);
      } else {
        ending := Done(0);
      }
    }

    /** The counters for an accepted request. */
    method TakeCredit(dest: nat)
      requires Valid() && dest < nprocs
      modifies this, qpPendingSendWr
      ensures Valid() && model == Posted(old(model), dest)
    {
      qpPendingSendWr[dest] := qpPendingSendWr[dest] + 1;
      pendingSendWr := pendingSendWr + 1;
      model := Posted(model, dest);
      forall i | 0 <= i < |pendingRecv| ensures QueueOk(i) {
        assert old(QueueOk(i));
      }
    }

    /** Poll until something comes back, and process it. */
    method PollOnce(polls: seq<PollResult>) returns (ending: Ending)
      requires Valid() && PollsOk(nprocs, polls)
      modifies Footprint()
      ensures var k := FirstAnswer(polls);
              if k == |polls| then ending == Spinning && Valid() && model == old(model)
              else if polls[k].PollError? then ending == Done(0) && Valid() && model == old(model)
              else
                assert BatchOk(nprocs, polls[k]);
                match ProcessBatch(old(model), nprocs, polls[k].wcs)
                case Exited => ending == Exit
                case Running(q) => ending == Done(0) && Valid() && model == q
    {
      var i := 0;
      while i < |polls| && polls[i] == Batch([])
        invariant i <= |polls|
        invariant FirstAnswer(polls) == i + FirstAnswer(polls[i..])
      {
        assert polls[i..][1..] == polls[i + 1..];
        i := i + 1;
      }
      if i == |polls| {
        return Spinning;
      }
      assert BatchOk(nprocs, polls[i]);
      match polls[i] {
        case PollError => ending := Done(0);
        case Batch(wcs) =>
          var ok := HandleBatch(wcs);
          ending := if ok then Done(0) else Exit;
      }
    }

    /**
     `YMPID_Return`: post every fetched vbuf to the shared receive queue, which has `room` free places.
     A post that is refused ends the call, and its vbuf is in neither place any more.
     */
    method Return(room: nat) returns (status: int, posted: seq<RecvRequest>)
      requires Valid()
      modifies this, Parts(vbufFetched)
      ensures Valid()
      ensures var fetched := old(model).vbufFetched;
              && |posted| <= |fetched|
              && (forall i :: 0 <= i < |posted| ==>
                    posted[i] == RecvRequest(fetched[i], fetched[i] * VBUF_BYTES, VBUF_BYTES))
              && if |fetched| <= room
                 then status == 0 && |posted| == |fetched| && model == old(model).(vbufFetched := [])
                 else status != 0 && |posted| == room && model == old(model).(vbufFetched := fetched[room + 1..])
    {
      hide VbufQueue.Valid, VbufQueue.Contents, QueueOk, Separate;
      ghost var fetched := model.vbufFetched;
      posted := [];
      var id := DropFetched();
      while id != ZERO_VALUE
        invariant Valid()
        invariant |posted| <= room && |posted| <= |fetched|
        invariant forall i :: 0 <= i < |posted| ==>
                    posted[i] == RecvRequest(fetched[i], fetched[i] * VBUF_BYTES, VBUF_BYTES)
        invariant model == old(model).(vbufFetched := model.vbufFetched)
        invariant id == ZERO_VALUE ==> |posted| == |fetched| && model.vbufFetched == []
        invariant id != ZERO_VALUE ==>
                    && |posted| < |fetched| && fetched[|posted|] == id
                    && model.vbufFetched == fetched[|posted| + 1..]
        decreases |fetched| - |posted|, id != ZERO_VALUE
      {
        if |posted| == room {
          return -1, posted;
        }
        posted := posted + [RecvRequest(id, Base(id), VBUF_BYTES)];
        id := DropFetched();
      }
      status := 0;
    }

    method DropFetched() returns (id: int)
      requires Valid()
      modifies this, Parts(vbufFetched)
      ensures Valid()
      ensures old(model).vbufFetched == [] ==> id == ZERO_VALUE && model == old(model)
      ensures old(model).vbufFetched != [] ==>
                && id == old(model).vbufFetched[0] && id != ZERO_VALUE
                && model == old(model).(vbufFetched := old(model).vbufFetched[1..])
    {
      hide VbufQueue.Valid, VbufQueue.Contents;
      ghost var q := model.vbufFetched;
      assert q != [] ==> q[0] in q && forall id :: id in q[1..] ==> id in q;
      id := vbufFetched.Dequeue();
      model := model.(vbufFetched := if model.vbufFetched == [] then [] else model.vbufFetched[1..]);
      forall i | 0 <= i < |pendingRecv| ensures QueueOk(i) {
        assert old(QueueOk(i));
      }
    }
  }
}
