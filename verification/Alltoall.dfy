/**
 The all-to-all exchange by one-sided writes (YMPI_Alltoall_write and
 YMPI_Alltoall_write_ptr of src/ympi.c): the rotating loop that posts the writes,
 and the step system of all ranks.  A write is refused when the send queue is full,
 and the loop does not notice; every byte of an accepted write may reach its target
 at any time until the write is reported; the flush looks at the counters only.
 */
module Alltoall {
  import YmpiProcess

  import opened Common

  /** One `YMPI_Write`: `len` bytes from `from` in the send buffer to `to` in the receive buffer of `dest`. */
  datatype Request = Request(dest: nat, from: nat, to: nat, len: nat)

  lemma ModOnce(x: nat, n: nat)
    requires x < n + n
    ensures x % n == if x < n then x else x - n
  {
    if x >= n { assert x == n * 1 + (x - n); }
  }

  /** The rank that gets the k-th write of `rank`. */
  function Target(rank: nat, n: nat, k: nat): (dst: nat)
    requires rank < n && k < n
    ensures dst < n
    ensures dst == if rank + 1 + k < n then rank + 1 + k else rank + 1 + k - n
  {
    ModOnce(rank + 1 + k, n);
    (rank + 1 + k) % n
  }

  /** The turn in which `rank` writes to `dst`. */
  function Turn(rank: nat, n: nat, dst: nat): (k: nat)
    requires rank < n && dst < n && dst != rank
    ensures k < n - 1
  {
    if dst > rank then dst - rank - 1 else dst + n - rank - 1
  }

  /** In n - 1 turns the loop writes to every other rank exactly once, and never to itself. */
  lemma EveryOtherRankOnce(rank: nat, n: nat, dst: nat, k: nat)
    requires rank < n && dst < n && k < n
    ensures dst != rank ==> (Target(rank, n, k) == dst <==> k == Turn(rank, n, dst))
    ensures Target(rank, n, k) == rank <==> k == n - 1
  {
  }

  /** The place of byte `b` of a block in a buffer of blocks. */
  function At(block: nat, size: nat, b: nat): nat {
    block * size + b
  }

  function RowRequest(rank: nat, n: nat, size: nat, k: nat): Request
    requires rank < n && k < n
  {
    var dst := Target(rank, n, k);
    Request(dst, dst * size, rank * size, size)
  }

  lemma BlockInBounds(i: nat, n: nat, size: nat)
    requires i < n
    ensures i * size + size <= n * size
  {
    assert (i + 1) * size <= n * size;
  }

  lemma BlockApart(i: nat, j: nat, size: nat)
    requires i < j
    ensures i * size + size <= j * size
  {
    BlockInBounds(i, j, size);
  }

  /** A block lies inside a buffer of the given length. */
  ghost predicate Fits(block: nat, size: nat, bytes: nat) {
    block * size + size <= bytes
  }

  /** The writes that the card takes among the first `tries` of the loop. */
  function RowTaken(rank: nat, n: nat, size: nat, accepted: seq<bool>, tries: nat): seq<Request>
    requires rank < n && tries <= n - 1 <= |accepted|
  {
    if tries == 0 then []
    else
      RowTaken(rank, n, size, accepted, tries - 1)
      + if accepted[tries - 1] then [RowRequest(rank, n, size, tries - 1)] else []
  }

  /** A rank gets its whole block, and nothing else, exactly if the card took the write of its turn. */
  lemma {:induction false} WrittenExactly(rank: nat, n: nat, size: nat, accepted: seq<bool>, tries: nat, dst: nat)
    requires rank < n && tries <= n - 1 <= |accepted| && dst < n && dst != rank
    ensures Request(dst, dst * size, rank * size, size) in RowTaken(rank, n, size, accepted, tries)
            <==> Turn(rank, n, dst) < tries && accepted[Turn(rank, n, dst)]
    ensures forall r :: r in RowTaken(rank, n, size, accepted, tries) && r.dest == dst ==>
              r == Request(dst, dst * size, rank * size, size)
  {
    if tries > 0 {
      WrittenExactly(rank, n, size, accepted, tries - 1, dst);
      EveryOtherRankOnce(rank, n, dst, tries - 1);
      EveryOtherRankOnce(rank, n, dst, Turn(rank, n, dst));
    }
  }

  ghost predicate InTurn(rank: nat, n: nat, tries: nat, rs: seq<Request>)
    requires rank < n
  {
    && (forall i :: 0 <= i < |rs| ==> OtherRank(rank, n, rs[i].dest) && Turn(rank, n, rs[i].dest) < tries)
    && (forall i, j :: 0 <= i < j < |rs| ==> Turn(rank, n, rs[i].dest) < Turn(rank, n, rs[j].dest))
  }

  lemma InTurnNext(rank: nat, n: nat, tries: nat, rs: seq<Request>, r: Request)
    requires rank < n && InTurn(rank, n, tries, rs) && OtherRank(rank, n, r.dest) && Turn(rank, n, r.dest) == tries
    ensures InTurn(rank, n, tries + 1, rs + [r])
  {
    hide Turn;
  }

  /** The requests go to other ranks, in the order of their turns, and to none of them twice. */
  lemma {:induction false} RowInTurn(rank: nat, n: nat, size: nat, accepted: seq<bool>, tries: nat)
    requires rank < n && tries <= n - 1 <= |accepted|
    ensures InTurn(rank, n, tries, RowTaken(rank, n, size, accepted, tries))
  {
    hide Turn, Target;
    if tries > 0 {
      var before, w := RowTaken(rank, n, size, accepted, tries - 1), RowRequest(rank, n, size, tries - 1);
      RowInTurn(rank, n, size, accepted, tries - 1);
      EveryOtherRankOnce(rank, n, rank, tries - 1);
      EveryOtherRankOnce(rank, n, w.dest, tries - 1);
      InTurnNext(rank, n, tries - 1, before, w);
      assert RowTaken(rank, n, size, accepted, tries) == if accepted[tries - 1] then before + [w] else before;
    }
  }

  predicate OtherRank(rank: nat, n: nat, dst: nat) {
    dst < n && dst != rank
  }

  /** The card has exactly the writes that it took: whole blocks, in turn, each to the place that waits for it. */
  ghost predicate PostedExactly(rank: nat, n: nat, size: nat, accepted: seq<bool>, tries: nat, requests: seq<Request>)
    requires rank < n && tries <= n - 1 <= |accepted|
  {
    && (forall dst: nat :: OtherRank(rank, n, dst) ==>
          (Request(dst, dst * size, rank * size, size) in requests
           <==> Turn(rank, n, dst) < tries && accepted[Turn(rank, n, dst)]))
    && (forall i :: 0 <= i < |requests| ==>
          requests[i] == Request(requests[i].dest, requests[i].dest * size, rank * size, size))
    && InTurn(rank, n, tries, requests)
  }

  lemma RowIsPostedExactly(rank: nat, n: nat, size: nat, accepted: seq<bool>, tries: nat)
    requires rank < n && tries <= n - 1 <= |accepted|
    ensures PostedExactly(rank, n, size, accepted, tries, RowTaken(rank, n, size, accepted, tries))
  {
    hide Turn, RowTaken;
    var rs := RowTaken(rank, n, size, accepted, tries);
    RowInTurn(rank, n, size, accepted, tries);
    forall dst: nat | OtherRank(rank, n, dst)
      ensures Request(dst, dst * size, rank * size, size) in rs
              <==> Turn(rank, n, dst) < tries && accepted[Turn(rank, n, dst)]
      ensures forall r :: r in rs && r.dest == dst ==> r == Request(dst, dst * size, rank * size, size)
    {
      WrittenExactly(rank, n, size, accepted, tries, dst);
    }
  }

  lemma RowNext(rank: nat, n: nat, size: nat, accepted: seq<bool>, tries: nat)
    requires rank < n && tries + 1 <= n - 1 <= |accepted|
    ensures RowTaken(rank, n, size, accepted, tries + 1)
         == RowTaken(rank, n, size, accepted, tries)
            + if accepted[tries] then [RowRequest(rank, n, size, tries)] else []
  {
  }

  lemma NextTarget(rank: nat, n: nat, tries: nat)
    requires rank < n && tries + 1 < n
    ensures (Target(rank, n, tries) + 1) % n == Target(rank, n, tries + 1)
  {
    ModOnce(Target(rank, n, tries) + 1, n);
  }

  lemma NoneTaken(rank: nat, n: nat, size: nat, accepted: seq<bool>)
    requires rank < n && 0 <= n - 1 <= |accepted|
    ensures RowTaken(rank, n, size, accepted, 0) == []
  {
  }

  lemma FirstTarget(rank: nat, n: nat)
    requires rank < n
    ensures (rank + 1) % n == Target(rank, n, 0)
  {
  }

  lemma FitsMeans(block: nat, size: nat, bytes: nat)
    ensures Fits(block, size, bytes) <==> block * size + size <= bytes
  {
  }

  /**
   The loop over the destinations; `accepted` is what the card answers to the writes, which the loop ignores.
   It stops with `ok == false` where the source's assertions fail: the sizes differ, or the block for another
   rank does not lie inside the registered send buffer.
   */
  method PostRow(rank: nat, n: nat, sendSize: nat, recvSize: nat, sendBytes: nat, accepted: seq<bool>)
    returns (ok: bool, tries: nat, requests: seq<Request>)
    requires rank < n && |accepted| >= n - 1
    ensures ok <==> sendSize == recvSize && forall dst: nat :: dst < n && dst != rank ==> Fits(dst, sendSize, sendBytes)
    ensures tries <= n - 1 && (ok ==> tries == n - 1)
    ensures PostedExactly(rank, n, sendSize, accepted, tries, requests)
    ensures forall k: nat :: k < tries ==> Fits(Target(rank, n, k), sendSize, sendBytes)
  {
    hide PostedExactly, Turn, Target, RowTaken, Fits;
    requests, tries := [], 0;
    if sendSize != recvSize {
      NoneTaken(rank, n, sendSize, accepted);
      RowIsPostedExactly(rank, n, sendSize, accepted, 0);
      return false, tries, requests;
    }
    var dst := (rank + 1) % n;
    FirstTarget(rank, n);
    NoneTaken(rank, n, sendSize, accepted);
    EveryOtherRankOnce(rank, n, rank, 0);
    while dst != rank
      invariant tries < n && dst == Target(rank, n, tries)
      invariant requests == RowTaken(rank, n, sendSize, accepted, tries)
      invariant forall i: nat :: i < tries ==> Fits(Target(rank, n, i), sendSize, sendBytes)
      decreases n - tries
    {
      EveryOtherRankOnce(rank, n, rank, tries);
      FitsMeans(dst, sendSize, sendBytes);
      if dst * sendSize + sendSize > sendBytes {
        RowIsPostedExactly(rank, n, sendSize, accepted, tries);
        return false, tries, requests;
      }
      if accepted[tries] {
        requests := requests + [Request(dst, dst * sendSize, rank * recvSize, sendSize)];
      }
      RowNext(rank, n, sendSize, accepted, tries);
      NextTarget(rank, n, tries);
      dst := (dst + 1) % n;
      tries := tries + 1;
    }
    EveryOtherRankOnce(rank, n, rank, tries);
    RowIsPostedExactly(rank, n, sendSize, accepted, tries);
    forall other: nat | other < n && other != rank ensures Fits(other, sendSize, sendBytes) {
      EveryOtherRankOnce(rank, n, other, Turn(rank, n, other));
    }
    ok := true;
  }

  // ---- All ranks ----

  const MAX_SEND_WR_PER_QP := YmpiProcess.MAX_SEND_WR_PER_QP
  const POLL_LIMIT := YmpiProcess.POLL_LIMIT

  /** What the ranks exchange: n ranks, blocks of `size` bytes, and what everybody sends. */
  datatype Exchange = Exchange(n: nat, size: nat, send: seq<seq<byte>>) {
    ghost predicate Valid() {
      |send| == n && forall i :: 0 <= i < n ==> |send[i]| >= n * size
    }
  }

  /**
   One rank: the writes it tried, whether the throttle holds it, for each destination the counter of pending
   requests (of this exchange and of earlier calls) and how many of them are not yet reported, and how far it is.
   */
  datatype Rank = Rank(
    posted: nat,
    throttled: bool,
    pending: seq<nat>,
    open: seq<nat>,
    copied: bool,
    flushed: bool,
    left: bool)

  /** `refused` holds the writes that were dropped, `landed` the bytes that reached their target, by rank and turn. */
  datatype State = State(
    ranks: seq<Rank>,
    refused: set<(nat, nat)>,
    landed: set<(nat, nat, nat)>,
    recv: seq<seq<byte>>)

  datatype Event =
    | PostNext(rank: nat)
    | Land(rank: nat, turn: nat, b: nat)
    | Report(rank: nat, dest: nat)
    | Poll(rank: nat, taken: seq<nat>)
    | CopyOwn(rank: nat)
    | FlushReturns(rank: nat)
    | LeaveBarrier(rank: nat)

  /** All bytes of the request of this turn reached their target. */
  ghost predicate WriteLanded(x: Exchange, st: State, rank: nat, turn: nat)
    requires rank < x.n && turn < x.n
  {
    forall b: nat :: b < RowRequest(rank, x.n, x.size, turn).len ==> (rank, turn, b) in st.landed
  }

  /** The write of this turn was accepted. */
  ghost predicate Accepted(st: State, rank: nat, turn: nat)
    requires rank < |st.ranks|
  {
    turn < st.ranks[rank].posted && (rank, turn) !in st.refused
  }

  ghost predicate Shaped(x: Exchange, st: State) {
    && x.Valid()
    && |st.ranks| == |st.recv| == x.n
    && (forall i :: 0 <= i < x.n ==> |st.ranks[i].pending| == |st.ranks[i].open| == x.n)
    && (forall i :: 0 <= i < x.n ==> |st.recv[i]| >= x.n * x.size)
  }

  /** A poll takes completions that were reported, some but not too many. */
  ghost predicate Takes(r: Rank, taken: seq<nat>) {
    && |taken| == |r.pending| == |r.open|
    && (forall d :: 0 <= d < |taken| ==> taken[d] + r.open[d] <= r.pending[d])
    && 1 <= Sum(taken) <= POLL_LIMIT
  }

  /** The last request to a rank is the write of this exchange; it is reported only when it was carried out. */
  ghost predicate MayReport(x: Exchange, st: State, i: nat, d: nat)
    requires Shaped(x, st) && i < x.n && d < x.n
  {
    && st.ranks[i].open[d] > 0
    && (st.ranks[i].open[d] == 1 && d != i && Accepted(st, i, Turn(i, x.n, d)) ==>
          WriteLanded(x, st, i, Turn(i, x.n, d)))
  }

  ghost predicate Enabled(x: Exchange, st: State, e: Event)
    requires Shaped(x, st)
  {
    && e.rank < x.n
    && var r := st.ranks[e.rank];
    match e
    case PostNext(i) => r.posted < x.n - 1 && !r.throttled
    case Land(i, turn, b) =>
      && Accepted(st, i, turn) && turn < x.n - 1 && (i, turn, b) !in st.landed
      && b < RowRequest(i, x.n, x.size, turn).len
    case Report(i, d) => d < x.n && MayReport(x, st, i, d)
    case Poll(i, taken) => Takes(r, taken) && (r.throttled || (r.copied && !r.flushed))
    case CopyOwn(i) => r.posted == x.n - 1 && !r.throttled && !r.copied
    case FlushReturns(i) => r.copied && !r.flushed && Sum(r.pending) == 0
    case LeaveBarrier(i) => !r.left && forall j :: 0 <= j < x.n ==> st.ranks[j].flushed
  }

  ghost function Minus(a: seq<nat>, b: seq<nat>): (r: seq<nat>)
    requires |a| == |b| && forall i :: 0 <= i < |a| ==> b[i] <= a[i]
    ensures |r| == |a| && forall i :: 0 <= i < |a| ==> r[i] == a[i] - b[i]
  {
    seq(|a|, i requires 0 <= i < |a| => a[i] - b[i])
  }

  /** A full queue refuses the write; an accepted one that fills the queue sets the throttle. */
  ghost function Tried(r: Rank, dst: nat): (after: Rank)
    requires dst < |r.pending| == |r.open|
    ensures |after.pending| == |after.open| == |r.pending|
  {
    if r.pending[dst] >= MAX_SEND_WR_PER_QP then r.(posted := r.posted + 1)
    else r.(posted := r.posted + 1,
            pending := r.pending[dst := r.pending[dst] + 1],
            open := r.open[dst := r.open[dst] + 1],
            throttled := r.pending[dst] + 1 == MAX_SEND_WR_PER_QP)
  }

  ghost function Step(x: Exchange, st: State, e: Event): (after: State)
    requires Shaped(x, st) && Enabled(x, st, e)
    ensures Shaped(x, after)
  {
    var i, r := e.rank, st.ranks[e.rank];
    BlockInBounds(i, x.n, x.size);
    match e
    case PostNext(_) =>
      var dst := Target(i, x.n, r.posted);
      st.(ranks := st.ranks[i := Tried(r, dst)],
          refused := if r.pending[dst] >= MAX_SEND_WR_PER_QP then st.refused + {(i, r.posted)} else st.refused)
    case Land(_, turn, b) =>
      var w := RowRequest(i, x.n, x.size, turn);
      BlockInBounds(w.dest, x.n, x.size);
      st.(landed := st.landed + {(i, turn, b)},
          recv := st.recv[w.dest := st.recv[w.dest][w.to + b := x.send[i][w.from + b]]])
    case Report(_, d) => st.(ranks := st.ranks[i := r.(open := r.open[d := r.open[d] - 1])])
    case Poll(_, taken) => st.(ranks := st.ranks[i := r.(pending := Minus(r.pending, taken), throttled := false)])
    case CopyOwn(_) =>
      var own := i * x.size;
      st.(ranks := st.ranks[i := r.(copied := true)],
          recv := st.recv[i := st.recv[i][..own] + x.send[i][own..own + x.size] + st.recv[i][own + x.size..]])
    case FlushReturns(_) => st.(ranks := st.ranks[i := r.(flushed := true)])
    case LeaveBarrier(_) => st.(ranks := st.ranks[i := r.(left := true)])
  }

  /** Byte `b` of block `from` in the receive buffer of `to` is byte `b` of block `to` in the send buffer of `from`. */
  ghost predicate Exchanged(x: Exchange, st: State, from: nat, to: nat, b: nat)
    requires Shaped(x, st) && from < x.n && to < x.n && b < x.size
  {
    BlockInBounds(from, x.n, x.size);
    BlockInBounds(to, x.n, x.size);
    st.recv[to][At(from, x.size, b)] == x.send[from][At(to, x.size, b)]
  }

  /** The counters with which the ranks enter the call. */
  ghost predicate EntryOk(x: Exchange, entry: seq<seq<nat>>) {
    && |entry| == x.n
    && (forall i :: 0 <= i < x.n ==> |entry[i]| == x.n)
    && (forall i, d :: 0 <= i < x.n && 0 <= d < x.n ==> entry[i][d] <= MAX_SEND_WR_PER_QP)
  }

  ghost predicate Init(x: Exchange, entry: seq<seq<nat>>, st: State) {
    && Shaped(x, st) && EntryOk(x, entry)
    && (forall i :: 0 <= i < x.n ==> StartOfRank(st.ranks[i], entry[i]))
    && st.refused == {} && st.landed == {}
  }

  ghost predicate StartOfRank(r: Rank, entry: seq<nat>) {
    && r.posted == 0 && !r.throttled && !r.copied && !r.flushed && !r.left
    && r.pending == entry && |r.open| == |entry| && forall d :: 0 <= d < |entry| ==> r.open[d] <= entry[d]
  }

  // ---- The invariant ----

  /** One rank: its counters cover what is not reported, and it is held exactly behind a write that filled its queue. */
  ghost predicate RankOk(x: Exchange, entry: seq<seq<nat>>, st: State, i: nat)
    requires Shaped(x, st) && EntryOk(x, entry) && i < x.n
  {
    var r := st.ranks[i];
    && r.posted <= x.n - 1
    && (forall d :: 0 <= d < x.n ==> r.open[d] <= r.pending[d] <= MAX_SEND_WR_PER_QP)
    && (r.throttled ==> 0 < r.posted && !r.copied && r.pending[Target(i, x.n, r.posted - 1)] == MAX_SEND_WR_PER_QP)
    && (r.copied ==> r.posted == x.n - 1)
    && (r.flushed ==> r.copied && forall d :: 0 <= d < x.n ==> r.pending[d] == 0)
    && (r.left ==> forall j :: 0 <= j < x.n ==> st.ranks[j].flushed)
    && (forall turn: nat :: r.posted <= turn < x.n - 1 ==>
          r.pending[Target(i, x.n, turn)] <= entry[i][Target(i, x.n, turn)])
  }

  /** One write: it was refused only by a queue that was full on entry, and is open until it was carried out. */
  ghost predicate WriteOk(x: Exchange, entry: seq<seq<nat>>, st: State, i: nat, turn: nat)
    requires Shaped(x, st) && EntryOk(x, entry) && i < x.n && turn < x.n - 1
  {
    && ((i, turn) in st.refused ==>
          turn < st.ranks[i].posted && entry[i][Target(i, x.n, turn)] == MAX_SEND_WR_PER_QP)
    && (Accepted(st, i, turn) && !WriteLanded(x, st, i, turn) ==> st.ranks[i].open[Target(i, x.n, turn)] > 0)
  }

  ghost predicate LandedOk(x: Exchange, st: State, i: nat, turn: nat, b: nat)
    requires Shaped(x, st)
  {
    && i < x.n && turn < x.n - 1 && b < x.size && Accepted(st, i, turn)
    && Exchanged(x, st, i, Target(i, x.n, turn), b)
  }

  ghost predicate Inv(x: Exchange, entry: seq<seq<nat>>, st: State) {
    && Shaped(x, st) && EntryOk(x, entry)
    && (forall i: nat :: i < x.n ==> RankOk(x, entry, st, i))
    && (forall i: nat, turn: nat :: i < x.n && turn < x.n - 1 ==> WriteOk(x, entry, st, i, turn))
    && (forall i: nat, turn: nat, b: nat :: (i, turn, b) in st.landed ==> LandedOk(x, st, i, turn, b))
    && (forall i: nat, b: nat :: i < x.n && st.ranks[i].copied && b < x.size ==> Exchanged(x, st, i, i, b))
  }

  lemma InitInv(x: Exchange, entry: seq<seq<nat>>, st: State)
    requires Init(x, entry, st)
    ensures Inv(x, entry, st)
  {
    hide Exchanged, Target;
    forall i: nat | i < x.n ensures RankOk(x, entry, st, i) {
      assert StartOfRank(st.ranks[i], entry[i]);
    }
  }

  /** Different blocks of one buffer have no byte in common, and lie inside it. */
  lemma BlocksApart(n: nat, size: nat, i: nat, b: nat, j: nat, c: nat)
    requires i < n && j < n && b < size && c < size
    ensures At(i, size, b) < n * size
    ensures At(i, size, b) == At(j, size, c) <==> i == j && b == c
    ensures i == j <==> At(j, size, 0) <= At(i, size, b) < At(j, size, 0) + size
    ensures At(i, size, b) == At(i, size, 0) + b
  {
    BlockInBounds(i, n, size);
    if i < j { BlockApart(i, j, size); }
    if j < i { BlockApart(j, i, size); }
  }

  lemma RequestByte(rank: nat, n: nat, size: nat, turn: nat, b: nat)
    requires rank < n && turn < n
    ensures var r := RowRequest(rank, n, size, turn);
            && r.dest == Target(rank, n, turn) && r.len == size
            && r.to + b == At(rank, size, b) && r.from + b == At(r.dest, size, b)
  {
  }

  /** A byte that lands changes only its own place. */
  lemma LandKeepsOthers(x: Exchange, st: State, e: Event, from: nat, to: nat, b: nat)
    requires Shaped(x, st) && Enabled(x, st, e) && e.Land?
    requires from < x.n && to < x.n && b < x.size
    ensures from == e.rank && to == Target(e.rank, x.n, e.turn) && b == e.b ==>
               Exchanged(x, Step(x, st, e), from, to, b)
    ensures Exchanged(x, st, from, to, b) ==> Exchanged(x, Step(x, st, e), from, to, b)
  {
    hide Target, At, RowRequest, Tried, MayReport, Takes;
    RequestByte(e.rank, x.n, x.size, e.turn, e.b);
    BlocksApart(x.n, x.size, from, b, e.rank, e.b);
    BlocksApart(x.n, x.size, to, b, Target(e.rank, x.n, e.turn), e.b);
  }

  /** Copying the own block changes only that block. */
  lemma CopyKeepsOthers(x: Exchange, st: State, e: Event, from: nat, to: nat, b: nat)
    requires Shaped(x, st) && Enabled(x, st, e) && e.CopyOwn?
    requires from < x.n && to < x.n && b < x.size
    ensures from == to == e.rank ==> Exchanged(x, Step(x, st, e), from, to, b)
    ensures Exchanged(x, st, from, to, b) ==> Exchanged(x, Step(x, st, e), from, to, b)
  {
    hide At, Tried, MayReport, Takes, Target;
    var i, at := e.rank, At(from, x.size, b);
    BlockInBounds(i, x.n, x.size);
    BlocksApart(x.n, x.size, from, b, i, b);
    BlocksApart(x.n, x.size, to, b, i, b);
    OwnBlockStart(i, x.size);
    var own, before, after := At(i, x.size, 0), st.recv[i], Step(x, st, e).recv[i];
    assert after == before[..own] + x.send[i][own..own + x.size] + before[own + x.size..];
    assert after[at] == if from == i then x.send[i][at] else before[at];
  }

  lemma OwnBlockStart(i: nat, size: nat)
    ensures At(i, size, 0) == i * size
  {
  }

  lemma StepKeepsBytes(x: Exchange, st: State, e: Event, from: nat, to: nat, b: nat)
    requires Shaped(x, st) && Enabled(x, st, e)
    requires from < x.n && to < x.n && b < x.size
    ensures Exchanged(x, st, from, to, b) ==> Exchanged(x, Step(x, st, e), from, to, b)
  {
    hide Target, Tried, MayReport, Takes;
    if e.Land? { LandKeepsOthers(x, st, e, from, to, b); }
    if e.CopyOwn? { CopyKeepsOthers(x, st, e, from, to, b); }
  }

  /** What an event leaves of the other ranks. */
  lemma OtherRanks(x: Exchange, st: State, e: Event, i: nat)
    requires Shaped(x, st) && Enabled(x, st, e) && i < x.n && i != e.rank
    ensures Step(x, st, e).ranks[i] == st.ranks[i]
    ensures forall turn: nat :: (i, turn) in Step(x, st, e).refused <==> (i, turn) in st.refused
    ensures forall turn: nat, b: nat :: (i, turn, b) in Step(x, st, e).landed <==> (i, turn, b) in st.landed
  {
    hide Target, Tried, MayReport, Takes, Accepted, RowRequest;
  }

  lemma FlushedStays(x: Exchange, st: State, e: Event, j: nat)
    requires Shaped(x, st) && Enabled(x, st, e) && j < x.n && st.ranks[j].flushed
    ensures Step(x, st, e).ranks[j].flushed
  {
    hide Target, MayReport, Takes, Accepted, RowRequest;
  }

  /** The counters of a rank that tries a write stay in order, and so does its throttle. */
  lemma TriedKeepsRank(x: Exchange, entry: seq<seq<nat>>, st: State, i: nat)
    requires Shaped(x, st) && EntryOk(x, entry) && i < x.n && RankOk(x, entry, st, i) && Enabled(x, st, PostNext(i))
    ensures RankOk(x, entry, Step(x, st, PostNext(i)), i)
  {
    hide MayReport, Takes, Target;
    var r := st.ranks[i];
    EveryOtherRankOnce(i, x.n, Target(i, x.n, r.posted), r.posted);
    forall turn: nat | r.posted < turn < x.n - 1 ensures Target(i, x.n, turn) != Target(i, x.n, r.posted) {
      TargetsDiffer(i, x.n, r.posted, turn);
    }
  }

  /** A write that fills a queue, and no other, holds its rank: it tries and copies nothing more until it polled. */
  lemma FullQueueHolds(x: Exchange, st: State, i: nat)
    requires Shaped(x, st) && Enabled(x, st, PostNext(i))
    ensures var filled := st.ranks[i].pending[Target(i, x.n, st.ranks[i].posted)] == MAX_SEND_WR_PER_QP - 1;
            var after := Step(x, st, PostNext(i));
            && (filled ==> !Enabled(x, after, PostNext(i)) && !Enabled(x, after, CopyOwn(i)))
            && (!filled && st.ranks[i].posted + 1 < x.n - 1 ==> Enabled(x, after, PostNext(i)))
  {
    hide Target, RowRequest;
  }

  lemma TargetsDiffer(i: nat, n: nat, k: nat, m: nat)
    requires i < n && k < m < n
    ensures Target(i, n, k) != Target(i, n, m)
  {
  }

  lemma StepKeepsRank(x: Exchange, entry: seq<seq<nat>>, st: State, e: Event, i: nat)
    requires Shaped(x, st) && EntryOk(x, entry) && i < x.n && RankOk(x, entry, st, i) && Enabled(x, st, e)
    ensures RankOk(x, entry, Step(x, st, e), i)
  {
    hide MayReport, Target, Tried, RowRequest, Accepted;
    forall j | 0 <= j < x.n && st.ranks[j].flushed ensures Step(x, st, e).ranks[j].flushed {
      FlushedStays(x, st, e, j);
    }
    if i != e.rank {
      OtherRanks(x, st, e, i);
    } else if e.PostNext? {
      TriedKeepsRank(x, entry, st, i);
    } else if e.FlushReturns? {
      AllZero(st.ranks[i].pending);
    } else if e.Poll? {
      assert forall turn: nat :: st.ranks[i].posted <= turn < x.n - 1 ==> Target(i, x.n, turn) < x.n;
    }
  }

  lemma AllZero(xs: seq<nat>)
    requires Sum(xs) == 0
    ensures forall i :: 0 <= i < |xs| ==> xs[i] == 0
  {
    forall i | 0 <= i < |xs| ensures xs[i] == 0 { SumAtLeast(xs, i); }
  }

  /** A write that was tried is refused by a full queue only, and open after it was accepted. */
  lemma TriedKeepsWrites(x: Exchange, entry: seq<seq<nat>>, st: State, i: nat, turn: nat)
    requires Shaped(x, st) && EntryOk(x, entry) && i < x.n && turn < x.n - 1
    requires RankOk(x, entry, st, i) && WriteOk(x, entry, st, i, turn) && Enabled(x, st, PostNext(i))
    ensures WriteOk(x, entry, Step(x, st, PostNext(i)), i, turn)
  {
    hide MayReport, Takes, Target;
    var r := st.ranks[i];
    if turn < r.posted {
      TargetsDiffer(i, x.n, turn, r.posted);
    }
  }

  /** The last request to a rank stays open until the write was carried out. */
  lemma ReportKeepsWrites(x: Exchange, entry: seq<seq<nat>>, st: State, i: nat, d: nat, turn: nat)
    requires Shaped(x, st) && EntryOk(x, entry) && i < x.n && turn < x.n - 1
    requires WriteOk(x, entry, st, i, turn) && Enabled(x, st, Report(i, d))
    ensures WriteOk(x, entry, Step(x, st, Report(i, d)), i, turn)
  {
    hide Takes, Target, Tried, Turn;
    EveryOtherRankOnce(i, x.n, i, turn);
    EveryOtherRankOnce(i, x.n, Target(i, x.n, turn), turn);
  }

  lemma StepKeepsWrite(x: Exchange, entry: seq<seq<nat>>, st: State, e: Event, i: nat, turn: nat)
    requires Shaped(x, st) && EntryOk(x, entry) && i < x.n && turn < x.n - 1
    requires RankOk(x, entry, st, i) && WriteOk(x, entry, st, i, turn) && Enabled(x, st, e)
    ensures WriteOk(x, entry, Step(x, st, e), i, turn)
  {
    hide MayReport, Takes, Target, Tried, RowRequest, RankOk;
    if i != e.rank {
      OtherRanks(x, st, e, i);
    } else if e.PostNext? {
      TriedKeepsWrites(x, entry, st, i, turn);
    } else if e.Report? {
      ReportKeepsWrites(x, entry, st, i, e.dest, turn);
    }
  }

  /** What was accepted stays accepted. */
  lemma AcceptedStays(x: Exchange, st: State, e: Event, i: nat, turn: nat)
    requires Shaped(x, st) && Enabled(x, st, e) && i < x.n && Accepted(st, i, turn)
    ensures Accepted(Step(x, st, e), i, turn)
  {
    hide MayReport, Takes, Target, RowRequest;
  }

  lemma StepKeepsLanded(x: Exchange, st: State, e: Event, i: nat, turn: nat, b: nat)
    requires Shaped(x, st) && Enabled(x, st, e)
    requires (i, turn, b) in Step(x, st, e).landed
    requires (i, turn, b) in st.landed ==> LandedOk(x, st, i, turn, b)
    ensures LandedOk(x, Step(x, st, e), i, turn, b)
  {
    hide Exchanged, Target, Tried, MayReport, Takes, RowRequest, Accepted;
    RequestByte(i, x.n, x.size, turn, b);
    assert turn < x.n - 1 && b < x.size && Accepted(st, i, turn);
    AcceptedStays(x, st, e, i, turn);
    if (i, turn, b) in st.landed {
      StepKeepsBytes(x, st, e, i, Target(i, x.n, turn), b);
    } else {
      LandKeepsOthers(x, st, e, i, Target(i, x.n, turn), b);
    }
  }

  lemma StepKeepsCopied(x: Exchange, st: State, e: Event, i: nat, b: nat)
    requires Shaped(x, st) && Enabled(x, st, e) && i < x.n && b < x.size
    requires Step(x, st, e).ranks[i].copied
    requires st.ranks[i].copied ==> Exchanged(x, st, i, i, b)
    ensures Exchanged(x, Step(x, st, e), i, i, b)
  {
    hide Exchanged, Target, MayReport, Takes, RowRequest, Accepted;
    if st.ranks[i].copied {
      StepKeepsBytes(x, st, e, i, i, b);
    } else {
      CopyKeepsOthers(x, st, e, i, i, b);
    }
  }

  lemma StepKeepsInv(x: Exchange, entry: seq<seq<nat>>, st: State, e: Event)
    requires Inv(x, entry, st) && Enabled(x, st, e)
    ensures Inv(x, entry, Step(x, st, e))
  {
    hide Exchanged, RankOk, WriteOk, LandedOk, Step, Enabled;
    var after := Step(x, st, e);
    forall i: nat | i < x.n ensures RankOk(x, entry, after, i) {
      StepKeepsRank(x, entry, st, e, i);
    }
    forall i: nat, turn: nat | i < x.n && turn < x.n - 1 ensures WriteOk(x, entry, after, i, turn) {
      StepKeepsWrite(x, entry, st, e, i, turn);
    }
    forall i: nat, turn: nat, b: nat | (i, turn, b) in after.landed ensures LandedOk(x, after, i, turn, b) {
      StepKeepsLanded(x, st, e, i, turn, b);
    }
    forall i: nat, b: nat | i < x.n && after.ranks[i].copied && b < x.size ensures Exchanged(x, after, i, i, b) {
      StepKeepsCopied(x, st, e, i, b);
    }
  }

  // ---- Whole runs ----

  ghost predicate Allowed(x: Exchange, st: State, events: seq<Event>)
    requires Shaped(x, st)
    decreases |events|
  {
    events == [] || (Enabled(x, st, events[0]) && Allowed(x, Step(x, st, events[0]), events[1..]))
  }

  ghost function Run(x: Exchange, st: State, events: seq<Event>): (after: State)
    requires Shaped(x, st) && Allowed(x, st, events)
    ensures Shaped(x, after)
    decreases |events|
  {
    if events == [] then st else Run(x, Step(x, st, events[0]), events[1..])
  }

  lemma {:induction false} RunKeepsInv(x: Exchange, entry: seq<seq<nat>>, st: State, events: seq<Event>)
    requires Inv(x, entry, st) && Allowed(x, st, events)
    ensures Inv(x, entry, Run(x, st, events))
    decreases |events|
  {
    hide Step, Enabled, RankOk, WriteOk, LandedOk, Exchanged;
    if events != [] {
      StepKeepsInv(x, entry, st, events[0]);
      RunKeepsInv(x, entry, Step(x, st, events[0]), events[1..]);
    }
  }

  /** After the barrier every accepted write was carried out: the counters of the writer were 0. */
  lemma AcceptedIsCarriedOut(x: Exchange, entry: seq<seq<nat>>, st: State, who: nat, from: nat, to: nat)
    requires Inv(x, entry, st) && who < x.n && st.ranks[who].left && from < x.n && to < x.n && from != to
    requires (from, Turn(from, x.n, to)) !in st.refused
    ensures WriteLanded(x, st, from, Turn(from, x.n, to))
  {
    hide LandedOk, Exchanged, Turn, Target;
    var turn := Turn(from, x.n, to);
    EveryOtherRankOnce(from, x.n, to, turn);
    assert RankOk(x, entry, st, who) && RankOk(x, entry, st, from) && WriteOk(x, entry, st, from, turn);
  }

  /**
   Under any interleaving of all ranks, once any rank has left the barrier, block i of rank j's receive buffer
   is block j of rank i's send buffer, unless the write of i to j was refused.
   */
  lemma TransposeUnlessRefused(x: Exchange, entry: seq<seq<nat>>, st: State, events: seq<Event>, who: nat,
                               from: nat, to: nat, b: nat)
    requires Init(x, entry, st) && Allowed(x, st, events) && who < x.n && Run(x, st, events).ranks[who].left
    requires from < x.n && to < x.n && b < x.size
    requires from != to ==> (from, Turn(from, x.n, to)) !in Run(x, st, events).refused
    ensures Exchanged(x, Run(x, st, events), from, to, b)
  {
    hide Exchanged, Turn, Target, Step, Enabled, Init, Run, Allowed;
    InitInv(x, entry, st);
    RunKeepsInv(x, entry, st, events);
    var after := Run(x, st, events);
    if from == to {
      assert RankOk(x, entry, after, who) && RankOk(x, entry, after, from);
    } else {
      var turn := Turn(from, x.n, to);
      EveryOtherRankOnce(from, x.n, to, turn);
      AcceptedIsCarriedOut(x, entry, after, who, from, to);
      assert LandedOk(x, after, from, turn, b);
    }
  }

  /** Every rank enters with room in its send queue for every other rank. */
  ghost predicate NoneFull(x: Exchange, entry: seq<seq<nat>>)
    requires EntryOk(x, entry)
  {
    forall i, d :: 0 <= i < x.n && 0 <= d < x.n && i != d ==> entry[i][d] < MAX_SEND_WR_PER_QP
  }

  /** Then no write is refused, and the receive buffers hold the transpose of the send buffers. */
  lemma Transpose(x: Exchange, entry: seq<seq<nat>>, st: State, events: seq<Event>, who: nat, from: nat, to: nat,
                  b: nat)
    requires Init(x, entry, st) && NoneFull(x, entry)
    requires Allowed(x, st, events) && who < x.n && Run(x, st, events).ranks[who].left
    requires from < x.n && to < x.n && b < x.size
    ensures Exchanged(x, Run(x, st, events), from, to, b)
  {
    hide Exchanged, Turn, Target, Step, Enabled, Init, Run, Allowed, LandedOk, RankOk;
    InitInv(x, entry, st);
    RunKeepsInv(x, entry, st, events);
    if from != to {
      var turn := Turn(from, x.n, to);
      EveryOtherRankOnce(from, x.n, to, turn);
      assert WriteOk(x, entry, Run(x, st, events), from, turn);
    }
    TransposeUnlessRefused(x, entry, st, events, who, from, to, b);
  }

  lemma NothingLands(x: Exchange, entry: seq<seq<nat>>, st: State, i: nat, turn: nat, b: nat)
    requires Inv(x, entry, st) && i < x.n && st.ranks[i].flushed && turn < x.n - 1
    requires Accepted(st, i, turn) && b < x.size
    ensures (i, turn, b) in st.landed
  {
    hide Exchanged, LandedOk, Target;
    assert RankOk(x, entry, st, i) && WriteOk(x, entry, st, i, turn);
  }

  /** After any rank has left the barrier, no accepted write is on its way and no receive buffer changes any more. */
  lemma NothingAfterBarrier(x: Exchange, entry: seq<seq<nat>>, st: State, e: Event, who: nat)
    requires Inv(x, entry, st) && who < x.n && st.ranks[who].left && Enabled(x, st, e)
    ensures Step(x, st, e).recv == st.recv && Step(x, st, e).landed == st.landed
    ensures e.LeaveBarrier? || e.Report?
  {
    hide Exchanged, LandedOk, Target, Tried, RowRequest, WriteOk;
    assert RankOk(x, entry, st, who) && RankOk(x, entry, st, e.rank);
    if e.Land? {
      RequestByte(e.rank, x.n, x.size, e.turn, e.b);
      NothingLands(x, entry, st, e.rank, e.turn, e.b);
    }
  }

  // ---- Every exchange can be brought to its end ----

  /** The least poll: one completion of one rank. */
  ghost function One(n: nat, d: nat): (taken: seq<nat>)
    requires d < n
    ensures |taken| == n && forall k :: 0 <= k < n ==> taken[k] == if k == d then 1 else 0
  {
    seq(n, k => if k == d then 1 else 0)
  }

  lemma OneSums(n: nat, d: nat)
    requires d < n
    ensures Sum(One(n, d)) == 1
  {
    var zeros := One(n, d)[d := 0];
    SumOfZeros(zeros);
    SumUpdate(zeros, d, 1);
    assert zeros[d := 1] == One(n, d);
  }

  /** A request that is pending can be polled, reported, or carried out. */
  lemma PendingMoves(x: Exchange, entry: seq<seq<nat>>, st: State, i: nat, d: nat) returns (e: Event)
    requires Inv(x, entry, st) && i < x.n && d < x.n && st.ranks[i].pending[d] > 0
    requires st.ranks[i].throttled || (st.ranks[i].copied && !st.ranks[i].flushed)
    ensures e.rank == i && Enabled(x, st, e)
  {
    hide Exchanged, LandedOk, WriteOk, Target;
    assert RankOk(x, entry, st, i);
    var r := st.ranks[i];
    if r.open[d] < r.pending[d] {
      OneSums(x.n, d);
      e := Poll(i, One(x.n, d));
      assert Takes(r, One(x.n, d));
    } else if MayReport(x, st, i, d) {
      e := Report(i, d);
    } else {
      var b: nat :| b < x.size && (i, Turn(i, x.n, d), b) !in st.landed;
      e := Land(i, Turn(i, x.n, d), b);
    }
  }

  /** The exchange cannot get stuck: until every rank has left, some rank, request or byte can move. */
  lemma SomebodyMoves(x: Exchange, entry: seq<seq<nat>>, st: State, who: nat) returns (e: Event)
    requires Inv(x, entry, st) && who < x.n && !st.ranks[who].left
    ensures Enabled(x, st, e)
  {
    hide Exchanged, LandedOk, WriteOk, MayReport, Takes;
    if i: nat :| i < x.n && st.ranks[i].throttled {
      assert RankOk(x, entry, st, i);
      e := PendingMoves(x, entry, st, i, Target(i, x.n, st.ranks[i].posted - 1));
    } else if i: nat :| i < x.n && st.ranks[i].posted < x.n - 1 {
      e := PostNext(i);
    } else if i: nat :| i < x.n && !st.ranks[i].copied {
      assert RankOk(x, entry, st, i);
      e := CopyOwn(i);
    } else if i: nat, d: nat :| i < x.n && d < x.n && !st.ranks[i].flushed && st.ranks[i].pending[d] > 0 {
      e := PendingMoves(x, entry, st, i, d);
    } else if i: nat :| i < x.n && !st.ranks[i].flushed {
      SumOfZeros(st.ranks[i].pending);
      e := FlushReturns(i);
    } else {
      e := LeaveBarrier(who);
    }
  }

  function Left(b: bool): nat { if b then 0 else 1 }

  /** The work that is left for a rank. */
  ghost function Work(x: Exchange, r: Rank): int {
    3 * (x.n - 1 - r.posted) + Sum(r.pending) + Sum(r.open) + Left(r.copied) + Left(r.flushed) + Left(r.left)
  }

  lemma WorkNatural(x: Exchange, r: Rank)
    requires r.posted <= x.n - 1
    ensures Work(x, r) >= 0
  {
    SumNatural(r.pending);
    SumNatural(r.open);
  }

  ghost function Works(x: Exchange, st: State): (works: seq<int>)
    ensures |works| == |st.ranks| && forall i :: 0 <= i < |works| ==> works[i] == Work(x, st.ranks[i])
  {
    seq(|st.ranks|, i requires 0 <= i < |st.ranks| => Work(x, st.ranks[i]))
  }

  /** The bytes that can still land. */
  ghost function OnTheirWay(x: Exchange, st: State): set<(nat, nat, nat)> {
    set i: nat, turn: nat, b: nat | i < x.n && turn < x.n && b < x.size && (i, turn, b) !in st.landed :: (i, turn, b)
  }

  ghost function Measure(x: Exchange, st: State): int {
    Sum(Works(x, st)) + |OnTheirWay(x, st)|
  }

  lemma {:induction false} SumMinus(a: seq<nat>, b: seq<nat>)
    requires |a| == |b| && forall i :: 0 <= i < |a| ==> b[i] <= a[i]
    ensures Sum(Minus(a, b)) == Sum(a) - Sum(b)
  {
    if a != [] {
      SumMinus(a[1..], b[1..]);
      assert Minus(a, b)[1..] == Minus(a[1..], b[1..]);
    }
  }

  /** Every event but the landing of a byte lowers the work of its rank. */
  lemma RankWorks(x: Exchange, st: State, e: Event)
    requires Shaped(x, st) && Enabled(x, st, e)
    ensures Work(x, Step(x, st, e).ranks[e.rank]) <= Work(x, st.ranks[e.rank]) - if e.Land? then 0 else 1
  {
    hide Sum, MayReport, Exchanged, Target, RowRequest, Accepted;
    var r := st.ranks[e.rank];
    match e {
      case PostNext(i) =>
        var dst := Target(i, x.n, r.posted);
        SumUpdate(r.pending, dst, r.pending[dst] + 1);
        SumUpdate(r.open, dst, r.open[dst] + 1);
      case Report(i, d) => ReportWorks(x, st, i, d);
      case Poll(i, taken) => SumMinus(r.pending, taken);
      case _ =>
    }
  }

  lemma ReportWorks(x: Exchange, st: State, i: nat, d: nat)
    requires Shaped(x, st) && Enabled(x, st, Report(i, d))
    ensures st.ranks[i].open[d] > 0
    ensures Work(x, Step(x, st, Report(i, d)).ranks[i]) == Work(x, st.ranks[i]) - 1
  {
    hide Sum, WriteLanded, Accepted;
    SumUpdate(st.ranks[i].open, d, st.ranks[i].open[d] - 1);
  }

  lemma BytesLand(x: Exchange, st: State, e: Event)
    requires Shaped(x, st) && Enabled(x, st, e)
    ensures |OnTheirWay(x, Step(x, st, e))| <= |OnTheirWay(x, st)| - if e.Land? then 1 else 0
  {
    hide Step, Enabled;
    var before, after := OnTheirWay(x, st), OnTheirWay(x, Step(x, st, e));
    LandedFollows(x, st, e);
    if e.Land? {
      assert after == before - {(e.rank, e.turn, e.b)};
    } else {
      assert after == before;
    }
  }

  lemma LandedFollows(x: Exchange, st: State, e: Event)
    requires Shaped(x, st) && Enabled(x, st, e)
    ensures e.Land? ==>
              && Step(x, st, e).landed == st.landed + {(e.rank, e.turn, e.b)}
              && (e.rank, e.turn, e.b) !in st.landed && e.rank < x.n && e.turn < x.n && e.b < x.size
    ensures !e.Land? ==> Step(x, st, e).landed == st.landed
  {
    hide MayReport, Takes, Target, Tried, Accepted;
    if e.Land? {
      RequestByte(e.rank, x.n, x.size, e.turn, e.b);
    }
  }

  lemma StepLowersMeasure(x: Exchange, st: State, e: Event)
    requires Shaped(x, st) && Enabled(x, st, e)
    ensures Measure(x, Step(x, st, e)) < Measure(x, st)
  {
    hide Step, Enabled, Work, OnTheirWay;
    RankWorks(x, st, e);
    BytesLand(x, st, e);
    var after := Step(x, st, e);
    forall i: nat | i < x.n && i != e.rank ensures after.ranks[i] == st.ranks[i] { OtherRanks(x, st, e, i); }
    RankInRange(x, st, e);
    assert Works(x, after) == Works(x, st)[e.rank := Work(x, after.ranks[e.rank])];
    SumUpdate(Works(x, st), e.rank, Work(x, after.ranks[e.rank]));
  }

  lemma RankInRange(x: Exchange, st: State, e: Event)
    requires Shaped(x, st) && Enabled(x, st, e)
    ensures e.rank < x.n
  {
  }

  lemma MeasureNatural(x: Exchange, entry: seq<seq<nat>>, st: State)
    requires Inv(x, entry, st)
    ensures Measure(x, st) >= 0
  {
    hide Work, Exchanged, WriteOk, LandedOk;
    forall i | 0 <= i < x.n ensures Works(x, st)[i] >= 0 {
      assert RankOk(x, entry, st, i);
      WorkNatural(x, st.ranks[i]);
    }
    SumNatural(Works(x, st));
  }

  ghost predicate AllLeft(st: State) {
    forall i :: 0 <= i < |st.ranks| ==> st.ranks[i].left
  }

  lemma {:induction false} Finish(x: Exchange, entry: seq<seq<nat>>, st: State) returns (events: seq<Event>)
    requires Inv(x, entry, st)
    ensures Allowed(x, st, events) && AllLeft(Run(x, st, events))
    decreases Measure(x, st)
  {
    hide Step, Enabled, RankOk, WriteOk, LandedOk, Exchanged, Measure;
    if who: nat :| who < x.n && !st.ranks[who].left {
      var e := SomebodyMoves(x, entry, st, who);
      StepKeepsInv(x, entry, st, e);
      StepLowersMeasure(x, st, e);
      MeasureNatural(x, entry, Step(x, st, e));
      var rest := Finish(x, entry, Step(x, st, e));
      events := [e] + rest;
      assert events[1..] == rest;
    } else {
      events := [];
    }
  }

  // ---- What a full queue costs ----

  /** Nothing is ever written where a refused write would have gone. */
  lemma StepKeepsHole(x: Exchange, entry: seq<seq<nat>>, st: State, e: Event, i: nat, d: nat, b: nat)
    requires Inv(x, entry, st) && Enabled(x, st, e) && i < x.n && d < x.n && i != d && b < x.size
    requires (i, Turn(i, x.n, d)) in st.refused
    ensures (i, Turn(i, x.n, d)) in Step(x, st, e).refused
    ensures At(i, x.size, b) < x.n * x.size
    ensures Step(x, st, e).recv[d][At(i, x.size, b)] == st.recv[d][At(i, x.size, b)]
  {
    hide Exchanged, LandedOk, RankOk, WriteOk, Target, Turn, Tried, MayReport, Takes, At, RowRequest;
    BlocksApart(x.n, x.size, i, b, i, b);
    BlockInBounds(e.rank, x.n, x.size);
    OwnBlockStart(e.rank, x.size);
    BlocksApart(x.n, x.size, i, b, e.rank, b);
    if e.Land? {
      RequestByte(e.rank, x.n, x.size, e.turn, e.b);
      BlocksApart(x.n, x.size, i, b, e.rank, e.b);
      EveryOtherRankOnce(e.rank, x.n, d, e.turn);
      EveryOtherRankOnce(e.rank, x.n, e.rank, e.turn);
    }
  }

  lemma {:induction false} RunKeepsHole(x: Exchange, entry: seq<seq<nat>>, st: State, events: seq<Event>,
                                        i: nat, d: nat, b: nat)
    requires Inv(x, entry, st) && Allowed(x, st, events) && i < x.n && d < x.n && i != d && b < x.size
    requires (i, Turn(i, x.n, d)) in st.refused
    ensures At(i, x.size, b) < x.n * x.size
    ensures Run(x, st, events).recv[d][At(i, x.size, b)] == st.recv[d][At(i, x.size, b)]
    decreases |events|
  {
    hide Exchanged, LandedOk, RankOk, WriteOk, Turn, Step, Enabled, At;
    BlocksApart(x.n, x.size, i, b, i, b);
    if events != [] {
      StepKeepsInv(x, entry, st, events[0]);
      StepKeepsHole(x, entry, st, events[0], i, d, b);
      RunKeepsHole(x, entry, Step(x, st, events[0]), events[1..], i, d, b);
    }
  }

  lemma {:induction false} RunConcat(x: Exchange, st: State, first: seq<Event>, second: seq<Event>)
    requires Shaped(x, st) && Allowed(x, st, first) && Allowed(x, Run(x, st, first), second)
    ensures Allowed(x, st, first + second)
    ensures Run(x, st, first + second) == Run(x, Run(x, st, first), second)
    decreases |first|
  {
    hide Step, Enabled;
    if first == [] {
      assert first + second == second;
    } else {
      assert (first + second)[1..] == first[1..] + second;
      RunConcat(x, Step(x, st, first[0]), first[1..], second);
    }
  }

  lemma Extend(x: Exchange, entry: seq<seq<nat>>, st: State, events: seq<Event>, e: Event) returns (longer: seq<Event>)
    requires Inv(x, entry, st) && Allowed(x, st, events) && Enabled(x, Run(x, st, events), e)
    ensures Allowed(x, st, longer) && Run(x, st, longer) == Step(x, Run(x, st, events), e)
    ensures Inv(x, entry, Run(x, st, longer))
  {
    hide Step, Enabled, RankOk, WriteOk, LandedOk, Exchanged;
    RunKeepsInv(x, entry, st, events);
    StepKeepsInv(x, entry, Run(x, st, events), e);
    assert [e][1..] == [];
    assert Allowed(x, Run(x, st, events), [e]);
    RunConcat(x, st, events, [e]);
    longer := events + [e];
  }

  /** Rank `i` tried `k` writes and its queue for `d` is as full as on entry; nothing was written anywhere. */
  ghost predicate Alone(x: Exchange, entry: seq<seq<nat>>, start: State, st: State, i: nat, d: nat, k: nat)
    requires i < x.n && d < x.n
  {
    && Inv(x, entry, st) && st.recv == start.recv && st.landed == {}
    && st.ranks[i].posted == k && !st.ranks[i].copied
    && st.ranks[i].pending[d] == MAX_SEND_WR_PER_QP
  }

  lemma ThrottledAt(x: Exchange, entry: seq<seq<nat>>, st: State, i: nat, d: nat, k: nat)
    requires Inv(x, entry, st) && i < x.n && d < x.n && i != d && st.ranks[i].throttled && st.ranks[i].posted == k
    requires k <= Turn(i, x.n, d)
    ensures 0 < k <= x.n - 1
    ensures var t := Target(i, x.n, k - 1);
            && t != d && t < x.n && st.ranks[i].pending[t] == MAX_SEND_WR_PER_QP
            && st.ranks[i].open[t] <= MAX_SEND_WR_PER_QP
    ensures forall c :: 0 <= c < x.n ==> st.ranks[i].open[c] <= st.ranks[i].pending[c]
  {
    hide WriteOk, LandedOk, Exchanged, Target, Turn;
    assert RankOk(x, entry, st, i);
    EveryOtherRankOnce(i, x.n, d, k - 1);
  }

  /** Held behind a write that filled its queue, a rank can see an earlier request of that queue reported. */
  lemma ReportEarlier(x: Exchange, entry: seq<seq<nat>>, start: State, st: State, i: nat, d: nat, k: nat)
    requires i < x.n && d < x.n && i != d && Alone(x, entry, start, st, i, d, k) && st.ranks[i].throttled
    requires 0 < k <= Turn(i, x.n, d) && k <= x.n - 1
    requires st.ranks[i].open[Target(i, x.n, k - 1)] == MAX_SEND_WR_PER_QP
    ensures Enabled(x, st, Report(i, Target(i, x.n, k - 1)))
    ensures var after := Step(x, st, Report(i, Target(i, x.n, k - 1)));
            && Alone(x, entry, start, after, i, d, k) && after.ranks[i].throttled
            && after.ranks[i].open[Target(i, x.n, k - 1)] < MAX_SEND_WR_PER_QP
  {
    hide RankOk, WriteOk, LandedOk, Exchanged, Turn, Target, Tried, RowRequest, Takes;
    assert MayReport(x, st, i, Target(i, x.n, k - 1));
    StepKeepsInv(x, entry, st, Report(i, Target(i, x.n, k - 1)));
  }

  /** And polling it lets the rank go on. */
  lemma PollEarlier(x: Exchange, entry: seq<seq<nat>>, start: State, st: State, i: nat, d: nat, k: nat)
    requires i < x.n && d < x.n && i != d && Alone(x, entry, start, st, i, d, k) && st.ranks[i].throttled
    requires 0 < k <= Turn(i, x.n, d) && k <= x.n - 1
    requires st.ranks[i].open[Target(i, x.n, k - 1)] < MAX_SEND_WR_PER_QP
    ensures Enabled(x, st, Poll(i, One(x.n, Target(i, x.n, k - 1))))
    ensures var after := Step(x, st, Poll(i, One(x.n, Target(i, x.n, k - 1))));
            Alone(x, entry, start, after, i, d, k) && !after.ranks[i].throttled
  {
    hide RankOk, WriteOk, LandedOk, Exchanged, Turn, Target, Tried, RowRequest, MayReport, Takes;
    ThrottledAt(x, entry, st, i, d, k);
    PollsOne(st.ranks[i], Target(i, x.n, k - 1));
    StepKeepsInv(x, entry, st, Poll(i, One(x.n, Target(i, x.n, k - 1))));
  }

  lemma PollsOne(r: Rank, t: nat)
    requires t < |r.pending| == |r.open| && r.open[t] < r.pending[t]
    requires forall d :: 0 <= d < |r.pending| ==> r.open[d] <= r.pending[d]
    ensures Takes(r, One(|r.pending|, t))
  {
    OneSums(|r.pending|, t);
  }

  /** After a write that filled its queue, the throttle can be satisfied from that queue alone. */
  lemma ThrottlePasses(x: Exchange, entry: seq<seq<nat>>, start: State, before: seq<Event>, i: nat, d: nat, k: nat)
    returns (events: seq<Event>)
    requires Inv(x, entry, start) && Allowed(x, start, before) && i < x.n && d < x.n && i != d
    requires k <= Turn(i, x.n, d) && Alone(x, entry, start, Run(x, start, before), i, d, k)
    ensures Allowed(x, start, events)
    ensures Alone(x, entry, start, Run(x, start, events), i, d, k) && !Run(x, start, events).ranks[i].throttled
  {
    hide RankOk, WriteOk, LandedOk, Exchanged, Turn, Target, Run, Allowed, Step, Enabled;
    events := before;
    var st := Run(x, start, before);
    if st.ranks[i].throttled {
      ThrottledAt(x, entry, st, i, d, k);
      var t := Target(i, x.n, k - 1);
      if st.ranks[i].open[t] == MAX_SEND_WR_PER_QP {
        ReportEarlier(x, entry, start, st, i, d, k);
        events := Extend(x, entry, start, events, Report(i, t));
      }
      PollEarlier(x, entry, start, Run(x, start, events), i, d, k);
      events := Extend(x, entry, start, events, Poll(i, One(x.n, t)));
    }
  }

  /** A write before that of `d` leaves the queue for `d` alone. */
  lemma TryNext(x: Exchange, entry: seq<seq<nat>>, start: State, st: State, i: nat, d: nat, k: nat)
    requires i < x.n && d < x.n && i != d && k < Turn(i, x.n, d)
    requires Alone(x, entry, start, st, i, d, k) && !st.ranks[i].throttled
    ensures Enabled(x, st, PostNext(i)) && Alone(x, entry, start, Step(x, st, PostNext(i)), i, d, k + 1)
  {
    hide RankOk, WriteOk, LandedOk, Exchanged, Target, RowRequest, MayReport, Takes;
    EveryOtherRankOnce(i, x.n, d, k);
    StepKeepsInv(x, entry, st, PostNext(i));
  }

  lemma {:induction false} TryUntil(x: Exchange, entry: seq<seq<nat>>, start: State, i: nat, d: nat, k: nat)
    returns (events: seq<Event>)
    requires Init(x, entry, start) && i < x.n && d < x.n && i != d && entry[i][d] == MAX_SEND_WR_PER_QP
    requires k <= Turn(i, x.n, d)
    ensures Allowed(x, start, events)
    ensures Alone(x, entry, start, Run(x, start, events), i, d, k) && !Run(x, start, events).ranks[i].throttled
  {
    hide Inv, Turn, Target, Step, Enabled;
    InitInv(x, entry, start);
    if k == 0 {
      events := [];
      assert StartOfRank(start.ranks[i], entry[i]);
    } else {
      hide Run, Allowed, Init;
      events := TryUntil(x, entry, start, i, d, k - 1);
      TryNext(x, entry, start, Run(x, start, events), i, d, k - 1);
      events := Extend(x, entry, start, events, PostNext(i));
      events := ThrottlePasses(x, entry, start, events, i, d, k);
    }
  }

  lemma TryFull(x: Exchange, entry: seq<seq<nat>>, start: State, st: State, i: nat, d: nat)
    requires i < x.n && d < x.n && i != d
    requires Alone(x, entry, start, st, i, d, Turn(i, x.n, d)) && !st.ranks[i].throttled
    ensures Enabled(x, st, PostNext(i))
    ensures var after := Step(x, st, PostNext(i));
            Inv(x, entry, after) && after.recv == start.recv && (i, Turn(i, x.n, d)) in after.refused
  {
    hide RankOk, WriteOk, LandedOk, Exchanged, Target, RowRequest, MayReport, Takes;
    EveryOtherRankOnce(i, x.n, d, Turn(i, x.n, d));
    StepKeepsInv(x, entry, st, PostNext(i));
  }

  /**
   A rank that enters with a full queue for another one can lose its write: some run of the whole exchange
   ends with all ranks behind the barrier and that block of the receive buffer as it was before.
   */
  lemma FullQueueLosesBlock(x: Exchange, entry: seq<seq<nat>>, start: State, i: nat, d: nat)
    returns (events: seq<Event>)
    requires Init(x, entry, start) && i < x.n && d < x.n && i != d && entry[i][d] == MAX_SEND_WR_PER_QP
    ensures Allowed(x, start, events) && AllLeft(Run(x, start, events))
    ensures forall b: nat :: b < x.size ==>
              && At(i, x.size, b) < x.n * x.size
              && Run(x, start, events).recv[d][At(i, x.size, b)] == start.recv[d][At(i, x.size, b)]
  {
    hide RankOk, WriteOk, LandedOk, Exchanged, StartOfRank, Turn, Target, Step, Enabled, Run, Allowed, At, AllLeft;
    InitInv(x, entry, start);
    var tries := TryUntil(x, entry, start, i, d, Turn(i, x.n, d));
    TryFull(x, entry, start, Run(x, start, tries), i, d);
    tries := Extend(x, entry, start, tries, PostNext(i));
    var st := Run(x, start, tries);
    var rest := Finish(x, entry, st);
    RunConcat(x, start, tries, rest);
    events := tries + rest;
    forall b: nat | b < x.size
      ensures At(i, x.size, b) < x.n * x.size
      ensures Run(x, start, events).recv[d][At(i, x.size, b)] == start.recv[d][At(i, x.size, b)]
    {
      RunKeepsHole(x, entry, st, rest, i, d, b);
    }
  }

  /** The state in which all ranks enter, with one byte everywhere in the receive buffers. */
  ghost function Entered(x: Exchange, entry: seq<seq<nat>>, fill: byte): (st: State)
    requires x.Valid() && EntryOk(x, entry)
    ensures Init(x, entry, st)
    ensures forall d: nat, k: nat :: d < x.n && k < x.n * x.size ==> k < |st.recv[d]| && st.recv[d][k] == fill
  {
    State(seq(x.n, i requires 0 <= i < x.n => Rank(0, false, entry[i], entry[i], false, false, false)), {}, {},
          seq(x.n, _ => seq(x.n * x.size, _ => fill)))
  }

  /** Every run that gets behind the barrier has transposed the buffers. */
  ghost predicate AlwaysTransposes(x: Exchange, entry: seq<seq<nat>>) {
    forall st: State, events: seq<Event>, who: nat, from: nat, to: nat, b: nat ::
      Init(x, entry, st) && Allowed(x, st, events) && who < x.n && Run(x, st, events).ranks[who].left
      && from < x.n && to < x.n && b < x.size
      ==> Exchanged(x, Run(x, st, events), from, to, b)
  }

  lemma FullQueueFails(x: Exchange, entry: seq<seq<nat>>, i: nat, d: nat)
    requires x.Valid() && EntryOk(x, entry) && x.size > 0
    requires i < x.n && d < x.n && i != d && entry[i][d] == MAX_SEND_WR_PER_QP
    ensures !AlwaysTransposes(x, entry)
  {
    hide Turn, Target, Step, Enabled, Run, Allowed, Init, At, Inv;
    BlocksApart(x.n, x.size, i, 0, i, 0);
    BlocksApart(x.n, x.size, d, 0, d, 0);
    var sent := x.send[i][At(d, x.size, 0)];
    var start := Entered(x, entry, if sent == 0 then 1 else 0);
    var events := FullQueueLosesBlock(x, entry, start, i, d);
    assert !Exchanged(x, Run(x, start, events), i, d, 0);
    assert Run(x, start, events).ranks[i].left;
  }

  /**
   The exchange transposes the buffers in all runs if and only if every rank enters with room for one more
   request to every other rank.
   */
  lemma TransposesIff(x: Exchange, entry: seq<seq<nat>>)
    requires x.Valid() && EntryOk(x, entry) && x.size > 0
    ensures AlwaysTransposes(x, entry) <==> NoneFull(x, entry)
  {
    hide Turn, Target, Step, Enabled, Run, Allowed, StartOfRank, At, Exchanged, Inv;
    if NoneFull(x, entry) {
      forall st: State, events: seq<Event>, who: nat, from: nat, to: nat, b: nat
        | Init(x, entry, st) && Allowed(x, st, events) && who < x.n && Run(x, st, events).ranks[who].left
          && from < x.n && to < x.n && b < x.size
        ensures Exchanged(x, Run(x, st, events), from, to, b)
      {
        Transpose(x, entry, st, events, who, from, to, b);
      }
    } else {
      var i: nat, d: nat :| i < x.n && d < x.n && i != d && entry[i][d] >= MAX_SEND_WR_PER_QP;
      FullQueueFails(x, entry, i, d);
    }
  }

  /** So a flush before the call, after which all counters are 0, is enough. */
  lemma FlushBeforeIsEnough(x: Exchange, entry: seq<seq<nat>>)
    requires x.Valid() && EntryOk(x, entry) && x.size > 0
    requires forall i, d :: 0 <= i < x.n && 0 <= d < x.n ==> entry[i][d] == 0
    ensures AlwaysTransposes(x, entry)
  {
    hide AlwaysTransposes;
    TransposesIff(x, entry);
  }
}
