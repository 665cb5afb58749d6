/**
 The calls of YmpiContext as runs of the network of YmpiRuns.  While a call of one
 process waits, the network card and the other ranks go on: the events between the
 actions of the call, and what each poll of its loop finds, are any that the network
 allows.  The call never exits, and does exactly what the run does.
 */
module YmpiCalls {
  import opened YmpiProcess
  import opened YmpiNode
  import opened YmpiNetwork
  import opened YmpiRuns
  import opened YmpiContext

  // ---- What happens while a call waits ----

  /** The events that are not actions of process `p`: those of the network card, and of the other ranks. */
  predicate Outside(p: nat, e: Event) {
    e.Deliver? || e.Ack? || e.rank != p
  }

  predicate AllOutside(p: nat, events: seq<Event>) {
    forall i :: 0 <= i < |events| ==> Outside(p, events[i])
  }

  /** Such an event leaves the process itself alone; its completion queue can only grow. */
  lemma OutsideStep(sys: System, p: nat, e: Event, source: nat)
    requires Inv(sys) && Enabled(sys, e) && p < |sys.nodes| && Outside(p, e)
    ensures Inv(Step(sys, e)) && Step(sys, e).nodes[p].host == sys.nodes[p].host
    ensures sys.nodes[p].cq <= Step(sys, e).nodes[p].cq
    ensures ReceivedBy(sys, e, source, p) == []
  {
    hide NodesOk, LinksOk, RoutesOk, Ready, ProcessBatch;
    StepKeeps(sys, e);
  }

  lemma {:induction false} OutsideRun(sys: System, p: nat, events: seq<Event>, source: nat)
    requires Inv(sys) && p < |sys.nodes| && Allowed(sys, events) && AllOutside(p, events)
    ensures Run(sys, events).nodes[p].host == sys.nodes[p].host
    ensures sys.nodes[p].cq <= Run(sys, events).nodes[p].cq
    ensures ReceivedLog(sys, events, source, p) == []
    decreases |events|
  {
    hide Shaped, NodesOk, LinksOk, RoutesOk, Step, Enabled, ReceivedBy;
    if events != [] {
      OutsideStep(sys, p, events[0], source);
      OutsideRun(Step(sys, events[0]), p, events[1..], source);
    }
  }

  lemma {:induction false} RunConcat(sys: System, first: seq<Event>, second: seq<Event>, s: nat, d: nat)
    requires Inv(sys) && Allowed(sys, first) && Allowed(Run(sys, first), second)
    ensures Allowed(sys, first + second)
    ensures Run(sys, first + second) == Run(Run(sys, first), second)
    ensures ReceivedLog(sys, first + second, s, d)
         == ReceivedLog(sys, first, s, d) + ReceivedLog(Run(sys, first), second, s, d)
    decreases |first|
  {
    hide Shaped, NodesOk, LinksOk, RoutesOk, Step, Enabled, ReceivedBy;
    if first == [] {
      assert first + second == second;
    } else {
      StepKeeps(sys, first[0]);
      assert (first + second)[1..] == first[1..] + second;
      RunConcat(Step(sys, first[0]), first[1..], second, s, d);
      assert ReceivedBy(sys, first[0], s, d)
             + (ReceivedLog(Step(sys, first[0]), first[1..], s, d) + ReceivedLog(Run(sys, first), second, s, d))
          == ReceivedBy(sys, first[0], s, d) + ReceivedLog(Step(sys, first[0]), first[1..], s, d)
             + ReceivedLog(Run(sys, first), second, s, d);
    }
  }

  /** One poll of a waiting loop: what happens before it, what it finds, and what happens before the loop goes on. */
  datatype Round = Round(before: seq<Event>, batch: seq<Completion>, after: seq<Event>)

  /** The poll finds completions that are in the queue at that moment. */
  ghost predicate Finds(sys: System, p: nat, batch: seq<Completion>)
    requires p < |sys.nodes|
  {
    |batch| <= POLL_LIMIT && batch <= sys.nodes[p].cq
  }

  ghost predicate RoundFits(sys: System, p: nat, r: Round)
    requires Inv(sys) && p < |sys.nodes|
  {
    && AllOutside(p, r.before) && AllOutside(p, r.after)
    && Allowed(sys, r.before)
    && Finds(Run(sys, r.before), p, r.batch)
    && (PollStep(Run(sys, r.before), p, r.batch);
        Allowed(Step(Run(sys, r.before), Poll(p, |r.batch|)), r.after))
  }

  lemma PolledHost(node: Node, nprocs: nat, batch: seq<Completion>)
    requires Ready(node, nprocs) && batch <= node.cq
    requires ProcessBatch(node.host, nprocs, node.cq[..|batch|]).Running?
    ensures ProcessBatch(node.host, nprocs, batch) == Running(Polled(node, nprocs, |batch|).host)
  {
    assert node.cq[..|batch|] == batch;
  }

  lemma StepPolls(sys: System, p: nat, count: nat)
    requires Inv(sys) && Enabled(sys, Poll(p, count)) && count <= |sys.nodes[p].cq|
    ensures Step(sys, Poll(p, count)).nodes[p] == Polled(sys.nodes[p], |sys.nodes|, count)
  {
    hide NodesOk, LinksOk, RoutesOk, Polled;
  }

  lemma PollStep(sys: System, p: nat, batch: seq<Completion>)
    requires Inv(sys) && p < |sys.nodes| && Finds(sys, p, batch)
    ensures Enabled(sys, Poll(p, |batch|)) && Inv(Step(sys, Poll(p, |batch|)))
    ensures ProcessBatch(sys.nodes[p].host, |sys.nodes|, batch) == Running(Step(sys, Poll(p, |batch|)).nodes[p].host)
  {
    hide NodesOk, LinksOk, RoutesOk, ProcessBatch, Polled, Step;
    NeverExits(sys, p, |batch|);
    StepKeeps(sys, Poll(p, |batch|));
    StepPolls(sys, p, |batch|);
    PolledHost(sys.nodes[p], |sys.nodes|, batch);
  }

  function RoundEvents(p: nat, r: Round): seq<Event> {
    r.before + ([Poll(p, |r.batch|)] + r.after)
  }

  ghost function AfterRound(sys: System, p: nat, r: Round): (after: System)
    requires Inv(sys) && p < |sys.nodes| && RoundFits(sys, p, r)
    ensures Inv(after) && |after.nodes| == |sys.nodes|
  {
    PollStep(Run(sys, r.before), p, r.batch);
    Run(Step(Run(sys, r.before), Poll(p, |r.batch|)), r.after)
  }

  /** A round is a run; all that it does to the process is to process what the poll found. */
  lemma RoundRun(sys: System, p: nat, r: Round, source: nat)
    requires Inv(sys) && p < |sys.nodes| && RoundFits(sys, p, r)
    ensures Allowed(sys, RoundEvents(p, r)) && Run(sys, RoundEvents(p, r)) == AfterRound(sys, p, r)
    ensures ProcessBatch(sys.nodes[p].host, |sys.nodes|, r.batch) == Running(AfterRound(sys, p, r).nodes[p].host)
    ensures ReceivedLog(sys, RoundEvents(p, r), source, p) == []
  {
    hide Shaped, NodesOk, LinksOk, RoutesOk, Step, Enabled, ProcessBatch, ReceivedBy, Finds;
    var mid, poll := Run(sys, r.before), Poll(p, |r.batch|);
    OutsideRun(sys, p, r.before, source);
    PollStep(mid, p, r.batch);
    OutsideRun(Step(mid, poll), p, r.after, source);
    RunPrepend(mid, poll, r.after, source, p);
    PollReceivesNothing(mid, poll, source, p);
    RunPrependState(mid, poll, r.after);
    RunConcat(sys, r.before, [poll] + r.after, source, p);
  }

  lemma RunPrependState(sys: System, e: Event, rest: seq<Event>)
    requires Inv(sys) && Enabled(sys, e) && Inv(Step(sys, e)) && Allowed(Step(sys, e), rest)
    requires Allowed(sys, [e] + rest)
    ensures Run(sys, [e] + rest) == Run(Step(sys, e), rest)
  {
    hide Shaped, NodesOk, LinksOk, RoutesOk, Step, Enabled;
    assert ([e] + rest)[1..] == rest;
  }

  lemma PollReceivesNothing(sys: System, e: Event, s: nat, d: nat)
    requires Inv(sys) && Enabled(sys, e) && e.Poll?
    ensures ReceivedBy(sys, e, s, d) == []
  {
  }

  /** The rounds can follow one another. */
  ghost predicate Schedule(sys: System, p: nat, rounds: seq<Round>)
    requires Inv(sys) && p < |sys.nodes|
    decreases |rounds|
  {
    rounds == [] || (RoundFits(sys, p, rounds[0]) && Schedule(AfterRound(sys, p, rounds[0]), p, rounds[1..]))
  }

  /** What the polls of the rounds find. */
  function PollsOf(rounds: seq<Round>): (polls: seq<PollResult>)
    ensures |polls| == |rounds|
  {
    if rounds == [] then [] else [Batch(rounds[0].batch)] + PollsOf(rounds[1..])
  }

  lemma PollsOfRest(rounds: seq<Round>)
    requires rounds != []
    ensures PollsOf(rounds)[0] == Batch(rounds[0].batch) && PollsOf(rounds)[1..] == PollsOf(rounds[1..])
  {
  }

  lemma BatchIsOk(sys: System, p: nat, batch: seq<Completion>)
    requires Inv(sys) && p < |sys.nodes| && Finds(sys, p, batch)
    ensures BatchOk(|sys.nodes|, Batch(batch))
  {
    hide NodesOk, LinksOk, RoutesOk;
  }

  /** What is found are completions that a process can handle. */
  lemma {:induction false} PollsAreOk(sys: System, p: nat, rounds: seq<Round>)
    requires Inv(sys) && p < |sys.nodes| && Schedule(sys, p, rounds)
    ensures PollsOk(|sys.nodes|, PollsOf(rounds))
    decreases |rounds|
  {
    hide Shaped, NodesOk, LinksOk, RoutesOk, Step, Enabled, AfterRound, BatchOk, Finds;
    if rounds != [] {
      BatchIsOk(Run(sys, rounds[0].before), p, rounds[0].batch);
      PollsAreOk(AfterRound(sys, p, rounds[0]), p, rounds[1..]);
      var polls := PollsOf(rounds);
      forall i | 0 <= i < |polls| ensures BatchOk(|sys.nodes|, polls[i]) {
        if i > 0 { assert polls[i] == PollsOf(rounds[1..])[i - 1]; }
      }
    }
  }

  lemma HostIsWellFormed(sys: System, p: nat)
    requires Inv(sys) && p < |sys.nodes|
    ensures sys.nodes[p].host.WellFormed(|sys.nodes|)
    ensures |sys.nodes[p].host.pendingRecv| == |sys.nodes|
    ensures forall source: nat :: source < |sys.nodes| ==> AllVbufs(sys.nodes[p].host.pendingRecv[source])
  {
    hide LinksOk, RoutesOk, Genuine, TotalOk, LengthsOk, Conserved;
    forall source: nat | source < |sys.nodes| ensures AllVbufs(sys.nodes[p].host.pendingRecv[source]) {
      PendingIdsAreVbufs(sys.nodes[p], source);
    }
  }

  lemma PendingIdsAreVbufs(node: Node, source: nat)
    requires Conserved(node) && source < |node.host.pendingRecv|
    ensures AllVbufs(node.host.pendingRecv[source])
  {
    hide Conserved;
    forall id | id in node.host.pendingRecv[source] ensures IsVbuf(id) {
      QueueIsPending(node, source, id);
      PlacesExclude(node, id);
    }
  }

  // ---- Set-up and posts ----

  /** What the set-up leaves in the context is the process of an initial node. */
  lemma ContextIsInitial(nprocs: nat, table: seq<int>, tx: Bytes)
    requires |table| == QPN_HASH_SIZE && forall k :: 0 <= k < |table| ==> table[k] < nprocs
    ensures InitialProcess(nprocs, table) == FreshNode(nprocs, table, tx).host
  {
    UpToAt(PREPOST_DEPTH);
    assert UpTo(PREPOST_DEPTH) == seq(PREPOST_DEPTH, i => i);
  }

  lemma {:induction false} UpToAt(n: nat)
    ensures |UpTo(n)| == n && forall i :: 0 <= i < n ==> UpTo(n)[i] == i
  {
    if n > 0 { UpToAt(n - 1); }
  }

  /** The send that the network carries is the one that the call hands to the card, captured at once or not. */
  lemma HandedIsCarried(tx: Bytes, wr: WorkRequest, maxInline: nat)
    requires wr.request.Send? && wr.from + wr.len <= |tx| && (wr.inline <==> wr.len < maxInline)
    ensures var frame := SendFrame(tx, Span(wr.from, wr.len), maxInline);
            && frame.Inline? == wr.inline && frame.Kind() == wr.request
            && Data(frame, tx) == tx[wr.from..wr.from + wr.len]
            && forall later: Bytes :: |later| == |tx| ==>
                 Data(frame, later) == (if wr.inline then tx else later)[wr.from..wr.from + wr.len]
  {
  }

  // ---- Receive ----

  /** Rounds until a message from `source` is pending, then the receive. */
  ghost function ZrecvEvents(sys: System, p: nat, source: nat, rounds: seq<Round>): seq<Event>
    requires Inv(sys) && p < |sys.nodes| && source < |sys.nodes| && Schedule(sys, p, rounds)
    decreases |rounds|
  {
    HostIsWellFormed(sys, p);
    if sys.nodes[p].host.pendingRecv[source] != [] then [Zrecv(p, source)]
    else if rounds == [] then []
    else RoundEvents(p, rounds[0]) + ZrecvEvents(AfterRound(sys, p, rounds[0]), p, source, rounds[1..])
  }

  /** The message a receive call hands out, read where the call says it is. */
  ghost function HandedBy(rx: Bytes, r: Receipt): seq<Bytes> {
    match r
    case Got(off, len) => if 0 <= off && off + len <= |rx| then [rx[off..off + len]] else []
    case _ => []
  }

  /**
   A receive call never exits, whatever happens while it waits; if it ends, it hands out the message that the
   run receives, and the message is where the call says it is.
   */
  lemma {:induction false} ZrecvIsARun(sys: System, p: nat, source: nat, rounds: seq<Round>)
    requires Inv(sys) && p < |sys.nodes| && source < |sys.nodes| && Schedule(sys, p, rounds)
    ensures sys.nodes[p].host.WellFormed(|sys.nodes|)
    ensures PollsOk(|sys.nodes|, PollsOf(rounds)) && AllVbufs(sys.nodes[p].host.pendingRecv[source])
    ensures Allowed(sys, ZrecvEvents(sys, p, source, rounds))
    ensures var loop := RecvLoop(sys.nodes[p].host, |sys.nodes|, PollsOf(rounds), source);
            var events := ZrecvEvents(sys, p, source, rounds);
            var after := Run(sys, events).nodes[p];
            && loop.0 != RecvExit
            && loop.1 == after.host
            && ReceivedLog(sys, events, source, p) == HandedBy(after.rx, loop.0)
    decreases |rounds|
  {
    hide Shaped, NodesOk, LinksOk, RoutesOk, Enabled, Step, ProcessBatch, ReceivedBy, AllVbufs, BatchOk,
         Process.WellFormed, AfterRound, RoundFits, RoundEvents;
    HostIsWellFormed(sys, p);
    PollsAreOk(sys, p, rounds);
    var events := ZrecvEvents(sys, p, source, rounds);
    if HasPending(sys, p, source) {
      ReceiveAtOnce(sys, p, source);
    } else if rounds == [] {
      assert events == [];
    } else {
      var next := AfterRound(sys, p, rounds[0]);
      RoundRun(sys, p, rounds[0], source);
      ZrecvIsARun(next, p, source, rounds[1..]);
      PollsOfRest(rounds);
      RunConcat(sys, RoundEvents(p, rounds[0]), ZrecvEvents(next, p, source, rounds[1..]), source, p);
    }
  }

  ghost predicate HasPending(sys: System, p: nat, source: nat)
    requires p < |sys.nodes|
  {
    source < |sys.nodes[p].host.pendingRecv| && sys.nodes[p].host.pendingRecv[source] != []
  }

  lemma ReceiveAtOnce(sys: System, p: nat, source: nat)
    requires Inv(sys) && p < |sys.nodes| && source < |sys.nodes| && HasPending(sys, p, source)
    ensures Allowed(sys, [Zrecv(p, source)])
    ensures Run(sys, [Zrecv(p, source)]).nodes[p].host == Taken(sys.nodes[p].host, source)
    ensures Run(sys, [Zrecv(p, source)]).nodes[p].rx == sys.nodes[p].rx
    ensures |sys.nodes[p].host.vbufFetched| < PREPOST_DEPTH
    ensures var id := sys.nodes[p].host.pendingRecv[source][0];
            && IsVbuf(id) && |sys.nodes[p].host.bufBytes| == PREPOST_DEPTH
            && ReceivedLog(sys, [Zrecv(p, source)], source, p)
               == HandedBy(sys.nodes[p].rx, Got(Base(id), sys.nodes[p].host.bufBytes[id]))
  {
    hide LinksOk, RoutesOk, Conserved, TotalOk, Genuine;
    var e, node := Zrecv(p, source), sys.nodes[p];
    var id := node.host.pendingRecv[source][0];
    assert id in node.host.pendingRecv[source];
    PendingIdsAreVbufs(node, source);
    QueuesNeverFull(sys, p, source);
    StepKeeps(sys, e);
    assert [e][1..] == [];
    assert ReceivedLog(sys, [e], source, p) == ReceivedBy(sys, e, source, p) + ReceivedLog(Step(sys, e), [], source, p);
  }

  lemma PollNothing(sys: System, p: nat)
    requires Inv(sys) && p < |sys.nodes|
    ensures Finds(sys, p, []) && Enabled(sys, Poll(p, 0)) && Step(sys, Poll(p, 0)) == sys
  {
    hide NodesOk, LinksOk, RoutesOk;
    assert Polled(sys.nodes[p], |sys.nodes|, 0) == sys.nodes[p];
    assert sys.nodes[p := sys.nodes[p]] == sys.nodes;
  }

  /** A round in which one event happens before a poll that finds nothing. */
  lemma WaitRound(sys: System, p: nat, e: Event)
    requires Inv(sys) && p < |sys.nodes| && Enabled(sys, e) && Inv(Step(sys, e)) && Outside(p, e)
    ensures RoundFits(sys, p, Round([e], [], [])) && AfterRound(sys, p, Round([e], [], [])) == Step(sys, e)
  {
    hide Shaped, NodesOk, LinksOk, RoutesOk, Step, Enabled, Finds, ProcessBatch;
    RunPrepend(sys, e, [], p, p);
    RunPrependState(sys, e, []);
    assert [e] + [] == [e];
    PollNothing(Step(sys, e), p);
  }

  /** A round that polls the first completion. */
  lemma PollRound(sys: System, p: nat)
    requires Inv(sys) && p < |sys.nodes| && sys.nodes[p].cq != []
    ensures var r := Round([], [sys.nodes[p].cq[0]], []);
            RoundFits(sys, p, r) && Enabled(sys, Poll(p, 1)) && AfterRound(sys, p, r) == Step(sys, Poll(p, 1))
  {
    hide Shaped, NodesOk, LinksOk, RoutesOk, Step, ProcessBatch;
    assert Finds(sys, p, [sys.nodes[p].cq[0]]);
    PollStep(sys, p, [sys.nodes[p].cq[0]]);
  }

  /**
   A receive that waits can end: with a message in flight, and a vbuf posted or the message arrived, some
   deliveries and polls make it hand out the oldest one.
   */
  lemma {:induction false} ZrecvCanEnd(sys: System, s: nat, d: nat) returns (rounds: seq<Round>)
    requires Inv(sys) && s < |sys.nodes| && d < |sys.nodes| && (s, d) in sys.links
    requires InFlight(sys, s, d) != [] && CanTake(sys.nodes[d], s)
    ensures Schedule(sys, d, rounds) && Allowed(sys, ZrecvEvents(sys, d, s, rounds))
    ensures ReceivedLog(sys, ZrecvEvents(sys, d, s, rounds), s, d) == [InFlight(sys, s, d)[0]]
    decreases |sys.links[(s, d)].frames|, |sys.nodes[d].cq|
  {
    hide Shaped, NodesOk, LinksOk, RoutesOk, Enabled, Step;
    hide InFlight, ReceivedBy, CanTake, RoundFits, AfterRound, RoundEvents;
    InvLinks(sys, s, d);
    if sys.nodes[d].host.pendingRecv[s] != [] {
      rounds := [];
      ReceiveBrings(sys, s, d);
      RunPrepend(sys, Zrecv(d, s), [], s, d);
      assert [Zrecv(d, s)] + [] == [Zrecv(d, s)];
    } else {
      var r: Round;
      if sys.nodes[d].cq != [] {
        r := Round([], [sys.nodes[d].cq[0]], []);
        PollBrings(sys, s, d);
        PollRound(sys, d);
      } else {
        var id := FirstMove(sys, s, d);
        r := Round([Deliver(s, d, id)], [], []);
        DeliverBrings(sys, s, d, id);
        WaitRound(sys, d, Deliver(s, d, id));
      }
      var next := AfterRound(sys, d, r);
      InvLinks(next, s, d);
      var rest := ZrecvCanEnd(next, s, d);
      rounds := [r] + rest;
      assert rounds[1..] == rest;
      RoundRun(sys, d, r, s);
      RunConcat(sys, RoundEvents(d, r), ZrecvEvents(next, d, s, rest), s, d);
    }
  }

  // ---- Flush ----

  /** Rounds while requests are pending, then the return of the flush. */
  ghost function ZflushEvents(sys: System, p: nat, rounds: seq<Round>): seq<Event>
    requires Inv(sys) && p < |sys.nodes| && Schedule(sys, p, rounds)
    decreases |rounds|
  {
    if sys.nodes[p].host.pendingSendWr <= 0 then [Zflush(p)]
    else if rounds == [] then []
    else RoundEvents(p, rounds[0]) + ZflushEvents(AfterRound(sys, p, rounds[0]), p, rounds[1..])
  }

  /** No request of `p` for `d` is anywhere between its post and its poll, and its send queue has all its room. */
  ghost predicate NothingPending(sys: System, p: nat, d: nat)
    requires Shaped(sys) && p < |sys.nodes| && d < |sys.nodes|
  {
    && sys.links[(p, d)] == Link([], [])
    && Reported(sys.nodes[p].cq, d) == 0
    && sys.nodes[p].host.qpPendingSendWr[d] == 0
  }

  lemma NothingLeft(sys: System, p: nat, d: nat)
    requires Inv(sys) && p < |sys.nodes| && d < |sys.nodes| && sys.nodes[p].host.pendingSendWr <= 0
    ensures NothingPending(sys, p, d)
  {
    hide NodesOk, RoutesOk, FramesOk, Reported;
    FlushMeansDone(sys, p, d);
    assert CreditOk(sys.nodes[p], sys.links[(p, d)], d);
  }

  lemma FlushAtOnce(sys: System, p: nat)
    requires Inv(sys) && p < |sys.nodes| && sys.nodes[p].host.pendingSendWr <= 0
    ensures Allowed(sys, [Zflush(p)])
    ensures var after := Run(sys, [Zflush(p)]);
            && after.nodes[p].host == sys.nodes[p].host && after.nodes[p].unflushed == []
            && forall d: nat :: d < |sys.nodes| ==> NothingPending(after, p, d)
  {
    hide NodesOk, LinksOk, RoutesOk, Reported, NothingPending;
    StepKeeps(sys, Zflush(p));
    assert [Zflush(p)][1..] == [];
    var after := Step(sys, Zflush(p));
    assert Run(sys, [Zflush(p)]) == after;
    forall d: nat | d < |sys.nodes| ensures NothingPending(after, p, d) {
      NothingLeft(after, p, d);
    }
  }

  /**
   A flush never exits, whatever happens while it waits, and returns 0 exactly if its run settled all requests;
   then every earlier request of the process was carried out, reported and polled.
   */
  lemma {:induction false} ZflushIsARun(sys: System, p: nat, rounds: seq<Round>)
    requires Inv(sys) && p < |sys.nodes| && Schedule(sys, p, rounds)
    ensures sys.nodes[p].host.WellFormed(|sys.nodes|) && PollsOk(|sys.nodes|, PollsOf(rounds))
    ensures Allowed(sys, ZflushEvents(sys, p, rounds))
    ensures var loop := FlushLoop(sys.nodes[p].host, |sys.nodes|, PollsOf(rounds));
            var after := Run(sys, ZflushEvents(sys, p, rounds));
            && loop.0 == (if after.nodes[p].host.pendingSendWr <= 0 then Done(0) else Spinning)
            && loop.1 == after.nodes[p].host
            && (after.nodes[p].host.pendingSendWr <= 0 ==>
                 && after.nodes[p].unflushed == []
                 && forall d: nat :: d < |sys.nodes| ==> NothingPending(after, p, d))
    decreases |rounds|
  {
    hide Shaped, NodesOk, LinksOk, RoutesOk, Enabled, Step, ProcessBatch, BatchOk, NothingPending,
         Process.WellFormed, AfterRound, RoundFits, RoundEvents;
    HostIsWellFormed(sys, p);
    PollsAreOk(sys, p, rounds);
    if sys.nodes[p].host.pendingSendWr <= 0 {
      FlushAtOnce(sys, p);
    } else if rounds == [] {
      assert ZflushEvents(sys, p, rounds) == [];
    } else {
      var next := AfterRound(sys, p, rounds[0]);
      RoundRun(sys, p, rounds[0], p);
      ZflushIsARun(next, p, rounds[1..]);
      PollsOfRest(rounds);
      RunConcat(sys, RoundEvents(p, rounds[0]), ZflushEvents(next, p, rounds[1..]), p, p);
    }
  }

  // ---- Send, write and read ----

  /** The event is an accepted request of `p` for `dest`, whichever of the three calls posts it. */
  predicate IsPost(e: Event, p: nat, dest: nat) {
    (e.Zsend? || e.PostOneSided?) && e.rank == p && e.dest == dest
  }

  /** The rounds of the throttle: up to the first poll that finds something. */
  function ThrottleEvents(p: nat, rounds: seq<Round>): seq<Event> {
    if rounds == [] then []
    else RoundEvents(p, rounds[0]) + if rounds[0].batch != [] then [] else ThrottleEvents(p, rounds[1..])
  }

  lemma NothingFound(p: Process, nprocs: nat)
    requires p.WellFormed(nprocs)
    ensures ProcessBatch(p, nprocs, []) == Running(p)
  {
  }

  /** The process after the throttle: it handled the first batch that was not empty, if there was one. */
  lemma {:induction false} ThrottleIsARun(sys: System, p: nat, rounds: seq<Round>)
    requires Inv(sys) && p < |sys.nodes| && Schedule(sys, p, rounds)
    ensures sys.nodes[p].host.WellFormed(|sys.nodes|) && PollsOk(|sys.nodes|, PollsOf(rounds))
    ensures Allowed(sys, ThrottleEvents(p, rounds))
    ensures var k := FirstAnswer(PollsOf(rounds));
            var after := Run(sys, ThrottleEvents(p, rounds)).nodes[p].host;
            if k == |rounds| then after == sys.nodes[p].host
            else
              && PollsOf(rounds)[k] == Batch(rounds[k].batch)
              && BatchOk(|sys.nodes|, Batch(rounds[k].batch))
              && ProcessBatch(sys.nodes[p].host, |sys.nodes|, rounds[k].batch) == Running(after)
    decreases |rounds|
  {
    hide Shaped, NodesOk, LinksOk, RoutesOk, Enabled, Step, BatchOk, ProcessBatch, Process.WellFormed,
         AfterRound, RoundFits, RoundEvents;
    HostIsWellFormed(sys, p);
    PollsAreOk(sys, p, rounds);
    if rounds != [] {
      var next := AfterRound(sys, p, rounds[0]);
      RoundRun(sys, p, rounds[0], p);
      PollsOfRest(rounds);
      assert BatchOk(|sys.nodes|, PollsOf(rounds)[0]);
      if rounds[0].batch != [] {
        assert RoundEvents(p, rounds[0]) + [] == RoundEvents(p, rounds[0]);
      } else {
        NothingFound(sys.nodes[p].host, |sys.nodes|);
        assert next.nodes[p].host == sys.nodes[p].host;
        ThrottleIsARun(next, p, rounds[1..]);
        RunConcat(sys, RoundEvents(p, rounds[0]), ThrottleEvents(p, rounds[1..]), p, p);
      }
    }
  }

  ghost function PostEvents(sys: System, p: nat, dest: nat, e: Event, rounds: seq<Round>): seq<Event>
    requires Shaped(sys) && p < |sys.nodes| && dest < |sys.nodes|
  {
    [e] + if sys.nodes[p].host.qpPendingSendWr[dest] + 1 == MAX_SEND_WR_PER_QP then ThrottleEvents(p, rounds) else []
  }

  lemma PostCounters(sys: System, p: nat, dest: nat, e: Event)
    requires Inv(sys) && Enabled(sys, e) && IsPost(e, p, dest)
    ensures p < |sys.nodes| && dest < |sys.nodes| && dest < |sys.nodes[p].host.qpPendingSendWr|
    ensures Inv(Step(sys, e)) && Step(sys, e).nodes[p].host == Posted(sys.nodes[p].host, dest)
    ensures sys.nodes[p].host.qpPendingSendWr[dest] < MAX_SEND_WR_PER_QP
  {
    hide NodesOk, LinksOk, RoutesOk;
    StepKeeps(sys, e);
  }

  /**
   An accepted request never makes the process exit, whatever happens while it is throttled, and leaves the
   counters and queues where its run leaves them.
   */
  lemma PostIsARun(sys: System, p: nat, dest: nat, e: Event, rounds: seq<Round>)
    requires Inv(sys) && Enabled(sys, e) && IsPost(e, p, dest) && p < |sys.nodes| && dest < |sys.nodes|
    requires Inv(Step(sys, e)) && Schedule(Step(sys, e), p, rounds)
    ensures dest < |sys.nodes[p].host.qpPendingSendWr|
    ensures Posted(sys.nodes[p].host, dest).WellFormed(|sys.nodes|) && PollsOk(|sys.nodes|, PollsOf(rounds))
    ensures Allowed(sys, PostEvents(sys, p, dest, e, rounds))
    ensures var filled := sys.nodes[p].host.qpPendingSendWr[dest] + 1 == MAX_SEND_WR_PER_QP;
            Throttle(Posted(sys.nodes[p].host, dest), |sys.nodes|, dest, PollsOf(rounds))
            == (if filled && FirstAnswer(PollsOf(rounds)) == |rounds| then Spinning else Done(0),
                Run(sys, PostEvents(sys, p, dest, e, rounds)).nodes[p].host)
  {
    hide NodesOk, LinksOk, RoutesOk, Ready, Enabled, Step, ProcessBatch, BatchOk;
    hide Schedule, ThrottleEvents, Process.WellFormed;
    var next := Step(sys, e);
    PostCounters(sys, p, dest, e);
    HostIsWellFormed(next, p);
    PollsAreOk(next, p, rounds);
    if sys.nodes[p].host.qpPendingSendWr[dest] + 1 == MAX_SEND_WR_PER_QP {
      ThrottleIsARun(next, p, rounds);
      RunPrepend(sys, e, ThrottleEvents(p, rounds), p, p);
      RunPrependState(sys, e, ThrottleEvents(p, rounds));
    } else {
      RunPrepend(sys, e, [], p, p);
      RunPrependState(sys, e, []);
    }
  }

  /**
   After an accepted request the next one for the same destination is accepted too, unless the request filled
   the queue and the batch that was then polled had no completion for that destination.
   */
  lemma PostLeavesRoom(sys: System, p: nat, dest: nat, e: Event, rounds: seq<Round>)
    requires Inv(sys) && Enabled(sys, e) && IsPost(e, p, dest) && p < |sys.nodes| && dest < |sys.nodes|
    requires Inv(Step(sys, e)) && Schedule(Step(sys, e), p, rounds)
    ensures dest < |sys.nodes[p].host.qpPendingSendWr|
    ensures Allowed(sys, PostEvents(sys, p, dest, e, rounds))
    ensures var after := Run(sys, PostEvents(sys, p, dest, e, rounds)).nodes[p].host;
            var k := FirstAnswer(PollsOf(rounds));
            && dest < |after.qpPendingSendWr|
            && (after.qpPendingSendWr[dest] < MAX_SEND_WR_PER_QP <==>
                  || sys.nodes[p].host.qpPendingSendWr[dest] + 1 < MAX_SEND_WR_PER_QP
                  || (k < |rounds| && exists wc :: wc in rounds[k].batch && wc.Completed? && wc.dest == dest))
  {
    hide NodesOk, LinksOk, RoutesOk, Ready, Enabled, Step, ProcessBatch, Schedule, ThrottleEvents;
    var next := Step(sys, e);
    PostCounters(sys, p, dest, e);
    PostIsARun(sys, p, dest, e, rounds);
    if sys.nodes[p].host.qpPendingSendWr[dest] + 1 == MAX_SEND_WR_PER_QP {
      ThrottleIsARun(next, p, rounds);
      RunPrepend(sys, e, ThrottleEvents(p, rounds), p, p);
      RunPrependState(sys, e, ThrottleEvents(p, rounds));
      var k := FirstAnswer(PollsOf(rounds));
      if k < |rounds| {
        BatchSettles(next.nodes[p].host, |sys.nodes|, rounds[k].batch, dest);
        ReportedNone(rounds[k].batch, dest);
      }
    }
  }

  // ---- Return ----

  /** A return posts one vbuf after the other; other things happen before each post. */
  function ReturnEvents(p: nat, gaps: seq<seq<Event>>): seq<Event> {
    if gaps == [] then [] else gaps[0] + ([Return(p)] + ReturnEvents(p, gaps[1..]))
  }

  ghost predicate GapFits(sys: System, p: nat, gap: seq<Event>)
    requires Inv(sys) && p < |sys.nodes|
  {
    && AllOutside(p, gap) && Allowed(sys, gap) && Run(sys, gap).nodes[p].host.vbufFetched != []
  }

  ghost function AfterPost(sys: System, p: nat, gap: seq<Event>): (after: System)
    requires Inv(sys) && p < |sys.nodes| && GapFits(sys, p, gap)
    ensures Inv(after) && |after.nodes| == |sys.nodes|
  {
    ReturnStep(Run(sys, gap), p);
    Step(Run(sys, gap), Return(p))
  }

  ghost predicate GapsFit(sys: System, p: nat, gaps: seq<seq<Event>>)
    requires Inv(sys) && p < |sys.nodes|
    decreases |gaps|
  {
    gaps == [] || (GapFits(sys, p, gaps[0]) && GapsFit(AfterPost(sys, p, gaps[0]), p, gaps[1..]))
  }

  lemma ReturnStep(sys: System, p: nat)
    requires Inv(sys) && p < |sys.nodes| && sys.nodes[p].host.vbufFetched != []
    ensures Enabled(sys, Return(p)) && Inv(Step(sys, Return(p)))
    ensures Step(sys, Return(p)).nodes[p].host
            == sys.nodes[p].host.(vbufFetched := sys.nodes[p].host.vbufFetched[1..])
  {
    hide NodesOk, LinksOk, RoutesOk;
    StepKeeps(sys, Return(p));
  }

  /** The vbufs that `p` posts in a run, in order. */
  ghost function PostedLog(sys: System, events: seq<Event>, p: nat): seq<int>
    requires Inv(sys) && Allowed(sys, events) && p < |sys.nodes|
    decreases |events|
  {
    if events == [] then []
    else
      StepKeeps(sys, events[0]);
      (if events[0] == Return(p) && sys.nodes[p].host.vbufFetched != [] then [sys.nodes[p].host.vbufFetched[0]] else [])
      + PostedLog(Step(sys, events[0]), events[1..], p)
  }

  lemma {:induction false} PostedLogConcat(sys: System, first: seq<Event>, second: seq<Event>, p: nat)
    requires Inv(sys) && Allowed(sys, first) && Allowed(Run(sys, first), second) && p < |sys.nodes|
    requires AllOutside(p, first) && Allowed(sys, first + second)
    ensures PostedLog(sys, first + second, p) == PostedLog(Run(sys, first), second, p)
    decreases |first|
  {
    hide Shaped, NodesOk, LinksOk, RoutesOk, Step, Enabled;
    if first == [] {
      assert first + second == second;
    } else {
      StepKeeps(sys, first[0]);
      assert (first + second)[1..] == first[1..] + second;
      PostedLogConcat(Step(sys, first[0]), first[1..], second, p);
    }
  }

  /** One post of a return, after what happens before it. */
  lemma ReturnRound(sys: System, p: nat, gap: seq<Event>, rest: seq<Event>)
    requires Inv(sys) && p < |sys.nodes| && GapFits(sys, p, gap) && Allowed(AfterPost(sys, p, gap), rest)
    ensures Allowed(sys, gap + ([Return(p)] + rest))
    ensures Run(sys, gap + ([Return(p)] + rest)) == Run(AfterPost(sys, p, gap), rest)
    ensures sys.nodes[p].host.vbufFetched != []
    ensures AfterPost(sys, p, gap).nodes[p].host
            == sys.nodes[p].host.(vbufFetched := sys.nodes[p].host.vbufFetched[1..])
    ensures PostedLog(sys, gap + ([Return(p)] + rest), p)
            == [sys.nodes[p].host.vbufFetched[0]] + PostedLog(AfterPost(sys, p, gap), rest, p)
  {
    hide Shaped, NodesOk, LinksOk, RoutesOk, Step, Enabled, ReceivedBy;
    var mid := Run(sys, gap);
    OutsideRun(sys, p, gap, p);
    ReturnStep(mid, p);
    RunPrepend(mid, Return(p), rest, p, p);
    RunPrependState(mid, Return(p), rest);
    RunConcat(sys, gap, [Return(p)] + rest, p, p);
    PostedLogConcat(sys, gap, [Return(p)] + rest, p);
    assert ([Return(p)] + rest)[1..] == rest;
  }

  /**
   A return call posts exactly the vbufs of the last group, in order, whatever happens between its posts, and
   leaves the rest of the process alone.
   */
  lemma {:induction false} ReturnIsARun(sys: System, p: nat, gaps: seq<seq<Event>>)
    requires Inv(sys) && p < |sys.nodes| && |gaps| == |sys.nodes[p].host.vbufFetched| && GapsFit(sys, p, gaps)
    ensures Allowed(sys, ReturnEvents(p, gaps))
    ensures Run(sys, ReturnEvents(p, gaps)).nodes[p].host == sys.nodes[p].host.(vbufFetched := [])
    ensures PostedLog(sys, ReturnEvents(p, gaps), p) == sys.nodes[p].host.vbufFetched
    decreases |gaps|
  {
    hide Shaped, NodesOk, LinksOk, RoutesOk, Step, Enabled, AfterPost, GapFits;
    if gaps == [] {
      assert ReturnEvents(p, gaps) == [];
    } else {
      var next := AfterPost(sys, p, gaps[0]);
      ReturnRound(sys, p, gaps[0], []);
      ReturnIsARun(next, p, gaps[1..]);
      ReturnRound(sys, p, gaps[0], ReturnEvents(p, gaps[1..]));
      var fetched := sys.nodes[p].host.vbufFetched;
      assert fetched == [fetched[0]] + fetched[1..];
    }
  }

  /** Afterwards each vbuf of the group is posted, or a message has already arrived in it. */
  lemma ReturnedArePosted(sys: System, p: nat, gaps: seq<seq<Event>>, id: int)
    requires Inv(sys) && p < |sys.nodes| && |gaps| == |sys.nodes[p].host.vbufFetched| && GapsFit(sys, p, gaps)
    requires id in sys.nodes[p].host.vbufFetched && Allowed(sys, ReturnEvents(p, gaps))
    ensures var after := Run(sys, ReturnEvents(p, gaps)).nodes[p];
            id in after.srq || id in ArrivedIds(after.cq)
  {
    hide LinksOk, RoutesOk, Conserved, Genuine, TotalOk, LengthsOk, Ready, GapsFit, Allowed;
    ReturnIsARun(sys, p, gaps);
    var after := Run(sys, ReturnEvents(p, gaps));
    assert NodeOk(after.nodes[p], |after.nodes|);
    PlacesExclude(sys.nodes[p], id);
    PlacesExclude(after.nodes[p], id);
  }
}
