/**
 When the waiting calls of src/ympi.c can end.  The other ranks can always make room for what is on its way to them,
 but a process that waits posts no vbuf: what a flush sent to itself must fit those that are posted, and a receive
 needs one that is posted or a message that has arrived.
 */
module YmpiWaiting {
  import opened Common
  import opened YmpiProcess
  import opened YmpiNode
  import opened YmpiNetwork
  import opened YmpiRuns
  import opened YmpiContext
  import opened YmpiCalls

  /** The sends among the requests of a link; each of them takes a vbuf of the receiver. */
  ghost function Sends(frames: seq<Frame>): nat {
    if frames == [] then 0 else (if frames[0].OneSided? then 0 else 1) + Sends(frames[1..])
  }

  /** What the process sent to itself and did not get yet fits the vbufs that it has posted. */
  ghost predicate OwnFit(sys: System, p: nat)
    requires Shaped(sys) && p < |sys.nodes|
  {
    Sends(sys.links[(p, p)].frames) <= |sys.nodes[p].srq|
  }

  /** A flush that finds these rounds returns 0. */
  ghost predicate Returns(sys: System, p: nat, rounds: seq<Round>)
    requires Inv(sys) && p < |sys.nodes|
  {
    && Schedule(sys, p, rounds)
    && (HostIsWellFormed(sys, p);
        PollsAreOk(sys, p, rounds);
        FlushLoop(sys.nodes[p].host, |sys.nodes|, PollsOf(rounds)).0 == Done(0))
  }

  /** A receive that finds these rounds hands out a message. */
  ghost predicate Receives(sys: System, p: nat, source: nat, rounds: seq<Round>)
    requires Inv(sys) && p < |sys.nodes| && source < |sys.nodes|
  {
    && Schedule(sys, p, rounds)
    && (HostIsWellFormed(sys, p);
        PollsAreOk(sys, p, rounds);
        RecvLoop(sys.nodes[p].host, |sys.nodes|, PollsOf(rounds), source).0.Got?)
  }

  // ---- Room at another rank ----

  /** A step by which a rank gets on with its receives. */
  predicate Receiving(e: Event) {
    e.Poll? || e.Zrecv? || e.Return?
  }

  lemma LocalStep(sys: System, e: Event, p: nat)
    requires Inv(sys) && Enabled(sys, e) && Receiving(e) && p < |sys.nodes| && e.rank != p
    ensures Inv(Step(sys, e)) && Step(sys, e).links == sys.links && |Step(sys, e).nodes| == |sys.nodes|
    ensures Step(sys, e).nodes[p] == sys.nodes[p] && Outside(p, e)
  {
    hide NodesOk, LinksOk, RoutesOk;
    StepKeeps(sys, e);
  }

  lemma ReturnMakesRoom(sys: System, d: nat)
    requires Inv(sys) && d < |sys.nodes| && sys.nodes[d].host.vbufFetched != []
    ensures Enabled(sys, Return(d)) && Step(sys, Return(d)).nodes[d].srq != {}
  {
    hide NodesOk, LinksOk, RoutesOk;
    assert sys.nodes[d].host.vbufFetched[0] in Step(sys, Return(d)).nodes[d].srq;
  }

  lemma ZrecvFetches(sys: System, d: nat, source: nat)
    requires Inv(sys) && d < |sys.nodes| && source < |sys.nodes[d].host.pendingRecv|
    requires sys.nodes[d].host.pendingRecv[source] != []
    ensures Enabled(sys, Zrecv(d, source)) && Step(sys, Zrecv(d, source)).nodes[d].host.vbufFetched != []
  {
    hide NodesOk, LinksOk, RoutesOk;
  }

  lemma PollShortens(sys: System, d: nat)
    requires Inv(sys) && d < |sys.nodes| && sys.nodes[d].cq != []
    ensures Enabled(sys, Poll(d, 1))
    ensures |Step(sys, Poll(d, 1)).nodes| == |sys.nodes| && Step(sys, Poll(d, 1)).links == sys.links
    ensures |Step(sys, Poll(d, 1)).nodes[d].cq| == |sys.nodes[d].cq| - 1
    ensures Step(sys, Poll(d, 1)).nodes[d].srq == sys.nodes[d].srq
  {
    hide NodesOk, LinksOk, RoutesOk, ProcessBatch;
    NeverExits(sys, d, 1);
    StepPolls(sys, d, 1);
  }

  /** With no vbuf posted, fetched or pending, messages are waiting to be polled. */
  lemma SomethingArrived(node: Node)
    requires Conserved(node) && node.srq == {} && node.host.vbufFetched == []
    requires forall source :: 0 <= source < |node.host.pendingRecv| ==> node.host.pendingRecv[source] == []
    ensures node.cq != []
  {
    NoPending(node.host.pendingRecv);
    PlacesExclude(node, 0);
  }

  lemma NodeIsConserved(sys: System, d: nat)
    requires Inv(sys) && d < |sys.nodes|
    ensures Conserved(sys.nodes[d]) && |sys.nodes[d].host.pendingRecv| == |sys.nodes|
  {
    hide LinksOk, RoutesOk, Genuine, TotalOk, LengthsOk;
  }

  /** The two runs one after the other, when the first is a single step. */
  lemma StepThen(sys: System, p: nat, e: Event, rest: seq<Event>)
    requires Inv(sys) && p < |sys.nodes| && Enabled(sys, e) && Inv(Step(sys, e)) && Outside(p, e)
    requires Allowed(Step(sys, e), rest) && AllOutside(p, rest)
    ensures Allowed(sys, [e] + rest) && AllOutside(p, [e] + rest)
    ensures Run(sys, [e] + rest) == Run(Step(sys, e), rest)
  {
    hide Shaped, NodesOk, LinksOk, RoutesOk, Step, Enabled, Outside;
    RunPrepend(sys, e, rest, 0, 0);
    RunPrependState(sys, e, rest);
  }

  /** Another rank can always come to post a vbuf, without anything happening to `p` or to the links. */
  lemma {:induction false} MakeRoom(sys: System, p: nat, d: nat) returns (events: seq<Event>)
    requires Inv(sys) && p < |sys.nodes| && d < |sys.nodes| && d != p
    ensures Allowed(sys, events) && AllOutside(p, events)
    ensures var after := Run(sys, events);
            && Inv(after) && |after.nodes| == |sys.nodes| && after.links == sys.links
            && after.nodes[p] == sys.nodes[p] && after.nodes[d].srq != {}
    decreases |sys.nodes[d].cq|
  {
    hide Shaped, NodesOk, LinksOk, RoutesOk, Step, Enabled, Conserved, Outside;
    NodeIsConserved(sys, d);
    if sys.nodes[d].srq != {} {
      events := [];
    } else if sys.nodes[d].host.vbufFetched != [] {
      events := ReturnOne(sys, p, d);
    } else if source :| 0 <= source < |sys.nodes[d].host.pendingRecv| && sys.nodes[d].host.pendingRecv[source] != [] {
      var e := Zrecv(d, source);
      ZrecvFetches(sys, d, source);
      LocalStep(sys, e, p);
      var rest := ReturnOne(Step(sys, e), p, d);
      StepThen(sys, p, e, rest);
      events := [e] + rest;
    } else {
      SomethingArrived(sys.nodes[d]);
      PollShortens(sys, d);
      LocalStep(sys, Poll(d, 1), p);
      var rest := MakeRoom(Step(sys, Poll(d, 1)), p, d);
      StepThen(sys, p, Poll(d, 1), rest);
      events := [Poll(d, 1)] + rest;
    }
  }

  lemma ReturnOne(sys: System, p: nat, d: nat) returns (events: seq<Event>)
    requires Inv(sys) && p < |sys.nodes| && d < |sys.nodes| && d != p && sys.nodes[d].host.vbufFetched != []
    ensures Allowed(sys, events) && AllOutside(p, events)
    ensures var after := Run(sys, events);
            && Inv(after) && |after.nodes| == |sys.nodes| && after.links == sys.links
            && after.nodes[p] == sys.nodes[p] && after.nodes[d].srq != {}
  {
    hide Shaped, NodesOk, LinksOk, RoutesOk, Step, Enabled, Outside;
    ReturnMakesRoom(sys, d);
    LocalStep(sys, Return(d), p);
    StepThen(sys, p, Return(d), []);
    events := [Return(d)] + [];
  }

  // ---- One round nearer to the end ----

  /** For each destination, the work that is left until its requests are polled. */
  ghost function LinkWork(sys: System, p: nat): (r: seq<int>)
    requires Shaped(sys) && p < |sys.nodes|
    ensures |r| == |sys.nodes|
    ensures forall d :: 0 <= d < |r| ==> r[d] == 4 * |sys.links[(p, d)].frames| + 2 * |sys.links[(p, d)].unacked|
  {
    seq(|sys.nodes|, d requires 0 <= d < |sys.nodes| =>
      4 * |sys.links[(p, d)].frames| + 2 * |sys.links[(p, d)].unacked|)
  }

  ghost function Work(sys: System, p: nat): (w: nat)
    requires Shaped(sys) && p < |sys.nodes|
  {
    SumNatural(LinkWork(sys, p));
    Sum(LinkWork(sys, p)) + |sys.nodes[p].cq|
  }

  /** One link of `p` changes. */
  lemma WorkFollows(sys: System, after: System, p: nat, d: nat)
    requires Shaped(sys) && Shaped(after) && |after.nodes| == |sys.nodes| && p < |sys.nodes| && d < |sys.nodes|
    requires forall k: nat :: k < |sys.nodes| && k != d ==> after.links[(p, k)] == sys.links[(p, k)]
    ensures Sum(LinkWork(after, p)) == Sum(LinkWork(sys, p)) - LinkWork(sys, p)[d] + LinkWork(after, p)[d]
  {
    hide Sum, Ready, LinkWork;
    var before, now := LinkWork(sys, p), LinkWork(after, p);
    forall k: nat | k < |now| ensures now[k] == before[d := now[d]][k] {
      assert k != d ==> after.links[(p, k)] == sys.links[(p, k)];
    }
    assert now == before[d := now[d]];
    SumUpdate(before, d, now[d]);
  }

  /** The round brings the flush nearer to its end. */
  ghost predicate Nearer(sys: System, p: nat, r: Round)
    requires Inv(sys) && p < |sys.nodes|
  {
    && RoundFits(sys, p, r)
    && Work(AfterRound(sys, p, r), p) < Work(sys, p)
    && OwnFit(AfterRound(sys, p, r), p)
  }

  lemma PollNearer(sys: System, p: nat) returns (r: Round)
    requires Inv(sys) && p < |sys.nodes| && OwnFit(sys, p) && sys.nodes[p].cq != []
    ensures Nearer(sys, p, r)
  {
    hide NodesOk, LinksOk, RoutesOk, Shaped, Step, Enabled, RoundFits, AfterRound, Sum, Sends;
    r := Round([], [sys.nodes[p].cq[0]], []);
    PollRound(sys, p);
    PollShortens(sys, p);
    StepKeeps(sys, Poll(p, 1));
    SameLinks(sys, Step(sys, Poll(p, 1)), p);
  }

  lemma SameLinks(sys: System, after: System, p: nat)
    requires Shaped(sys) && Shaped(after) && |after.nodes| == |sys.nodes| && p < |sys.nodes|
    requires after.links == sys.links
    ensures LinkWork(after, p) == LinkWork(sys, p)
  {
  }

  lemma AckMoves(sys: System, p: nat, d: nat)
    requires Inv(sys) && p < |sys.nodes| && d < |sys.nodes| && sys.links[(p, d)].unacked != []
    ensures Enabled(sys, Ack(p, d)) && Inv(Step(sys, Ack(p, d)))
    ensures var after := Step(sys, Ack(p, d));
            && |after.nodes| == |sys.nodes|
            && (forall k: nat :: k < |sys.nodes| && k != d ==> after.links[(p, k)] == sys.links[(p, k)])
            && after.links[(p, d)].frames == sys.links[(p, d)].frames
            && |after.links[(p, d)].unacked| == |sys.links[(p, d)].unacked| - 1
            && |after.nodes[p].cq| == |sys.nodes[p].cq| + 1 && after.nodes[p].srq == sys.nodes[p].srq
  {
    hide NodesOk, LinksOk, RoutesOk;
    StepKeeps(sys, Ack(p, d));
  }

  lemma AckNearer(sys: System, p: nat, d: nat) returns (r: Round)
    requires Inv(sys) && p < |sys.nodes| && OwnFit(sys, p) && d < |sys.nodes| && sys.links[(p, d)].unacked != []
    ensures Nearer(sys, p, r)
  {
    hide NodesOk, LinksOk, RoutesOk, Shaped, Step, Enabled, RoundFits, AfterRound, Sum, Sends;
    r := Round([Ack(p, d)], [], []);
    AckMoves(sys, p, d);
    WaitRound(sys, p, Ack(p, d));
    WorkFollows(sys, Step(sys, Ack(p, d)), p, d);
  }

  /** The link of `p` to `d` after its oldest request was carried out. */
  lemma DeliverMoves(sys: System, p: nat, d: nat, id: int)
    requires Inv(sys) && p < |sys.nodes| && d < |sys.nodes| && sys.links[(p, d)].frames != []
    requires sys.links[(p, d)].frames[0].OneSided? || id in sys.nodes[d].srq
    ensures Enabled(sys, Deliver(p, d, id)) && Inv(Step(sys, Deliver(p, d, id)))
    ensures var after, frames := Step(sys, Deliver(p, d, id)), sys.links[(p, d)].frames;
            && |after.nodes| == |sys.nodes|
            && (forall k: nat :: k < |sys.nodes| && k != d ==> after.links[(p, k)] == sys.links[(p, k)])
            && after.links[(p, d)].frames == frames[1..]
            && |after.links[(p, d)].unacked| == |sys.links[(p, d)].unacked| + 1
            && (if frames[0].OneSided? then after.nodes == sys.nodes
                else
                  && |after.nodes[d].cq| == |sys.nodes[d].cq| + 1
                  && after.nodes[d].srq == sys.nodes[d].srq - {id} && id in sys.nodes[d].srq
                  && (p != d ==> after.nodes[p] == sys.nodes[p]))
  {
    hide NodesOk, LinksOk, RoutesOk;
    StepKeeps(sys, Deliver(p, d, id));
    DeliverableFits(sys, p, d, id);
  }

  /** Rounds in which other things happen before a poll that finds nothing. */
  lemma WaitRounds(sys: System, p: nat, events: seq<Event>)
    requires Inv(sys) && p < |sys.nodes| && Allowed(sys, events) && AllOutside(p, events)
    ensures RoundFits(sys, p, Round(events, [], [])) && AfterRound(sys, p, Round(events, [], [])) == Run(sys, events)
  {
    hide Shaped, NodesOk, LinksOk, RoutesOk, Step, Enabled, Finds, ProcessBatch;
    PollNothing(Run(sys, events), p);
  }

  lemma DeliverFits(sys: System, p: nat, d: nat, id: int)
    requires Inv(sys) && p < |sys.nodes| && d < |sys.nodes| && sys.links[(p, d)].frames != [] && OwnFit(sys, p)
    requires sys.links[(p, d)].frames[0].OneSided? || id in sys.nodes[d].srq
    ensures Enabled(sys, Deliver(p, d, id)) && Inv(Step(sys, Deliver(p, d, id)))
    ensures |Step(sys, Deliver(p, d, id)).nodes| == |sys.nodes|
    ensures OwnFit(Step(sys, Deliver(p, d, id)), p) && Work(Step(sys, Deliver(p, d, id)), p) < Work(sys, p)
  {
    hide NodesOk, LinksOk, RoutesOk, Shaped, Step, Enabled, Sum;
    DeliverMoves(sys, p, d, id);
    WorkFollows(sys, Step(sys, Deliver(p, d, id)), p, d);
  }

  lemma DeliverNearer(sys: System, p: nat, d: nat) returns (r: Round)
    requires Inv(sys) && p < |sys.nodes| && OwnFit(sys, p) && d < |sys.nodes| && sys.links[(p, d)].frames != []
    ensures Nearer(sys, p, r)
  {
    hide NodesOk, LinksOk, RoutesOk, Shaped, Step, Enabled, Nearer, Outside, OwnFit;
    var events, id := FindRoom(sys, p, d);
    DeliverAfter(sys, p, d, events, id);
    r := Round(events + ([Deliver(p, d, id)] + []), [], []);
  }

  /** What must happen before a message can be delivered to `d`: nothing, if `d` is the process itself. */
  lemma FindRoom(sys: System, p: nat, d: nat) returns (events: seq<Event>, id: int)
    requires Inv(sys) && p < |sys.nodes| && OwnFit(sys, p) && d < |sys.nodes| && sys.links[(p, d)].frames != []
    ensures Allowed(sys, events) && AllOutside(p, events)
    ensures var after := Run(sys, events);
            && Inv(after) && |after.nodes| == |sys.nodes| && after.links == sys.links && after.nodes[p] == sys.nodes[p]
            && (sys.links[(p, d)].frames[0].OneSided? || id in after.nodes[d].srq)
  {
    hide NodesOk, LinksOk, RoutesOk, Ready, Step, Enabled, Outside;
    if d != p {
      events := MakeRoom(sys, p, d);
    } else {
      events := [];
      assert Run(sys, events) == sys;
    }
    id := 0;
    if !sys.links[(p, d)].frames[0].OneSided? {
      var srq := Run(sys, events).nodes[d].srq;
      assert srq != {} by {
        if d == p { assert |srq| >= Sends(sys.links[(p, d)].frames) > 0; }
      }
      id := Member(srq);
    }
  }

  lemma Member<T>(items: set<T>) returns (item: T)
    requires items != {}
    ensures item in items
  {
    item :| item in items;
  }

  lemma DeliverAfter(sys: System, p: nat, d: nat, events: seq<Event>, id: int)
    requires Inv(sys) && p < |sys.nodes| && d < |sys.nodes| && sys.links[(p, d)].frames != [] && OwnFit(sys, p)
    requires Allowed(sys, events) && AllOutside(p, events)
    requires var after := Run(sys, events);
             && Inv(after) && |after.nodes| == |sys.nodes| && after.links == sys.links && after.nodes[p] == sys.nodes[p]
             && (sys.links[(p, d)].frames[0].OneSided? || id in after.nodes[d].srq)
    ensures Nearer(sys, p, Round(events + ([Deliver(p, d, id)] + []), [], []))
  {
    hide NodesOk, LinksOk, RoutesOk, Shaped, Step, Enabled, RoundFits, AfterRound, Sum, Sends, Outside;
    var mid, e := Run(sys, events), Deliver(p, d, id);
    SameLinks(sys, mid, p);
    DeliverFits(mid, p, d, id);
    assert Outside(p, e) by { DeliverIsOutside(p, d, id); }
    StepThen(mid, p, e, []);
    RunConcat(sys, events, [e] + [], p, p);
    WaitRounds(sys, p, events + ([e] + []));
  }

  lemma DeliverIsOutside(p: nat, d: nat, id: int)
    ensures Outside(p, Deliver(p, d, id))
  {
  }

  /** Whatever is pending is in the completion queue, or waits to be reported or carried out. */
  lemma PendingSomewhereElse(sys: System, p: nat) returns (d: nat)
    requires Inv(sys) && p < |sys.nodes| && sys.nodes[p].host.pendingSendWr > 0 && sys.nodes[p].cq == []
    ensures d < |sys.nodes| && (p, d) in sys.links
    ensures sys.links[(p, d)].unacked != [] || sys.links[(p, d)].frames != []
  {
    hide RoutesOk, FramesOk, Conserved, Genuine, LengthsOk;
    var counts := sys.nodes[p].host.qpPendingSendWr;
    if k: nat :| k < |counts| && counts[k] != 0 {
      assert CreditOk(sys.nodes[p], sys.links[(p, k)], k);
      d := k;
    } else {
      SumOfZeros(counts);
      assert false;
    }
  }

  lemma {:induction false} FlushCanEnd(sys: System, p: nat) returns (rounds: seq<Round>)
    requires Inv(sys) && p < |sys.nodes| && OwnFit(sys, p)
    ensures Returns(sys, p, rounds)
    decreases Work(sys, p)
  {
    hide Shaped, NodesOk, LinksOk, RoutesOk, RoundFits, AfterRound, Work, OwnFit, Process.WellFormed, ProcessBatch;
    HostIsWellFormed(sys, p);
    if sys.nodes[p].host.pendingSendWr <= 0 {
      rounds := [];
    } else {
      var r: Round;
      if sys.nodes[p].cq != [] {
        r := PollNearer(sys, p);
      } else {
        var d := PendingSomewhereElse(sys, p);
        if sys.links[(p, d)].unacked != [] {
          r := AckNearer(sys, p, d);
        } else {
          r := DeliverNearer(sys, p, d);
        }
      }
      var rest := FlushCanEnd(AfterRound(sys, p, r), p);
      rounds := [r] + rest;
      GoOn(sys, p, r, rest);
    }
  }

  /** A flush that is not over goes on after a round as if it began there. */
  lemma GoOn(sys: System, p: nat, r: Round, rest: seq<Round>)
    requires Inv(sys) && p < |sys.nodes| && RoundFits(sys, p, r) && sys.nodes[p].host.pendingSendWr > 0
    requires Schedule(AfterRound(sys, p, r), p, rest)
    ensures Returns(sys, p, [r] + rest) <==> Returns(AfterRound(sys, p, r), p, rest)
  {
    hide Shaped, NodesOk, LinksOk, RoutesOk, RoundFits, AfterRound, Process.WellFormed, ProcessBatch, RoundEvents;
    HostIsWellFormed(sys, p);
    var rounds := [r] + rest;
    assert rounds[1..] == rest;
    RoundRun(sys, p, r, p);
    PollsAreOk(sys, p, rounds);
    PollsOfRest(rounds);
  }

  // ---- When it cannot return ----

  /** Nothing that happens while a process waits posts a vbuf of its own, or takes back what it sent to itself. */
  lemma OwnStaysShort(sys: System, p: nat, e: Event)
    requires Inv(sys) && Enabled(sys, e) && p < |sys.nodes| && !OwnFit(sys, p)
    requires Outside(p, e) || e.Poll?
    ensures Inv(Step(sys, e)) && |Step(sys, e).nodes| == |sys.nodes| && !OwnFit(Step(sys, e), p)
  {
    hide NodesOk, LinksOk, RoutesOk, Ready, ProcessBatch;
    StepKeeps(sys, e);
    if e.Deliver? {
      DeliverableFits(sys, e.rank, e.dest, e.id);
    }
  }

  lemma {:induction false} OwnStaysShortInRun(sys: System, p: nat, events: seq<Event>)
    requires Inv(sys) && p < |sys.nodes| && !OwnFit(sys, p) && Allowed(sys, events) && AllOutside(p, events)
    ensures !OwnFit(Run(sys, events), p)
    decreases |events|
  {
    hide Shaped, NodesOk, LinksOk, RoutesOk, Step, Enabled, OwnFit, Outside;
    if events != [] {
      OwnStaysShort(sys, p, events[0]);
      OwnStaysShortInRun(Step(sys, events[0]), p, events[1..]);
    }
  }

  lemma RoundStaysShort(sys: System, p: nat, r: Round)
    requires Inv(sys) && p < |sys.nodes| && !OwnFit(sys, p) && RoundFits(sys, p, r)
    ensures !OwnFit(AfterRound(sys, p, r), p)
  {
    hide Shaped, NodesOk, LinksOk, RoutesOk, Step, Enabled, OwnFit, Outside, Finds, ProcessBatch;
    var mid := Run(sys, r.before);
    OwnStaysShortInRun(sys, p, r.before);
    PollStep(mid, p, r.batch);
    OwnStaysShort(mid, p, Poll(p, |r.batch|));
    OwnStaysShortInRun(Step(mid, Poll(p, |r.batch|)), p, r.after);
  }

  lemma {:induction false} NeverReturns(sys: System, p: nat, rounds: seq<Round>)
    requires Inv(sys) && p < |sys.nodes| && !OwnFit(sys, p)
    ensures !Returns(sys, p, rounds)
    decreases |rounds|
  {
    hide NodesOk, LinksOk, RoutesOk, RoundFits, AfterRound, Process.WellFormed, ProcessBatch;
    if sys.nodes[p].host.pendingSendWr <= 0 {
      FlushMeansDone(sys, p, p);
      assert false;
    }
    if Schedule(sys, p, rounds) && rounds != [] {
      RoundStaysShort(sys, p, rounds[0]);
      NeverReturns(AfterRound(sys, p, rounds[0]), p, rounds[1..]);
      assert rounds == [rounds[0]] + rounds[1..];
      GoOn(sys, p, rounds[0], rounds[1..]);
    }
  }

  /**
   From every reachable state a flush can return 0, if the other ranks get on with their receives, if and only if
   what the process sent to itself fits the vbufs that it has posted.
   */
  lemma FlushCanEndIff(sys: System, p: nat)
    requires Inv(sys) && p < |sys.nodes|
    ensures (exists rounds :: Returns(sys, p, rounds)) <==> OwnFit(sys, p)
  {
    hide NodesOk, LinksOk, RoutesOk, Ready, Returns, OwnFit;
    if OwnFit(sys, p) {
      var rounds := FlushCanEnd(sys, p);
    } else {
      forall rounds ensures !Returns(sys, p, rounds) {
        NeverReturns(sys, p, rounds);
      }
    }
  }

  // ---- Receives ----

  /** With no vbuf posted and nothing waiting from the source, that stays so as long as the process waits. */
  lemma StaysBlocked(sys: System, p: nat, source: nat, e: Event)
    requires Inv(sys) && Enabled(sys, e) && p < |sys.nodes| && source < |sys.nodes| && !CanTake(sys.nodes[p], source)
    requires Outside(p, e) || e.Poll?
    ensures Inv(Step(sys, e)) && |Step(sys, e).nodes| == |sys.nodes| && !CanTake(Step(sys, e).nodes[p], source)
  {
    hide NodesOk, LinksOk, RoutesOk, ProcessBatch, Waiting;
    StepKeeps(sys, e);
    if e.Poll? && e.rank == p {
      StepPolls(sys, p, e.count);
      PollLeavesMessages(sys, p, e.count, source);
    } else if e.Ack? && e.rank == p {
      AckLeavesMessages(sys, p, e.dest, source);
    }
  }

  lemma PollLeavesMessages(sys: System, p: nat, count: nat, source: nat)
    requires Inv(sys) && p < |sys.nodes| && source < |sys.nodes| && count <= |sys.nodes[p].cq|
    ensures Polled(sys.nodes[p], |sys.nodes|, count).srq == sys.nodes[p].srq
    ensures Polled(sys.nodes[p], |sys.nodes|, count).host.WellFormed(|sys.nodes|)
    ensures Waiting(Polled(sys.nodes[p], |sys.nodes|, count), source) == Waiting(sys.nodes[p], source)
  {
    hide LinksOk, RoutesOk, Waiting, ProcessBatch;
    PollKeepsMessages(sys.nodes[p], |sys.nodes|, count, source);
  }

  lemma AckLeavesMessages(sys: System, p: nat, d: nat, source: nat)
    requires Inv(sys) && Enabled(sys, Ack(p, d)) && source < |sys.nodes|
    ensures |Step(sys, Ack(p, d)).nodes[p].host.pendingRecv| == |sys.nodes|
    ensures Waiting(Step(sys, Ack(p, d)).nodes[p], source) == Waiting(sys.nodes[p], source)
  {
    hide NodesOk, LinksOk, RoutesOk;
    AckKeepsMessages(sys.nodes[p], sys.links[(p, d)].unacked[0], d, source);
  }

  lemma {:induction false} RunStaysBlocked(sys: System, p: nat, source: nat, events: seq<Event>)
    requires Inv(sys) && p < |sys.nodes| && source < |sys.nodes| && !CanTake(sys.nodes[p], source)
    requires Allowed(sys, events) && AllOutside(p, events)
    ensures !CanTake(Run(sys, events).nodes[p], source)
    decreases |events|
  {
    hide Shaped, NodesOk, LinksOk, RoutesOk, Step, Enabled, CanTake, Outside;
    if events != [] {
      StaysBlocked(sys, p, source, events[0]);
      RunStaysBlocked(Step(sys, events[0]), p, source, events[1..]);
    }
  }

  lemma RoundStaysBlocked(sys: System, p: nat, source: nat, r: Round)
    requires Inv(sys) && p < |sys.nodes| && source < |sys.nodes| && !CanTake(sys.nodes[p], source)
    requires RoundFits(sys, p, r)
    ensures !CanTake(AfterRound(sys, p, r).nodes[p], source)
  {
    hide Shaped, NodesOk, LinksOk, RoutesOk, Step, Enabled, CanTake, Outside, Finds, ProcessBatch;
    var mid := Run(sys, r.before);
    RunStaysBlocked(sys, p, source, r.before);
    PollStep(mid, p, r.batch);
    StaysBlocked(mid, p, source, Poll(p, |r.batch|));
    RunStaysBlocked(Step(mid, Poll(p, |r.batch|)), p, source, r.after);
  }

  lemma NothingPendingFrom(sys: System, p: nat, source: nat)
    requires Inv(sys) && p < |sys.nodes| && source < |sys.nodes| && !CanTake(sys.nodes[p], source)
    ensures source < |sys.nodes[p].host.pendingRecv| && sys.nodes[p].host.pendingRecv[source] == []
  {
    hide NodesOk, LinksOk, RoutesOk, Unpolled;
  }

  lemma {:induction false} NeverReceives(sys: System, p: nat, source: nat, rounds: seq<Round>)
    requires Inv(sys) && p < |sys.nodes| && source < |sys.nodes| && !CanTake(sys.nodes[p], source)
    ensures !Receives(sys, p, source, rounds)
    decreases |rounds|
  {
    hide Shaped, NodesOk, LinksOk, RoutesOk, RoundFits, AfterRound, CanTake, Process.WellFormed, ProcessBatch;
    NothingPendingFrom(sys, p, source);
    HostIsWellFormed(sys, p);
    if Schedule(sys, p, rounds) && rounds != [] {
      RoundStaysBlocked(sys, p, source, rounds[0]);
      NeverReceives(AfterRound(sys, p, rounds[0]), p, source, rounds[1..]);
      HostIsWellFormed(AfterRound(sys, p, rounds[0]), p);
      PollsAreOk(sys, p, rounds);
      PollsAreOk(AfterRound(sys, p, rounds[0]), p, rounds[1..]);
      PollsOfRest(rounds);
      RoundRun(sys, p, rounds[0], source);
    }
  }

  /**
   With a message on its way, a waiting receive can end if and only if a vbuf is posted or a message of the source
   has arrived; a process that holds on to all its vbufs waits for ever.
   */
  lemma ReceiveCanEndIff(sys: System, s: nat, d: nat)
    requires Inv(sys) && s < |sys.nodes| && d < |sys.nodes| && (s, d) in sys.links && InFlight(sys, s, d) != []
    ensures (exists rounds :: Receives(sys, d, s, rounds)) <==> CanTake(sys.nodes[d], s)
  {
    hide Shaped, NodesOk, LinksOk, RoutesOk, CanTake, Schedule, ZrecvEvents, RecvLoop, Process.WellFormed;
    if CanTake(sys.nodes[d], s) {
      var rounds := ZrecvCanEnd(sys, s, d);
      ZrecvIsARun(sys, d, s, rounds);
      assert Receives(sys, d, s, rounds);
    } else {
      forall rounds ensures !Receives(sys, d, s, rounds) {
        NeverReceives(sys, d, s, rounds);
      }
    }
  }
}
