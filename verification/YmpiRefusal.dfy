/**
 A run of the network of YmpiNetwork after which the network card refuses a post:
 the throttle of src/ympi.c polls one batch that is not empty and goes on, although
 the batch has no completion for the full send queue.
 */
module YmpiRefusal {
  import opened YmpiProcess
  import opened YmpiNode
  import opened YmpiNetwork
  import opened YmpiRuns
  import opened YmpiContext
  import opened YmpiCalls

  /** A run with one more event. */
  lemma Extend(sys: System, events: seq<Event>, e: Event) returns (longer: seq<Event>)
    requires Inv(sys) && Allowed(sys, events) && Enabled(Run(sys, events), e)
    ensures Allowed(sys, longer) && Run(sys, longer) == Step(Run(sys, events), e)
  {
    hide Shaped, NodesOk, LinksOk, RoutesOk, Step, Enabled, ReceivedBy;
    var last := Run(sys, events);
    StepKeeps(last, e);
    RunPrepend(last, e, [], 0, 0);
    RunPrependState(last, e, []);
    assert [e] + [] == [e];
    RunConcat(sys, events, [e], 0, 0);
    longer := events + [e];
  }

  /**
   What the run looks at: the send queue of `s` for `d`, the completion queue and the shared queue of `s`, and the
   link back.
   */
  ghost predicate Shows(sys: System, s: nat, d: nat, pending: int, cq: seq<Completion>) {
    && Inv(sys) && s < |sys.nodes| && d < |sys.nodes| && s != d && Connected(sys, s, d)
    && sys.nodes[s].host.qpPendingSendWr[d] == pending && sys.nodes[s].cq == cq
  }

  ghost predicate LinkBack(sys: System, s: nat, d: nat, frames: nat)
    requires Shaped(sys) && s < |sys.nodes| && d < |sys.nodes|
  {
    && |sys.links[(d, s)].frames| == frames
    && (frames > 0 ==> !sys.links[(d, s)].frames[0].OneSided?)
    && sys.nodes[d].host.qpPendingSendWr[s] == frames
  }

  lemma ReturnOne(sys: System, s: nat, d: nat)
    requires Shows(sys, s, d, 0, []) && LinkBack(sys, s, d, 0) && sys.nodes[s].host.vbufFetched != []
    ensures Enabled(sys, Return(s))
    ensures var after := Step(sys, Return(s));
            && Shows(after, s, d, 0, []) && LinkBack(after, s, d, 0)
            && sys.nodes[s].host.vbufFetched[0] in after.nodes[s].srq
  {
    hide NodesOk, LinksOk, RoutesOk;
    StepKeeps(sys, Return(s));
  }

  lemma SendEmpty(sys: System, s: nat, d: nat, id: int)
    requires Shows(sys, s, d, 0, []) && LinkBack(sys, s, d, 0) && id in sys.nodes[s].srq
    ensures Enabled(sys, Zsend(d, s, Span(0, 0)))
    ensures var after := Step(sys, Zsend(d, s, Span(0, 0)));
            Shows(after, s, d, 0, []) && LinkBack(after, s, d, 1) && id in after.nodes[s].srq
  {
    hide NodesOk, LinksOk, RoutesOk;
    StepKeeps(sys, Zsend(d, s, Span(0, 0)));
  }

  lemma DeliverEmpty(sys: System, s: nat, d: nat, id: int)
    requires Shows(sys, s, d, 0, []) && LinkBack(sys, s, d, 1) && id in sys.nodes[s].srq
    ensures Enabled(sys, Deliver(d, s, id))
    ensures var after := Step(sys, Deliver(d, s, id));
            |after.nodes[s].cq| == 1 && after.nodes[s].cq[0].Received? && Shows(after, s, d, 0, after.nodes[s].cq)
  {
    hide NodesOk, LinksOk, RoutesOk;
    DeliverableFits(sys, d, s, id);
    StepKeeps(sys, Deliver(d, s, id));
  }

  /** A message for `s` arrives, and `s` does not poll. */
  lemma ArriveUnpolled(sys: System, s: nat, d: nat) returns (events: seq<Event>)
    requires Initial(sys) && Inv(sys) && s < |sys.nodes| && d < |sys.nodes| && s != d && Connected(sys, s, d)
    ensures Allowed(sys, events)
    ensures var after := Run(sys, events);
            |after.nodes[s].cq| == 1 && after.nodes[s].cq[0].Received? && Shows(after, s, d, 0, after.nodes[s].cq)
  {
    hide Inv, Step, Enabled, Run, Allowed, LinkBack;
    FirstFetched(sys, s, d);
    var id := sys.nodes[s].host.vbufFetched[0];
    NoEvents(sys);
    ReturnOne(sys, s, d);
    events := Extend(sys, [], Return(s));
    SendEmpty(Run(sys, events), s, d, id);
    events := Extend(sys, events, Zsend(d, s, Span(0, 0)));
    DeliverEmpty(Run(sys, events), s, d, id);
    events := Extend(sys, events, Deliver(d, s, id));
  }

  lemma NoEvents(sys: System)
    requires Inv(sys)
    ensures Allowed(sys, []) && Run(sys, []) == sys
  {
  }

  lemma FirstFetched(sys: System, s: nat, d: nat)
    requires Initial(sys) && Inv(sys) && s < |sys.nodes| && d < |sys.nodes| && s != d && Connected(sys, s, d)
    ensures Shows(sys, s, d, 0, []) && LinkBack(sys, s, d, 0) && sys.nodes[s].host.vbufFetched != []
  {
    hide NodesOk, LinksOk, RoutesOk;
    assert InitialNode(sys.nodes[s], |sys.nodes|) && InitialNode(sys.nodes[d], |sys.nodes|);
    assert UpTo(PREPOST_DEPTH) == UpTo(PREPOST_DEPTH - 1) + [PREPOST_DEPTH - 1];
  }

  lemma PostOne(sys: System, s: nat, d: nat, pending: nat, cq: seq<Completion>)
    requires Shows(sys, s, d, pending, cq) && pending < MAX_SEND_WR_PER_QP
    ensures Enabled(sys, PostOneSided(s, d, Write))
    ensures Shows(Step(sys, PostOneSided(s, d, Write)), s, d, pending + 1, cq)
  {
    hide NodesOk, LinksOk, RoutesOk;
    StepKeeps(sys, PostOneSided(s, d, Write));
  }

  lemma {:induction false} PostMany(sys: System, before: seq<Event>, s: nat, d: nat, count: nat, cq: seq<Completion>)
    returns (events: seq<Event>)
    requires Inv(sys) && Allowed(sys, before) && Shows(Run(sys, before), s, d, 0, cq)
    requires count <= MAX_SEND_WR_PER_QP
    ensures Allowed(sys, events) && Shows(Run(sys, events), s, d, count, cq)
  {
    hide Inv, Step, Enabled, Run, Allowed, Shows;
    if count == 0 {
      events := before;
    } else {
      events := PostMany(sys, before, s, d, count - 1, cq);
      PostOne(Run(sys, events), s, d, count - 1, cq);
      events := Extend(sys, events, PostOneSided(s, d, Write));
    }
  }

  /** The whole queue is one batch, and nothing else happens meanwhile. */
  lemma PollsWholeQueue(sys: System, s: nat, cq: seq<Completion>)
    requires Inv(sys) && s < |sys.nodes| && sys.nodes[s].cq == cq && |cq| == 1
    ensures Schedule(sys, s, [Round([], cq, [])])
  {
    hide Shaped, NodesOk, LinksOk, RoutesOk, Step, Enabled, ProcessBatch;
    NoEvents(sys);
    assert cq == [sys.nodes[s].cq[0]];
    PollRound(sys, s);
    assert [Round([], cq, [])][1..] == [];
  }

  /**
   From every initial state with two connected ranks there is a run after which a write is accepted and
   fills the queue; the throttle polls all there is, a batch that is not empty; the call returns 0; and
   no request for that rank is accepted any more.
   */
  lemma RefusedPost(sys: System, s: nat, d: nat) returns (events: seq<Event>, rounds: seq<Round>)
    requires Initial(sys) && Inv(sys) && s < |sys.nodes| && d < |sys.nodes| && s != d && Connected(sys, s, d)
    ensures Allowed(sys, events)
    ensures var full, e := Run(sys, events), PostOneSided(s, d, Write);
            && Enabled(full, e) && Inv(Step(full, e)) && Schedule(Step(full, e), s, rounds)
            && |rounds| == 1 && FirstAnswer(PollsOf(rounds)) == 0 && rounds[0].batch == full.nodes[s].cq != []
            && Allowed(full, PostEvents(full, s, d, e, rounds))
            && var after := Run(full, PostEvents(full, s, d, e, rounds));
               && after.nodes[s].host.WellFormed(|sys.nodes|)
               && after.nodes[s].host.qpPendingSendWr[d] == MAX_SEND_WR_PER_QP
               && (forall request :: !Enabled(after, PostOneSided(s, d, request)))
               && (forall span :: !Enabled(after, Zsend(s, d, span)))
  {
    hide Step, Run, Allowed, NodesOk, LinksOk, RoutesOk, PostEvents, Schedule, Ready;
    events := ArriveUnpolled(sys, s, d);
    var cq := Run(sys, events).nodes[s].cq;
    events := PostMany(sys, events, s, d, MAX_SEND_WR_PER_QP - 1, cq);
    var full, e := Run(sys, events), PostOneSided(s, d, Write);
    PostOne(full, s, d, MAX_SEND_WR_PER_QP - 1, cq);
    PollsWholeQueue(Step(full, e), s, cq);
    rounds := [Round([], cq, [])];
    PostLeavesRoom(full, s, d, e, rounds);
    var after := Run(full, PostEvents(full, s, d, e, rounds));
    HostIsWellFormed(after, s);
    CreditsExact(after, s, d);
    assert FirstAnswer(PollsOf(rounds)) == 0 by { PollsOfRest(rounds); }
    assert forall wc :: wc in rounds[0].batch ==> wc == cq[0];
  }
}
