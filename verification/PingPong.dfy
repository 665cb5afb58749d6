/**
 The ping-pong programs: one queue pair (src/rc_pingpong.c) or several queue pairs
 that share one receive queue (src/srq_pingpong.c).  With one queue pair the two
 programs handle a completion in the same way, so both are covered by the number
 of queue pairs being a parameter.
 */
module PingPong {
  import opened Common

  // ---- One completion ----

  /** The two bits of `pending`: a receive and a send that were not completed yet. */
  datatype Mask = Mask(recv: bool, send: bool)

  datatype WrId = SendWr | RecvWr | UnknownWr

  datatype Config = Config(iters: nat, depth: nat, numQp: nat) {
    /** The programs insist on at least one receive for each queue pair. */
    predicate Valid() { 1 <= iters && 1 <= numQp <= depth }
  }

  datatype Counters = Counters(scnt: nat, rcnt: nat, routs: int, pending: seq<Mask>) {
    predicate Finished(c: Config) { rcnt >= c.iters && scnt >= c.iters }
  }

  function Cleared(m: Mask, wr: WrId): Mask {
    match wr
    case SendWr => m.(send := false)
    case RecvWr => m.(recv := false)
    case UnknownWr => m
  }

  /** The receives to post when `routs` are left: up to the depth, once no more than one for each queue pair is left. */
  function Asked(c: Config, routs: int): nat {
    if routs <= c.numQp && routs < c.depth then c.depth - routs else 0
  }

  /** What a completion makes of the counters, the receives that are posted for it, and whether a send is. */
  datatype Reaction = Reaction(counters: Counters, recvs: nat, send: bool)

  /** A completion on queue pair `q`. */
  function Handle(c: Config, s: Counters, q: nat, wr: WrId): (r: Reaction)
    requires q < |s.pending|
  {
    var recvs := if wr.RecvWr? then Asked(c, s.routs - 1) else 0;
    var counted :=
      match wr
      case SendWr => s.(scnt := s.scnt + 1)
      case RecvWr => s.(rcnt := s.rcnt + 1, routs := s.routs - 1 + recvs)
      case UnknownWr => s;
    var mask := Cleared(s.pending[q], wr);
    var send := counted.scnt < c.iters && mask == Mask(false, false);
    Reaction(counted.(pending := s.pending[q := if send then Mask(true, true) else mask]), recvs, send)
  }

  /** The counters of one program, updated in place. */
  class Program {
    const config: Config
    var scnt: nat
    var rcnt: nat
    var routs: int
    const pending: array<Mask>

    ghost function Value(): Counters
      reads this, pending
    {
      Counters(scnt, rcnt, routs, pending[..])
    }

    /** The state before the main loop: all receives posted, and, on the client, a send on every queue pair. */
    constructor (config: Config, client: bool)
      ensures this.config == config && fresh(pending)
      ensures Value() == Counters(0, 0, config.depth, seq(config.numQp, _ => Mask(true, client)))
    {
      this.config := config;
      scnt, rcnt, routs := 0, 0, config.depth;
      pending := new Mask[config.numQp](_ => Mask(true, client));
    }

    /** `pp_post_recv`: `room` receives are accepted. */
    static method PostRecv(n: int, room: nat) returns (posted: nat)
      ensures posted == if n <= 0 then 0 else if n <= room then n else room
    {
      posted := 0;
      while posted < n
        invariant posted <= room && (posted <= n || posted == 0)
      {
        if posted == room {
          break;
        }
        posted := posted + 1;
      }
    }

    /**
     `parse_single_wc`, and the body of the completion loop of the shared-queue program.
     The answer is 1 where the source gives up: the completion failed or is unknown, or the card
     refuses a receive (`room` of them are accepted) or the send.  `recvs` and `sent` are what was posted.
     */
    method OnCompletion(q: nat, wr: WrId, success: bool, room: nat, sendAccepted: bool)
      returns (status: int, recvs: nat, sent: bool)
      requires q < pending.Length
      modifies this, pending
      ensures status == 0 <==>
                && success && !wr.UnknownWr?
                && !(wr.RecvWr? && old(routs) - 1 <= config.numQp && room < config.depth - (old(routs) - 1))
                && (Handle(config, old(Value()), q, wr).send ==> sendAccepted)
      ensures status == 0 ==> Reaction(Value(), recvs, sent) == Handle(config, old(Value()), q, wr)
      ensures routs == old(routs) + recvs - if success && wr.RecvWr? then 1 else 0
      ensures status == 0 && wr.RecvWr? ==>
                routs == if old(routs) - 1 <= config.numQp && old(routs) - 1 < config.depth then config.depth
                         else old(routs) - 1
      ensures sent ==> pending[q] == Mask(true, true)
      ensures !success || wr.UnknownWr? ==> Value() == old(Value())
    {
      recvs, sent := 0, false;
      if !success {
        return 1, recvs, sent;
      }
      match wr {
        case SendWr =>
          scnt := scnt + 1;
        case RecvWr =>
          routs := routs - 1;
          if routs <= config.numQp {
            recvs := PostRecv(config.depth - routs, room);
            routs := routs + recvs;
            if routs < config.depth {
              return 1, recvs, sent;
            }
          }
          rcnt := rcnt + 1;
        case UnknownWr =>
          return 1, recvs, sent;
      }
      pending[q] := Cleared(pending[q], wr);
      if scnt < config.iters && pending[q] == Mask(false, false) {
        if !sendAccepted {
          return 1, recvs, sent;
        }
        sent := true;
        pending[q] := Mask(true, true);
      }
      status := 0;
    }
  }

  // ---- The two programs and the network between them ----

  /**
   One side: its counters, the sends it posted so far, and for each queue pair its sends that are not yet
   acknowledged, its acknowledged sends it has not seen, the messages on their way to it, and the messages
   that arrived but that it has not seen.  `free` are its posted receives that hold no message yet.
   */
  datatype Party = Party(
    counters: Counters,
    posted: nat,
    free: nat,
    unacked: seq<nat>,
    sendDone: seq<nat>,
    inFlight: seq<nat>,
    arrived: seq<nat>)

  /** Side 0 is the client, side 1 the server. */
  type State = seq<Party>

  datatype Event =
    | Deliver(who: nat, q: nat)
    | Ack(who: nat, q: nat)
    | Seen(who: nat, q: nat, wr: WrId)

  ghost predicate PartyShaped(p: Party, n: nat) {
    |p.counters.pending| == |p.unacked| == |p.sendDone| == |p.inFlight| == |p.arrived| == n
  }

  ghost predicate Shaped(c: Config, st: State) {
    |st| == 2 && PartyShaped(st[0], c.numQp) && PartyShaped(st[1], c.numQp)
  }

  /** The card acknowledges only what was delivered. */
  ghost predicate Enabled(c: Config, st: State, e: Event)
    requires Shaped(c, st)
  {
    && e.who < 2 && CanAct(st[e.who], e)
    && (e.Ack? ==> st[e.who].unacked[e.q] > st[1 - e.who].inFlight[e.q])
  }

  /** What an event does to the side it happens on; the answer also says whether that side posted a send. */
  ghost function Acted(c: Config, me: Party, e: Event): (r: (Party, bool))
    requires PartyShaped(me, c.numQp) && CanAct(me, e)
    ensures PartyShaped(r.0, c.numQp)
  {
    var q := e.q;
    match e
    case Deliver(_, _) =>
      (me.(free := me.free - 1, inFlight := me.inFlight[q := me.inFlight[q] - 1],
           arrived := me.arrived[q := me.arrived[q] + 1]),
       false)
    case Ack(_, _) =>
      (me.(unacked := me.unacked[q := me.unacked[q] - 1], sendDone := me.sendDone[q := me.sendDone[q] + 1]), false)
    case Seen(_, _, wr) =>
      var taken := if wr.SendWr? then me.(sendDone := me.sendDone[q := me.sendDone[q] - 1])
                   else me.(arrived := me.arrived[q := me.arrived[q] - 1]);
      var did := Handle(c, me.counters, q, wr);
      var now := taken.(counters := did.counters, free := me.free + did.recvs);
      (if did.send then now.(posted := me.posted + 1, unacked := me.unacked[q := me.unacked[q] + 1]) else now, did.send)
  }

  /** There is something for the event to act on; the card delivers only into a posted receive. */
  ghost predicate CanAct(me: Party, e: Event) {
    && e.q < |me.counters.pending| == |me.unacked| == |me.sendDone| == |me.inFlight| == |me.arrived|
    && match e
       case Deliver(_, q) => me.inFlight[q] > 0 && me.free > 0
       case Ack(_, q) => me.unacked[q] > 0
       case Seen(_, q, SendWr) => me.sendDone[q] > 0
       case Seen(_, q, RecvWr) => me.arrived[q] > 0
       case Seen(_, q, UnknownWr) => false
  }

  /** A send posted by one side is on its way to the other. */
  ghost function Target(p: Party, q: nat): Party
    requires q < |p.inFlight|
  {
    p.(inFlight := p.inFlight[q := p.inFlight[q] + 1])
  }

  ghost function Step(c: Config, st: State, e: Event): (after: State)
    requires Shaped(c, st) && Enabled(c, st, e)
    ensures Shaped(c, after)
  {
    var (me, post) := Acted(c, st[e.who], e);
    var peer := if post then Target(st[1 - e.who], e.q) else st[1 - e.who];
    if e.who == 0 then [me, peer] else [peer, me]
  }

  // ---- The invariant ----

  function Bit(b: bool): nat { if b then 1 else 0 }

  /** For each queue pair, the messages of the other side that this side has not seen. */
  ghost function Load(p: Party): (r: seq<nat>)
    requires |p.inFlight| == |p.arrived|
    ensures |r| == |p.inFlight| && forall q :: 0 <= q < |r| ==> r[q] == p.inFlight[q] + p.arrived[q]
  {
    seq(|p.inFlight|, q requires 0 <= q < |p.inFlight| => p.inFlight[q] + p.arrived[q])
  }

  /** For each queue pair, whether this side waits for a send completion. */
  ghost function Busy(p: Party): (r: seq<nat>)
    ensures |r| == |p.counters.pending| && forall q :: 0 <= q < |r| ==> r[q] == Bit(p.counters.pending[q].send)
  {
    seq(|p.counters.pending|, q requires 0 <= q < |p.counters.pending| => Bit(p.counters.pending[q].send))
  }

  /** For each queue pair, whether the ball is on the server's half: on its way to the server, or held by it. */
  ghost function OnServerHalf(server: Party): (r: seq<nat>)
    requires |server.inFlight| == |server.arrived| == |server.counters.pending|
    ensures |r| == |server.inFlight|
    ensures forall q :: 0 <= q < |r| ==> r[q] == Balls(server, q)
  {
    seq(|server.inFlight|, q requires 0 <= q < |server.inFlight| => Balls(server, q))
  }

  /** A side has at most one send that it has not seen completed, and holds on to a ball only when it sent enough. */
  ghost predicate SideOk(c: Config, me: Party, q: nat)
    requires PartyShaped(me, c.numQp) && q < c.numQp
  {
    && me.unacked[q] + me.sendDone[q] == Bit(me.counters.pending[q].send)
    && (me.counters.pending[q] == Mask(false, false) ==> me.counters.scnt >= c.iters)
  }

  /** The balls on one side: coming in, or held. */
  ghost function Balls(me: Party, q: nat): nat
    requires q < |me.inFlight| == |me.arrived| == |me.counters.pending|
  {
    me.inFlight[q] + me.arrived[q] + Bit(!me.counters.pending[q].recv)
  }

  /** On each queue pair there is one ball, and a message on its way belongs to a send that is not acknowledged. */
  ghost predicate QpOk(c: Config, st: State, q: nat)
    requires Shaped(c, st) && q < c.numQp
  {
    && SideOk(c, st[0], q) && SideOk(c, st[1], q)
    && st[1].inFlight[q] <= st[0].unacked[q] && st[0].inFlight[q] <= st[1].unacked[q]
    && Balls(st[0], q) + Balls(st[1], q) == 1
  }

  /**
   A side counted as many sends as it posted and saw completed, and as many receives as the peer sent and it saw;
   its count of posted receives is that of the receives that it posted and has not seen complete.
   */
  ghost predicate CountsOk(c: Config, me: Party, peer: Party)
    requires |me.inFlight| == |me.arrived|
  {
    && me.posted == me.counters.scnt + Sum(Busy(me))
    && peer.posted == me.counters.rcnt + Sum(Load(me))
    && me.posted <= c.iters + c.numQp - 1
    && c.numQp <= me.counters.routs <= c.depth
    && me.counters.routs == me.free + Sum(me.arrived)
  }

  ghost predicate Inv(c: Config, st: State) {
    && c.Valid() && Shaped(c, st)
    && (forall q: nat :: q < c.numQp ==> QpOk(c, st, q))
    && CountsOk(c, st[0], st[1]) && CountsOk(c, st[1], st[0])
    && st[0].posted == st[1].posted + Sum(OnServerHalf(st[1]))
  }

  /** A sum of bits is at most their number, less if one of them is 0; it is 0 if all are. */
  lemma {:induction false} SumOfBits(xs: seq<nat>)
    requires forall i :: 0 <= i < |xs| ==> xs[i] <= 1
    ensures Sum(xs) <= |xs|
    ensures (exists i :: 0 <= i < |xs| && xs[i] == 0) ==> Sum(xs) < |xs|
    ensures (forall i :: 0 <= i < |xs| ==> xs[i] == 0) ==> Sum(xs) == 0
    ensures (forall i :: 0 <= i < |xs| ==> xs[i] == 1) ==> Sum(xs) == |xs|
  {
    if xs != [] {
      var rest := xs[1..];
      SumOfBits(rest);
      if i :| 0 <= i < |xs| && xs[i] == 0 {
        if i > 0 { assert rest[i - 1] == 0; }
      }
    }
  }

  // ---- What a step keeps ----

  /** The two parties differ only at queue pair `q`, and in the totals. */
  ghost predicate OnlyAt(p: Party, p': Party, n: nat, q: nat)
    requires PartyShaped(p, n) && PartyShaped(p', n)
  {
    forall k: nat :: k < n && k != q ==>
      && p'.counters.pending[k] == p.counters.pending[k]
      && p'.unacked[k] == p.unacked[k] && p'.sendDone[k] == p.sendDone[k]
      && p'.inFlight[k] == p.inFlight[k] && p'.arrived[k] == p.arrived[k]
  }

  /** All sums follow the change at one queue pair. */
  lemma SumsFollow(p: Party, p': Party, n: nat, q: nat)
    requires PartyShaped(p, n) && PartyShaped(p', n) && OnlyAt(p, p', n, q) && q < n
    ensures Sum(Load(p')) == Sum(Load(p)) - Load(p)[q] + Load(p')[q]
    ensures Sum(Busy(p')) == Sum(Busy(p)) - Busy(p)[q] + Busy(p')[q]
    ensures Sum(OnServerHalf(p')) == Sum(OnServerHalf(p)) - OnServerHalf(p)[q] + OnServerHalf(p')[q]
  {
    hide Sum;
    SumUpdate(Load(p), q, Load(p')[q]);
    SumUpdate(Busy(p), q, Busy(p')[q]);
    SumUpdate(OnServerHalf(p), q, OnServerHalf(p')[q]);
    assert Load(p') == Load(p)[q := Load(p')[q]];
    assert Busy(p') == Busy(p)[q := Busy(p')[q]];
    assert OnServerHalf(p') == OnServerHalf(p)[q := OnServerHalf(p')[q]];
  }

  lemma ActedOnlyAt(c: Config, me: Party, e: Event)
    requires PartyShaped(me, c.numQp) && CanAct(me, e)
    ensures OnlyAt(me, Acted(c, me, e).0, c.numQp, e.q)
    ensures Acted(c, me, e).0.counters.scnt >= me.counters.scnt
  {
    hide Asked;
  }

  lemma StepOnlyAt(c: Config, st: State, e: Event, i: nat)
    requires Shaped(c, st) && Enabled(c, st, e) && i < 2
    ensures PartyShaped(st[i], c.numQp) && PartyShaped(Step(c, st, e)[i], c.numQp)
    ensures OnlyAt(st[i], Step(c, st, e)[i], c.numQp, e.q)
    ensures Step(c, st, e)[i].counters.scnt >= st[i].counters.scnt
  {
    hide Sum, Acted;
    ActedOnlyAt(c, st[e.who], e);
  }

  /** The balls of the other queue pairs are left alone. */
  lemma StepKeepsOtherQp(c: Config, st: State, e: Event, k: nat)
    requires Shaped(c, st) && Enabled(c, st, e) && k < c.numQp && k != e.q && QpOk(c, st, k)
    ensures QpOk(c, Step(c, st, e), k)
  {
    hide Step, Enabled;
    StepOnlyAt(c, st, e, 0);
    StepOnlyAt(c, st, e, 1);
  }

  /** A side that acts keeps its half in order, and gives up a ball exactly when it posts a send. */
  lemma ActedKeepsSide(c: Config, me: Party, e: Event)
    requires PartyShaped(me, c.numQp) && CanAct(me, e) && SideOk(c, me, e.q) && Balls(me, e.q) <= 1
    ensures var (after, post) := Acted(c, me, e);
            && SideOk(c, after, e.q)
            && Balls(after, e.q) + Bit(post) == Balls(me, e.q)
            && after.inFlight[e.q] <= me.inFlight[e.q]
            && (post ==> me.unacked[e.q] == 0)
            && after.unacked[e.q] == me.unacked[e.q] + Bit(post) - Bit(e.Ack?)
  {
    hide Asked;
  }

  lemma TargetSide(c: Config, p: Party, q: nat)
    requires PartyShaped(p, c.numQp) && q < c.numQp && SideOk(c, p, q)
    ensures SideOk(c, Target(p, q), q) && Balls(Target(p, q), q) == Balls(p, q) + 1
  {
  }

  /** The ball of a queue pair stays one ball. */
  lemma StepKeepsQp(c: Config, st: State, e: Event)
    requires Shaped(c, st) && Enabled(c, st, e) && QpOk(c, st, e.q)
    ensures QpOk(c, Step(c, st, e), e.q)
  {
    hide Sum, Acted, SideOk, Balls;
    ActedKeepsSide(c, st[e.who], e);
    TargetSide(c, st[1 - e.who], e.q);
  }

  lemma BusyRoom(me: Party, q: nat)
    requires q < |me.counters.pending|
    ensures Sum(Busy(me)) <= |me.counters.pending|
    ensures !me.counters.pending[q].send ==> Sum(Busy(me)) < |me.counters.pending|
  {
    SumOfBits(Busy(me));
    assert Busy(me)[q] == Bit(me.counters.pending[q].send);
  }

  /** The counters of a side that acts keep up with its sends. */
  lemma ActedKeepsSends(c: Config, me: Party, e: Event)
    requires PartyShaped(me, c.numQp) && CanAct(me, e) && SideOk(c, me, e.q)
    requires me.posted == me.counters.scnt + Sum(Busy(me)) && me.posted <= c.iters + c.numQp - 1
    ensures var (after, post) := Acted(c, me, e);
            && after.posted == after.counters.scnt + Sum(Busy(after)) && after.posted <= c.iters + c.numQp - 1
            && after.posted == me.posted + Bit(post)
  {
    hide Sum, Asked;
    ActedOnlyAt(c, me, e);
    SumsFollow(me, Acted(c, me, e).0, c.numQp, e.q);
    BusyRoom(me, e.q);
  }

  /** The receives that a side posted and has not seen complete are as many as it counts. */
  lemma ActedKeepsFree(c: Config, me: Party, e: Event)
    requires c.Valid() && PartyShaped(me, c.numQp) && CanAct(me, e) && c.numQp <= me.counters.routs <= c.depth
    requires me.counters.routs == me.free + Sum(me.arrived)
    ensures var after := Acted(c, me, e).0;
            && c.numQp <= after.counters.routs <= c.depth
            && after.counters.routs == after.free + Sum(after.arrived)
  {
    hide Sum, Cleared;
    var after := Acted(c, me, e).0;
    SumUpdate(me.arrived, e.q, after.arrived[e.q]);
    assert after.arrived == me.arrived[e.q := after.arrived[e.q]];
  }

  /** The counters of a side that acts keep up with its receives. */
  lemma ActedKeepsReceives(c: Config, me: Party, e: Event)
    requires PartyShaped(me, c.numQp) && CanAct(me, e)
    ensures var after := Acted(c, me, e).0;
            after.counters.rcnt + Sum(Load(after)) == me.counters.rcnt + Sum(Load(me))
  {
    hide Sum, Asked, Cleared;
    ActedOnlyAt(c, me, e);
    SumsFollow(me, Acted(c, me, e).0, c.numQp, e.q);
  }

  lemma TargetSums(p: Party, n: nat, q: nat)
    requires PartyShaped(p, n) && q < n
    ensures Sum(Load(Target(p, q))) == Sum(Load(p)) + 1
    ensures Sum(OnServerHalf(Target(p, q))) == Sum(OnServerHalf(p)) + 1
    ensures Busy(Target(p, q)) == Busy(p)
  {
    hide Sum;
    SumsFollow(p, Target(p, q), n, q);
  }

  lemma StepKeepsCounts(c: Config, st: State, e: Event)
    requires Inv(c, st) && Enabled(c, st, e)
    ensures CountsOk(c, Step(c, st, e)[0], Step(c, st, e)[1])
    ensures CountsOk(c, Step(c, st, e)[1], Step(c, st, e)[0])
  {
    hide Sum, Load, Busy, OnServerHalf, Acted;
    assert QpOk(c, st, e.q);
    ActedKeepsSends(c, st[e.who], e);
    ActedKeepsReceives(c, st[e.who], e);
    ActedKeepsFree(c, st[e.who], e);
    TargetSums(st[1 - e.who], c.numQp, e.q);
  }

  lemma StepKeepsBalance(c: Config, st: State, e: Event)
    requires Inv(c, st) && Enabled(c, st, e)
    ensures Step(c, st, e)[0].posted == Step(c, st, e)[1].posted + Sum(OnServerHalf(Step(c, st, e)[1]))
  {
    hide Sum, Busy, Acted;
    assert QpOk(c, st, e.q);
    ActedKeepsSends(c, st[e.who], e);
    ActedKeepsSide(c, st[e.who], e);
    ActedOnlyAt(c, st[e.who], e);
    SumsFollow(st[e.who], Acted(c, st[e.who], e).0, c.numQp, e.q);
    TargetSums(st[1 - e.who], c.numQp, e.q);
  }

  lemma StepKeepsInv(c: Config, st: State, e: Event)
    requires Inv(c, st) && Enabled(c, st, e)
    ensures Inv(c, Step(c, st, e))
  {
    hide CountsOk, QpOk, Sum, OnServerHalf;
    forall q: nat | q < c.numQp ensures QpOk(c, Step(c, st, e), q) {
      assert QpOk(c, st, q);
      if q == e.q { StepKeepsQp(c, st, e); } else { StepKeepsOtherQp(c, st, e, q); }
    }
    StepKeepsCounts(c, st, e);
    StepKeepsBalance(c, st, e);
  }

  // ---- From the start to the end ----

  /** Both programs before their main loops: the client sent one message on every queue pair. */
  ghost function Start(c: Config): (st: State)
    ensures Shaped(c, st)
  {
    var zeros, ones := seq(c.numQp, _ => 0), seq(c.numQp, _ => 1);
    [Party(Counters(0, 0, c.depth, seq(c.numQp, _ => Mask(true, true))), c.numQp, c.depth, ones, zeros, zeros,
           zeros),
     Party(Counters(0, 0, c.depth, seq(c.numQp, _ => Mask(true, false))), 0, c.depth, zeros, zeros, ones,
           zeros)]
  }

  lemma StartInv(c: Config)
    requires c.Valid()
    ensures Inv(c, Start(c))
  {
    hide Sum;
    SumOfBits(Busy(Start(c)[0]));
    SumOfBits(Busy(Start(c)[1]));
    SumOfBits(Load(Start(c)[0]));
    SumOfBits(Load(Start(c)[1]));
    SumOfBits(OnServerHalf(Start(c)[1]));
    SumOfZeros(Start(c)[0].arrived);
    SumOfZeros(Start(c)[1].arrived);
  }

  ghost predicate Allowed(c: Config, st: State, events: seq<Event>)
    requires Shaped(c, st)
    decreases |events|
  {
    events == [] || (Enabled(c, st, events[0]) && Allowed(c, Step(c, st, events[0]), events[1..]))
  }

  ghost function Run(c: Config, st: State, events: seq<Event>): (after: State)
    requires Shaped(c, st) && Allowed(c, st, events)
    ensures Shaped(c, after)
    decreases |events|
  {
    if events == [] then st else Run(c, Step(c, st, events[0]), events[1..])
  }

  lemma {:induction false} RunKeepsInv(c: Config, st: State, events: seq<Event>)
    requires Inv(c, st) && Allowed(c, st, events)
    ensures Inv(c, Run(c, st, events))
    decreases |events|
  {
    if events != [] {
      StepKeepsInv(c, st, events[0]);
      RunKeepsInv(c, Step(c, st, events[0]), events[1..]);
    }
  }

  lemma {:induction false} SumPointwise(xs: seq<nat>, ys: seq<nat>, zs: seq<nat>)
    requires |xs| == |ys| == |zs| && forall i :: 0 <= i < |xs| ==> zs[i] == xs[i] + ys[i]
    ensures Sum(zs) == Sum(xs) + Sum(ys)
  {
    if xs != [] {
      SumPointwise(xs[1..], ys[1..], zs[1..]);
    }
  }

  lemma LoadIsCovered(c: Config, p: Party, q: nat)
    requires PartyShaped(p, c.numQp) && q < c.numQp <= p.free + Sum(p.arrived)
    requires forall k :: 0 <= k < |Load(p)| ==> Load(p)[k] <= 1
    ensures Sum(p.inFlight) <= p.free
    ensures p.inFlight[q] <= Sum(p.inFlight)
  {
    hide Sum;
    SumOfBits(Load(p));
    SumPointwise(p.inFlight, p.arrived, Load(p));
    SumAtLeast(p.inFlight, q);
  }

  /**
   The receives never run out: the messages on their way to a side never exceed its posted receives,
   and no queue pair ever has more than one send whose completion was not seen.
   */
  lemma NeverStarves(c: Config, st: State, i: nat, q: nat)
    requires Inv(c, st) && i < 2 && q < c.numQp
    ensures Sum(st[i].inFlight) <= st[i].free
    ensures st[i].unacked[q] + st[i].sendDone[q] <= 1
    ensures st[i].inFlight[q] > 0 ==> Enabled(c, st, Deliver(i, q))
  {
    hide Sum, OnServerHalf, Busy;
    forall k: nat | k < c.numQp ensures Load(st[i])[k] <= 1 { assert QpOk(c, st, k); }
    LoadIsCovered(c, st[i], q);
    assert QpOk(c, st, q);
  }

  ghost predicate Over(c: Config, st: State)
    requires Shaped(c, st)
  {
    st[0].counters.Finished(c) && st[1].counters.Finished(c)
  }

  /** When a side has nothing left to see, its counters are up to date. */
  lemma Settled(c: Config, st: State, i: nat)
    requires Inv(c, st) && i < 2
    requires forall q: nat :: q < c.numQp ==>
               st[i].unacked[q] == st[i].sendDone[q] == st[i].inFlight[q] == st[i].arrived[q] == 0
    ensures st[i].posted == st[i].counters.scnt && st[1 - i].posted == st[i].counters.rcnt
    ensures forall q: nat :: q < c.numQp ==>
              !st[i].counters.pending[q].send && Balls(st[i], q) == Bit(!st[i].counters.pending[q].recv)
  {
    hide Sum;
    forall q: nat | q < c.numQp ensures Busy(st[i])[q] == 0 && Load(st[i])[q] == 0 { assert QpOk(c, st, q); }
    SumOfBits(Busy(st[i]));
    SumOfBits(Load(st[i]));
  }

  lemma ServerHalf(c: Config, st: State)
    requires Inv(c, st)
    ensures 0 <= Sum(OnServerHalf(st[1])) && st[1].posted <= st[0].posted
    ensures Sum(Busy(st[0])) >= 0 && Sum(Busy(st[1])) >= 0
    ensures st[0].counters.rcnt <= st[1].posted && st[1].counters.rcnt <= st[0].posted
  {
    hide Sum, Load, Busy, OnServerHalf, QpOk;
    SumNatural(OnServerHalf(st[1]));
    SumNatural(Busy(st[0]));
    SumNatural(Busy(st[1]));
    SumNatural(Load(st[0]));
    SumNatural(Load(st[1]));
  }

  /**
   If nothing can move, a program that waits still has the other one waiting, and one of them holds a ball it
   would send.
   */
  lemma StuckMeansOver(c: Config, st: State, i: nat)
    requires Inv(c, st) && i < 2
    requires forall j: nat, q: nat :: j < 2 && q < c.numQp ==> st[j].unacked[q] == st[j].inFlight[q] == 0
    requires forall j: nat, q: nat :: j < 2 && q < c.numQp && !st[j].counters.Finished(c) ==>
               st[j].sendDone[q] == st[j].arrived[q] == 0
    ensures st[i].counters.Finished(c)
  {
    hide Sum, Load, Busy, OnServerHalf;
    ServerHalf(c, st);
    if !st[i].counters.Finished(c) {
      Settled(c, st, i);
      var me, other := st[i], st[1 - i];
      if !other.counters.Finished(c) {
        Settled(c, st, 1 - i);
        BothHold(c, st);
      }
    }
  }

  /**
   With everything settled, the side that holds the balls of all queue pairs would have sent them back unless
   it was done.
   */
  lemma BothHold(c: Config, st: State)
    requires Inv(c, st)
    requires forall i: nat :: i < 2 ==> st[i].posted == st[i].counters.scnt && st[1 - i].posted == st[i].counters.rcnt
    requires forall i: nat, q: nat :: i < 2 && q < c.numQp ==>
               !st[i].counters.pending[q].send && Balls(st[i], q) == Bit(!st[i].counters.pending[q].recv)
    ensures st[0].counters.Finished(c) || st[1].counters.Finished(c)
  {
    hide Sum, Load, Busy, Balls;
    var server := st[1];
    forall q: nat | q < c.numQp
      ensures Balls(server, q) <= 1
      ensures Balls(server, q) == 1 ==> server.counters.scnt >= c.iters
      ensures Balls(server, q) == 0 ==> st[0].counters.scnt >= c.iters
    {
      assert QpOk(c, st, q);
    }
    SumOfBits(OnServerHalf(server));
    assert Balls(server, 0) <= 1;
  }

  lemma NotStuck(c: Config, st: State)
    requires Inv(c, st)
    requires forall j: nat, q: nat :: j < 2 && q < c.numQp ==> st[j].unacked[q] == st[j].inFlight[q] == 0
    requires forall j: nat, q: nat :: j < 2 && q < c.numQp && !st[j].counters.Finished(c) ==>
               st[j].sendDone[q] == st[j].arrived[q] == 0
    ensures Over(c, st)
  {
    hide Inv;
    StuckMeansOver(c, st, 0);
    StuckMeansOver(c, st, 1);
  }

  /**
   No deadlock: as long as one of the programs is in its loop, the card can move or a program in its loop
   has a completion to see.
   */
  lemma SomethingMoves(c: Config, st: State) returns (e: Event)
    requires Inv(c, st) && !Over(c, st)
    ensures Enabled(c, st, e)
    ensures e.Seen? ==> !st[e.who].counters.Finished(c)
  {
    hide Sum, CountsOk, QpOk, OnServerHalf, Over;
    e := Deliver(0, 0);
    if i: nat, q: nat :| i < 2 && q < c.numQp && st[i].inFlight[q] > 0 {
      NeverStarves(c, st, i, q);
      e := Deliver(i, q);
    } else if i: nat, q: nat :| i < 2 && q < c.numQp && st[i].unacked[q] > 0 {
      e := Ack(i, q);
      assert st[1 - i].inFlight[q] == 0;
    } else if i: nat, q: nat :| i < 2 && q < c.numQp && !st[i].counters.Finished(c) && st[i].sendDone[q] > 0 {
      e := Seen(i, q, SendWr);
    } else if i: nat, q: nat :| i < 2 && q < c.numQp && !st[i].counters.Finished(c) && st[i].arrived[q] > 0 {
      e := Seen(i, q, RecvWr);
    } else {
      NotStuck(c, st);
      assert false;
    }
  }

  /** The work left on one side. */
  ghost function Work(c: Config, p: Party): int {
    4 * (c.iters + c.numQp - 1 - p.posted) + 2 * Sum(p.inFlight) + Sum(p.arrived) + 2 * Sum(p.unacked) + Sum(p.sendDone)
  }

  ghost function Measure(c: Config, st: State): int
    requires |st| == 2
  {
    Work(c, st[0]) + Work(c, st[1])
  }

  lemma ActedLowersWork(c: Config, me: Party, e: Event)
    requires PartyShaped(me, c.numQp) && CanAct(me, e)
    ensures var (after, post) := Acted(c, me, e); Work(c, after) + 2 * Bit(post) < Work(c, me)
  {
    hide Sum;
    var after := Acted(c, me, e).0;
    SumUpdate(me.inFlight, e.q, after.inFlight[e.q]);
    SumUpdate(me.arrived, e.q, after.arrived[e.q]);
    SumUpdate(me.unacked, e.q, after.unacked[e.q]);
    SumUpdate(me.sendDone, e.q, after.sendDone[e.q]);
  }

  lemma TargetRaisesWork(c: Config, p: Party, q: nat)
    requires q < |p.inFlight|
    ensures Work(c, Target(p, q)) == Work(c, p) + 2
  {
    hide Sum;
    SumUpdate(p.inFlight, q, p.inFlight[q] + 1);
  }

  /** A new send costs 4 units of the work that may still be posted, and brings 2 on each side. */
  lemma StepLowersMeasure(c: Config, st: State, e: Event)
    requires Shaped(c, st) && Enabled(c, st, e)
    ensures Measure(c, Step(c, st, e)) < Measure(c, st)
  {
    hide Sum, Acted, Work, Target;
    ActedLowersWork(c, st[e.who], e);
    if Acted(c, st[e.who], e).1 {
      TargetRaisesWork(c, st[1 - e.who], e.q);
    }
  }

  lemma WorkNonNegative(c: Config, p: Party)
    requires p.posted <= c.iters + c.numQp - 1
    ensures Work(c, p) >= 0
  {
    hide Sum;
    SumNatural(p.inFlight);
    SumNatural(p.arrived);
    SumNatural(p.unacked);
    SumNatural(p.sendDone);
  }

  lemma MeasureNonNegative(c: Config, st: State)
    requires Inv(c, st)
    ensures Measure(c, st) >= 0
  {
    hide Sum, QpOk, Load, Busy, OnServerHalf, Work;
    WorkNonNegative(c, st[0]);
    WorkNonNegative(c, st[1]);
  }

  /** Every run ends: it cannot have more steps than there is work at its start. */
  lemma {:induction false} RunsAreFinite(c: Config, st: State, events: seq<Event>)
    requires Inv(c, st) && Allowed(c, st, events)
    ensures |events| <= Measure(c, st) - Measure(c, Run(c, st, events))
    ensures Measure(c, Run(c, st, events)) >= 0
    decreases |events|
  {
    hide Measure;
    if events == [] {
      MeasureNonNegative(c, st);
    } else {
      StepLowersMeasure(c, st, events[0]);
      StepKeepsInv(c, st, events[0]);
      RunsAreFinite(c, Step(c, st, events[0]), events[1..]);
    }
  }

  lemma CountsBound(c: Config, me: Party, peer: Party)
    requires |me.inFlight| == |me.arrived| && |peer.inFlight| == |peer.arrived|
    requires CountsOk(c, me, peer) && CountsOk(c, peer, me)
    ensures me.counters.scnt <= me.posted <= c.iters + c.numQp - 1
    ensures me.counters.rcnt <= c.iters + c.numQp - 1
  {
    hide Sum, Load, Busy;
    SumNatural(Busy(me));
    SumNatural(Load(me));
  }

  /** At any time each side posted, and counted, at most `iters + numQp - 1` sends and receives. */
  lemma FinalCounts(c: Config, events: seq<Event>, i: nat)
    requires c.Valid() && i < 2 && Allowed(c, Start(c), events)
    ensures var me := Run(c, Start(c), events)[i];
            && me.counters.scnt <= me.posted <= c.iters + c.numQp - 1
            && me.counters.rcnt <= c.iters + c.numQp - 1
  {
    hide CountsOk, QpOk, Start, Run, Allowed, OnServerHalf;
    StartInv(c);
    RunKeepsInv(c, Start(c), events);
    var st := Run(c, Start(c), events);
    CountsBound(c, st[i], st[1 - i]);
  }

  /**
   In every run the program's count of receives is that of the receives that it posted and has not seen complete,
   at least one for each queue pair and never more than the depth.
   */
  lemma ReceivesAreExact(c: Config, events: seq<Event>, i: nat)
    requires c.Valid() && i < 2 && Allowed(c, Start(c), events)
    ensures var me := Run(c, Start(c), events)[i];
            me.counters.routs == me.free + Sum(me.arrived) && c.numQp <= me.free + Sum(me.arrived) <= c.depth
  {
    hide QpOk, Start, Run, Allowed, OnServerHalf;
    StartInv(c);
    RunKeepsInv(c, Start(c), events);
  }

  /** With one queue pair both programs end with exactly `iters` sends posted, sends counted and receives counted. */
  lemma OneQpIsExact(c: Config, events: seq<Event>, i: nat)
    requires c.Valid() && c.numQp == 1 && i < 2 && Allowed(c, Start(c), events) && Over(c, Run(c, Start(c), events))
    ensures var me := Run(c, Start(c), events)[i];
            me.posted == me.counters.scnt == me.counters.rcnt == c.iters
  {
    FinalCounts(c, events, 0);
    FinalCounts(c, events, 1);
  }

  // ---- With several queue pairs the count is not exact ----

  /** One queue pair of a side, with the side's totals. */
  datatype View = View(mask: Mask, unacked: nat, sendDone: nat, inFlight: nat, arrived: nat, scnt: nat, posted: nat)

  ghost function ViewOf(c: Config, p: Party, q: nat): View
    requires PartyShaped(p, c.numQp) && q < c.numQp
  {
    View(p.counters.pending[q], p.unacked[q], p.sendDone[q], p.inFlight[q], p.arrived[q], p.counters.scnt, p.posted)
  }

  ghost predicate MayMove(me: View, peer: View, e: Event) {
    match e
    case Deliver(_, _) => me.inFlight > 0
    case Ack(_, _) => me.unacked > peer.inFlight
    case Seen(_, _, SendWr) => me.sendDone > 0
    case Seen(_, _, RecvWr) => me.arrived > 0
    case Seen(_, _, UnknownWr) => false
  }

  ghost function MovedViews(c: Config, me: View, peer: View, e: Event): (r: (View, View))
    requires MayMove(me, peer, e)
  {
    match e
    case Deliver(_, _) => (me.(inFlight := me.inFlight - 1, arrived := me.arrived + 1), peer)
    case Ack(_, _) => (me.(unacked := me.unacked - 1, sendDone := me.sendDone + 1), peer)
    case Seen(_, _, wr) =>
      var counted := if wr.SendWr? then me.(scnt := me.scnt + 1, sendDone := me.sendDone - 1)
                     else me.(arrived := me.arrived - 1);
      var mask := Cleared(me.mask, wr);
      if counted.scnt < c.iters && mask == Mask(false, false)
      then (counted.(mask := Mask(true, true), posted := me.posted + 1, unacked := me.unacked + 1),
            peer.(inFlight := peer.inFlight + 1))
      else (counted.(mask := mask), peer)
  }

  /** The first queue pair on both sides. */
  datatype Pair = Pair(client: View, server: View) {
    ghost predicate CanMove(e: Event) {
      if e.who == 0 then MayMove(client, server, e) else MayMove(server, client, e)
    }

    ghost function Moved(c: Config, e: Event): Pair
      requires CanMove(e)
    {
      if e.who == 0
      then var (me, peer) := MovedViews(c, client, server, e); Pair(me, peer)
      else var (me, peer) := MovedViews(c, server, client, e); Pair(peer, me)
    }
  }

  ghost predicate Shows(c: Config, st: State, pair: Pair) {
    Inv(c, st) && pair == Pair(ViewOf(c, st[0], 0), ViewOf(c, st[1], 0))
  }

  lemma MoveEnabled(c: Config, st: State, e: Event, pair: Pair)
    requires Shows(c, st, pair) && e.q == 0 && e.who < 2 && pair.CanMove(e)
    ensures Enabled(c, st, e)
  {
    hide Sum, CountsOk, QpOk, OnServerHalf;
    if e.Deliver? {
      NeverStarves(c, st, e.who, 0);
    }
  }

  lemma MoveActs(c: Config, st: State, e: Event, pair: Pair)
    requires Shaped(c, st) && c.numQp > 0 && pair == Pair(ViewOf(c, st[0], 0), ViewOf(c, st[1], 0))
    requires e.q == 0 && e.who < 2 && pair.CanMove(e) && Enabled(c, st, e)
    ensures Pair(ViewOf(c, Step(c, st, e)[0], 0), ViewOf(c, Step(c, st, e)[1], 0)) == pair.Moved(c, e)
  {
    hide Sum, Asked;
  }

  /** One event on the first queue pair: what it needs and does there can be told from that queue pair alone. */
  lemma MoveOne(c: Config, st: State, e: Event, pair: Pair)
    requires Shows(c, st, pair) && e.q == 0 && e.who < 2 && pair.CanMove(e)
    ensures Enabled(c, st, e) && Shows(c, Step(c, st, e), pair.Moved(c, e))
  {
    hide CountsOk, QpOk, OnServerHalf, Enabled, Step, Pair.CanMove, Pair.Moved;
    MoveEnabled(c, st, e, pair);
    MoveActs(c, st, e, pair);
    StepKeepsInv(c, st, e);
  }

  lemma RunAppend(c: Config, st: State, events: seq<Event>, e: Event)
    requires Shaped(c, st) && Allowed(c, st, events) && Enabled(c, Run(c, st, events), e)
    ensures Allowed(c, st, events + [e])
    ensures Run(c, st, events + [e]) == Step(c, Run(c, st, events), e)
    decreases |events|
  {
    hide Step, Enabled;
    if events == [] {
      assert [e][1..] == [];
    } else {
      assert (events + [e])[1..] == events[1..] + [e];
      RunAppend(c, Step(c, st, events[0]), events[1..], e);
    }
  }

  /** The run is possible, and ends where the first queue pair shows the given pair. */
  ghost predicate Leads(c: Config, st: State, events: seq<Event>, pair: Pair) {
    Shaped(c, st) && Allowed(c, st, events) && Shows(c, Run(c, st, events), pair)
  }

  lemma Extend(c: Config, st: State, events: seq<Event>, e: Event, pair: Pair) returns (longer: seq<Event>, after: Pair)
    requires Leads(c, st, events, pair) && e.q == 0 && e.who < 2 && pair.CanMove(e)
    ensures after == pair.Moved(c, e) && Leads(c, st, longer, after)
  {
    hide Shows, Enabled, Step, Allowed, Run, Pair.CanMove, Pair.Moved;
    MoveOne(c, Run(c, st, events), e, pair);
    RunAppend(c, st, events, e);
    longer, after := events + [e], pair.Moved(c, e);
  }

  /** The ball of the first queue pair went back and forth `k` times while all others wait. */
  ghost function Bounced(c: Config, k: nat): Pair {
    Pair(View(Mask(true, true), 1, 0, 0, 0, k, c.numQp + k), View(Mask(true, false), 0, 0, 1, 0, k, k))
  }

  /** To the server, which answers at once, and back to the client. */
  lemma Bounce(c: Config, st: State, before: seq<Event>, k: nat) returns (events: seq<Event>)
    requires Leads(c, st, before, Bounced(c, k)) && k + 1 < c.iters
    ensures Leads(c, st, events, Bounced(c, k + 1))
  {
    hide Leads;
    var pair := Bounced(c, k);
    events := before;
    events, pair := Extend(c, st, events, Deliver(1, 0), pair);
    events, pair := Extend(c, st, events, Seen(1, 0, RecvWr), pair);
    events, pair := Extend(c, st, events, Ack(0, 0), pair);
    events, pair := Extend(c, st, events, Seen(0, 0, SendWr), pair);
    events, pair := Extend(c, st, events, Deliver(0, 0), pair);
    events, pair := Extend(c, st, events, Ack(1, 0), pair);
    events, pair := Extend(c, st, events, Seen(1, 0, SendWr), pair);
    events, pair := Extend(c, st, events, Seen(0, 0, RecvWr), pair);
  }

  lemma StartLeads(c: Config)
    requires c.Valid()
    ensures Leads(c, Start(c), [], Bounced(c, 0))
  {
    hide Inv;
    StartInv(c);
  }

  lemma {:induction false} BounceOften(c: Config, k: nat) returns (events: seq<Event>)
    requires c.Valid() && k < c.iters
    ensures Leads(c, Start(c), events, Bounced(c, k))
  {
    hide Leads, Start, Bounced;
    if k == 0 {
      StartLeads(c);
      events := [];
    } else {
      events := BounceOften(c, k - 1);
      events := Bounce(c, Start(c), events, k - 1);
    }
  }

  /** The bound on the number of sends is tight: in some run the client posts `iters + numQp - 1` of them. */
  lemma OvershootHappens(c: Config) returns (events: seq<Event>)
    requires c.Valid()
    ensures Allowed(c, Start(c), events) && Run(c, Start(c), events)[0].posted == c.iters + c.numQp - 1
  {
    hide Start, Run, Allowed, Inv;
    events := BounceOften(c, c.iters - 1);
  }

  /** No run posts more than `iters` sends on a side if and only if there is one queue pair. */
  lemma ExactOnlyWithOneQp(c: Config)
    requires c.Valid()
    ensures (forall events: seq<Event>, i: nat :: i < 2 && Allowed(c, Start(c), events) ==>
                 Run(c, Start(c), events)[i].posted <= c.iters)
            <==> c.numQp == 1
  {
    hide Start, Run, Allowed;
    forall events: seq<Event>, i: nat | i < 2 && Allowed(c, Start(c), events)
      ensures Run(c, Start(c), events)[i].posted <= c.iters + c.numQp - 1
    {
      FinalCounts(c, events, i);
    }
    var over := OvershootHappens(c);
  }
}
