/**
 The receive window of src/iballputall.c: a ring of buffer slots whose receives the program expects to complete
 in order, and a list of work requests that is used again and again to post the missing ones.  The queue pairs
 of all other ranks share the receive queue, and the card may complete its receives in any order.
 */
module RingWindow {
  import opened Common

  const MAX_SRQ_WR := 1024

  /** `NULL` in a list whose pointers are the indices of its work requests. */
  const NULL := -1

  /** A receive on the shared queue: its id, and the slot that it fills. */
  datatype Recv = Recv(id: int, slot: int)

  /** The place of a number in the ring. */
  function Ring(i: nat): (r: nat)
    ensures r < MAX_SRQ_WR
  {
    i % MAX_SRQ_WR
  }

  /** `len` slots of the ring from `idx` on, each posted under its own number. */
  function Slots(idx: nat, len: nat): (r: seq<Recv>)
    ensures |r| == len
    decreases len
  {
    if len == 0 then [] else [Recv(idx, idx)] + Slots(Ring(idx + 1), len - 1)
  }

  lemma {:induction false} WholeTurns(q: nat, x: nat)
    ensures (MAX_SRQ_WR * q + x) % MAX_SRQ_WR == x % MAX_SRQ_WR
  {
    if q > 0 { WholeTurns(q - 1, x); }
  }

  /** Moving on in the ring can be done in two steps. */
  lemma RingSteps(i: nat, a: nat, b: nat)
    ensures Ring(Ring(i + a) + b) == Ring(i + (a + b))
  {
    var q := (i + a) / MAX_SRQ_WR;
    assert i + (a + b) == MAX_SRQ_WR * q + ((i + a) % MAX_SRQ_WR + b);
    WholeTurns(q, (i + a) % MAX_SRQ_WR + b);
  }

  /** Different places in the ring, less than one turn apart. */
  lemma RingApart(i: nat, j: nat, k: nat)
    requires j < k < j + MAX_SRQ_WR
    ensures Ring(i + j) != Ring(i + k)
  {
  }

  lemma RingSmall(i: nat)
    requires i < MAX_SRQ_WR
    ensures Ring(i) == i
  {
  }

  lemma {:induction false} SlotAt(idx: nat, len: nat, k: nat)
    requires idx < MAX_SRQ_WR && k < len
    ensures Slots(idx, len)[k] == Recv(Ring(idx + k), Ring(idx + k))
    decreases k
  {
    hide Ring;
    if k > 0 {
      SlotAt(Ring(idx + 1), len - 1, k - 1);
      RingSteps(idx, 1, k - 1);
    } else {
      RingSmall(idx);
    }
  }

  /** No slot is posted twice. */
  lemma SlotsDistinct(idx: nat, len: nat, j: nat, k: nat)
    requires idx < MAX_SRQ_WR && j < k < len <= MAX_SRQ_WR
    ensures Slots(idx, len)[j].slot != Slots(idx, len)[k].slot
  {
    hide Slots, Ring;
    SlotAt(idx, len, j);
    SlotAt(idx, len, k);
    RingApart(idx, j, k);
  }

  lemma {:induction false} SlotsConcat(idx: nat, a: nat, b: nat)
    requires idx < MAX_SRQ_WR
    ensures Slots(idx, a + b) == Slots(idx, a) + Slots(Ring(idx + a), b)
    decreases a
  {
    hide Ring;
    if a > 0 {
      SlotsConcat(Ring(idx + 1), a - 1, b);
      RingSteps(idx, 1, a - 1);
    } else {
      RingSmall(idx);
    }
  }

  lemma SlotsNext(idx: nat, a: nat)
    requires idx < MAX_SRQ_WR
    ensures Slots(idx, a + 1) == Slots(idx, a) + [Recv(Ring(idx + a), Ring(idx + a))]
  {
    hide Ring;
    SlotsConcat(idx, a, 1);
    assert Slots(Ring(idx + a), 1) == [Recv(Ring(idx + a), Ring(idx + a))] + Slots(Ring(Ring(idx + a) + 1), 0);
  }

  /** In any order, the slots without the first are those of the window without it. */
  lemma FirstSlotTaken(rest: seq<Recv>, idx: nat, len: nat)
    requires multiset([Recv(idx, idx)] + rest) == multiset(Slots(idx, len))
    ensures len > 0 && |rest| == len - 1
    ensures multiset(rest) == multiset(Slots(Ring(idx + 1), len - 1))
    ensures [Recv(idx, idx)] + rest == Slots(idx, len) ==> rest == Slots(Ring(idx + 1), len - 1)
  {
    hide Ring;
    SameLength([Recv(idx, idx)] + rest, Slots(idx, len));
    assert multiset([Recv(idx, idx)] + rest) == multiset{Recv(idx, idx)} + multiset(rest);
    assert ([Recv(idx, idx)] + rest)[1..] == rest;
    assert multiset(Slots(idx, len))
        == multiset{Recv(idx, idx)} + multiset(Slots(Ring(idx + 1), len - 1));
    Cancel(Recv(idx, idx), multiset(rest), multiset(Slots(Ring(idx + 1), len - 1)));
  }

  lemma Cancel(r: Recv, a: multiset<Recv>, b: multiset<Recv>)
    requires multiset{r} + a == multiset{r} + b
    ensures a == b
  {
    assert a == (multiset{r} + a) - multiset{r};
    assert b == (multiset{r} + b) - multiset{r};
  }

  /** The missing slots behind the window make the window full, in order if it was in order. */
  lemma WindowFilled(arrived: seq<Recv>, posted: seq<Recv>, idx: nat, len: nat)
    requires idx < MAX_SRQ_WR && len <= MAX_SRQ_WR
    requires multiset(arrived + posted) == multiset(Slots(idx, len))
    ensures |posted| <= len
    ensures var missing := Slots(Ring(idx + len), MAX_SRQ_WR - len);
            && multiset(arrived + (posted + missing)) == multiset(Slots(idx, MAX_SRQ_WR))
            && (arrived + posted == Slots(idx, len) ==> arrived + (posted + missing) == Slots(idx, MAX_SRQ_WR))
  {
    hide Slots, Ring;
    var missing := Slots(Ring(idx + len), MAX_SRQ_WR - len);
    SlotsConcat(idx, len, MAX_SRQ_WR - len);
    SameLength(arrived + posted, Slots(idx, len));
    assert arrived + (posted + missing) == (arrived + posted) + missing;
    assert multiset((arrived + posted) + missing) == multiset(arrived + posted) + multiset(missing);
    assert multiset(Slots(idx, len) + missing) == multiset(Slots(idx, len)) + multiset(missing);
  }

  lemma SameLength(a: seq<Recv>, b: seq<Recv>)
    requires multiset(a) == multiset(b)
    ensures |a| == |b|
  {
    assert |multiset(a)| == |multiset(b)|;
  }

  /** Every receive of a window fills the slot of its id. */
  lemma SlotOfId(receives: seq<Recv>, idx: nat, len: nat, r: Recv)
    requires idx < MAX_SRQ_WR && multiset(receives) == multiset(Slots(idx, len)) && r in receives
    ensures r == Recv(r.id, r.id)
  {
    hide Ring;
    assert r in multiset(Slots(idx, len));
    var k :| 0 <= k < len && Slots(idx, len)[k] == r;
    SlotAt(idx, len, k);
  }

  /** How a call of the program ends: with a return value, at its assertion, or outside its list of requests. */
  datatype End = Went(err: int) | AssertionFailed | OutsideList

  class Receiver {
    var idx: nat
    var len: nat
    const wrId: array<int>
    const addr: array<int>
    const next: array<int>
    /** The shared receive queue of the card, and the completions that the program did not see yet. */
    var posted: seq<Recv>
    var arrived: seq<Recv>

    ghost predicate Shaped()
      reads this
    {
      && wrId.Length == addr.Length == next.Length == MAX_SRQ_WR
      && wrId != addr && wrId != next && addr != next && idx < MAX_SRQ_WR && len <= MAX_SRQ_WR
    }

    /** Adjacent work requests are linked; what the last one is linked to does not matter. */
    ghost predicate Linked()
      requires Shaped()
      reads this, next
    {
      forall i: nat :: i < MAX_SRQ_WR - 1 ==> next[i] == i + 1
    }

    /** What arrived and what is still posted is the window, in any order. */
    ghost predicate Valid()
      reads this, next
    {
      Shaped() && Linked() && multiset(arrived + posted) == multiset(Slots(idx, len))
    }

    /** The card completed receives in the order in which they were posted. */
    ghost predicate InOrder()
      reads this
    {
      arrived + posted == Slots(idx, len)
    }

    /** The list before the first receives are posted. */
    constructor ()
      ensures Valid() && InOrder() && idx == 0 && len == 0
      ensures fresh(wrId) && fresh(addr) && fresh(next)
    {
      idx, len, posted, arrived := 0, 0, [], [];
      wrId := new int[MAX_SRQ_WR](_ => 0);
      addr := new int[MAX_SRQ_WR](_ => 0);
      next := new int[MAX_SRQ_WR](i => if i == MAX_SRQ_WR - 1 then NULL else i + 1);
    }

    /** `ibv_post_srq_recv`: the card follows the links; it refuses what the queue has no room for. */
    method PostSrqRecv(ghost n: nat) returns (err: int)
      requires Shaped() && 0 < n <= MAX_SRQ_WR
      requires (forall i: nat :: i < n - 1 ==> next[i] == i + 1) && next[n - 1] == NULL
      modifies this`posted
      ensures |old(posted)| + n <= MAX_SRQ_WR ==>
                err == 0 && posted == old(posted) + Listed(n)
      ensures |old(posted)| <= MAX_SRQ_WR < |old(posted)| + n ==>
                err != 0 && posted == old(posted) + Listed(MAX_SRQ_WR - |old(posted)|)
    {
      var at := 0;
      while at != NULL
        invariant at == NULL || 0 <= at < n
        invariant posted == old(posted) + Listed(if at == NULL then n else at)
        invariant |old(posted)| <= MAX_SRQ_WR ==> |posted| <= MAX_SRQ_WR
        decreases if at == NULL then 0 else n - at
      {
        if |posted| >= MAX_SRQ_WR {
          return 1;
        }
        posted := posted + [Recv(wrId[at], addr[at])];
        at := next[at];
      }
      err := 0;
    }

    /** The first `n` work requests. */
    ghost function Listed(n: nat): (r: seq<Recv>)
      requires wrId.Length == addr.Length == MAX_SRQ_WR && n <= MAX_SRQ_WR
      reads wrId, addr
      ensures |r| == n
    {
      if n == 0 then [] else Listed(n - 1) + [Recv(wrId[n - 1], addr[n - 1])]
    }

    /**
     `pp_post_recv_refill`: every missing slot is posted once, and the links are as before.  With no slot missing
     it writes in front of the list.
     */
    method Refill() returns (end: End)
      requires Valid()
      modifies this`len, this`posted, wrId, addr, next
      ensures end == if old(len) == MAX_SRQ_WR then OutsideList else Went(0)
      ensures old(len) < MAX_SRQ_WR ==>
                && Valid() && len == MAX_SRQ_WR
                && posted == old(posted) + Slots(Ring(idx + old(len)), MAX_SRQ_WR - old(len))
                && (old(InOrder()) ==> InOrder())
    {
      hide Slots, Ring, Receiver.Listed, Receiver.Linked;
      var numRecv := MAX_SRQ_WR - len;
      if numRecv == 0 {
        return OutsideList;
      }
      WindowFilled(arrived, posted, idx, len);
      FillList(numRecv, Ring(idx + len));
      var err := PostList(numRecv);
      end := Went(err);
    }

    /** The first `n` work requests are cut off, posted, and linked again. */
    method PostList(n: nat) returns (err: int)
      requires Shaped() && Linked() && 0 < n <= MAX_SRQ_WR && |posted| + n <= MAX_SRQ_WR
      modifies this`len, this`posted, next
      ensures err == 0 && Shaped() && Linked() && len == MAX_SRQ_WR
      ensures posted == old(posted) + Listed(n)
    {
      hide Receiver.Listed;
      len := MAX_SRQ_WR;
      next[n - 1] := NULL;
      err := PostSrqRecv(n);
      if err != 0 {
        return;
      }
      next[n - 1] := n;
    }

    /** The loop of the refill: the first `n` work requests get the slots from `start` on. */
    method FillList(n: nat, start: nat)
      requires Shaped() && n <= MAX_SRQ_WR && start < MAX_SRQ_WR
      modifies wrId, addr
      ensures Listed(n) == Slots(start, n)
    {
      hide Slots, Ring;
      var id := start;
      RingSmall(start);
      for i := 0 to n
        invariant id == Ring(start + i)
        invariant forall k: nat :: k < i ==> wrId[k] == addr[k] == Ring(start + k)
      {
        addr[i] := id;
        wrId[i] := id;
        RingSteps(start, i, 1);
        id := Ring(id + 1);
      }
      ListedIsSlots(n, start);
    }

    lemma {:induction false} ListedIsSlots(n: nat, start: nat)
      requires wrId.Length == addr.Length == MAX_SRQ_WR && n <= MAX_SRQ_WR && start < MAX_SRQ_WR
      requires forall k: nat :: k < n ==> wrId[k] == addr[k] == Ring(start + k)
      ensures Listed(n) == Slots(start, n)
    {
      if n > 0 {
        ListedIsSlots(n - 1, start);
        SlotsNext(start, n - 1);
      }
    }

    /** The card completes any of the posted receives; the queue pairs that share it may overtake one another. */
    method Arrive(k: nat)
      requires Valid() && k < |posted|
      modifies this`posted, this`arrived
      ensures Valid() && arrived == old(arrived) + [old(posted)[k]]
      ensures posted == old(posted)[..k] + old(posted)[k + 1..]
      ensures old(InOrder()) && k == 0 ==> InOrder()
    {
      hide Slots;
      assert posted == posted[..k] + [posted[k]] + posted[k + 1..];
      arrived, posted := arrived + [posted[k]], posted[..k] + posted[k + 1..];
    }

    /**
     `pp_on_recv`, for a completion that was just taken: the assertion fails exactly if its id is not the first
     slot of the window; otherwise the window moves on, and after its last slot all slots are posted again.
     */
    method OnRecv(id: int) returns (end: End)
      requires Shaped() && Linked() && multiset([Recv(id, id)] + (arrived + posted)) == multiset(Slots(idx, len))
      modifies this`idx, this`len, this`posted, wrId, addr, next
      ensures end == if id == old(idx) then Went(0) else AssertionFailed
      ensures id == old(idx) ==>
                && Valid() && Handle(Win(old(idx), old(len)), id) == Some(Win(idx, len))
                && idx == Ring(old(idx) + 1) && len == (if old(len) == 1 then MAX_SRQ_WR else old(len) - 1)
                && ([Recv(id, id)] + (old(arrived) + old(posted)) == Slots(old(idx), old(len)) ==> InOrder())
    {
      hide Slots, Ring;
      if idx != id {
        return AssertionFailed;
      }
      FirstSlotTaken(arrived + posted, idx, len);
      idx := Ring(idx + 1);
      len := len - 1;
      if len == 0 {
        end := Refill();
        return;
      }
      end := Went(0);
    }

    /** The program takes the next completion and handles it; nothing can fail if the card kept the order. */
    method SeeReceive() returns (end: End)
      requires Valid() && arrived != []
      modifies this`idx, this`len, this`posted, this`arrived, wrId, addr, next
      ensures end == if old(arrived)[0].id == old(idx) then Went(0) else AssertionFailed
      ensures end == Went(0) ==> Valid() && Handle(Win(old(idx), old(len)), old(idx)) == Some(Win(idx, len))
      ensures old(InOrder()) ==> end == Went(0) && InOrder()
    {
      hide Slots, Ring;
      var r := arrived[0];
      SlotOfId(arrived + posted, idx, len, r);
      assert [r] + (arrived[1..] + posted) == arrived + posted;
      FirstInOrder(r, arrived[1..] + posted, idx, len);
      arrived := arrived[1..];
      end := OnRecv(r.id);
    }

    /** `pp_on_flush`: it fills up the window, and leaves its list exactly if nothing is missing. */
    method OnFlush() returns (end: End)
      requires Valid()
      modifies this`len, this`posted, wrId, addr, next
      ensures end == if old(len) == MAX_SRQ_WR then OutsideList else Went(0)
      ensures old(len) < MAX_SRQ_WR ==>
                && Valid() && len == MAX_SRQ_WR
                && posted == old(posted) + Slots(Ring(idx + old(len)), MAX_SRQ_WR - old(len))
                && (old(InOrder()) ==> InOrder())
    {
      end := Refill();
    }
  }

  lemma FirstInOrder(r: Recv, rest: seq<Recv>, idx: nat, len: nat)
    ensures [r] + rest == Slots(idx, len) ==> r == Recv(idx, idx)
  {
    assert ([r] + rest)[0] == r;
  }

  /** Two messages that overtake each other: the second slot completes before the first one, and the program stops. */
  method Overtaken() returns (end: End)
    ensures end == AssertionFailed
  {
    hide Slots, Ring;
    var receiver := new Receiver();
    end := receiver.Refill();
    SlotsFromZero();
    receiver.Arrive(1);
    receiver.Arrive(0);
    end := receiver.SeeReceive();
  }

  lemma SlotsFromZero()
    ensures Slots(Ring(0 + 0), MAX_SRQ_WR - 0)[1] == Recv(1, 1)
  {
    RingSmall(0);
    RingSmall(1);
    SlotAt(0, MAX_SRQ_WR, 1);
  }

  // ---- Many receives ----

  datatype Win = Win(idx: nat, len: nat)

  function AfterReceive(w: Win): Win {
    Win(Ring(w.idx + 1), if w.len <= 1 then MAX_SRQ_WR else w.len - 1)
  }

  /** A completion that the program looks at. */
  function Handle(w: Win, id: int): Option<Win> {
    if id == w.idx then Some(AfterReceive(w)) else None
  }

  /** Completions in the order in which the program sees them; there is no answer where its assertion fails. */
  function HandleAll(w: Win, ids: seq<int>): Option<Win>
    decreases |ids|
  {
    if ids == [] then Some(w)
    else
      match Handle(w, ids[0])
      case None => None
      case Some(next) => HandleAll(next, ids[1..])
  }

  /** The ids come in the order of the ring, from `idx` on. */
  ghost predicate InRingOrder(idx: nat, ids: seq<int>) {
    forall j: nat :: j < |ids| ==> ids[j] == Ring(idx + j)
  }

  lemma RingOrderRest(idx: nat, ids: seq<int>)
    requires idx < MAX_SRQ_WR && ids != []
    ensures InRingOrder(idx, ids) <==> ids[0] == idx && InRingOrder(Ring(idx + 1), ids[1..])
  {
    hide Ring;
    RingSmall(idx);
    forall j: nat | j < |ids[1..]| ensures ids[1..][j] == ids[j + 1] && Ring(Ring(idx + 1) + j) == Ring(idx + (j + 1)) {
      RingSteps(idx, 1, j);
    }
    if ids[0] == idx && InRingOrder(Ring(idx + 1), ids[1..]) {
      forall j: nat | j < |ids| ensures ids[j] == Ring(idx + j) {
        if j > 0 { assert ids[1..][j - 1] == Ring(Ring(idx + 1) + (j - 1)); }
      }
    }
  }

  /** Whatever completes in whatever order: the assertion never fails if and only if the ids come in ring order. */
  lemma {:induction false} PassesIffInOrder(w: Win, ids: seq<int>)
    requires w.idx < MAX_SRQ_WR
    ensures HandleAll(w, ids).Some? <==> InRingOrder(w.idx, ids)
    decreases |ids|
  {
    hide Ring, InRingOrder;
    if ids == [] {
      NoIds(w.idx);
    } else {
      RingOrderRest(w.idx, ids);
      PassesIffInOrder(AfterReceive(w), ids[1..]);
    }
  }

  lemma NoIds(idx: nat)
    ensures InRingOrder(idx, [])
  {
  }

  function AfterReceives(w: Win, k: nat): Win {
    if k == 0 then w else AfterReceive(AfterReceives(w, k - 1))
  }

  lemma NextInTurn(k: nat)
    ensures Ring(k + 1) == if Ring(k) == MAX_SRQ_WR - 1 then 0 else Ring(k) + 1
  {
    RingSteps(0, k, 1);
  }

  /** From a full window on, the window follows the number of receives modulo its size. */
  lemma {:induction false} WindowFollows(idx: nat, k: nat)
    requires idx < MAX_SRQ_WR
    ensures AfterReceives(Win(idx, MAX_SRQ_WR), k) == Win(Ring(idx + k), MAX_SRQ_WR - Ring(k))
  {
    hide Ring;
    if k == 0 {
      RingSmall(idx);
      RingSmall(0);
    } else {
      WindowFollows(idx, k - 1);
      RingSteps(idx, k - 1, 1);
      NextInTurn(k - 1);
    }
  }

  /**
   A flush finds a slot to post, and stays inside the list, if and only if the number of receives is no
   multiple of 1024.
   */
  lemma FlushInRange(idx: nat, k: nat)
    requires idx < MAX_SRQ_WR
    ensures AfterReceives(Win(idx, MAX_SRQ_WR), k).len < MAX_SRQ_WR <==> k % MAX_SRQ_WR != 0
  {
    WindowFollows(idx, k);
  }
}
