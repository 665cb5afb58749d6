/**
 The choice of processes for the shuffle (src/ympi_shuffle.c): processes sit on boards of up to
 256 node numbers; the program picks a board size and a number of boards, and the processes that take part.
 */
module Topology {
  import opened Common

  // ---- The table of numbers without prime factors above 5 ----

  datatype Factor = Factor(n0: nat, n1: nat, n2: nat)

  datatype Factorized = Factorized(number: nat, factor: Factor)

  function Pow(base: nat, n: nat): (r: nat)
    ensures base >= 1 ==> r >= 1
  {
    if n == 0 then 1 else base * Pow(base, n - 1)
  }

  /** The number with the given exponents of 2, 3 and 5. */
  function Number(f: Factor): nat {
    Pow(2, f.n0) * Pow(3, f.n1) * Pow(5, f.n2)
  }

  ghost predicate TableOk(table: seq<Factorized>) {
    && table != [] && table[0].number == 1
    && (forall i, j :: 0 <= i < j < |table| ==> table[i].number < table[j].number)
    && (forall i :: 0 <= i < |table| ==> table[i].number == Number(table[i].factor))
  }

  /**
   `find_largest_no_larger_than`: the largest table entry that is at most `number`.  There is none exactly for
   a number below 1, where the source reads in front of the table.
   */
  method FindLargest(table: seq<Factorized>, number: int) returns (r: Option<Factorized>)
    requires TableOk(table) && number < table[|table| - 1].number
    ensures r.None? <==> number < 1
    ensures r.Some? ==> IsLargest(table, number, r.value.number) && r.value.number == Number(r.value.factor)
  {
    hide Number;
    var i := 0;
    while table[i].number <= number
      invariant 0 <= i < |table|
      invariant forall k :: 0 <= k < i ==> table[k].number <= number
      decreases |table| - i
    {
      i := i + 1;
    }
    if i == 0 {
      return None;
    }
    assert table[i - 1].number >= 1;
    r := Some(table[i - 1]);
  }

  ghost predicate IsLargest(table: seq<Factorized>, number: int, x: int) {
    && (exists f :: f in table && f.number == x)
    && 1 <= x <= number
    && (forall f :: f in table && f.number <= number ==> f.number <= x)
  }

  lemma FourTimesProduct(a: int, b: int, c: int)
    ensures (4 * a) * b * c == 4 * (a * b * c)
  {
    var ab := a * b;
    assert (4 * a) * b == 4 * ab;
    assert (4 * ab) * c == 4 * (ab * c);
  }

  /** Two more factors of 2 make four times the number. */
  lemma FourTimes(f: Factor)
    ensures Number(f.(n0 := f.n0 + 2)) == 4 * Number(f)
  {
    assert Pow(2, f.n0 + 2) == 2 * Pow(2, f.n0 + 1) == 4 * Pow(2, f.n0);
    hide Pow;
    FourTimesProduct(Pow(2, f.n0), Pow(3, f.n1), Pow(5, f.n2));
  }

  // ---- Boards ----

  /** The division of C, which rounds toward zero. */
  function BoardId(cpuid: int): int {
    if cpuid >= 0 then cpuid / 256 else -((-cpuid) / 256)
  }

  /** A board has 256 consecutive node numbers; below 0 the boards are mirrored, and board 0 has both halves. */
  lemma BoardInterval(cpuid: int)
    ensures cpuid >= 0 ==> 256 * BoardId(cpuid) <= cpuid < 256 * BoardId(cpuid) + 256
    ensures cpuid <= 0 ==> 256 * BoardId(cpuid) - 256 < cpuid <= 256 * BoardId(cpuid)
  {
  }

  /** The node numbers lie in one interval of 256 that begins at a multiple of 256. */
  ghost predicate SameInterval(a: int, b: int) {
    exists k :: InInterval(k, a) && InInterval(k, b)
  }

  ghost predicate InInterval(k: int, a: int) {
    256 * k <= a < 256 * k + 256
  }

  lemma BoardIsInterval(a: int, b: int)
    requires a >= 0 && b >= 0
    ensures BoardId(a) == BoardId(b) <==> SameInterval(a, b)
  {
    BoardInterval(a);
    BoardInterval(b);
    if BoardId(a) == BoardId(b) {
      assert InInterval(BoardId(a), a) && InInterval(BoardId(a), b);
    }
  }

  ghost predicate Ordered(s: seq<int>) {
    forall i, j :: 0 <= i < j < |s| ==> s[i] <= s[j]
  }

  /** Where a new board begins among the first `i` entries. */
  function Starts(s: seq<int>, i: nat): (r: seq<nat>)
    requires 0 < i <= |s|
    ensures r != [] && r[0] == 0 && r[|r| - 1] < i
  {
    if i == 1 then [0]
    else Starts(s, i - 1) + if BoardId(s[i - 1]) != BoardId(s[i - 2]) then [i - 1] else []
  }

  /** The beginnings of all boards, and the end of the last one. */
  function Bounds(s: seq<int>): (r: seq<nat>)
    requires s != []
    ensures |r| >= 2
  {
    Starts(s, |s|) + [|s|]
  }

  function NumBoards(s: seq<int>): (n: nat)
    requires s != []
    ensures n >= 1
  {
    |Bounds(s)| - 1
  }

  function Size(s: seq<int>, k: nat): int
    requires s != [] && k < NumBoards(s)
  {
    Bounds(s)[k + 1] as int - Bounds(s)[k]
  }

  function Sizes(s: seq<int>): (r: seq<int>)
    requires s != []
    ensures |r| == NumBoards(s) && forall k :: 0 <= k < |r| ==> r[k] == Size(s, k)
  {
    seq(NumBoards(s), k requires 0 <= k < NumBoards(s) => Size(s, k))
  }

  lemma {:induction false} StartsIncrease(s: seq<int>, i: nat)
    requires 0 < i <= |s|
    ensures forall a, b :: 0 <= a < b < |Starts(s, i)| ==> Starts(s, i)[a] < Starts(s, i)[b]
  {
    if i > 1 { StartsIncrease(s, i - 1); }
  }

  lemma {:induction false} StartsPrefix(s: seq<int>, i: nat, j: nat)
    requires 0 < i <= j <= |s|
    ensures Starts(s, i) <= Starts(s, j)
    decreases j - i
  {
    if i < j { StartsPrefix(s, i, j - 1); }
  }

  lemma BoundsIncrease(s: seq<int>, a: nat, b: nat)
    requires s != [] && a < b <= NumBoards(s)
    ensures Bounds(s)[a] < Bounds(s)[b] <= |s|
  {
    StartsIncrease(s, |s|);
    if b < NumBoards(s) - 1 {
      assert Starts(s, |s|)[b] < Starts(s, |s|)[NumBoards(s) - 1];
    }
    if a < NumBoards(s) - 1 {
      assert Starts(s, |s|)[a] < Starts(s, |s|)[NumBoards(s) - 1];
    }
  }

  /** An index strictly between two starts, or before the first boundary, begins no board. */
  lemma {:induction false} StartsAreChanges(s: seq<int>, i: nat, j: nat)
    requires 0 < j < i <= |s|
    ensures j in Starts(s, i) <==> BoardId(s[j]) != BoardId(s[j - 1])
  {
    if j < i - 1 {
      StartsAreChanges(s, i - 1, j);
    } else {
      StartsIncrease(s, i);
    }
  }

  lemma BoardIdMonotone(s: seq<int>, i: nat, j: nat)
    requires Ordered(s) && i <= j < |s|
    ensures BoardId(s[i]) <= BoardId(s[j])
  {
  }

  /** Between two bounds the board does not change. */
  lemma {:induction false} SameBoard(s: seq<int>, k: nat, j: nat)
    requires s != [] && k < NumBoards(s) && Bounds(s)[k] <= j < Bounds(s)[k + 1] <= |s|
    ensures BoardId(s[j]) == BoardId(s[Bounds(s)[k]])
  {
    hide BoardId;
    if j > Bounds(s)[k] {
      SameBoard(s, k, j - 1);
      StartsAreChanges(s, |s|, j);
      if j in Starts(s, |s|) {
        var m :| 0 <= m < |Starts(s, |s|)| && Starts(s, |s|)[m] == j;
        if m <= k {
          if m < k { BoundsIncrease(s, m, k); }
        } else if m > k + 1 {
          BoundsIncrease(s, k + 1, m);
        }
      }
    }
  }

  /** The run of entries is exactly the board: an entry has its board number if and only if it lies in the run. */
  lemma RunIsBoard(s: seq<int>, k: nat, j: nat)
    requires s != [] && Ordered(s) && k < NumBoards(s) && j < |s|
    ensures Bounds(s)[k] < Bounds(s)[k + 1] <= |s|
    ensures Bounds(s)[k] <= j < Bounds(s)[k + 1] <==> BoardId(s[j]) == BoardId(s[Bounds(s)[k]])
  {
    hide BoardId, Ordered;
    BoundsIncrease(s, k, k + 1);
    var begin, end := Bounds(s)[k], Bounds(s)[k + 1];
    if begin <= j < end {
      SameBoard(s, k, j);
    } else if j < begin {
      StartsAreChanges(s, |s|, begin);
      assert Starts(s, |s|)[k] == begin;
      BoardIdMonotone(s, j, begin - 1);
      BoardIdMonotone(s, begin - 1, begin);
    } else {
      assert Starts(s, |s|)[k + 1] == end;
      StartsAreChanges(s, |s|, end);
      BoardIdMonotone(s, begin, end - 1);
      BoardIdMonotone(s, end - 1, end);
      BoardIdMonotone(s, end, j);
    }
  }

  /** For node numbers from 0 on: an entry lies in the run exactly if it is on the board of the run's first entry. */
  lemma RunIsInterval(s: seq<int>, k: nat, j: nat)
    requires s != [] && Ordered(s) && s[0] >= 0 && k < NumBoards(s) && j < |s|
    ensures Bounds(s)[k] < Bounds(s)[k + 1] <= |s|
    ensures Bounds(s)[k] <= j < Bounds(s)[k + 1] <==> SameInterval(s[j], s[Bounds(s)[k]])
  {
    hide BoardId, Bounds, SameInterval;
    RunIsBoard(s, k, j);
    assert forall i :: 0 < i < |s| ==> s[0] <= s[i];
    BoardIsInterval(s[j], s[Bounds(s)[k]]);
  }

  lemma StartsFirst(s: seq<int>)
    requires s != []
    ensures Starts(s, 1) == [0]
  {
  }

  lemma StartsNext(s: seq<int>, i: nat)
    requires 1 < i <= |s|
    ensures Starts(s, i) == Starts(s, i - 1) + if BoardId(s[i - 1]) != BoardId(s[i - 2]) then [i - 1] else []
  {
  }

  /**
   The first scan: it writes the size of every board.  It has no answer exactly if there are more boards than
   the array has room for, where the source writes behind the array.
   */
  method ScanBoards(cpuids: seq<int>, sizes: array<int>) returns (boards: Option<nat>)
    requires cpuids != []
    modifies sizes
    ensures boards.None? <==> NumBoards(cpuids) > sizes.Length
    ensures boards.Some? ==> boards.value == NumBoards(cpuids) && sizes[..boards.value] == Sizes(cpuids)
  {
    hide BoardId;
    hide Starts, Sizes;
    var numBoard := 0;
    var begin, lastBoardId := 0, BoardId(cpuids[0]);
    StartsFirst(cpuids);
    StartsPrefix(cpuids, 1, |cpuids|);
    for i := 1 to |cpuids|
      invariant Starts(cpuids, i) <= Starts(cpuids, |cpuids|)
      invariant numBoard == |Starts(cpuids, i)| - 1 && begin == Starts(cpuids, i)[numBoard]
      invariant numBoard <= sizes.Length
      invariant lastBoardId == BoardId(cpuids[i - 1])
      invariant forall k :: 0 <= k < numBoard ==> sizes[k] == Size(cpuids, k)
    {
      StartsPrefix(cpuids, i + 1, |cpuids|);
      StartsNext(cpuids, i + 1);
      var boardId := BoardId(cpuids[i]);
      if boardId != lastBoardId {
        if numBoard == sizes.Length {
          return None;
        }
        sizes[numBoard] := i - begin;
        begin := i;
        lastBoardId := boardId;
        numBoard := numBoard + 1;
      }
    }
    if numBoard == sizes.Length {
      return None;
    }
    sizes[numBoard] := |cpuids| - begin;
    boards := Some(numBoard + 1);
  }

  // ---- Sorting, as the library function does it ----

  function Insert(x: int, s: seq<int>): (r: seq<int>)
    ensures multiset(r) == multiset(s) + multiset{x} && |r| == |s| + 1
  {
    if s == [] || x <= s[0] then [x] + s
    else
      assert s == [s[0]] + s[1..];
      [s[0]] + Insert(x, s[1..])
  }

  function Sorted(s: seq<int>): (r: seq<int>)
    ensures multiset(r) == multiset(s) && |r| == |s|
  {
    if s == [] then []
    else
      assert s == [s[0]] + s[1..];
      Insert(s[0], Sorted(s[1..]))
  }

  lemma {:induction false} InsertOrders(x: int, s: seq<int>)
    requires Ordered(s)
    ensures Ordered(Insert(x, s))
    ensures Insert(x, s)[0] == if s == [] || x <= s[0] then x else s[0]
  {
    if s != [] && x > s[0] {
      InsertOrders(x, s[1..]);
      var rest := Insert(x, s[1..]);
      forall j | 0 <= j < |rest| ensures s[0] <= rest[j] {
        assert rest[0] <= rest[j];
      }
    }
  }

  lemma {:induction false} SortedOrders(s: seq<int>)
    ensures Ordered(Sorted(s))
  {
    if s != [] {
      SortedOrders(s[1..]);
      InsertOrders(s[0], Sorted(s[1..]));
    }
  }

  // ---- The board size ----

  ghost function Count(s: seq<int>, p: int -> bool): (n: nat)
    ensures n <= |s|
  {
    if s == [] then 0
    else Count(s[..|s| - 1], p) + if p(s[|s| - 1]) then 1 else 0
  }

  lemma {:induction false} CountConcat(s: seq<int>, t: seq<int>, p: int -> bool)
    ensures Count(s + t, p) == Count(s, p) + Count(t, p)
  {
    if t == [] {
      assert s + t == s;
    } else {
      assert (s + t)[..|s + t| - 1] == s + t[..|t| - 1];
      CountConcat(s, t[..|t| - 1], p);
    }
  }

  /** A count does not depend on the order. */
  lemma {:induction false} CountOfPermutation(s: seq<int>, t: seq<int>, p: int -> bool)
    requires multiset(s) == multiset(t)
    ensures Count(s, p) == Count(t, p)
    decreases |s|
  {
    assert |multiset(s)| == |multiset(t)|;
    if s != [] {
      var last := |s| - 1;
      var x := s[last];
      assert s == s[..last] + [x];
      assert x in multiset(t);
      var i :| 0 <= i < |t| && t[i] == x;
      assert t == t[..i] + [x] + t[i + 1..];
      var rest := t[..i] + t[i + 1..];
      assert multiset(rest) == multiset(t) - multiset{x};
      CountOfPermutation(s[..last], rest, p);
      CountConcat(t[..i], t[i + 1..], p);
      CountConcat(t[..i] + [x], t[i + 1..], p);
      CountConcat(t[..i], [x], p);
      CountConcat(s[..last], [x], p);
    }
  }

  /** The number of boards of at least the given size. */
  ghost function AtLeast(sizes: seq<int>, b: int): (n: nat)
    ensures n <= |sizes|
  {
    Count(sizes, size => size >= b)
  }

  /** In a sorted sequence the entries of at least `b` are the last ones. */
  lemma {:induction false} AtLeastIsTail(s: seq<int>, b: int)
    requires Ordered(s)
    ensures forall i :: 0 <= i < |s| ==> (s[i] >= b <==> i >= |s| - AtLeast(s, b))
  {
    if s != [] {
      AtLeastIsTail(s[..|s| - 1], b);
      assert AtLeast(s, b) == AtLeast(s[..|s| - 1], b) + if s[|s| - 1] >= b then 1 else 0;
    }
  }

  /** The number of processes when boards of size `b` are used: as many from each board that has that many. */
  ghost function Processes(sizes: seq<int>, b: int): int {
    b * AtLeast(sizes, b)
  }

  lemma MulMonotone(a: int, b: int, n: nat)
    requires a <= b
    ensures a * n <= b * n
  {
  }

  /** No board size makes use of more processes than the best suffix of the sorted sizes. */
  lemma SuffixIsBest(sizes: seq<int>, max: int, b: int)
    requires Ordered(sizes) && max >= 0
    requires forall i :: 0 <= i < |sizes| ==> sizes[i] * (|sizes| - i) <= max
    ensures Processes(sizes, b) <= max
  {
    var c := AtLeast(sizes, b);
    if c > 0 {
      AtLeastIsTail(sizes, b);
      var i := |sizes| - c;
      assert sizes[i] >= b && sizes[i] * (|sizes| - i) <= max;
      MulMonotone(b, sizes[i], c);
    }
  }

  lemma SmallerIsWorse(sizes: seq<int>, at: nat, b: int)
    requires Ordered(sizes) && at < |sizes| && sizes[at] >= 1 && b < sizes[at]
    requires forall k :: 0 <= k < at ==> sizes[k] * (|sizes| - k) < sizes[at] * (|sizes| - at)
    ensures Processes(sizes, b) < sizes[at] * (|sizes| - at)
  {
    AtLeastIsTail(sizes, b);
    var c := AtLeast(sizes, b);
    assert at >= |sizes| - c;
    var i := |sizes| - c;
    if i < at {
      assert sizes[i] >= b;
      MulMonotone(b, sizes[i], c);
    } else {
      MulMonotone(b + 1, sizes[at], c);
      assert b * c < (b + 1) * c;
    }
  }

  /** The maximisation: the chosen size makes use of the most processes of all sizes, and is the smallest that does. */
  method ChooseSize(sizes: seq<int>) returns (boardSize: int)
    requires sizes != [] && Ordered(sizes) && sizes[0] >= 1
    ensures boardSize in sizes
    ensures forall b :: Processes(sizes, b) <= Processes(sizes, boardSize)
    ensures forall b :: b < boardSize ==> Processes(sizes, b) < Processes(sizes, boardSize)
  {
    hide Processes;
    boardSize := 0;
    var maxNp := 0;
    ghost var at := 0;
    for i := 0 to |sizes|
      invariant i > 0 ==> 0 <= at < i && boardSize == sizes[at] && maxNp == sizes[at] * (|sizes| - at)
      invariant maxNp >= 0 && (i == 0 ==> maxNp == 0)
      invariant forall k :: 0 <= k < i ==> sizes[k] * (|sizes| - k) <= maxNp
      invariant i > 0 ==> forall k :: 0 <= k < at ==> sizes[k] * (|sizes| - k) < maxNp
    {
      if sizes[i] * (|sizes| - i) > maxNp {
        maxNp := sizes[i] * (|sizes| - i);
        boardSize := sizes[i];
        at := i;
      } else {
        FirstIsPositive(sizes, i);
      }
    }
    forall b ensures Processes(sizes, b) <= maxNp { SuffixIsBest(sizes, maxNp, b); }
    SuffixReaches(sizes, at);
    forall b | b < boardSize ensures Processes(sizes, b) < maxNp { SmallerIsWorse(sizes, at, b); }
  }

  lemma FirstIsPositive(sizes: seq<int>, i: nat)
    requires Ordered(sizes) && i < |sizes| && sizes[0] >= 1
    ensures sizes[i] * (|sizes| - i) > 0
  {
    assert sizes[0] <= sizes[i];
    MulMonotone(1, sizes[i], |sizes| - i);
  }

  lemma SuffixReaches(sizes: seq<int>, at: nat)
    requires Ordered(sizes) && at < |sizes| && sizes[at] >= 1
    ensures sizes[at] * (|sizes| - at) <= Processes(sizes, sizes[at])
  {
    AtLeastIsTail(sizes, sizes[at]);
    var c := AtLeast(sizes, sizes[at]);
    assert at >= |sizes| - c;
    MulMonotone(|sizes| - at, c, sizes[at]);
  }

  /** The counting loop over the sorted sizes. */
  method CountBoards(sizes: seq<int>, boardSize: int) returns (count: nat)
    ensures count == AtLeast(sizes, boardSize)
  {
    count := 0;
    for i := 0 to |sizes|
      invariant count == AtLeast(sizes[..i], boardSize)
    {
      assert sizes[..i + 1][..i] == sizes[..i];
      if sizes[i] >= boardSize {
        count := count + 1;
      }
    }
    assert sizes[..|sizes|] == sizes;
  }

  // ---- The selection ----

  /** The boards of sufficient size among the first `k`, but no more than `target`. */
  ghost function Picked(s: seq<int>, b: int, target: nat, k: nat): (r: nat)
    requires s != [] && k <= NumBoards(s)
    ensures r <= target
  {
    var n := AtLeast(Sizes(s)[..k], b);
    if n < target then n else target
  }

  /** Board `k` is one of the first `target` boards of sufficient size. */
  ghost predicate Chosen(s: seq<int>, b: int, target: nat, k: nat)
    requires s != [] && k < NumBoards(s)
  {
    Size(s, k) >= b && Picked(s, b, target, k) < target
  }

  lemma PickedNext(s: seq<int>, b: int, target: nat, k: nat)
    requires s != [] && k < NumBoards(s)
    ensures Picked(s, b, target, k + 1) == Picked(s, b, target, k) + if Chosen(s, b, target, k) then 1 else 0
  {
    hide Bounds, Sizes;
    var sizes := Sizes(s);
    assert sizes[..k + 1][..k] == sizes[..k];
  }

  /** The first `b` entries of a board. */
  ghost predicate InHead(s: seq<int>, b: int, k: nat, j: int)
    requires s != [] && k < NumBoards(s)
  {
    Bounds(s)[k] <= j < Bounds(s)[k] + b
  }

  /**
   A node takes part if it is among the first `b` entries of one of the first `limit` boards, and that board is
   chosen.
   */
  ghost predicate TakesPartBefore(s: seq<int>, b: int, target: nat, limit: nat, id: int)
    requires s != [] && limit <= NumBoards(s)
  {
    exists k: nat, j: nat :: k < limit && Chosen(s, b, target, k) && j < |s| && InHead(s, b, k, j) && s[j] == id
  }

  ghost predicate TakesPart(s: seq<int>, b: int, target: nat, id: int)
    requires s != []
  {
    TakesPartBefore(s, b, target, NumBoards(s), id)
  }

  lemma TakesPartNext(s: seq<int>, b: int, target: nat, k: nat, id: int)
    requires s != [] && k < NumBoards(s)
    ensures TakesPartBefore(s, b, target, k + 1, id) <==>
              TakesPartBefore(s, b, target, k, id)
              || (Chosen(s, b, target, k) && exists j: nat :: j < |s| && InHead(s, b, k, j) && s[j] == id)
  {
    hide InHead, Chosen, Bounds;
  }

  /** Whether a node is among `b` entries from `begin`. */
  method Occurs(s: seq<int>, begin: nat, b: int, id: int) returns (found: bool)
    requires begin + b <= |s|
    ensures found <==> exists j :: begin <= j < begin + b && s[j] == id
  {
    found := false;
    var j := begin;
    while j < begin + b
      invariant begin <= j && (j <= begin + b || j == begin)
      invariant found <==> exists i :: begin <= i < j && s[i] == id
    {
      if s[j] == id {
        found := true;
      }
      j := j + 1;
    }
  }

  lemma HeadIsThere(s: seq<int>, b: int, k: nat, id: int)
    requires s != [] && k < NumBoards(s) && Size(s, k) >= b
    ensures Bounds(s)[k] + b <= |s|
    ensures (exists j :: Bounds(s)[k] <= j < Bounds(s)[k] + b && s[j] == id) <==>
            (exists j: nat :: j < |s| && InHead(s, b, k, j) && s[j] == id)
  {
    BoundsIncrease(s, k, k + 1);
    if j :| Bounds(s)[k] <= j < Bounds(s)[k] + b && s[j] == id {
      assert InHead(s, b, k, j);
    }
  }

  /** The second scan; it stops at the target, and looks at the last board only when it did not get there. */
  method SelectBoards(cpuids: seq<int>, boardSize: int, target: nat, myCpuid: int)
    returns (selected: bool, currentNumBoard: nat)
    requires cpuids != [] && target >= 1
    ensures currentNumBoard == Picked(cpuids, boardSize, target, NumBoards(cpuids))
    ensures selected <==> TakesPart(cpuids, boardSize, target, myCpuid)
  {
    hide BoardId, Starts, Sizes, TakesPartBefore, Picked, Chosen;
    selected, currentNumBoard := false, 0;
    var begin, lastBoardId := 0, BoardId(cpuids[0]);
    ghost var m := 0;
    StartsFirst(cpuids);
    StartsPrefix(cpuids, 1, |cpuids|);
    NothingYet(cpuids, boardSize, target, myCpuid);
    for i := 1 to |cpuids|
      invariant Starts(cpuids, i) <= Starts(cpuids, |cpuids|)
      invariant m == |Starts(cpuids, i)| - 1 && begin == Starts(cpuids, i)[m] && m < NumBoards(cpuids)
      invariant lastBoardId == BoardId(cpuids[i - 1])
      invariant currentNumBoard == Picked(cpuids, boardSize, target, m) < target
      invariant selected <==> TakesPartBefore(cpuids, boardSize, target, m, myCpuid)
    {
      StartsPrefix(cpuids, i + 1, |cpuids|);
      StartsNext(cpuids, i + 1);
      var boardId := BoardId(cpuids[i]);
      if boardId != lastBoardId {
        var currentBoardSize := i - begin;
        assert currentBoardSize == Size(cpuids, m);
        PickedNext(cpuids, boardSize, target, m);
        TakesPartNext(cpuids, boardSize, target, m, myCpuid);
        ChosenMeans(cpuids, boardSize, target, m);
        if currentBoardSize >= boardSize {
          HeadIsThere(cpuids, boardSize, m, myCpuid);
          var found := Occurs(cpuids, begin, boardSize, myCpuid);
          if found {
            selected := true;
          }
          currentNumBoard := currentNumBoard + 1;
          if currentNumBoard == target {
            NothingAfter(cpuids, boardSize, target, m + 1, myCpuid);
            break;
          }
        }
        begin := i;
        lastBoardId := boardId;
        m := m + 1;
      }
    }
    if currentNumBoard < target {
      var currentBoardSize := |cpuids| - begin;
      assert currentBoardSize == Size(cpuids, m);
      PickedNext(cpuids, boardSize, target, m);
      TakesPartNext(cpuids, boardSize, target, m, myCpuid);
      ChosenMeans(cpuids, boardSize, target, m);
      if currentBoardSize >= boardSize {
        HeadIsThere(cpuids, boardSize, m, myCpuid);
        var found := Occurs(cpuids, begin, boardSize, myCpuid);
        if found {
          selected := true;
        }
        currentNumBoard := currentNumBoard + 1;
      }
    }
  }

  lemma NothingYet(s: seq<int>, b: int, target: nat, id: int)
    requires s != []
    ensures Picked(s, b, target, 0) == 0 && !TakesPartBefore(s, b, target, 0, id)
  {
  }

  lemma ChosenMeans(s: seq<int>, b: int, target: nat, k: nat)
    requires s != [] && k < NumBoards(s)
    ensures Chosen(s, b, target, k) <==> Size(s, k) >= b && Picked(s, b, target, k) < target
  {
  }

  /** Once the target is reached nothing more is chosen. */
  lemma {:induction false} NothingAfter(s: seq<int>, b: int, target: nat, k: nat, id: int)
    requires s != [] && k <= NumBoards(s) && Picked(s, b, target, k) == target
    ensures Picked(s, b, target, NumBoards(s)) == target
    ensures TakesPart(s, b, target, id) <==> TakesPartBefore(s, b, target, k, id)
    decreases NumBoards(s) - k
  {
    hide Bounds, Sizes, TakesPartBefore, Picked, Chosen;
    if k < NumBoards(s) {
      PickedNext(s, b, target, k);
      TakesPartNext(s, b, target, k, id);
      ChosenMeans(s, b, target, k);
      NothingAfter(s, b, target, k + 1, id);
    }
  }

  // ---- The whole choice ----

  const MAX_NPROCS := 4 * 40 * 1024
  const MAX_NUM_BOARD := 256

  datatype Topology = Topology(
    cpuid: int,
    selected: bool,
    numBoard: nat,
    numBoardFactor: Factor,
    boardSize: nat,
    boardSizeFactor: Factor)

  /** The smallest of the sizes that make use of the most processes. */
  ghost predicate Best(sizes: seq<int>, b: int) {
    && b in sizes
    && (forall c :: Processes(sizes, c) <= Processes(sizes, b))
    && (forall c :: c < b ==> Processes(sizes, c) < Processes(sizes, b))
  }

  /** The rank has node number `gathered[rank]`; all ranks sort the same list. */
  ghost predicate IsTopology(gathered: seq<int>, rank: nat, table: seq<Factorized>, t: Topology)
    requires rank < |gathered|
  {
    var s := Sorted(gathered);
    && IsShape(Sizes(s), table, Factorized(t.numBoard, t.numBoardFactor), Factorized(t.boardSize, t.boardSizeFactor))
    && t.cpuid == gathered[rank]
    && (t.selected <==> TakesPart(s, t.boardSize, t.numBoard, gathered[rank]))
  }

  /** Boards of size `c` make use of more processes than boards of 1, 2 or 3. */
  ghost predicate Pays(sizes: seq<int>, c: int) {
    forall b :: 1 <= b <= 3 ==> Processes(sizes, b) < Processes(sizes, c)
  }

  /** Some board size of at least 4 pays: what the look-up of a quarter of the best size needs. */
  ghost predicate FourPays(sizes: seq<int>) {
    exists c :: c >= 4 && Pays(sizes, c)
  }

  lemma BestIsFourIff(sizes: seq<int>, best: int)
    requires Best(sizes, best) && best >= 1
    ensures best >= 4 <==> FourPays(sizes)
  {
    hide Processes;
    if best >= 4 {
      assert Pays(sizes, best);
    } else {
      forall c ensures !Pays(sizes, c) {
        assert Processes(sizes, c) <= Processes(sizes, best);
      }
    }
  }

  lemma SizesPositive(s: seq<int>)
    requires s != []
    ensures forall k :: 0 <= k < NumBoards(s) ==> 1 <= Sizes(s)[k] <= |s|
  {
    hide Bounds, Starts;
    forall k | 0 <= k < NumBoards(s) ensures 1 <= Sizes(s)[k] <= |s| {
      BoundsIncrease(s, k, k + 1);
    }
  }

  /** A permutation makes use of as many processes. */
  lemma BestOfPermutation(s: seq<int>, t: seq<int>, b: int)
    requires multiset(s) == multiset(t) && Best(s, b)
    ensures Best(t, b)
  {
    forall c ensures Processes(s, c) == Processes(t, c) { CountOfPermutation(s, t, size => size >= c); }
    assert b in multiset(s);
  }

  lemma AtLeastPositive(sizes: seq<int>, b: int, c: int)
    requires c in sizes && c >= b
    ensures AtLeast(sizes, b) >= 1
  {
    var i :| 0 <= i < |sizes| && sizes[i] == c;
    assert sizes == sizes[..i] + [c] + sizes[i + 1..];
    var p := size => size >= b;
    CountConcat(sizes[..i] + [c], sizes[i + 1..], p);
    CountConcat(sizes[..i], [c], p);
  }

  lemma BestFound(s: seq<int>, sorted: seq<int>, best: int)
    requires s != [] && multiset(sorted) == multiset(Sizes(s)) && best in sorted
    requires forall b :: Processes(sorted, b) <= Processes(sorted, best)
    requires forall b :: b < best ==> Processes(sorted, b) < Processes(sorted, best)
    ensures Best(Sizes(s), best) && best <= |s|
  {
    hide Processes, Sizes;
    BestOfPermutation(sorted, Sizes(s), best);
    SizesPositive(s);
  }

  /** The second scan finds the boards that the first one promised. */
  lemma AllPicked(s: seq<int>, b: int, target: nat)
    requires s != []
    ensures Picked(s, b, target, NumBoards(s)) == target <==> target <= AtLeast(Sizes(s), b)
  {
    assert Sizes(s)[..NumBoards(s)] == Sizes(s);
  }

  /** What the ranks must agree on: the number of boards and the board size, with their factors. */
  ghost predicate IsShape(sizes: seq<int>, table: seq<Factorized>, boards: Factorized, size: Factorized) {
    && (exists best :: Best(sizes, best) && IsLargest(table, best / 4, size.number / 4))
    && size.number % 4 == 0 && 4 <= size.number && 1 <= boards.number
    && IsLargest(table, AtLeast(sizes, size.number), boards.number)
    && size.number == Number(size.factor) && boards.number == Number(boards.factor)
  }

  /** How the choice of a shape ends: outside the array of sizes, in front of the table, or with a shape. */
  datatype Shape = TooManyBoards | TooSmall | Shape(boards: Factorized, size: Factorized)

  /** From the first scan to the factored board size and number of boards. */
  method ChooseShape(cpuids: seq<int>, table: seq<Factorized>) returns (r: Shape)
    requires 0 < |cpuids| <= MAX_NPROCS
    requires TableOk(table) && table[|table| - 1].number == MAX_NPROCS
    ensures r.TooManyBoards? <==> NumBoards(cpuids) > MAX_NUM_BOARD
    ensures r.TooSmall? <==> NumBoards(cpuids) <= MAX_NUM_BOARD && !FourPays(Sizes(cpuids))
    ensures r.Shape? ==> IsShape(Sizes(cpuids), table, r.boards, r.size)
  {
    hide Number, Starts, Bounds, Best, AtLeast, TableOk, Sorted, Processes, Sizes, FourPays, IsLargest;
    var sizeofBoard := new int[MAX_NUM_BOARD](_ => 0);
    var numBoard := ScanBoards(cpuids, sizeofBoard);
    if numBoard.None? {
      return TooManyBoards;
    }
    var sorted := Sorted(sizeofBoard[..numBoard.value]);
    SortedSizes(cpuids, sorted);
    var best := ChooseSize(sorted);
    BestFound(cpuids, sorted, best);
    BestIsFourIff(Sizes(cpuids), best);
    var quarter := FindLargest(table, best / 4);
    if quarter.None? {
      return TooSmall;
    }
    var q := quarter.value;
    LargestIsBelow(table, best / 4, q.number);
    FourTimes(q.factor);
    var size := Factorized(4 * q.number, q.factor.(n0 := q.factor.n0 + 2));
    var count := CountBoards(sorted, size.number);
    AtLeastOfSorted(sorted, Sizes(cpuids), size.number);
    AtLeastPositive(sorted, size.number, best);
    var boards := FindLargest(table, count);
    LargestIsBelow(table, count, boards.value.number);
    r := Shape(boards.value, size);
  }

  /** The board size is the largest size not above the best one that is four times an entry of the table. */
  lemma SizeIsRounded(sizes: seq<int>, table: seq<Factorized>, boards: Factorized, size: Factorized, best: int)
    requires IsShape(sizes, table, boards, size) && Best(sizes, best)
    ensures size.number <= best && exists f :: f in table && 4 * f.number == size.number
    ensures forall f :: f in table && 4 * f.number <= best ==> 4 * f.number <= size.number
  {
    hide Processes;
    var b :| Best(sizes, b) && IsLargest(table, b / 4, size.number / 4);
    assert b == best;
    forall f | f in table && 4 * f.number <= best ensures 4 * f.number <= size.number {
      assert f.number <= best / 4;
    }
  }

  lemma AtLeastOfSorted(sorted: seq<int>, sizes: seq<int>, b: int)
    requires multiset(sorted) == multiset(sizes)
    ensures AtLeast(sorted, b) == AtLeast(sizes, b)
  {
    CountOfPermutation(sorted, sizes, size => size >= b);
  }

  lemma SortedSizes(s: seq<int>, sorted: seq<int>)
    requires s != [] && sorted == Sorted(Sizes(s))
    ensures Ordered(sorted) && sorted != [] && sorted[0] >= 1
  {
    hide Sizes;
    SortedOrders(Sizes(s));
    SizesPositive(s);
    assert sorted[0] in multiset(Sizes(s));
  }

  /** How the choice of the processes ends for a rank. */
  datatype Choice = OutsideArray | OutsideTable | ErrorExit | Chose(topology: Topology)

  /**
   From the gathered node numbers to the selection.  The error exit is never taken; the source leaves its array
   exactly with too many boards, and its table exactly if no board size of at least 4 pays.
   */
  method GetTopology(gathered: seq<int>, rank: nat, table: seq<Factorized>) returns (r: Choice)
    requires rank < |gathered| <= MAX_NPROCS
    requires TableOk(table) && table[|table| - 1].number == MAX_NPROCS
    ensures r.OutsideArray? <==> NumBoards(Sorted(gathered)) > MAX_NUM_BOARD
    ensures r.OutsideTable? <==>
              NumBoards(Sorted(gathered)) <= MAX_NUM_BOARD && !FourPays(Sizes(Sorted(gathered)))
    ensures !r.ErrorExit? && (r.Chose? ==> IsTopology(gathered, rank, table, r.topology))
  {
    hide Number, Starts, Bounds, Best, TakesPart, Picked, AtLeast, TableOk, Sorted, IsLargest, FourPays;
    var myCpuid := gathered[rank];
    var cpuids := Sorted(gathered);
    var shape := ChooseShape(cpuids, table);
    match shape {
      case TooManyBoards => r := OutsideArray;
      case TooSmall => r := OutsideTable;
      case Shape(boards, size) =>
        var selected, currentNumBoard := SelectBoards(cpuids, size.number, boards.number, myCpuid);
        AllPicked(cpuids, size.number, boards.number);
        LargestIsBelow(table, AtLeast(Sizes(cpuids), size.number), boards.number);
        if currentNumBoard != boards.number {
          return ErrorExit;
        }
        r := Chose(Topology(myCpuid, selected, boards.number, boards.factor, size.number, size.factor));
    }
  }

  lemma LargestIsBelow(table: seq<Factorized>, number: int, x: int)
    requires IsLargest(table, number, x)
    ensures 1 <= x <= number
  {
  }

  /** All ranks come to the same board size and number of boards. */
  lemma RanksAgree(gathered: seq<int>, p: nat, q: nat, table: seq<Factorized>, t: Topology, u: Topology)
    requires p < |gathered| && q < |gathered| && IsTopology(gathered, p, table, t) && IsTopology(gathered, q, table, u)
    ensures t.boardSize == u.boardSize && t.numBoard == u.numBoard
  {
    hide Number, Bounds, TakesPart, Picked, AtLeast, Processes, Sizes;
  }

  // ---- How many processes are selected ----

  /** The number of ranks whose node takes part. */
  ghost function Selected(gathered: seq<int>, s: seq<int>, b: int, target: nat): (n: nat)
    requires s != []
    ensures n <= |gathered|
  {
    Count(gathered, id => TakesPart(s, b, target, id))
  }

  /** The selected entries of the sorted list before index `hi`. */
  ghost function Taken(s: seq<int>, b: int, target: nat, hi: nat): (n: nat)
    requires s != [] && hi <= |s|
  {
    Selected(s[..hi], s, b, target)
  }

  /** A stretch of entries counts fully if all take part, and not at all if and only if none does. */
  lemma {:induction false} TakenStretch(s: seq<int>, b: int, target: nat, lo: nat, hi: nat)
    requires s != [] && lo <= hi <= |s|
    ensures Taken(s, b, target, lo) <= Taken(s, b, target, hi)
    ensures (forall j :: lo <= j < hi ==> TakesPart(s, b, target, s[j])) ==>
              Taken(s, b, target, hi) == Taken(s, b, target, lo) + hi - lo
    ensures (forall j :: lo <= j < hi ==> !TakesPart(s, b, target, s[j])) <==>
              Taken(s, b, target, hi) == Taken(s, b, target, lo)
    decreases hi
  {
    hide TakesPart;
    if lo < hi {
      assert s[..hi][..hi - 1] == s[..hi - 1];
      TakenStretch(s, b, target, lo, hi - 1);
    }
  }

  /** The end of the first `b` entries of a board falls between two entries of one node. */
  ghost predicate Splits(s: seq<int>, b: int, k: nat)
    requires s != [] && k < NumBoards(s)
  {
    var end := Bounds(s)[k] + b;
    0 < end < Bounds(s)[k + 1] && end < |s| && s[end] == s[end - 1]
  }

  /** On a board, a node takes part exactly if the board is chosen and the node is in its head. */
  lemma OnBoard(s: seq<int>, b: int, target: nat, k: nat, j: nat)
    requires s != [] && Ordered(s) && k < NumBoards(s) && b >= 1
    requires Bounds(s)[k] <= j < Bounds(s)[k + 1] && j < |s|
    ensures TakesPart(s, b, target, s[j]) <==>
              Chosen(s, b, target, k) && exists i: nat :: i < |s| && InHead(s, b, k, i) && s[i] == s[j]
  {
    hide BoardId, Ordered, Bounds, Sizes, Picked;
    if i: nat, m: nat :| m < NumBoards(s) && Chosen(s, b, target, m) && i < |s| && InHead(s, b, m, i) && s[i] == s[j] {
      ChosenMeans(s, b, target, m);
      RunIsBoard(s, k, j);
      RunIsBoard(s, k, i);
      if m < k {
        if m + 1 < k { BoundsIncrease(s, m + 1, k); }
      } else if m > k {
        if k + 1 < m { BoundsIncrease(s, k + 1, m); }
      }
    }
  }

  /** The head of a chosen board takes part, and its rest does not unless the head's end splits a node. */
  lemma ChosenBoardCounts(s: seq<int>, b: int, target: nat, k: nat)
    requires s != [] && Ordered(s) && k < NumBoards(s) && b >= 1 && Chosen(s, b, target, k)
    requires Bounds(s)[k] < Bounds(s)[k + 1] <= |s| && Bounds(s)[k] + b <= Bounds(s)[k + 1]
    ensures var before, after := Taken(s, b, target, Bounds(s)[k]), Taken(s, b, target, Bounds(s)[k + 1]);
            after >= before + b && (after == before + b <==> !Splits(s, b, k))
  {
    hide BoardId, Bounds, Sizes, Picked, Chosen, TakesPart, Taken;
    var begin, end := Bounds(s)[k], Bounds(s)[k + 1];
    forall j | begin <= j < begin + b ensures TakesPart(s, b, target, s[j]) {
      OnBoard(s, b, target, k, j);
      assert InHead(s, b, k, j);
    }
    TakenStretch(s, b, target, begin, begin + b);
    TakenStretch(s, b, target, begin + b, end);
    if Splits(s, b, k) {
      OnBoard(s, b, target, k, begin + b);
      assert InHead(s, b, k, begin + b - 1);
    } else {
      forall j | begin + b <= j < end ensures !TakesPart(s, b, target, s[j]) {
        OnBoard(s, b, target, k, j);
        forall i: nat | i < |s| && InHead(s, b, k, i) ensures s[i] != s[j] {
          ApartWhereItChanges(s, i, begin + b, j);
        }
      }
    }
  }

  lemma ApartWhereItChanges(s: seq<int>, i: nat, m: nat, j: nat)
    requires Ordered(s) && i < m <= j < |s| && s[m - 1] != s[m]
    ensures s[i] != s[j]
  {
    assert s[i] <= s[m - 1] <= s[m] <= s[j];
  }

  lemma OtherBoardCounts(s: seq<int>, b: int, target: nat, k: nat)
    requires s != [] && Ordered(s) && k < NumBoards(s) && b >= 1 && !Chosen(s, b, target, k)
    requires Bounds(s)[k] < Bounds(s)[k + 1] <= |s|
    ensures Taken(s, b, target, Bounds(s)[k + 1]) == Taken(s, b, target, Bounds(s)[k])
  {
    hide Bounds, Chosen, TakesPart, Taken, Ordered;
    forall j | Bounds(s)[k] <= j < Bounds(s)[k + 1] ensures !TakesPart(s, b, target, s[j]) {
      OnBoard(s, b, target, k, j);
    }
    TakenStretch(s, b, target, Bounds(s)[k], Bounds(s)[k + 1]);
  }

  ghost predicate NoneSplits(s: seq<int>, b: int, target: nat, limit: nat)
    requires s != [] && limit <= NumBoards(s)
  {
    forall k: nat :: k < limit && Chosen(s, b, target, k) ==> !Splits(s, b, k)
  }

  lemma {:induction false} BoardsCount(s: seq<int>, b: int, target: nat, k: nat)
    requires s != [] && Ordered(s) && k <= NumBoards(s) && b >= 1
    ensures Bounds(s)[k] <= |s|
    ensures Taken(s, b, target, Bounds(s)[k]) >= b * Picked(s, b, target, k)
    ensures Taken(s, b, target, Bounds(s)[k]) == b * Picked(s, b, target, k) <==> NoneSplits(s, b, target, k)
  {
    hide Bounds, Sizes, Picked, Chosen, TakesPart, Taken, Ordered, Splits;
    if k == 0 {
      StartOfBoards(s, b, target);
    } else {
      var p := k - 1;
      BoundsIncrease(s, p, k);
      BoardsCount(s, b, target, p);
      PickedNext(s, b, target, p);
      ChosenMeans(s, b, target, p);
      if Chosen(s, b, target, p) {
        ChosenBoardCounts(s, b, target, p);
        var n := Picked(s, b, target, p);
        assert b * (n + 1) == b * n + b;
      } else {
        OtherBoardCounts(s, b, target, p);
      }
    }
  }

  lemma StartOfBoards(s: seq<int>, b: int, target: nat)
    requires s != []
    ensures Bounds(s)[0] == 0 && Picked(s, b, target, 0) == 0 && Taken(s, b, target, 0) == 0
  {
  }

  /**
   At least `target * b` ranks are selected, and exactly that many if and only if no chosen
   board's share ends in the middle of a node.
   */
  lemma SelectionCount(gathered: seq<int>, s: seq<int>, b: int, target: nat)
    requires multiset(s) == multiset(gathered) && s != [] && Ordered(s) && b >= 1 && target <= AtLeast(Sizes(s), b)
    ensures Selected(gathered, s, b, target) >= target * b
    ensures Selected(gathered, s, b, target) == target * b <==> NoneSplits(s, b, target, NumBoards(s))
  {
    hide Sizes, Picked, NoneSplits, Starts, Ordered, AtLeast;
    CountOfPermutation(gathered, s, id => TakesPart(s, b, target, id));
    BoardsCount(s, b, target, NumBoards(s));
    AllPicked(s, b, target);
    assert s[..|s|] == s;
  }

  // ---- Four processes on each node ----

  /** Every node number that occurs, occurs exactly four times. */
  ghost predicate FourEach(s: seq<int>) {
    forall x :: x in s ==> multiset(s)[x] == 4
  }

  lemma {:induction false} CountZero(s: seq<int>, x: int)
    requires x !in s
    ensures multiset(s)[x] == 0
  {
    assert x !in multiset(s);
  }

  lemma {:induction false} CountAll(s: seq<int>, x: int)
    requires forall i :: 0 <= i < |s| ==> s[i] == x
    ensures multiset(s)[x] == |s|
  {
    if s != [] {
      assert s == s[..|s| - 1] + [s[|s| - 1]];
      CountAll(s[..|s| - 1], x);
    }
  }

  /** Where the last value of a sorted sequence begins. */
  lemma {:induction false} LastValueBegins(s: seq<int>, hi: nat) returns (p: nat)
    requires s != [] && Ordered(s) && hi < |s| && s[hi] == s[|s| - 1]
    ensures p <= hi && s[p] == s[|s| - 1] && (p == 0 || s[p - 1] != s[p])
  {
    if hi == 0 || s[hi - 1] != s[hi] {
      p := hi;
    } else {
      p := LastValueBegins(s, hi - 1);
    }
  }

  lemma SuffixCount(s: seq<int>, p: nat, x: int)
    requires p <= |s|
    requires forall i :: 0 <= i < |s| ==> (s[i] == x <==> p <= i)
    ensures multiset(s)[x] == |s| - p
  {
    assert s == s[..p] + s[p..];
    CountZero(s[..p], x);
    CountAll(s[p..], x);
  }

  /** The last four entries are the same node, and the others are different ones. */
  lemma LastFour(s: seq<int>)
    requires s != [] && Ordered(s) && FourEach(s)
    ensures |s| >= 4 && (forall i :: |s| - 4 <= i < |s| ==> s[i] == s[|s| - 1])
    ensures forall i :: 0 <= i < |s| - 4 ==> s[i] != s[|s| - 1]
  {
    var p := LastValueBegins(s, |s| - 1);
    forall i | 0 <= i < p ensures s[i] != s[|s| - 1] {
      ApartWhereItChanges(s, i, p, |s| - 1);
    }
    forall i | p <= i < |s| ensures s[i] == s[|s| - 1] {
      assert s[p] <= s[i] <= s[|s| - 1];
    }
    SuffixCount(s, p, s[|s| - 1]);
    assert s[|s| - 1] in s;
  }

  lemma FourEachBefore(s: seq<int>)
    requires s != [] && Ordered(s) && FourEach(s)
    ensures |s| >= 4 && Ordered(s[..|s| - 4]) && FourEach(s[..|s| - 4])
  {
    LastFour(s);
    var t := s[..|s| - 4];
    assert s == t + s[|s| - 4..];
    forall y | y in t ensures multiset(t)[y] == 4 {
      CountZero(s[|s| - 4..], y);
      assert y in s;
    }
  }

  /** The sorted list consists of groups of four. */
  lemma {:induction false} GroupsOfFour(s: seq<int>)
    requires Ordered(s) && FourEach(s)
    ensures |s| % 4 == 0
    ensures forall j :: 0 < j < |s| && j % 4 == 0 ==> s[j] != s[j - 1]
    ensures forall j :: 0 < j < |s| && j % 4 != 0 ==> s[j] == s[j - 1]
    decreases |s|
  {
    if s != [] {
      hide Ordered, FourEach;
      LastFour(s);
      FourEachBefore(s);
      GroupsOfFour(s[..|s| - 4]);
    }
  }

  /** Every board then begins at a multiple of four. */
  lemma BoundsAligned(s: seq<int>, k: nat)
    requires s != [] && Ordered(s) && FourEach(s) && k <= NumBoards(s)
    ensures Bounds(s)[k] % 4 == 0
  {
    hide Ordered, FourEach;
    GroupsOfFour(s);
    if k == NumBoards(s) {
    } else if k > 0 {
      BoundsIncrease(s, 0, k);
      BoundsIncrease(s, k, NumBoards(s));
      assert Starts(s, |s|)[k] in Starts(s, |s|);
      StartsAreChanges(s, |s|, Bounds(s)[k]);
    }
  }

  lemma FourEachNeverSplits(s: seq<int>, b: int, target: nat)
    requires s != [] && Ordered(s) && FourEach(s) && b % 4 == 0
    ensures NoneSplits(s, b, target, NumBoards(s))
  {
    hide Ordered, FourEach, Bounds, Chosen;
    GroupsOfFour(s);
    forall k: nat | k < NumBoards(s) ensures !Splits(s, b, k) {
      BoundsAligned(s, k);
    }
  }

  /** Every board then has at least four processes, so boards of four use more processes than smaller ones. */
  lemma FourEachPays(gathered: seq<int>)
    requires gathered != [] && FourEach(gathered)
    ensures FourPays(Sizes(Sorted(gathered)))
  {
    hide Ordered, Bounds, FourEach, Sorted;
    var s := Sorted(gathered);
    SortedOrders(gathered);
    SameOccurrences(gathered, s);
    forall k: nat | k < NumBoards(s) ensures Sizes(s)[k] >= 4 {
      BoundsAligned(s, k);
      BoundsAligned(s, k + 1);
      BoundsIncrease(s, k, k + 1);
    }
    forall b | b <= 4 ensures Processes(Sizes(s), b) == b * NumBoards(s) {
      AllAtLeast(Sizes(s), b);
    }
    assert Pays(Sizes(s), 4);
  }

  lemma {:induction false} AllAtLeast(sizes: seq<int>, b: int)
    requires forall k :: 0 <= k < |sizes| ==> sizes[k] >= b
    ensures AtLeast(sizes, b) == |sizes|
  {
    if sizes != [] {
      AllAtLeast(sizes[..|sizes| - 1], b);
      assert AtLeast(sizes, b) == AtLeast(sizes[..|sizes| - 1], b) + 1;
    }
  }

  lemma SameOccurrences(s: seq<int>, t: seq<int>)
    requires multiset(s) == multiset(t) && FourEach(s)
    ensures FourEach(t)
  {
    forall x | x in t ensures x in s {
      assert x in multiset(t);
    }
  }

  /**
   With four processes on each node, the ranks that find themselves selected are exactly
   `numBoard * boardSize`, which is never more than all of them.
   */
  lemma FourEachSelection(gathered: seq<int>, rank: nat, table: seq<Factorized>, t: Topology)
    requires rank < |gathered| && FourEach(gathered) && IsTopology(gathered, rank, table, t)
    ensures Selected(gathered, Sorted(gathered), t.boardSize, t.numBoard) == t.numBoard * t.boardSize <= |gathered|
  {
    hide Ordered, FourEach, Bounds, Processes, Sizes, AtLeast, Best, Selected, NoneSplits, Number, Sorted, TakesPart;
    var s := Sorted(gathered);
    SortedOrders(gathered);
    SameOccurrences(gathered, s);
    FourEachNeverSplits(s, t.boardSize, t.numBoard);
    SelectionCount(gathered, s, t.boardSize, t.numBoard);
  }

  /** Every topology needs no more processes than there are. */
  lemma FitsProcesses(gathered: seq<int>, rank: nat, table: seq<Factorized>, t: Topology)
    requires rank < |gathered| && IsTopology(gathered, rank, table, t)
    ensures t.numBoard * t.boardSize <= |gathered|
  {
    hide Bounds, Sizes, Best, Selected, Number, Sorted, TakesPart;
    SortedOrders(gathered);
    SelectionCount(gathered, Sorted(gathered), t.boardSize, t.numBoard);
  }

  /** A single process is too few: its quarter is 0, which is not in the table. */
  lemma OneProcessIsTooFew(cpuid: int)
    ensures !FourPays(Sizes(Sorted([cpuid])))
  {
    assert Sorted([cpuid]) == [cpuid];
    assert Sizes([cpuid]) == [1];
    OnlyOneDoesNotPay();
  }

  lemma OnlyOneDoesNotPay()
    ensures !FourPays([1])
  {
    forall c ensures Processes([1], c) == if c <= 1 then c else 0 {
      assert [1][..0] == [];
      assert AtLeast([1], c) == if 1 >= c then 1 else 0;
    }
    forall c | c >= 4 ensures !Pays([1], c) {
      assert Processes([1], 1) >= Processes([1], c);
    }
  }

  // ---- The ranks of the selected processes ----

  /**
   With no node split, the new ranks follow the sorted list: an entry in the head of a chosen board gets the
   rank that counts the selected entries before it, so its board is that rank divided by the board size, among
   the chosen boards, and its place there is the remainder.
   */
  lemma RankOfEntry(s: seq<int>, b: int, target: nat, k: nat, j: nat)
    requires s != [] && Ordered(s) && b >= 1 && k < NumBoards(s) && Chosen(s, b, target, k)
    requires NoneSplits(s, b, target, NumBoards(s)) && Bounds(s)[k] <= j < Bounds(s)[k] + b
    ensures j < |s| && TakesPart(s, b, target, s[j])
    ensures Taken(s, b, target, j) == Picked(s, b, target, k) * b + (j - Bounds(s)[k])
    ensures Taken(s, b, target, j) / b == Picked(s, b, target, k)
    ensures Taken(s, b, target, j) % b == j - Bounds(s)[k]
  {
    hide Bounds, Sizes, Picked, TakesPart, Taken, Ordered, Splits;
    var begin := Bounds(s)[k];
    BoundsIncrease(s, k, k + 1);
    ChosenMeans(s, b, target, k);
    BoardsCount(s, b, target, k);
    forall i | begin <= i < begin + b ensures TakesPart(s, b, target, s[i]) {
      OnBoard(s, b, target, k, i);
      assert InHead(s, b, k, i);
    }
    TakenStretch(s, b, target, begin, j);
    QuotientOf(Picked(s, b, target, k), b, j - begin);
  }

  lemma QuotientOf(q: nat, b: int, r: nat)
    requires r < b
    ensures (q * b + r) / b == q && (q * b + r) % b == r
  {
    var x := q * b + r;
    if x / b < q {
      MulMonotone(x / b + 1, q, b);
    } else if x / b > q {
      MulMonotone(q + 1, x / b, b);
    }
  }
}
