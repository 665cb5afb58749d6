/**
 The route table of the shuffle (src/ympi_shuffle.c): a rank is written in a mixed radix, and each hop
 replaces one digit of the current rank by the digit of the destination.
 */
module Route {
  import opened Topology

  type Positive = n: nat | n >= 1 witness 1

  type Radix = n: nat | n >= 2 witness 2

  // ---- Digits ----

  lemma ProductsArePositive(a: Positive, b: Positive)
    ensures a * b >= 1
  {
  }

  lemma ProductsAreNatural(a: nat, b: nat)
    ensures a * b >= 0
  {
  }

  /** `x` is `q` times `m`, and `r` is left over. */
  predicate Decomposes(x: nat, q: nat, r: nat, m: nat) {
    x == q * m + r && r < m
  }

  lemma DivModUnique(x: nat, q: nat, r: nat, m: nat)
    requires Decomposes(x, q, r, m)
    ensures x / m == q && x % m == r
  {
    if q < x / m {
      MulMonotone(q + 1, x / m, m);
    } else if q > x / m {
      MulMonotone(x / m + 1, q, m);
    }
  }

  lemma DigitFits(p: nat, size: nat, base: nat, low: nat)
    requires p < size && low < base
    ensures p * base + low < base * size
  {
    MulMonotone(p + 1, size, base);
  }

  lemma SplitDigit(q: int, size: int, p: int, base: int)
    ensures q * (base * size) + p * base == (q * size + p) * base
  {
  }

  lemma Recompose(x: nat, a: Positive, b: Positive)
    ensures Decomposes(x, x / a / b, (x / a % b) * a + x % a, a * b)
  {
    SplitDigit(x / a / b, b, x / a % b, a);
    DigitFits(x / a % b, b, a, x % a);
  }

  /** Division in two steps. */
  lemma DivDiv(x: nat, a: Positive, b: Positive)
    ensures x / (a * b) == (x / a) / b
    ensures x % (a * b) == (x / a % b) * a + x % a
  {
    hide Decomposes;
    Recompose(x, a, b);
    DivModUnique(x, x / a / b, (x / a % b) * a + x % a, a * b);
  }

  lemma AddMultiple(k: nat, m: Positive, x: nat)
    ensures (k * m + x) / m == k + x / m && (k * m + x) % m == x % m
  {
    assert (k + x / m) * m == k * m + (x / m) * m;
    DivModUnique(k * m + x, k + x / m, x % m, m);
  }

  /** The digit of weight `base` and radix `size`. */
  function Digit(rank: nat, base: Positive, size: Positive): (d: nat)
    ensures d < size
  {
    rank / base % size
  }

  /** The rank with that digit replaced. */
  function Hop(rank: nat, base: Positive, size: Positive, p: nat): nat {
    ProductsArePositive(base, size);
    ProductsAreNatural(rank / (base * size), base * size);
    ProductsAreNatural(p, base);
    rank / (base * size) * (base * size) + p * base + rank % base
  }

  lemma HopAbove(rank: nat, base: Positive, size: Positive, p: nat)
    requires p < size
    ensures Hop(rank, base, size, p) / (base * size) == rank / (base * size)
    ensures Hop(rank, base, size, p) % (base * size) == p * base + rank % base
  {
    DigitFits(p, size, base, rank % base);
    DivModUnique(Hop(rank, base, size, p), rank / (base * size), p * base + rank % base, base * size);
  }

  /** A hop changes this digit and nothing above or below it. */
  lemma HopParts(rank: nat, base: Positive, size: Positive, p: nat)
    requires p < size
    ensures Hop(rank, base, size, p) / (base * size) == rank / (base * size)
    ensures Hop(rank, base, size, p) % base == rank % base
    ensures Digit(Hop(rank, base, size, p), base, size) == p
  {
    HopAbove(rank, base, size, p);
    hide Hop;
    var x := Hop(rank, base, size, p);
    DivDiv(x, base, size);
    SameSplit(x / base % size, x % base, p, rank % base, base);
  }

  lemma SameSplit(p: nat, low: nat, q: nat, other: nat, base: Positive)
    requires p * base + low == q * base + other && low < base && other < base
    ensures p == q && low == other
  {
    DivModUnique(p * base + low, p, low, base);
    DivModUnique(p * base + low, q, other, base);
  }

  lemma MulAssoc(a: int, b: int, c: int)
    ensures (a * b) * c == a * (b * c)
  {
  }

  /** Two hops at adjacent digits are one hop at the digit they form together. */
  lemma HopsCompose(rank: nat, dst: nat, base: Positive, size: Positive, more: Positive)
    ensures Hop(Hop(rank, base, size, Digit(dst, base, size)), base * size, more, Digit(dst, base * size, more))
            == Hop(rank, base, size * more, Digit(dst, base, size * more))
  {
    var p, q := Digit(dst, base, size), Digit(dst, base * size, more);
    var x := Hop(rank, base, size, p);
    HopAbove(rank, base, size, p);
    DivDiv(x, base * size, more);
    DivDiv(rank, base * size, more);
    MulAssoc(base, size, more);
    DivDiv(dst / base, size, more);
    DivDiv(dst, base, size);
    assert Digit(dst, base, size * more) == q * size + p;
    SplitDigit(q, size, p, base);
  }

  // ---- Rows of the table ----

  datatype Row = Row(base: Positive, size: Radix)

  function Product(sizes: seq<Radix>): Positive {
    if sizes == [] then 1 else sizes[0] * Product(sizes[1..])
  }

  function Rows(base: Positive, sizes: seq<Radix>): (r: seq<Row>)
    ensures |r| == |sizes|
    decreases |sizes|
  {
    if sizes == [] then [] else [Row(base, sizes[0])] + Rows(base * sizes[0], sizes[1..])
  }

  /** The ranks that a message for `dst` visits: each row sends it on to the entry for the digit of `dst`. */
  function Follow(rank: nat, dst: nat, rows: seq<Row>): nat
    decreases |rows|
  {
    if rows == [] then rank
    else Follow(Hop(rank, rows[0].base, rows[0].size, Digit(dst, rows[0].base, rows[0].size)), dst, rows[1..])
  }

  /** All hops of a chain of rows are together one hop, whose size is the product of the sizes. */
  lemma {:induction false} ChainIsOneHop(rank: nat, dst: nat, base: Positive, sizes: seq<Radix>)
    ensures Follow(rank, dst, Rows(base, sizes)) == Hop(rank, base, Product(sizes), Digit(dst, base, Product(sizes)))
    decreases |sizes|
  {
    hide Hop, Digit;
    if sizes == [] {
      HopOfOne(rank, dst, base);
    } else {
      var size, rest := sizes[0], sizes[1..];
      ChainIsOneHop(Hop(rank, base, size, Digit(dst, base, size)), dst, base * size, rest);
      HopsCompose(rank, dst, base, size, Product(rest));
      assert Rows(base, sizes)[1..] == Rows(base * size, rest);
    }
  }

  lemma HopOfOne(rank: nat, dst: nat, base: Positive)
    ensures Hop(rank, base, 1, Digit(dst, base, 1)) == rank
  {
  }

  lemma {:induction false} FollowConcat(rank: nat, dst: nat, first: seq<Row>, second: seq<Row>)
    ensures Follow(rank, dst, first + second) == Follow(Follow(rank, dst, first), dst, second)
    decreases |first|
  {
    hide Hop, Digit;
    if first == [] {
      assert first + second == second;
    } else {
      var row := first[0];
      assert (first + second)[1..] == first[1..] + second;
      FollowConcat(Hop(rank, row.base, row.size, Digit(dst, row.base, row.size)), dst, first[1..], second);
    }
  }

  function Repeat(size: Radix, n: nat): (r: seq<Radix>)
    ensures |r| == n
  {
    if n == 0 then [] else [size] + Repeat(size, n - 1)
  }

  /** The sizes of the groups: the twos, then the threes, then the fives. */
  function Groups(f: Factor): seq<Radix> {
    Repeat(2, f.n0) + Repeat(3, f.n1) + Repeat(5, f.n2)
  }

  lemma {:induction false} ProductConcat(s: seq<Radix>, t: seq<Radix>)
    ensures Product(s + t) == Product(s) * Product(t)
  {
    if s == [] {
      assert s + t == t;
    } else {
      ProductConcat(s[1..], t);
      assert (s + t)[1..] == s[1..] + t;
      MulAssoc(s[0], Product(s[1..]), Product(t));
    }
  }

  lemma {:induction false} ProductOfRepeat(size: Radix, n: nat)
    ensures Product(Repeat(size, n)) == Pow(size, n)
  {
    if n > 0 {
      ProductOfRepeat(size, n - 1);
      assert Repeat(size, n)[1..] == Repeat(size, n - 1);
    }
  }

  lemma GroupsMultiply(f: Factor)
    ensures Product(Groups(f)) == Number(f)
  {
    hide Product, Repeat, Pow;
    ProductOfRepeat(2, f.n0);
    ProductOfRepeat(3, f.n1);
    ProductOfRepeat(5, f.n2);
    ProductConcat(Repeat(2, f.n0), Repeat(3, f.n1));
    ProductConcat(Repeat(2, f.n0) + Repeat(3, f.n1), Repeat(5, f.n2));
  }

  /** All rows: between boards first, then on the board. */
  function RouteRows(boards: Factor, size: Factor): seq<Row> {
    Rows(Product(Groups(size)), Groups(boards)) + Rows(1, Groups(size))
  }

  lemma QuotientTimes(x: nat, base: Positive)
    ensures x / base * base <= x
  {
  }

  lemma TopQuotient(x: nat, base: Positive, size: Positive)
    requires x < size * base
    ensures x / base < size
  {
    QuotientTimes(x, base);
    if size <= x / base {
      MulMonotone(size, x / base, base);
    }
  }

  lemma SmallQuotient(q: nat, size: Positive)
    requires q < size
    ensures q / size == 0 && q % size == q
  {
  }

  /** What a single digit covers when nothing is above it. */
  lemma TopDigit(x: nat, base: Positive, size: Positive)
    requires x < size * base
    ensures Digit(x, base, size) == x / base && x / (base * size) == 0
  {
    TopQuotient(x, base, size);
    SmallQuotient(x / base, size);
    DivDiv(x, base, size);
  }

  lemma HopAtOne(rank: nat, size: Positive, p: nat)
    ensures Hop(rank, 1, size, p) == rank / size * size + p
    ensures Digit(rank, 1, size) == rank % size
  {
  }

  lemma LastDigit(x: nat, dst: nat, base: Positive)
    requires x / base == dst / base
    ensures Hop(x, 1, base, Digit(dst, 1, base)) == dst
  {
    HopAtOne(x, base, Digit(dst, 1, base));
    HopAtOne(dst, base, 0);
  }

  /** The inter-board part of the route changes the board and keeps the place on it. */
  lemma BoardsReached(src: nat, dst: nat, boards: seq<Radix>, base: Positive)
    requires src < Product(boards) * base && dst < Product(boards) * base
    ensures Follow(src, dst, Rows(base, boards)) == dst / base * base + src % base
    ensures Follow(src, dst, Rows(base, boards)) / base == dst / base
  {
    hide Rows, Follow, Product;
    ChainIsOneHop(src, dst, base, boards);
    TopDigit(src, base, Product(boards));
    TopDigit(dst, base, Product(boards));
    AddMultiple(dst / base, base, src % base);
  }

  /** Whatever the factors, the last hop ends at the destination. */
  lemma RouteReaches(boards: Factor, size: Factor, src: nat, dst: nat)
    requires src < Number(boards) * Number(size) && dst < Number(boards) * Number(size)
    ensures Follow(src, dst, RouteRows(boards, size)) == dst
  {
    hide Rows, Groups, Number, Follow, Product, Hop, Digit;
    GroupsMultiply(boards);
    GroupsMultiply(size);
    var b := Product(Groups(size));
    var middle := Follow(src, dst, Rows(b, Groups(boards)));
    FollowConcat(src, dst, Rows(b, Groups(boards)), Rows(1, Groups(size)));
    BoardsReached(src, dst, Groups(boards), b);
    ChainIsOneHop(middle, dst, 1, Groups(size));
    LastDigit(middle, dst, b);
  }

  // ---- Which row comes when ----

  /** The size of the `i`-th group of a number: the twos, then the threes, then the fives. */
  function GroupSize(f: Factor, i: nat): Radix {
    if i < f.n0 then 2 else if i < f.n0 + f.n1 then 3 else 5
  }

  /** The product of the groups before it. */
  function GroupBase(f: Factor, i: nat): Positive {
    PowersArePositive(f, i);
    if i <= f.n0 then Pow(2, i)
    else if i <= f.n0 + f.n1 then Pow(2, f.n0) * Pow(3, i - f.n0)
    else Pow(2, f.n0) * Pow(3, f.n1) * Pow(5, i - f.n0 - f.n1)
  }

  lemma PowersArePositive(f: Factor, i: nat)
    ensures Pow(2, i) >= 1 && Pow(2, f.n0) >= 1
    ensures i >= f.n0 ==> Pow(2, f.n0) * Pow(3, i - f.n0) >= 1
    ensures i >= f.n0 + f.n1 ==> Pow(2, f.n0) * Pow(3, f.n1) * Pow(5, i - f.n0 - f.n1) >= 1
  {
    ProductsArePositive(Pow(2, f.n0), Pow(3, f.n1));
    if i >= f.n0 { ProductsArePositive(Pow(2, f.n0), Pow(3, i - f.n0)); }
    if i >= f.n0 + f.n1 { ProductsArePositive(Pow(2, f.n0) * Pow(3, f.n1), Pow(5, i - f.n0 - f.n1)); }
  }

  lemma {:induction false} RowAt(base: Positive, sizes: seq<Radix>, i: nat)
    requires i < |sizes|
    ensures Rows(base, sizes)[i].base == base * Product(sizes[..i]) && Rows(base, sizes)[i].size == sizes[i]
    decreases i
  {
    if i == 0 {
      assert sizes[..0] == [];
    } else {
      RowAt(base * sizes[0], sizes[1..], i - 1);
      assert sizes[..i] == [sizes[0]] + sizes[1..][..i - 1];
      assert Product(sizes[..i]) == sizes[0] * Product(sizes[1..][..i - 1]) by {
        assert sizes[..i][1..] == sizes[1..][..i - 1];
      }
      MulAssoc(base, sizes[0], Product(sizes[1..][..i - 1]));
    }
  }

  lemma {:induction false} RepeatPrefix(size: Radix, n: nat, i: nat)
    requires i <= n
    ensures Repeat(size, n)[..i] == Repeat(size, i)
    ensures forall k :: 0 <= k < n ==> Repeat(size, n)[k] == size
  {
    if n > 0 {
      RepeatPrefix(size, n - 1, if i == 0 then 0 else i - 1);
    }
  }

  lemma GroupAt(f: Factor, i: nat)
    requires i < f.n0 + f.n1 + f.n2
    ensures |Groups(f)| == f.n0 + f.n1 + f.n2
    ensures Groups(f)[i] == GroupSize(f, i) && Product(Groups(f)[..i]) == GroupBase(f, i)
  {
    hide Product, Repeat, Pow;
    var twos, threes, fives := Repeat(2, f.n0), Repeat(3, f.n1), Repeat(5, f.n2);
    var a: nat := if i <= f.n0 then i else f.n0;
    var b: nat := if i <= f.n0 then 0 else if i <= f.n0 + f.n1 then i - f.n0 else f.n1;
    var c: nat := if i <= f.n0 + f.n1 then 0 else i - f.n0 - f.n1;
    RepeatPrefix(2, f.n0, a);
    RepeatPrefix(3, f.n1, b);
    RepeatPrefix(5, f.n2, c);
    assert Groups(f)[..i] == Repeat(2, a) + Repeat(3, b) + Repeat(5, c);
    ProductConcat(Repeat(2, a) + Repeat(3, b), Repeat(5, c));
    ProductConcat(Repeat(2, a), Repeat(3, b));
    ProductOfRepeat(2, a);
    ProductOfRepeat(3, b);
    ProductOfRepeat(5, c);
    PowZero(3);
    PowZero(5);
  }

  lemma PowZero(base: nat)
    ensures Pow(base, 0) == 1
  {
  }

  /** The number of iterations that change the board. */
  function Hops(f: Factor): nat {
    f.n0 + f.n1 + f.n2
  }

  /**
   The rows in the order in which they are written: first those between boards, whose weights are multiples of the
   board size, then those on the board.
   */
  lemma RouteRowAt(boards: Factor, size: Factor, t: nat)
    requires t < Hops(boards) + Hops(size)
    ensures |RouteRows(boards, size)| == Hops(boards) + Hops(size)
    ensures var row := RouteRows(boards, size)[t];
            if t < Hops(boards) then
              row.base == Number(size) * GroupBase(boards, t) && row.size == GroupSize(boards, t)
            else
              row.base == GroupBase(size, t - Hops(boards)) && row.size == GroupSize(size, t - Hops(boards))
  {
    hide Product, Repeat, Pow, GroupBase, GroupSize, Groups, Number, Rows;
    GroupsMultiply(size);
    GroupsLength(boards);
    GroupsLength(size);
    if t < Hops(boards) {
      GroupAt(boards, t);
      RowAt(Product(Groups(size)), Groups(boards), t);
    } else {
      GroupAt(size, t - Hops(boards));
      RowAt(1, Groups(size), t - Hops(boards));
    }
  }

  lemma GroupsLength(f: Factor)
    ensures |Groups(f)| == Hops(f)
  {
  }

  /** The first hops change only the board, the later ones only the place on it. */
  lemma BoardsFirst(boards: Factor, size: Factor, src: nat, dst: nat, hops: nat)
    requires src < Number(boards) * Number(size) && dst < Number(boards) * Number(size)
    requires hops <= |RouteRows(boards, size)|
    ensures |RouteRows(boards, size)| == Hops(boards) + Hops(size) && Number(size) >= 1
    ensures var at := Follow(src, dst, RouteRows(boards, size)[..hops]);
            && (hops <= Hops(boards) ==> at % Number(size) == src % Number(size))
            && (hops == Hops(boards) ==> at == dst / Number(size) * Number(size) + src % Number(size))
            && (hops >= Hops(boards) ==> at / Number(size) == dst / Number(size))
  {
    hide Rows, Groups, Number, Follow, Product, Hop, Digit;
    GroupsMultiply(boards);
    GroupsMultiply(size);
    GroupsLength(boards);
    GroupsLength(size);
    var b := Product(Groups(size));
    var first, second := Rows(b, Groups(boards)), Rows(1, Groups(size));
    BoardsReached(src, dst, Groups(boards), b);
    if hops <= Hops(boards) {
      assert (first + second)[..hops] == first[..hops];
      RowsPrefix(b, Groups(boards), hops);
      ChainIsOneHop(src, dst, b, Groups(boards)[..hops]);
      HopKeepsLow(src, b, Product(Groups(boards)[..hops]), Digit(dst, b, Product(Groups(boards)[..hops])));
      assert first[..|first|] == first;
    }
    if hops >= Hops(boards) {
      var k := hops - Hops(boards);
      assert (first + second)[..hops] == first + second[..k];
      FollowConcat(src, dst, first, second[..k]);
      RowsPrefix(1, Groups(size), k);
      var middle := Follow(src, dst, first);
      ChainIsOneHop(middle, dst, 1, Groups(size)[..k]);
      HopKeepsHigh(middle, Groups(size), k, Digit(dst, 1, Product(Groups(size)[..k])));
    }
  }

  lemma {:induction false} RowsPrefix(base: Positive, sizes: seq<Radix>, i: nat)
    requires i <= |sizes|
    ensures Rows(base, sizes)[..i] == Rows(base, sizes[..i])
    decreases i
  {
    if i > 0 {
      RowsPrefix(base * sizes[0], sizes[1..], i - 1);
      assert sizes[..i][1..] == sizes[1..][..i - 1];
    }
  }

  lemma HopKeepsLow(rank: nat, base: Positive, size: Positive, p: nat)
    requires p < size
    ensures Hop(rank, base, size, p) % base == rank % base
  {
    HopParts(rank, base, size, p);
  }

  /** A hop below a weight leaves the digits from that weight on alone. */
  lemma HopKeepsHigh(rank: nat, sizes: seq<Radix>, k: nat, p: nat)
    requires k <= |sizes| && p < Product(sizes[..k])
    ensures Hop(rank, 1, Product(sizes[..k]), p) / Product(sizes) == rank / Product(sizes)
  {
    hide Product, Hop;
    var low, high := Product(sizes[..k]), Product(sizes[k..]);
    assert sizes == sizes[..k] + sizes[k..];
    ProductConcat(sizes[..k], sizes[k..]);
    HopParts(rank, 1, low, p);
    assert 1 * low == low;
    DivDiv(Hop(rank, 1, low, p), low, high);
    DivDiv(rank, low, high);
  }

  // ---- On the way ----

  /** A digit that divides the number of ranks leads from a rank to a rank. */
  lemma HopStaysInside(rank: nat, base: Positive, size: Positive, p: nat, above: Positive)
    requires p < size && rank < above * (base * size)
    ensures Hop(rank, base, size, p) < above * (base * size)
  {
    HopAbove(rank, base, size, p);
    hide Hop;
    var m, x := base * size, Hop(rank, base, size, p);
    TopQuotient(rank, m, above);
    assert x / m < above;
    DigitFits(x / m, above, m, x % m);
  }

  /** Every row's digit lies within `total` ranks. */
  ghost predicate Within(rows: seq<Row>, total: nat) {
    forall row :: row in rows ==> exists above: Positive :: above * (row.base * row.size) == total
  }

  lemma {:induction false} RowsWithin(base: Positive, sizes: seq<Radix>, above: Positive)
    ensures Within(Rows(base, sizes), above * (base * Product(sizes)))
    decreases |sizes|
  {
    if sizes != [] {
      var size, rest := sizes[0], sizes[1..];
      RowsWithin(base * size, rest, above);
      MulAssoc(base, size, Product(rest));
      WithinFirst(base, size, above, Product(rest));
      assert Rows(base, sizes) == [Row(base, size)] + Rows(base * size, rest);
    }
  }

  lemma WithinFirst(base: Positive, size: Radix, above: Positive, rest: Positive)
    ensures exists a: Positive :: a * (base * size) == above * (base * (size * rest))
  {
    var a: Positive := above * rest;
    MulAssoc(base, size, rest);
    Rearrange(above, rest, base * size);
    assert a * (base * size) == above * (base * (size * rest));
  }

  lemma Rearrange(a: int, b: int, c: int)
    ensures (a * b) * c == a * (c * b)
  {
    MulAssoc(a, b, c);
  }

  lemma RouteRowsWithin(boards: Factor, size: Factor)
    ensures Within(RouteRows(boards, size), Number(boards) * Number(size))
  {
    hide Rows, Groups, Number, Product;
    GroupsMultiply(boards);
    GroupsMultiply(size);
    var n, b := Product(Groups(boards)), Product(Groups(size));
    RowsWithin(b, Groups(boards), 1);
    RowsWithin(1, Groups(size), n);
    assert 1 * (b * n) == n * b == n * (1 * b);
  }

  /** After any number of hops a message is at one of the ranks that have a table. */
  lemma {:induction false} FollowStaysInside(rank: nat, dst: nat, rows: seq<Row>, total: nat)
    requires rank < total && Within(rows, total)
    ensures Follow(rank, dst, rows) < total
    decreases |rows|
  {
    if rows != [] {
      hide Hop;
      var row := rows[0];
      assert row in rows;
      var above: Positive :| above * (row.base * row.size) == total;
      HopStaysInside(rank, row.base, row.size, Digit(dst, row.base, row.size), above);
      FollowStaysInside(Hop(rank, row.base, row.size, Digit(dst, row.base, row.size)), dst, rows[1..], total);
    }
  }

  lemma RouteStaysInside(boards: Factor, size: Factor, src: nat, dst: nat, hops: nat)
    requires src < Number(boards) * Number(size) && hops <= |RouteRows(boards, size)|
    ensures Follow(src, dst, RouteRows(boards, size)[..hops]) < Number(boards) * Number(size)
  {
    hide RouteRows, Number, Follow;
    RouteRowsWithin(boards, size);
    FollowStaysInside(src, dst, RouteRows(boards, size)[..hops], Number(boards) * Number(size));
  }

  // ---- The number of iterations ----

  const MAX_NUM_ITER := 20
  const MAX_GROUP_SIZE := 6

  function Iterations(boards: Factor, size: Factor): nat {
    Hops(boards) + Hops(size)
  }

  lemma {:induction false} AtLeastPowerOfTwo(sizes: seq<Radix>)
    ensures Product(sizes) >= Pow(2, |sizes|)
  {
    if sizes != [] {
      AtLeastPowerOfTwo(sizes[1..]);
      MulMonotone(2, sizes[0], Product(sizes[1..]));
    }
  }

  lemma {:induction false} PowGrows(m: nat, n: nat)
    requires m <= n
    ensures Pow(2, m) <= Pow(2, n)
  {
    if m < n { PowGrows(m, n - 1); }
  }

  lemma Pow18()
    ensures Pow(2, 18) == 262144
  {
    assert Pow(2, 6) == 64;
    assert Pow(2, 12) == 4096;
  }

  /** One call for at most MAX_NPROCS processes makes at most 17 iterations, and the table has room for 20. */
  lemma OneCallFits(boards: Factor, size: Factor)
    requires Number(boards) * Number(size) <= MAX_NPROCS
    ensures |RouteRows(boards, size)| == Iterations(boards, size) <= 17 < MAX_NUM_ITER
  {
    hide Product, Number, Pow;
    var sizes := Groups(boards) + Groups(size);
    GroupsMultiply(boards);
    GroupsMultiply(size);
    ProductConcat(Groups(boards), Groups(size));
    AtLeastPowerOfTwo(sizes);
    if |sizes| >= 18 {
      PowGrows(18, |sizes|);
      Pow18();
    }
  }

  /** One call fits for every topology that the program can choose. */
  lemma TopologyFits(gathered: seq<int>, rank: nat, table: seq<Factorized>, t: Topology)
    requires rank < |gathered| <= MAX_NPROCS && IsTopology(gathered, rank, table, t)
    ensures |RouteRows(t.numBoardFactor, t.boardSizeFactor)| <= 17
  {
    hide Number, IsLargest, Best;
    FitsProcesses(gathered, rank, table, t);
    OneCallFits(t.numBoardFactor, t.boardSizeFactor);
  }

  // ---- The tables of all ranks together ----

  /** Column `p` of iteration `t` holds the rank with that digit replaced by `p`. */
  ghost predicate IsTable(table: seq<seq<nat>>, rows: seq<Row>, rank: nat) {
    && |table| == |rows|
    && forall t: nat :: t < |rows| ==>
         && |table[t]| == rows[t].size
         && forall p: nat :: p < rows[t].size ==> table[t][p] == Hop(rank, rows[t].base, rows[t].size, p)
  }

  /** The first `total` ranks have their tables. */
  ghost predicate AreTables(tables: seq<seq<seq<nat>>>, rows: seq<Row>, total: nat) {
    total <= |tables| && forall rank: nat :: rank < total ==> IsTable(tables[rank], rows, rank)
  }

  /** From iteration `t` on, each rank looks up the next one in its own table; without an entry a message stays. */
  function Travel(tables: seq<seq<seq<nat>>>, rows: seq<Row>, t: nat, rank: nat, dst: nat): nat
    requires t <= |rows|
    decreases |rows| - t
  {
    if t == |rows| then rank
    else
      var digit := Digit(dst, rows[t].base, rows[t].size);
      if rank < |tables| && t < |tables[rank]| && digit < |tables[rank][t]|
      then Travel(tables, rows, t + 1, tables[rank][t][digit], dst)
      else rank
  }

  lemma {:induction false} TravelIsFollow(tables: seq<seq<seq<nat>>>, rows: seq<Row>, total: nat, t: nat,
                                          rank: nat, dst: nat)
    requires t <= |rows| && rank < total && Within(rows, total) && AreTables(tables, rows, total)
    ensures Travel(tables, rows, t, rank, dst) == Follow(rank, dst, rows[t..])
    decreases |rows| - t
  {
    if t < |rows| {
      hide Hop;
      var row := rows[t];
      var next := Hop(rank, row.base, row.size, Digit(dst, row.base, row.size));
      assert IsTable(tables[rank], rows, rank);
      assert row in rows;
      var above: Positive :| above * (row.base * row.size) == total;
      HopStaysInside(rank, row.base, row.size, Digit(dst, row.base, row.size), above);
      TravelIsFollow(tables, rows, total, t + 1, next, dst);
      assert rows[t..][1..] == rows[t + 1..];
    }
  }

  /** A message that each rank forwards by its own table ends at its destination, from everywhere. */
  lemma TablesReach(tables: seq<seq<seq<nat>>>, boards: Factor, size: Factor, src: nat, dst: nat)
    requires src < Number(boards) * Number(size) && dst < Number(boards) * Number(size)
    requires AreTables(tables, RouteRows(boards, size), Number(boards) * Number(size))
    ensures Travel(tables, RouteRows(boards, size), 0, src, dst) == dst
  {
    hide RouteRows, Number, AreTables, Travel, Follow, Within;
    RouteRowsWithin(boards, size);
    TravelIsFollow(tables, RouteRows(boards, size), Number(boards) * Number(size), 0, src, dst);
    RouteReaches(boards, size, src, dst);
    assert RouteRows(boards, size)[0..] == RouteRows(boards, size);
  }

  lemma {:induction false} TravelPrefix(tables: seq<seq<seq<nat>>>, rows: seq<Row>, total: nat, hops: nat, t: nat,
                                         rank: nat, dst: nat)
    requires t <= hops <= |rows| && rank < total && Within(rows, total) && AreTables(tables, rows, total)
    ensures Travel(tables, rows[..hops], t, rank, dst) == Follow(rank, dst, rows[t..hops])
    decreases hops - t
  {
    if t < hops {
      hide Hop;
      var row := rows[t];
      var next := Hop(rank, row.base, row.size, Digit(dst, row.base, row.size));
      assert IsTable(tables[rank], rows, rank);
      assert row in rows;
      var above: Positive :| above * (row.base * row.size) == total;
      HopStaysInside(rank, row.base, row.size, Digit(dst, row.base, row.size), above);
      TravelPrefix(tables, rows, total, hops, t + 1, next, dst);
      assert rows[t..hops][1..] == rows[t + 1..hops];
    }
  }

  /** By the tables, too, a message first comes to the board of its destination, and then to its place there. */
  lemma TablesReachBoardsFirst(tables: seq<seq<seq<nat>>>, boards: Factor, size: Factor, src: nat, dst: nat, hops: nat)
    requires src < Number(boards) * Number(size) && dst < Number(boards) * Number(size)
    requires AreTables(tables, RouteRows(boards, size), Number(boards) * Number(size))
    requires hops <= |RouteRows(boards, size)|
    ensures |RouteRows(boards, size)| == Hops(boards) + Hops(size) && Number(size) >= 1
    ensures var at := Travel(tables, RouteRows(boards, size)[..hops], 0, src, dst);
            && (hops <= Hops(boards) ==> at % Number(size) == src % Number(size))
            && (hops == Hops(boards) ==> at == dst / Number(size) * Number(size) + src % Number(size))
            && (hops >= Hops(boards) ==> at / Number(size) == dst / Number(size))
  {
    hide RouteRows, Number, AreTables, Travel, Follow, Within;
    RouteRowsWithin(boards, size);
    TravelPrefix(tables, RouteRows(boards, size), Number(boards) * Number(size), hops, 0, src, dst);
    BoardsFirst(boards, size, src, dst, hops);
    assert RouteRows(boards, size)[0..hops] == RouteRows(boards, size)[..hops];
  }

  // ---- The program that writes the table ----

  lemma {:induction false} RowsConcat(base: Positive, s: seq<Radix>, t: seq<Radix>)
    ensures Rows(base, s + t) == Rows(base, s) + Rows(base * Product(s), t)
    decreases |s|
  {
    if s == [] {
      assert s + t == t;
    } else {
      assert (s + t)[1..] == s[1..] + t;
      RowsConcat(base * s[0], s[1..], t);
      MulAssoc(base, s[0], Product(s[1..]));
    }
  }

  lemma {:induction false} RepeatNext(radix: Radix, n: nat)
    ensures Repeat(radix, n + 1) == Repeat(radix, n) + [radix]
    ensures Product(Repeat(radix, n + 1)) == Product(Repeat(radix, n)) * radix
  {
    if n > 0 {
      RepeatNext(radix, n - 1);
    }
    ProductConcat(Repeat(radix, n), [radix]);
    assert Product([radix]) == radix * Product([]);
  }

  lemma RowsNext(base: Positive, radix: Radix, n: nat)
    ensures Rows(base, Repeat(radix, n + 1)) ==
              Rows(base, Repeat(radix, n)) + [Row(base * Product(Repeat(radix, n)), radix)]
  {
    hide Product, Repeat;
    RepeatNext(radix, n);
    RowsConcat(base, Repeat(radix, n), [radix]);
    var b := base * Product(Repeat(radix, n));
    assert Rows(b, [radix]) == [Row(b, radix)] + Rows(b * radix, []);
  }

  /** The rank at a place on a board. */
  function RankAt(boardId: nat, boardOf: nat, boardSize: Positive): nat {
    ProductsAreNatural(boardId, boardSize);
    boardId * boardSize + boardOf
  }

  /** The digit of the board, written on the rank. */
  lemma BoardHop(boardId: nat, boardOf: nat, boardSize: Positive, g: Positive, radix: Positive, p: nat)
    requires boardOf < boardSize
    ensures (boardId / (g * radix) * (g * radix) + p * g + boardId % g) * boardSize + boardOf
            == Hop(RankAt(boardId, boardOf, boardSize), boardSize * g, radix, p)
  {
    var rank := RankAt(boardId, boardOf, boardSize);
    DivModUnique(rank, boardId, boardOf, boardSize);
    DivDiv(rank, boardSize, g * radix);
    MulAssoc(boardSize, g, radix);
    DivDiv(rank, boardSize, g);
    var m, high := g * radix, boardId / (g * radix);
    Distribute(high, m, p, g, boardId % g, boardSize);
  }

  lemma Distribute(high: int, m: int, p: int, g: int, low: int, b: int)
    ensures (high * m + p * g + low) * b == high * (b * m) + p * (b * g) + low * b
  {
  }

  /** The digit of the place on the board, written on the rank. */
  lemma PlaceHop(boardId: nat, boardOf: nat, boardSize: Positive, g: Positive, radix: Positive, p: nat, rest: Positive)
    requires boardSize == g * radix * rest
    ensures boardId * boardSize + (boardOf / (g * radix) * (g * radix) + p * g + boardOf % g)
            == Hop(RankAt(boardId, boardOf, boardSize), g, radix, p)
  {
    var m := g * radix;
    TimesMultiple(boardId, m, rest);
    AddMultiple(boardId * rest, m, boardOf);
    assert (boardId * rest + boardOf / m) * m == boardId * rest * m + boardOf / m * m;
    TimesMultiple(boardId, g, radix * rest);
    MulAssoc(g, radix, rest);
    AddMultiple(boardId * (radix * rest), g, boardOf);
  }

  lemma TimesMultiple(k: nat, m: nat, rest: nat)
    ensures k * (m * rest) == k * rest * m
  {
  }

  /** A row of the table, seen from the rank for which it was written. */
  datatype Entry = Entry(row: Row, rank: nat)

  function Entries(rows: seq<Row>, rank: nat): (r: seq<Entry>)
    ensures |r| == |rows|
  {
    if rows == [] then [] else Entries(rows[..|rows| - 1], rank) + [Entry(rows[|rows| - 1], rank)]
  }

  lemma EntriesNext(rows: seq<Row>, row: Row, rank: nat)
    ensures Entries(rows + [row], rank) == Entries(rows, rank) + [Entry(row, rank)]
  {
    assert (rows + [row])[..|rows|] == rows;
  }

  lemma {:induction false} EntriesConcat(first: seq<Row>, second: seq<Row>, rank: nat)
    ensures Entries(first + second, rank) == Entries(first, rank) + Entries(second, rank)
  {
    if second == [] {
      assert first + second == first;
    } else {
      var last := |second| - 1;
      assert (first + second)[..|first + second| - 1] == first + second[..last];
      EntriesConcat(first, second[..last], rank);
    }
  }

  /** The static arrays of the program. `totalIter` is never set back. */
  class RouteTable {
    var totalIter: nat
    const groupBase: array<nat>
    const groupSize: array<nat>
    const successiveRank: array2<nat>
    ghost var written: seq<Entry>

    constructor ()
      ensures Valid() && written == []
      ensures fresh(groupBase) && fresh(groupSize) && fresh(successiveRank)
    {
      totalIter, written := 0, [];
      groupBase := new nat[MAX_NUM_ITER](_ => 0);
      groupSize := new nat[MAX_NUM_ITER](_ => 0);
      successiveRank := new nat[MAX_NUM_ITER, MAX_GROUP_SIZE]((_, _) => 0);
    }

    ghost predicate Shaped()
      reads this
    {
      && groupBase.Length == groupSize.Length == successiveRank.Length0 == MAX_NUM_ITER
      && successiveRank.Length1 == MAX_GROUP_SIZE
      && totalIter <= MAX_NUM_ITER
      && groupBase != groupSize
    }

    /** Iteration `t` replaces one digit of a rank: column `p` holds the rank with digit `p`. */
    ghost predicate Holds(t: nat, e: Entry)
      requires Shaped() && t < MAX_NUM_ITER
      reads this, groupBase, groupSize, successiveRank
    {
      && groupBase[t] == e.row.base && groupSize[t] == e.row.size <= MAX_GROUP_SIZE
      && forall p: nat :: p < e.row.size ==> successiveRank[t, p] == Hop(e.rank, e.row.base, e.row.size, p)
    }

    /** All iterations hold what was written to them. */
    ghost predicate Valid()
      reads this, groupBase, groupSize, successiveRank
    {
      && Shaped() && |written| == totalIter
      && forall t: nat :: t < totalIter ==> Holds(t, written[t])
    }

    /** The inner loop of GEN_ITERS_INTER_BOARD: the ranks of the boards that differ in one digit. */
    method FillBoardRow(radix: Radix, base: Positive, boardId: nat, boardOf: nat, boardSize: Positive)
      requires Shaped() && totalIter < MAX_NUM_ITER && radix <= MAX_GROUP_SIZE && boardOf < boardSize
      modifies successiveRank
      ensures forall p: nat :: p < radix ==>
                successiveRank[totalIter, p] == Hop(RankAt(boardId, boardOf, boardSize), boardSize * base, radix, p)
      ensures forall t: nat, p: nat :: t < totalIter && p < MAX_GROUP_SIZE ==>
                 successiveRank[t, p] == old(successiveRank[t, p])
    {
      hide Hop, RankAt;
      for p := 0 to radix
        invariant forall q: nat :: q < p ==>
                    successiveRank[totalIter, q] == Hop(RankAt(boardId, boardOf, boardSize), boardSize * base, radix, q)
        invariant forall t: nat, q: nat :: t < totalIter && q < MAX_GROUP_SIZE ==>
                   successiveRank[t, q] == old(successiveRank[t, q])
      {
        var nextBoardId := boardId / (base * radix) * (base * radix) + p * base + boardId % base;
        BoardHop(boardId, boardOf, boardSize, base, radix, p);
        successiveRank[totalIter, p] := nextBoardId * boardSize + boardOf;
      }
    }

    /** The inner loop of GEN_ITERS_INTRA_BOARD: the ranks on this board that differ in one digit. */
    method FillPlaceRow(radix: Radix, base: Positive, boardId: nat, boardOf: nat, boardSize: Positive,
                        ghost rest: Positive)
      requires Shaped() && totalIter < MAX_NUM_ITER && radix <= MAX_GROUP_SIZE && boardSize == base * radix * rest
      modifies successiveRank
      ensures forall p: nat :: p < radix ==>
                successiveRank[totalIter, p] == Hop(RankAt(boardId, boardOf, boardSize), base, radix, p)
      ensures forall t: nat, p: nat :: t < totalIter && p < MAX_GROUP_SIZE ==>
                 successiveRank[t, p] == old(successiveRank[t, p])
    {
      hide Hop, RankAt;
      for p := 0 to radix
        invariant forall q: nat :: q < p ==>
                    successiveRank[totalIter, q] == Hop(RankAt(boardId, boardOf, boardSize), base, radix, q)
        invariant forall t: nat, q: nat :: t < totalIter && q < MAX_GROUP_SIZE ==>
                   successiveRank[t, q] == old(successiveRank[t, q])
      {
        var nextBoardOf := boardOf / (base * radix) * (base * radix) + p * base + boardOf % base;
        PlaceHop(boardId, boardOf, boardSize, base, radix, p, rest);
        successiveRank[totalIter, p] := boardId * boardSize + nextBoardOf;
      }
    }

    /**
     GEN_ITERS_INTER_BOARD: `n` iterations of one group size that change the board.  The answer is false where
     the source writes behind its arrays.
     */
    method GenItersInterBoard(radix: Radix, n: nat, base: Positive, boardId: nat, boardOf: nat, boardSize: Positive)
      returns (next: Positive, ok: bool)
      requires Valid() && radix <= MAX_GROUP_SIZE && boardOf < boardSize
      modifies this, groupBase, groupSize, successiveRank
      ensures Valid() && (ok <==> old(totalIter) + n <= MAX_NUM_ITER)
      ensures ok ==> next == base * Product(Repeat(radix, n))
      ensures ok ==> written == old(written)
                                + Entries(Rows(boardSize * base, Repeat(radix, n)), RankAt(boardId, boardOf, boardSize))
    {
      hide Hop, Product, Rows, Repeat, Entries, RankAt;
      ghost var rank := RankAt(boardId, boardOf, boardSize);
      next := base;
      StartOfRepeat(boardSize * base, radix, rank);
      for i := 0 to n
        invariant Valid() && totalIter == old(totalIter) + i && next == base * Product(Repeat(radix, i))
        invariant written == old(written) + Entries(Rows(boardSize * base, Repeat(radix, i)), rank)
      {
        if totalIter == MAX_NUM_ITER {
          return next, false;
        }
        NextRow(boardSize * base, radix, i, rank);
        MulAssoc(boardSize, base, Product(Repeat(radix, i)));
        MulAssoc(base, Product(Repeat(radix, i)), radix);
        groupSize[totalIter] := radix;
        groupBase[totalIter] := next * boardSize;
        FillBoardRow(radix, next, boardId, boardOf, boardSize);
        written := written + [Entry(Row(next * boardSize, radix), rank)];
        next := next * radix;
        totalIter := totalIter + 1;
      }
      ok := true;
    }

    /** GEN_ITERS_INTRA_BOARD: `n` iterations of one group size that change the place on the board. */
    method GenItersIntraBoard(radix: Radix, n: nat, base: Positive, boardId: nat, boardOf: nat, boardSize: Positive,
                              ghost rest: Positive)
      returns (next: Positive, ok: bool)
      requires Valid() && radix <= MAX_GROUP_SIZE
      requires boardSize == base * Product(Repeat(radix, n)) * rest
      modifies this, groupBase, groupSize, successiveRank
      ensures Valid() && (ok <==> old(totalIter) + n <= MAX_NUM_ITER)
      ensures ok ==> next == base * Product(Repeat(radix, n))
      ensures ok ==> written == old(written)
                                + Entries(Rows(base, Repeat(radix, n)), RankAt(boardId, boardOf, boardSize))
    {
      hide Hop, Product, Rows, Repeat, Entries, RankAt;
      ghost var rank := RankAt(boardId, boardOf, boardSize);
      next := base;
      StartOfRepeat(base, radix, rank);
      for i := 0 to n
        invariant Valid() && totalIter == old(totalIter) + i && next == base * Product(Repeat(radix, i))
        invariant written == old(written) + Entries(Rows(base, Repeat(radix, i)), rank)
      {
        if totalIter == MAX_NUM_ITER {
          return next, false;
        }
        NextRow(base, radix, i, rank);
        MulAssoc(base, Product(Repeat(radix, i)), radix);
        ghost var above := RestOfRepeat(base, radix, i, n, rest);
        groupSize[totalIter] := radix;
        groupBase[totalIter] := next;
        FillPlaceRow(radix, next, boardId, boardOf, boardSize, above);
        written := written + [Entry(Row(next, radix), rank)];
        next := next * radix;
        totalIter := totalIter + 1;
      }
      ok := true;
    }

    /** The three group sizes between boards. */
    method GenBoards(f: Factor, boardId: nat, boardOf: nat, boardSize: Positive) returns (ok: bool)
      requires Valid() && boardOf < boardSize
      modifies this, groupBase, groupSize, successiveRank
      ensures Valid() && (ok <==> old(totalIter) + f.n0 + f.n1 + f.n2 <= MAX_NUM_ITER)
      ensures ok ==> written == old(written)
                                + Entries(Rows(boardSize, Groups(f)), RankAt(boardId, boardOf, boardSize))
    {
      hide Product, Rows, Repeat, Groups, Number, Entries, Holds, RankAt;
      RowsOfGroups(boardSize, f, RankAt(boardId, boardOf, boardSize));
      var base;
      base, ok := GenItersInterBoard(2, f.n0, 1, boardId, boardOf, boardSize);
      if ok {
        base, ok := GenItersInterBoard(3, f.n1, base, boardId, boardOf, boardSize);
      }
      if ok {
        base, ok := GenItersInterBoard(5, f.n2, base, boardId, boardOf, boardSize);
      }
    }

    /** The three group sizes on a board. */
    method GenPlaces(f: Factor, boardId: nat, boardOf: nat, boardSize: Positive) returns (ok: bool)
      requires Valid() && boardSize == Number(f)
      modifies this, groupBase, groupSize, successiveRank
      ensures Valid() && (ok <==> old(totalIter) + f.n0 + f.n1 + f.n2 <= MAX_NUM_ITER)
      ensures ok ==> written == old(written) + Entries(Rows(1, Groups(f)), RankAt(boardId, boardOf, boardSize))
    {
      hide Product, Rows, Repeat, Groups, Number, Entries, Holds, RankAt;
      ghost var threes, fives := Product(Repeat(3, f.n1)), Product(Repeat(5, f.n2));
      RowsOfGroups(1, f, RankAt(boardId, boardOf, boardSize));
      var base;
      base, ok := GenItersIntraBoard(2, f.n0, 1, boardId, boardOf, boardSize, threes * fives);
      if ok {
        base, ok := GenItersIntraBoard(3, f.n1, base, boardId, boardOf, boardSize, fives);
      }
      if ok {
        base, ok := GenItersIntraBoard(5, f.n2, base, boardId, boardOf, boardSize, 1);
      }
    }

    /** All routes, for a place on a board. */
    method GenFor(boardId: nat, boardOf: nat, boards: Factor, size: Factor, boardSize: Positive) returns (ok: bool)
      requires Valid() && boardSize == Number(size) && boardOf < boardSize
      modifies this, groupBase, groupSize, successiveRank
      ensures Valid() && (ok <==> old(totalIter) + Iterations(boards, size) <= MAX_NUM_ITER)
      ensures ok ==> written == old(written)
                                + Entries(RouteRows(boards, size), RankAt(boardId, boardOf, boardSize))
    {
      hide Product, Rows, Groups, Number, Entries, Holds, RankAt;
      GroupsMultiply(size);
      RowsLength(boards, boardSize, RankAt(boardId, boardOf, boardSize));
      EntriesConcat(Rows(boardSize, Groups(boards)), Rows(1, Groups(size)), RankAt(boardId, boardOf, boardSize));
      ok := GenBoards(boards, boardId, boardOf, boardSize);
      if ok {
        ok := GenPlaces(size, boardId, boardOf, boardSize);
      }
    }

    /**
     The routes of one call of `YMPI_Shuffle`, written behind those of earlier calls.  The call stays inside
     the arrays exactly if its rows fit behind those that are there.
     */
    method GenRoutes(rank: nat, boards: Factor, size: Factor, boardSize: Positive) returns (ok: bool)
      requires Valid() && boardSize == Number(size)
      modifies this, groupBase, groupSize, successiveRank
      ensures Valid() && (ok <==> old(totalIter) + Iterations(boards, size) <= MAX_NUM_ITER)
      ensures ok ==> written == old(written) + Entries(RouteRows(boards, size), rank)
      ensures ok ==> totalIter == old(totalIter) + Iterations(boards, size)
    {
      hide RouteRows, Number, Entries, Holds, RankAt, Iterations;
      RankSplits(rank, boardSize);
      RouteRowsLength(boards, size);
      ok := GenFor(rank / boardSize, rank % boardSize, boards, size, boardSize);
    }

    /** The first columns of an iteration. */
    function RowOf(t: nat, columns: nat): (row: seq<nat>)
      requires t < successiveRank.Length0 && columns <= successiveRank.Length1
      reads successiveRank
      ensures |row| == columns && forall p: nat :: p < columns ==> row[p] == successiveRank[t, p]
    {
      if columns == 0 then [] else RowOf(t, columns - 1) + [successiveRank[t, columns - 1]]
    }

    /** The entries of the first iterations. */
    function Table(iterations: nat): (table: seq<seq<nat>>)
      requires Valid() && iterations <= totalIter
      reads this, groupBase, groupSize, successiveRank
      ensures |table| == iterations
      ensures forall t: nat :: t < iterations ==>
                groupSize[t] <= MAX_GROUP_SIZE && table[t] == RowOf(t, groupSize[t])
    {
      if iterations == 0 then []
      else
        assert Holds(iterations - 1, written[iterations - 1]);
        Table(iterations - 1) + [RowOf(iterations - 1, groupSize[iterations - 1])]
    }

    /** What one call wrote is the table of its rank. */
    lemma WrittenIsTable(rows: seq<Row>, rank: nat)
      requires Valid() && written == Entries(rows, rank)
      ensures IsTable(Table(totalIter), rows, rank)
    {
      hide Hop, Entries;
      forall t: nat | t < |rows|
        ensures |Table(totalIter)[t]| == rows[t].size
        ensures forall p: nat :: p < rows[t].size ==>
                  Table(totalIter)[t][p] == Hop(rank, rows[t].base, rows[t].size, p)
      {
        EntriesAt(rows, rank, t);
        assert Holds(t, written[t]);
      }
    }
  }

  lemma {:induction false} EntriesAt(rows: seq<Row>, rank: nat, t: nat)
    requires t < |rows|
    ensures Entries(rows, rank)[t] == Entry(rows[t], rank)
  {
    if t < |rows| - 1 {
      EntriesAt(rows[..|rows| - 1], rank, t);
    }
  }

  /** The tables that the first call writes on all ranks are the ones by which every message reaches its destination. */
  method AllTables(boards: Factor, size: Factor, boardSize: Positive, total: nat) returns (tables: seq<seq<seq<nat>>>)
    requires boardSize == Number(size) && Iterations(boards, size) <= MAX_NUM_ITER
    ensures AreTables(tables, RouteRows(boards, size), total)
  {
    hide Number, RouteRows, IsTable, RouteTable.Valid, RouteTable.Table, Iterations;
    tables := [];
    for rank := 0 to total
      invariant |tables| == rank
      invariant forall r: nat :: r < rank ==> IsTable(tables[r], RouteRows(boards, size), r)
    {
      var program := new RouteTable();
      var ok := program.GenRoutes(rank, boards, size, boardSize);
      program.WrittenIsTable(RouteRows(boards, size), rank);
      tables := tables + [program.Table(program.totalIter)];
    }
  }

  /** Calls with one topology stay inside the arrays exactly as long as all their rows together are at most 20. */
  method RepeatedCalls(calls: nat, rank: nat, boards: Factor, size: Factor, boardSize: Positive) returns (ok: bool)
    requires boardSize == Number(size)
    ensures ok <==> calls * Iterations(boards, size) <= MAX_NUM_ITER
  {
    hide Number, RouteRows, Iterations, RouteTable.Holds;
    var program := new RouteTable();
    for k := 0 to calls
      invariant program.Valid() && program.totalIter == k * Iterations(boards, size)
      invariant fresh(program) && fresh(program.groupBase) && fresh(program.groupSize) && fresh(program.successiveRank)
    {
      ok := program.GenRoutes(rank, boards, size, boardSize);
      if !ok {
        MulMonotone(k + 1, calls, Iterations(boards, size));
        return;
      }
    }
    ok := true;
  }

  // ---- A topology whose second call does not fit ----

  /** Sixteen processes on each board, four on each of its nodes. */
  function Node(i: nat): nat { i / 16 * 256 + i % 16 / 4 }

  function Crowd(n: nat): (s: seq<int>)
    ensures |s| == n && forall i :: 0 <= i < n ==> s[i] == Node(i)
  {
    if n == 0 then [] else Crowd(n - 1) + [Node(n - 1)]
  }

  lemma NodesOrdered(i: nat, j: nat)
    requires i <= j
    ensures Node(i) <= Node(j)
  {
    if i / 16 == j / 16 {
      assert i % 16 <= j % 16;
    }
  }

  lemma CrowdOrdered(n: nat)
    ensures Ordered(Crowd(n))
  {
    hide Node;
    forall i, j | 0 <= i < j < n ensures Crowd(n)[i] <= Crowd(n)[j] { NodesOrdered(i, j); }
  }

  lemma {:induction false} SortedOfOrdered(s: seq<int>)
    requires Ordered(s)
    ensures Sorted(s) == s
  {
    if s != [] {
      SortedOfOrdered(s[1..]);
      assert s == [s[0]] + s[1..];
    }
  }

  lemma NodeBoard(i: nat)
    ensures BoardId(Node(i)) == i / 16
  {
  }

  lemma {:induction false} CrowdStarts(n: nat, i: nat)
    requires 0 < i <= n
    ensures |Starts(Crowd(n), i)| == (i - 1) / 16 + 1
    ensures forall k :: 0 <= k < |Starts(Crowd(n), i)| ==> Starts(Crowd(n), i)[k] == 16 * k
  {
    hide BoardId, Node;
    if i > 1 {
      CrowdStarts(n, i - 1);
      NodeBoard(i - 1);
      NodeBoard(i - 2);
    }
  }

  const CROWD := 256 * 16

  lemma CrowdSizes()
    ensures NumBoards(Crowd(CROWD)) == 256
    ensures forall k :: 0 <= k < 256 ==> Sizes(Crowd(CROWD))[k] == 16
  {
    hide Starts, Crowd;
    CrowdStarts(CROWD, CROWD);
  }

  lemma {:induction false} NoneAtLeast(sizes: seq<int>, b: int)
    requires forall k :: 0 <= k < |sizes| ==> sizes[k] < b
    ensures AtLeast(sizes, b) == 0
  {
    if sizes != [] {
      NoneAtLeast(sizes[..|sizes| - 1], b);
      assert AtLeast(sizes, b) == AtLeast(sizes[..|sizes| - 1], b);
    }
  }

  lemma UniformBest(sizes: seq<int>)
    requires |sizes| == 256 && forall k :: 0 <= k < 256 ==> sizes[k] == 16
    ensures Best(sizes, 16) && AtLeast(sizes, 16) == 256
  {
    hide AtLeast;
    forall c ensures AtLeast(sizes, c) == if c <= 16 then 256 else 0 {
      if c <= 16 { AllAtLeast(sizes, c); } else { NoneAtLeast(sizes, c); }
    }
    assert sizes[0] in sizes;
  }

  function SmallTable(): seq<Factorized> {
    [Factorized(1, Factor(0, 0, 0)), Factorized(4, Factor(2, 0, 0)), Factorized(256, Factor(8, 0, 0)),
     Factorized(MAX_NPROCS, Factor(15, 0, 1))]
  }

  lemma SmallTableOk()
    ensures TableOk(SmallTable()) && SmallTable()[|SmallTable()| - 1].number == MAX_NPROCS
    ensures Number(Factor(8, 0, 0)) == 256 && Number(Factor(4, 0, 0)) == 16
  {
    assert Pow(2, 4) == 16;
    assert Pow(2, 8) == 256;
    assert Pow(2, 15) == 32768 by { assert Pow(2, 12) == 4096; }
  }

  /**
   A topology that the program chooses: 4096 processes on 256 boards of 16.  Its rows fit once and not twice:
   the second call of the shuffle writes behind the arrays.
   */
  lemma SecondCallDoesNotFit(rank: nat) returns (gathered: seq<int>, table: seq<Factorized>, t: Topology)
    requires rank < CROWD
    ensures |gathered| == CROWD <= MAX_NPROCS && TableOk(table) && table[|table| - 1].number == MAX_NPROCS
    ensures IsTopology(gathered, rank, table, t)
    ensures var iterations := Iterations(t.numBoardFactor, t.boardSizeFactor);
            1 * iterations <= MAX_NUM_ITER < 2 * iterations
  {
    hide Starts, Bounds, AtLeast, Number, TakesPart, Sizes, Best, Sorted, TableOk, Crowd;
    gathered, table := Crowd(CROWD), SmallTable();
    CrowdOrdered(CROWD);
    SortedOfOrdered(gathered);
    CrowdSizes();
    UniformBest(Sizes(gathered));
    SmallTableOk();
    assert IsLargest(table, 4, 4) by { assert table[1] in table; }
    assert IsLargest(table, 256, 256) by { assert table[2] in table; }
    var me := gathered[rank];
    t := Topology(me, TakesPart(gathered, 16, 256, me), 256, Factor(8, 0, 0), 16, Factor(4, 0, 0));
  }

  lemma RankSplits(rank: nat, boardSize: Positive)
    ensures RankAt(rank / boardSize, rank % boardSize, boardSize) == rank
  {
  }

  lemma RouteRowsLength(boards: Factor, size: Factor)
    ensures |RouteRows(boards, size)| == Iterations(boards, size)
  {
  }

  lemma RowsLength(f: Factor, base: Positive, rank: nat)
    ensures |Entries(Rows(base, Groups(f)), rank)| == f.n0 + f.n1 + f.n2
  {
  }

  lemma RowsOfGroups(base: Positive, f: Factor, rank: nat)
    ensures var twos, threes, fives := Repeat(2, f.n0), Repeat(3, f.n1), Repeat(5, f.n2);
            && Entries(Rows(base, Groups(f)), rank)
               == Entries(Rows(base, twos), rank) + Entries(Rows(base * Product(twos), threes), rank)
                  + Entries(Rows(base * (Product(twos) * Product(threes)), fives), rank)
            && Number(f) == Product(twos) * Product(threes) * Product(fives)
            && Number(f) == Product(twos) * (Product(threes) * Product(fives))
  {
    hide Product, Rows, Repeat, Pow, Entries;
    var twos, threes, fives := Repeat(2, f.n0), Repeat(3, f.n1), Repeat(5, f.n2);
    ProductOfRepeat(2, f.n0);
    ProductOfRepeat(3, f.n1);
    ProductOfRepeat(5, f.n2);
    RowsConcat(base, twos, threes);
    RowsConcat(base, twos + threes, fives);
    ProductConcat(twos, threes);
    MulAssoc(Product(twos), Product(threes), Product(fives));
    EntriesConcat(Rows(base, twos), Rows(base * Product(twos), threes), rank);
    EntriesConcat(Rows(base, twos + threes), Rows(base * (Product(twos) * Product(threes)), fives), rank);
  }

  lemma NextRow(base: Positive, radix: Radix, n: nat, rank: nat)
    ensures Entries(Rows(base, Repeat(radix, n + 1)), rank) ==
              Entries(Rows(base, Repeat(radix, n)), rank) + [Entry(Row(base * Product(Repeat(radix, n)), radix), rank)]
    ensures Product(Repeat(radix, n + 1)) == Product(Repeat(radix, n)) * radix
  {
    hide Product, Rows, Entries;
    RowsNext(base, radix, n);
    RepeatNext(radix, n);
    EntriesNext(Rows(base, Repeat(radix, n)), Row(base * Product(Repeat(radix, n)), radix), rank);
  }

  /** What is left above one of the repeated groups. */
  lemma RestOfRepeat(base: Positive, radix: Radix, i: nat, n: nat, rest: Positive) returns (above: Positive)
    requires i < n
    ensures base * Product(Repeat(radix, n)) * rest == base * Product(Repeat(radix, i)) * radix * above
  {
    hide Product;
    var j: nat := n - i - 1;
    var lower, upper := Product(Repeat(radix, i)), Product(Repeat(radix, j));
    RepeatSplits(radix, i, j);
    above := upper * rest;
    calc {
      base * (lower * radix * upper) * rest;
      { MulAssoc(base, lower * radix * upper, rest); MulAssoc(lower * radix, upper, rest); }
      base * (lower * radix * above);
      { MulAssoc(base, lower * radix, above); MulAssoc(base, lower, radix); }
      base * lower * radix * above;
    }
  }

  lemma {:induction false} RepeatSplits(radix: Radix, i: nat, j: nat)
    ensures Product(Repeat(radix, i + 1 + j)) == Product(Repeat(radix, i)) * radix * Product(Repeat(radix, j))
  {
    hide Product, Repeat;
    if j == 0 {
      RepeatNext(radix, i);
      StartOfRepeat(1, radix, 0);
    } else {
      RepeatSplits(radix, i, j - 1);
      RepeatNext(radix, i + j);
      RepeatNext(radix, j - 1);
      MulAssoc(Product(Repeat(radix, i)) * radix, Product(Repeat(radix, j - 1)), radix);
    }
  }

  lemma StartOfRepeat(base: Positive, radix: Radix, rank: nat)
    ensures Product(Repeat(radix, 0)) == 1 && Entries(Rows(base, Repeat(radix, 0)), rank) == []
  {
  }
}
