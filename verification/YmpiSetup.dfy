/** The table from queue pair numbers to ranks, as the set-up of src/ympi.c makes it. */
module YmpiSetup {
  import opened YmpiProcess

  /** The wanted ranks `i` and `j` have queue pair numbers that collide in the table. */
  ghost predicate Collide(qpNums: seq<nat>, wanted: seq<bool>, i: int, j: int)
    requires |wanted| == |qpNums|
  {
    0 <= i < j < |qpNums| && wanted[i] && wanted[j] && qpNums[i] % QPN_HASH_SIZE == qpNums[j] % QPN_HASH_SIZE
  }

  /** Every wanted rank, and no other, is found under the number of its queue pair. */
  ghost predicate IsTable(table: seq<int>, qpNums: seq<nat>, wanted: seq<bool>)
    requires |wanted| == |qpNums|
  {
    && |table| == QPN_HASH_SIZE
    && (forall i :: 0 <= i < |qpNums| && wanted[i] ==> table[qpNums[i] % QPN_HASH_SIZE] == i)
    && (forall k :: 0 <= k < |table| && table[k] != -1 ==>
          0 <= table[k] < |qpNums| && wanted[table[k]] && qpNums[table[k]] % QPN_HASH_SIZE == k)
  }

  /** The set-up fails its assertion exactly on a collision. */
  method BuildRankTable(qpNums: seq<nat>, wanted: seq<bool>) returns (ok: bool, table: array<int>)
    requires |wanted| == |qpNums|
    ensures ok <==> !exists i, j :: Collide(qpNums, wanted, i, j)
    ensures ok ==> IsTable(table[..], qpNums, wanted)
  {
    table := new int[QPN_HASH_SIZE](_ => -1);
    for i := 0 to |qpNums|
      invariant forall k :: 0 <= k < i && wanted[k] ==> table[qpNums[k] % QPN_HASH_SIZE] == k
      invariant forall k :: 0 <= k < QPN_HASH_SIZE && table[k] != -1 ==>
                  0 <= table[k] < i && wanted[table[k]] && qpNums[table[k]] % QPN_HASH_SIZE == k
    {
      if wanted[i] {
        var slot := qpNums[i] % QPN_HASH_SIZE;
        if table[slot] != -1 {
          assert Collide(qpNums, wanted, table[slot], i);
          return false, table;
        }
        table[slot] := i;
      }
    }
    forall i, j | 0 <= i < j < |qpNums| && wanted[i] && wanted[j] ensures !Collide(qpNums, wanted, i, j) {
      assert table[qpNums[i] % QPN_HASH_SIZE] == i;
    }
    ok := true;
  }

  function Unused(slots: nat): (table: seq<int>)
    ensures |table| == slots && forall k :: 0 <= k < slots ==> table[k] == -1
  {
    if slots == 0 then [] else Unused(slots - 1) + [-1]
  }

  /** Without a collision there is such a table. */
  lemma {:induction false} TableExists(qpNums: seq<nat>, wanted: seq<bool>) returns (table: seq<int>)
    requires |wanted| == |qpNums| && forall i, j :: !Collide(qpNums, wanted, i, j)
    ensures IsTable(table, qpNums, wanted)
  {
    if qpNums == [] {
      table := Unused(QPN_HASH_SIZE);
    } else {
      var last := |qpNums| - 1;
      forall i, j ensures !Collide(qpNums[..last], wanted[..last], i, j) {
        assert !Collide(qpNums, wanted, i, j);
      }
      table := TableExists(qpNums[..last], wanted[..last]);
      if wanted[last] {
        var slot := qpNums[last] % QPN_HASH_SIZE;
        assert !Collide(qpNums, wanted, table[slot], last);
        table := table[slot := last];
      }
    }
  }
}
