/** The Count-Min sketch against the exact sequence of increments since its last clear.
    The hash is any function of a key and a row. */
module CountMin {
  import opened Wrappers

  const MAX_U32: nat := 0xFFFF_FFFF

  function Min(x: nat, y: nat): nat {
    if x <= y then x else y
  }

  function Column<K>(hash: (K, nat) -> nat, width: nat, key: K, row: nat): (col: nat)
    requires width > 0
    ensures col < width
  {
    hash(key, row) % width
  }

  /** How many of the increments landed on a cell. */
  function Landed<K>(hash: (K, nat) -> nat, width: nat, keys: seq<K>, row: nat, col: nat): (n: nat)
    requires width > 0
    ensures n <= |keys|
  {
    if keys == [] then 0
    else
      var k := |keys| - 1;
      Landed(hash, width, keys[..k], row, col) + if Column(hash, width, keys[k], row) == col then 1 else 0
  }

  /** The true count of a key. */
  function Occurrences<K(==)>(keys: seq<K>, key: K): nat {
    multiset(keys)[key]
  }

  /** A cell, whose `u32` saturates. */
  function Cell<K>(hash: (K, nat) -> nat, width: nat, keys: seq<K>, row: nat, col: nat): nat
    requires width > 0
  {
    Min(MAX_U32, Landed(hash, width, keys, row, col))
  }

  /** The least cell of a key over the first `depth` rows. */
  function LeastCell<K>(hash: (K, nat) -> nat, width: nat, depth: nat, keys: seq<K>, key: K): nat
    requires width > 0 && depth > 0
  {
    var cell := Cell(hash, width, keys, depth - 1, Column(hash, width, key, depth - 1));
    if depth == 1 then cell else Min(LeastCell(hash, width, depth - 1, keys, key), cell)
  }

  /** What the sketch answers for a key: zero if it has no rows. */
  function EstimateOf<K>(hash: (K, nat) -> nat, width: nat, depth: nat, keys: seq<K>, key: K): nat
    requires depth == 0 || width > 0
  {
    if depth == 0 then 0 else LeastCell(hash, width, depth, keys, key)
  }

  class CountMinSketch<K> {
    const depth: nat
    const width: nat
    const hash: (K, nat) -> nat
    const table: array2<nat>
    ghost var keys: seq<K>  // the increments since the last clear

    ghost predicate Valid()
      reads this, table
    {
      && table.Length0 == depth && table.Length1 == width && (depth == 0 || width > 0)
      && forall row, col :: 0 <= row < depth && 0 <= col < width ==>
           table[row, col] == Cell(hash, width, keys, row, col)
    }

    constructor (width: nat, depth: nat, hash: (K, nat) -> nat)
      requires depth == 0 || width > 0
      ensures Valid() && keys == [] && fresh(table)
      ensures this.width == width && this.depth == depth && this.hash == hash
    {
      this.width, this.depth, this.hash := width, depth, hash;
      table := new nat[depth, width]((r, c) => 0);
      keys := [];
    }

    /** Count a key: one saturating increment in each row. */
    method Increment(key: K)
      requires Valid()
      modifies this, table
      ensures Valid() && keys == old(keys) + [key]
    {
      ghost var more := keys + [key];
      assert more[..|keys|] == keys;
      for row := 0 to depth
        invariant keys == old(keys)
        invariant forall r, c :: 0 <= r < row && 0 <= c < width ==> table[r, c] == Cell(hash, width, more, r, c)
        invariant forall r, c :: row <= r < depth && 0 <= c < width ==> table[r, c] == Cell(hash, width, keys, r, c)
      {
        var col := Column(hash, width, key, row);
        table[row, col] := if table[row, col] < MAX_U32 then table[row, col] + 1 else MAX_U32;
      }
      keys := more;
    }

    method Estimate(key: K) returns (estimate: nat)
      requires Valid()
      ensures estimate == EstimateOf(hash, width, depth, keys, key)
    {
      var least: Option<nat> := None;
      for row := 0 to depth
        invariant row == 0 ==> least == None
        invariant row > 0 ==> least == Some(LeastCell(hash, width, row, keys, key))
      {
        var cell := table[row, Column(hash, width, key, row)];
        least := if least.None? then Some(cell) else Some(Min(least.value, cell));
      }
      estimate := if least.Some? then least.value else 0;
    }

    method Clear()
      requires Valid()
      modifies this, table
      ensures Valid() && keys == []
    {
      for row := 0 to depth
        invariant forall r, c :: 0 <= r < row && 0 <= c < width ==> table[r, c] == 0
      {
        for col := 0 to width
          invariant forall r, c :: 0 <= r < row && 0 <= c < width ==> table[r, c] == 0
          invariant forall c :: 0 <= c < col ==> table[row, c] == 0
        {
          table[row, col] := 0;
        }
      }
      keys := [];
    }
  }

  // ---- How far the estimate is from the true count ----

  lemma {:induction false} OccurrencesLand<K>(hash: (K, nat) -> nat, width: nat, keys: seq<K>, key: K, row: nat)
    requires width > 0
    ensures Occurrences(keys, key) <= Landed(hash, width, keys, row, Column(hash, width, key, row))
  {
    if keys != [] {
      var k := |keys| - 1;
      OccurrencesLand(hash, width, keys[..k], key, row);
      assert keys == keys[..k] + [keys[k]];
    }
  }

  lemma {:induction false} LeastCellBounds<K>(hash: (K, nat) -> nat, width: nat, depth: nat, keys: seq<K>, key: K)
    requires width > 0 && depth > 0
    ensures Min(MAX_U32, Occurrences(keys, key)) <= LeastCell(hash, width, depth, keys, key) <= Min(MAX_U32, |keys|)
  {
    OccurrencesLand(hash, width, keys, key, depth - 1);
    if depth > 1 { LeastCellBounds(hash, width, depth - 1, keys, key); }
  }

  /** The estimate lies between the true count (up to saturation) and the number of all
      increments. So it never undercounts exactly as long as the true count fits a cell;
      the source's comment promises it without that condition. */
  lemma NeverUndercountsExactlyWhen<K>(hash: (K, nat) -> nat, width: nat, depth: nat, keys: seq<K>, key: K)
    requires depth == 0 || width > 0
    ensures var estimate, count := EstimateOf(hash, width, depth, keys, key), Occurrences(keys, key);
            && (depth > 0 ==> Min(MAX_U32, count) <= estimate)
            && estimate <= Min(MAX_U32, |keys|)
            && (estimate >= count <==> count == 0 || (depth > 0 && count <= MAX_U32))
  {
    if depth > 0 { LeastCellBounds(hash, width, depth, keys, key); }
  }

  lemma {:induction false} OccurrencesOfRepeats<K>(key: K, n: nat)
    ensures Occurrences(seq(n, (i: nat) => key), key) == n
  {
    var keys := seq(n, (i: nat) => key);
    if n == 0 {
      assert keys == [];
    } else {
      OccurrencesOfRepeats(key, n - 1);
      assert keys == seq(n - 1, (i: nat) => key) + [key];
    }
  }

  /** The comment's promise fails once a key's cells saturate: after 2^32 increments of one
      key the sketch, of whatever size and hash, answers less. */
  lemma SaturatedUndercounts<K>(hash: (K, nat) -> nat, width: nat, depth: nat, key: K)
    requires depth == 0 || width > 0
    ensures var keys := seq(MAX_U32 + 1, (i: nat) => key);
            EstimateOf(hash, width, depth, keys, key) < Occurrences(keys, key) == MAX_U32 + 1
  {
    OccurrencesOfRepeats(key, MAX_U32 + 1);
    NeverUndercountsExactlyWhen(hash, width, depth, seq(MAX_U32 + 1, (i: nat) => key), key);
  }

  // ---- Which count the estimate is ----

  /** The increments that share the key's column in a row. */
  function Sharing<K(!new)>(hash: (K, nat) -> nat, width: nat, keys: seq<K>, row: nat, key: K): set<nat>
    requires width > 0
  {
    set k | 0 <= k < |keys| && hash(keys[k], row) % width == hash(key, row) % width
  }

  /** They are what landed on the key's cell. */
  lemma {:induction false} LandedIsSharing<K(!new)>(hash: (K, nat) -> nat, width: nat, keys: seq<K>, row: nat, key: K)
    requires width > 0
    ensures Landed(hash, width, keys, row, Column(hash, width, key, row)) == |Sharing(hash, width, keys, row, key)|
  {
    if keys != [] {
      var k := |keys| - 1;
      LandedIsSharing(hash, width, keys[..k], row, key);
      var last := if hash(keys[k], row) % width == hash(key, row) % width then {k} else {};
      assert Sharing(hash, width, keys, row, key) == Sharing(hash, width, keys[..k], row, key) + last;
    }
  }

  lemma {:induction false} LeastCellIsLeast<K>(hash: (K, nat) -> nat, width: nat, depth: nat, keys: seq<K>, key: K)
    returns (row: nat)
    requires width > 0 && depth > 0
    ensures row < depth
    ensures LeastCell(hash, width, depth, keys, key) == Cell(hash, width, keys, row, Column(hash, width, key, row))
    ensures forall r :: 0 <= r < depth ==>
              LeastCell(hash, width, depth, keys, key) <= Cell(hash, width, keys, r, Column(hash, width, key, r))
  {
    row := depth - 1;
    if depth > 1 {
      var before := LeastCellIsLeast(hash, width, depth - 1, keys, key);
      if LeastCell(hash, width, depth - 1, keys, key) <=
         Cell(hash, width, keys, depth - 1, Column(hash, width, key, depth - 1)) { row := before; }
    }
  }

  /** The estimate is at most the number of increments that share the key's column, in every
      row, and in some row it is that number, up to 2^32 - 1. */
  lemma EstimateIsLeastSharing<K(!new)>(hash: (K, nat) -> nat, width: nat, depth: nat, keys: seq<K>, key: K)
    returns (row: nat)
    requires width > 0 && depth > 0
    ensures forall r :: 0 <= r < depth ==>
              EstimateOf(hash, width, depth, keys, key) <= |Sharing(hash, width, keys, r, key)|
    ensures row < depth
    ensures var n := |Sharing(hash, width, keys, row, key)|;
            EstimateOf(hash, width, depth, keys, key) == if n <= 0xFFFF_FFFF then n else 0xFFFF_FFFF
  {
    row := LeastCellIsLeast(hash, width, depth, keys, key);
    LandedIsSharing(hash, width, keys, row, key);
    forall r | 0 <= r < depth
      ensures EstimateOf(hash, width, depth, keys, key) <= |Sharing(hash, width, keys, r, key)|
    {
      LandedIsSharing(hash, width, keys, r, key);
    }
  }

  lemma {:induction false} UnsharedIsTrue<K>(hash: (K, nat) -> nat, width: nat, keys: seq<K>, row: nat, key: K)
    requires width > 0
    requires forall k :: 0 <= k < |keys| && keys[k] != key ==> hash(keys[k], row) % width != hash(key, row) % width
    ensures Landed(hash, width, keys, row, Column(hash, width, key, row)) == Occurrences(keys, key)
  {
    if keys != [] {
      var k := |keys| - 1;
      UnsharedIsTrue(hash, width, keys[..k], row, key);
      assert keys == keys[..k] + [keys[k]];
    }
  }

  /** If in some row no other key shares the key's column, the estimate is the true count, up
      to 2^32 - 1. */
  lemma ExactIfUnshared<K(!new)>(hash: (K, nat) -> nat, width: nat, depth: nat, keys: seq<K>, key: K, row: nat)
    requires width > 0 && row < depth
    requires forall k :: 0 <= k < |keys| && keys[k] != key ==> hash(keys[k], row) % width != hash(key, row) % width
    ensures var count := Occurrences(keys, key);
            EstimateOf(hash, width, depth, keys, key) == if count <= 0xFFFF_FFFF then count else 0xFFFF_FFFF
  {
    UnsharedIsTrue(hash, width, keys, row, key);
    LeastCellBounds(hash, width, depth, keys, key);
    var r := LeastCellIsLeast(hash, width, depth, keys, key);
  }

  // ---- A row's total, and how many heavy cells it can have ----

  /** How many of a row's first `cols` cells hold `c` or more. */
  function HeavyCells<K>(hash: (K, nat) -> nat, width: nat, keys: seq<K>, row: nat, c: nat, cols: nat): nat
    requires width > 0
  {
    if cols == 0 then 0
    else HeavyCells(hash, width, keys, row, c, cols - 1) + if Cell(hash, width, keys, row, cols - 1) >= c then 1 else 0
  }

  function RowSum<K>(hash: (K, nat) -> nat, width: nat, keys: seq<K>, row: nat, cols: nat): nat
    requires width > 0
  {
    if cols == 0 then 0 else RowSum(hash, width, keys, row, cols - 1) + Landed(hash, width, keys, row, cols - 1)
  }

  lemma {:induction false} RowSumStep<K>(hash: (K, nat) -> nat, width: nat, keys: seq<K>, row: nat, cols: nat)
    requires width > 0 && keys != []
    ensures var k := |keys| - 1;
            RowSum(hash, width, keys, row, cols) ==
            RowSum(hash, width, keys[..k], row, cols) + if Column(hash, width, keys[k], row) < cols then 1 else 0
  {
    if cols > 0 { RowSumStep(hash, width, keys, row, cols - 1); }
  }

  /** Each increment lands on exactly one cell of a row. */
  lemma {:induction false} RowConserves<K>(hash: (K, nat) -> nat, width: nat, keys: seq<K>, row: nat)
    requires width > 0
    ensures RowSum(hash, width, keys, row, width) == |keys|
  {
    if keys == [] {
      EmptyRow(hash, width, row, width);
    } else {
      RowSumStep(hash, width, keys, row, width);
      RowConserves(hash, width, keys[..|keys| - 1], row);
    }
  }

  lemma {:induction false} EmptyRow<K>(hash: (K, nat) -> nat, width: nat, row: nat, cols: nat)
    requires width > 0
    ensures RowSum<K>(hash, width, [], row, cols) == 0
  {
    if cols > 0 { EmptyRow<K>(hash, width, row, cols - 1); }
  }

  /** One more cell: heavy if it adds `c` or more to the sum. */
  lemma HeavyStep(c: nat, heavy: nat, sum: nat, landed: nat, counts: bool)
    requires c * heavy <= sum && (counts ==> landed >= c)
    ensures c * (if counts then heavy + 1 else heavy) <= sum + landed
  {
    assert c * (heavy + 1) == c * heavy + c;
  }

  lemma {:induction false} HeavyBelowSum<K>(hash: (K, nat) -> nat, width: nat, keys: seq<K>, row: nat, c: nat,
                                            cols: nat)
    requires width > 0
    ensures c * HeavyCells(hash, width, keys, row, c, cols) <= RowSum(hash, width, keys, row, cols)
  {
    if cols > 0 {
      HeavyBelowSum(hash, width, keys, row, c, cols - 1);
      HeavyStep(c, HeavyCells(hash, width, keys, row, c, cols - 1), RowSum(hash, width, keys, row, cols - 1),
                Landed(hash, width, keys, row, cols - 1), Cell(hash, width, keys, row, cols - 1) >= c);
    }
  }

  /** At most total / c cells of a row hold `c` or more. */
  lemma FewHeavyCells<K>(hash: (K, nat) -> nat, width: nat, keys: seq<K>, row: nat, c: nat)
    requires width > 0
    ensures c * HeavyCells(hash, width, keys, row, c, width) <= |keys|
  {
    HeavyBelowSum(hash, width, keys, row, c, width);
    RowConserves(hash, width, keys, row);
  }

  // ---- A shard's sketch against the whole ----

  lemma {:induction false} LandedOfConcat<K>(hash: (K, nat) -> nat, width: nat, a: seq<K>, b: seq<K>, row: nat,
                                             col: nat)
    requires width > 0
    ensures Landed(hash, width, a + b, row, col) == Landed(hash, width, a, row, col) + Landed(hash, width, b, row, col)
  {
    if b == [] {
      assert a + b == a;
    } else {
      assert (a + b)[..|a + b| - 1] == a + b[..|b| - 1];
      LandedOfConcat(hash, width, a, b[..|b| - 1], row, col);
    }
  }

  lemma LandedWithout<K>(hash: (K, nat) -> nat, width: nat, all: seq<K>, i: nat, row: nat, col: nat)
    requires width > 0 && i < |all|
    ensures var rest := all[..i] + all[i + 1..];
            Landed(hash, width, all, row, col) ==
            Landed(hash, width, rest, row, col) + if Column(hash, width, all[i], row) == col then 1 else 0
  {
    assert all == all[..i] + ([all[i]] + all[i + 1..]);
    LandedOfConcat(hash, width, all[..i], [all[i]] + all[i + 1..], row, col);
    LandedOfConcat(hash, width, [all[i]], all[i + 1..], row, col);
    LandedOfConcat(hash, width, all[..i], all[i + 1..], row, col);
    assert [all[i]][..0] == [];
  }

  lemma MultisetWithout<K>(all: seq<K>, i: nat)
    requires i < |all|
    ensures multiset(all) == multiset(all[..i] + all[i + 1..]) + multiset{all[i]}
  {
    assert all == all[..i] + [all[i]] + all[i + 1..];
  }

  /** Fewer increments, in whatever order, never land more often on a cell. */
  lemma {:induction false} LandedMonotone<K>(hash: (K, nat) -> nat, width: nat, part: seq<K>, all: seq<K>, row: nat,
                                             col: nat)
    requires width > 0 && multiset(part) <= multiset(all)
    ensures Landed(hash, width, part, row, col) <= Landed(hash, width, all, row, col)
  {
    if part != [] {
      var k := |part| - 1;
      MultisetWithout(part, k);
      assert part[..k] + part[k + 1..] == part[..k];
      assert part[k] in multiset(all);
      var i :| 0 <= i < |all| && all[i] == part[k];
      MultisetWithout(all, i);
      assert multiset(part[..k]) == multiset(part) - multiset{part[k]};
      assert multiset(all[..i] + all[i + 1..]) == multiset(all) - multiset{part[k]};
      LandedMonotone(hash, width, part[..k], all[..i] + all[i + 1..], row, col);
      LandedWithout(hash, width, all, i, row, col);
    }
  }

  lemma {:induction false} LeastCellMonotone<K>(hash: (K, nat) -> nat, width: nat, depth: nat, part: seq<K>,
                                                all: seq<K>, key: K)
    requires width > 0 && depth > 0 && multiset(part) <= multiset(all)
    ensures LeastCell(hash, width, depth, part, key) <= LeastCell(hash, width, depth, all, key)
  {
    LandedMonotone(hash, width, part, all, depth - 1, Column(hash, width, key, depth - 1));
    if depth > 1 { LeastCellMonotone(hash, width, depth - 1, part, all, key); }
  }

  /** A sketch fed part of the increments, as one shard is, never estimates above the
      sketch fed all of them; and the order of the increments does not matter. */
  lemma ShardNeverEstimatesHigher<K>(hash: (K, nat) -> nat, width: nat, depth: nat, part: seq<K>, all: seq<K>, key: K)
    requires (depth == 0 || width > 0) && multiset(part) <= multiset(all)
    ensures EstimateOf(hash, width, depth, part, key) <= EstimateOf(hash, width, depth, all, key)
    ensures multiset(part) == multiset(all) ==>
              EstimateOf(hash, width, depth, part, key) == EstimateOf(hash, width, depth, all, key)
  {
    if depth > 0 {
      LeastCellMonotone(hash, width, depth, part, all, key);
      if multiset(part) == multiset(all) { LeastCellMonotone(hash, width, depth, all, part, key); }
    }
  }
}
