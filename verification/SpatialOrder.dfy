/** The spatial permutation: a stable counting sort over grid cells, and its inverse.  The cells are given: which
    cell a position falls into is arithmetic on coordinates. */
module SpatialOrder {
  import opened Finite

  /** People among the first m whose cell is below c, and exactly c. */
  ghost function Before(cell: seq<nat>, c: nat, m: nat): (n: nat)
    requires m <= |cell|
    ensures n <= m
  {
    if m == 0 then 0 else Before(cell, c, m - 1) + if cell[m - 1] < c then 1 else 0
  }

  ghost function Within(cell: seq<nat>, c: nat, m: nat): (n: nat)
    requires m <= |cell|
    ensures n <= m
  {
    if m == 0 then 0 else Within(cell, c, m - 1) + if cell[m - 1] == c then 1 else 0
  }

  /** Where a stable sort by cell puts person i. */
  ghost function RankOf(cell: seq<nat>, i: nat): nat
    requires i < |cell|
  {
    Before(cell, cell[i], |cell|) + Within(cell, cell[i], i)
  }

  lemma {:induction false} BeforeNext(cell: seq<nat>, c: nat, m: nat)
    requires m <= |cell|
    ensures Before(cell, c + 1, m) == Before(cell, c, m) + Within(cell, c, m)
  {
    if m > 0 { BeforeNext(cell, c, m - 1); }
  }

  lemma {:induction false} BeforeGrows(cell: seq<nat>, c: nat, d: nat, m: nat)
    requires c <= d && m <= |cell|
    ensures Before(cell, c, m) <= Before(cell, d, m)
  {
    if m > 0 { BeforeGrows(cell, c, d, m - 1); }
  }

  lemma {:induction false} WithinGrows(cell: seq<nat>, c: nat, i: nat, m: nat)
    requires i <= m <= |cell|
    ensures Within(cell, c, i) <= Within(cell, c, m)
    ensures i < m && cell[i] == c ==> Within(cell, c, i) < Within(cell, c, m)
  {
    if i < m { WithinGrows(cell, c, i, m - 1); }
  }

  /** Ranks order people by cell, and by index inside a cell. */
  lemma RankOrders(cell: seq<nat>, i: nat, j: nat)
    requires i < |cell| && j < |cell|
    ensures cell[i] < cell[j] || (cell[i] == cell[j] && i < j) ==> RankOf(cell, i) < RankOf(cell, j)
  {
    if cell[i] < cell[j] {
      WithinGrows(cell, cell[i], i, |cell|);
      BeforeNext(cell, cell[i], |cell|);
      BeforeGrows(cell, cell[i] + 1, cell[j], |cell|);
    } else if cell[i] == cell[j] && i < j {
      WithinGrows(cell, cell[i], i, j);
    }
  }

  lemma RankInRange(cell: seq<nat>, i: nat)
    requires i < |cell|
    ensures RankOf(cell, i) < |cell|
  {
    WithinGrows(cell, cell[i], i, |cell|);
    BeforeNext(cell, cell[i], |cell|);
  }

  ghost function Ranks(cell: seq<nat>): (r: seq<nat>)
    ensures |r| == |cell| && forall i :: 0 <= i < |cell| ==> r[i] == RankOf(cell, i)
  {
    seq(|cell|, i requires 0 <= i < |cell| => RankOf(cell, i))
  }

  /** r and o are inverse permutations of the people. */
  ghost predicate Inverse(r: seq<nat>, o: seq<nat>) {
    && |r| == |o|
    && (forall i :: 0 <= i < |r| ==> r[i] < |r| && o[r[i]] == i)
    && (forall p :: 0 <= p < |o| ==> o[p] < |o| && r[o[p]] == p)
  }

  ghost predicate IsRanking(r: seq<nat>) {
    Distinct(r) && forall i :: 0 <= i < |r| ==> r[i] < |r|
  }

  /** The ranks of a stable sort are a permutation, ordered by cell and then by index. */
  lemma RanksPermute(cell: seq<nat>)
    ensures IsRanking(Ranks(cell))
    ensures forall i, j :: 0 <= i < |cell| && 0 <= j < |cell| ==>
      (Ranks(cell)[i] < Ranks(cell)[j] <==> cell[i] < cell[j] || (cell[i] == cell[j] && i < j))
  {
    forall i, j | 0 <= i < |cell| && 0 <= j < |cell|
      ensures Ranks(cell)[i] < Ranks(cell)[j] <==> cell[i] < cell[j] || (cell[i] == cell[j] && i < j)
    {
      RankOrders(cell, i, j);
      RankOrders(cell, j, i);
    }
    forall i | 0 <= i < |cell| ensures Ranks(cell)[i] < |cell| {
      RankInRange(cell, i);
    }
  }

  // ---------- the loops ----------

  /** First loop: how many people each cell holds. */
  method CountCells(cell: seq<nat>, nCells: nat) returns (counts: array<nat>)
    requires forall i :: 0 <= i < |cell| ==> cell[i] < nCells
    ensures fresh(counts) && counts.Length == nCells + 1
    ensures forall c :: 0 <= c <= nCells ==> counts[c] == Within(cell, c, |cell|)
  {
    counts := new nat[nCells + 1](_ => 0);
    for i := 0 to |cell|
      invariant forall c :: 0 <= c <= nCells ==> counts[c] == Within(cell, c, i)
    {
      counts[cell[i]] := counts[cell[i]] + 1;
    }
  }

  /** Second loop: counts become starting positions. */
  method Accumulate(cell: seq<nat>, counts: array<nat>, nCells: nat)
    requires counts.Length == nCells + 1
    requires forall c :: 0 <= c <= nCells ==> counts[c] == Within(cell, c, |cell|)
    modifies counts
    ensures forall c :: 0 <= c <= nCells ==> counts[c] == Before(cell, c, |cell|)
  {
    var run := 0;
    NoneBefore(cell, |cell|);
    for c := 0 to nCells + 1
      invariant run == Before(cell, c, |cell|)
      invariant forall d :: 0 <= d < c ==> counts[d] == Before(cell, d, |cell|)
      invariant forall d :: c <= d <= nCells ==> counts[d] == Within(cell, d, |cell|)
    {
      var v := counts[c];
      counts[c] := run;
      BeforeNext(cell, c, |cell|);
      run := run + v;
    }
  }

  lemma {:induction false} NoneBefore(cell: seq<nat>, m: nat)
    requires m <= |cell|
    ensures Before(cell, 0, m) == 0
  {
    if m > 0 { NoneBefore(cell, m - 1); }
  }

  /** spatialRank, from the cells on. */
  method SpatialRank(cell: seq<nat>, nCells: nat) returns (rank: array<nat>)
    requires forall i :: 0 <= i < |cell| ==> cell[i] < nCells
    ensures fresh(rank) && rank[..] == Ranks(cell) && IsRanking(rank[..])
  {
    var counts := CountCells(cell, nCells);
    Accumulate(cell, counts, nCells);
    rank := new nat[|cell|];
    for i := 0 to |cell|
      invariant forall c :: 0 <= c <= nCells ==> counts[c] == Before(cell, c, |cell|) + Within(cell, c, i)
      invariant forall j :: 0 <= j < i ==> rank[j] == RankOf(cell, j)
    {
      rank[i] := counts[cell[i]];
      counts[cell[i]] := counts[cell[i]] + 1;
    }
    assert rank[..] == Ranks(cell);
    RanksPermute(cell);
  }

  /** A ranking hits every position. */
  lemma RankingIsOnto(r: seq<nat>, p: nat) returns (i: nat)
    requires IsRanking(r) && p < |r|
    ensures i < |r| && r[i] == p
  {
    DistinctBelow(r, |r|);
    assert p in r;
    i :| 0 <= i < |r| && r[i] == p;
  }

  lemma RightInverse(r: seq<nat>, o: seq<nat>)
    requires IsRanking(r) && |o| == |r| && forall i :: 0 <= i < |r| ==> o[r[i]] == i
    ensures Inverse(r, o)
  {
    forall p | 0 <= p < |o| ensures o[p] < |o| && r[o[p]] == p {
      var i := RankingIsOnto(r, p);
      assert o[r[i]] == i;
    }
  }

  /** rankToOrder. */
  method RankToOrder(rank: seq<nat>) returns (order: array<nat>)
    requires IsRanking(rank)
    ensures fresh(order) && Inverse(rank, order[..])
  {
    order := new nat[|rank|];
    for i := 0 to |rank|
      invariant forall j :: 0 <= j < i ==> order[rank[j]] == j
    {
      order[rank[i]] := i;
    }
    RightInverse(rank, order[..]);
  }

  // ---------- places along the order ----------

  /** Go's remainder, which takes the sign of the dividend. */
  function Rem(a: int, n: int): int
    requires n > 0
  {
    if a >= 0 then a % n else -((-a) % n)
  }

  /** The position off places into a window that starts at start, wrapping round. */
  function Wrapped(start: int, off: int, n: int): int
    requires n > 0
  {
    var p := Rem(start + off, n);
    if p < 0 then p + n else p
  }

  lemma WrappedIs(start: int, off: int, n: int)
    requires n > 0 && -n < start < n && 0 <= off < n
    ensures Wrapped(start, off, n) ==
      if start + off < 0 then start + off + n else if start + off >= n then start + off - n else start + off
  {
    var a := start + off;
    if a < 0 { SmallRem(-a, n); } else if a < n { SmallRem(a, n); } else { SmallRem(a - n, n); Shifted(a - n, n); }
  }

  lemma SmallRem(a: int, n: int)
    requires 0 <= a < n
    ensures a % n == a
  {
  }

  lemma Shifted(a: int, n: int)
    requires 0 <= a < n
    ensures (a + n) % n == a
  {
    assert a + n == 1 * n + a;
  }

  lemma WrappedInRange(start: int, off: int, n: int)
    requires n > 0
    ensures 0 <= Wrapped(start, off, n) < n
  {
  }

  lemma Quotient(q: int, r: int, n: int)
    requires 0 <= r < n
    ensures (q * n + r) % n == r
  {
    var a := q * n + r;
    var k := a / n - q;
    assert a == a / n * n + a % n;
    assert k * n == r - a % n;
    if k != 0 { Multiple(k, n); }
  }

  lemma Multiple(k: int, n: int)
    requires n > 0 && k != 0
    ensures k * n >= n || k * n <= -n
  {
    if k >= 1 { assert k * n - n == (k - 1) * n; } else { assert -(k * n) - n == (-k - 1) * n; }
  }

  /** A remainder that is corrected when it is negative is the cyclic position. */
  lemma WrappedIsCyclic(start: int, off: int, n: int)
    requires n > 0
    ensures Wrapped(start, off, n) == (start + off) % n
  {
    var a := start + off;
    if a < 0 {
      var q, r := -a / n, -a % n;
      assert a == -q * n - r;
      if r > 0 {
        assert a == (-q - 1) * n + (n - r);
        Quotient(-q - 1, n - r, n);
      } else {
        Quotient(-q, 0, n);
      }
    }
  }
}
