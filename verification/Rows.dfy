/** Each row of the adjacency array is sorted and deduplicated in place, which is what makes the graph
    independent of the order pass 2 filled it in. */
module Rows {

  ghost predicate Sorted(s: seq<nat>) {
    forall i, j :: 0 <= i < j < |s| ==> s[i] <= s[j]
  }

  ghost predicate Increasing(s: seq<nat>) {
    forall i, j :: 0 <= i < j < |s| ==> s[i] < s[j]
  }

  /** Both hold the same values. */
  ghost predicate SameElems(a: seq<nat>, b: seq<nat>) {
    forall v: nat :: v in a <==> v in b
  }

  lemma IncreasingLast(s: seq<nat>, v: nat)
    requires Increasing(s) && v in s
    ensures |s| > 0 && v <= s[|s| - 1] && (v in s[..|s| - 1] <==> v != s[|s| - 1])
  {
    var k :| 0 <= k < |s| && s[k] == v;
    if k < |s| - 1 {
      assert s[k] < s[|s| - 1] && s[..|s| - 1][k] == v;
    }
  }

  lemma FirstIn(s: seq<nat>)
    requires |s| > 0
    ensures exists v: nat :: v in s
  {
    assert s[0] in s;
  }

  /** A strictly increasing sequence is determined by its elements. */
  lemma {:induction false} IncreasingIsUnique(a: seq<nat>, b: seq<nat>)
    requires Increasing(a) && Increasing(b) && SameElems(a, b)
    ensures a == b
    decreases |a|
  {
    if |a| == 0 {
      if |b| > 0 { FirstIn(b); }
    } else {
      var x := a[|a| - 1];
      assert x in a && x in b;
      var y := b[|b| - 1];
      assert y in b && y in a;
      IncreasingLast(b, x);
      IncreasingLast(a, y);
      var ia, ib := a[..|a| - 1], b[..|b| - 1];
      forall v: nat ensures v in ia <==> v in ib {
        if v in a { IncreasingLast(a, v); IncreasingLast(b, v); }
      }
      IncreasingIsUnique(ia, ib);
      assert a == ia + [x] && b == ib + [y];
    }
  }

  // ---------- insertionSort ----------

  ghost function InsertLast(s: seq<nat>, v: nat): seq<nat> {
    if |s| == 0 || s[|s| - 1] <= v then s + [v]
    else InsertLast(s[..|s| - 1], v) + [s[|s| - 1]]
  }

  ghost function SortOf(s: seq<nat>): seq<nat> {
    if |s| == 0 then [] else InsertLast(SortOf(s[..|s| - 1]), s[|s| - 1])
  }

  lemma {:induction false} InsertLastSame(s: seq<nat>, v: nat)
    ensures multiset(InsertLast(s, v)) == multiset(s) + multiset{v}
  {
    if |s| > 0 && s[|s| - 1] > v {
      InsertLastSame(s[..|s| - 1], v);
      assert s == s[..|s| - 1] + [s[|s| - 1]];
    }
  }

  lemma {:induction false} InsertLastSorted(s: seq<nat>, v: nat)
    requires Sorted(s)
    ensures Sorted(InsertLast(s, v))
  {
    if |s| > 0 && s[|s| - 1] > v {
      var init, last := s[..|s| - 1], s[|s| - 1];
      InsertLastSorted(init, v);
      InsertLastSame(init, v);
      var t := InsertLast(init, v);
      forall k | 0 <= k < |t| ensures t[k] <= last {
        assert t[k] in multiset(t);
        assert t[k] in init || t[k] == v;
      }
    }
  }

  lemma {:induction false} SortOfSorts(s: seq<nat>)
    ensures Sorted(SortOf(s)) && multiset(SortOf(s)) == multiset(s)
  {
    if |s| > 0 {
      SortOfSorts(s[..|s| - 1]);
      InsertLastSorted(SortOf(s[..|s| - 1]), s[|s| - 1]);
      InsertLastSame(SortOf(s[..|s| - 1]), s[|s| - 1]);
      assert s == s[..|s| - 1] + [s[|s| - 1]];
    }
  }

  /** Where the inner loop stands: the elements above the gap at j have moved up by one. */
  ghost predicate Shifting(was: seq<nat>, now: seq<nat>, lo: nat, i: nat, j: nat) {
    && lo <= j <= i < |was| == |now|
    && now[..j] == was[..j] && now[j + 1..i + 1] == was[j..i] && now[i + 1..] == was[i + 1..]
    && forall q :: j <= q < i ==> was[q] > was[i]
  }

  lemma ShiftStep(was: seq<nat>, now: seq<nat>, lo: nat, i: nat, j: nat)
    requires Shifting(was, now, lo, i, j) && j > lo && now[j - 1] > was[i]
    ensures Shifting(was, now[j := now[j - 1]], lo, i, j - 1)
  {
    var next := now[j := now[j - 1]];
    assert now[..j][j - 1] == was[..j][j - 1];
    assert next[..j - 1] == now[..j][..j - 1];
    assert was[..j - 1] == was[..j][..j - 1];
    assert next[j..i + 1] == [now[j - 1]] + now[j + 1..i + 1];
    assert was[j - 1..i] == [was[j - 1]] + was[j..i];
    assert next[i + 1..] == now[i + 1..];
  }

  lemma ShiftDone(was: seq<nat>, now: seq<nat>, lo: nat, i: nat, j: nat)
    requires Shifting(was, now, lo, i, j) && (j > lo ==> now[j - 1] <= was[i])
    ensures now[j := was[i]] == was[..lo] + InsertLast(was[lo..i], was[i]) + was[i + 1..]
  {
    var row, k, v := was[lo..i], j - lo, was[i];
    assert j > lo ==> now[..j][j - 1] == was[..j][j - 1];
    InsertLastAt(row, k, v);
    GapFilled(was, now, lo, i, j);
  }

  lemma GapFilled(was: seq<nat>, now: seq<nat>, lo: nat, i: nat, j: nat)
    requires lo <= j <= i < |was| == |now|
    requires now[..j] == was[..j] && now[j + 1..i + 1] == was[j..i] && now[i + 1..] == was[i + 1..]
    ensures now[j := was[i]]
         == was[..lo] + (was[lo..i][..j - lo] + [was[i]] + was[lo..i][j - lo..]) + was[i + 1..]
  {
    assert now[j := was[i]] == now[..j] + [was[i]] + now[j + 1..i + 1] + now[i + 1..];
    assert was[..j] == was[..lo] + was[lo..i][..j - lo];
    assert was[j..i] == was[lo..i][j - lo..];
  }

  /** The inner loop: a[i] is moved down past the larger elements of a[lo..i]. */
  method Insert(a: array<nat>, lo: nat, i: nat)
    requires lo <= i < a.Length
    modifies a
    ensures a[..] == old(a[..lo] + InsertLast(a[lo..i], a[i]) + a[i + 1..])
  {
    ghost var was := a[..];
    var v := a[i];
    var j: nat := i;
    while j > lo && a[j - 1] > v
      invariant Shifting(was, a[..], lo, i, j)
    {
      ShiftStep(was, a[..], lo, i, j);
      a[j] := a[j - 1];
      j := j - 1;
    }
    ShiftDone(was, a[..], lo, i, j);
    a[j] := v;
  }

  lemma {:induction false} InsertLastAt(row: seq<nat>, k: nat, v: nat)
    requires k <= |row| && (k > 0 ==> row[k - 1] <= v)
    requires forall q :: k <= q < |row| ==> row[q] > v
    ensures InsertLast(row, v) == row[..k] + [v] + row[k..]
  {
    if k == |row| {
      assert row[..k] == row;
    } else {
      InsertLastAt(row[..|row| - 1], k, v);
      assert row[..|row| - 1][..k] == row[..k];
    }
  }

  /** Where the outer loop stands: a[lo..i] is sorted, the rest is untouched. */
  ghost predicate Sorting(was: seq<nat>, now: seq<nat>, lo: nat, i: nat) {
    lo <= i <= |was| && now == was[..lo] + SortOf(was[lo..i]) + was[i..]
  }

  lemma SortOfSize(s: seq<nat>)
    ensures |SortOf(s)| == |s|
  {
    SortOfSorts(s);
    assert |multiset(s)| == |s| && |multiset(SortOf(s))| == |SortOf(s)|;
  }

  lemma SortStep(was: seq<nat>, now: seq<nat>, lo: nat, i: nat)
    requires Sorting(was, now, lo, i) && i < |was|
    ensures |now| == |was|
    ensures Sorting(was, now[..lo] + InsertLast(now[lo..i], now[i]) + now[i + 1..], lo, i + 1)
  {
    SortOfSize(was[lo..i]);
    assert now[..lo] == was[..lo] && now[lo..i] == SortOf(was[lo..i]) && now[i] == was[i];
    assert now[i + 1..] == was[i + 1..];
    assert was[lo..i + 1][..i - lo] == was[lo..i];
  }

  lemma SortNone(was: seq<nat>, lo: nat)
    requires lo <= |was|
    ensures Sorting(was, was, lo, lo)
  {
  }

  lemma SortFirst(was: seq<nat>, lo: nat)
    requires lo < |was|
    ensures Sorting(was, was, lo, lo + 1)
  {
    assert was[lo..lo + 1] == [was[lo]] && was[lo..lo + 1][..0] == [];
  }

  /** The outer loop, on the slice a[lo..hi]. */
  method InsertionSort(a: array<nat>, lo: nat, hi: nat)
    requires lo <= hi <= a.Length
    modifies a
    ensures Sorting(old(a[..]), a[..], lo, hi)
  {
    ghost var was := a[..];
    SortNone(was, lo);
    if lo == hi { return; }
    hide InsertLast, SortOf;
    var i := lo + 1;
    SortFirst(was, lo);
    while i < hi
      invariant lo < i <= hi && Sorting(was, a[..], lo, i)
    {
      SortStep(was, a[..], lo, i);
      Insert(a, lo, i);
      i := i + 1;
    }
  }

  // ---------- deduplication ----------

  ghost function DedupStep(d: seq<nat>, v: nat, self: nat): seq<nat> {
    if v == self || (|d| > 0 && d[|d| - 1] == v) then d else d + [v]
  }

  ghost function Deduped(s: seq<nat>, self: nat): seq<nat> {
    if |s| == 0 then [] else DedupStep(Deduped(s[..|s| - 1], self), s[|s| - 1], self)
  }

  /** d lists the values of s other than self, in increasing order and once each. */
  ghost predicate OthersOnce(d: seq<nat>, s: seq<nat>, self: nat) {
    |d| <= |s| && Increasing(d) && forall x: nat :: x in d <==> x in s && x != self
  }

  lemma {:induction false} DedupedIs(s: seq<nat>, self: nat)
    requires Sorted(s)
    ensures OthersOnce(Deduped(s, self), s, self)
  {
    if |s| > 0 {
      var init, v := s[..|s| - 1], s[|s| - 1];
      DedupedIs(init, self);
      DedupedAppend(init, Deduped(init, self), v, self);
      assert s == init + [v];
    }
  }

  lemma IncreasingAppend(d: seq<nat>, v: nat)
    requires Increasing(d) && (|d| > 0 ==> d[|d| - 1] < v)
    ensures Increasing(d + [v])
  {
    forall k | 0 <= k < |d| ensures d[k] < v {
      assert k < |d| - 1 ==> d[k] < d[|d| - 1];
    }
  }

  lemma DedupedAppend(init: seq<nat>, d: seq<nat>, v: nat, self: nat)
    requires forall k :: 0 <= k < |init| ==> init[k] <= v
    requires OthersOnce(d, init, self)
    ensures OthersOnce(DedupStep(d, v, self), init + [v], self)
  {
    if |d| > 0 {
      assert d[|d| - 1] in d && d[|d| - 1] in init;
    }
    if v != self && !(|d| > 0 && d[|d| - 1] == v) {
      IncreasingAppend(d, v);
    }
  }

  /** Where the compaction loop stands: kept so far, not yet read, and everything outside the row. */
  ghost predicate Compacting(was: seq<nat>, now: seq<nat>, lo: nat, hi: nat, self: nat, m: nat, r: nat) {
    && lo <= r <= hi <= |was| == |now| && lo + m <= r
    && now[lo..lo + m] == Deduped(was[lo..r], self)
    && now[..lo] == was[..lo] && now[r..] == was[r..]
  }

  lemma CompactKeep(was: seq<nat>, now: seq<nat>, lo: nat, hi: nat, self: nat, m: nat, r: nat)
    requires Compacting(was, now, lo, hi, self, m, r) && r < hi
    requires now[r] != self && !(m > 0 && now[lo + m - 1] == now[r])
    ensures Compacting(was, now[lo + m := now[r]], lo, hi, self, m + 1, r + 1)
  {
    var v := now[r];
    assert now[r..][0] == was[r..][0];
    assert was[lo..r + 1] == was[lo..r] + [v];
    assert m > 0 ==> now[lo..lo + m][m - 1] == now[lo + m - 1];
    DedupedSnoc(was[lo..r], v, self);
    var next := now[lo + m := v];
    assert next[lo..lo + m + 1] == now[lo..lo + m] + [v];
    assert next[r + 1..] == now[r..][1..];
    assert was[r + 1..] == was[r..][1..];
  }

  lemma CompactSkip(was: seq<nat>, now: seq<nat>, lo: nat, hi: nat, self: nat, m: nat, r: nat)
    requires Compacting(was, now, lo, hi, self, m, r) && r < hi
    requires now[r] == self || (m > 0 && now[lo + m - 1] == now[r])
    ensures Compacting(was, now, lo, hi, self, m, r + 1)
  {
    var v := now[r];
    assert now[r..][0] == was[r..][0];
    assert was[lo..r + 1] == was[lo..r] + [v];
    assert m > 0 ==> now[lo..lo + m][m - 1] == now[lo + m - 1];
    DedupedSnoc(was[lo..r], v, self);
    assert now[r + 1..] == now[r..][1..];
    assert was[r + 1..] == was[r..][1..];
  }

  lemma DedupedSnoc(s: seq<nat>, v: nat, self: nat)
    ensures Deduped(s + [v], self) == DedupStep(Deduped(s, self), v, self)
  {
    assert (s + [v])[..|s|] == s;
  }

  /** The compaction loop: keeps the first copy of each value other than self, writing over the row it reads. */
  method Dedup(a: array<nat>, lo: nat, hi: nat, self: nat) returns (m: nat)
    requires lo <= hi <= a.Length
    modifies a
    ensures Compacting(old(a[..]), a[..], lo, hi, self, m, hi)
  {
    m := 0;
    ghost var was := a[..];
    var r := lo;
    while r < hi
      invariant Compacting(was, a[..], lo, hi, self, m, r)
    {
      var v := a[r];
      if v == self || (m > 0 && a[lo + m - 1] == v) {
        CompactSkip(was, a[..], lo, hi, self, m, r);
      } else {
        CompactKeep(was, a[..], lo, hi, self, m, r);
        a[lo + m] := v;
        m := m + 1;
      }
      r := r + 1;
    }
  }
}
