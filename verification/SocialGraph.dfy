/** The finished graph: what the rows hold, why the schedule of pass 2 does not show, and the edge count. */
module SocialGraph {
  import opened Placement
  import opened Rows

  ghost predicate Layout(off: seq<nat>, size: nat) {
    && |off| > 0 && forall u, v :: 0 <= u <= v < |off| ==> off[u] <= off[v] <= size
  }

  ghost function FinalRow(adj: seq<nat>, off: seq<nat>, u: nat): seq<nat>
    requires u + 1 < |off| && Layout(off, |adj|)
  {
    Deduped(SortOf(adj[off[u]..off[u + 1]]), u)
  }

  ghost function FinalRows(adj: seq<nat>, off: seq<nat>): (rows: seq<seq<nat>>)
    requires Layout(off, |adj|)
    ensures |rows| == |off| - 1
  {
    seq(|off| - 1, u requires 0 <= u < |off| - 1 => FinalRow(adj, off, u))
  }

  ghost function DegreeSum(rows: seq<seq<nat>>, m: nat): nat
    requires m <= |rows|
  {
    if m == 0 then 0 else DegreeSum(rows, m - 1) + |rows[m - 1]|
  }

  // ---------- the last parallel loop of BuildGraph ----------

  ghost predicate RowFinished(now: seq<nat>, off: seq<nat>, end: nat, row: seq<nat>, u: nat)
    requires u + 1 < |off|
  {
    off[u] <= end <= off[u + 1] <= |now| && now[off[u]..end] == row
  }

  /** The first |end| rows hold their final contents and the rest of the array is untouched. */
  ghost predicate Finishing(was: seq<nat>, now: seq<nat>, off: seq<nat>, end: seq<nat>, rows: seq<seq<nat>>)
    requires |rows| + 1 == |off| && |end| <= |rows|
  {
    && |now| == |was| && off[|end|] <= |now| && now[off[|end|]..] == was[off[|end|]..]
    && forall u :: 0 <= u < |end| ==> RowFinished(now, off, end[u], rows[u], u) && off[u + 1] <= off[|end|]
  }

  /** The slice lo..hi now starts with row; nothing outside it changed. */
  ghost predicate RowReplaced(now: seq<nat>, next: seq<nat>, lo: nat, hi: nat, row: seq<nat>) {
    && lo + |row| <= hi <= |now| == |next|
    && next[lo..lo + |row|] == row
    && next[..lo] == now[..lo] && next[hi..] == now[hi..]
  }

  /** One row: sort, then deduplicate and drop self. */
  method FinishRow(a: array<nat>, lo: nat, hi: nat, self: nat) returns (m: nat)
    requires lo <= hi <= a.Length
    modifies a
    ensures var row := Deduped(SortOf(old(a[lo..hi])), self);
      m == |row| && RowReplaced(old(a[..]), a[..], lo, hi, row)
  {
    ghost var was := a[..];
    assert was[lo..hi] == a[lo..hi];
    InsertionSort(a, lo, hi);
    SortedSlice(was, a[..], lo, hi);
    m := Dedup(a, lo, hi, self);
  }

  lemma SortedSlice(was: seq<nat>, now: seq<nat>, lo: nat, hi: nat)
    requires lo <= hi <= |was| && Sorting(was, now, lo, hi)
    ensures |now| == |was| && now[..lo] == was[..lo] && now[lo..hi] == SortOf(was[lo..hi]) && now[hi..] == was[hi..]
  {
    SortOfSize(was[lo..hi]);
  }

  lemma FinishStep(was: seq<nat>, now: seq<nat>, next: seq<nat>, off: seq<nat>, end: seq<nat>, rows: seq<seq<nat>>)
    requires |rows| + 1 == |off| && |end| < |rows| && Finishing(was, now, off, end, rows)
    requires RowReplaced(now, next, off[|end|], off[|end| + 1], rows[|end|])
    ensures Finishing(was, next, off, end + [off[|end|] + |rows[|end|]|], rows)
  {
    hide RowFinished;
    var m := |end|;
    var lo, hi := off[m], off[m + 1];
    var end' := end + [lo + |rows[m]|];
    SameTail(now, was, lo, hi);
    RowJustFinished(now, next, off, rows[m], m);
    forall u | 0 <= u < |end'| ensures RowFinished(next, off, end'[u], rows[u], u) && off[u + 1] <= hi {
      if u < m {
        assert RowFinished(now, off, end[u], rows[u], u) && off[u + 1] <= lo;
        RowStaysFinished(now, next, off, end[u], rows[u], u, lo, hi, rows[m]);
        assert end'[u] == end[u];
      } else {
        assert end'[u] == lo + |rows[m]|;
      }
    }
    assert |end'| == m + 1;
    assert Finishing(was, next, off, end', rows);
  }

  lemma SameTail(a: seq<nat>, b: seq<nat>, lo: nat, hi: nat)
    requires lo <= hi <= |a| == |b| && a[lo..] == b[lo..]
    ensures a[hi..] == b[hi..]
  {
    forall k | hi <= k < |a| ensures a[k] == b[k] {
      assert a[lo..][k - lo] == b[lo..][k - lo];
    }
  }

  lemma RowStaysFinished(now: seq<nat>, next: seq<nat>, off: seq<nat>, end: nat, row: seq<nat>, u: nat,
                         lo: nat, hi: nat, other: seq<nat>)
    requires u + 1 < |off| && RowFinished(now, off, end, row, u) && off[u + 1] <= lo
    requires RowReplaced(now, next, lo, hi, other)
    ensures RowFinished(next, off, end, row, u) && lo <= hi
  {
    var a := off[u];
    forall q | a <= q < end ensures next[q] == now[q] {
      assert next[..lo][q] == now[..lo][q];
    }
    assert next[a..end] == now[a..end];
  }

  lemma RowJustFinished(now: seq<nat>, next: seq<nat>, off: seq<nat>, row: seq<nat>, m: nat)
    requires m + 1 < |off| && RowReplaced(now, next, off[m], off[m + 1], row)
    ensures RowFinished(next, off, off[m] + |row|, row, m)
  {
  }

  /** The last parallel loop of BuildGraph; rows are disjoint slices, so their order does not matter. */
  method FinishRows(a: array<nat>, off: seq<nat>) returns (end: seq<nat>, edges: nat)
    requires Layout(off, a.Length)
    modifies a
    ensures var rows := FinalRows(old(a[..]), off);
      && |end| == |rows| && Finishing(old(a[..]), a[..], off, end, rows)
      && edges == DegreeSum(rows, |rows|) / 2
  {
    hide Deduped, SortOf, RowFinished, RowReplaced;
    end := [];
    var total := 0;
    ghost var was := a[..];
    ghost var rows := FinalRows(was, off);
    for i := 0 to |off| - 1
      invariant |end| == i && Finishing(was, a[..], off, end, rows)
      invariant total == DegreeSum(rows, i)
    {
      ghost var now := a[..];
      UntouchedSlice(was, now, off, i);
      var m := FinishRow(a, off[i], off[i + 1], i);
      FinishStep(was, now, a[..], off, end, rows);
      end := end + [off[i] + m];
      total := total + m;
    }
    edges := total / 2;
  }

  lemma UntouchedSlice(was: seq<nat>, now: seq<nat>, off: seq<nat>, i: nat)
    requires i + 1 < |off| && Layout(off, |was|) && |now| == |was| && now[off[i]..] == was[off[i]..]
    ensures off[i] <= off[i + 1] <= |now|
    ensures Deduped(SortOf(now[off[i]..off[i + 1]]), i) == FinalRows(was, off)[i]
  {
    assert now[off[i]..off[i + 1]] == now[off[i]..][..off[i + 1] - off[i]];
    assert was[off[i]..off[i + 1]] == was[off[i]..][..off[i + 1] - off[i]];
  }

  // ---------- what the graph is ----------

  /** u and v are tied: they are different people and one proposed the other. */
  ghost predicate Tie(props: seq<seq<nat>>, u: nat, v: nat) {
    v != u && Proposed(props, u, v)
  }

  ghost predicate IsGraphOf(props: seq<seq<nat>>, rows: seq<seq<nat>>) {
    && |rows| == |props|
    && forall u :: 0 <= u < |rows| ==> Increasing(rows[u]) && forall v: nat :: v in rows[u] <==> Tie(props, u, v)
  }

  lemma OffsetsAreLayout(props: seq<seq<nat>>, off: seq<nat>)
    requires Offsets(props, off)
    ensures Layout(off, off[|props|])
  {
    forall u, v | 0 <= u <= v < |off| ensures off[u] <= off[v] <= off[|props|] {
      OffsetsGrow(props, off, u, v);
      OffsetsGrow(props, off, v, |props|);
    }
  }

  lemma RowIsTies(props: seq<seq<nat>>, adj: seq<nat>, off: seq<nat>, u: nat)
    requires |off| == |props| + 1 && u < |props| && Layout(off, |adj|) && RowComplete(props, off, adj, u)
    ensures var row := FinalRow(adj, off, u); Increasing(row) && forall v: nat :: v in row <==> Tie(props, u, v)
  {
    var raw := adj[off[u]..off[u + 1]];
    SortOfSorts(raw);
    DedupedIs(SortOf(raw), u);
    forall v: nat ensures v in SortOf(raw) <==> v in raw {
      assert v in SortOf(raw) <==> v in multiset(SortOf(raw));
      assert v in raw <==> v in multiset(raw);
    }
  }

  /** The graph built under any schedule of the atomic actions of pass 2 is a function of the proposals alone:
      row u lists, in increasing order and once each, the others that u proposed or that proposed u. */
  lemma GraphIsScheduleFree(props: seq<seq<nat>>, off: seq<nat>, sched: Schedule)
    requires ValidProposals(props) && Offsets(props, off) && PlaceDone(props, PlaceRun(props, off, sched))
    ensures var adj := PlaceRun(props, off, sched).adj;
      Layout(off, |adj|) && IsGraphOf(props, FinalRows(adj, off))
  {
    PlacementIsScheduleFree(props, off, sched);
    OffsetsAreLayout(props, off);
    var adj := PlaceRun(props, off, sched).adj;
    forall u | 0 <= u < |props| {
      RowIsTies(props, adj, off, u);
    }
  }

  /** From the proposals to the graph: whatever the schedules of both passes, with the prefix sum between them. */
  lemma BuiltFromProposals(props: seq<seq<nat>>, counting: Schedule, off: seq<nat>, placing: Schedule)
    requires ValidProposals(props) && CountDone(props, CountRun(props, counting))
    requires |off| == |props| + 1 && off[0] == 0
    requires forall u :: 0 <= u < |props| ==> off[u + 1] == off[u] + CountRun(props, counting).caps[u]
    ensures Offsets(props, off)
    ensures PlaceDone(props, PlaceRun(props, off, placing)) ==>
      (var adj := PlaceRun(props, off, placing).adj; Layout(off, |adj|) && IsGraphOf(props, FinalRows(adj, off)))
  {
    OffsetsFollow(props, counting, off);
    if PlaceDone(props, PlaceRun(props, off, placing)) { GraphIsScheduleFree(props, off, placing); }
  }

  lemma GraphIsUnique(props: seq<seq<nat>>, a: seq<seq<nat>>, b: seq<seq<nat>>)
    requires IsGraphOf(props, a) && IsGraphOf(props, b)
    ensures a == b
  {
    forall u | 0 <= u < |a| ensures a[u] == b[u] {
      IncreasingIsUnique(a[u], b[u]);
    }
  }

  // ---------- counting edges ----------

  ghost predicate Tied(rows: seq<seq<nat>>, u: nat, v: nat) {
    u < |rows| && v in rows[u]
  }

  ghost predicate Symmetric(rows: seq<seq<nat>>) {
    && (forall u: nat, v: nat :: Tied(rows, u, v) ==> u != v && Tied(rows, v, u))
    && (forall u :: 0 <= u < |rows| ==> Increasing(rows[u]))
  }

  lemma GraphIsSymmetric(props: seq<seq<nat>>, rows: seq<seq<nat>>)
    requires IsGraphOf(props, rows)
    ensures Symmetric(rows)
  {
    forall u: nat, v: nat | Tied(rows, u, v) ensures u != v && Tied(rows, v, u) {
      assert Tie(props, u, v) && Tie(props, v, u);
    }
  }

  ghost function Below(row: seq<nat>, m: nat): set<nat> {
    set v | v in row && v < m
  }

  /** Degrees counted inside the first m people, over the first k of them. */
  ghost function InnerSum(rows: seq<seq<nat>>, m: nat, k: nat): nat
    requires k <= |rows|
  {
    if k == 0 then 0 else InnerSum(rows, m, k - 1) + |Below(rows[k - 1], m)|
  }

  ghost function Fans(rows: seq<seq<nat>>, m: nat, k: nat): set<nat>
    requires k <= |rows|
  {
    set u: nat | u < k && m in rows[u]
  }

  lemma BelowGrows(row: seq<nat>, m: nat)
    ensures |Below(row, m + 1)| == |Below(row, m)| + if m in row then 1 else 0
  {
    assert Below(row, m + 1) == Below(row, m) + if m in row then {m} else {};
  }

  lemma FansGrow(rows: seq<seq<nat>>, m: nat, k: nat)
    requires k < |rows|
    ensures |Fans(rows, m, k + 1)| == |Fans(rows, m, k)| + if m in rows[k] then 1 else 0
  {
    assert Fans(rows, m, k + 1) == Fans(rows, m, k) + if m in rows[k] then {k} else {};
  }

  lemma {:induction false} InnerSumGrows(rows: seq<seq<nat>>, m: nat, k: nat)
    requires k <= |rows|
    ensures InnerSum(rows, m + 1, k) == InnerSum(rows, m, k) + |Fans(rows, m, k)|
  {
    if k > 0 {
      InnerSumGrows(rows, m, k - 1);
      BelowGrows(rows[k - 1], m);
      FansGrow(rows, m, k - 1);
    }
  }

  lemma {:induction false} InnerSumEven(rows: seq<seq<nat>>, m: nat)
    requires Symmetric(rows) && m <= |rows|
    ensures InnerSum(rows, m, m) % 2 == 0
  {
    if m > 0 {
      var top := m - 1;
      InnerSumEven(rows, top);
      InnerSumGrows(rows, top, top);
      BelowGrows(rows[top], top);
      assert !Tied(rows, top, top);
      forall u: nat ensures u in Fans(rows, top, top) <==> u in Below(rows[top], top) {
        assert Tied(rows, u, top) <==> Tied(rows, top, u);
      }
      assert Fans(rows, top, top) == Below(rows[top], top);
    }
  }

  lemma {:induction false} IncreasingSize(row: seq<nat>, m: nat)
    requires Increasing(row) && forall k :: 0 <= k < |row| ==> row[k] < m
    ensures |Below(row, m)| == |row|
  {
    if |row| > 0 {
      var init, last := row[..|row| - 1], row[|row| - 1];
      assert row == init + [last];
      IncreasingSize(init, m);
      assert last !in init;
      assert last < m;
      assert Below(row, m) == Below(init, m) + {last};
    } else {
      assert Below(row, m) == {};
    }
  }

  lemma {:induction false} InnerSumIsDegreeSum(rows: seq<seq<nat>>, k: nat)
    requires Symmetric(rows) && k <= |rows|
    ensures InnerSum(rows, |rows|, k) == DegreeSum(rows, k)
  {
    if k > 0 {
      InnerSumIsDegreeSum(rows, k - 1);
      var row := rows[k - 1];
      forall i | 0 <= i < |row| ensures row[i] < |rows| {
        assert Tied(rows, k - 1, row[i]);
      }
      IncreasingSize(row, |rows|);
    }
  }

  /** Edges, the degree sum halved by integer division, loses nothing: every tie is counted from both ends. */
  lemma {:induction false} EdgesCountTies(props: seq<seq<nat>>, rows: seq<seq<nat>>)
    requires IsGraphOf(props, rows)
    ensures Symmetric(rows)
    ensures 2 * (DegreeSum(rows, |rows|) / 2) == DegreeSum(rows, |rows|)
  {
    GraphIsSymmetric(props, rows);
    InnerSumEven(rows, |rows|);
    InnerSumIsDegreeSum(rows, |rows|);
  }
}
