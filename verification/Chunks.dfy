/** Splitting a loop over people among workers: what the split covers, and why neither the number of workers nor
    the order in which they write can show in a result.  The loops of the dynamics read one buffer and write
    another, each person's slot once. */
module Chunks {

  datatype Chunk = Chunk(lo: nat, hi: nat)

  /** Consecutive, none empty, from 0 to m. */
  ghost predicate Tiles(cs: seq<Chunk>, m: nat) {
    if |cs| == 0 then m == 0
    else
      var last := cs[|cs| - 1];
      last.lo < last.hi == m && Tiles(cs[..|cs| - 1], last.lo)
  }

  function Workers(n: nat, procs: nat): nat {
    if n == 0 then 0 else if procs > n then n else if procs < 1 then 1 else procs
  }

  /** A range no longer than an even split among the workers makes necessary; no more workers than people, and at
      least one. */
  ghost predicate Spread(n: nat, procs: nat, c: Chunk) {
    var workers := if procs > n then n else if procs < 1 then 1 else procs;
    c.lo < c.hi && (c.hi - c.lo - 1) * workers < n
  }

  /** parallelIdx: the ranges handed out, in order.  There is a slot for each in an array of Workers(n, procs). */
  method Split(n: nat, procs: nat) returns (cs: seq<Chunk>)
    ensures Tiles(cs, n) && |cs| <= Workers(n, procs)
    ensures forall c :: 0 <= c < |cs| ==> Spread(n, procs, cs[c])
  {
    cs := [];
    var workers := Workers(n, procs);
    if workers <= 1 {
      if n > 0 {
        cs := [Chunk(0, n)];
        assert cs[..0] == [];
      }
      return;
    }
    var chunk := (n + workers - 1) / workers;
    CeilingCovers(n, workers, chunk);
    var start := 0;
    while start < n
      invariant start <= n ==> Tiles(cs, start)
      invariant start > n ==> Tiles(cs, n)
      invariant start == |cs| * chunk && (|cs| > 0 ==> (|cs| - 1) * chunk < n)
      invariant forall c :: 0 <= c < |cs| ==> Spread(n, procs, cs[c])
    {
      var end := start + chunk;
      if end > n {
        end := n;
      }
      assert (cs + [Chunk(start, end)])[..|cs|] == cs;
      ShorterIsLess(end - start - 1, chunk - 1, workers);
      NextMultiple(|cs|, chunk);
      cs := cs + [Chunk(start, end)];
      start := start + chunk;
    }
    if |cs| > workers { Monotone(workers, |cs| - 1, chunk); }
  }

  lemma CeilingCovers(n: nat, workers: nat, chunk: nat)
    requires workers > 0 && n > 0 && chunk == (n + workers - 1) / workers
    ensures chunk > 0 && workers * chunk >= n && (chunk - 1) * workers < n
  {
    var x := n + workers - 1;
    assert x == chunk * workers + x % workers;
  }

  lemma ShorterIsLess(a: nat, b: nat, workers: nat)
    requires a <= b
    ensures a * workers <= b * workers
  {
    assert (b - a) * workers >= 0;
  }

  lemma NextMultiple(k: nat, chunk: nat)
    ensures k * chunk + chunk == (k + 1) * chunk
  {
  }

  lemma Monotone(a: nat, b: nat, chunk: nat)
    requires a <= b
    ensures a * chunk <= b * chunk
  {
    assert (b - a) * chunk >= 0;
  }

  ghost function SumOver(f: nat -> int, lo: nat, hi: nat): int
    requires lo <= hi
    decreases hi - lo
  {
    if lo == hi then 0 else SumOver(f, lo, hi - 1) + f(hi - 1)
  }

  ghost function SumOfParts(f: nat -> int, cs: seq<Chunk>, m: nat): int
    requires Tiles(cs, m)
  {
    if |cs| == 0 then 0
    else
      var last := cs[|cs| - 1];
      SumOfParts(f, cs[..|cs| - 1], last.lo) + SumOver(f, last.lo, last.hi)
  }

  lemma {:induction false} SumSplits(f: nat -> int, lo: nat, mid: nat, hi: nat)
    requires lo <= mid <= hi
    ensures SumOver(f, lo, hi) == SumOver(f, lo, mid) + SumOver(f, mid, hi)
    decreases hi - mid
  {
    if mid < hi { SumSplits(f, lo, mid, hi - 1); }
  }

  /** Per-worker counters add up to the count over everyone, however many workers there are. */
  lemma {:induction false} PartsAddUp(f: nat -> int, cs: seq<Chunk>, m: nat)
    requires Tiles(cs, m)
    ensures SumOfParts(f, cs, m) == SumOver(f, 0, m)
    decreases |cs|
  {
    if |cs| > 0 {
      var last := cs[|cs| - 1];
      PartsAddUp(f, cs[..|cs| - 1], last.lo);
      SumSplits(f, 0, last.lo, last.hi);
    }
  }

  /** Everyone is in exactly one range. */
  lemma {:induction false} OneChunkEach(cs: seq<Chunk>, m: nat, i: nat)
    requires Tiles(cs, m) && i < m
    ensures exists c :: 0 <= c < |cs| && cs[c].lo <= i < cs[c].hi
    ensures forall c, d :: 0 <= c < |cs| && 0 <= d < |cs| && cs[c].lo <= i < cs[c].hi && cs[d].lo <= i < cs[d].hi ==>
              c == d
    decreases |cs|
  {
    var last, init := cs[|cs| - 1], cs[..|cs| - 1];
    if i < last.lo {
      OneChunkEach(init, last.lo, i);
      var c :| 0 <= c < |init| && init[c].lo <= i < init[c].hi;
      assert cs[c] == init[c];
    } else {
      EarlierEndsBefore(init, last.lo);
      assert cs[|cs| - 1].lo <= i < cs[|cs| - 1].hi;
    }
    forall c, d | 0 <= c < |cs| && 0 <= d < |cs| && cs[c].lo <= i < cs[c].hi && cs[d].lo <= i < cs[d].hi
      ensures c == d
    {
      if c < |cs| - 1 { assert cs[c] == init[c]; }
      if d < |cs| - 1 { assert cs[d] == init[d]; }
    }
  }

  lemma {:induction false} EarlierEndsBefore(cs: seq<Chunk>, m: nat)
    requires Tiles(cs, m)
    ensures forall c :: 0 <= c < |cs| ==> cs[c].hi <= m
    decreases |cs|
  {
    if |cs| > 0 {
      EarlierEndsBefore(cs[..|cs| - 1], cs[|cs| - 1].lo);
    }
  }

  /** The second buffer after the workers, interleaved in any way, have written the people visited, in that order. */
  ghost function Written<T>(buffer: seq<T>, value: nat -> T, visits: seq<nat>): (out: seq<T>)
    ensures |out| == |buffer|
  {
    if |visits| == 0 then buffer
    else
      var i := visits[|visits| - 1];
      var before := Written(buffer, value, visits[..|visits| - 1]);
      if i < |before| then before[i := value(i)] else before
  }

  /** A worker's value for a person is a function of the first buffer, so every interleaving that reaches everyone
      leaves the same second buffer, whatever it held before. */
  lemma {:induction false} WritesAreOrderFree<T>(buffer: seq<T>, value: nat -> T, visits: seq<nat>, i: nat)
    requires i < |buffer|
    ensures Written(buffer, value, visits)[i] == if i in visits then value(i) else buffer[i]
    decreases |visits|
  {
    if |visits| > 0 {
      var init := visits[..|visits| - 1];
      assert visits == init + [visits[|visits| - 1]];
      WritesAreOrderFree(buffer, value, init, i);
    }
  }
}
