/** The hub pool: systematic sampling of people in proportion to their degree, over exact reals.  Entry k of the
    pool is whoever covers the k-th of evenly spaced marks on the accumulated degrees. */
module HubPool {
  import opened Reals

  const POOL_SIZE := 0x10_0000

  ghost function Total(deg: seq<nat>, m: nat): nat
    requires m <= |deg|
  {
    if m == 0 then 0 else Total(deg, m - 1) + deg[m - 1]
  }

  ghost function Copies(pool: seq<nat>, i: nat): nat {
    multiset(pool)[i]
  }

  /** c is one of the two whole numbers nearest to x. */
  ghost predicate Rounds(c: int, x: real) {
    c == x.Floor || c == Ceil(x)
  }

  lemma BetweenRounds(c: int, x: real)
    requires c as real - 1.0 < x < c as real + 1.0
    ensures Rounds(c, x)
  {
  }

  /** The k-th mark of a sweep that starts at u strides. */
  ghost function Mark(u: real, k: int, step: real): real {
    (u + k as real) * step
  }

  /** p entries drawn so far: acc lies past mark p - 1 and not past mark p. */
  ghost predicate Between(acc: real, p: int, u: real, step: real) {
    (p > 0 ==> Mark(u, p - 1, step) < acc) && acc <= Mark(u, p, step)
  }

  lemma MarkAdds(u: real, p: int, c: int, step: real)
    ensures Mark(u, p + c, step) == Mark(u, p, step) + Mark(0.0, c, step)
  {
    assert (u + (p + c) as real) * step == (u + p as real) * step + (0.0 + c as real) * step;
  }

  lemma MarkStarts(u: real, c: int, step: real)
    requires 0.0 <= u < 1.0 && step > 0.0
    ensures Mark(0.0, c, step) <= Mark(u, c, step) < Mark(0.0, c + 1, step)
  {
    assert u * step >= 0.0;
    assert (1.0 - u) * step > 0.0;
    assert (1.0 - u) * step == step - u * step;
    assert Mark(u, c, step) == u * step + Mark(0.0, c, step);
    assert Mark(0.0, c + 1, step) == Mark(0.0, c, step) + step;
  }

  lemma MarkUnits(step: real)
    requires step > 0.0
    ensures Mark(0.0, -1, step) < 0.0 && Mark(0.0, 0, step) == 0.0 && Mark(0.0, 1, step) == step
  {
  }

  lemma MarkGrows(a: int, b: int, step: real)
    requires a <= b && step > 0.0
    ensures Mark(0.0, a, step) <= Mark(0.0, b, step)
  {
    assert (b - a) as real * step >= 0.0;
    assert (0.0 + b as real) * step == (0.0 + a as real) * step + (b - a) as real * step;
  }

  lemma ScaleCancels(x: real, n: real, step: real)
    requires step > 0.0 && x * step < n * step
    ensures x < n
  {
    if x >= n { ScaleGrows(n, x, step); }
  }

  lemma ScaleGrows(a: real, b: real, step: real)
    requires step > 0.0 && a <= b
    ensures a * step <= b * step
  {
    assert (b - a) * step >= 0.0;
  }

  lemma QuotientBounds(lo: int, d: real, hi: int, step: real)
    requires step > 0.0 && Mark(0.0, lo, step) < d < Mark(0.0, hi, step)
    ensures lo as real < d / step < hi as real
  {
    var x := d / step;
    assert x * step == d;
    ScaleCancels(lo as real, x, step);
    ScaleCancels(x, hi as real, step);
  }

  /** The number of marks between two accumulated weights is the weight between them in steps, rounded one way
      or the other. */
  lemma ShareRounds(before: real, d: nat, p: int, q: int, u: real, step: real)
    requires 0.0 <= u < 1.0 && step > 0.0 && 0 <= p <= q && before >= 0.0
    requires Between(before, p, u, step) && Between(before + d as real, q, u, step)
    ensures Rounds(q - p, d as real / step)
  {
    hide Mark;
    MarkAdds(u, p, q - p - 1, step);
    MarkAdds(u, p - 1, q - p + 1, step);
    MarkStarts(u, q - p, step);
    MarkUnits(step);
    QuotientBounds(q - p - 1, d as real, q - p + 1, step);
    BetweenRounds(q - p, d as real / step);
  }

  /** The inner loop: emit person i once per mark their weight covers. */
  method Emit(start: seq<nat>, m: nat, i: nat, acc: real, from: real, u: real, step: real)
    returns (pool: seq<nat>, next: real)
    requires |start| <= m && step > 0.0 && 0.0 <= u < 1.0 && acc <= Mark(0.0, m, step)
    requires from == Mark(u, |start|, step) && (|start| > 0 ==> Mark(u, |start| - 1, step) < acc)
    ensures |start| <= |pool| <= m && next == Mark(u, |pool|, step) && Between(acc, |pool|, u, step)
    ensures pool == start + seq(|pool| - |start|, _ => i)
  {
    hide Mark;
    pool, next := start, from;
    while acc > next && |pool| < m
      invariant |start| <= |pool| <= m && next == Mark(u, |pool|, step)
      invariant |pool| > 0 ==> Mark(u, |pool| - 1, step) < acc
      invariant pool == start + seq(|pool| - |start|, _ => i)
      decreases m - |pool|
    {
      MarkAdds(u, |pool|, 1, step);
      MarkUnits(step);
      pool := pool + [i];
      next := next + step;
    }
    MarkStarts(u, m, step);
  }

  /** Every person i < n has its whole share of the pool, rounded. */
  ghost predicate Fair(deg: seq<nat>, pool: seq<nat>, n: nat, step: real)
    requires n <= |deg| && step > 0.0
  {
    && (forall k :: 0 <= k < |pool| ==> pool[k] < n)
    && forall i :: 0 <= i < n ==> Rounds(Copies(pool, i), deg[i] as real / step)
  }

  lemma FairGrows(deg: seq<nat>, pool: seq<nat>, n: nat, k: nat, step: real)
    requires n < |deg| && step > 0.0 && Fair(deg, pool, n, step) && Rounds(k, deg[n] as real / step)
    ensures Fair(deg, pool + seq(k, _ => n), n + 1, step)
  {
    var more := seq(k, _ => n);
    Repeats(n, k);
    forall i | 0 <= i < n + 1 ensures Rounds(Copies(pool + more, i), deg[i] as real / step) {
      assert multiset(pool + more)[i] == multiset(pool)[i] + multiset(more)[i];
      if i == n { assert n !in pool; }
    }
  }

  lemma {:induction false} Repeats(v: nat, k: nat)
    ensures multiset(seq(k, _ => v)) == multiset{}[v := k]
  {
    if k > 0 {
      Repeats(v, k - 1);
      assert seq(k, _ => v) == seq(k - 1, _ => v) + [v];
    } else {
      assert seq(k, _ => v) == [];
    }
  }

  /** hubPool: exactly min(2^20, n) entries, and each person appears the floor or the ceiling of
      degree / step times, whatever the random start u in [0, 1). */
  method HubPool(deg: seq<nat>, u: real) returns (pool: seq<nat>, ghost step: real)
    requires 0.0 <= u < 1.0
    ensures Total(deg, |deg|) == 0 ==> pool == [0]
    ensures Total(deg, |deg|) > 0 ==>
      && |pool| == (if |deg| < 0x10_0000 then |deg| else 0x10_0000)
      && step > 0.0 && step * |pool| as real == Total(deg, |deg|) as real
      && Fair(deg, pool, |deg|, step)
  {
    var total := 0.0;
    for i := 0 to |deg|
      invariant total == Total(deg, i) as real
    {
      total := total + deg[i] as real;
    }
    var m := if POOL_SIZE > |deg| then |deg| else POOL_SIZE;
    step := 0.0;
    if total == 0.0 {
      // no weight: no mark lies below it, and the pool falls back to person 0
      return [0], step;
    }
    var stride := total / m as real;
    step := stride;
    StrideCovers(total, m);
    pool := Sweep(deg, m, u, stride);
  }

  /** The sweep over accumulated weight. */
  method Sweep(deg: seq<nat>, m: nat, u: real, step: real) returns (pool: seq<nat>)
    requires 0.0 <= u < 1.0 && step > 0.0 && Mark(0.0, m, step) == Total(deg, |deg|) as real
    ensures |pool| == m && Fair(deg, pool, |deg|, step)
  {
    hide Mark, Fair, Total;
    var next := u * step;
    FirstMark(u, step);
    FairStarts(deg, step);
    pool := [];
    var acc := 0.0;
    for i := 0 to |deg|
      invariant |pool| <= m && acc == Total(deg, i) as real
      invariant next == Mark(u, |pool|, step) && Between(acc, |pool|, u, step)
      invariant Fair(deg, pool, i, step)
    {
      ghost var before, was := acc, pool;
      acc := acc + deg[i] as real;
      TotalStep(deg, i);
      TotalGrows(deg, i + 1);
      pool, next := Emit(pool, m, i, acc, next, u, step);
      ShareRounds(before, deg[i], |was|, |pool|, u, step);
      FairGrows(deg, was, i, |pool| - |was|, step);
    }
    Filled(m, |pool|, u, step);
  }

  lemma TotalStep(deg: seq<nat>, m: nat)
    requires m < |deg|
    ensures Total(deg, m + 1) == Total(deg, m) + deg[m]
  {
  }

  lemma FirstMark(u: real, step: real)
    requires 0.0 <= u && step > 0.0
    ensures u * step == Mark(u, 0, step) >= 0.0
    ensures forall deg: seq<nat> :: Total(deg, 0) == 0
  {
    assert u * step >= 0.0;
  }

  lemma FairStarts(deg: seq<nat>, step: real)
    requires step > 0.0
    ensures Fair(deg, [], 0, step)
  {
  }

  lemma StrideCovers(total: real, m: nat)
    requires total > 0.0 && m > 0
    ensures total / m as real > 0.0
    ensures Mark(0.0, m, total / m as real) == total == total / m as real * m as real
  {
    var s := total / m as real;
    assert s * m as real == total;
    assert (0.0 + m as real) * s == s * m as real;
  }

  lemma {:induction false} TotalGrows(deg: seq<nat>, m: nat)
    requires m <= |deg|
    ensures Total(deg, m) <= Total(deg, |deg|)
    decreases |deg| - m
  {
    if m < |deg| { TotalGrows(deg, m + 1); }
  }

  /** Once all the weight is accumulated no mark is left over. */
  lemma Filled(m: nat, p: nat, u: real, step: real)
    requires p <= m && step > 0.0 && 0.0 <= u < 1.0 && Mark(0.0, m, step) <= Mark(u, p, step)
    ensures p == m
  {
    hide Mark;
    if p < m {
      MarkStarts(u, p, step);
      MarkGrows(p + 1, m, step);
    }
  }
}
