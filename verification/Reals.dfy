/** Arithmetic over the reals that several models need.

    Each product is a lemma of its own, over variables. */
module Reals {

  function Ceil(x: real): int {
    -((-x).Floor)
  }

  lemma CeilIsLeast(x: real, n: int)
    ensures n >= Ceil(x) <==> n as real >= x
  {
  }

  ghost function Power(b: real, k: nat): real {
    if k == 0 then 1.0 else b * Power(b, k - 1)
  }

  ghost function SumOf(s: seq<real>): real {
    if |s| == 0 then 0.0 else SumOf(s[..|s| - 1]) + s[|s| - 1]
  }

  lemma NonNegative(x: real, z: real)
    requires x >= 0.0 && z >= 0.0
    ensures x * z >= 0.0
  {
  }

  lemma ProductPositive(x: real, z: real)
    requires x > 0.0 && z > 0.0
    ensures x * z > 0.0
  {
  }

  /** A share of something is no more than it. */
  lemma Shrinks(a: real, b: real)
    requires 0.0 <= a && 0.0 <= b <= 1.0
    ensures 0.0 <= a * b <= a
  {
    assert a * (1.0 - b) >= 0.0;
  }

  lemma Cancel(p: real, q: real, n: real)
    requires n > 0.0 && p * n <= q * n
    ensures p <= q
  {
    if p > q { Grow(q, p, n); }
  }
  lemma Grow(p: real, q: real, n: real)
    requires n > 0.0 && p < q
    ensures p * n < q * n
  {
    assert (q - p) * n > 0.0;
  }
  lemma GrowBy(n: real, p: real, q: real)
    requires n > 0.0 && p < q
    ensures n * p < n * q
  {
    assert n * (q - p) > 0.0;
  }
  lemma QuotientDifference(s: real, t: real, n: real)
    requires n > 0.0
    ensures (t - s) / n == t / n - s / n
  {
  }

  lemma QuotientWithin(s: real, n: real, d: real)
    requires n > 0.0 && -(n * d) <= s <= n * d
    ensures -d <= s / n <= d
  {
    var q := s / n;
    assert q * n == s;
    Cancel(q, d, n);
    assert (-d) * n == -(n * d);
    Cancel(-d, q, n);
  }
  lemma MixInRange(w: real, a: real, b: real)
    requires 0.0 <= w <= 1.0 && -1.0 <= a <= 1.0 && -1.0 <= b <= 1.0
    ensures -1.0 <= w * a + (1.0 - w) * b <= 1.0
  {
    MixSum(w, 1.0 - w, a, b);
  }
  lemma MixSum(w: real, v: real, a: real, b: real)
    requires 0.0 <= w && 0.0 <= v && -1.0 <= a <= 1.0 && -1.0 <= b <= 1.0
    ensures -(w + v) <= w * a + v * b <= w + v
  {
    Within(w, a);
    Within(v, b);
  }
  lemma Within(l: real, x: real)
    requires 0.0 <= l && -1.0 <= x <= 1.0
    ensures -l <= l * x <= l
  {
    assert l * (1.0 - x) >= 0.0;
    assert l * (1.0 + x) >= 0.0;
  }
  lemma Scaled(l: real, cap: real, x: real, d: real)
    requires 0.0 <= l <= cap && -d <= x <= d
    ensures -(cap * d) <= l * x <= cap * d
  {
    assert d >= 0.0;
    assert l * d <= cap * d;
    assert l * x <= l * d && -(l * d) <= l * x;
  }
  lemma ProductBound(a: real, b: real, m: real, n: real)
    requires 0.0 <= a <= m && 0.0 <= b <= n
    ensures 0.0 <= a * b <= m * n
  {
    assert a * b <= m * b <= m * n;
  }
  lemma ScaleBound(cap: real, x: real, first: real, p: real)
    requires cap >= 0.0 && x <= first * p
    ensures cap * x <= first * (cap * p)
  {
    assert cap * x <= cap * (first * p);
    assert cap * (first * p) == first * (cap * p);
  }
  lemma {:induction false} PowerAdd(b: real, j: nat, k: nat)
    ensures Power(b, j + k) == Power(b, j) * Power(b, k)
  {
    if j > 0 {
      PowerAdd(b, j - 1, k);
      assert b * (Power(b, j - 1) * Power(b, k)) == b * Power(b, j - 1) * Power(b, k);
    }
  }
  /** 1.6 * 0.8^54 is below 1e-5. */
  lemma FiftyFourRounds()
    ensures 1.6 * Power(0.8, 54) < 0.00001
  {
    var b := 0.8;
    PowerAdd(b, 1, 1);
    assert Power(b, 1) == b * Power(b, 0) == 0.8;
    assert Power(b, 2) == 0.64;
    PowerAdd(b, 2, 2);
    assert Power(b, 4) == 0.4096;
    PowerAdd(b, 4, 4);
    assert Power(b, 8) == 0.16777216;
    PowerAdd(b, 8, 1);
    assert 0.0 <= Power(b, 9) <= 0.1343;
    PowerAdd(b, 9, 9);
    ProductBound(Power(b, 9), Power(b, 9), 0.1343, 0.1343);
    assert 0.0 <= Power(b, 18) <= 0.01804;
    PowerAdd(b, 18, 18);
    ProductBound(Power(b, 18), Power(b, 18), 0.01804, 0.01804);
    assert 0.0 <= Power(b, 36) <= 0.0003255;
    PowerAdd(b, 36, 18);
    ProductBound(Power(b, 36), Power(b, 18), 0.0003255, 0.01804);
  }
  lemma Spread(a: real, y: real, b: real, w: real)
    ensures (a * y + b) * w == a * w * y + b * w
  {
    assert a * y * w == a * w * y;
  }
  lemma Join(p: real, q: real, y: real)
    ensures (p + q) * y == p * y + q * y
  {
  }
  lemma ShareOf(p: real, w: real)
    requires 0.0 <= p <= w && w > 0.0
    ensures 0.0 <= p / w <= 1.0
  {
    assert p / w * w == p;
  }
  lemma Divided(b: real, e: real, y: real, w: real)
    requires w > 0.0
    ensures (b + e * y) / w == b / w + e / w * y
  {
    assert e * y / w == e / w * y;
  }
  lemma Convex(w: real, u: real, v: real, d: real)
    requires 0.0 <= w <= 1.0 && -d <= u <= d && -d <= v <= d
    ensures -d <= (1.0 - w) * u + w * v <= d
  {
    WeightedSum(w, 1.0 - w, u, v, d);
    Whole(w, d);
  }
  lemma WeightedSum(w: real, rest: real, u: real, v: real, d: real)
    requires 0.0 <= w && 0.0 <= rest && -d <= u <= d && -d <= v <= d
    ensures -(rest * d + w * d) <= rest * u + w * v <= rest * d + w * d
  {
    Scaled(w, w, v, d);
    Scaled(rest, rest, u, d);
  }
  lemma Whole(w: real, d: real)
    ensures (1.0 - w) * d + w * d == d
  {
  }
  lemma OnlyZeroShrinks(cap: real, d: real, e: real)
    requires 0.0 <= cap < 1.0 && e == cap * d && 0.0 <= d <= e
    ensures d == 0.0
  {
    assert (1.0 - cap) * d == d - e;
    if d > 0.0 { ProductPositive(1.0 - cap, d); }
  }
  lemma Unscaled(n: real, x: real)
    requires n > 0.0
    ensures n * x / n == x
  {
  }
}
