/** Opinion rounds under the feeds of a story: still a contraction, still with exactly one equilibrium. */
module FedOpinion {
  import opened Common
  import opened Opinion
  import opened Media
  import opened Reals

  /** Everything a round reads but the opinions themselves; the layer stands still while opinions settle. */
  datatype Scene = Scene(net: Net, field: Field, ps: seq<Platform>, a: Audience, layer: Layer)

  ghost predicate Sized(s: Scene) {
    && ValidNet(s.net) && |s.field.prior| == |s.field.lambda| == |s.net| == |s.a.member| && Fit(s.ps, s.a, s.layer)
  }

  ghost predicate Proper(s: Scene, cap: real) {
    Sized(s) && SaneP(s.ps) && Sane(s.layer) && Susceptible(s.field.lambda, cap) && 0.0 <= cap
  }

  /** StepWith on a standing layer. */
  ghost function FedNext(s: Scene, y: seq<real>, i: nat): real
    requires Sized(s) && |y| == |s.net| && i < |y|
  {
    Next(s.net, s.field, y, Pulls(s.ps, s.a, s.layer, y), i)
  }

  ghost function FedRound(s: Scene, y: seq<real>): (z: seq<real>)
    requires Sized(s) && |y| == |s.net|
    ensures |z| == |y|
  {
    Step(s.net, s.field, y, Pulls(s.ps, s.a, s.layer, y))
  }

  lemma FedRoundAt(s: Scene, y: seq<real>, i: nat)
    requires Sized(s) && |y| == |s.net| && i < |y|
    ensures FedRound(s, y)[i] == FedNext(s, y, i)
  {
  }

  // ---------- what a feed shows, as a function of the reader's opinion ----------

  /** The weight of the first m platforms' feeds, whoever reads them. */
  ghost function FeedWeight(s: Scene, i: nat, m: nat): real
    requires Sized(s) && i < |s.net| && m <= |s.ps|
  {
    Pulled(s.ps, s.a, s.layer, 0.0, i, m).1
  }

  /** How much of the reader's own opinion comes back. */
  ghost function Echo(s: Scene, i: nat, m: nat): real
    requires Sized(s) && i < |s.net| && m <= |s.ps|
  {
    Pulled(s.ps, s.a, s.layer, 1.0, i, m).0 - Pulled(s.ps, s.a, s.layer, 0.0, i, m).0
  }

  lemma OnePlatform(so: (real, real), pl: Platform, c: Channel, y: real, one: (real, real), zero: (real, real))
    requires 0.0 <= pl.sorting <= 1.0 && pl.velocity >= 0.0 && SaneChannel(c)
    requires so.1 == zero.1 == one.1 && so.0 == zero.0 + (one.0 - zero.0) * y && 0.0 <= one.0 - zero.0 <= zero.1
    ensures var so', one', zero' := PullFrom(so, pl, c, y), PullFrom(one, pl, c, 1.0), PullFrom(zero, pl, c, 0.0);
      so'.1 == zero'.1 == one'.1 && so'.0 == zero'.0 + (one'.0 - zero'.0) * y && 0.0 <= one'.0 - zero'.0 <= zero'.1
  {
    if c.presence > 0.000001 {
      var wt := c.presence * (0.4 + 0.6 * pl.velocity);
      NonNegative(c.presence, 0.4 + 0.6 * pl.velocity);
      OneMoreFeed(pl.sorting, (1.0 - pl.sorting) * c.feedMean, wt, y, zero.0, one.0 - zero.0, zero.1);
    }
  }

  lemma OneMoreFeed(a: real, rest: real, wt: real, y: real, zero: real, echo: real, w: real)
    requires 0.0 <= a <= 1.0 && wt >= 0.0 && 0.0 <= echo <= w
    ensures var zero', echo' := zero + (a * 0.0 + rest) * wt, echo + ((a * 1.0 + rest) * wt - (a * 0.0 + rest) * wt);
      zero + echo * y + (a * y + rest) * wt == zero' + echo' * y && 0.0 <= echo' <= w + wt
  {
    Spread(a, y, rest, wt);
    Spread(a, 1.0, rest, wt);
    Spread(a, 0.0, rest, wt);
    Shrinks(wt, a);
    assert wt * a == a * wt;
    Join(echo, a * wt, y);
  }

  /** The weight does not depend on the reader's opinion, and the weighted sum moves with it by at most its weight. */
  lemma {:induction false} PulledIs(s: Scene, cap: real, y: real, i: nat, m: nat)
    requires Proper(s, cap) && i < |s.net| && m <= |s.ps|
    ensures var so, zero, one := Pulled(s.ps, s.a, s.layer, y, i, m),
                                 Pulled(s.ps, s.a, s.layer, 0.0, i, m), Pulled(s.ps, s.a, s.layer, 1.0, i, m);
      so.1 == zero.1 == one.1 && so.0 == zero.0 + (one.0 - zero.0) * y && 0.0 <= one.0 - zero.0 <= zero.1
  {
    hide PullFrom, SaneChannel, Susceptible;
    if m > 0 {
      PulledIs(s, cap, y, i, m - 1);
      OnePlatform(Pulled(s.ps, s.a, s.layer, y, i, m - 1), s.ps[m - 1], s.layer.channels[m - 1], y,
                  Pulled(s.ps, s.a, s.layer, 1.0, i, m - 1), Pulled(s.ps, s.a, s.layer, 0.0, i, m - 1));
    }
  }

  /** A live feed with weight reaches person i. */
  ghost predicate Fed(s: Scene, i: nat)
    requires Sized(s) && i < |s.net|
  {
    Live(s.layer) && FeedWeight(s, i, |s.ps|) > 0.0
  }

  /** The part of the mean that is not the reader's own opinion, and the share that is. */
  ghost function Base(s: Scene, i: nat): real
    requires Sized(s) && i < |s.net| && Fed(s, i)
  {
    Pulled(s.ps, s.a, s.layer, 0.0, i, |s.ps|).0 / FeedWeight(s, i, |s.ps|)
  }

  ghost function EchoShare(s: Scene, i: nat): real
    requires Sized(s) && i < |s.net| && Fed(s, i)
  {
    Echo(s, i, |s.ps|) / FeedWeight(s, i, |s.ps|)
  }

  ghost function Line(base: real, echo: real, y: real): real {
    base + echo * y
  }

  /** What person i's feeds show somebody of opinion y. */
  ghost function Shows(s: Scene, y: real, i: nat): (p: Pull)
    requires Sized(s) && i < |s.net| && Fed(s, i)
    ensures p.weight == FeedWeight(s, i, |s.ps|) > 0.0
  {
    Pull(Line(Base(s, i), EchoShare(s, i), y), FeedWeight(s, i, |s.ps|))
  }

  /** What a person's feeds show is a straight line in their own opinion, of slope between 0 and 1. */
  lemma FeedIsLine(s: Scene, cap: real, y: real, i: nat)
    requires Proper(s, cap) && i < |s.net|
    ensures Live(s.layer) && !Fed(s, i) ==> FeedPull(s.ps, s.a, s.layer, y, i).weight == 0.0
    ensures Fed(s, i) ==> 0.0 <= EchoShare(s, i) <= 1.0 && FeedPull(s.ps, s.a, s.layer, y, i) == Shows(s, y, i)
  {
    hide Pulled, SaneP, Sane, Susceptible, Quiet;
    PulledIs(s, cap, y, i, |s.ps|);
    if Fed(s, i) {
      ShareOf(Echo(s, i, |s.ps|), FeedWeight(s, i, |s.ps|));
      Divided(Pulled(s.ps, s.a, s.layer, 0.0, i, |s.ps|).0, Echo(s, i, |s.ps|), y, FeedWeight(s, i, |s.ps|));
    }
  }

  // ---------- a round, person by person ----------

  /** Nothing moves person i: no ties and no feed. */
  ghost predicate Unmoved(s: Scene, i: nat)
    requires Sized(s) && i < |s.net|
  {
    |s.net[i]| == 0 && !Fed(s, i)
  }

  /** The social input of somebody who has one. */
  ghost function Input(s: Scene, y: seq<real>, i: nat): real
    requires Sized(s) && |y| == |s.net| && i < |y| && !Unmoved(s, i)
  {
    if !Fed(s, i) then Mean(s.net[i], y)
    else if |s.net[i]| == 0 then Shows(s, y[i], i).mean
    else Blend(Mean(s.net[i], y), Shows(s, y[i], i))
  }

  lemma FedNextIs(s: Scene, cap: real, y: seq<real>, i: nat)
    requires Proper(s, cap) && |y| == |s.net| && i < |y|
    ensures FedNext(s, y, i) == if Unmoved(s, i) then y[i] else Mix(s.field.lambda[i], Input(s, y, i), s.field.prior[i])
  {
    hide Mean, FeedPull, Shows, Blend, SaneP, Sane, Susceptible, Quiet, Mix;
    FeedIsLine(s, cap, y[i], i);
    if Live(s.layer) {
      assert Pulls(s.ps, s.a, s.layer, y).value[i] == FeedPull(s.ps, s.a, s.layer, y[i], i);
    }
  }

  // ---------- contraction ----------

  ghost predicate AgreeOnUnmoved(s: Scene, y: seq<real>, z: seq<real>)
    requires Sized(s)
  {
    |y| == |z| == |s.net| && forall i :: 0 <= i < |y| && Unmoved(s, i) ==> y[i] == z[i]
  }

  lemma BlendDiffers(w: real, m: real, n: real, p: real, q: real)
    ensures ((1.0 - w) * n + w * q) - ((1.0 - w) * m + w * p) == (1.0 - w) * (n - m) + w * (q - p)
  {
  }

  /** Two blends with the same feed weight differ by no more than their parts. */
  lemma BlendMoves(m: real, n: real, p: Pull, q: Pull, d: real)
    requires p.weight == q.weight > 0.0 && -d <= n - m <= d && -d <= q.mean - p.mean <= d
    ensures -d <= Blend(n, q) - Blend(m, p) <= d
  {
    var w := p.weight / (p.weight + 1.2);
    PhiSaturates(p.weight);
    BlendDiffers(w, m, n, p.mean, q.mean);
    Convex(w, n - m, q.mean - p.mean, d);
  }

  lemma LineMoves(base: real, echo: real, y: real, z: real, d: real)
    requires 0.0 <= echo <= 1.0 && -d <= z - y <= d
    ensures -d <= Line(base, echo, z) - Line(base, echo, y) <= d
  {
    Scaled(echo, 1.0, z - y, d);
    assert echo * (z - y) == echo * z - echo * y;
  }

  lemma InputMoves(s: Scene, cap: real, y: seq<real>, z: seq<real>, d: real, i: nat)
    requires Proper(s, cap) && |y| == |z| == |s.net| && i < |y| && !Unmoved(s, i) && Near(y, z, d)
    ensures -d <= Input(s, z, i) - Input(s, y, i) <= d
  {
    hide Mean, Near, FeedWeight, Base, EchoShare, Line, Blend, SaneP, Sane, Susceptible, Live, FeedPull;
    NearAt(y, z, d, i);
    if |s.net[i]| > 0 { MeanGap(s.net[i], y, z, d); }
    if Fed(s, i) {
      FeedIsLine(s, cap, 0.0, i);
      LineMoves(Base(s, i), EchoShare(s, i), y[i], z[i], d);
      if |s.net[i]| > 0 {
        BlendMoves(Mean(s.net[i], y), Mean(s.net[i], z), Shows(s, y[i], i), Shows(s, z[i], i), d);
      }
    }
  }

  lemma FedNextGap(s: Scene, cap: real, y: seq<real>, z: seq<real>, d: real, i: nat)
    requires Proper(s, cap) && AgreeOnUnmoved(s, y, z) && i < |y| && d >= 0.0 && Near(y, z, d)
    ensures Abs(FedNext(s, z, i) - FedNext(s, y, i)) <= cap * d
  {
    hide Near, Unmoved, Input, FedNext, SaneP, Sane, Mix;
    FedNextIs(s, cap, y, i);
    FedNextIs(s, cap, z, i);
    if Unmoved(s, i) {
      NonNegative(cap, d);
    } else {
      InputMoves(s, cap, y, z, d, i);
      MixGap(s.field.lambda[i], cap, Input(s, y, i), Input(s, z, i), s.field.prior[i], d);
    }
  }

  lemma GapIsNear(y: seq<real>, z: seq<real>)
    requires |y| == |z|
    ensures Near(y, z, Gap(y, z, |y|))
  {
    hide Gap;
    forall i | 0 <= i < |y| ensures Abs(z[i] - y[i]) <= Gap(y, z, |y|) {
      GapCovers(y, z, |y|, i);
    }
  }

  /** With the feeds of a standing layer, as without, two fields that agree on people nothing moves come closer by
      the largest susceptibility in every round. */
  lemma FedRoundContracts(s: Scene, cap: real, y: seq<real>, z: seq<real>)
    requires Proper(s, cap) && AgreeOnUnmoved(s, y, z)
    ensures Gap(FedRound(s, y), FedRound(s, z), |y|) <= cap * Gap(y, z, |y|)
    ensures AgreeOnUnmoved(s, FedRound(s, y), FedRound(s, z))
  {
    hide Gap, Near, FedRound, Unmoved, Sized, SaneP, Sane, Susceptible;
    FedRoundKeepsUnmoved(s, cap, y, z);
    GapIsNear(y, z);
    var d := Gap(y, z, |y|);
    FedRoundNear(s, cap, y, z, d);
    NearIsGap(FedRound(s, y), FedRound(s, z), cap * d);
  }

  lemma NearIsGap(y: seq<real>, z: seq<real>, d: real)
    requires Near(y, z, d) && d >= 0.0
    ensures Gap(y, z, |y|) <= d
  {
    GapWithin(y, z, |y|, d);
  }

  lemma FedRoundNear(s: Scene, cap: real, y: seq<real>, z: seq<real>, d: real)
    requires Proper(s, cap) && AgreeOnUnmoved(s, y, z) && Near(y, z, d) && d >= 0.0
    ensures Near(FedRound(s, y), FedRound(s, z), cap * d) && cap * d >= 0.0
  {
    hide FedRound, FedNext, Unmoved, Sized, SaneP, Sane, Susceptible;
    NonNegative(cap, d);
    forall i | 0 <= i < |y| ensures Abs(FedRound(s, z)[i] - FedRound(s, y)[i]) <= cap * d {
      FedRoundAt(s, y, i);
      FedRoundAt(s, z, i);
      FedNextGap(s, cap, y, z, d, i);
    }
  }

  lemma FedRoundKeepsUnmoved(s: Scene, cap: real, y: seq<real>, z: seq<real>)
    requires Proper(s, cap) && AgreeOnUnmoved(s, y, z)
    ensures AgreeOnUnmoved(s, FedRound(s, y), FedRound(s, z))
  {
    hide FedRound, FedNext, Unmoved, Input, Sized, SaneP, Sane, Susceptible;
    forall i | 0 <= i < |y| && Unmoved(s, i) ensures FedRound(s, y)[i] == FedRound(s, z)[i] {
      FedRoundAt(s, y, i);
      FedRoundAt(s, z, i);
      FedNextIs(s, cap, y, i);
      FedNextIs(s, cap, z, i);
    }
  }

  // ---------- at most one equilibrium ----------

  ghost predicate IsFedEquilibrium(s: Scene, z: seq<real>)
    requires Sized(s)
  {
    |z| == |s.net| && FedRound(s, z) == z
  }

  /** An equilibrium under the feeds is unique once the people nothing moves are given. */
  lemma FedEquilibriumIsUnique(s: Scene, cap: real, y: seq<real>, z: seq<real>)
    requires Proper(s, cap) && cap < 1.0 && AgreeOnUnmoved(s, y, z)
    requires IsFedEquilibrium(s, y) && IsFedEquilibrium(s, z)
    ensures y == z
  {
    hide Gap, Near, Unmoved, Sized, SaneP, Sane, Susceptible, FedRound, AgreeOnUnmoved;
    var d := LeastBound(y, z);
    EquilibriaCloser(s, cap, y, z, d);
    NonNegative(cap, d);
    OnlyZeroShrinks(cap, d, cap * d);
    NearZero(y, z);
  }

  lemma LeastBound(y: seq<real>, z: seq<real>) returns (d: real)
    requires |y| == |z|
    ensures d >= 0.0 && Near(y, z, d) && forall e :: Near(y, z, e) && e >= 0.0 ==> d <= e
  {
    hide Near;
    d := Gap(y, z, |y|);
    GapIsNear(y, z);
    forall e | Near(y, z, e) && e >= 0.0 ensures d <= e {
      NearIsGap(y, z, e);
    }
  }

  lemma NearZero(y: seq<real>, z: seq<real>)
    requires Near(y, z, 0.0)
    ensures y == z
  {
  }

  lemma EquilibriaCloser(s: Scene, cap: real, y: seq<real>, z: seq<real>, d: real)
    requires Proper(s, cap) && AgreeOnUnmoved(s, y, z) && IsFedEquilibrium(s, y) && IsFedEquilibrium(s, z)
    requires Near(y, z, d) && d >= 0.0
    ensures Near(y, z, cap * d)
  {
    hide Near, Unmoved, Sized, SaneP, Sane, Susceptible, FedRound;
    FedRoundNear(s, cap, y, z, d);
  }

  // ---------- and at least one ----------

  /** The point t of the way from a to b. */
  ghost function Along(t: real, a: real, b: real): real {
    (1.0 - t) * a + t * b
  }

  ghost function AlongAll(t: real, y: seq<real>, z: seq<real>): (x: seq<real>)
    requires |y| == |z|
    ensures |x| == |y|
  {
    seq(|y|, i requires 0 <= i < |y| => Along(t, y[i], z[i]))
  }

  lemma AlongSum(t: real, a: real, b: real, c: real, d: real)
    ensures Along(t, a + c, b + d) == Along(t, a, b) + Along(t, c, d)
  {
  }

  lemma AlongScale(t: real, k: real, a: real, b: real)
    ensures Along(t, k * a, k * b) == k * Along(t, a, b)
  {
    assert (1.0 - t) * (k * a) == k * ((1.0 - t) * a);
    assert t * (k * b) == k * (t * b);
  }

  lemma AlongSame(t: real, a: real)
    ensures Along(t, a, a) == a
  {
  }

  /** A map of the form k * x + c keeps the way between two points. */
  lemma AlongLine(t: real, k: real, c: real, a: real, b: real)
    ensures Along(t, k * a + c, k * b + c) == k * Along(t, a, b) + c
  {
    AlongScale(t, k, a, b);
    AlongSame(t, c);
    AlongSum(t, k * a, k * b, c, c);
  }

  lemma {:induction false} SumAlong(row: seq<nat>, t: real, y: seq<real>, z: seq<real>)
    requires |y| == |z| && forall k :: 0 <= k < |row| ==> row[k] < |y|
    ensures Sum(row, AlongAll(t, y, z)) == Along(t, Sum(row, y), Sum(row, z))
  {
    hide Along;
    if |row| > 0 {
      var init, j := row[..|row| - 1], row[|row| - 1];
      SumAlong(init, t, y, z);
      AlongSum(t, Sum(init, y), Sum(init, z), y[j], z[j]);
    } else {
      AlongSame(t, 0.0);
    }
  }

  lemma MeanAlong(row: seq<nat>, t: real, y: seq<real>, z: seq<real>)
    requires |row| > 0 && |y| == |z| && forall k :: 0 <= k < |row| ==> row[k] < |y|
    ensures Mean(row, AlongAll(t, y, z)) == Along(t, Mean(row, y), Mean(row, z))
  {
    hide Along, Sum, AlongAll;
    SumAlong(row, t, y, z);
    AlongQuotient(t, Sum(row, y), Sum(row, z), |row| as real);
  }

  lemma AlongQuotient(t: real, a: real, b: real, n: real)
    requires n > 0.0
    ensures Along(t, a, b) / n == Along(t, a / n, b / n)
  {
    var p, q := a / n, b / n;
    assert a == n * p && b == n * q;
    AlongScale(t, n, p, q);
    Unscaled(n, Along(t, p, q));
  }

  lemma InputAlong(s: Scene, cap: real, t: real, y: seq<real>, z: seq<real>, i: nat)
    requires Proper(s, cap) && |y| == |z| == |s.net| && i < |y| && !Unmoved(s, i)
    ensures Input(s, AlongAll(t, y, z), i) == Along(t, Input(s, y, i), Input(s, z, i))
  {
    hide Along, Mean, Base, EchoShare, FeedWeight, Line, Blend, SaneP, Sane, Susceptible, Live;
    if |s.net[i]| > 0 { MeanAlong(s.net[i], t, y, z); }
    assert AlongAll(t, y, z)[i] == Along(t, y[i], z[i]);
    if Fed(s, i) {
      LineAlong(Base(s, i), EchoShare(s, i), t, y[i], z[i]);
      if |s.net[i]| > 0 {
        BlendAlong(t, Mean(s.net[i], y), Mean(s.net[i], z), Shows(s, y[i], i), Shows(s, z[i], i));
      }
    }
  }

  lemma MixAlong(l: real, prior: real, t: real, a: real, b: real)
    ensures Mix(l, Along(t, a, b), prior) == Along(t, Mix(l, a, prior), Mix(l, b, prior))
  {
    AlongLine(t, l, (1.0 - l) * prior, a, b);
  }

  lemma BlendAlong(t: real, m: real, n: real, p: Pull, q: Pull)
    requires p.weight == q.weight > 0.0
    ensures Blend(Along(t, m, n), Pull(Along(t, p.mean, q.mean), p.weight)) == Along(t, Blend(m, p), Blend(n, q))
  {
    var w := p.weight / (p.weight + 1.2);
    WeightedAlong(w, 1.0 - w, t, m, n, p.mean, q.mean);
  }

  lemma WeightedAlong(w: real, rest: real, t: real, m: real, n: real, p: real, q: real)
    ensures rest * Along(t, m, n) + w * Along(t, p, q) == Along(t, rest * m + w * p, rest * n + w * q)
  {
    AlongScale(t, rest, m, n);
    AlongScale(t, w, p, q);
    AlongSum(t, rest * m, rest * n, w * p, w * q);
  }

  lemma LineAlong(base: real, echo: real, t: real, a: real, b: real)
    ensures Line(base, echo, Along(t, a, b)) == Along(t, Line(base, echo, a), Line(base, echo, b))
  {
    AlongLine(t, echo, base, a, b);
  }

  /** A round is a straight map: it keeps the way between two fields. */
  lemma FedNextAlong(s: Scene, cap: real, t: real, y: seq<real>, z: seq<real>, i: nat)
    requires Proper(s, cap) && |y| == |z| == |s.net| && i < |y|
    ensures FedNext(s, AlongAll(t, y, z), i) == Along(t, FedNext(s, y, i), FedNext(s, z, i))
  {
    hide Along, FedNext, Input, Unmoved, SaneP, Sane, Susceptible;
    FedNextIs(s, cap, y, i);
    FedNextIs(s, cap, z, i);
    FedNextIs(s, cap, AlongAll(t, y, z), i);
    if !Unmoved(s, i) {
      InputAlong(s, cap, t, y, z, i);
      MixAlong(s.field.lambda[i], s.field.prior[i], t, Input(s, y, i), Input(s, z, i));
    }
  }

  /** Of two fields that differ in person k alone and by one, apart from people below k who are at rest, the round
      moves person k by at most cap. */
  lemma SlopeBelowOne(s: Scene, cap: real, y: seq<real>, z: seq<real>, k: nat)
    requires Proper(s, cap) && cap < 1.0 && AgreeOnUnmoved(s, y, z) && k < |y|
    requires forall i :: 0 <= i < k ==> FedNext(s, y, i) == y[i] && FedNext(s, z, i) == z[i]
    requires z[k] - y[k] == 1.0 && forall i :: k < i < |y| ==> y[i] == z[i]
    ensures Abs(FedNext(s, z, k) - FedNext(s, y, k)) <= cap
  {
    hide Gap, Near, FedNext, SaneP, Sane, Susceptible, Unmoved;
    var d := Gap(y, z, |y|);
    GapIsNear(y, z);
    GapCovers(y, z, |y|, k);
    NonNegative(cap, d);
    var bound := MaxReal(1.0, cap * d);
    forall i | 0 <= i < |y| ensures Abs(z[i] - y[i]) <= bound {
      if i < k { FedNextGap(s, cap, y, z, d, i); }
    }
    GapWithin(y, z, |y|, bound);
    if d > 1.0 { OnlyZeroShrinks(cap, d, cap * d); }
    assert d == 1.0;
    FedNextGap(s, cap, y, z, 1.0, k);
  }

  /** z rests everywhere below k, and is y on everyone from k on and on everyone nothing moves. */
  ghost predicate RestsBelow(s: Scene, y: seq<real>, z: seq<real>, k: nat)
    requires Sized(s) && |y| == |s.net| && k <= |y|
  {
    && |z| == |y|
    && (forall i :: 0 <= i < k ==> FedNext(s, z, i) == z[i])
    && (forall i :: 0 <= i < |y| && (i >= k || Unmoved(s, i)) ==> z[i] == y[i])
  }

  /** Bring people to rest one at a time: the resting point for person k lies on the way between the fields that
      rest below k with k at 0 and at 1. */
  lemma {:induction false} BringToRest(s: Scene, cap: real, y: seq<real>, k: nat) returns (z: seq<real>)
    requires Proper(s, cap) && cap < 1.0 && |y| == |s.net| && k <= |y|
    ensures RestsBelow(s, y, z, k)
    decreases k
  {
    if k == 0 {
      z := y;
    } else if Unmoved(s, k - 1) {
      z := BringToRest(s, cap, y, k - 1);
      FedNextIs(s, cap, z, k - 1);
    } else {
      var z0 := BringToRest(s, cap, y[k - 1 := 0.0], k - 1);
      var z1 := BringToRest(s, cap, y[k - 1 := 1.0], k - 1);
      z := MeetAtRest(s, cap, y, z0, z1, k - 1);
    }
  }

  lemma MeetAtRest(s: Scene, cap: real, y: seq<real>, z0: seq<real>, z1: seq<real>, k: nat) returns (z: seq<real>)
    requires Proper(s, cap) && cap < 1.0 && |y| == |s.net| && k < |y| && !Unmoved(s, k)
    requires RestsBelow(s, y[k := 0.0], z0, k) && RestsBelow(s, y[k := 1.0], z1, k)
    ensures RestsBelow(s, y, z, k + 1)
  {
    hide FedNext, Unmoved, SaneP, Sane, Susceptible, Along;
    SlopeBelowOne(s, cap, z0, z1, k);
    var a, b := FedNext(s, z0, k), FedNext(s, z1, k);
    var t := MeetingPoint(a, b);
    z := AlongAll(t, z0, z1);
    forall i | 0 <= i <= k ensures FedNext(s, z, i) == z[i] {
      FedNextAlong(s, cap, t, z0, z1, i);
    }
    forall i | 0 <= i < |y| && (i > k || Unmoved(s, i)) ensures z[i] == y[i] {
      AlongSame(t, y[i]);
    }
  }

  lemma MeetingPoint(a: real, b: real) returns (t: real)
    requires Abs(b - a) < 1.0
    ensures Along(t, a, b) == t == Along(t, 0.0, 1.0)
  {
    var slope := 1.0 - (b - a);
    t := a / slope;
    assert t * slope == a;
    assert t * slope == t - t * (b - a);
    assert t * (b - a) == t * b - t * a;
  }

  /** From any field there is an equilibrium under the feeds that leaves the people nothing moves where they are. */
  lemma FedEquilibriumExists(s: Scene, cap: real, y: seq<real>) returns (z: seq<real>)
    requires Proper(s, cap) && cap < 1.0 && |y| == |s.net|
    ensures IsFedEquilibrium(s, z) && AgreeOnUnmoved(s, y, z)
  {
    hide FedNext, FedRound, Unmoved, SaneP, Sane, Susceptible;
    z := BringToRest(s, cap, y, |y|);
    forall i | 0 <= i < |y| ensures FedRound(s, z)[i] == z[i] {
      FedRoundAt(s, z, i);
    }
  }

  /** A world has one equilibrium under the feeds, whatever it starts from, exactly when everybody has a tie or a feed;
      anybody with neither may stand anywhere. */
  lemma OneEquilibriumExactlyWhen(s: Scene, cap: real)
    requires Proper(s, cap) && cap < 1.0
    ensures (forall y, z :: IsFedEquilibrium(s, y) && IsFedEquilibrium(s, z) ==> y == z)
      <==> forall i :: 0 <= i < |s.net| ==> !Unmoved(s, i)
  {
    hide Unmoved, FedRound, Sized, SaneP, Sane, Susceptible;
    var n := |s.net|;
    if forall i :: 0 <= i < n ==> !Unmoved(s, i) {
      forall y, z | IsFedEquilibrium(s, y) && IsFedEquilibrium(s, z) ensures y == z {
        FedEquilibriumIsUnique(s, cap, y, z);
      }
    }
    if i :| 0 <= i < n && Unmoved(s, i) {
      var y := FedEquilibriumExists(s, cap, seq(n, _ => 0.0));
      var z := FedEquilibriumExists(s, cap, seq(n, _ => 1.0));
      assert y[i] == 0.0 && z[i] == 1.0;
    }
  }

  // ---------- without feeds ----------

  ghost function NoFeeds(net: Net, f: Field): (s: Scene)
    requires ValidNet(net) && |f.prior| == |f.lambda| == |net|
    ensures Sized(s) && s.net == net && s.field == f && !s.layer.enabled
  {
    var n := |net|;
    Scene(net, f, [], Audience(seq(n, _ => []), seq(n, _ => 0.0)), Layer([], seq(n, _ => false), 0, false))
  }

  /** Without feeds too: Settle approaches something that exists. */
  lemma EquilibriumExists(net: Net, f: Field, y: seq<real>) returns (z: seq<real>)
    requires Fits(net, f, y, None) && Susceptible(f.lambda, 0.8)
    ensures Fits(net, f, z, None) && IsFixed(net, f, z) && AgreeOnIsolated(net, y, z)
  {
    hide Step, Susceptible;
    var s := NoFeeds(net, f);
    z := FedEquilibriumExists(s, 0.8, y);
    forall i | 0 <= i < |net| && |net[i]| == 0 ensures y[i] == z[i] {
      assert Unmoved(s, i);
    }
  }

  /** Settle, from the priors, ends within 4e-5 of the one equilibrium there is. */
  lemma SettleFindsTheEquilibrium(net: Net, f: Field, d: real) returns (z: seq<real>)
    requires Fits(net, f, f.prior, None) && InRange(f.prior) && Susceptible(f.lambda, 0.8)
    ensures Fits(net, f, z, None) && IsFixed(net, f, z) && AgreeOnIsolated(net, f.prior, z)
    ensures forall x :: Fits(net, f, x, None) && IsFixed(net, f, x) && AgreeOnIsolated(net, f.prior, x) ==> x == z
    ensures var s := Settle(net, f, f.prior, 300, 0.00001, d);
      |s.y| == |net| && forall i :: 0 <= i < |net| ==> Abs(s.y[i] - z[i]) <= 0.00004
  {
    hide Settle, Susceptible, InRange, IsFixed;
    z := EquilibriumExists(net, f, f.prior);
    SettleConverges(net, f, d);
    forall x | Fits(net, f, x, None) && IsFixed(net, f, x) && AgreeOnIsolated(net, f.prior, x) ensures x == z {
      EquilibriumIsUnique(net, f, x, z);
    }
  }
}
