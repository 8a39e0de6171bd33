/** Friedkin-Johnsen opinion dynamics over exact reals: one synchronous round, settling, and why it converges. */
module Opinion {
  import opened Common
  import opened Reals

  /** What one person's feeds show: the mean position and how much weight it carries. */
  datatype Pull = Pull(mean: real, weight: real)

  /** The fixed part of a field: priors and susceptibilities. */
  datatype Field = Field(prior: seq<real>, lambda: seq<real>)

  /** pull is None when no feed is live. */
  ghost predicate Fits(net: Net, f: Field, y: seq<real>, pull: Option<seq<Pull>>) {
    && ValidNet(net) && |f.prior| == |f.lambda| == |y| == |net|
    && (pull.Some? ==> |pull.value| == |net|)
  }

  ghost function Sum(row: seq<nat>, y: seq<real>): real
    requires forall k :: 0 <= k < |row| ==> row[k] < |y|
  {
    if |row| == 0 then 0.0 else Sum(row[..|row| - 1], y) + y[row[|row| - 1]]
  }

  ghost function Mean(row: seq<nat>, y: seq<real>): real
    requires |row| > 0 && forall k :: 0 <= k < |row| ==> row[k] < |y|
  {
    Sum(row, y) / |row| as real
  }

  function Blend(social: real, p: Pull): real
    requires p.weight > 0.0
  {
    var phi := p.weight / (p.weight + 1.2);
    (1.0 - phi) * social + phi * p.mean
  }

  /** The social input of person i, if there is any. */
  ghost function Social(net: Net, y: seq<real>, pull: Option<seq<Pull>>, i: nat): Option<real>
    requires ValidNet(net) && |y| == |net| && i < |net| && (pull.Some? ==> |pull.value| == |net|)
  {
    var fed := pull.Some? && pull.value[i].weight > 0.0;
    if |net[i]| > 0 then Some(if fed then Blend(Mean(net[i], y), pull.value[i]) else Mean(net[i], y))
    else if fed then Some(pull.value[i].mean)
    else None
  }

  function Mix(lambda: real, social: real, prior: real): real {
    lambda * social + (1.0 - lambda) * prior
  }

  ghost function Next(net: Net, f: Field, y: seq<real>, pull: Option<seq<Pull>>, i: nat): real
    requires Fits(net, f, y, pull) && i < |net|
  {
    match Social(net, y, pull, i)
    case None => y[i]
    case Some(s) => Mix(f.lambda[i], s, f.prior[i])
  }

  ghost function Step(net: Net, f: Field, y: seq<real>, pull: Option<seq<Pull>>): (z: seq<real>)
    requires Fits(net, f, y, pull)
    ensures |z| == |net|
  {
    seq(|net|, i requires 0 <= i < |net| => Next(net, f, y, pull, i))
  }

  function Abs(x: real): real { if x < 0.0 then -x else x }

  function MaxReal(a: real, b: real): real { if b > a then b else a }

  /** The largest change over the first m people. */
  ghost function Gap(a: seq<real>, b: seq<real>, m: nat): (d: real)
    requires m <= |a| == |b|
    ensures d >= 0.0
  {
    if m == 0 then 0.0 else MaxReal(Gap(a, b, m - 1), Abs(b[m - 1] - a[m - 1]))
  }

  lemma {:induction false} GapCovers(a: seq<real>, b: seq<real>, m: nat, i: nat)
    requires i < m <= |a| == |b|
    ensures Abs(b[i] - a[i]) <= Gap(a, b, m)
  {
    if i < m - 1 { GapCovers(a, b, m - 1, i); }
  }

  lemma {:induction false} GapWithin(a: seq<real>, b: seq<real>, m: nat, d: real)
    requires m <= |a| == |b| && d >= 0.0 && forall i :: 0 <= i < m ==> Abs(b[i] - a[i]) <= d
    ensures Gap(a, b, m) <= d
  {
    if m > 0 { GapWithin(a, b, m - 1, d); }
  }

  // ---------- ranges ----------

  ghost predicate InRange(y: seq<real>) {
    forall i :: 0 <= i < |y| ==> -1.0 <= y[i] <= 1.0
  }

  ghost predicate Shares(s: seq<real>) {
    forall i :: 0 <= i < |s| ==> 0.0 <= s[i] <= 1.0
  }

  lemma {:induction false} SumInRange(row: seq<nat>, y: seq<real>)
    requires InRange(y) && forall k :: 0 <= k < |row| ==> row[k] < |y|
    ensures -(|row| as real) <= Sum(row, y) <= |row| as real
  {
    if |row| > 0 { SumInRange(row[..|row| - 1], y); }
  }

  /** A feed's weight never reaches one, however large: there is always some peer input left. */
  lemma PhiSaturates(w: real)
    requires w > 0.0
    ensures 0.0 < w / (w + 1.2) < 1.0
  {
    assert w / (w + 1.2) * (w + 1.2) == w;
  }

  lemma MeanInRange(row: seq<nat>, y: seq<real>)
    requires |row| > 0 && InRange(y) && forall k :: 0 <= k < |row| ==> row[k] < |y|
    ensures -1.0 <= Mean(row, y) <= 1.0
  {
    SumInRange(row, y);
    QuotientWithin(Sum(row, y), |row| as real, 1.0);
  }

  /** A round keeps every opinion in [-1, 1], feeds included. */
  lemma StepInRange(net: Net, f: Field, y: seq<real>, pull: Option<seq<Pull>>)
    requires Fits(net, f, y, pull) && InRange(y) && InRange(f.prior) && Shares(f.lambda)
    requires pull.Some? ==> forall i :: 0 <= i < |net| ==> -1.0 <= pull.value[i].mean <= 1.0
    ensures InRange(Step(net, f, y, pull))
  {
    hide Sum, Mean, Blend;
    forall i | 0 <= i < |net| ensures -1.0 <= Step(net, f, y, pull)[i] <= 1.0 {
      if |net[i]| > 0 { MeanInRange(net[i], y); }
      if |net[i]| > 0 && pull.Some? && pull.value[i].weight > 0.0 {
        BlendInRange(Mean(net[i], y), pull.value[i]);
      }
      match Social(net, y, pull, i)
      case None =>
      case Some(s) => MixInRange(f.lambda[i], s, f.prior[i]);
    }
  }

  lemma BlendInRange(social: real, p: Pull)
    requires p.weight > 0.0 && -1.0 <= social <= 1.0 && -1.0 <= p.mean <= 1.0
    ensures -1.0 <= Blend(social, p) <= 1.0
  {
    PhiSaturates(p.weight);
    MixInRange(p.weight / (p.weight + 1.2), p.mean, social);
  }

  // ---------- contraction ----------

  /** No peer ties and, without feeds, nothing to move toward. */
  ghost predicate AgreeOnIsolated(net: Net, y: seq<real>, z: seq<real>) {
    |y| == |z| == |net| && forall i :: 0 <= i < |net| && |net[i]| == 0 ==> y[i] == z[i]
  }

  ghost predicate Near(y: seq<real>, z: seq<real>, d: real) {
    |y| == |z| && forall i :: 0 <= i < |y| ==> Abs(z[i] - y[i]) <= d
  }

  lemma NearAt(y: seq<real>, z: seq<real>, d: real, i: nat)
    requires Near(y, z, d) && i < |y|
    ensures -d <= z[i] - y[i] <= d
  {
  }

  lemma {:induction false} SumGap(row: seq<nat>, y: seq<real>, z: seq<real>, d: real)
    requires |y| == |z| && forall k :: 0 <= k < |row| ==> row[k] < |y|
    requires Near(y, z, d)
    ensures -(|row| as real * d) <= Sum(row, z) - Sum(row, y) <= |row| as real * d
  {
    hide Near;
    if |row| > 0 {
      var init, j := row[..|row| - 1], row[|row| - 1];
      SumGap(init, y, z, d);
      NearAt(y, z, d, j);
      OneMore(|init|, d, Sum(init, z) - Sum(init, y), z[j] - y[j]);
    }
  }

  lemma OneMore(n: nat, d: real, s: real, x: real)
    requires -(n as real * d) <= s <= n as real * d && -d <= x <= d
    ensures -((n + 1) as real * d) <= s + x <= (n + 1) as real * d
  {
    assert (n + 1) as real * d == n as real * d + d;
  }

  lemma MeanGap(row: seq<nat>, y: seq<real>, z: seq<real>, d: real)
    requires |row| > 0 && |y| == |z| && forall k :: 0 <= k < |row| ==> row[k] < |y|
    requires Near(y, z, d)
    ensures -d <= Mean(row, z) - Mean(row, y) <= d
  {
    hide Sum, Near;
    SumGap(row, y, z, d);
    QuotientWithin(Sum(row, z) - Sum(row, y), |row| as real, d);
    QuotientDifference(Sum(row, y), Sum(row, z), |row| as real);
  }

  ghost predicate Susceptible(lambda: seq<real>, cap: real) {
    forall i :: 0 <= i < |lambda| ==> 0.0 <= lambda[i] <= cap
  }

  /** Two fields that agree on isolated people come closer by the largest susceptibility in every round. */
  lemma {:induction false} StepContracts(net: Net, f: Field, y: seq<real>, z: seq<real>, cap: real)
    requires Fits(net, f, y, None) && Fits(net, f, z, None) && AgreeOnIsolated(net, y, z)
    requires Susceptible(f.lambda, cap) && cap >= 0.0
    ensures Gap(Step(net, f, y, None), Step(net, f, z, None), |net|) <= cap * Gap(y, z, |net|)
    ensures AgreeOnIsolated(net, Step(net, f, y, None), Step(net, f, z, None))
  {
    hide Sum, Mean, Gap, Mix;
    var d := Gap(y, z, |net|);
    var y', z' := Step(net, f, y, None), Step(net, f, z, None);
    forall i | 0 <= i < |net| ensures Abs(z[i] - y[i]) <= d {
      GapCovers(y, z, |net|, i);
    }
    assert Near(y, z, d);
    forall i | 0 <= i < |net| ensures Abs(z'[i] - y'[i]) <= cap * d {
      NextGap(net, f, y, z, cap, d, i);
    }
    GapWithin(y', z', |net|, cap * d);
  }

  lemma NextGap(net: Net, f: Field, y: seq<real>, z: seq<real>, cap: real, d: real, i: nat)
    requires Fits(net, f, y, None) && Fits(net, f, z, None) && i < |net|
    requires |net[i]| == 0 ==> y[i] == z[i]
    requires Susceptible(f.lambda, cap) && cap >= 0.0 && d >= 0.0
    requires Near(y, z, d)
    ensures Abs(Next(net, f, z, None, i) - Next(net, f, y, None, i)) <= cap * d
  {
    hide Sum, Mean, Near, Mix;
    if |net[i]| > 0 {
      MeanGap(net[i], y, z, d);
      MixGap(f.lambda[i], cap, Mean(net[i], y), Mean(net[i], z), f.prior[i], d);
    } else {
      ProductBound(cap, d, cap, d);
    }
  }

  lemma MixGap(l: real, cap: real, a: real, b: real, prior: real, d: real)
    requires 0.0 <= l <= cap && -d <= b - a <= d
    ensures Abs(Mix(l, b, prior) - Mix(l, a, prior)) <= cap * d
  {
    Scaled(l, cap, b - a, d);
    assert Mix(l, b, prior) - Mix(l, a, prior) == l * (b - a);
  }

  // ---------- settling ----------

  ghost function Iterate(net: Net, f: Field, y: seq<real>, k: nat): (z: seq<real>)
    requires Fits(net, f, y, None)
    ensures Fits(net, f, z, None)
  {
    if k == 0 then y else Step(net, f, Iterate(net, f, y, k - 1), None)
  }

  ghost function Delta(net: Net, f: Field, y: seq<real>, k: nat): real
    requires Fits(net, f, y, None) && k > 0
  {
    Gap(Iterate(net, f, y, k - 1), Iterate(net, f, y, k), |net|)
  }

  lemma {:induction false} IteratesAgree(net: Net, f: Field, y: seq<real>, k: nat)
    requires Fits(net, f, y, None)
    ensures AgreeOnIsolated(net, Iterate(net, f, y, k), Iterate(net, f, y, k + 1))
  {
  }

  /** Successive changes shrink by the largest susceptibility. */
  lemma {:induction false} DeltaShrinks(net: Net, f: Field, y: seq<real>, cap: real, k: nat)
    requires Fits(net, f, y, None) && Susceptible(f.lambda, cap) && cap >= 0.0 && k > 0
    ensures Delta(net, f, y, k + 1) <= cap * Delta(net, f, y, k)
  {
    hide Gap, Step;
    IteratesAgree(net, f, y, k - 1);
    StepContracts(net, f, Iterate(net, f, y, k - 1), Iterate(net, f, y, k), cap);
  }

  lemma {:induction false} DeltaDecays(net: Net, f: Field, y: seq<real>, cap: real, first: real, k: nat)
    requires Fits(net, f, y, None) && Susceptible(f.lambda, cap) && cap >= 0.0
    requires Delta(net, f, y, 1) <= first
    ensures Delta(net, f, y, k + 1) <= first * Power(cap, k)
  {
    hide Delta;
    if k > 0 {
      DeltaDecays(net, f, y, cap, first, k - 1);
      DeltaShrinks(net, f, y, cap, k);
      ScaleBound(cap, Delta(net, f, y, k), first, Power(cap, k - 1));
    }
  }

  /** From the priors, the first round moves no one by more than 1.6. */
  lemma FirstDelta(net: Net, f: Field)
    requires Fits(net, f, f.prior, None) && InRange(f.prior) && Susceptible(f.lambda, 0.8)
    ensures Delta(net, f, f.prior, 1) <= 1.6
  {
    hide Sum, Mean;
    var y, z := f.prior, Step(net, f, f.prior, None);
    assert Iterate(net, f, y, 0) == y && Iterate(net, f, y, 1) == z;
    forall i | 0 <= i < |net| ensures Abs(z[i] - y[i]) <= 1.6 {
      if |net[i]| > 0 {
        MeanInRange(net[i], y);
        var m := Mean(net[i], y);
        Scaled(f.lambda[i], 0.8, m - y[i], 2.0);
        assert Mix(f.lambda[i], m, y[i]) - y[i] == f.lambda[i] * (m - y[i]);
      }
    }
    GapWithin(y, z, |net|, 1.6);
  }

  /** Settle: rounds taken, the last change, and the field it leaves. */
  datatype Settled = Settled(rounds: nat, delta: real, y: seq<real>)

  /** d is the change so far; the source starts it at infinity, which any value stands for when maxRounds > 0. */
  ghost function Settle(net: Net, f: Field, y: seq<real>, maxRounds: nat, tol: real, d: real): (s: Settled)
    requires Fits(net, f, y, None)
    ensures s.rounds <= maxRounds
    decreases maxRounds
  {
    if maxRounds == 0 then Settled(0, d, y)
    else
      var z := Step(net, f, y, None);
      var e := Gap(y, z, |net|);
      if e < tol then Settled(1, e, z)
      else var s := Settle(net, f, z, maxRounds - 1, tol, e); s.(rounds := s.rounds + 1)
  }

  lemma {:induction false} IterateShift(net: Net, f: Field, y: seq<real>, k: nat)
    requires Fits(net, f, y, None)
    ensures Iterate(net, f, Step(net, f, y, None), k) == Iterate(net, f, y, k + 1)
  {
    if k > 0 { IterateShift(net, f, y, k - 1); }
  }

  /** If the change after some k rounds within the budget is below tol, Settle stops by then, at an iterate. */
  lemma {:induction false} SettleStops(net: Net, f: Field, y: seq<real>, maxRounds: nat, tol: real, d: real, k: nat)
    requires Fits(net, f, y, None) && 0 < k <= maxRounds && Delta(net, f, y, k) < tol
    ensures var s := Settle(net, f, y, maxRounds, tol, d);
      0 < s.rounds <= k && s.delta < tol && s.y == Iterate(net, f, y, s.rounds) && s.delta == Delta(net, f, y, s.rounds)
    decreases maxRounds
  {
    hide Step, Gap;
    var z := Step(net, f, y, None);
    assert Iterate(net, f, y, 0) == y && Iterate(net, f, y, 1) == z;
    if Gap(y, z, |net|) >= tol {
      IterateShift(net, f, y, k - 1);
      IterateShift(net, f, y, k - 2);
      SettleStops(net, f, z, maxRounds - 1, tol, Gap(y, z, |net|), k - 1);
      var s := Settle(net, f, z, maxRounds - 1, tol, Gap(y, z, |net|));
      IterateShift(net, f, y, s.rounds);
      IterateShift(net, f, y, s.rounds - 1);
    }
  }

  ghost predicate IsFixed(net: Net, f: Field, z: seq<real>)
    requires Fits(net, f, z, None)
  {
    Step(net, f, z, None) == z
  }

  lemma {:induction false} GapTriangle(a: seq<real>, b: seq<real>, c: seq<real>, m: nat)
    requires m <= |a| == |b| == |c|
    ensures Gap(a, c, m) <= Gap(b, a, m) + Gap(b, c, m)
  {
    if m > 0 { GapTriangle(a, b, c, m - 1); }
  }

  /** The last change bounds the distance left to any fixed point. */
  lemma {:induction false} ErrorBound(net: Net, f: Field, y: seq<real>, z: seq<real>)
    requires Fits(net, f, y, None) && Fits(net, f, z, None) && Susceptible(f.lambda, 0.8)
    requires IsFixed(net, f, z) && AgreeOnIsolated(net, y, z)
    ensures Gap(Step(net, f, y, None), z, |net|) <= 4.0 * Gap(y, Step(net, f, y, None), |net|)
  {
    hide Gap, Step;
    var y' := Step(net, f, y, None);
    StepContracts(net, f, y, z, 0.8);
    GapTriangle(y, y', z, |net|);
    GapSymmetric(y, y', |net|);
  }

  lemma {:induction false} GapSymmetric(a: seq<real>, b: seq<real>, m: nat)
    requires m <= |a| == |b|
    ensures Gap(a, b, m) == Gap(b, a, m)
  {
    if m > 0 { GapSymmetric(a, b, m - 1); }
  }

  lemma {:induction false} IterateKeepsIsolated(net: Net, f: Field, y: seq<real>, z: seq<real>, k: nat)
    requires Fits(net, f, y, None) && AgreeOnIsolated(net, y, z)
    ensures AgreeOnIsolated(net, Iterate(net, f, y, k), z)
  {
    if k > 0 { IterateKeepsIsolated(net, f, y, z, k - 1); }
  }

  /** With susceptibilities up to 0.8 and priors in range, Settle(g, 300, 1e-5) from the priors is done within 55
      rounds, and leaves everyone within 4e-5 of any equilibrium that agrees with the priors of isolated people. */
  lemma {:induction false} SettleConverges(net: Net, f: Field, d: real)
    requires Fits(net, f, f.prior, None) && InRange(f.prior) && Susceptible(f.lambda, 0.8)
    ensures var s := Settle(net, f, f.prior, 300, 0.00001, d);
      && s.rounds <= 55 && s.delta < 0.00001 && |s.y| == |net|
      && forall z: seq<real>, i ::
           Fits(net, f, z, None) && IsFixed(net, f, z) && AgreeOnIsolated(net, f.prior, z) && 0 <= i < |net|
           ==> Abs(s.y[i] - z[i]) <= 0.00004
  {
    hide Gap, Step, Delta, Power, Settle, IsFixed, InRange, Susceptible;
    var y := f.prior;
    FirstDelta(net, f);
    DeltaDecays(net, f, y, 0.8, 1.6, 54);
    FiftyFourRounds();
    SettleStops(net, f, y, 300, 0.00001, d, 55);
    var s := Settle(net, f, y, 300, 0.00001, d);
    forall z: seq<real>, i |
      Fits(net, f, z, None) && IsFixed(net, f, z) && AgreeOnIsolated(net, y, z) && 0 <= i < |net|
      ensures Abs(s.y[i] - z[i]) <= 0.00004
    {
      SettledNear(net, f, s, z, i);
    }
  }

  lemma {:induction false} SettledNear(net: Net, f: Field, s: Settled, z: seq<real>, i: nat)
    requires Fits(net, f, f.prior, None) && Fits(net, f, z, None) && Susceptible(f.lambda, 0.8) && i < |net|
    requires IsFixed(net, f, z) && AgreeOnIsolated(net, f.prior, z)
    requires s.rounds > 0 && s.y == Iterate(net, f, f.prior, s.rounds) && s.delta == Delta(net, f, f.prior, s.rounds)
    requires s.delta < 0.00001
    ensures Abs(s.y[i] - z[i]) <= 0.00004
  {
    hide Gap, Step;
    var last := Iterate(net, f, f.prior, s.rounds - 1);
    IterateKeepsIsolated(net, f, f.prior, z, s.rounds - 1);
    ErrorBound(net, f, last, z);
    GapCovers(s.y, z, |net|, i);
  }

  /** An equilibrium is unique once the isolated people are given. */
  lemma EquilibriumIsUnique(net: Net, f: Field, y: seq<real>, z: seq<real>)
    requires Fits(net, f, y, None) && Fits(net, f, z, None) && Susceptible(f.lambda, 0.8)
    requires IsFixed(net, f, y) && IsFixed(net, f, z) && AgreeOnIsolated(net, y, z)
    ensures y == z
  {
    hide Gap, Step;
    StepContracts(net, f, y, z, 0.8);
    forall i | 0 <= i < |net| ensures y[i] == z[i] {
      GapCovers(y, z, |net|, i);
    }
  }

  // ---------- pinned agents ----------

  /** Broadcast: each listed person stops listening and takes the stance. */
  ghost function Pinned(f: Field, ids: seq<nat>, stance: real, k: nat): (g: Field)
    requires |f.prior| == |f.lambda| && k <= |ids| && forall j :: 0 <= j < |ids| ==> ids[j] < |f.prior|
    ensures |g.prior| == |g.lambda| == |f.prior|
  {
    if k == 0 then f
    else
      var g := Pinned(f, ids, stance, k - 1);
      Field(g.prior[ids[k - 1] := stance], g.lambda[ids[k - 1] := 0.0])
  }

  lemma {:induction false} PinnedAt(f: Field, ids: seq<nat>, stance: real, k: nat, i: nat)
    requires |f.prior| == |f.lambda| && k <= |ids| && forall j :: 0 <= j < |ids| ==> ids[j] < |f.prior|
    requires i < |f.prior|
    ensures var g := Pinned(f, ids, stance, k);
      if i in ids[..k] then g.prior[i] == stance && g.lambda[i] == 0.0
      else g.prior[i] == f.prior[i] && g.lambda[i] == f.lambda[i]
  {
    if k > 0 {
      PinnedAt(f, ids, stance, k - 1, i);
      assert ids[..k] == ids[..k - 1] + [ids[k - 1]];
    }
  }

  /** A pinned broadcaster holds the stance through a round, whatever the network and the feeds do. */
  lemma PinnedStays(net: Net, f: Field, y: seq<real>, pull: Option<seq<Pull>>, i: nat)
    requires Fits(net, f, y, pull) && i < |net| && f.lambda[i] == 0.0 && y[i] == f.prior[i]
    ensures Step(net, f, y, pull)[i] == f.prior[i]
  {
  }

  /** k rounds, each with whatever the feeds show in it. */
  ghost function Steps(net: Net, f: Field, y: seq<real>, pulls: seq<Option<seq<Pull>>>, k: nat): (z: seq<real>)
    requires k <= |pulls| && forall j :: 0 <= j < |pulls| ==> Fits(net, f, y, pulls[j])
    requires Fits(net, f, y, None)
    ensures |z| == |net|
  {
    if k == 0 then y else Step(net, f, Steps(net, f, y, pulls, k - 1), pulls[k - 1])
  }

  lemma {:induction false} PinnedForever(net: Net, f: Field, y: seq<real>, pulls: seq<Option<seq<Pull>>>, k: nat,
                                         i: nat)
    requires k <= |pulls| && forall j :: 0 <= j < |pulls| ==> Fits(net, f, y, pulls[j])
    requires Fits(net, f, y, None) && i < |net| && f.lambda[i] == 0.0 && y[i] == f.prior[i]
    ensures Steps(net, f, y, pulls, k)[i] == f.prior[i]
  {
    hide Step;
    if k > 0 {
      PinnedForever(net, f, y, pulls, k - 1, i);
      PinnedStays(net, f, Steps(net, f, y, pulls, k - 1), pulls[k - 1], i);
    }
  }

  /** So a broadcaster pinned by Broadcast holds the stance through every later round, whatever the network and the
      feeds do. */
  lemma BroadcastLasts(net: Net, f: Field, y: seq<real>, ids: seq<nat>, stance: real,
                       pulls: seq<Option<seq<Pull>>>, k: nat, i: nat)
    requires ValidNet(net) && |f.prior| == |f.lambda| == |y| == |net| && k <= |pulls|
    requires (forall j :: 0 <= j < |ids| ==> ids[j] < |net|) && i in ids && y[i] == stance
    requires forall j :: 0 <= j < |pulls| ==> pulls[j].Some? ==> |pulls[j].value| == |net|
    ensures Steps(net, Pinned(f, ids, stance, |ids|), y, pulls, k)[i] == stance
  {
    PinnedAt(f, ids, stance, |ids|, i);
    PinnedForever(net, Pinned(f, ids, stance, |ids|), y, pulls, k, i);
  }

  /** Pinning keeps every range, for a stance in range. */
  lemma PinningInRange(f: Field, ids: seq<nat>, stance: real, cap: real)
    requires |f.prior| == |f.lambda| && forall j :: 0 <= j < |ids| ==> ids[j] < |f.prior|
    requires InRange(f.prior) && Susceptible(f.lambda, cap) && cap >= 0.0 && -1.0 <= stance <= 1.0
    ensures var g := Pinned(f, ids, stance, |ids|); InRange(g.prior) && Susceptible(g.lambda, cap)
  {
    forall i | 0 <= i < |f.prior| {
      PinnedAt(f, ids, stance, |ids|, i);
    }
  }

  /** What NewOpinion draws per person: a projected prior clamped to the range, and a susceptibility by stratum;
      u is a draw from [0, 1). */
  datatype Stratum = General | Media | HighNetWorth

  function DrawnPrior(base: real, noise: real): real {
    var s := base * 0.8 + noise * 0.3;
    if s < -1.0 then -1.0 else if s > 1.0 then 1.0 else s
  }

  function DrawnLambda(stratum: Stratum, u: real): real {
    match stratum
    case General => 0.35 + 0.45 * u
    case Media => 0.02 + 0.06 * u
    case HighNetWorth => 0.15 + 0.25 * u
  }

  /** Every drawn field meets the hypotheses of SettleConverges. */
  lemma DrawsAreInRange(stratum: Stratum, base: real, noise: real, u: real)
    requires 0.0 <= u < 1.0
    ensures -1.0 <= DrawnPrior(base, noise) <= 1.0 && 0.0 < DrawnLambda(stratum, u) < 0.8
  {
  }

  /** A prior is eight tenths of the archetype's position and three of the noise, cut off at the ends of the range; a
      susceptibility lies evenly between the ends of its stratum's own, broadcasters listening least. */
  lemma DrawsAre(stratum: Stratum, base: real, noise: real, u: real)
    requires 0.0 <= u < 1.0
    ensures var p, x := DrawnPrior(base, noise), (8.0 * base + 3.0 * noise) / 10.0;
      (-1.0 <= x <= 1.0 ==> p == x) && (x < -1.0 ==> p == -1.0) && (x > 1.0 ==> p == 1.0)
    ensures var (lo, hi) := match stratum
                            case General => (0.35, 0.8)
                            case Media => (0.02, 0.08)
                            case HighNetWorth => (0.15, 0.4);
      DrawnLambda(stratum, u) == (1.0 - u) * lo + u * hi
    ensures DrawnLambda(Media, u) < DrawnLambda(HighNetWorth, u) < DrawnLambda(General, u)
  {
  }

  // ---------- the object ----------

  class OpinionField {
    var y: array<real>
    var next: array<real>
    const prior: array<real>
    const lambda: array<real>

    ghost predicate Valid(net: Net)
      reads this
    {
      && ValidNet(net) && y != next && y != prior && y != lambda && next != prior && next != lambda && prior != lambda
      && y.Length == next.Length == prior.Length == lambda.Length == |net|
    }

    ghost function Now(): Field
      reads this, prior, lambda
    {
      Field(prior[..], lambda[..])
    }

    ghost function Repr(): set<object>
      reads this
    {
      {this, y, next, prior, lambda}
    }

    /** NewOpinion: Y starts at the prior. */
    constructor (f: Field)
      requires |f.prior| == |f.lambda|
      ensures Now() == f && y[..] == f.prior
      ensures y.Length == next.Length == prior.Length == lambda.Length == |f.prior|
      ensures fresh(y) && fresh(next) && fresh(prior) && fresh(lambda)
      ensures y != next && y != prior && y != lambda && next != prior && next != lambda && prior != lambda
    {
      var n := |f.prior|;
      y := new real[n](i requires 0 <= i < n => f.prior[i]);
      next := new real[n](_ => 0.0);
      prior := new real[n](i requires 0 <= i < n => f.prior[i]);
      lambda := new real[n](i requires 0 <= i < n => f.lambda[i]);
      new;
      assert Now() == f && y[..] == f.prior;
    }

    method SumOf(row: seq<nat>) returns (s: real)
      requires forall k :: 0 <= k < |row| ==> row[k] < y.Length
      ensures s == Sum(row, y[..])
    {
      s := 0.0;
      for k := 0 to |row|
        invariant s == Sum(row[..k], y[..])
      {
        assert row[..k + 1][..k] == row[..k];
        s := s + y[row[k]];
      }
      assert row[..|row|] == row;
    }

    /** The social input of one person, blended with what their feeds show. */
    method SocialOf(net: Net, pull: Option<seq<Pull>>, i: nat) returns (s: Option<real>)
      requires Valid(net) && i < |net| && (pull.Some? ==> |pull.value| == |net|)
      ensures s == Social(net, y[..], pull, i)
    {
      hide Sum, Blend;
      var nb := net[i];
      var social := 0.0;
      var haveSocial := false;
      if |nb| > 0 {
        social := SumOf(nb);
        social := social / |nb| as real;
        haveSocial := true;
      }
      if pull.Some? && pull.value[i].weight > 0.0 {
        if !haveSocial {
          social, haveSocial := pull.value[i].mean, true;
        } else {
          social := Blend(social, pull.value[i]);
        }
      }
      return if haveSocial then Some(social) else None;
    }

    /** One synchronous round into the second buffer, then the swap; returns the largest change. */
    method StepWith(net: Net, pull: Option<seq<Pull>>) returns (maxDelta: real)
      requires Valid(net) && (pull.Some? ==> |pull.value| == |net|)
      modifies this`y, this`next, next
      ensures Valid(net) && y == old(next) && next == old(y)
      ensures Now() == old(Now()) && y[..] == Step(net, old(Now()), old(y[..]), pull)
      ensures maxDelta == Gap(old(y[..]), y[..], |net|)
    {
      hide Sum, Social, Gap, Step;
      ghost var f, was := Now(), y[..];
      maxDelta := 0.0;
      GapStart(was, Step(net, f, was, pull));
      for i := 0 to y.Length
        invariant Valid(net) && y == old(y) && next == old(next) && y[..] == was && Now() == f
        invariant next[..i] == Step(net, f, was, pull)[..i]
        invariant maxDelta == Gap(was, Step(net, f, was, pull), i)
      {
        var social := SocialOf(net, pull, i);
        var nv := y[i];
        if social.Some? {
          nv := Mix(lambda[i], social.value, prior[i]);
        }
        StepAt(net, f, was, pull, i);
        GapStep(was, Step(net, f, was, pull), i);
        next[i] := nv;
        var d := Abs(nv - y[i]);
        if d > maxDelta {
          maxDelta := d;
        }
        assert next[..i + 1] == next[..i] + [nv];
      }
      y, next := next, y;
    }

    /** Settle over peer ties.  d is what the source calls infinity until the first round. */
    method SettleTo(net: Net, maxRounds: nat, tol: real, infinity: real) returns (r: nat, d: real)
      requires Valid(net)
      modifies this`y, this`next, y, next
      ensures Valid(net) && {y, next} == old({y, next}) && Now() == old(Now())
      ensures Settled(r, d, y[..]) == Settle(net, old(Now()), old(y[..]), maxRounds, tol, infinity)
    {
      hide Gap, Step;
      r, d := 0, infinity;
      ghost var f := Now();
      ghost var goal := Settle(net, f, y[..], maxRounds, tol, infinity);
      while r < maxRounds
        invariant Valid(net) && {y, next} == old({y, next}) && Now() == f && r <= maxRounds
        invariant var s := Settle(net, f, y[..], maxRounds - r, tol, d); goal == s.(rounds := s.rounds + r)
      {
        d := StepWith(net, None);
        r := r + 1;
        if d < tol {
          return;
        }
      }
    }

    /** Broadcast returns the susceptibilities it overwrote. */
    method Broadcast(ids: seq<nat>, stance: real) returns (prev: seq<real>)
      requires y.Length == prior.Length == lambda.Length && y != prior && y != lambda && prior != lambda
      requires forall j :: 0 <= j < |ids| ==> ids[j] < y.Length
      modifies y, prior, lambda
      ensures Now() == Pinned(old(Now()), ids, stance, |ids|)
      ensures forall i :: 0 <= i < y.Length ==> y[i] == if i in ids then stance else old(y[i])
      ensures |prev| == |ids|
      ensures (forall j, k :: 0 <= j < k < |ids| ==> ids[j] != ids[k]) ==>
        forall k :: 0 <= k < |ids| ==> prev[k] == old(lambda[ids[k]])
    {
      prev := [];
      ghost var f := Now();
      for k := 0 to |ids|
        invariant |prev| == k && Now() == Pinned(f, ids, stance, k)
        invariant forall i :: 0 <= i < y.Length ==> y[i] == if i in ids[..k] then stance else old(y[i])
        invariant (forall j, k :: 0 <= j < k < |ids| ==> ids[j] != ids[k]) ==>
          forall j :: 0 <= j < k ==> prev[j] == f.lambda[ids[j]]
      {
        PinnedAt(f, ids, stance, k, ids[k]);
        assert ids[..k + 1] == ids[..k] + [ids[k]];
        prev := prev + [lambda[ids[k]]];
        lambda[ids[k]] := 0.0;
        prior[ids[k]] := stance;
        y[ids[k]] := stance;
        assert Now() == Pinned(f, ids, stance, k + 1);
      }
      assert ids[..|ids|] == ids;
    }
  }

  lemma GapStart(a: seq<real>, b: seq<real>)
    requires |a| == |b|
    ensures Gap(a, b, 0) == 0.0
  {
  }

  lemma GapStep(a: seq<real>, b: seq<real>, m: nat)
    requires m < |a| == |b|
    ensures Gap(a, b, m + 1) == MaxReal(Gap(a, b, m), Abs(b[m] - a[m]))
  {
  }

  lemma StepAt(net: Net, f: Field, y: seq<real>, pull: Option<seq<Pull>>, i: nat)
    requires Fits(net, f, y, pull) && i < |net|
    ensures Step(net, f, y, pull)[i] == match Social(net, y, pull, i)
      case None => y[i]
      case Some(s) => Mix(f.lambda[i], s, f.prior[i])
  {
  }
}
