/** What one person's opinion reads in a round, and how much each of it counts.
    Stated of whole rounds, one neighbour or one feed at a time. */
module Averaging {
  import opened Common
  import opened Opinion
  import opened Reals

  lemma {:induction false} SumAvoids(row: seq<nat>, y: seq<real>, j: nat, v: real)
    requires j < |y| && forall k :: 0 <= k < |row| ==> row[k] < |y| && row[k] != j
    ensures Sum(row, y[j := v]) == Sum(row, y)
  {
    if |row| > 0 { SumAvoids(row[..|row| - 1], y, j, v); }
  }

  /** Somebody listed at place k and nowhere else. */
  ghost predicate ListedOnce(row: seq<nat>, k: nat) {
    k < |row| && forall m :: 0 <= m < |row| && m != k ==> row[m] != row[k]
  }

  lemma {:induction false} SumRaised(row: seq<nat>, y: seq<real>, k: nat, d: real)
    requires (forall m :: 0 <= m < |row| ==> row[m] < |y|) && ListedOnce(row, k)
    ensures Sum(row, y[row[k] := y[row[k]] + d]) == Sum(row, y) + d
  {
    var init, last := row[..|row| - 1], |row| - 1;
    if k == last {
      SumAvoids(init, y, row[k], y[row[k]] + d);
    } else {
      SumRaised(init, y, k, d);
    }
  }

  lemma MeanRaised(row: seq<nat>, y: seq<real>, k: nat, d: real)
    requires (forall m :: 0 <= m < |row| ==> row[m] < |y|) && ListedOnce(row, k)
    ensures Mean(row, y[row[k] := y[row[k]] + d]) == Mean(row, y) + d / |row| as real
  {
    hide Sum;
    SumRaised(row, y, k, d);
    QuotientDifference(Sum(row, y), Sum(row, y) + d, |row| as real);
  }

  lemma {:induction false} SumAgrees(row: seq<nat>, y: seq<real>, c: real)
    requires forall k :: 0 <= k < |row| ==> row[k] < |y| && y[row[k]] == c
    ensures Sum(row, y) == |row| as real * c
  {
    if |row| > 0 { SumAgrees(row[..|row| - 1], y, c); }
  }

  lemma MeanAgrees(row: seq<nat>, y: seq<real>, c: real)
    requires |row| > 0 && forall k :: 0 <= k < |row| ==> row[k] < |y| && y[row[k]] == c
    ensures Mean(row, y) == c
  {
    hide Sum;
    SumAgrees(row, y, c);
    Unscaled(|row| as real, c);
  }

  ghost predicate Fed(pull: Option<seq<Pull>>, i: nat)
    requires pull.Some? ==> i < |pull.value|
  {
    pull.Some? && pull.value[i].weight > 0.0
  }

  /** How much of the social input is left to the neighbours. */
  ghost function PeerShare(pull: Option<seq<Pull>>, i: nat): real
    requires pull.Some? ==> i < |pull.value|
  {
    if Fed(pull, i) then 1.2 / (pull.value[i].weight + 1.2) else 1.0
  }

  lemma BlendMoves(social: real, d: real, p: Pull)
    requires p.weight > 0.0
    ensures Blend(social + d, p) - Blend(social, p) == 1.2 / (p.weight + 1.2) * d
  {
    var phi := p.weight / (p.weight + 1.2);
    assert phi * (p.weight + 1.2) == p.weight;
    assert 1.0 - phi == 1.2 / (p.weight + 1.2);
    assert (1.0 - phi) * (social + d) == (1.0 - phi) * social + (1.0 - phi) * d;
  }

  lemma MixMoves(lambda: real, s: real, d: real, prior: real)
    ensures Mix(lambda, s + d, prior) - Mix(lambda, s, prior) == lambda * d
  {
  }

  ghost function Heard(m: real, pull: Option<seq<Pull>>, i: nat): real
    requires pull.Some? ==> i < |pull.value|
  {
    if Fed(pull, i) then Blend(m, pull.value[i]) else m
  }

  lemma HeardMoves(m: real, e: real, pull: Option<seq<Pull>>, i: nat)
    requires pull.Some? ==> i < |pull.value|
    ensures Heard(m + e, pull, i) == Heard(m, pull, i) + PeerShare(pull, i) * e
  {
    if Fed(pull, i) {
      BlendMoves(m, e, pull.value[i]);
      hide Blend;
    }
  }

  lemma NextWithNeighbours(net: Net, f: Field, y: seq<real>, pull: Option<seq<Pull>>, i: nat)
    requires Opinion.Fits(net, f, y, pull) && i < |net| && |net[i]| > 0
    ensures Step(net, f, y, pull)[i] == Mix(f.lambda[i], Heard(Mean(net[i], y), pull, i), f.prior[i])
  {
    hide Mean, Blend, Mix;
  }

  /** Raising one neighbour by d moves the reader by susceptibility times d over the number of neighbours, and by that
      share of it which a feed leaves to neighbours; the same for every neighbour. */
  lemma OneNeighbourMoves(net: Net, f: Field, y: seq<real>, pull: Option<seq<Pull>>, i: nat, k: nat, d: real)
    requires Opinion.Fits(net, f, y, pull) && i < |net| && ListedOnce(net[i], k)
    ensures var z := y[net[i][k] := y[net[i][k]] + d];
      Step(net, f, z, pull)[i] - Step(net, f, y, pull)[i]
        == f.lambda[i] * (PeerShare(pull, i) * (d / |net[i]| as real))
  {
    hide Mean, Mix, Heard, PeerShare, Step;
    var z := y[net[i][k] := y[net[i][k]] + d];
    var m, e := Mean(net[i], y), d / |net[i]| as real;
    MeanRaised(net[i], y, k, d);
    NextWithNeighbours(net, f, y, pull, i);
    NextWithNeighbours(net, f, z, pull, i);
    HeardMoves(m, e, pull, i);
    MixMoves(f.lambda[i], Heard(m, pull, i), PeerShare(pull, i) * e, f.prior[i]);
  }

  /** Raising what the feed shows by d moves a person with neighbours by susceptibility times w / (w + 1.2) times d,
      w being the feed's weight, and a person without by susceptibility times d. */
  lemma FeedMoves(net: Net, f: Field, y: seq<real>, pull: seq<Pull>, i: nat, d: real)
    requires Opinion.Fits(net, f, y, Some(pull)) && i < |net| && pull[i].weight > 0.0
    ensures var p := pull[i];
      Step(net, f, y, Some(pull[i := Pull(p.mean + d, p.weight)]))[i] - Step(net, f, y, Some(pull))[i]
        == f.lambda[i] * (if |net[i]| > 0 then p.weight / (p.weight + 1.2) * d else d)
  {
    hide Mean, Mix;
    var p := pull[i];
    if |net[i]| > 0 {
      var m := Mean(net[i], y);
      var phi := p.weight / (p.weight + 1.2);
      assert phi * (p.mean + d) == phi * p.mean + phi * d;
      assert Blend(m, Pull(p.mean + d, p.weight)) == Blend(m, p) + phi * d;
      hide Blend;
      MixMoves(f.lambda[i], Blend(m, p), phi * d, f.prior[i]);
    } else {
      MixMoves(f.lambda[i], p.mean, d, f.prior[i]);
    }
  }

  /** When all neighbours stand at c, that is what they say: the reader is left between c, or c blended with the feed,
      and their own prior.  Somebody with neither neighbours nor feeds does not move. */
  lemma AgreeingNeighbours(net: Net, f: Field, y: seq<real>, pull: Option<seq<Pull>>, i: nat, c: real)
    requires Opinion.Fits(net, f, y, pull) && i < |net|
    requires forall k :: 0 <= k < |net[i]| ==> y[net[i][k]] == c
    ensures var next, l, prior := Step(net, f, y, pull)[i], f.lambda[i], f.prior[i];
      if Fed(pull, i) then
        var p := pull.value[i];
        var phi := p.weight / (p.weight + 1.2);
        next == if |net[i]| > 0 then l * ((1.0 - phi) * c + phi * p.mean) + (1.0 - l) * prior
                else l * p.mean + (1.0 - l) * prior
      else next == if |net[i]| > 0 then l * c + (1.0 - l) * prior else y[i]
  {
    hide Mean;
    if |net[i]| > 0 { MeanAgrees(net[i], y, c); }
  }
}
