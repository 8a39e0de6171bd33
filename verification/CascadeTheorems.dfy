/** What threshold contagion guarantees over whole runs. */
module CascadeTheorems {
  import opened Common
  import opened Contagion
  import opened Finite
  import opened Reals

  // ---------- everyone's rule, without the run ----------

  ghost predicate Contains(big: seq<Stage>, small: seq<Stage>) {
    |big| == |small| && forall i :: 0 <= i < |small| && small[i] == Adopted ==> big[i] == Adopted
  }

  /** The places of a row where an adopter stands. */
  ghost function Adopters(row: seq<nat>, s: seq<Stage>): set<nat> {
    set k: nat | k < |row| && row[k] < |s| && s[row[k]] == Adopted
  }

  /** Person i would adopt with the people marked in s as adopters around them: there is one, there are as many as the
      reinforcement floor asks, and as many as the threshold asks of that many neighbours. */
  ghost predicate Clears(r: Rule, net: Net, c: Cascade, s: seq<Stage>, i: nat)
    requires Fits(net, c, PEERS_ONLY) && |s| == |net| && i < |net|
  {
    var n := |Adopters(net[i], s)|;
    && n > 0 && n >= r.minReinforce
    && n as real >= c.threshold[i] * (if c.scale <= 0.0 then 1.0 else c.scale) * |net[i]| as real
  }

  /** No one outside s is left who would adopt. */
  ghost predicate Closed(r: Rule, net: Net, c: Cascade, s: seq<Stage>)
    requires Fits(net, c, PEERS_ONLY) && |s| == |net|
  {
    forall i :: 0 <= i < |net| && Clears(r, net, c, s, i) ==> s[i] == Adopted
  }

  /** s is the least closed set around the seeds. */
  ghost predicate IsLeastClosed(r: Rule, net: Net, c: Cascade, seeds: seq<Stage>, s: seq<Stage>)
    requires Fits(net, c, PEERS_ONLY) && |s| == |seeds| == |net|
  {
    && Contains(s, seeds) && Closed(r, net, c, s)
    && forall t: seq<Stage> :: |t| == |net| && Contains(t, seeds) && Closed(r, net, c, t) ==> Contains(t, s)
  }

  ghost predicate NoneFatigued(s: seq<Stage>) {
    forall i :: 0 <= i < |s| ==> s[i] != Fatigued
  }

  lemma {:induction false} PeersAreAdopters(row: seq<nat>, s: seq<Stage>)
    requires forall k :: 0 <= k < |row| ==> row[k] < |s|
    ensures PeersIn(row, s) == |Adopters(row, s)|
  {
    if |row| > 0 {
      var init, last := row[..|row| - 1], |row| - 1;
      PeersAreAdopters(init, s);
      assert Adopters(row, s) == Adopters(init, s) + if s[row[last]] == Adopted then {last} else {};
    } else {
      assert Adopters(row, s) == {};
    }
  }

  /** The demand the code computes is the least number that meets the floor and the threshold's share of the
      neighbours, scaled unless the scale is unset. */
  lemma NeedIsLeast(r: Rule, threshold: real, scale: real, degree: nat, n: int)
    ensures n >= Need(r, threshold, scale, degree) <==>
      n >= r.minReinforce && n as real >= threshold * (if scale <= 0.0 then 1.0 else scale) * degree as real
  {
    hide Ceil;
    var asked := threshold * EffectiveScale(scale) * degree as real;
    CeilIsLeast(asked, n);
    assert Need(r, threshold, scale, degree) == MaxOf(Ceil(asked), r.minReinforce);
    assert asked == threshold * (if scale <= 0.0 then 1.0 else scale) * degree as real;
  }

  lemma AdoptersGrow(row: seq<nat>, small: seq<Stage>, big: seq<Stage>)
    requires Contains(big, small)
    ensures |Adopters(row, small)| <= |Adopters(row, big)|
  {
    SubsetSize(Adopters(row, small), Adopters(row, big));
  }

  lemma ClearsGrows(r: Rule, net: Net, c: Cascade, small: seq<Stage>, big: seq<Stage>, i: nat)
    requires Fits(net, c, PEERS_ONLY) && |small| == |net| && Contains(big, small) && i < |net|
    ensures Clears(r, net, c, small, i) ==> Clears(r, net, c, big, i)
  {
    hide Adopters;
    AdoptersGrow(net[i], small, big);
  }

  /** Over peer ties, a person who has not heard adopts exactly when they clear. */
  lemma VerdictIsClears(r: Rule, net: Net, c: Cascade, i: nat)
    requires Fits(net, c, PEERS_ONLY) && !r.simple && i < |net|
    ensures Verdict(r, net, c, PEERS_ONLY, i).Some? <==> c.stage[i] == Unaware && Clears(r, net, c, c.stage, i)
  {
    hide PeersIn, Need, Adopters;
    PeersAreAdopters(net[i], c.stage);
    NeedIsLeast(r, c.threshold[i], c.scale, |net[i]|, PeersIn(net[i], c.stage));
  }

  lemma {:induction false} AwareUpdate(s: seq<Stage>, i: nat, v: Stage)
    requires i < |s| && s[i] == Unaware && v != Unaware
    ensures Aware(s[i := v]) == Aware(s) + 1
  {
    var n := |s| - 1;
    if i == n {
      assert s[i := v][..n] == s[..n];
    } else {
      AwareUpdate(s[..n], i, v);
      assert s[i := v][..n] == s[..n][i := v];
    }
  }

  lemma {:induction false} AwareSame(s: seq<Stage>, t: seq<Stage>)
    requires |s| == |t| && forall i :: 0 <= i < |s| ==> (s[i] == Unaware <==> t[i] == Unaware)
    ensures Aware(s) == Aware(t)
  {
    if |s| > 0 { AwareSame(s[..|s| - 1], t[..|t| - 1]); }
  }

  lemma {:induction false} AwareBound(s: seq<Stage>)
    ensures Aware(s) <= |s|
  {
    if |s| > 0 { AwareBound(s[..|s| - 1]); }
  }

  lemma OnlyUnawareAdopt(r: Rule, net: Net, c: Cascade, x: Input, i: nat)
    requires Fits(net, c, x) && i < |net|
    ensures Verdict(r, net, c, x, i).Some? ==> c.stage[i] == Unaware
  {
  }

  lemma {:induction false} EvaluatedCounts(r: Rule, net: Net, c: Cascade, x: Input, m: nat)
    requires Fits(net, c, x) && m <= |net|
    ensures var w := Evaluated(r, net, c, x, m); Aware(w.next) == Aware(c.stage) + w.count
    ensures Evaluated(r, net, c, x, m).count == 0 <==> forall i :: 0 <= i < m ==> Verdict(r, net, c, x, i).None?
  {
    hide Verdict, Aware;
    if m > 0 {
      EvaluatedCounts(r, net, c, x, m - 1);
      EvaluatedAt(r, net, c, x, m - 1, m - 1);
      OnlyUnawareAdopt(r, net, c, x, m - 1);
      if Verdict(r, net, c, x, m - 1).Some? {
        AwareUpdate(Evaluated(r, net, c, x, m - 1).next, m - 1, Adopted);
      }
    }
  }

  /** A round raises the number of people who have heard by exactly the number it reports. */
  lemma RoundCounts(r: Rule, net: Net, c: Cascade, x: Input)
    requires Fits(net, c, x)
    ensures Aware(Round(r, net, c, x).stage) == Aware(c.stage) + NewAdopters(r, net, c, x)
  {
    EvaluatedCounts(r, net, c, x, |net|);
    var w := Evaluated(r, net, c, x, |net|);
    AwareSame(w.next, Round(r, net, c, x).stage);
  }

  /** What a round does to one person. */
  lemma RoundAt(r: Rule, net: Net, c: Cascade, x: Input, i: nat)
    requires Fits(net, c, x) && i < |net|
    ensures var d, v := Round(r, net, c, x), Verdict(r, net, c, x, i);
      && d.at[i] == (if v.Some? then c.step + 1 else c.at[i])
      && d.fed[i] == (if v.Some? then v.value else c.fed[i])
      && var s := if v.Some? then Adopted else c.stage[i];
         d.stage[i] == if r.transmitFor > 0 && s == Adopted && d.at[i] >= 0 && d.step - d.at[i] >= r.transmitFor
                       then Fatigued else s
  {
    EvaluatedAt(r, net, c, x, |net|, i);
  }

  /** Those of the first m people whom a round changes from unaware to aware. */
  ghost function Converted(before: seq<Stage>, after: seq<Stage>, m: nat): set<nat>
    requires m <= |before| == |after|
  {
    set i: nat | i < m && before[i] == Unaware && after[i] != Unaware
  }

  lemma ConvertedNext(before: seq<Stage>, after: seq<Stage>, m: nat)
    requires 0 < m <= |before| == |after|
    ensures |Converted(before, after, m)| == |Converted(before, after, m - 1)|
              + if before[m - 1] == Unaware && after[m - 1] != Unaware then 1 else 0
  {
    var last := if before[m - 1] == Unaware && after[m - 1] != Unaware then {m - 1} else {};
    assert Converted(before, after, m) == Converted(before, after, m - 1) + last;
  }

  lemma RoundConverts(r: Rule, net: Net, c: Cascade, x: Input, i: nat)
    requires Fits(net, c, x) && i < |net|
    ensures Verdict(r, net, c, x, i).Some? <==> c.stage[i] == Unaware && Round(r, net, c, x).stage[i] != Unaware
  {
    hide Verdict, Round;
    RoundAt(r, net, c, x, i);
    OnlyUnawareAdopt(r, net, c, x, i);
  }

  lemma {:induction false} CountIsConverted(r: Rule, net: Net, c: Cascade, x: Input, m: nat)
    requires Fits(net, c, x) && m <= |net|
    ensures Evaluated(r, net, c, x, m).count == |Converted(c.stage, Round(r, net, c, x).stage, m)|
  {
    hide Round, Verdict;
    var d := Round(r, net, c, x).stage;
    if m == 0 {
      assert Converted(c.stage, d, m) == {};
    } else {
      hide Converted;
      CountIsConverted(r, net, c, x, m - 1);
      RoundConverts(r, net, c, x, m - 1);
      ConvertedNext(c.stage, d, m);
    }
  }

  /** Who adopts in a round, and how they are marked.  Somebody who has not heard adopts exactly when they are awake,
      there is an adopted neighbour or a confirmation at all, and, under the complex rule, the two together meet the
      floor and the threshold's share of the neighbours; under the simple rule, their luck is below the chance. */
  lemma RoundAdoptsExactlyWhen(r: Rule, net: Net, c: Cascade, x: Input, i: nat)
    requires Fits(net, c, x) && i < |net| && c.stage[i] == Unaware
    ensures var d := Round(r, net, c, x);
      var peers := |Adopters(net[i], c.stage)|;
      var n := peers + if x.shown.Some? then x.shown.value[i] else 0;
      var asked := c.threshold[i] * (if c.scale <= 0.0 then 1.0 else c.scale) * |net[i]| as real;
      && d.step == c.step + 1
      && (d.stage[i] == Adopted <==>
            && (x.activity.Some? ==> r.wake(c.step, i) < x.activity.value[i]) && n > 0
            && if r.simple then r.luck(c.step, i) < r.chance(n) else n >= r.minReinforce && n as real >= asked)
      && (d.stage[i] == Adopted ==>
            && d.at[i] == c.step + 1
            && (d.fed[i] <==> if r.simple then peers == 0 else !(peers >= r.minReinforce && peers as real >= asked)))
      && (d.stage[i] != Adopted ==> d.stage[i] == Unaware && d.at[i] == c.at[i] && d.fed[i] == c.fed[i])
  {
    hide PeersIn, Need, Adopters, Evaluated, Retired;
    RoundAt(r, net, c, x, i);
    PeersAreAdopters(net[i], c.stage);
    var peers := PeersIn(net[i], c.stage);
    NeedIsLeast(r, c.threshold[i], c.scale, |net[i]|, peers);
    NeedIsLeast(r, c.threshold[i], c.scale, |net[i]|, peers + Feed(x, i));
  }

  /** A person with four neighbours, two of them adopters, and a threshold of 0.9 holds out for the other two. */
  lemma TwoOfFourAreNotEnough()
    ensures var r := Rule(2, 0, false, (_, _) => 0.0, (_, _) => 0.0, _ => 0.0);
      var net: Net := [[1, 2, 3, 4], [0], [0], [0], [0]];
      var c := Cascade([Unaware, Adopted, Adopted, Unaware, Unaware], [-1, 0, 0, -1, -1],
                       [false, false, false, false, false], 0, [0.9, 0.9, 0.9, 0.9, 0.9], 1.0);
      Fits(net, c, PEERS_ONLY) && Round(r, net, c, PEERS_ONLY).stage[0] == Unaware
  {
    var r := Rule(2, 0, false, (_, _) => 0.0, (_, _) => 0.0, _ => 0.0);
    var net: Net := [[1, 2, 3, 4], [0], [0], [0], [0]];
    var c := Cascade([Unaware, Adopted, Adopted, Unaware, Unaware], [-1, 0, 0, -1, -1],
                     [false, false, false, false, false], 0, [0.9, 0.9, 0.9, 0.9, 0.9], 1.0);
    assert Adopters(net[0], c.stage) == {0, 1};
    RoundAdoptsExactlyWhen(r, net, c, PEERS_ONLY, 0);
  }

  // ---------- permanent adoption: the least closed set ----------

  lemma PeerRoundAt(r: Rule, net: Net, c: Cascade, i: nat)
    requires Fits(net, c, PEERS_ONLY) && !r.simple && i < |net|
    ensures var s := Round(r, net, c, PEERS_ONLY).stage[i];
      && (s == Unaware <==> c.stage[i] == Unaware && !Clears(r, net, c, c.stage, i))
      && (s == Adopted ==> c.stage[i] == Adopted || (c.stage[i] == Unaware && Clears(r, net, c, c.stage, i)))
      && (r.transmitFor <= 0 && c.stage[i] != Fatigued ==> s != Fatigued)
      && (r.transmitFor <= 0 && c.stage[i] == Adopted ==> s == Adopted)
  {
    RoundAt(r, net, c, PEERS_ONLY, i);
    VerdictIsClears(r, net, c, i);
  }

  lemma QuietMeansClosed(r: Rule, net: Net, c: Cascade)
    requires Fits(net, c, PEERS_ONLY) && !r.simple
    ensures NewAdopters(r, net, c, PEERS_ONLY) == 0 <==>
      forall i :: 0 <= i < |net| ==> c.stage[i] != Unaware || !Clears(r, net, c, c.stage, i)
  {
    EvaluatedCounts(r, net, c, PEERS_ONLY, |net|);
    forall i | 0 <= i < |net|
      ensures Verdict(r, net, c, PEERS_ONLY, i).None? <==> c.stage[i] != Unaware || !Clears(r, net, c, c.stage, i)
    {
      VerdictIsClears(r, net, c, i);
    }
  }

  lemma RoundWithoutDecay(r: Rule, net: Net, c: Cascade)
    requires Fits(net, c, PEERS_ONLY) && !r.simple && r.transmitFor <= 0 && NoneFatigued(c.stage)
    ensures var d := Round(r, net, c, PEERS_ONLY);
      && NoneFatigued(d.stage) && Contains(d.stage, c.stage) && d.threshold == c.threshold && d.scale == c.scale
      && (NewAdopters(r, net, c, PEERS_ONLY) == 0 ==> Closed(r, net, c, c.stage) && d.stage == c.stage)
  {
    hide NewAdopters, Clears;
    var d := Round(r, net, c, PEERS_ONLY);
    forall i | 0 <= i < |net|
      ensures d.stage[i] != Fatigued && (c.stage[i] == Adopted ==> d.stage[i] == Adopted)
      ensures d.stage[i] == Unaware <==> c.stage[i] == Unaware && !Clears(r, net, c, c.stage, i)
    {
      PeerRoundAt(r, net, c, i);
    }
    QuietMeansClosed(r, net, c);
  }

  /** No closed set around the current adopters is left by a round. */
  lemma RoundStaysInside(r: Rule, net: Net, c: Cascade, t: seq<Stage>)
    requires Fits(net, c, PEERS_ONLY) && !r.simple && Contains(t, c.stage) && Closed(r, net, c, t)
    ensures Contains(t, Round(r, net, c, PEERS_ONLY).stage)
  {
    hide Round, Clears;
    var d := Round(r, net, c, PEERS_ONLY);
    forall i | 0 <= i < |net| && d.stage[i] == Adopted ensures t[i] == Adopted {
      PeerRoundAt(r, net, c, i);
      ClearsGrows(r, net, c, c.stage, t, i);
    }
  }

  /** With permanent adoption and more rounds than people, a run over peer ties ends in exactly the least set that
      holds the seeds and is closed under everyone's threshold. */
  lemma {:induction false} RunReachesLeast(r: Rule, net: Net, c: Cascade, maxRounds: nat)
    requires Fits(net, c, PEERS_ONLY) && !r.simple && r.transmitFor <= 0 && NoneFatigued(c.stage)
    requires maxRounds > |net| - Aware(c.stage)
    ensures var e := Run(r, net, c, maxRounds).end;
      NoneFatigued(e.stage) && IsLeastClosed(r, net, c, c.stage, e.stage)
    decreases maxRounds
  {
    hide Round, NewAdopters, Closed;
    var d := Round(r, net, c, PEERS_ONLY);
    RoundWithoutDecay(r, net, c);
    if NewAdopters(r, net, c, PEERS_ONLY) > 0 {
      RoundCounts(r, net, c, PEERS_ONLY);
      AwareBound(d.stage);
      RunReachesLeast(r, net, d, maxRounds - 1);
      var e := Run(r, net, d, maxRounds - 1).end;
      assert Run(r, net, c, maxRounds).end == e;
      forall t: seq<Stage> | Contains(t, c.stage) && Closed(r, net, c, t) ensures Contains(t, d.stage) {
        RoundStaysInside(r, net, c, t);
      }
      SameRuleLeast(r, net, c, d, e.stage);
    }
  }

  lemma SameRuleLeast(r: Rule, net: Net, c: Cascade, d: Cascade, e: seq<Stage>)
    requires Fits(net, c, PEERS_ONLY) && Fits(net, d, PEERS_ONLY) && |e| == |net|
    requires d.threshold == c.threshold && d.scale == c.scale && Contains(d.stage, c.stage)
    requires forall t: seq<Stage> :: Contains(t, c.stage) && Closed(r, net, c, t) ==> Contains(t, d.stage)
    requires IsLeastClosed(r, net, d, d.stage, e)
    ensures IsLeastClosed(r, net, c, c.stage, e)
  {
    hide Closed, Contains;
    forall t: seq<Stage> | |t| == |net| ensures Closed(r, net, c, t) <==> Closed(r, net, d, t) {
      SameRuleClosed(r, net, c, d, t);
    }
    ContainsChains(e, d.stage, c.stage);
  }

  lemma ContainsChains(big: seq<Stage>, mid: seq<Stage>, small: seq<Stage>)
    requires Contains(big, mid) && Contains(mid, small)
    ensures Contains(big, small)
  {
  }

  lemma SameRuleClosed(r: Rule, net: Net, c: Cascade, d: Cascade, t: seq<Stage>)
    requires Fits(net, c, PEERS_ONLY) && Fits(net, d, PEERS_ONLY) && |t| == |net|
    requires d.threshold == c.threshold && d.scale == c.scale
    ensures Closed(r, net, c, t) <==> Closed(r, net, d, t)
  {
    hide Adopters;
    forall i | 0 <= i < |net| ensures Clears(r, net, c, t, i) <==> Clears(r, net, d, t, i) {
    }
  }

  lemma DemandGrows(threshold: real, scale: real, scale': real, degree: real)
    requires threshold >= 0.0 && 0.0 < scale <= scale' && degree >= 0.0
    ensures threshold * scale * degree <= threshold * scale' * degree
  {
    NonNegative(threshold, scale' - scale);
    assert threshold * scale <= threshold * scale';
    NonNegative(threshold * scale' - threshold * scale, degree);
  }

  /** More seeds never reach fewer people, and neither does an easier story. */
  lemma {:induction false} ReachIsMonotone(r: Rule, net: Net, c: Cascade, d: Cascade, maxRounds: nat)
    requires Fits(net, c, PEERS_ONLY) && Fits(net, d, PEERS_ONLY) && !r.simple && r.transmitFor <= 0
    requires NoneFatigued(c.stage) && NoneFatigued(d.stage) && maxRounds > |net|
    requires Contains(d.stage, c.stage) && d.threshold == c.threshold && 0.0 < d.scale <= c.scale
    requires forall i :: 0 <= i < |net| ==> c.threshold[i] >= 0.0
    ensures Contains(Run(r, net, d, maxRounds).end.stage, Run(r, net, c, maxRounds).end.stage)
  {
    hide Closed, Contains, Run;
    RunReachesLeast(r, net, c, maxRounds);
    RunReachesLeast(r, net, d, maxRounds);
    var big := Run(r, net, d, maxRounds).end.stage;
    EasierClosed(r, net, c, d, big);
    ContainsChains(big, d.stage, c.stage);
  }

  /** What is closed under an easier story is closed under the harder one. */
  lemma EasierClosed(r: Rule, net: Net, c: Cascade, d: Cascade, t: seq<Stage>)
    requires Fits(net, c, PEERS_ONLY) && Fits(net, d, PEERS_ONLY) && |t| == |net| && Closed(r, net, d, t)
    requires d.threshold == c.threshold && 0.0 < d.scale <= c.scale
    requires forall i :: 0 <= i < |net| ==> c.threshold[i] >= 0.0
    ensures Closed(r, net, c, t)
  {
    hide Adopters;
    forall i | 0 <= i < |net| && Clears(r, net, c, t, i) ensures t[i] == Adopted {
      DemandGrows(c.threshold[i], d.scale, c.scale, |net[i]| as real);
      assert Clears(r, net, d, t, i);
    }
  }

  // ---------- finite attention ----------

  /** A complex contagion over peer ties that has stalled never restarts, whether or not attention decays. */
  lemma QuietStays(r: Rule, net: Net, c: Cascade)
    requires Fits(net, c, PEERS_ONLY) && !r.simple && NewAdopters(r, net, c, PEERS_ONLY) == 0
    ensures NewAdopters(r, net, Round(r, net, c, PEERS_ONLY), PEERS_ONLY) == 0
  {
    hide Round, NewAdopters;
    var d := Round(r, net, c, PEERS_ONLY);
    RoundKeepsRule(r, net, c);
    QuietMeansClosed(r, net, c);
    QuietMeansClosed(r, net, d);
    forall i | 0 <= i < |net|
      ensures (c.stage[i] == Unaware <==> d.stage[i] == Unaware) && (d.stage[i] == Adopted ==> c.stage[i] == Adopted)
    {
      PeerRoundAt(r, net, c, i);
    }
    forall i | 0 <= i < |net| && d.stage[i] == Unaware ensures !Clears(r, net, d, d.stage, i) {
      AdoptersGrow(net[i], d.stage, c.stage);
    }
  }

  lemma RoundKeepsRule(r: Rule, net: Net, c: Cascade)
    requires Fits(net, c, PEERS_ONLY)
    ensures var d := Round(r, net, c, PEERS_ONLY); d.threshold == c.threshold && d.scale == c.scale
  {
  }

  /** Run stops by itself: within one round more than there are people who have not heard, in a state from which
      no later round adopts anyone. */
  lemma {:induction false} RunStalls(r: Rule, net: Net, c: Cascade, maxRounds: nat)
    requires Fits(net, c, PEERS_ONLY) && !r.simple && maxRounds > |net| - Aware(c.stage)
    ensures var o := Run(r, net, c, maxRounds);
      o.rounds <= |net| - Aware(c.stage) + 1 && NewAdopters(r, net, o.end, PEERS_ONLY) == 0
    decreases maxRounds
  {
    var n, d := NewAdopters(r, net, c, PEERS_ONLY), Round(r, net, c, PEERS_ONLY);
    if n == 0 {
      QuietStays(r, net, c);
      AwareBound(c.stage);
    } else {
      RoundCounts(r, net, c, PEERS_ONLY);
      AwareBound(d.stage);
      RunStalls(r, net, d, maxRounds - 1);
    }
  }

  /** The adoptions a run reports are exactly the rise in Count. */
  lemma {:induction false} RunCounts(r: Rule, net: Net, c: Cascade, maxRounds: nat)
    requires Fits(net, c, PEERS_ONLY)
    ensures var o := Run(r, net, c, maxRounds); Aware(o.end.stage) == Aware(c.stage) + o.adopted
    decreases maxRounds
  {
    if maxRounds > 0 {
      RoundCounts(r, net, c, PEERS_ONLY);
      if NewAdopters(r, net, c, PEERS_ONLY) > 0 {
        RunCounts(r, net, Round(r, net, c, PEERS_ONLY), maxRounds - 1);
      }
    }
  }

  /** Everyone who has heard transmits from their round of adoption for transmitFor rounds, and then never again. */
  ghost predicate Timely(r: Rule, c: Cascade) {
    && |c.stage| == |c.at| && r.transmitFor > 0
    && forall i :: 0 <= i < |c.stage| && c.stage[i] != Unaware ==>
         0 <= c.at[i] <= c.step && (c.stage[i] == Adopted <==> c.step < c.at[i] + r.transmitFor)
  }

  lemma RoundIsTimely(r: Rule, net: Net, c: Cascade, x: Input)
    requires Fits(net, c, x) && Timely(r, c)
    ensures Timely(r, Round(r, net, c, x))
  {
    var d := Round(r, net, c, x);
    forall i | 0 <= i < |d.stage| && d.stage[i] != Unaware
      ensures 0 <= d.at[i] <= d.step && (d.stage[i] == Adopted <==> d.step < d.at[i] + r.transmitFor)
    {
      RoundAt(r, net, c, x, i);
    }
  }

  ghost predicate AllFit(net: Net, c: Cascade, xs: seq<Input>) {
    Fits(net, c, PEERS_ONLY) && forall k :: 0 <= k < |xs| ==> Fits(net, c, xs[k])
  }

  /** k rounds, each with its own feeds and waking hours. */
  ghost function Rounds(r: Rule, net: Net, c: Cascade, xs: seq<Input>, k: nat): (d: Cascade)
    requires AllFit(net, c, xs) && k <= |xs|
    ensures AllFit(net, d, xs) && d.step == c.step + k
  {
    if k == 0 then c else Round(r, net, Rounds(r, net, c, xs, k - 1), xs[k - 1])
  }

  /** So once a round over peer ties has adopted nobody, no later one ever does. */
  lemma {:induction false} QuietForever(r: Rule, net: Net, c: Cascade, xs: seq<Input>, k: nat)
    requires AllFit(net, c, xs) && k <= |xs| && (forall j :: 0 <= j < |xs| ==> xs[j] == PEERS_ONLY)
    requires !r.simple && NewAdopters(r, net, c, PEERS_ONLY) == 0
    ensures NewAdopters(r, net, Rounds(r, net, c, xs, k), PEERS_ONLY) == 0
  {
    hide Round, NewAdopters;
    if k > 0 {
      QuietForever(r, net, c, xs, k - 1);
      QuietStays(r, net, Rounds(r, net, c, xs, k - 1));
    }
  }

  /** Whatever the feeds and the clock do, a person who has heard keeps their round of adoption for good, and is
      transmitting k rounds later exactly while fewer than transmitFor rounds have passed since it. */
  lemma {:induction false} TransmitsExactly(r: Rule, net: Net, c: Cascade, xs: seq<Input>, k: nat, i: nat)
    requires AllFit(net, c, xs) && k <= |xs| && i < |net| && Timely(r, c)
    ensures var d := Rounds(r, net, c, xs, k);
      && Timely(r, d)
      && (c.stage[i] != Unaware ==>
            && d.stage[i] != Unaware && d.at[i] == c.at[i]
            && (d.stage[i] == Adopted <==> c.step + k < c.at[i] + r.transmitFor))
  {
    if k > 0 {
      TransmitsExactly(r, net, c, xs, k - 1, i);
      var before := Rounds(r, net, c, xs, k - 1);
      RoundIsTimely(r, net, before, xs[k - 1]);
      RoundAt(r, net, before, xs[k - 1], i);
    }
  }

  /** A seed adopts at the current step: its transmitFor rounds start now. */
  lemma SeedIsTimely(r: Rule, c: Cascade, i: nat)
    requires Timely(r, c) && i < |c.stage| && c.stage[i] == Unaware
    ensures Timely(r, c.(stage := c.stage[i := Adopted], at := c.at[i := c.step]))
  {
  }

  ghost function Progress(s: Stage): nat {
    match s case Unaware => 0 case Adopted => 1 case Fatigued => 2
  }

  /** Stages only move forward, under any rule and any input. */
  lemma StagesMoveForward(r: Rule, net: Net, c: Cascade, x: Input, i: nat)
    requires Fits(net, c, x) && i < |net|
    ensures Progress(c.stage[i]) <= Progress(Round(r, net, c, x).stage[i])
    ensures c.stage[i] == Unaware ==> Round(r, net, c, x).stage[i] != Fatigued
    ensures c.stage[i] != Unaware ==> Round(r, net, c, x).at[i] == c.at[i] && Round(r, net, c, x).fed[i] == c.fed[i]
    ensures c.stage[i] != Unaware && r.transmitFor <= 0 ==> Round(r, net, c, x).stage[i] == c.stage[i]
  {
    RoundAt(r, net, c, x, i);
  }

  // ---------- what the feed did ----------

  /** The same round without feeds: same state, same sleepers. */
  ghost function WithoutFeeds(x: Input): Input { Input(None, x.activity) }

  /** Attribution is the counterfactual for person i: with feeds they adopt unaided exactly when they would have
      adopted without feeds, and they are marked as feed-driven exactly when they adopt only with feeds. */
  ghost predicate Attributed(r: Rule, net: Net, c: Cascade, x: Input, i: nat)
    requires Fits(net, c, x) && i < |net|
  {
    var v, alone := Verdict(r, net, c, x, i), Verdict(r, net, c, WithoutFeeds(x), i);
    && (v == Some(false) <==> alone.Some?)
    && (v == Some(true) <==> v.Some? && alone.None?)
  }

  /** More contacts never make adoption less likely. */
  ghost predicate Rising(chance: int -> real) {
    forall m, n :: 0 <= m <= n ==> chance(m) <= chance(n)
  }

  /** When the feed is credited wrongly.  Complex rule: somebody without an adopted neighbour, whose threshold asks
      for nothing, is shown the story; they are marked as unaided although without the feed they would not have
      adopted.  Simple rule: somebody with an adopted neighbour whose luck is below the chance with the feed but not
      below the chance without it; again they are marked as unaided. */
  ghost predicate Miscredited(r: Rule, net: Net, c: Cascade, x: Input, i: nat)
    requires Fits(net, c, x) && i < |net|
  {
    var peers := PeersIn(net[i], c.stage);
    && c.stage[i] == Unaware && !Asleep(r, x, c.step, i)
    && if r.simple then peers > 0 && r.chance(peers) <= r.luck(c.step, i) < r.chance(peers + Feed(x, i))
       else peers == 0 && Feed(x, i) > 0 && Need(r, c.threshold[i], c.scale, |net[i]|) <= 0
  }

  /** Attribution is right exactly for those who are not miscredited.  A reinforcement floor of one rules that out
      under the complex rule. */
  lemma {:induction false} AttributionExactlyWhen(r: Rule, net: Net, c: Cascade, x: Input, i: nat)
    requires Fits(net, c, x) && i < |net| && (r.simple ==> Rising(r.chance))
    ensures Attributed(r, net, c, x, i) <==> !Miscredited(r, net, c, x, i)
    ensures !r.simple && r.minReinforce >= 1 ==> Attributed(r, net, c, x, i)
  {
    hide PeersIn;
    if r.simple { SimpleAttribution(r, net, c, x, i); }
  }

  lemma {:induction false} SimpleAttribution(r: Rule, net: Net, c: Cascade, x: Input, i: nat)
    requires Fits(net, c, x) && i < |net| && r.simple && Rising(r.chance)
    ensures Attributed(r, net, c, x, i) <==> !Miscredited(r, net, c, x, i)
  {
    hide PeersIn, Need;
    var peers := PeersIn(net[i], c.stage);
    assert r.chance(peers) <= r.chance(peers + Feed(x, i));
  }

  /** The code's chance after n contacts, 1 - (1 - beta)^n. */
  ghost function ChanceOf(beta: real): int -> real {
    n => if n < 0 then 0.0 else 1.0 - Power(1.0 - beta, n)
  }

  lemma {:induction false} PowerFalls(b: real, m: nat, n: nat)
    requires 0.0 <= b <= 1.0 && m <= n
    ensures 0.0 <= Power(b, n) <= Power(b, m)
    decreases n
  {
    if m < n {
      PowerFalls(b, m, n - 1);
      Shrinks(Power(b, n - 1), b);
    } else if n > 0 {
      PowerFalls(b, n - 1, n - 1);
      NonNegative(Power(b, n - 1), b);
    }
  }

  /** It rises for every beta in [0, 1]. */
  lemma ChanceRises(beta: real)
    requires 0.0 <= beta <= 1.0
    ensures Rising(ChanceOf(beta))
  {
    forall m, n | 0 <= m <= n ensures ChanceOf(beta)(m) <= ChanceOf(beta)(n) {
      PowerFalls(1.0 - beta, m, n);
    }
  }

  /** One adopter, person 1, and one person who has not heard, person 0. */
  ghost function TwoPeople(tied: bool, threshold: real): (Net, Cascade) {
    (if tied then [[1], [0]] else [[], []],
     Cascade([Unaware, Adopted], [-1, 0], [false, false], 0, [threshold, threshold], 1.0))
  }

  /** A story that needs no reinforcement and somebody without ties, whom the feed shows it. */
  lemma ComplexRuleMiscredits()
    ensures var r := Rule(0, 3, false, (_, _) => 0.0, (_, _) => 0.0, _ => 0.0);
      var (net, c) := TwoPeople(false, 0.2);
      var x := Input(Some([1, 0]), None);
      && Fits(net, c, x) && Miscredited(r, net, c, x, 0) && !Attributed(r, net, c, x, 0)
      && !Round(r, net, c, x).fed[0]
  {
    var r := Rule(0, 3, false, (_, _) => 0.0, (_, _) => 0.0, _ => 0.0);
    var (net, c) := TwoPeople(false, 0.2);
    var x := Input(Some([1, 0]), None);
    assert Need(r, 0.2, 1.0, 0) == 0;
    RoundAt(r, net, c, x, 0);
  }

  /** Simple transmission with beta 0.3, one adopted neighbour, one post and a draw of 0.4: whatever the floor, the
      feed made the difference and is not credited. */
  lemma SimpleRuleMiscredits(floor: int)
    ensures var r := Rule(floor, 3, true, (_, _) => 0.0, (_, _) => 0.4, ChanceOf(0.3));
      var (net, c) := TwoPeople(true, 0.2);
      var x := Input(Some([1, 0]), None);
      && Fits(net, c, x) && Miscredited(r, net, c, x, 0) && !Attributed(r, net, c, x, 0)
      && !Round(r, net, c, x).fed[0]
  {
    var r := Rule(floor, 3, true, (_, _) => 0.0, (_, _) => 0.4, ChanceOf(0.3));
    var (net, c) := TwoPeople(true, 0.2);
    var x := Input(Some([1, 0]), None);
    assert PeersIn([1][..0], c.stage) == 0;
    assert PeersIn(net[0], c.stage) == 1;
    assert Power(0.7, 0) == 1.0 && Power(0.7, 1) == 0.7 && Power(0.7, 2) == 0.49;
    ChanceRises(0.3);
    AttributionExactlyWhen(r, net, c, x, 0);
    RoundAt(r, net, c, x, 0);
  }

  /** So the new adopters of a round split exactly, but for the miscredited: FeedDriven is false for those the
      peer-only round would adopt, all of them, and true for the rest. */
  lemma RoundSplits(r: Rule, net: Net, c: Cascade, x: Input, i: nat)
    requires Fits(net, c, x) && i < |net| && c.stage[i] == Unaware && (r.simple ==> Rising(r.chance))
    ensures var with, alone := Round(r, net, c, x), Round(r, net, c, WithoutFeeds(x));
      (&& (alone.stage[i] == Adopted <==> with.stage[i] == Adopted && !with.fed[i])
       && (with.stage[i] == Adopted && alone.stage[i] == Unaware ==> with.fed[i]))
      <==> !Miscredited(r, net, c, x, i)
    ensures !r.simple && r.minReinforce >= 1 ==> !Miscredited(r, net, c, x, i)
  {
    hide Evaluated, Retired, Verdict, Miscredited;
    RoundAt(r, net, c, x, i);
    RoundAt(r, net, c, WithoutFeeds(x), i);
    AttributionExactlyWhen(r, net, c, x, i);
  }

  /** Feeds that show nothing are the same as no feeds. */
  lemma {:induction false} SilentFeedsAreNone(r: Rule, net: Net, c: Cascade, shown: seq<nat>,
                                              activity: Option<seq<real>>)
    requires Fits(net, c, Input(Some(shown), activity)) && forall i :: 0 <= i < |shown| ==> shown[i] == 0
    ensures Round(r, net, c, Input(Some(shown), activity)) == Round(r, net, c, Input(None, activity))
  {
    SilentEvaluation(r, net, c, shown, activity, |net|);
  }

  lemma {:induction false} SilentEvaluation(r: Rule, net: Net, c: Cascade, shown: seq<nat>,
                                            activity: Option<seq<real>>, m: nat)
    requires Fits(net, c, Input(Some(shown), activity)) && m <= |net|
    requires forall i :: 0 <= i < |shown| ==> shown[i] == 0
    ensures Evaluated(r, net, c, Input(Some(shown), activity), m) == Evaluated(r, net, c, Input(None, activity), m)
  {
    if m > 0 {
      SilentEvaluation(r, net, c, shown, activity, m - 1);
      assert Verdict(r, net, c, Input(Some(shown), activity), m - 1)
          == Verdict(r, net, c, Input(None, activity), m - 1);
    }
  }
}
