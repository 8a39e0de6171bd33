/** Reservoir sampling: who ends up in the sample, and why everyone is as likely as anyone else. */
module Reservoir {
  import opened Finite

  /** The sample holds positions of candidates.  Candidate i arrives with draw j in [0, i]: a j below the size
      overwrites that slot. */
  ghost function Placed(s: seq<nat>, j: nat, i: nat): (t: seq<nat>)
    ensures |t| == |s|
  {
    if j < |s| then s[j := i] else s
  }

  /** The sample after candidates i, i + 1, ... arrive with the draws js. */
  ghost function Final(s: seq<nat>, i: nat, js: seq<nat>): (t: seq<nat>)
    ensures |t| == |s|
    decreases |js|
  {
    if |js| == 0 then s else Final(Placed(s, js[0], i), i + 1, js[1..])
  }

  ghost predicate IsSample(s: seq<nat>, i: nat) {
    Distinct(s) && |s| <= i && forall q :: 0 <= q < |s| ==> s[q] < i
  }

  lemma PlacedIsSample(s: seq<nat>, j: nat, i: nat)
    requires IsSample(s, i)
    ensures IsSample(Placed(s, j, i), i + 1)
  {
  }

  /** Whatever the draws, the sample is that many different candidates. */
  lemma {:induction false} FinalIsSample(s: seq<nat>, i: nat, js: seq<nat>)
    requires IsSample(s, i)
    ensures IsSample(Final(s, i, js), i + |js|)
    decreases |js|
  {
    if |js| > 0 {
      PlacedIsSample(s, js[0], i);
      FinalIsSample(Placed(s, js[0], i), i + 1, js[1..]);
    }
  }

  ghost function FirstK(k: nat): (s: seq<nat>)
    ensures |s| == k && forall q :: 0 <= q < k ==> s[q] == q
  {
    seq(k, q => q)
  }

  lemma FirstKIsSample(k: nat)
    ensures IsSample(FirstK(k), k)
    ensures forall c: nat :: c in FirstK(k) <==> c < k
  {
    forall c: nat | c < k ensures c in FirstK(k) {
      assert FirstK(k)[c] == c;
    }
  }

  lemma {:induction false} FinalNext(s: seq<nat>, i: nat, js: seq<nat>, j: nat)
    ensures Final(s, i, js + [j]) == Placed(Final(s, i, js), j, i + |js|)
    decreases |js|
  {
    if |js| == 0 {
      assert js + [j] == [j] && [j][1..] == [];
    } else {
      assert (js + [j])[0] == js[0] && (js + [j])[1..] == js[1..] + [j];
      FinalNext(Placed(s, js[0], i), i + 1, js[1..], j);
    }
  }

  /** The draws as the loop takes them from the generator: one per later candidate, reduced to [0, i]. */
  ghost function DrawsOf(draws: nat -> nat, k: nat, n: nat): (js: seq<nat>)
    requires k <= n
    ensures |js| == n - k
  {
    seq(n - k, t requires 0 <= t < n - k => draws(t) % (k + t + 1))
  }

  /** Which of n candidates the sample holds, in which slot. */
  ghost function Slots(draws: nat -> nat, k: nat, n: nat): (s: seq<nat>)
    requires k <= n
    ensures |s| == k
  {
    Final(FirstK(k), k, DrawsOf(draws, k, n))
  }

  lemma SlotsNext(draws: nat -> nat, k: nat, n: nat)
    requires k <= n
    ensures Slots(draws, k, n + 1) == Placed(Slots(draws, k, n), draws(n - k) % (n + 1), n)
  {
    assert DrawsOf(draws, k, n + 1) == DrawsOf(draws, k, n) + [draws(n - k) % (n + 1)];
    FinalNext(FirstK(k), k, DrawsOf(draws, k, n), draws(n - k) % (n + 1));
  }

  lemma SlotsAreSample(draws: nat -> nat, k: nat, n: nat)
    requires k <= n
    ensures IsSample(Slots(draws, k, n), n)
  {
    FirstKIsSample(k);
    FinalIsSample(FirstK(k), k, DrawsOf(draws, k, n));
  }

  /** Nothing is drawn for the first k candidates. */
  lemma SlotsFirst(draws: nat -> nat, k: nat)
    ensures Slots(draws, k, k) == FirstK(k)
  {
    assert |DrawsOf(draws, k, k)| == 0;
  }

  ghost predicate Picked(out: seq<nat>, candidates: seq<nat>, slots: seq<nat>) {
    |out| == |slots| && forall q :: 0 <= q < |out| ==> slots[q] < |candidates| && out[q] == candidates[slots[q]]
  }

  lemma PickedNext(out: seq<nat>, candidates: seq<nat>, slots: seq<nat>, j: nat, i: nat)
    requires Picked(out, candidates, slots) && i < |candidates|
    ensures Picked(if j < |out| then out[j := candidates[i]] else out, candidates, Placed(slots, j, i))
  {
  }

  /** reservoirFromSlice. */
  method ReservoirFromSlice(candidates: seq<nat>, draws: nat -> nat, k: nat) returns (out: array<nat>)
    ensures fresh(out)
    ensures |candidates| <= k ==> out[..] == candidates
    ensures |candidates| > k ==> Picked(out[..], candidates, Slots(draws, k, |candidates|))
  {
    hide Slots, Placed, FirstK;
    var n := |candidates|;
    if n <= k {
      out := new nat[n](i requires 0 <= i < n => candidates[i]);
      return;
    }
    out := new nat[k](i requires 0 <= i < k => candidates[i]);
    SlotsFirst(draws, k);
    for i := k to n
      invariant Picked(out[..], candidates, Slots(draws, k, i))
    {
      var j := draws(i - k) % (i + 1);
      SlotsNext(draws, k, i);
      PickedNext(out[..], candidates, Slots(draws, k, i), j, i);
      if j < k {
        out[j] := candidates[i];
      }
    }
  }

  ghost function Matches(pred: nat -> bool, n: nat): (m: seq<nat>) {
    if n == 0 then [] else if pred(n - 1) then Matches(pred, n - 1) + [n - 1] else Matches(pred, n - 1)
  }

  lemma {:induction false} MatchesAre(pred: nat -> bool, n: nat)
    ensures Distinct(Matches(pred, n))
    ensures forall c: nat :: c in Matches(pred, n) <==> c < n && pred(c)
  {
    if n > 0 { MatchesAre(pred, n - 1); }
  }

  /** reservoirK: the same over those of n people that match. */
  method ReservoirK(n: nat, pred: nat -> bool, draws: nat -> nat, k: nat) returns (out: seq<nat>)
    ensures |Matches(pred, n)| <= k ==> out == Matches(pred, n)
    ensures |Matches(pred, n)| > k ==> Picked(out, Matches(pred, n), Slots(draws, k, |Matches(pred, n)|))
    ensures Distinct(out) && |out| == (if |Matches(pred, n)| <= k then |Matches(pred, n)| else k)
    ensures forall x :: x in out ==> x < n && pred(x)
  {
    hide Slots, Placed, FirstK, Picked, Distinct;
    out := [];
    var seen := 0;
    if k == 0 { AllPicked(out, draws); }
    for i := 0 to n
      invariant seen == |Matches(pred, i)|
      invariant seen <= k ==> out == Matches(pred, i)
      invariant seen >= k ==> Picked(out, Matches(pred, i), Slots(draws, k, seen))
    {
      ghost var before := Matches(pred, i);
      if seen >= k { PickedSize(out, before, Slots(draws, k, seen)); }
      if pred(i) {
        seen := seen + 1;
        if |out| < k {
          out := out + [i];
          if seen == k { AllPicked(out, draws); }
        } else {
          var j := draws(seen - 1 - k) % seen;
          SlotsNext(draws, k, seen - 1);
          PickedMore(out, before, Slots(draws, k, seen - 1), i);
          PickedNext(out, before + [i], Slots(draws, k, seen - 1), j, seen - 1);
          if j < k { out := out[j := i]; }
        }
      }
    }
    DrawnMatch(pred, n, draws, k, out);
  }

  lemma DrawnMatch(pred: nat -> bool, n: nat, draws: nat -> nat, k: nat, out: seq<nat>)
    requires |Matches(pred, n)| <= k ==> out == Matches(pred, n)
    requires |Matches(pred, n)| >= k ==> Picked(out, Matches(pred, n), Slots(draws, k, |Matches(pred, n)|))
    ensures Distinct(out) && |out| == (if |Matches(pred, n)| <= k then |Matches(pred, n)| else k)
    ensures forall x :: x in out ==> x < n && pred(x)
  {
    MatchesAre(pred, n);
    if |Matches(pred, n)| >= k { PickedAreDistinct(out, Matches(pred, n), draws, k); }
  }

  lemma AllPicked(out: seq<nat>, draws: nat -> nat)
    ensures Picked(out, out, Slots(draws, |out|, |out|))
  {
    SlotsFirst(draws, |out|);
  }

  lemma PickedSize(out: seq<nat>, candidates: seq<nat>, slots: seq<nat>)
    requires Picked(out, candidates, slots)
    ensures |out| == |slots|
  {
  }

  lemma PickedMore(out: seq<nat>, candidates: seq<nat>, slots: seq<nat>, c: nat)
    requires Picked(out, candidates, slots)
    ensures Picked(out, candidates + [c], slots)
  {
  }

  /** The picked values are as many different ones, all candidates. */
  lemma PickedAreDistinct(out: seq<nat>, candidates: seq<nat>, draws: nat -> nat, k: nat)
    requires Distinct(candidates) && k <= |candidates| && Picked(out, candidates, Slots(draws, k, |candidates|))
    ensures Distinct(out) && |out| == k
    ensures forall x :: x in out ==> x in candidates
  {
    SlotsAreSample(draws, k, |candidates|);
  }

  // ---------- fairness ----------

  /** Every sequence of ideal draws for candidates i .. n - 1: one of 0 .. i for candidate i, and so on. */
  ghost function IdealDraws(i: nat, n: nat): (d: set<seq<nat>>)
    requires i <= n
    ensures forall js :: js in d <==> IsIdeal(js, i, n)
    decreases n - i
  {
    if i == n then {[]}
    else
      IdealStep(i, n);
      set j: nat, rest | j < i + 1 && rest in IdealDraws(i + 1, n) :: [j] + rest
  }

  ghost predicate IsIdeal(js: seq<nat>, i: nat, n: nat)
    requires i <= n
  {
    |js| == n - i && forall t :: 0 <= t < |js| ==> js[t] <= i + t
  }

  lemma IdealStep(i: nat, n: nat)
    requires i < n
    ensures forall js :: IsIdeal(js, i, n) <==> |js| > 0 && js[0] <= i && IsIdeal(js[1..], i + 1, n)
    ensures forall js: seq<nat> :: |js| > 0 ==> [js[0]] + js[1..] == js
    ensures forall j: nat, rest: seq<nat> :: ([j] + rest)[0] == j && ([j] + rest)[1..] == rest
  {
    forall js | |js| > 0 && js[0] <= i && IsIdeal(js[1..], i + 1, n) ensures IsIdeal(js, i, n) {
      forall t | 0 <= t < |js| ensures js[t] <= i + t {
        if t > 0 { assert js[1..][t - 1] == js[t]; }
      }
    }
  }

  /** The draws that leave candidate c in the sample. */
  ghost function Keeping(s: seq<nat>, i: nat, n: nat, c: nat): set<seq<nat>>
    requires i <= n
  {
    set js | js in IdealDraws(i, n) && c in Final(s, i, js)
  }

  /** ... whose first draw is below m. */
  ghost function KeepingBelow(s: seq<nat>, i: nat, n: nat, c: nat, m: nat): set<seq<nat>>
    requires i < n
  {
    set js | js in IdealDraws(i, n) && c in Final(s, i, js) && js[0] < m
  }

  ghost function Product(i: nat, n: nat): nat
    requires i <= n
    decreases n - i
  {
    if i == n then 1 else (i + 1) * Product(i + 1, n)
  }

  ghost function Prefixed(j: nat, rests: set<seq<nat>>): set<seq<nat>> {
    set rest | rest in rests :: [j] + rest
  }

  lemma {:induction false} PrefixedSize(j: nat, rests: set<seq<nat>>)
    ensures |Prefixed(j, rests)| == |rests|
    decreases |rests|
  {
    if |rests| > 0 {
      var r :| r in rests;
      PrefixedSize(j, rests - {r});
      assert Prefixed(j, rests) == Prefixed(j, rests - {r}) + {[j] + r};
      forall x | x in rests - {r} ensures [j] + x != [j] + r {
        assert ([j] + x)[1..] == x && ([j] + r)[1..] == r;
      }
    } else {
      assert Prefixed(j, rests) == {};
    }
  }

  /** One more first draw. */
  lemma KeepingGrows(s: seq<nat>, i: nat, n: nat, c: nat, m: nat)
    requires i < n && m <= i
    ensures |KeepingBelow(s, i, n, c, m + 1)|
         == |KeepingBelow(s, i, n, c, m)| + |Keeping(Placed(s, m, i), i + 1, n, c)|
  {
    var more := Prefixed(m, Keeping(Placed(s, m, i), i + 1, n, c));
    IdealStep(i, n);
    forall js ensures js in KeepingBelow(s, i, n, c, m + 1) <==> js in KeepingBelow(s, i, n, c, m) || js in more {
      if js in IdealDraws(i, n) && js[0] == m {
        assert js == [m] + js[1..];
      }
    }
    assert KeepingBelow(s, i, n, c, m + 1) == KeepingBelow(s, i, n, c, m) + more;
    PrefixedSize(m, Keeping(Placed(s, m, i), i + 1, n, c));
  }

  /** Of i + 1 first draws, the first m leave this many (i + 1)-ths of the weight of what follows. */
  ghost function Weight(s: seq<nat>, i: nat, c: nat): nat {
    if c in s then i else if c < i then 0 else |s|
  }

  ghost function WeightBelow(s: seq<nat>, i: nat, c: nat, m: nat): nat {
    if m == 0 then 0 else WeightBelow(s, i, c, m - 1) + Weight(Placed(s, m - 1, i), i + 1, c)
  }

  lemma PlacedHolds(s: seq<nat>, j: nat, i: nat, c: nat)
    requires IsSample(s, i)
    ensures c in Placed(s, j, i) <==> (c in s && !(j < |s| && s[j] == c)) || (c == i && j < |s|)
  {
    if j < |s| {
      var t := s[j := i];
      if c in s && s[j] != c {
        var q :| 0 <= q < |s| && s[q] == c;
        assert t[q] == c;
      }
      assert t[j] == i;
    }
  }

  /** A first draw has hit c's slot already. */
  ghost predicate InFirst(s: seq<nat>, c: nat, m: nat) {
    exists q :: 0 <= q < m && q < |s| && s[q] == c
  }

  lemma InFirstStep(s: seq<nat>, c: nat, m: nat)
    requires Distinct(s) && m > 0
    ensures InFirst(s, c, m) <==> InFirst(s, c, m - 1) || (m - 1 < |s| && s[m - 1] == c)
    ensures !(InFirst(s, c, m - 1) && m - 1 < |s| && s[m - 1] == c)
  {
  }

  lemma OneMore(m: nat, w: nat)
    requires m > 0
    ensures (m - 1) * w + w == m * w
  {
  }

  lemma StepWeight(s: seq<nat>, i: nat, c: nat, j: nat)
    requires IsSample(s, i)
    ensures Weight(Placed(s, j, i), i + 1, c)
         == (if c in s then (if j < |s| && s[j] == c then 0 else i + 1)
             else if c < i then 0 else if c > i then |s| else if j < |s| then i + 1 else 0)
  {
    PlacedHolds(s, j, i, c);
  }

  lemma {:induction false} HeldWeight(s: seq<nat>, i: nat, c: nat, m: nat)
    requires IsSample(s, i) && c in s
    ensures WeightBelow(s, i, c, m) == (if InFirst(s, c, m) then m - 1 else m) * (i + 1)
  {
    hide InFirst, Placed, Weight, IsSample;
    if m > 0 {
      HeldWeight(s, i, c, m - 1);
      StepWeight(s, i, c, m - 1);
      SampleIsDistinct(s, i);
      InFirstStep(s, c, m);
      OneMore(m, i + 1);
      if m > 1 { OneMore(m - 1, i + 1); NotInNone(s, c); } else { NotInNone(s, c); }
    } else {
      NotInNone(s, c);
    }
  }

  lemma SampleIsDistinct(s: seq<nat>, i: nat)
    requires IsSample(s, i)
    ensures Distinct(s) && |s| <= i
  {
  }

  lemma NotInNone(s: seq<nat>, c: nat)
    ensures !InFirst(s, c, 0)
  {
  }

  lemma {:induction false} LostWeight(s: seq<nat>, i: nat, c: nat, m: nat)
    requires IsSample(s, i) && c !in s && c < i
    ensures WeightBelow(s, i, c, m) == 0
  {
    hide Placed, Weight, IsSample;
    if m > 0 {
      LostWeight(s, i, c, m - 1);
      StepWeight(s, i, c, m - 1);
    }
  }

  lemma {:induction false} ArrivingWeight(s: seq<nat>, i: nat, m: nat)
    requires IsSample(s, i)
    ensures WeightBelow(s, i, i, m) == (if m < |s| then m else |s|) * (i + 1)
  {
    hide Placed, Weight;
    if m > 0 {
      ArrivingWeight(s, i, m - 1);
      StepWeight(s, i, i, m - 1);
      OneMore(m, i + 1);
    }
  }

  lemma {:induction false} LaterWeight(s: seq<nat>, i: nat, c: nat, m: nat)
    requires IsSample(s, i) && c > i
    ensures WeightBelow(s, i, c, m) == m * |s|
  {
    hide Placed, Weight;
    if m > 0 {
      LaterWeight(s, i, c, m - 1);
      StepWeight(s, i, c, m - 1);
      OneMore(m, |s|);
    }
  }

  lemma HeldIsInFirst(s: seq<nat>, i: nat, c: nat)
    requires IsSample(s, i) && c in s
    ensures InFirst(s, c, i + 1) && c < i
  {
    var q :| 0 <= q < |s| && s[q] == c;
  }

  /** All the first draws together. */
  lemma WeightAdds(s: seq<nat>, i: nat, c: nat)
    requires IsSample(s, i)
    ensures WeightBelow(s, i, c, i + 1) == (i + 1) * Weight(s, i, c)
  {
    hide WeightBelow, InFirst, IsSample, Distinct;
    SampleIsDistinct(s, i);
    if c in s {
      HeldWeight(s, i, c, i + 1);
      HeldIsInFirst(s, i, c);
    } else if c < i {
      LostWeight(s, i, c, i + 1);
    } else if c == i {
      ArrivingWeight(s, i, i + 1);
    } else {
      LaterWeight(s, i, c, i + 1);
    }
  }

  lemma KeepingNow(s: seq<nat>, n: nat, c: nat)
    ensures |Keeping(s, n, n, c)| == if c in s then 1 else 0
  {
    assert Keeping(s, n, n, c) == if c in s then {[]} else {};
  }

  lemma KeepingNone(s: seq<nat>, i: nat, n: nat, c: nat)
    requires i < n
    ensures |KeepingBelow(s, i, n, c, 0)| == 0
  {
    assert KeepingBelow(s, i, n, c, 0) == {};
  }

  lemma KeepingAll(s: seq<nat>, i: nat, n: nat, c: nat)
    requires i < n
    ensures KeepingBelow(s, i, n, c, i + 1) == Keeping(s, i, n, c)
  {
    hide Final;
    IdealStep(i, n);
    forall js ensures js in KeepingBelow(s, i, n, c, i + 1) <==> js in Keeping(s, i, n, c) {
    }
  }

  /** n times the number of draws that keep c is c's weight times the number of draws. */
  lemma {:induction false} KeepingCounts(s: seq<nat>, i: nat, n: nat, c: nat)
    requires IsSample(s, i) && i <= n && c < n
    ensures n * |Keeping(s, i, n, c)| == Weight(s, i, c) * Product(i, n)
    decreases n - i, i + 2
  {
    hide Keeping, KeepingBelow, WeightBelow, IsSample;
    if i == n {
      KeepingNow(s, n, c);
    } else {
      KeepingBelowCounts(s, i, n, c, i + 1);
      WeightAdds(s, i, c);
      KeepingAll(s, i, n, c);
      Regroup(i + 1, Weight(s, i, c), Product(i + 1, n));
    }
  }

  lemma Regroup(a: nat, w: nat, p: nat)
    ensures a * w * p == w * (a * p)
  {
  }

  lemma {:induction false} KeepingBelowCounts(s: seq<nat>, i: nat, n: nat, c: nat, m: nat)
    requires IsSample(s, i) && i < n && c < n && m <= i + 1
    ensures n * |KeepingBelow(s, i, n, c, m)| == WeightBelow(s, i, c, m) * Product(i + 1, n)
    decreases n - i, m
  {
    hide Keeping, KeepingBelow, Weight, IsSample, Product, Placed;
    if m == 0 {
      KeepingNone(s, i, n, c);
    } else {
      KeepingBelowCounts(s, i, n, c, m - 1);
      PlacedIsSample(s, m - 1, i);
      KeepingCounts(Placed(s, m - 1, i), i + 1, n, c);
      KeepingGrows(s, i, n, c, m - 1);
      Spread(n, |KeepingBelow(s, i, n, c, m - 1)|, |Keeping(Placed(s, m - 1, i), i + 1, n, c)|,
             WeightBelow(s, i, c, m - 1), Weight(Placed(s, m - 1, i), i + 1, c), Product(i + 1, n));
    }
  }

  lemma Spread(n: nat, a: nat, b: nat, v: nat, w: nat, p: nat)
    requires n * a == v * p && n * b == w * p
    ensures n * (a + b) == (v + w) * p
  {
  }

  lemma {:induction false} DrawsNumber(i: nat, n: nat)
    requires i <= n
    ensures |IdealDraws(i, n)| == Product(i, n)
    decreases n - i
  {
    if i == n {
      assert IdealDraws(i, n) == {[]};
    } else {
      hide IdealDraws;
      DrawsNumber(i + 1, n);
      DrawsBelowNumber(i, n, i + 1);
      assert DrawsBelow(i, n, i + 1) == IdealDraws(i, n);
    }
  }

  ghost function DrawsBelow(i: nat, n: nat, m: nat): set<seq<nat>>
    requires i < n
  {
    set js | js in IdealDraws(i, n) && js[0] < m
  }

  lemma DrawsGrow(i: nat, n: nat, m: nat)
    requires i < n && m <= i
    ensures |DrawsBelow(i, n, m + 1)| == |DrawsBelow(i, n, m)| + |IdealDraws(i + 1, n)|
  {
    var more := Prefixed(m, IdealDraws(i + 1, n));
    IdealStep(i, n);
    PrefixedSize(m, IdealDraws(i + 1, n));
    forall js ensures js in DrawsBelow(i, n, m + 1) <==> js in DrawsBelow(i, n, m) || js in more {
      if js in IdealDraws(i, n) && js[0] == m { assert js == [m] + js[1..]; }
    }
    assert DrawsBelow(i, n, m + 1) == DrawsBelow(i, n, m) + more;
    assert DrawsBelow(i, n, m) !! more;
  }

  lemma {:induction false} DrawsBelowNumber(i: nat, n: nat, m: nat)
    requires i < n && m <= i + 1
    ensures |DrawsBelow(i, n, m)| == m * |IdealDraws(i + 1, n)|
  {
    hide IdealDraws;
    if m > 0 {
      DrawsBelowNumber(i, n, m - 1);
      hide DrawsBelow;
      DrawsGrow(i, n, m - 1);
      OneMore(m, |IdealDraws(i + 1, n)|);
    } else {
      assert DrawsBelow(i, n, 0) == {};
    }
  }

  /** Over all sequences of ideal draws, each of n candidates is kept in exactly k of every n. */
  lemma SamplingIsFair(n: nat, k: nat, c: nat)
    requires k <= n && c < n
    ensures n * |Keeping(FirstK(k), k, n, c)| == k * |IdealDraws(k, n)|
    ensures |IdealDraws(k, n)| > 0
  {
    hide Keeping, IdealDraws, FirstK, IsSample, Product;
    FirstKIsSample(k);
    KeepingCounts(FirstK(k), k, n, c);
    DrawsNumber(k, n);
    ProductPositive(k, n);
    hide Weight;
    FirstKWeight(k, c);
  }

  lemma FirstKWeight(k: nat, c: nat)
    ensures Weight(FirstK(k), k, c) == k
  {
    FirstKIsSample(k);
  }

  lemma {:induction false} ProductPositive(i: nat, n: nat)
    requires i <= n
    ensures Product(i, n) > 0
    decreases n - i
  {
    if i < n { ProductPositive(i + 1, n); }
  }
}
