/** Threshold contagion: one double-buffered round, the decay of attention, and the object that runs them.
    A round is a function of the state, the feeds' confirmations and the hour; the object computes it in place.
    What holds over whole runs is in CascadeTheorems. */
module Contagion {
  import opened Common
  import opened Reals

  datatype Stage = Unaware | Adopted | Fatigued

  /** The parameters of a story.  wake and luck are the random draws, functions of (step, person) because the
      code keys them so; chance is 1 - (1 - Beta)^exposed. */
  datatype Rule = Rule(minReinforce: int, transmitFor: int, simple: bool,
                       wake: (nat, nat) -> real, luck: (nat, nat) -> real, chance: int -> real)

  /** The state a round reads and writes.  at is the round of adoption, -1 if never. */
  datatype Cascade = Cascade(stage: seq<Stage>, at: seq<int>, fed: seq<bool>, step: nat,
                             threshold: seq<real>, scale: real)

  /** What a round is given: feed confirmations per person and chances of being awake; None is peer ties only and
      always awake. */
  datatype Input = Input(shown: Option<seq<nat>>, activity: Option<seq<real>>)

  const PEERS_ONLY := Input(None, None)

  ghost predicate Fits(net: Net, c: Cascade, x: Input) {
    && ValidNet(net)
    && |c.stage| == |c.at| == |c.fed| == |c.threshold| == |net|
    && (x.shown.Some? ==> |x.shown.value| == |net|)
    && (x.activity.Some? ==> |x.activity.value| == |net|)
  }

  // ---------- one person's decision ----------

  ghost function PeersIn(row: seq<nat>, stage: seq<Stage>): (n: nat)
    requires forall k :: 0 <= k < |row| ==> row[k] < |stage|
    ensures n <= |row|
  {
    if |row| == 0 then 0
    else PeersIn(row[..|row| - 1], stage) + if stage[row[|row| - 1]] == Adopted then 1 else 0
  }

  function EffectiveScale(scale: real): real {
    if scale <= 0.0 then 1.0 else scale
  }

  function MaxOf(a: int, b: int): int { if a < b then b else a }

  /** How many confirmations person i demands. */
  function Need(r: Rule, threshold: real, scale: real, degree: nat): int {
    MaxOf(Ceil(threshold * EffectiveScale(scale) * degree as real), r.minReinforce)
  }

  ghost function Feed(x: Input, i: nat): nat
    requires x.shown.Some? ==> i < |x.shown.value|
  {
    if x.shown.Some? then x.shown.value[i] else 0
  }

  ghost predicate Asleep(r: Rule, x: Input, step: nat, i: nat)
    requires x.activity.Some? ==> i < |x.activity.value|
  {
    x.activity.Some? && r.wake(step, i) >= x.activity.value[i]
  }

  /** Some(fed) if person i adopts this round, and whether it took the feed. */
  ghost function Verdict(r: Rule, net: Net, c: Cascade, x: Input, i: nat): Option<bool>
    requires Fits(net, c, x) && i < |net|
  {
    if c.stage[i] != Unaware || Asleep(r, x, c.step, i) then None
    else
      var peer, feed := PeersIn(net[i], c.stage), Feed(x, i);
      var exposed := peer + feed;
      if exposed == 0 || (|net[i]| == 0 && feed == 0) then None
      else if r.simple then
        if r.luck(c.step, i) < r.chance(exposed) then Some(peer == 0) else None
      else
        var need := Need(r, c.threshold[i], c.scale, |net[i]|);
        if exposed >= need then Some(peer < need) else None
  }

  // ---------- a round ----------

  /** What the evaluation loop has built for the first m people. */
  datatype Work = Work(next: seq<Stage>, at: seq<int>, fed: seq<bool>, count: nat)

  ghost function Marked(w: Work, i: nat, v: Option<bool>, step: nat): Work
    requires i < |w.next| == |w.at| == |w.fed|
  {
    if v.None? then w
    else Work(w.next[i := Adopted], w.at[i := step + 1], w.fed[i := v.value], w.count + 1)
  }

  ghost function Evaluated(r: Rule, net: Net, c: Cascade, x: Input, m: nat): (w: Work)
    requires Fits(net, c, x) && m <= |net|
    ensures |w.next| == |w.at| == |w.fed| == |net|
  {
    if m == 0 then Work(c.stage, c.at, c.fed, 0)
    else Marked(Evaluated(r, net, c, x, m - 1), m - 1, Verdict(r, net, c, x, m - 1), c.step)
  }

  ghost function Retired(stage: seq<Stage>, at: seq<int>, step: int, after: int): (s: seq<Stage>)
    requires |stage| == |at|
    ensures |s| == |stage|
  {
    seq(|stage|, i requires 0 <= i < |stage| =>
      if stage[i] == Adopted && at[i] >= 0 && step - at[i] >= after then Fatigued else stage[i])
  }

  ghost function Round(r: Rule, net: Net, c: Cascade, x: Input): (d: Cascade)
    requires Fits(net, c, x)
    ensures Fits(net, d, x) && Fits(net, d, PEERS_ONLY)
  {
    var w := Evaluated(r, net, c, x, |net|);
    var next := if r.transmitFor > 0 then Retired(w.next, w.at, c.step + 1, r.transmitFor) else w.next;
    c.(stage := next, at := w.at, fed := w.fed, step := c.step + 1)
  }

  ghost function NewAdopters(r: Rule, net: Net, c: Cascade, x: Input): nat
    requires Fits(net, c, x)
  {
    Evaluated(r, net, c, x, |net|).count
  }

  lemma {:induction false} EvaluatedAt(r: Rule, net: Net, c: Cascade, x: Input, m: nat, i: nat)
    requires Fits(net, c, x) && m <= |net| && i < |net|
    ensures var w, v := Evaluated(r, net, c, x, m), Verdict(r, net, c, x, i);
      if i < m && v.Some? then w.next[i] == Adopted && w.at[i] == c.step + 1 && w.fed[i] == v.value
      else w.next[i] == c.stage[i] && w.at[i] == c.at[i] && w.fed[i] == c.fed[i]
  {
    if m > 0 { EvaluatedAt(r, net, c, x, m - 1, i); }
  }

  // ---------- runs ----------

  /** Rounds used, people adopted, and where it ended. */
  datatype Outcome = Outcome(rounds: nat, adopted: nat, end: Cascade)

  ghost function Run(r: Rule, net: Net, c: Cascade, maxRounds: nat): (o: Outcome)
    requires Fits(net, c, PEERS_ONLY)
    ensures o.rounds <= maxRounds && Fits(net, o.end, PEERS_ONLY)
    decreases maxRounds
  {
    if maxRounds == 0 then Outcome(0, 0, c)
    else
      var n, d := NewAdopters(r, net, c, PEERS_ONLY), Round(r, net, c, PEERS_ONLY);
      if n == 0 then Outcome(1, 0, d)
      else var o := Run(r, net, d, maxRounds - 1); Outcome(o.rounds + 1, o.adopted + n, o.end)
  }

  // ---------- the object ----------

  class Contagion {
    var stage: array<Stage>
    var next: array<Stage>
    const at: array<int>
    const fed: array<bool>
    const threshold: array<real>
    const baseThreshold: seq<real>
    var scale: real
    var step: nat

    /** The five buffers are of one size, and the two that swap are distinct; next holds leftovers that nothing may
        depend on. */
    ghost predicate Valid(net: Net)
      reads this
    {
      && ValidNet(net) && stage != next
      && stage.Length == next.Length == at.Length == fed.Length == threshold.Length == |baseThreshold| == |net|
    }

    ghost function View(): Cascade
      reads this, stage, at, fed, threshold
    {
      Cascade(stage[..], at[..], fed[..], step, threshold[..], scale)
    }

    ghost function Repr(): set<object>
      reads this
    {
      {this, stage, next, at, fed, threshold}
    }

    constructor (thresholds: seq<real>)
      ensures View() == Fresh(thresholds) && baseThreshold == thresholds
      ensures stage != next
      ensures stage.Length == next.Length == at.Length == fed.Length == threshold.Length == |thresholds|
      ensures forall o :: o in Repr() ==> fresh(o)
    {
      stage := new Stage[|thresholds|](_ => Unaware);
      next := new Stage[|thresholds|](_ => Unaware);
      at := new int[|thresholds|](_ => -1);
      fed := new bool[|thresholds|](_ => false);
      threshold := new real[|thresholds|](i requires 0 <= i < |thresholds| => thresholds[i]);
      baseThreshold := thresholds;
      scale, step := 1.0, 0;
      new;
      assert View() == Fresh(thresholds);
    }

    method CountPeers(row: seq<nat>) returns (n: nat)
      requires forall k :: 0 <= k < |row| ==> row[k] < stage.Length
      ensures n == PeersIn(row, stage[..])
    {
      n := 0;
      for k := 0 to |row|
        invariant n == PeersIn(row[..k], stage[..])
      {
        assert row[..k + 1][..k] == row[..k];
        if stage[row[k]] == Adopted {
          n := n + 1;
        }
      }
      assert row[..|row|] == row;
    }

    /** One turn of the evaluation loop. */
    method Decide(r: Rule, net: Net, x: Input, i: nat) returns (v: Option<bool>)
      requires Valid(net) && Fits(net, View(), x) && i < |net|
      ensures v == Verdict(r, net, View(), x, i)
    {
      hide PeersIn, Need;
      if stage[i] != Unaware {
        return None;
      }
      if x.activity.Some? && r.wake(step, i) >= x.activity.value[i] {
        return None;
      }
      var peer := CountPeers(net[i]);
      var feed := if x.shown.Some? then x.shown.value[i] else 0;
      var exposed := peer + feed;
      if exposed == 0 {
        return None;
      }
      if |net[i]| == 0 && feed == 0 {
        return None;
      }
      if r.simple {
        return if r.luck(step, i) < r.chance(exposed) then Some(peer == 0) else None;
      }
      var need := Need(r, threshold[i], scale, |net[i]|);
      return if exposed >= need then Some(peer < need) else None;
    }

    /** The evaluation loop: reads stage, writes next, at and fed. */
    method Evaluate(r: Rule, net: Net, x: Input) returns (total: nat)
      requires Valid(net) && Fits(net, View(), x)
      modifies next, at, fed
      ensures stage[..] == old(stage[..])
      ensures Work(next[..], at[..], fed[..], total) == Evaluated(r, net, old(View()), x, |net|)
    {
      hide Verdict;
      ghost var c := View();
      forall i | 0 <= i < next.Length {
        next[i] := stage[i];
      }
      assert next[..] == stage[..];
      total := 0;
      for i := 0 to stage.Length
        invariant stage[..] == c.stage
        invariant Work(next[..], at[..], fed[..], total) == Evaluated(r, net, c, x, i)
      {
        ghost var w := Work(next[..], at[..], fed[..], total);
        VerdictReads(r, net, c, View(), x, i);
        var v := Decide(r, net, x, i);
        if v.Some? {
          next[i] := Adopted;
          at[i] := step + 1;
          fed[i] := v.value;
          total := total + 1;
        }
        assert Work(next[..], at[..], fed[..], total) == Marked(w, i, v, step);
      }
    }

    /** Decay on the current stages. */
    method Decay(after: int)
      requires stage.Length == at.Length
      modifies stage
      ensures stage[..] == Retired(old(stage[..]), at[..], step, after)
    {
      ghost var was := stage[..];
      for i := 0 to stage.Length
        invariant forall j :: 0 <= j < i ==> stage[j] == Retired(was, at[..], step, after)[j]
        invariant forall j :: i <= j < stage.Length ==> stage[j] == was[j]
      {
        if stage[i] == Adopted && at[i] >= 0 && step - at[i] >= after {
          stage[i] := Fatigued;
        }
      }
    }

    /** One round; the buffers swap and the old stage becomes scratch. */
    method AdvanceWith(r: Rule, net: Net, x: Input) returns (total: nat)
      requires Valid(net) && Fits(net, View(), x)
      modifies this`stage, this`next, this`step, stage, next, at, fed
      ensures Valid(net) && stage == old(next) && next == old(stage)
      ensures View() == Round(r, net, old(View()), x) && total == NewAdopters(r, net, old(View()), x)
    {
      hide Evaluated;
      total := Evaluate(r, net, x);
      stage, next := next, stage;
      step := step + 1;
      if r.transmitFor > 0 {
        Decay(r.transmitFor);
      }
    }

    method Advance(r: Rule, net: Net) returns (total: nat)
      requires Valid(net)
      modifies this`stage, this`next, this`step, stage, next, at, fed
      ensures Valid(net) && {stage, next} == old({stage, next})
      ensures View() == Round(r, net, old(View()), PEERS_ONLY) && total == NewAdopters(r, net, old(View()), PEERS_ONLY)
    {
      total := AdvanceWith(r, net, PEERS_ONLY);
    }

    method RunRounds(r: Rule, net: Net, maxRounds: nat) returns (rounds: nat, adopted: nat)
      requires Valid(net)
      modifies this`stage, this`next, this`step, stage, next, at, fed
      ensures Valid(net) && {stage, next} == old({stage, next})
      ensures Outcome(rounds, adopted, View()) == Run(r, net, old(View()), maxRounds)
    {
      hide Round, NewAdopters;
      rounds, adopted := 0, 0;
      ghost var goal := Run(r, net, View(), maxRounds);
      while rounds < maxRounds
        invariant Valid(net) && {stage, next} == old({stage, next}) && rounds <= maxRounds
        invariant var o := Run(r, net, View(), maxRounds - rounds);
          goal == Outcome(rounds + o.rounds, adopted + o.adopted, o.end)
      {
        var n := Advance(r, net);
        adopted := adopted + n;
        rounds := rounds + 1;
        if n == 0 {
          return;
        }
      }
    }

    method Count() returns (n: nat)
      ensures n == Aware(stage[..])
    {
      n := 0;
      for i := 0 to stage.Length
        invariant n == Aware(stage[..i])
      {
        assert stage[..i + 1][..i] == stage[..i];
        if stage[i] != Unaware {
          n := n + 1;
        }
      }
      assert stage[..stage.Length] == stage[..];
    }

    /** Back to before the story, including thresholds a reaction has moved; next is left as it is. */
    method Reset()
      requires stage.Length == at.Length == fed.Length == threshold.Length == |baseThreshold|
      modifies this`step, this`scale, stage, at, fed, threshold
      ensures View() == Fresh(baseThreshold)
    {
      forall i | 0 <= i < stage.Length { stage[i] := Unaware; }
      forall i | 0 <= i < at.Length { at[i] := -1; }
      forall i | 0 <= i < fed.Length { fed[i] := false; }
      forall i | 0 <= i < threshold.Length { threshold[i] := baseThreshold[i]; }
      step, scale := 0, 1.0;
      assert View() == Fresh(baseThreshold);
    }
  }

  ghost function Aware(stage: seq<Stage>): nat {
    if |stage| == 0 then 0 else Aware(stage[..|stage| - 1]) + if stage[|stage| - 1] != Unaware then 1 else 0
  }

  /** A verdict depends on nothing the evaluation loop writes. */
  lemma VerdictReads(r: Rule, net: Net, c: Cascade, d: Cascade, x: Input, i: nat)
    requires Fits(net, c, x) && Fits(net, d, x) && i < |net|
    requires c.stage == d.stage && c.step == d.step && c.threshold == d.threshold && c.scale == d.scale
    ensures Verdict(r, net, c, x, i) == Verdict(r, net, d, x, i)
  {
  }

  ghost function Fresh(thresholds: seq<real>): Cascade {
    var n := |thresholds|;
    Cascade(seq(n, _ => Unaware), seq(n, _ => -1), seq(n, _ => false), 0, thresholds, 1.0)
  }
}
