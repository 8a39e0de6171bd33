/** Folding the model's per-archetype reactions into the population.  A reaction moves the prior toward a stance,
    lowers the threshold, and for broadcasters, who do not listen, sets the opinion they broadcast.
    Refreshing the flags afterwards belongs to the state-frame model. */
module Reactions {
  import opened Reals

  datatype Reaction = Reaction(stance: real, salience: real, share: real)

  /** What a reaction reads and writes of one person. */
  datatype Person = Person(prior: real, y: real, threshold: real)

  function EffectiveWeight(w: real): real {
    if w <= 0.0 || w > 1.0 then 1.0 else w
  }

  function Toward(a: real, b: real, k: real): real {
    a + (b - a) * k
  }

  /** The prior moves toward the stance by weight times salience of the way. */
  function MovedPrior(prior: real, r: Reaction, weight: real): real {
    Toward(prior, r.stance, weight * r.salience)
  }

  function LoweredThreshold(threshold: real, share: real): real {
    var t := threshold * (1.0 - 0.55 * share);
    if t < 0.01 then 0.01 else t
  }

  function Reacted(p: Person, media: bool, r: Reaction, weight: real): Person {
    var prior := MovedPrior(p.prior, r, weight);
    Person(prior, if media then prior else p.y, LoweredThreshold(p.threshold, r.share))
  }

  ghost predicate SanePerson(p: Person) {
    -1.0 <= p.prior <= 1.0 && -1.0 <= p.y <= 1.0 && 0.01 <= p.threshold <= 1.0
  }

  ghost predicate SaneReaction(r: Reaction) {
    -1.0 <= r.stance <= 1.0 && 0.0 <= r.salience <= 1.0 && 0.0 <= r.share <= 1.0
  }

  /** A step of a share k from a toward b stays between them. */
  lemma TowardIsBetween(a: real, b: real, k: real)
    requires 0.0 <= k <= 1.0
    ensures a <= b ==> a <= Toward(a, b, k) <= b
    ensures a >= b ==> a >= Toward(a, b, k) >= b
  {
    if a <= b {
      NonNegative(b - a, k);
      NonNegative(b - a, 1.0 - k);
      assert (b - a) * (1.0 - k) == (b - a) - (b - a) * k;
    } else {
      NonNegative(a - b, k);
      NonNegative(a - b, 1.0 - k);
      assert (a - b) * k == -((b - a) * k);
      assert (a - b) * (1.0 - k) == (a - b) + (b - a) * k;
    }
  }

  lemma PriorMoves(prior: real, r: Reaction, weight: real)
    requires 0.0 < weight <= 1.0 && SaneReaction(r)
    ensures var q := MovedPrior(prior, r, weight);
      && (prior <= r.stance ==> prior <= q <= r.stance)
      && (prior >= r.stance ==> prior >= q >= r.stance)
  {
    Shrinks(weight, r.salience);
    TowardIsBetween(prior, r.stance, weight * r.salience);
  }

  lemma ThresholdFalls(threshold: real, share: real)
    requires 0.01 <= threshold <= 1.0 && 0.0 <= share <= 1.0
    ensures 0.01 <= LoweredThreshold(threshold, share) <= threshold
  {
    Shrinks(threshold, 1.0 - 0.55 * share);
  }

  /** A reaction keeps everyone in range, moves the prior only toward the stance, never raises a threshold, and
      changes the opinion itself only for broadcasters. */
  lemma ReactedIsSane(p: Person, media: bool, r: Reaction, w: real)
    requires SanePerson(p) && SaneReaction(r)
    ensures var q := Reacted(p, media, r, EffectiveWeight(w));
      && SanePerson(q) && q.threshold <= p.threshold && (!media ==> q.y == p.y) && (media ==> q.y == q.prior)
      && (p.prior <= r.stance ==> p.prior <= q.prior <= r.stance)
      && (p.prior >= r.stance ==> p.prior >= q.prior >= r.stance)
  {
    hide MovedPrior, LoweredThreshold;
    PriorMoves(p.prior, r, EffectiveWeight(w));
    ThresholdFalls(p.threshold, r.share);
  }

  /** The population as the loop sees it, person by person. */
  ghost function People(prior: seq<real>, y: seq<real>, threshold: seq<real>): (ps: seq<Person>)
    requires |prior| == |y| == |threshold|
    ensures |ps| == |prior|
  {
    seq(|prior|, i requires 0 <= i < |prior| => Person(prior[i], y[i], threshold[i]))
  }

  ghost function After(ps: seq<Person>, arch: seq<int>, media: seq<bool>, rx: map<int, Reaction>, w: real, i: nat)
    : Person
    requires i < |ps| == |arch| == |media|
  {
    if arch[i] in rx then Reacted(ps[i], media[i], rx[arch[i]], EffectiveWeight(w)) else ps[i]
  }

  ghost function Touched(arch: seq<int>, rx: map<int, Reaction>, m: nat): nat
    requires m <= |arch|
  {
    if m == 0 then 0 else Touched(arch, rx, m - 1) + if arch[m - 1] in rx then 1 else 0
  }

  /** The loop of ApplyReactions; resyncing the flags afterwards is the state-frame model's Rebuild. */
  method ApplyReactions(prior: array<real>, y: array<real>, threshold: array<real>,
                        arch: seq<int>, media: seq<bool>, rx: map<int, Reaction>, w: real)
    returns (applied: nat, personas: nat)
    requires prior.Length == y.Length == threshold.Length == |arch| == |media|
    requires prior != y && prior != threshold && y != threshold
    modifies prior, y, threshold
    ensures var ps := old(People(prior[..], y[..], threshold[..]));
      People(prior[..], y[..], threshold[..]) == seq(|ps|, i requires 0 <= i < |ps| => After(ps, arch, media, rx, w, i))
    ensures applied == |rx| && personas == Touched(arch, rx, |arch|)
  {
    hide Reacted;
    ghost var ps := People(prior[..], y[..], threshold[..]);
    var weight := EffectiveWeight(w);
    personas := 0;
    for i := 0 to |arch|
      invariant personas == Touched(arch, rx, i)
      invariant forall j :: 0 <= j < |arch| ==>
        Person(prior[j], y[j], threshold[j]) == if j < i then After(ps, arch, media, rx, w, j) else ps[j]
    {
      if arch[i] in rx {
        var q := Reacted(Person(prior[i], y[i], threshold[i]), media[i], rx[arch[i]], weight);
        prior[i], y[i], threshold[i] := q.prior, q.y, q.threshold;
        personas := personas + 1;
      }
    }
    applied := |rx|;
  }

  /** Applied to a population in range, the whole of it stays in range. */
  lemma PopulationStaysSane(ps: seq<Person>, arch: seq<int>, media: seq<bool>, rx: map<int, Reaction>, w: real, i: nat)
    requires i < |ps| == |arch| == |media| && SanePerson(ps[i])
    requires forall a :: a in rx ==> SaneReaction(rx[a])
    ensures SanePerson(After(ps, arch, media, rx, w, i))
    ensures After(ps, arch, media, rx, w, i).threshold <= ps[i].threshold
  {
    hide Reacted, SanePerson;
    var a := arch[i];
    if a in rx {
      assert SaneReaction(rx[a]);
      ReactedIsSane(ps[i], media[i], rx[a], w);
    }
  }
}
