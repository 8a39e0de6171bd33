/** The media layer: platforms' attention, what their feeds show, and what it is worth as confirmation.  What
    happens on a platform is a function of its state, the audience and the draws. */
module Media {
  import opened Common
  import opened Contagion
  import opened Opinion
  import opened Reals

  /** The parameters of a platform that the dynamics read. */
  datatype Platform = Platform(amplify: real, sorting: real, velocity: real, decay: real, closed: bool)

  /** Who is on what, and how many people each persona stands for. */
  datatype Audience = Audience(member: seq<seq<bool>>, weight: seq<real>)

  /** The random draws, functions of (step, platform, person) as the code keys them, and the power function;
      arrivals is the Poisson draw for a given mean, at most 32. */
  datatype Chance = Chance(uniform: (nat, nat, nat) -> real, arrivals: (nat, nat, nat, real) -> nat,
                           power: (real, real) -> real)

  const FEED_SLOTS := 3.0

  /** One platform's story state. */
  datatype Channel = Channel(score: real, presence: real, peak: real, peakAt: int, feedMean: real)

  datatype Layer = Layer(channels: seq<Channel>, exposed: seq<bool>, step: nat, enabled: bool)

  ghost predicate Fit(ps: seq<Platform>, a: Audience, l: Layer) {
    && |l.channels| == |ps| && |a.member| == |a.weight| == |l.exposed|
    && forall i :: 0 <= i < |a.member| ==> |a.member[i]| == |ps|
  }

  function Clamp01(x: real): real { if x < 0.0 then 0.0 else if x > 1.0 then 1.0 else x }

  predicate Quiet(l: Layer) {
    forall p :: 0 <= p < |l.channels| ==> l.channels[p].score <= 0.0001
  }

  predicate Live(l: Layer) { l.enabled && !Quiet(l) }

  // ---------- engagement ----------

  /** What one pass over the population accumulates for a platform. */
  datatype Tally = Tally(members: real, active: real, opSum: real, opN: real)

  function Counted(t: Tally, member: bool, active: bool, y: real, wt: real): Tally {
    if !member then t
    else if active then Tally(t.members + wt, t.active + wt, t.opSum + y * wt, t.opN + wt)
    else t.(members := t.members + wt)
  }

  ghost function TallyOf(a: Audience, stage: seq<Stage>, y: seq<real>, p: nat, m: nat): Tally
    requires m <= |a.member| == |a.weight| == |stage| == |y|
    requires forall i :: 0 <= i < |a.member| ==> p < |a.member[i]|
  {
    if m == 0 then Tally(0.0, 0.0, 0.0, 0.0)
    else Counted(TallyOf(a, stage, y, p, m - 1), a.member[m - 1][p], stage[m - 1] == Adopted, y[m - 1], a.weight[m - 1])
  }

  function Engagement(t: Tally): real {
    if t.members > 0.0 then t.active / t.members else 0.0
  }

  /** Engagement lifts a score, and then decay takes its share. */
  function Grown(pl: Platform, score: real, e: real): (s: real)
    ensures 0.0 <= s <= 1.0
  {
    Decayed(Lifted(score, pl.velocity, e), pl.decay)
  }

  function Lifted(score: real, velocity: real, e: real): real {
    score + velocity * e * (1.0 - score)
  }

  function Decayed(score: real, decay: real): real {
    Clamp01(score - decay * score)
  }

  function Ranked(ch: Chance, pl: Platform, e: real): real {
    if !pl.closed && pl.amplify > 0.0 && e > 0.0 then ch.power(e, 1.0 / (1.0 + pl.amplify)) else e
  }

  /** The share of feed slots a story occupies. */
  function Presence(ranked: real, score: real): (p: real)
    ensures 0.0 <= p <= 1.0
  {
    Clamp01(ranked * score)
  }

  /** One platform's update for a tick. */
  function Updated(ch: Chance, pl: Platform, c: Channel, t: Tally, step: nat): Channel {
    var e := Engagement(t);
    var score := Grown(pl, c.score, e);
    var presence := Presence(Ranked(ch, pl, e), score);
    var higher := presence > c.peak;
    Channel(score, presence, if higher then presence else c.peak, if higher then step else c.peakAt,
            if t.opN > 0.0 then t.opSum / t.opN else c.feedMean * 0.85)
  }

  // ---------- exposure ----------

  /** What one platform's feed shows a person who has not heard. */
  function ShownBy(ch: Chance, pl: Platform, presence: real, step: nat, p: nat, i: nat): nat {
    if presence <= 0.000001 then 0
    else if pl.closed then if ch.uniform(step, p, i) < presence then 1 else 0
    else ch.arrivals(step, p, i, FEED_SLOTS * presence)
  }

  ghost function ShownTo(ps: seq<Platform>, a: Audience, ch: Chance, chans: seq<Channel>, step: nat, i: nat, m: nat)
    : nat
    requires m <= |ps| == |chans| && i < |a.member| && |a.member[i]| == |ps|
  {
    if m == 0 then 0
    else
      var before := ShownTo(ps, a, ch, chans, step, i, m - 1);
      if a.member[i][m - 1] then before + ShownBy(ch, ps[m - 1], chans[m - 1].presence, step, m - 1, i) else before
  }

  /** effectiveConfirmations: the whole part of 0.9 * sqrt(shown), at most 4; k qualifies while 100 k^2 <= 81 shown. */
  function Confirmations(shown: nat): nat {
    if 81 * shown >= 1600 then 4
    else if 81 * shown >= 900 then 3
    else if 81 * shown >= 400 then 2
    else if 81 * shown >= 100 then 1
    else 0
  }

  /** It is the largest k up to 4 with k <= 0.9 * sqrt(shown); it never falls as more is shown; and one post is
      worth nothing. */
  lemma ConfirmationsIs(shown: nat, more: nat)
    requires shown <= more
    ensures var k := Confirmations(shown);
      k <= 4 && 100 * k * k <= 81 * shown && (k < 4 ==> 100 * (k + 1) * (k + 1) > 81 * shown)
    ensures Confirmations(shown) <= Confirmations(more) && (shown > 0 ==> Confirmations(shown) < shown)
    ensures Confirmations(1) == 0
  {
  }

  ghost function Total(ps: seq<Platform>, a: Audience, ch: Chance, chans: seq<Channel>, step: nat, stage: seq<Stage>,
                       i: nat): nat
    requires |ps| == |chans| && i < |a.member| == |stage| && |a.member[i]| == |ps|
  {
    if stage[i] == Unaware then ShownTo(ps, a, ch, chans, step, i, |ps|) else 0
  }

  /** A tick of a layer that is looked at: the new layer and the confirmations each person's feeds delivered. */
  ghost function Delivered(ps: seq<Platform>, a: Audience, ch: Chance, l: Layer, stage: seq<Stage>, y: seq<real>)
    : (r: (Layer, seq<nat>))
    requires Fit(ps, a, l) && |stage| == |y| == |a.member|
    ensures Fit(ps, a, r.0) && |r.1| == |a.member|
  {
    var chans := UpdatedAll(ps, a, ch, l, stage, y, |ps|);
    var n := |stage|;
    (Layer(chans,
           seq(n, i requires 0 <= i < n => Total(ps, a, ch, chans, l.step, stage, i) > 0),
           l.step + 1, true),
     seq(n, i requires 0 <= i < n => Confirmations(Total(ps, a, ch, chans, l.step, stage, i))))
  }

  /** A tick: a layer that is off or quiet is skipped. */
  ghost function Advance(ps: seq<Platform>, a: Audience, ch: Chance, l: Layer, stage: seq<Stage>, y: seq<real>)
    : (r: (Layer, seq<nat>))
    requires Fit(ps, a, l) && |stage| == |y| == |a.member|
    ensures Fit(ps, a, r.0) && |r.1| == |a.member| && r.0.enabled == l.enabled
  {
    if !Live(l) then (l, seq(|stage|, _ => 0)) else Delivered(ps, a, ch, l, stage, y)
  }

  ghost function UpdatedAll(ps: seq<Platform>, a: Audience, ch: Chance, l: Layer, stage: seq<Stage>, y: seq<real>,
                            m: nat)
    : (c: seq<Channel>)
    requires Fit(ps, a, l) && |stage| == |y| == |a.member| && m <= |ps|
    ensures |c| == |ps|
  {
    seq(|ps|, p requires 0 <= p < |ps| =>
      if p < m then Updated(ch, ps[p], l.channels[p], TallyOf(a, stage, y, p, |stage|), l.step) else l.channels[p])
  }

  // ---------- the opinion blend ----------

  /** One platform's share of the blend: nothing while the story has no presence there. */
  function PullFrom(so: (real, real), pl: Platform, c: Channel, y: real): (real, real) {
    if c.presence <= 0.000001 then so
    else
      var wt := Heft(c.presence, pl.velocity);
      (so.0 + Saying(pl.sorting, y, c.feedMean, wt), so.1 + wt)
  }

  /** What a platform shows a reader who stands at y, sorting of themselves and the rest of the platform, weighed. */
  function Saying(sorting: real, y: real, mean: real, wt: real): real {
    (sorting * y + (1.0 - sorting) * mean) * wt
  }

  /** How much it counts. */
  function Heft(presence: real, velocity: real): real {
    presence * (0.4 + 0.6 * velocity)
  }

  /** Sum of weighted positions and of weights over the first m platforms a person is on. */
  ghost function Pulled(ps: seq<Platform>, a: Audience, l: Layer, y: real, i: nat, m: nat): (real, real)
    requires Fit(ps, a, l) && i < |a.member| && m <= |ps|
  {
    if m == 0 then (0.0, 0.0)
    else
      var so := Pulled(ps, a, l, y, i, m - 1);
      if a.member[i][m - 1] then PullFrom(so, ps[m - 1], l.channels[m - 1], y) else so
  }

  ghost function FeedPull(ps: seq<Platform>, a: Audience, l: Layer, y: real, i: nat): Pull
    requires Fit(ps, a, l) && i < |a.member|
  {
    if !l.enabled then Pull(0.0, 0.0)
    else
      var (sum, wsum) := Pulled(ps, a, l, y, i, |ps|);
      if wsum == 0.0 then Pull(0.0, 0.0) else Pull(sum / wsum, wsum)
  }

  /** What the opinion round is given: nothing at all unless a story is live. */
  ghost function Pulls(ps: seq<Platform>, a: Audience, l: Layer, y: seq<real>): (o: Option<seq<Pull>>)
    requires Fit(ps, a, l) && |y| == |a.member|
    ensures o.Some? ==> |o.value| == |a.member|
  {
    if Live(l) then Some(seq(|y|, i requires 0 <= i < |y| => FeedPull(ps, a, l, y[i], i))) else None
  }

  // ---------- ranges ----------

  ghost predicate SaneP(ps: seq<Platform>) {
    forall p :: 0 <= p < |ps| ==> 0.0 <= ps[p].sorting <= 1.0 && ps[p].velocity >= 0.0
  }

  ghost predicate SaneChannel(c: Channel) {
    0.0 <= c.score <= 1.0 && 0.0 <= c.presence <= 1.0 && -1.0 <= c.feedMean <= 1.0
  }

  ghost predicate Sane(l: Layer) {
    forall p :: 0 <= p < |l.channels| ==> SaneChannel(l.channels[p])
  }

  ghost predicate Weighs(a: Audience) {
    forall i :: 0 <= i < |a.weight| ==> a.weight[i] >= 0.0
  }

  lemma AddWithin(sum: real, wsum: real, seen: real, wt: real)
    requires wsum >= 0.0 && -wsum <= sum <= wsum && -1.0 <= seen <= 1.0 && wt >= 0.0
    ensures wsum + wt >= 0.0 && -(wsum + wt) <= sum + seen * wt <= wsum + wt
  {
    Within(wt, seen);
    assert seen * wt == wt * seen;
  }

  ghost predicate SaneTally(t: Tally) {
    -t.opN <= t.opSum <= t.opN && 0.0 <= t.opN == t.active <= t.members
  }

  lemma CountedSane(t: Tally, member: bool, active: bool, y: real, wt: real)
    requires SaneTally(t) && -1.0 <= y <= 1.0 && wt >= 0.0
    ensures SaneTally(Counted(t, member, active, y, wt))
  {
    AddWithin(t.opSum, t.opN, y, wt);
  }

  lemma {:induction false} TallySane(a: Audience, stage: seq<Stage>, y: seq<real>, p: nat, m: nat)
    requires m <= |a.member| == |a.weight| == |stage| == |y| && Weighs(a) && InRange(y)
    requires forall i :: 0 <= i < |a.member| ==> p < |a.member[i]|
    ensures SaneTally(TallyOf(a, stage, y, p, m))
  {
    hide Counted;
    if m > 0 {
      TallySane(a, stage, y, p, m - 1);
      var t := TallyOf(a, stage, y, p, m - 1);
      CountedSane(t, a.member[m - 1][p], stage[m - 1] == Adopted, y[m - 1], a.weight[m - 1]);
    }
  }

  lemma UpdatedSane(ch: Chance, pl: Platform, c: Channel, t: Tally, step: nat)
    requires SaneTally(t) && -1.0 <= c.feedMean <= 1.0
    ensures SaneChannel(Updated(ch, pl, c, t, step))
  {
    hide Grown, Presence, Ranked, Engagement;
    if t.opN > 0.0 { QuotientWithin(t.opSum, t.opN, 1.0); }
  }

  /** A tick keeps scores and presences in [0, 1] and what each feed shows in [-1, 1]. */
  lemma AdvanceSane(ps: seq<Platform>, a: Audience, ch: Chance, l: Layer, stage: seq<Stage>, y: seq<real>)
    requires Fit(ps, a, l) && |stage| == |y| == |a.member| && Sane(l) && Weighs(a) && InRange(y)
    ensures Sane(Advance(ps, a, ch, l, stage, y).0)
  {
    hide TallyOf, Updated;
    if Live(l) {
      var next := Advance(ps, a, ch, l, stage, y).0;
      forall p | 0 <= p < |ps| ensures SaneChannel(next.channels[p]) {
        TallySane(a, stage, y, p, |stage|);
        UpdatedSane(ch, ps[p], l.channels[p], TallyOf(a, stage, y, p, |stage|), l.step);
      }
    }
  }

  lemma SayingWithin(sum: real, wsum: real, sorting: real, y: real, mean: real, wt: real)
    requires wsum >= 0.0 && -wsum <= sum <= wsum && wt >= 0.0
    requires 0.0 <= sorting <= 1.0 && -1.0 <= y <= 1.0 && -1.0 <= mean <= 1.0
    ensures -(wsum + wt) <= sum + Saying(sorting, y, mean, wt) <= wsum + wt
  {
    MixInRange(sorting, y, mean);
    AddWithin(sum, wsum, sorting * y + (1.0 - sorting) * mean, wt);
  }

  lemma HeftNonNegative(presence: real, velocity: real)
    requires presence >= 0.0 && velocity >= 0.0
    ensures Heft(presence, velocity) >= 0.0
  {
    NonNegative(presence, 0.4 + 0.6 * velocity);
  }

  /** One platform's contribution. */
  lemma PullAdds(sum: real, wsum: real, pl: Platform, c: Channel, y: real)
    requires wsum >= 0.0 && -wsum <= sum <= wsum && SaneChannel(c)
    requires 0.0 <= pl.sorting <= 1.0 && pl.velocity >= 0.0 && -1.0 <= y <= 1.0
    ensures var (s, w) := PullFrom((sum, wsum), pl, c, y); w >= 0.0 && -w <= s <= w
  {
    HeftNonNegative(c.presence, pl.velocity);
    SayingWithin(sum, wsum, pl.sorting, y, c.feedMean, Heft(c.presence, pl.velocity));
    hide Saying, Heft;
  }

  lemma {:induction false} PulledSane(ps: seq<Platform>, a: Audience, l: Layer, y: real, i: nat, m: nat)
    requires Fit(ps, a, l) && i < |a.member| && m <= |ps| && SaneP(ps) && Sane(l) && -1.0 <= y <= 1.0
    ensures var (sum, wsum) := Pulled(ps, a, l, y, i, m); wsum >= 0.0 && -wsum <= sum <= wsum
  {
    hide SaneChannel, PullFrom;
    if m > 0 {
      PulledSane(ps, a, l, y, i, m - 1);
      var (sum, wsum) := Pulled(ps, a, l, y, i, m - 1);
      PullAdds(sum, wsum, ps[m - 1], l.channels[m - 1], y);
    }
  }

  /** What a feed shows a person is a position in [-1, 1], carried with a weight that is never negative. */
  lemma FeedPullSane(ps: seq<Platform>, a: Audience, l: Layer, y: real, i: nat)
    requires Fit(ps, a, l) && i < |a.member| && SaneP(ps) && Sane(l) && -1.0 <= y <= 1.0
    ensures var f := FeedPull(ps, a, l, y, i); f.weight >= 0.0 && -1.0 <= f.mean <= 1.0
  {
    PulledSane(ps, a, l, y, i, |ps|);
    var (sum, wsum) := Pulled(ps, a, l, y, i, |ps|);
    if wsum > 0.0 { QuotientWithin(sum, wsum, 1.0); }
  }

  // ---------- ignition, switching off, reset ----------

  function IgniteScore(pl: Platform, salience: real): real {
    var s := 0.25 * salience * (0.6 + 0.4 * pl.velocity);
    Clamp01(if pl.closed then s * 0.35 else s)
  }

  ghost function Ignited(ps: seq<Platform>, l: Layer, salience: real): (k: Layer)
    requires |l.channels| == |ps|
    ensures |k.channels| == |ps| && k.exposed == l.exposed && k.enabled == l.enabled
  {
    if !l.enabled then l
    else l.(channels := seq(|ps|, p requires 0 <= p < |ps| =>
              Channel(IgniteScore(ps[p], salience), 0.0, 0.0, 0, l.channels[p].feedMean)),
            step := 0)
  }

  ghost function Cleared(l: Layer): (k: Layer)
    ensures |k.channels| == |l.channels| && |k.exposed| == |l.exposed| && k.enabled == l.enabled
  {
    Layer(seq(|l.channels|, _ => Channel(0.0, 0.0, 0.0, 0, 0.0)), seq(|l.exposed|, _ => false), 0, l.enabled)
  }

  /** SetEnabled(false) also clears what the story had reached; peakAt, feedMean and the step stay. */
  ghost function Switched(l: Layer, on: bool): Layer {
    if on then l.(enabled := true)
    else Layer(seq(|l.channels|, p requires 0 <= p < |l.channels| =>
                 l.channels[p].(score := 0.0, presence := 0.0, peak := 0.0)),
               seq(|l.exposed|, _ => false), l.step, false)
  }

  lemma StoryStateSane(ps: seq<Platform>, l: Layer, salience: real, on: bool)
    requires |l.channels| == |ps| && Sane(l)
    ensures Sane(Ignited(ps, l, salience)) && Sane(Cleared(l)) && Sane(Switched(l, on))
  {
  }

  // ---------- what a layer cannot do ----------

  /** Off is off: a disabled layer shows nothing, pulls no one, and does not change. */
  lemma DisabledIsAbsent(ps: seq<Platform>, a: Audience, ch: Chance, l: Layer, stage: seq<Stage>, y: seq<real>)
    requires Fit(ps, a, l) && |stage| == |y| == |a.member| && !l.enabled
    ensures Pulls(ps, a, l, y) == None && Advance(ps, a, ch, l, stage, y) == (l, seq(|stage|, _ => 0))
    ensures forall i :: 0 <= i < |y| ==> FeedPull(ps, a, l, y[i], i).weight == 0.0
  {
  }

  /** A layer whose only platform is a closed one shows a person at most one post a tick, which is worth no
      confirmation at all. */
  lemma ClosedChannelConfirmsNothing(pl: Platform, a: Audience, ch: Chance, l: Layer, stage: seq<Stage>, y: seq<real>)
    requires Fit([pl], a, l) && |stage| == |y| == |a.member| && pl.closed
    ensures forall i :: 0 <= i < |stage| ==> Advance([pl], a, ch, l, stage, y).1[i] == 0
  {
    if Live(l) {
      var chans := UpdatedAll([pl], a, ch, l, stage, y, 1);
      forall i | 0 <= i < |stage| ensures Total([pl], a, ch, chans, l.step, stage, i) <= 1 {
        assert ShownTo([pl], a, ch, chans, l.step, i, 0) == 0;
      }
      ConfirmationsIs(1, 1);
    }
  }

  // ---------- the layer as it runs ----------

  class MediaLayer {
    const score: array<real>
    const presence: array<real>
    const peak: array<real>
    const peakAt: array<int>
    const feedMean: array<real>
    const exposed: array<bool>
    var step: nat
    var enabled: bool

    ghost predicate Valid()
    {
      && score != presence && score != peak && score != feedMean
      && presence != peak && presence != feedMean && peak != feedMean
      && score.Length == presence.Length == peak.Length == peakAt.Length == feedMean.Length
    }

    ghost function At(p: nat): Channel
      requires Valid() && p < score.Length
      reads score, presence, peak, peakAt, feedMean
    {
      Channel(score[p], presence[p], peak[p], peakAt[p], feedMean[p])
    }

    ghost function Channels(): (c: seq<Channel>)
      requires Valid()
      reads score, presence, peak, peakAt, feedMean
      ensures |c| == score.Length
    {
      seq(score.Length, p requires 0 <= p < score.Length reads score, presence, peak, peakAt, feedMean => At(p))
    }

    ghost function View(): Layer
      requires Valid()
      reads this, score, presence, peak, peakAt, feedMean, exposed
    {
      Layer(Channels(), exposed[..], step, enabled)
    }

    ghost function Repr(): set<object> {
      {this, score, presence, peak, peakAt, feedMean, exposed}
    }

    constructor (platforms: nat, people: nat)
      ensures Valid() && View() == NewLayer(platforms, people)
      ensures fresh(score) && fresh(presence) && fresh(peak) && fresh(peakAt) && fresh(feedMean) && fresh(exposed)
    {
      score := new real[platforms](_ => 0.0);
      presence := new real[platforms](_ => 0.0);
      peak := new real[platforms](_ => 0.0);
      peakAt := new int[platforms](_ => 0);
      feedMean := new real[platforms](_ => 0.0);
      exposed := new bool[people](_ => false);
      step, enabled := 0, true;
      new;
      assert Channels() == NewLayer(platforms, people).channels;
    }

    method IsQuiet() returns (b: bool)
      requires Valid()
      ensures b == Quiet(View())
    {
      for p := 0 to score.Length
        invariant forall q :: 0 <= q < p ==> score[q] <= 0.0001
      {
        if score[p] > 0.0001 {
          assert View().channels[p].score > 0.0001;
          return false;
        }
      }
      return true;
    }

    method Set(p: nat, c: Channel)
      requires Valid() && p < score.Length
      modifies score, presence, peak, peakAt, feedMean
      ensures Channels() == old(Channels())[p := c]
    {
      score[p], presence[p], peak[p], peakAt[p], feedMean[p] := c.score, c.presence, c.peak, c.peakAt, c.feedMean;
      assert At(p) == c;
    }

    method Ignite(ps: seq<Platform>, salience: real)
      requires Valid() && |ps| == score.Length
      modifies this`step, score, presence, peak, peakAt, feedMean
      ensures View() == Ignited(ps, old(View()), salience)
    {
      if !enabled {
        return;
      }
      ghost var was, goal := View(), Ignited(ps, View(), salience).channels;
      for p := 0 to |ps|
        invariant step == was.step && enabled
        invariant Channels() == goal[..p] + was.channels[p..]
      {
        assert At(p) == Channels()[p] == was.channels[p];
        ghost var now := Channels();
        Set(p, Channel(IgniteScore(ps[p], salience), 0.0, 0.0, 0, feedMean[p]));
        Spliced(goal, was.channels, now, Channels(), p);
      }
      step := 0;
    }

    method ResetStory()
      requires Valid()
      modifies this`step, score, presence, peak, peakAt, feedMean, exposed
      ensures View() == Cleared(old(View()))
    {
      ghost var was, goal := View(), Cleared(View()).channels;
      for p := 0 to score.Length
        invariant exposed[..] == was.exposed && step == was.step && enabled == was.enabled
        invariant Channels() == goal[..p] + was.channels[p..]
      {
        ghost var now := Channels();
        Set(p, Channel(0.0, 0.0, 0.0, 0, 0.0));
        Spliced(goal, was.channels, now, Channels(), p);
      }
      HideAll();
      step := 0;
    }

    method HideAll()
      modifies exposed
      ensures exposed[..] == seq(exposed.Length, _ => false)
    {
      for i := 0 to exposed.Length
        invariant forall j :: 0 <= j < i ==> !exposed[j]
      {
        exposed[i] := false;
      }
    }

    method SetEnabled(on: bool)
      requires Valid()
      modifies this`enabled, score, presence, peak, peakAt, feedMean, exposed
      ensures View() == Switched(old(View()), on)
    {
      ghost var was, goal := View(), Switched(View(), on).channels;
      enabled := on;
      if !on {
        HideAll();
        for p := 0 to score.Length
          invariant enabled == on && step == was.step && exposed[..] == seq(exposed.Length, _ => false)
          invariant Channels() == goal[..p] + was.channels[p..]
        {
          assert At(p) == Channels()[p] == was.channels[p];
          ghost var now := Channels();
          Set(p, Channel(0.0, 0.0, 0.0, peakAt[p], feedMean[p]));
          Spliced(goal, was.channels, now, Channels(), p);
        }
      }
    }

    /** The accumulation pass, for one platform. */
    method Measure(a: Audience, stage: seq<Stage>, y: seq<real>, p: nat) returns (t: Tally)
      requires |a.member| == |a.weight| == |stage| == |y| && forall i :: 0 <= i < |a.member| ==> p < |a.member[i]|
      ensures t == TallyOf(a, stage, y, p, |stage|)
    {
      t := Tally(0.0, 0.0, 0.0, 0.0);
      for i := 0 to |stage|
        invariant t == TallyOf(a, stage, y, p, i)
      {
        t := Counted(t, a.member[i][p], stage[i] == Adopted, y[i], a.weight[i]);
      }
    }

    /** Attention on every platform, from the state the last tick left. */
    method UpdatePlatforms(ps: seq<Platform>, a: Audience, ch: Chance, stage: seq<Stage>, y: seq<real>)
      requires Valid() && Fit(ps, a, View()) && |stage| == |y| == |a.member|
      modifies score, presence, peak, peakAt, feedMean
      ensures Channels() == UpdatedAll(ps, a, ch, old(View()), stage, y, |ps|)
    {
      hide TallyOf, Updated;
      ghost var was := View();
      assert Channels() == UpdatedAll(ps, a, ch, was, stage, y, 0);
      for p := 0 to |ps|
        invariant Channels() == UpdatedAll(ps, a, ch, was, stage, y, p)
      {
        var t := Measure(a, stage, y, p);
        assert At(p) == Channels()[p] == was.channels[p];
        Set(p, Updated(ch, ps[p], Channel(score[p], presence[p], peak[p], peakAt[p], feedMean[p]), t, step));
      }
    }

    /** How many posts about the story one person's feeds show. */
    method CountShown(ps: seq<Platform>, a: Audience, ch: Chance, stage: seq<Stage>, i: nat) returns (total: nat)
      requires Valid() && |ps| == score.Length && i < |a.member| == |stage| && |a.member[i]| == |ps|
      ensures total == Total(ps, a, ch, Channels(), step, stage, i)
    {
      total := 0;
      if stage[i] != Unaware {
        return;
      }
      for p := 0 to |ps|
        invariant total == ShownTo(ps, a, ch, Channels(), step, i, p)
      {
        assert Channels()[p].presence == presence[p];
        if a.member[i][p] {
          total := total + ShownBy(ch, ps[p], presence[p], step, p, i);
        }
      }
    }

    method AdvanceLayer(ps: seq<Platform>, a: Audience, ch: Chance, stage: seq<Stage>, y: seq<real>)
      returns (shown: seq<nat>)
      requires Valid() && Fit(ps, a, View()) && |stage| == |y| == |a.member|
      modifies this`step, score, presence, peak, peakAt, feedMean, exposed
      ensures (View(), shown) == Advance(ps, a, ch, old(View()), stage, y)
    {
      hide Updated, Total, TallyOf;
      var quiet := IsQuiet();
      if !enabled || quiet {
        return seq(|stage|, _ => 0);
      }
      ghost var was := View();
      UpdatePlatforms(ps, a, ch, stage, y);
      ghost var chans := Channels();
      shown := [];
      for i := 0 to |stage|
        invariant Channels() == chans && step == was.step && enabled
        invariant |shown| == i
        invariant forall j :: 0 <= j < i ==>
          var t := Total(ps, a, ch, chans, was.step, stage, j);
          shown[j] == Confirmations(t) && exposed[j] == (t > 0)
      {
        var total := CountShown(ps, a, ch, stage, i);
        exposed[i] := total > 0;
        shown := shown + [Confirmations(total)];
      }
      step := step + 1;
      ghost var r := Advance(ps, a, ch, was, stage, y);
      assert r.0.channels == chans && r.0.exposed == exposed[..] && r.1 == shown;
    }

    method PullOn(ps: seq<Platform>, a: Audience, y: real, i: nat) returns (f: Pull)
      requires Valid() && Fit(ps, a, View()) && i < |a.member|
      ensures f == FeedPull(ps, a, View(), y, i)
    {
      if !enabled {
        return Pull(0.0, 0.0);
      }
      hide PullFrom;
      var blend := (0.0, 0.0);
      for p := 0 to |ps|
        invariant blend == Pulled(ps, a, View(), y, i, p)
      {
        assert View().channels[p] == At(p);
        if a.member[i][p] {
          blend := PullFrom(blend, ps[p], Channel(score[p], presence[p], peak[p], peakAt[p], feedMean[p]), y);
        }
      }
      if blend.1 == 0.0 {
        return Pull(0.0, 0.0);
      }
      return Pull(blend.0 / blend.1, blend.1);
    }

    /** What the opinion round asks of the layer: whether a story is live, and then everyone's pull. */
    method PullAll(ps: seq<Platform>, a: Audience, y: seq<real>) returns (pull: Option<seq<Pull>>)
      requires Valid() && Fit(ps, a, View()) && |y| == |a.member|
      ensures pull == Pulls(ps, a, View(), y)
    {
      hide FeedPull, Quiet;
      var quiet := IsQuiet();
      if !enabled || quiet {
        return None;
      }
      var pulls := [];
      for i := 0 to |y|
        invariant |pulls| == i && pulls == Pulls(ps, a, View(), y).value[..i]
      {
        var f := PullOn(ps, a, y[i], i);
        PullNext(ps, a, View(), y, pulls, i);
        pulls := pulls + [f];
      }
      assert pulls == Pulls(ps, a, View(), y).value;
      return Some(pulls);
    }
  }

  lemma PullNext(ps: seq<Platform>, a: Audience, l: Layer, y: seq<real>, pulls: seq<Pull>, i: nat)
    requires Fit(ps, a, l) && |y| == |a.member| && Live(l) && i < |y| && |pulls| == i
    requires pulls == Pulls(ps, a, l, y).value[..i]
    ensures pulls + [FeedPull(ps, a, l, y[i], i)] == Pulls(ps, a, l, y).value[..i + 1]
  {
    hide FeedPull;
  }

  lemma Spliced(goal: seq<Channel>, was: seq<Channel>, now: seq<Channel>, next: seq<Channel>, p: nat)
    requires p < |goal| == |was| && now == goal[..p] + was[p..] && next == now[p := goal[p]]
    ensures next == goal[..p + 1] + was[p + 1..]
  {
  }

  ghost function NewLayer(platforms: nat, people: nat): (l: Layer)
    ensures |l.channels| == platforms && |l.exposed| == people
  {
    Layer(seq(platforms, _ => Channel(0.0, 0.0, 0.0, 0, 0.0)), seq(people, _ => false), 0, true)
  }
}
