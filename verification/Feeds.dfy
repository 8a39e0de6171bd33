/** What a tick makes of a platform and what its feed is worth.
    From the audience and the draws alone. */
module Feeds {
  import opened Common
  import opened Contagion
  import opened Opinion
  import opened Media
  import opened Reals
  import opened Finite

  // ---------- what is measured on a platform ----------

  /** What x is worth for each of the first m people who are on platform p, weighed. */
  ghost function Weighed(a: Audience, p: nat, m: nat, x: nat -> real): seq<real>
    requires m <= |a.member| == |a.weight| && forall i :: 0 <= i < |a.member| ==> p < |a.member[i]|
  {
    seq(m, i requires 0 <= i < m => if a.member[i][p] then x(i) * a.weight[i] else 0.0)
  }

  ghost function One(): nat -> real { _ => 1.0 }

  ghost function Spreading(stage: seq<Stage>): nat -> real {
    (i: nat) => if i < |stage| && stage[i] == Adopted then 1.0 else 0.0
  }

  ghost function Voiced(stage: seq<Stage>, y: seq<real>): nat -> real {
    (i: nat) => if i < |stage| && i < |y| && stage[i] == Adopted then y[i] else 0.0
  }

  lemma WeighedNext(a: Audience, p: nat, m: nat, x: nat -> real)
    requires 0 < m <= |a.member| == |a.weight| && forall i :: 0 <= i < |a.member| ==> p < |a.member[i]|
    ensures SumOf(Weighed(a, p, m, x))
         == SumOf(Weighed(a, p, m - 1, x)) + if a.member[m - 1][p] then x(m - 1) * a.weight[m - 1] else 0.0
  {
    assert Weighed(a, p, m, x)[..m - 1] == Weighed(a, p, m - 1, x);
  }

  /** The pass over the population adds up the weight of the members, the weight of those transmitting, and their
      weighted opinions. */
  lemma {:induction false} TallyAddsUp(a: Audience, stage: seq<Stage>, y: seq<real>, p: nat, m: nat)
    requires m <= |a.member| == |a.weight| == |stage| == |y|
    requires forall i :: 0 <= i < |a.member| ==> p < |a.member[i]|
    ensures var t := TallyOf(a, stage, y, p, m);
      && t.members == SumOf(Weighed(a, p, m, One()))
      && t.active == t.opN == SumOf(Weighed(a, p, m, Spreading(stage)))
      && t.opSum == SumOf(Weighed(a, p, m, Voiced(stage, y)))
  {
    hide SumOf, Weighed;
    if m > 0 {
      TallyAddsUp(a, stage, y, p, m - 1);
      WeighedNext(a, p, m, One());
      WeighedNext(a, p, m, Spreading(stage));
      WeighedNext(a, p, m, Voiced(stage, y));
    } else {
      Nothing(a, p, One());
      Nothing(a, p, Spreading(stage));
      Nothing(a, p, Voiced(stage, y));
    }
  }

  lemma Nothing(a: Audience, p: nat, x: nat -> real)
    requires |a.member| == |a.weight| && forall i :: 0 <= i < |a.member| ==> p < |a.member[i]|
    ensures SumOf(Weighed(a, p, 0, x)) == 0.0
  {
  }

  /** The weight of everyone on a platform, and of those transmitting there. */
  ghost function MembersOn(a: Audience, p: nat): real
    requires |a.member| == |a.weight| && forall i :: 0 <= i < |a.member| ==> p < |a.member[i]|
  {
    SumOf(Weighed(a, p, |a.member|, One()))
  }

  ghost function SpreadersOn(a: Audience, stage: seq<Stage>, p: nat): real
    requires |a.member| == |a.weight| && forall i :: 0 <= i < |a.member| ==> p < |a.member[i]|
  {
    SumOf(Weighed(a, p, |a.member|, Spreading(stage)))
  }

  /** The share of a platform's people who are transmitting, by weight. */
  ghost function EngagementOn(a: Audience, stage: seq<Stage>, p: nat): real
    requires |a.member| == |a.weight| && forall i :: 0 <= i < |a.member| ==> p < |a.member[i]|
  {
    if MembersOn(a, p) > 0.0 then SpreadersOn(a, stage, p) / MembersOn(a, p) else 0.0
  }

  // ---------- attention on a platform ----------

  ghost function ChannelAfter(ps: seq<Platform>, a: Audience, ch: Chance, l: Layer, stage: seq<Stage>, y: seq<real>,
                              p: nat): Channel
    requires Fit(ps, a, l) && |stage| == |y| == |a.member| && p < |ps|
  {
    Delivered(ps, a, ch, l, stage, y).0.channels[p]
  }

  lemma ChannelIsUpdated(ps: seq<Platform>, a: Audience, ch: Chance, l: Layer, stage: seq<Stage>, y: seq<real>, p: nat)
    requires Fit(ps, a, l) && |stage| == |y| == |a.member| && p < |ps|
    ensures var t := TallyOf(a, stage, y, p, |stage|);
      && ChannelAfter(ps, a, ch, l, stage, y, p) == Updated(ch, ps[p], l.channels[p], t, l.step)
      && Engagement(t) == EngagementOn(a, stage, p)
      && t.opN == SpreadersOn(a, stage, p)
      && t.opSum == SumOf(Weighed(a, p, |stage|, Voiced(stage, y)))
  {
    hide Weighed, TallyOf, SumOf, Updated;
    TallyAddsUp(a, stage, y, p, |stage|);
  }

  /** A score is lifted by velocity times engagement of what it lacks, and then decay takes its share of it; it stays
      from 0 to 1. */
  ghost predicate Grew(pl: Platform, was: real, e: real, now: real) {
    Left(was + pl.velocity * e * (1.0 - was), pl.decay, now)
  }

  ghost predicate Left(lifted: real, decay: real, now: real) {
    var left := lifted - decay * lifted;
    now == if left < 0.0 then 0.0 else if left > 1.0 then 1.0 else left
  }

  lemma DecayLeaves(lifted: real, decay: real)
    ensures Left(lifted, decay, Decayed(lifted, decay))
  {
  }

  lemma GrownGrew(pl: Platform, was: real, e: real)
    ensures Grew(pl, was, e, Grown(pl, was, e))
  {
    var lifted := was + pl.velocity * e * (1.0 - was);
    assert Lifted(was, pl.velocity, e) == lifted;
    DecayLeaves(lifted, pl.decay);
  }

  lemma ScoreAfter(ps: seq<Platform>, a: Audience, ch: Chance, l: Layer, stage: seq<Stage>, y: seq<real>, p: nat)
    requires Fit(ps, a, l) && |stage| == |y| == |a.member| && p < |ps|
    ensures Grew(ps[p], l.channels[p].score, EngagementOn(a, stage, p), ChannelAfter(ps, a, ch, l, stage, y, p).score)
  {
    hide TallyOf, EngagementOn, ChannelAfter, Engagement, Ranked, SumOf, Grew, Grown;
    ChannelIsUpdated(ps, a, ch, l, stage, y, p);
    GrownGrew(ps[p], l.channels[p].score, EngagementOn(a, stage, p));
  }

  /** A closed platform, or one that amplifies nothing, shows a story in proportion to engagement and score.  An open
      one that amplifies ranks engagement by a power below one first. */
  lemma PresenceAfter(ps: seq<Platform>, a: Audience, ch: Chance, l: Layer, stage: seq<Stage>, y: seq<real>, p: nat)
    requires Fit(ps, a, l) && |stage| == |y| == |a.member| && p < |ps|
    ensures var c, e, pl := ChannelAfter(ps, a, ch, l, stage, y, p), EngagementOn(a, stage, p), ps[p];
      && (pl.closed || pl.amplify <= 0.0 || e <= 0.0 ==> Occupies(c.presence, e, c.score))
      && (!pl.closed && pl.amplify > 0.0 && e > 0.0 ==>
            Occupies(c.presence, ch.power(e, 1.0 / (1.0 + pl.amplify)), c.score))
  {
    hide TallyOf, EngagementOn, ChannelAfter, Updated, Engagement, SumOf, Occupies;
    ChannelIsUpdated(ps, a, ch, l, stage, y, p);
    UpdatedOccupies(ch, ps[p], l.channels[p], TallyOf(a, stage, y, p, |stage|), l.step);
  }

  lemma UpdatedOccupies(ch: Chance, pl: Platform, c: Channel, t: Tally, step: nat)
    ensures var d, e := Updated(ch, pl, c, t, step), Engagement(t);
      && (pl.closed || pl.amplify <= 0.0 || e <= 0.0 ==> Occupies(d.presence, e, d.score))
      && (!pl.closed && pl.amplify > 0.0 && e > 0.0 ==>
            Occupies(d.presence, ch.power(e, 1.0 / (1.0 + pl.amplify)), d.score))
  {
    hide Grown, Engagement, Occupies, Presence;
    PresenceOccupies(Ranked(ch, pl, Engagement(t)), Updated(ch, pl, c, t, step).score);
  }

  /** The product of the two, but no less than nothing and no more than all of the slots. */
  ghost predicate Occupies(presence: real, ranked: real, score: real) {
    var x := ranked * score;
    && 0.0 <= presence <= 1.0 && (x < 0.0 ==> presence == 0.0) && (x > 1.0 ==> presence == 1.0)
    && (0.0 <= x <= 1.0 ==> presence == x)
  }

  lemma PresenceOccupies(ranked: real, score: real)
    ensures Occupies(Presence(ranked, score), ranked, score)
  {
  }

  /** So where ranking raises what it ranks, an open platform shows at least as much of the story as its closed twin,
      and more unless the twin shows nothing or only the story. */
  lemma OpenShowsMore(ps: seq<Platform>, a: Audience, ch: Chance, l: Layer, stage: seq<Stage>, y: seq<real>, p: nat)
    requires Fit(ps, a, l) && |stage| == |y| == |a.member| && p < |ps|
    requires !ps[p].closed && ps[p].amplify > 0.0 && EngagementOn(a, stage, p) > 0.0
    requires var e := EngagementOn(a, stage, p); ch.power(e, 1.0 / (1.0 + ps[p].amplify)) > e
    ensures var twin := ps[p := ps[p].(closed := true)];
      var open, closed := ChannelAfter(ps, a, ch, l, stage, y, p), ChannelAfter(twin, a, ch, l, stage, y, p);
      && open.score == closed.score && open.presence >= closed.presence
      && (0.0 < closed.presence < 1.0 ==> open.presence > closed.presence)
  {
    hide EngagementOn, ChannelAfter, Occupies;
    var twin := ps[p := ps[p].(closed := true)];
    TwinScore(ps, a, ch, l, stage, y, p);
    PresenceAfter(ps, a, ch, l, stage, y, p);
    PresenceAfter(twin, a, ch, l, stage, y, p);
    var open, closed := ChannelAfter(ps, a, ch, l, stage, y, p), ChannelAfter(twin, a, ch, l, stage, y, p);
    var e := EngagementOn(a, stage, p);
    OccupyMore(e, ch.power(e, 1.0 / (1.0 + ps[p].amplify)), open.score, closed.presence, open.presence);
  }

  lemma TwinScore(ps: seq<Platform>, a: Audience, ch: Chance, l: Layer, stage: seq<Stage>, y: seq<real>, p: nat)
    requires Fit(ps, a, l) && |stage| == |y| == |a.member| && p < |ps|
    ensures var twin := ps[p := ps[p].(closed := true)];
      0.0 <= ChannelAfter(twin, a, ch, l, stage, y, p).score == ChannelAfter(ps, a, ch, l, stage, y, p).score
  {
    hide TallyOf, ChannelAfter, Engagement, Lifted, Ranked;
    ChannelIsUpdated(ps, a, ch, l, stage, y, p);
    ChannelIsUpdated(ps[p := ps[p].(closed := true)], a, ch, l, stage, y, p);
  }

  lemma OccupyMore(e: real, f: real, score: real, less: real, more: real)
    requires 0.0 < e < f && score >= 0.0 && Occupies(less, e, score) && Occupies(more, f, score)
    ensures more >= less && (0.0 < less < 1.0 ==> more > less)
  {
    if score > 0.0 { Grow(e, f, score); }
  }

  /** The peak is the highest presence so far, dated by the tick that set it. */
  lemma PeakAfter(ps: seq<Platform>, a: Audience, ch: Chance, l: Layer, stage: seq<Stage>, y: seq<real>, p: nat)
    requires Fit(ps, a, l) && |stage| == |y| == |a.member| && p < |ps|
    ensures var was, c := l.channels[p], ChannelAfter(ps, a, ch, l, stage, y, p);
      && c.peak >= was.peak && c.peak >= c.presence && (c.peak == was.peak || c.peak == c.presence)
      && c.peakAt == if c.peak > was.peak then l.step else was.peakAt
  {
    hide TallyOf, EngagementOn, ChannelAfter, Engagement, Grown, Ranked, SumOf;
    ChannelIsUpdated(ps, a, ch, l, stage, y, p);
  }

  /** What a feed shows is the weighted mean opinion of those transmitting there; with nobody, 0.85 of what it was. */
  lemma FeedMeanAfter(ps: seq<Platform>, a: Audience, ch: Chance, l: Layer, stage: seq<Stage>, y: seq<real>, p: nat)
    requires Fit(ps, a, l) && |stage| == |y| == |a.member| && p < |ps|
    ensures var c, n := ChannelAfter(ps, a, ch, l, stage, y, p), SpreadersOn(a, stage, p);
      && (n > 0.0 ==> c.feedMean * n == SumOf(Weighed(a, p, |stage|, Voiced(stage, y))))
      && (n <= 0.0 ==> c.feedMean == 0.85 * l.channels[p].feedMean)
  {
    hide TallyOf, EngagementOn, ChannelAfter, Engagement, Grown, Ranked, SumOf, SpreadersOn;
    ChannelIsUpdated(ps, a, ch, l, stage, y, p);
  }

  // ---------- what a feed delivers ----------

  /** The posts each platform puts before person i: none off it or where the story has no presence; on a closed one
      at most one, by a draw against the presence; on an open one as many as arrive in three slots. */
  ghost function Posts(ps: seq<Platform>, a: Audience, ch: Chance, chans: seq<Channel>, step: nat, i: nat, m: nat)
    : (s: seq<nat>)
    requires m <= |ps| == |chans| && i < |a.member| && |a.member[i]| == |ps|
    ensures |s| == m
  {
    seq(m, p requires 0 <= p < m => PostsBy(ps[p], a.member[i][p], ch, chans[p].presence, step, p, i))
  }

  ghost function PostsBy(pl: Platform, member: bool, ch: Chance, presence: real, step: nat, p: nat, i: nat): nat {
    if !member || presence <= 0.000001 then 0
    else if !pl.closed then ch.arrivals(step, p, i, 3.0 * presence)
    else if ch.uniform(step, p, i) < presence then 1 else 0
  }

  lemma {:induction false} ShownIsPosts(ps: seq<Platform>, a: Audience, ch: Chance, chans: seq<Channel>, step: nat,
                                        i: nat, m: nat)
    requires m <= |ps| == |chans| && i < |a.member| && |a.member[i]| == |ps|
    ensures ShownTo(ps, a, ch, chans, step, i, m) == CountOf(Posts(ps, a, ch, chans, step, i, m))
  {
    if m > 0 {
      ShownIsPosts(ps, a, ch, chans, step, i, m - 1);
      assert Posts(ps, a, ch, chans, step, i, m)[..m - 1] == Posts(ps, a, ch, chans, step, i, m - 1);
    }
  }

  // ---------- what a feed says ----------

  /** How much each platform counts for person i: its presence times 0.4 + 0.6 velocity, if they are on it. */
  ghost function Voices(ps: seq<Platform>, a: Audience, l: Layer, i: nat, m: nat): (v: seq<real>)
    requires Fit(ps, a, l) && i < |a.member| && m <= |ps|
    ensures |v| == m
  {
    seq(m, p requires 0 <= p < m => if a.member[i][p] then Voice(ps[p], l.channels[p]) else 0.0)
  }

  ghost function Voice(pl: Platform, c: Channel): real {
    if c.presence <= 0.000001 then 0.0 else Heft(c.presence, pl.velocity)
  }

  lemma PullFromIs(so: (real, real), pl: Platform, c: Channel, y: real)
    ensures PullFrom(so, pl, c, y) == (so.0 + Saying(pl.sorting, y, c.feedMean, Voice(pl, c)), so.1 + Voice(pl, c))
    ensures Saying(pl.sorting, y, c.feedMean, 0.0) == 0.0
  {
  }

  lemma {:induction false} PulledWeight(ps: seq<Platform>, a: Audience, l: Layer, y: real, i: nat, m: nat)
    requires Fit(ps, a, l) && i < |a.member| && m <= |ps|
    ensures Pulled(ps, a, l, y, i, m).1 == SumOf(Voices(ps, a, l, i, m))
  {
    hide PullFrom, Saying, Voice;
    if m > 0 {
      PullFromIs(Pulled(ps, a, l, y, i, m - 1), ps[m - 1], l.channels[m - 1], y);
      PulledWeight(ps, a, l, y, i, m - 1);
      assert Voices(ps, a, l, i, m)[..m - 1] == Voices(ps, a, l, i, m - 1);
    }
  }

  /** What each platform shows person i, times how much it counts. */
  ghost function Sayings(ps: seq<Platform>, a: Audience, l: Layer, y: real, i: nat, m: nat): seq<real>
    requires Fit(ps, a, l) && i < |a.member| && m <= |ps|
  {
    seq(m, p requires 0 <= p < m => Saying(ps[p].sorting, y, l.channels[p].feedMean, Voices(ps, a, l, i, m)[p]))
  }

  lemma SayingsNext(ps: seq<Platform>, a: Audience, l: Layer, y: real, i: nat, m: nat)
    requires Fit(ps, a, l) && i < |a.member| && 0 < m <= |ps|
    ensures |Sayings(ps, a, l, y, i, m)| == m
    ensures Sayings(ps, a, l, y, i, m)[..m - 1] == Sayings(ps, a, l, y, i, m - 1)
  {
    hide Saying;
    var v, u := Voices(ps, a, l, i, m), Voices(ps, a, l, i, m - 1);
    assert v[..m - 1] == u;
    assert forall q :: 0 <= q < m - 1 ==> v[q] == u[q];
  }

  lemma {:induction false} PulledSum(ps: seq<Platform>, a: Audience, l: Layer, y: real, i: nat, m: nat)
    requires Fit(ps, a, l) && i < |a.member| && m <= |ps|
    ensures Pulled(ps, a, l, y, i, m).0 == SumOf(Sayings(ps, a, l, y, i, m))
  {
    hide PullFrom, Saying, Voice;
    if m > 0 {
      PullFromIs(Pulled(ps, a, l, y, i, m - 1), ps[m - 1], l.channels[m - 1], y);
      PulledSum(ps, a, l, y, i, m - 1);
      SayingsNext(ps, a, l, y, i, m);
    }
  }

  /** A person's feeds pull with the weight of the platforms they are on, toward the mean, by that weight, of what each
      shows: sorting of themselves and the rest of the platform. */
  lemma FeedPullIs(ps: seq<Platform>, a: Audience, l: Layer, y: real, i: nat)
    requires Fit(ps, a, l) && i < |a.member| && l.enabled
    ensures var f := FeedPull(ps, a, l, y, i);
      && f.weight == SumOf(Voices(ps, a, l, i, |ps|))
      && (f.weight != 0.0 ==> f.mean * f.weight == SumOf(Sayings(ps, a, l, y, i, |ps|)))
  {
    hide Pulled, SumOf, Voices, Sayings;
    PulledWeight(ps, a, l, y, i, |ps|);
    PulledSum(ps, a, l, y, i, |ps|);
  }

  lemma {:induction false} OneVoice(s: seq<real>, p: nat)
    requires p < |s| && forall q :: 0 <= q < |s| && q != p ==> s[q] == 0.0
    ensures SumOf(s) == s[p]
  {
    if p == |s| - 1 {
      Silence(s[..p]);
    } else {
      OneVoice(s[..|s| - 1], p);
    }
  }

  lemma {:induction false} Silence(s: seq<real>)
    requires forall q :: 0 <= q < |s| ==> s[q] == 0.0
    ensures SumOf(s) == 0.0
  {
    if |s| > 0 { Silence(s[..|s| - 1]); }
  }

  /** Somebody on one platform only is pulled with 0.4 to 1 of its presence, the more the faster it is. */
  lemma OnePlatformPulls(ps: seq<Platform>, a: Audience, l: Layer, y: real, i: nat, p: nat)
    requires Fit(ps, a, l) && i < |a.member| && l.enabled && p < |ps| && l.channels[p].presence > 0.000001
    requires forall q :: 0 <= q < |ps| ==> (a.member[i][q] <==> q == p)
    ensures FeedPull(ps, a, l, y, i).weight == l.channels[p].presence * (0.4 + 0.6 * ps[p].velocity)
  {
    hide FeedPull;
    FeedPullIs(ps, a, l, y, i);
    OneVoice(Voices(ps, a, l, i, |ps|), p);
  }

  lemma {:induction false} SameSaying(s: seq<real>, v: seq<real>, x: real)
    requires |s| == |v| && forall k :: 0 <= k < |s| ==> s[k] == x * v[k]
    ensures SumOf(s) == x * SumOf(v)
  {
    if |s| > 0 {
      SameSaying(s[..|s| - 1], v[..|v| - 1], x);
      assert x * (SumOf(v[..|v| - 1]) + v[|v| - 1]) == x * SumOf(v[..|v| - 1]) + x * v[|v| - 1];
    }
  }

  /** Platforms that sort alike and show the same leave a reader between themselves and it: at sorting 1 they see
      themselves, at sorting 0 the platform's mean. */
  lemma SortingMeans(ps: seq<Platform>, a: Audience, l: Layer, y: real, i: nat, sorting: real, mean: real)
    requires Fit(ps, a, l) && i < |a.member| && l.enabled && FeedPull(ps, a, l, y, i).weight != 0.0
    requires forall p :: 0 <= p < |ps| ==> ps[p].sorting == sorting && l.channels[p].feedMean == mean
    ensures var f := FeedPull(ps, a, l, y, i);
      && f.mean == sorting * y + (1.0 - sorting) * mean
      && (sorting == 1.0 ==> f.mean == y) && (sorting == 0.0 ==> f.mean == mean)
  {
    hide Sayings, Voices, FeedPull, SumOf;
    var x := sorting * y + (1.0 - sorting) * mean;
    AlikeSayings(ps, a, l, y, i, sorting, mean);
    FeedPullIs(ps, a, l, y, i);
    Divide(FeedPull(ps, a, l, y, i).mean, x, SumOf(Voices(ps, a, l, i, |ps|)));
  }

  lemma AlikeSayings(ps: seq<Platform>, a: Audience, l: Layer, y: real, i: nat, sorting: real, mean: real)
    requires Fit(ps, a, l) && i < |a.member|
    requires forall p :: 0 <= p < |ps| ==> ps[p].sorting == sorting && l.channels[p].feedMean == mean
    ensures SumOf(Sayings(ps, a, l, y, i, |ps|))
         == (sorting * y + (1.0 - sorting) * mean) * SumOf(Voices(ps, a, l, i, |ps|))
  {
    hide Voices;
    var x := sorting * y + (1.0 - sorting) * mean;
    var s, v := Sayings(ps, a, l, y, i, |ps|), Voices(ps, a, l, i, |ps|);
    forall k | 0 <= k < |s| ensures s[k] == x * v[k] {
      assert ps[k].sorting == sorting;
    }
    SameSaying(s, v, x);
  }

  lemma Divide(p: real, q: real, n: real)
    requires p * n == q * n && n != 0.0
    ensures p == q
  {
    assert (p - q) * n == 0.0;
    assert p == p * n / n && q == q * n / n;
  }

  // ---------- a story breaks ----------

  /** Platforms that are on pick a story up at a quarter of its salience, less the slower they are, and closed ones at
      0.35 of what their open twins do; nothing is shown yet. */
  lemma IgnitesAt(ps: seq<Platform>, l: Layer, salience: real, p: nat)
    requires |l.channels| == |ps| && p < |ps| && l.enabled && 0.0 <= salience <= 1.0 && 0.0 <= ps[p].velocity <= 1.0
    ensures var c := Ignited(ps, l, salience).channels[p];
      && c.score == 0.25 * salience * (0.6 + 0.4 * ps[p].velocity) * (if ps[p].closed then 0.35 else 1.0)
      && c.presence == c.peak == 0.0 && c.peakAt == 0 && c.feedMean == l.channels[p].feedMean
    ensures Ignited(ps[p := ps[p].(closed := true)], l, salience).channels[p].score
         == 0.35 * Ignited(ps[p := ps[p].(closed := false)], l, salience).channels[p].score
    ensures Ignited(ps, l, salience).step == 0
  {
    ProductBound(0.25 * salience, 0.6 + 0.4 * ps[p].velocity, 0.25, 1.0);
  }
}
