/** The shortcut for a quiet media layer: when skipping its tick delivers what the tick would have delivered. */
module QuietLayer {
  import opened Common
  import opened Reals
  import opened Contagion
  import opened Opinion
  import opened Media
  import opened Seeding
  import opened Stories

  // ---------- engagement ----------

  /** Somebody among the first m people transmits on platform p. */
  ghost predicate Transmits(a: Audience, stage: seq<Stage>, p: nat, m: nat) {
    exists i :: 0 <= i < m && i < |stage| && i < |a.member| && i < |a.weight| && p < |a.member[i]|
             && a.member[i][p] && stage[i] == Adopted && a.weight[i] > 0.0
  }

  lemma {:induction false} ActiveExactlyWhen(a: Audience, stage: seq<Stage>, y: seq<real>, p: nat, m: nat)
    requires m <= |a.member| == |a.weight| == |stage| == |y| && Weighs(a)
    requires forall i :: 0 <= i < |a.member| ==> p < |a.member[i]|
    ensures var t := TallyOf(a, stage, y, p, m);
      0.0 <= t.active <= t.members && (t.active > 0.0 <==> Transmits(a, stage, p, m))
  {
    if m > 0 {
      ActiveExactlyWhen(a, stage, y, p, m - 1);
      TransmitsNext(a, stage, p, m);
    }
  }

  lemma TransmitsNext(a: Audience, stage: seq<Stage>, p: nat, m: nat)
    requires 0 < m <= |a.member| == |a.weight| == |stage| && p < |a.member[m - 1]|
    ensures Transmits(a, stage, p, m) <==>
      Transmits(a, stage, p, m - 1) || (a.member[m - 1][p] && stage[m - 1] == Adopted && a.weight[m - 1] > 0.0)
  {
  }

  lemma RatioPositive(p: real, q: real)
    requires 0.0 <= p <= q && q > 0.0
    ensures 0.0 <= p / q <= 1.0 && (p / q > 0.0 <==> p > 0.0)
  {
    assert p / q * q == p;
  }

  /** Engagement is a share, and zero exactly when nobody of any weight transmits on the platform. */
  lemma EngagementExactlyWhen(a: Audience, stage: seq<Stage>, y: seq<real>, p: nat)
    requires |a.member| == |a.weight| == |stage| == |y| && Weighs(a)
    requires forall i :: 0 <= i < |a.member| ==> p < |a.member[i]|
    ensures var e := Engagement(TallyOf(a, stage, y, p, |stage|));
      0.0 <= e <= 1.0 && (e == 0.0 <==> !Transmits(a, stage, p, |stage|))
  {
    hide Transmits, TallyOf;
    ActiveExactlyWhen(a, stage, y, p, |stage|);
    var t := TallyOf(a, stage, y, p, |stage|);
    if t.members > 0.0 { RatioPositive(t.active, t.members); }
  }

  // ---------- scores ----------

  lemma GrownIs(pl: Platform, s: real, e: real, lift: real, fall: real)
    requires 0.0 <= s <= 1.0 && 0.0 <= e <= 1.0 && 0.0 <= pl.decay <= 1.0 && pl.velocity >= 0.0
    requires lift == pl.velocity * e * (1.0 - s) * (1.0 - pl.decay) && fall == pl.decay * s
    ensures lift >= 0.0 && 0.0 <= fall <= s && Grown(pl, s, e) == if s + lift - fall > 1.0 then 1.0 else s + lift - fall
  {
    hide Grown, Decayed;
    GrownBy(pl, s, e);
    var up := pl.velocity * e * (1.0 - s);
    NonNegative(pl.velocity, e);
    NonNegative(pl.velocity * e, 1.0 - s);
    DecayedIs(s, up, s + pl.velocity * e * (1.0 - s), pl.decay, lift, fall);
  }

  lemma GrownBy(pl: Platform, s: real, e: real)
    ensures Grown(pl, s, e) == Decayed(s + pl.velocity * e * (1.0 - s), pl.decay)
  {
  }

  lemma DecayedIs(s: real, up: real, now: real, d: real, lift: real, fall: real)
    requires now == s + up && 0.0 <= s <= 1.0 && up >= 0.0 && 0.0 <= d <= 1.0 && lift == up * (1.0 - d) && fall == d * s
    ensures lift >= 0.0 && 0.0 <= fall <= s
    ensures Decayed(now, d) == if s + lift - fall > 1.0 then 1.0 else s + lift - fall
  {
    NonNegative(up, 1.0 - d);
    Shrinks(s, d);
    assert s * d == d * s;
    LessShare(s, up, d);
  }

  lemma LessShare(s: real, up: real, d: real)
    ensures s + up - d * (s + up) == s + up * (1.0 - d) - d * s
  {
    Join(s, up, d);
    assert (s + up) * d == d * (s + up) && s * d == d * s;
    assert up * (1.0 - d) == up - up * d;
  }

  /** A score falls, or stays, exactly when what engagement adds after decay is no more than what decay takes. */
  lemma ScoreFallsExactlyWhen(pl: Platform, s: real, e: real)
    requires 0.0 <= s <= 1.0 && 0.0 <= e <= 1.0 && 0.0 <= pl.decay <= 1.0 && pl.velocity >= 0.0
    ensures Grown(pl, s, e) <= s <==> pl.velocity * e * (1.0 - s) * (1.0 - pl.decay) <= pl.decay * s
  {
    hide Grown;
    var lift, fall := pl.velocity * e * (1.0 - s) * (1.0 - pl.decay), pl.decay * s;
    GrownIs(pl, s, e, lift, fall);
    if s == 1.0 { assert lift == 0.0; }
  }

  /** A score at zero stays there exactly when nobody of any weight transmits on the platform, for every platform
      with some velocity and less than total decay. */
  lemma ZeroScoreStaysExactlyWhen(pl: Platform, a: Audience, stage: seq<Stage>, y: seq<real>, p: nat)
    requires |a.member| == |a.weight| == |stage| == |y| && Weighs(a)
    requires forall i :: 0 <= i < |a.member| ==> p < |a.member[i]|
    requires pl.velocity > 0.0 && 0.0 <= pl.decay < 1.0
    ensures Grown(pl, 0.0, Engagement(TallyOf(a, stage, y, p, |stage|))) == 0.0 <==> !Transmits(a, stage, p, |stage|)
  {
    hide TallyOf, Transmits, Engagement, Grown;
    EngagementExactlyWhen(a, stage, y, p);
    ZeroGrows(pl, Engagement(TallyOf(a, stage, y, p, |stage|)));
  }

  lemma ZeroGrows(pl: Platform, e: real)
    requires pl.velocity > 0.0 && 0.0 <= pl.decay < 1.0 && 0.0 <= e <= 1.0
    ensures Grown(pl, 0.0, e) == 0.0 <==> e == 0.0
  {
    var up := pl.velocity * e;
    if e > 0.0 {
      ProductPositive(pl.velocity, e);
      ProductPositive(up, 1.0 - pl.decay);
    }
    LessShare(0.0, up, pl.decay);
  }

  // ---------- what a tick can deliver ----------

  /** How many posts, up to two a platform, the draws can make the first m platforms' feeds show person i: none from a
      platform that does not show the story, one from a closed one, more from an open one. */
  ghost function Loudness(ps: seq<Platform>, a: Audience, shows: seq<bool>, i: nat, m: nat): nat
    requires m <= |ps| == |shows| && i < |a.member| && |a.member[i]| == |ps|
  {
    if m == 0 then 0
    else
      var before := Loudness(ps, a, shows, i, m - 1);
      if !a.member[i][m - 1] || !shows[m - 1] then before else before + if ps[m - 1].closed then 1 else 2
  }

  ghost function Showing(chans: seq<Channel>): (shows: seq<bool>)
    ensures |shows| == |chans|
  {
    seq(|chans|, p requires 0 <= p < |chans| => chans[p].presence > 0.000001)
  }

  lemma {:induction false} QuietEnough(ps: seq<Platform>, a: Audience, ch: Chance, chans: seq<Channel>, step: nat,
                                       i: nat, m: nat)
    requires m <= |ps| == |chans| && i < |a.member| && |a.member[i]| == |ps|
    requires Loudness(ps, a, Showing(chans), i, m) <= 1
    ensures ShownTo(ps, a, ch, chans, step, i, m) <= Loudness(ps, a, Showing(chans), i, m)
  {
    if m > 0 { QuietEnough(ps, a, ch, chans, step, i, m - 1); }
  }

  /** The draws that show the most. */
  ghost function Generous(power: (real, real) -> real): Chance {
    Chance((_, _, _) => 0.0, (_, _, _, _) => 2, power)
  }

  lemma {:induction false} GenerousShows(ps: seq<Platform>, a: Audience, power: (real, real) -> real,
                                         chans: seq<Channel>, step: nat, i: nat, m: nat)
    requires m <= |ps| == |chans| && i < |a.member| && |a.member[i]| == |ps|
    ensures ShownTo(ps, a, Generous(power), chans, step, i, m) == Loudness(ps, a, Showing(chans), i, m)
  {
    if m > 0 { GenerousShows(ps, a, power, chans, step, i, m - 1); }
  }

  // ---------- the tick, foreseen from the state before it ----------

  /** What the score and the presence of platform p would come to: all that decides is the state before the tick. */
  ghost function ScoreAhead(ps: seq<Platform>, a: Audience, l: Layer, stage: seq<Stage>, y: seq<real>, p: nat): real
    requires Fit(ps, a, l) && |stage| == |y| == |a.member| && p < |ps|
  {
    Grown(ps[p], l.channels[p].score, Engagement(TallyOf(a, stage, y, p, |stage|)))
  }

  ghost function PresenceAhead(ps: seq<Platform>, a: Audience, ch: Chance, l: Layer, stage: seq<Stage>, y: seq<real>,
                               p: nat): real
    requires Fit(ps, a, l) && |stage| == |y| == |a.member| && p < |ps|
  {
    Presence(Ranked(ch, ps[p], Engagement(TallyOf(a, stage, y, p, |stage|))), ScoreAhead(ps, a, l, stage, y, p))
  }

  ghost function ShowsAhead(ps: seq<Platform>, a: Audience, ch: Chance, l: Layer, stage: seq<Stage>, y: seq<real>)
    : (shows: seq<bool>)
    requires Fit(ps, a, l) && |stage| == |y| == |a.member|
    ensures |shows| == |ps|
  {
    seq(|ps|, p requires 0 <= p < |ps| => PresenceAhead(ps, a, ch, l, stage, y, p) > 0.000001)
  }

  ghost predicate QuietAhead(ps: seq<Platform>, a: Audience, l: Layer, stage: seq<Stage>, y: seq<real>)
    requires Fit(ps, a, l) && |stage| == |y| == |a.member|
  {
    forall p :: 0 <= p < |ps| ==> ScoreAhead(ps, a, l, stage, y, p) <= 0.0001
  }

  ghost function ChannelsAfter(ps: seq<Platform>, a: Audience, ch: Chance, l: Layer, stage: seq<Stage>, y: seq<real>)
    : (c: seq<Channel>)
    requires Fit(ps, a, l) && |stage| == |y| == |a.member|
    ensures |c| == |ps|
  {
    UpdatedAll(ps, a, ch, l, stage, y, |ps|)
  }

  lemma ChannelAt(ps: seq<Platform>, a: Audience, ch: Chance, l: Layer, stage: seq<Stage>, y: seq<real>, p: nat)
    requires Fit(ps, a, l) && |stage| == |y| == |a.member| && p < |ps|
    ensures var c := ChannelsAfter(ps, a, ch, l, stage, y)[p];
      c.score == ScoreAhead(ps, a, l, stage, y, p) && c.presence == PresenceAhead(ps, a, ch, l, stage, y, p)
  {
    hide TallyOf, Grown, Engagement, Presence;
  }

  /** What was foreseen is what happens. */
  lemma AheadIsAfter(ps: seq<Platform>, a: Audience, ch: Chance, l: Layer, stage: seq<Stage>, y: seq<real>)
    requires Fit(ps, a, l) && |stage| == |y| == |a.member|
    ensures Showing(ChannelsAfter(ps, a, ch, l, stage, y)) == ShowsAhead(ps, a, ch, l, stage, y)
    ensures Quiet(Delivered(ps, a, ch, l, stage, y).0) <==> QuietAhead(ps, a, l, stage, y)
  {
    hide ScoreAhead, PresenceAhead, UpdatedAll, Total, Confirmations;
    forall p | 0 <= p < |ps|
      ensures var c := ChannelsAfter(ps, a, ch, l, stage, y)[p];
        c.score == ScoreAhead(ps, a, l, stage, y, p) && c.presence == PresenceAhead(ps, a, ch, l, stage, y, p)
    {
      ChannelAt(ps, a, ch, l, stage, y, p);
    }
  }

  lemma SameAhead(ps: seq<Platform>, a: Audience, ch: Chance, ch': Chance, l: Layer, stage: seq<Stage>, y: seq<real>)
    requires Fit(ps, a, l) && |stage| == |y| == |a.member| && ch.power == ch'.power
    ensures ShowsAhead(ps, a, ch, l, stage, y) == ShowsAhead(ps, a, ch', l, stage, y)
  {
    hide TallyOf, Engagement, ScoreAhead, Presence;
    forall p | 0 <= p < |ps|
      ensures PresenceAhead(ps, a, ch, l, stage, y, p) == PresenceAhead(ps, a, ch', l, stage, y, p)
    {
      var e := Engagement(TallyOf(a, stage, y, p, |stage|));
      assert Ranked(ch, ps[p], e) == Ranked(ch', ps[p], e);
    }
  }

  /** Whatever is drawn, nobody gets a confirmation, ... */
  ghost predicate ConfirmsNothing(ps: seq<Platform>, a: Audience, ch: Chance, l: Layer, stage: seq<Stage>, y: seq<real>)
    requires Fit(ps, a, l) && |stage| == |y| == |a.member|
  {
    forall ch': Chance, i :: ch'.power == ch.power && 0 <= i < |stage| ==>
      Delivered(ps, a, ch', l, stage, y).1[i] == 0
  }

  /** ... and nobody's opinion is pulled. */
  ghost predicate PullsNothing(ps: seq<Platform>, a: Audience, ch: Chance, l: Layer, stage: seq<Stage>, y: seq<real>)
    requires Fit(ps, a, l) && |stage| == |y| == |a.member|
  {
    var k := Delivered(ps, a, ch, l, stage, y).0;
    Live(k) ==> forall i :: 0 <= i < |y| ==> FeedPull(ps, a, k, y[i], i).weight == 0.0
  }

  lemma NoConfirmation(shown: nat)
    ensures Confirmations(shown) == 0 <==> shown <= 1
  {
  }

  /** Nobody who has not heard could be shown two posts. */
  ghost predicate TooFewPosts(ps: seq<Platform>, a: Audience, shows: seq<bool>, stage: seq<Stage>)
    requires |shows| == |ps| && |stage| == |a.member| && forall i :: 0 <= i < |a.member| ==> |a.member[i]| == |ps|
  {
    forall i :: 0 <= i < |stage| && stage[i] == Unaware ==> Loudness(ps, a, shows, i, |ps|) <= 1
  }

  lemma ConfirmsNothingExactlyWhen(ps: seq<Platform>, a: Audience, ch: Chance, l: Layer, stage: seq<Stage>,
                                   y: seq<real>)
    requires Fit(ps, a, l) && |stage| == |y| == |a.member|
    ensures ConfirmsNothing(ps, a, ch, l, stage, y) <==>
      TooFewPosts(ps, a, ShowsAhead(ps, a, ch, l, stage, y), stage)
  {
    hide UpdatedAll, Loudness, ShownTo, Confirmations, ShowsAhead, Showing;
    var shows := ShowsAhead(ps, a, ch, l, stage, y);
    if TooFewPosts(ps, a, shows, stage) {
      forall ch': Chance, i | ch'.power == ch.power && 0 <= i < |stage|
        ensures Delivered(ps, a, ch', l, stage, y).1[i] == 0
      {
        SameAhead(ps, a, ch, ch', l, stage, y);
        AheadIsAfter(ps, a, ch', l, stage, y);
        var chans := ChannelsAfter(ps, a, ch', l, stage, y);
        if stage[i] == Unaware { QuietEnough(ps, a, ch', chans, l.step, i, |ps|); }
        NoConfirmation(Total(ps, a, ch', chans, l.step, stage, i));
      }
    }
    if ConfirmsNothing(ps, a, ch, l, stage, y) {
      var g := Generous(ch.power);
      SameAhead(ps, a, ch, g, l, stage, y);
      AheadIsAfter(ps, a, g, l, stage, y);
      var chans := ChannelsAfter(ps, a, g, l, stage, y);
      forall i | 0 <= i < |stage| && stage[i] == Unaware ensures Loudness(ps, a, shows, i, |ps|) <= 1 {
        GenerousShows(ps, a, ch.power, chans, l.step, i, |ps|);
        assert Delivered(ps, a, g, l, stage, y).1[i] == 0;
        NoConfirmation(Total(ps, a, g, chans, l.step, stage, i));
      }
    }
  }

  /** Some platform person i is on, among the first m, shows the story. */
  ghost predicate Reaches(a: Audience, shows: seq<bool>, i: nat, m: nat)
    requires i < |a.member| && m <= |shows| && |a.member[i]| == |shows|
  {
    exists p :: 0 <= p < m && a.member[i][p] && shows[p]
  }

  /** No platform anyone is on shows the story. */
  ghost predicate ReachesNobody(a: Audience, shows: seq<bool>)
    requires forall i :: 0 <= i < |a.member| ==> |a.member[i]| == |shows|
  {
    forall i :: 0 <= i < |a.member| ==> !Reaches(a, shows, i, |shows|)
  }

  lemma {:induction false} WeightExactlyWhen(ps: seq<Platform>, a: Audience, l: Layer, y: real, i: nat, m: nat)
    requires Fit(ps, a, l) && i < |a.member| && m <= |ps| && SaneP(ps)
    ensures Pulled(ps, a, l, y, i, m).1 >= 0.0
    ensures Pulled(ps, a, l, y, i, m).1 > 0.0 <==> Reaches(a, Showing(l.channels), i, m)
  {
    if m > 0 {
      WeightExactlyWhen(ps, a, l, y, i, m - 1);
      var c, pl := l.channels[m - 1], ps[m - 1];
      if c.presence > 0.000001 { ProductPositive(c.presence, 0.4 + 0.6 * pl.velocity); }
      assert Reaches(a, Showing(l.channels), i, m) <==>
        Reaches(a, Showing(l.channels), i, m - 1) || (a.member[i][m - 1] && c.presence > 0.000001);
    }
  }

  lemma PullExactlyWhen(ps: seq<Platform>, a: Audience, l: Layer, y: real, i: nat)
    requires Fit(ps, a, l) && i < |a.member| && SaneP(ps) && l.enabled
    ensures FeedPull(ps, a, l, y, i).weight == 0.0 <==> !Reaches(a, Showing(l.channels), i, |ps|)
  {
    hide Pulled, Reaches, SaneP, Showing;
    WeightExactlyWhen(ps, a, l, y, i, |ps|);
  }

  lemma PullsNothingExactlyWhen(ps: seq<Platform>, a: Audience, ch: Chance, l: Layer, stage: seq<Stage>, y: seq<real>)
    requires Fit(ps, a, l) && |stage| == |y| == |a.member| && SaneP(ps)
    ensures PullsNothing(ps, a, ch, l, stage, y) <==>
      QuietAhead(ps, a, l, stage, y) || ReachesNobody(a, ShowsAhead(ps, a, ch, l, stage, y))
  {
    hide UpdatedAll, FeedPull, Reaches, SaneP, Quiet, Total, Confirmations, QuietAhead, ShowsAhead, Showing;
    AheadIsAfter(ps, a, ch, l, stage, y);
    var k := Delivered(ps, a, ch, l, stage, y).0;
    var shows := ShowsAhead(ps, a, ch, l, stage, y);
    assert k.channels == ChannelsAfter(ps, a, ch, l, stage, y) && k.enabled;
    forall i | 0 <= i < |stage| ensures FeedPull(ps, a, k, y[i], i).weight == 0.0 <==> !Reaches(a, shows, i, |ps|) {
      PullExactlyWhen(ps, a, k, y[i], i);
    }
    if !Quiet(k) && PullsNothing(ps, a, ch, l, stage, y) {
      forall i | 0 <= i < |stage| ensures !Reaches(a, shows, i, |ps|) {
        assert FeedPull(ps, a, k, y[i], i).weight == 0.0;
      }
    }
  }

  /** Skipping the tick delivers what the tick would, whatever is drawn, exactly when no unaware person could be shown
      two posts, and either no score would rise above the threshold for quiet or no platform anyone is on would show
      the story.  Everything it asks is of the state before the tick. */
  lemma SkippingIsExactWhen(ps: seq<Platform>, a: Audience, ch: Chance, l: Layer, stage: seq<Stage>, y: seq<real>)
    requires Fit(ps, a, l) && |stage| == |y| == |a.member| && SaneP(ps) && l.enabled && Quiet(l)
    ensures
      (forall ch': Chance :: ch'.power == ch.power ==>
         Advance(ps, a, ch', l, stage, y).1 == Delivered(ps, a, ch', l, stage, y).1)
      && PullsNothing(ps, a, ch, l, stage, y)
      <==>
      var shows := ShowsAhead(ps, a, ch, l, stage, y);
      TooFewPosts(ps, a, shows, stage) && (QuietAhead(ps, a, l, stage, y) || ReachesNobody(a, shows))
  {
    hide Delivered, TooFewPosts, ReachesNobody, Quiet, QuietAhead, PullsNothing, ShowsAhead, SaneP;
    ConfirmsNothingExactlyWhen(ps, a, ch, l, stage, y);
    PullsNothingExactlyWhen(ps, a, ch, l, stage, y);
    SkippedIsNothing(ps, a, ch, l, stage, y);
  }

  lemma SkippedIsNothing(ps: seq<Platform>, a: Audience, ch: Chance, l: Layer, stage: seq<Stage>, y: seq<real>)
    requires Fit(ps, a, l) && |stage| == |y| == |a.member| && l.enabled && Quiet(l)
    ensures ConfirmsNothing(ps, a, ch, l, stage, y) <==>
      forall ch': Chance :: ch'.power == ch.power ==>
        Advance(ps, a, ch', l, stage, y).1 == Delivered(ps, a, ch', l, stage, y).1
  {
    hide Delivered, Quiet;
    forall ch': Chance | ch'.power == ch.power
      ensures Advance(ps, a, ch', l, stage, y).1 == Delivered(ps, a, ch', l, stage, y).1 <==>
        forall i :: 0 <= i < |stage| ==> Delivered(ps, a, ch', l, stage, y).1[i] == 0
    {
      assert Advance(ps, a, ch', l, stage, y).1 == seq(|stage|, _ => 0);
    }
  }

  lemma NothingAhead(pl: Platform, ch: Chance, score: real)
    ensures Presence(Ranked(ch, pl, 0.0), Grown(pl, score, 0.0)) == 0.0
  {
    hide Grown;
    assert 0.0 * Grown(pl, score, 0.0) == 0.0;
  }

  lemma {:induction false} Silent(ps: seq<Platform>, a: Audience, shows: seq<bool>, i: nat, m: nat)
    requires m <= |ps| == |shows| && i < |a.member| && |a.member[i]| == |ps|
    requires forall p :: 0 <= p < |shows| ==> !shows[p]
    ensures Loudness(ps, a, shows, i, m) == 0 && !Reaches(a, shows, i, m)
  {
    if m > 0 { Silent(ps, a, shows, i, m - 1); }
  }

  /** Where nobody of any weight transmits, no platform shows anything, so the shortcut is exact. */
  lemma SkippingIsExactAtRest(ps: seq<Platform>, a: Audience, ch: Chance, l: Layer, stage: seq<Stage>, y: seq<real>)
    requires Fit(ps, a, l) && |stage| == |y| == |a.member| && Weighs(a) && SaneP(ps)
    requires forall p :: 0 <= p < |ps| ==> !Transmits(a, stage, p, |stage|)
    ensures ConfirmsNothing(ps, a, ch, l, stage, y) && PullsNothing(ps, a, ch, l, stage, y)
  {
    hide Transmits, TallyOf, Weighs, SaneP, Loudness, Reaches, ConfirmsNothing, PullsNothing, QuietAhead;
    hide Grown, Presence, Ranked, Engagement;
    var shows := ShowsAhead(ps, a, ch, l, stage, y);
    forall p | 0 <= p < |ps| ensures !shows[p] {
      EngagementExactlyWhen(a, stage, y, p);
      NothingAhead(ps[p], ch, l.channels[p].score);
    }
    forall i | 0 <= i < |stage| ensures Loudness(ps, a, shows, i, |ps|) == 0 && !Reaches(a, shows, i, |ps|) {
      Silent(ps, a, shows, i, |ps|);
    }
    ConfirmsNothingExactlyWhen(ps, a, ch, l, stage, y);
    PullsNothingExactlyWhen(ps, a, ch, l, stage, y);
  }

  // ---------- a quiet layer that would not have stayed so ----------

  const SHORT_VIDEO := Platform(3.4, 0.3, 1.35, 0.26, false)
  const GROUP_CHAT := Platform(0.0, 0.55, 0.55, 0.08, true)

  ghost function Both(): Audience {
    Audience([[true, true], [true, true]], [1.0, 1.0])
  }

  /** A layer that is on and whose scores are all zero. */
  ghost predicate Unlit(l: Layer) {
    l.enabled && forall p :: 0 <= p < |l.channels| ==> l.channels[p].score == 0.0
  }

  lemma HalfTransmits(y: seq<real>, p: nat)
    requires |y| == 2 && p < 2
    ensures TallyOf(Both(), [Adopted, Unaware], y, p, 2) == Tally(2.0, 1.0, y[0], 1.0)
  {
    var a, stage := Both(), [Adopted, Unaware];
    assert TallyOf(a, stage, y, p, 0) == Tally(0.0, 0.0, 0.0, 0.0);
    assert TallyOf(a, stage, y, p, 1) == Tally(1.0, 1.0, y[0], 1.0);
  }

  lemma HalfEngaged(ch: Chance, y: real)
    ensures Engagement(Tally(2.0, 1.0, y, 1.0)) == 0.5 && Ranked(ch, GROUP_CHAT, 0.5) == 0.5
    ensures Grown(GROUP_CHAT, 0.0, 0.5) == 0.253 && Presence(0.5, 0.253) == 0.1265
  {
  }

  /** Two people on the short-video feed and in the group chat, one of them transmitting: every score is zero and the
      layer is quiet, yet the update would wake it and pull the other one's opinion. */
  lemma QuietLayerWouldWake(ch: Chance, l: Layer, y: seq<real>)
    requires Fit([SHORT_VIDEO, GROUP_CHAT], Both(), l) && Unlit(l) && |y| == 2
    ensures var ps, a, stage := [SHORT_VIDEO, GROUP_CHAT], Both(), [Adopted, Unaware];
      && Quiet(l) && !Quiet(Delivered(ps, a, ch, l, stage, y).0) && !PullsNothing(ps, a, ch, l, stage, y)
  {
    var ps, a, stage := [SHORT_VIDEO, GROUP_CHAT], Both(), [Adopted, Unaware];
    hide TallyOf, Delivered, PullsNothing, Presence, Grown, Engagement, Ranked;
    HalfTransmits(y, 1);
    HalfEngaged(ch, y[0]);
    assert l.channels[1].score == 0.0;
    assert ScoreAhead(ps, a, l, stage, y, 1) == 0.253;
    assert PresenceAhead(ps, a, ch, l, stage, y, 1) == 0.1265;
    var shows := ShowsAhead(ps, a, ch, l, stage, y);
    assert shows[1] && a.member[1] == [true, true];
    assert Reaches(a, shows, 1, 2);
    AheadIsAfter(ps, a, ch, l, stage, y);
    PullsNothingExactlyWhen(ps, a, ch, l, stage, y);
  }

  /** The code gets there by the media switch: off and on again in the middle of a story, the layer is unlit and
      everyone transmits as before. */
  lemma SwitchedOffAndOn(w: World, s: State)
    requires WorldFits(w) && StateFits(w, s) && s.layer.Some?
    ensures var t := Apply(w, Apply(w, s, Switch(false)), Switch(true));
      t.layer.Some? && Unlit(t.layer.value) && Quiet(t.layer.value) && t.cascade == s.cascade && t.y == s.y
  {
    hide Ticked, Injected, ReactedTo, ResetFrom;
  }

  /** And by a story of no salience in a new simulation with platforms, behind its transmitting seeds. */
  lemma QuietButTold(w: World, e: Event)
    requires WorldFits(w) && EventFits(w, e) && |w.platforms| > 0 && e.salience == 0.0
    ensures var s := Injected(w, Start(w), e);
      && s.layer.Some? && Unlit(s.layer.value) && Quiet(s.layer.value)
      && var who := WhoOf(w, Eased(Fresh(w.thresholds), e.difficulty), e.seeds);
         forall k :: 0 <= k < |who| && who[k] < |w.net| ==> s.cascade.stage[who[k]] == Adopted
  {
    hide WhoOf, Pinned, Calm, WorldFits, SeedAll, Carriers, Spoken, IgniteScore;
    var s := Injected(w, Start(w), e);
    assert s.layer == Some(Ignited(w.platforms, NewLayer(|w.platforms|, |w.net|), 0.0));
    forall p | 0 <= p < |w.platforms| ensures IgniteScore(w.platforms[p], 0.0) == 0.0 {
      NoSalience(w.platforms[p]);
    }
    var scaled := Eased(Fresh(w.thresholds), e.difficulty);
    var who := WhoOf(w, scaled, e.seeds);
    forall k | 0 <= k < |who| && who[k] < |w.net| ensures s.cascade.stage[who[k]] == Adopted {
      WorldSizes(w);
      SeedAllAt(scaled, who, who[k]);
    }
  }

  lemma NoSalience(pl: Platform)
    ensures IgniteScore(pl, 0.0) == 0.0
  {
    var v := 0.6 + 0.4 * pl.velocity;
    assert 0.25 * 0.0 * v == 0.0;
  }
}
