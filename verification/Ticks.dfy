/** What one tick does to one person.
    Told without the parts that do it. */
module Ticks {
  import opened Common
  import opened Contagion
  import opened Opinion
  import opened Media
  import opened Feeds
  import opened Finite
  import opened Stories
  import CascadeTheorems

  // ---------- a tick ----------

  /** The layer exists, is on, and some platform has a score worth the name. */
  ghost predicate StoryLive(s: State) {
    && s.layer.Some? && s.layer.value.enabled
    && exists p :: 0 <= p < |s.layer.value.channels| && s.layer.value.channels[p].score > 0.0001
  }

  /** The posts a tick puts before person i, platform by platform, at the presences that tick arrives at. */
  ghost function PostsFor(w: World, s: State, i: nat): nat
    requires WorldFits(w) && StateFits(w, s) && i < |w.net|
  {
    if StoryLive(s) then
      var chans := Ticked(w, s).layer.value.channels;
      CountOf(Posts(w.platforms, w.audience, w.chance, chans, s.layer.value.step, i, |w.platforms|))
    else 0
  }

  /** Without a live story a tick leaves the layer as it is.  With one, every platform is updated from the stages and
      opinions before the tick, and exposed are exactly those who had not heard and are shown something. */
  lemma TickMovesLayer(w: World, s: State)
    requires WorldFits(w) && StateFits(w, s)
    ensures !StoryLive(s) ==> Ticked(w, s).layer == s.layer
    ensures StoryLive(s) ==> Ticked(w, s).layer.Some?
    ensures StoryLive(s) ==>
      var l, k := s.layer.value, Ticked(w, s).layer.value;
      && k.enabled && k.step == l.step + 1
      && (forall p :: 0 <= p < |w.platforms| ==>
            k.channels[p] == ChannelAfter(w.platforms, w.audience, w.chance, l, s.cascade.stage, s.y, p))
      && (forall i :: 0 <= i < |w.net| ==> (k.exposed[i] <==> s.cascade.stage[i] == Unaware && PostsFor(w, s, i) > 0))
  {
    hide Round, Step, UpdatedAll, CountOf, Posts, ShownTo;
    if StoryLive(s) {
      var l, k := s.layer.value, Ticked(w, s).layer.value;
      forall i | 0 <= i < |w.net|
        ensures k.exposed[i] <==> s.cascade.stage[i] == Unaware && PostsFor(w, s, i) > 0
      {
        ShownIsPosts(w.platforms, w.audience, w.chance, k.channels, l.step, i, |w.platforms|);
      }
    }
  }

  /** What contagion is given: nothing, unless the layer is on. */
  lemma TickFeedsContagion(w: World, s: State, i: nat)
    requires WorldFits(w) && StateFits(w, s) && i < |w.net| && s.cascade.stage[i] == Unaware
    ensures Feed(Input(Shown(w, s).1, None), i) == Confirmations(PostsFor(w, s, i))
  {
    hide Round, Step, UpdatedAll, CountOf, Posts, ShownTo;
    if StoryLive(s) {
      var l, k := s.layer.value, Ticked(w, s).layer.value;
      ShownIsPosts(w.platforms, w.audience, w.chance, k.channels, l.step, i, |w.platforms|);
    }
  }

  /** Who adopts in a tick.  Somebody who has not heard adopts exactly when they are awake at this hour and the adopted
      neighbours and the confirmations of this tick's posts, together, are positive and, under the complex rule, meet
      the floor and the threshold's share of the neighbours, or under the simple rule are lucky; and they are marked
      as feed-driven when the neighbours would not do. */
  lemma TickAdoptsExactlyWhen(w: World, s: State, i: nat)
    requires WorldFits(w) && StateFits(w, s) && i < |w.net| && s.cascade.stage[i] == Unaware
    ensures var c, d := s.cascade, Ticked(w, s).cascade;
      var peers := |CascadeTheorems.Adopters(w.net[i], c.stage)|;
      var n := peers + Confirmations(PostsFor(w, s, i));
      var asked := c.threshold[i] * (if c.scale <= 0.0 then 1.0 else c.scale) * |w.net[i]| as real;
      && (d.stage[i] == Adopted <==>
            && (w.minutesPerTick > 0.0 ==> w.rule.wake(c.step, i) < w.curve(s.hour, i)) && n > 0
            && if s.simple then w.rule.luck(c.step, i) < w.rule.chance(n)
               else n >= w.rule.minReinforce && n as real >= asked)
      && (d.stage[i] == Adopted ==>
            && d.at[i] == c.step + 1
            && (d.fed[i] <==>
                  if s.simple then peers == 0 else !(peers >= w.rule.minReinforce && peers as real >= asked)))
      && (d.stage[i] != Adopted ==> d.stage[i] == Unaware)
  {
    hide Round, Step, Shown, PostsFor, CascadeTheorems.Adopters;
    TickFeedsContagion(w, s, i);
    CascadeTheorems.RoundAdoptsExactlyWhen(RuleOf(w, s), w.net, s.cascade,
                                           Input(Shown(w, s).1, Activity(w, s.hour)), i);
  }

  /** So somebody asleep waits. */
  lemma SleepersWait(w: World, s: State, i: nat)
    requires WorldFits(w) && StateFits(w, s) && i < |w.net| && s.cascade.stage[i] == Unaware
    requires w.minutesPerTick > 0.0 && w.rule.wake(s.cascade.step, i) >= w.curve(s.hour, i)
    ensures Ticked(w, s).cascade.stage[i] == Unaware
  {
    hide Ticked, PostsFor, CascadeTheorems.Adopters;
    TickAdoptsExactlyWhen(w, s, i);
  }

  /** Opinion moves last: everyone's feeds pull as the layer stands after the tick, at the opinions before it. */
  lemma OpinionReadsNewFeeds(w: World, s: State, i: nat)
    requires WorldFits(w) && StateFits(w, s) && i < |w.net|
    ensures var t := Ticked(w, s);
      var pull := if StoryLive(t) then
                    Some(seq(|s.y|, j requires 0 <= j < |s.y| =>
                      FeedPull(w.platforms, w.audience, t.layer.value, s.y[j], j)))
                  else None;
      Opinion.Fits(w.net, s.field, s.y, pull) && t.y == Step(w.net, s.field, s.y, pull)
  {
    hide Round, Step, Shown, FeedPull;
    var layer := Ticked(w, s).layer;
    if layer.Some? && Live(layer.value) {
      var pulls := Pulls(w.platforms, w.audience, layer.value, s.y).value;
      assert pulls == seq(|s.y|, j requires 0 <= j < |s.y| =>
        FeedPull(w.platforms, w.audience, layer.value, s.y[j], j));
    }
  }

  ghost predicate HasMoved(from: real, to: real, minutes: real, days: int) {
    to == from + minutes / 60.0 - 24.0 * days as real
  }

  /** The clock, if there is one, moves on by the minutes of a tick and stays within the day; the rest of the state,
      but for cascade, opinions and layer, stays. */
  lemma ClockTurns(w: World, s: State)
    requires WorldFits(w) && StateFits(w, s)
    ensures var t := Ticked(w, s);
      && t.tick == s.tick + 1 && t.simple == s.simple && t.field == s.field
      && t.cascade.step == s.cascade.step + 1 && t.cascade.threshold == s.cascade.threshold
      && (w.minutesPerTick <= 0.0 ==> t.hour == s.hour)
      && (w.minutesPerTick > 0.0 ==>
            0.0 <= t.hour < 24.0
            && exists days :: HasMoved(s.hour, t.hour, w.minutesPerTick, days))
  {
    hide Evaluated, Retired, Step, Shown;
    if w.minutesPerTick > 0.0 {
      var days := ((s.hour + w.minutesPerTick / 60.0) / 24.0).Floor;
      assert HasMoved(s.hour, Ticked(w, s).hour, w.minutesPerTick, days);
    }
  }

  /** A tick reports how many it made adopters, and the largest move of an opinion. */
  lemma TickReports(w: World, s: State)
    requires WorldFits(w) && StateFits(w, s)
    ensures var t, r := Ticked(w, s), Report(w, s);
      && r.0 == |CascadeTheorems.Converted(s.cascade.stage, t.cascade.stage, |w.net|)|
      && (forall i :: 0 <= i < |w.net| ==> -r.1 <= t.y[i] - s.y[i] <= r.1)
      && (r.1 == 0.0 || exists i :: 0 <= i < |w.net| && Abs(t.y[i] - s.y[i]) == r.1)
  {
    hide Round, Step, Shown, Gap, CascadeTheorems.Converted, Evaluated;
    var t := Ticked(w, s);
    CascadeTheorems.CountIsConverted(RuleOf(w, s), w.net, s.cascade, Input(Shown(w, s).1, Activity(w, s.hour)),
                                     |w.net|);
    forall i | 0 <= i < |w.net| ensures Abs(t.y[i] - s.y[i]) <= Gap(s.y, t.y, |w.net|) {
      GapCovers(s.y, t.y, |w.net|, i);
    }
    GapIsReached(s.y, t.y, |w.net|);
  }

  lemma {:induction false} GapIsReached(a: seq<real>, b: seq<real>, m: nat)
    requires m <= |a| == |b|
    ensures Gap(a, b, m) == 0.0 || exists i :: 0 <= i < m && Abs(b[i] - a[i]) == Gap(a, b, m)
  {
    if m > 0 { GapIsReached(a, b, m - 1); }
  }

  // ---------- a story that needs its feeds ----------

  /** Two friends on one fast open platform that shows everyone four posts; a story asks for two contacts. */
  ghost function Friends(): (w: World)
    ensures WorldFits(w)
  {
    World([[1], [0]], [0, 1], [0, 1], [0, 0], [false, false],
          Rule(2, 0, false, (_, _) => 0.0, (_, _) => 0.0, _ => 0.0), [0.2, 0.2], Field([0.0, 0.0], [0.5, 0.5]),
          [Platform(3.4, 0.0, 1.0, 0.0, false)], Audience([[true], [true]], [1.0, 1.0]),
          Chance((_, _, _) => 0.0, (_, _, _, _) => 4, (x, _) => x), 0.0, 0.0, (_, _) => 1.0)
  }

  /** One of them has adopted, and the platform has picked the story up. */
  ghost function HalfTold(): (s: State)
    ensures StateFits(Friends(), s) && StateFits(Friends(), s.(layer := None))
  {
    State(Cascade([Unaware, Adopted], [-1, 0], [false, false], 0, [0.2, 0.2], 1.0), false,
          Field([0.0, 0.0], [0.5, 0.5]), [0.0, 0.0],
          Some(Layer([Channel(0.5, 0.0, 0.0, 0, 0.0)], [false, false], 0, true)), 0, 0.0)
  }

  lemma HalfEngaged()
    ensures var w, s := Friends(), HalfTold();
      EngagementOn(w.audience, s.cascade.stage, 0) == 0.5
  {
    var a, stage := Friends().audience, HalfTold().cascade.stage;
    WeighedNext(a, 0, 2, One());
    WeighedNext(a, 0, 1, One());
    Nothing(a, 0, One());
    WeighedNext(a, 0, 2, Spreading(stage));
    WeighedNext(a, 0, 1, Spreading(stage));
    Nothing(a, 0, Spreading(stage));
  }

  lemma HalfShown()
    ensures var w, s := Friends(), HalfTold();
      Fit(w.platforms, w.audience, s.layer.value)
      && ChannelAfter(w.platforms, w.audience, w.chance, s.layer.value, s.cascade.stage, s.y, 0).presence == 0.375
  {
    var w, s := Friends(), HalfTold();
    HalfEngaged();
    hide ChannelAfter, EngagementOn;
    ScoreAfter(w.platforms, w.audience, w.chance, s.layer.value, s.cascade.stage, s.y, 0);
    PresenceAfter(w.platforms, w.audience, w.chance, s.layer.value, s.cascade.stage, s.y, 0);
  }

  lemma HalfToldIsLive()
    ensures StoryLive(HalfTold()) && HalfTold().layer.value.step == 0
    ensures |Friends().platforms| == 1 && |Friends().net| == 2
  {
    assert HalfTold().layer.value.channels[0].score > 0.0001;
  }

  lemma FourPosts()
    ensures StoryLive(HalfTold()) && PostsFor(Friends(), HalfTold(), 0) == 4
  {
    HalfToldIsLive();
    hide Ticked, ChannelAfter, CountOf, Posts, Friends, HalfTold, StoryLive;
    var w, s := Friends(), HalfTold();
    HalfShown();
    ChannelMoves(w, s, 0);
    FourFrom(Ticked(w, s).layer.value.channels);
  }

  lemma ChannelMoves(w: World, s: State, p: nat)
    requires WorldFits(w) && StateFits(w, s) && StoryLive(s) && p < |w.platforms|
    ensures var l, k := s.layer.value, Ticked(w, s).layer;
      && k.Some? && |k.value.channels| == |w.platforms|
      && k.value.channels[p] == ChannelAfter(w.platforms, w.audience, w.chance, l, s.cascade.stage, s.y, p)
  {
    hide Ticked, ChannelAfter, PostsFor;
    TickMovesLayer(w, s);
  }

  lemma FourFrom(c: seq<Channel>)
    requires |c| == 1 && c[0].presence > 0.000001
    ensures CountOf(Posts(Friends().platforms, Friends().audience, Friends().chance, c, 0, 0, 1)) == 4
  {
    assert Posts(Friends().platforms, Friends().audience, Friends().chance, c, 0, 0, 1) == [4];
    assert [4][..0] == [];
  }

  lemma OneNeighbourAdopted()
    ensures |CascadeTheorems.Adopters(Friends().net[0], HalfTold().cascade.stage)| == 1
  {
    assert CascadeTheorems.Adopters(Friends().net[0], HalfTold().cascade.stage) == {0};
  }

  /** The tick with the feeds makes the other one adopt, and says that the feeds did it; the tick without does not. */
  lemma FeedsMakeTheDifference()
    ensures var w, s := Friends(), HalfTold();
      && Ticked(w, s).cascade.stage[0] == Adopted && Ticked(w, s).cascade.fed[0]
      && Ticked(w, s.(layer := None)).cascade.stage[0] == Unaware
  {
    hide Ticked, PostsFor, CascadeTheorems.Adopters;
    FourPosts();
    NoPosts(Friends(), HalfTold().(layer := None), 0);
    OneNeighbourAdopted();
    TickAdoptsExactlyWhen(Friends(), HalfTold(), 0);
    TickAdoptsExactlyWhen(Friends(), HalfTold().(layer := None), 0);
  }

  lemma NoPosts(w: World, s: State, i: nat)
    requires WorldFits(w) && StateFits(w, s) && i < |w.net| && s.layer == None
    ensures PostsFor(w, s, i) == 0
  {
    hide Ticked;
  }
}
