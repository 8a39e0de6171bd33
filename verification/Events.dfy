/** What a start, a story breaking and a round of reactions do to one person.
    Told without the parts that do it. */
module Events {
  import opened Common
  import opened Contagion
  import opened Opinion
  import opened Media
  import opened Seeding
  import opened SpatialOrder
  import opened Reactions
  import opened Stories
  import opened Finite
  import opened Reals
  import Feeds
  import FedOpinion

  // ---------- before anything happens ----------

  /** In a new world nobody has heard, thresholds and beliefs are as drawn, the clock stands at its start, and the
      platforms, if any, are on and empty. */
  lemma NobodyHasHeard(w: World, i: nat)
    requires WorldFits(w) && i < |w.net|
    ensures var s := Start(w);
      && s.cascade.stage[i] == Unaware && s.cascade.at[i] == -1 && !s.cascade.fed[i]
      && s.cascade.threshold[i] == w.thresholds[i] && s.cascade.scale == 1.0 && s.cascade.step == 0
      && s.field == w.beliefs && !s.simple && s.tick == 0 && s.hour == w.startHour
      && (s.layer.Some? <==> |w.platforms| > 0)
      && (s.layer.Some? ==>
            && s.layer.value.enabled && s.layer.value.step == 0 && !s.layer.value.exposed[i]
            && forall p :: 0 <= p < |w.platforms| ==> s.layer.value.channels[p] == Channel(0.0, 0.0, 0.0, 0, 0.0))
  {
    hide Calm;
  }

  /** And opinions are at rest: within 4e-5 of the one equilibrium of the drawn beliefs. */
  lemma OpinionsAreAtRest(w: World) returns (z: seq<real>)
    requires SaneWorld(w)
    ensures Opinion.Fits(w.net, w.beliefs, z, None) && Step(w.net, w.beliefs, z, None) == z
    ensures forall i :: 0 <= i < |w.net| ==>
              -0.00004 <= Start(w).y[i] - z[i] <= 0.00004 && (|w.net[i]| == 0 ==> z[i] == w.beliefs.prior[i])
  {
    hide Settle, Step, InRange, Susceptible, Thresholds, SaneP, Weighs;
    z := FedOpinion.SettleFindsTheEquilibrium(w.net, w.beliefs, 0.0);
  }

  // ---------- a story breaks ----------

  /** Broadcaster i covers the story if the draw of its own, by its number among broadcasters, is below the salience. */
  ghost predicate Covers(w: World, e: Event, i: nat)
    requires i < |w.media|
  {
    w.media[i] && e.lucks(|BroadcastersBefore(w.media, i)|) < e.salience
  }

  ghost function BroadcastersBefore(media: seq<bool>, i: nat): set<nat>
    requires i <= |media|
  {
    set j: nat | j < i && media[j]
  }

  lemma {:induction false} BroadcastersAre(media: seq<bool>, m: nat)
    requires m <= |media|
    ensures Broadcasters(media, m) == |BroadcastersBefore(media, m)|
  {
    if m == 0 {
      assert BroadcastersBefore(media, m) == {};
    } else {
      BroadcastersAre(media, m - 1);
      var last := if media[m - 1] then {m - 1} else {};
      assert BroadcastersBefore(media, m) == BroadcastersBefore(media, m - 1) + last;
    }
  }

  lemma {:induction false} CarriersCover(w: World, e: Event, m: nat, i: nat)
    requires m <= |w.media| && i < |w.media|
    ensures i in Carriers(w.media, e.lucks, e.salience, m) <==> i < m && Covers(w, e, i)
  {
    if m > 0 {
      CarriersCover(w, e, m - 1, i);
      BroadcastersAre(w.media, m - 1);
    }
  }

  /** Those who cover it hold its stance and stop listening; nobody else's beliefs move. */
  lemma StoryIsBroadcast(w: World, s: State, e: Event, i: nat)
    requires WorldFits(w) && StateFits(w, s) && EventFits(w, e) && i < |w.net|
    ensures var t := Injected(w, s, e);
      if Covers(w, e, i) then t.y[i] == t.field.prior[i] == e.stance && t.field.lambda[i] == 0.0
      else t.y[i] == s.y[i] && t.field.prior[i] == s.field.prior[i] && t.field.lambda[i] == s.field.lambda[i]
  {
    hide WhoOf, SeedAll, Ignited, Pinned, Covers;
    var carriers := Carriers(w.media, e.lucks, e.salience, |w.net|);
    CarriersCover(w, e, |w.net|, i);
    PinnedAt(s.field, carriers, e.stance, |carriers|, i);
    assert carriers[..|carriers|] == carriers;
  }

  /** The story's difficulty, if it has one, scales every threshold; the hour is the story's, if it names one and there
      is a clock; the mode and the tick count stay. */
  lemma StorySetsTheScene(w: World, s: State, e: Event)
    requires WorldFits(w) && StateFits(w, s) && EventFits(w, e)
    ensures var t := Injected(w, s, e);
      && t.cascade.scale == (if e.difficulty > 0.0 then e.difficulty else s.cascade.scale)
      && t.cascade.threshold == s.cascade.threshold && t.cascade.fed == s.cascade.fed
      && t.cascade.step == s.cascade.step && t.simple == s.simple && t.tick == s.tick
      && (e.breaksAt == None || w.minutesPerTick <= 0.0 ==> t.hour == s.hour)
      && (e.breaksAt.Some? && w.minutesPerTick > 0.0 ==>
            0.0 <= t.hour < 24.0 && (0.0 <= e.breaksAt.value < 24.0 ==> t.hour == e.breaksAt.value))
  {
    hide WhoOf, SeedAll, Ignited, Pinned, Carriers;
    var scaled := Eased(s.cascade, e.difficulty);
    SeedAllKeeps(scaled, WhoOf(w, scaled, e.seeds));
    if e.breaksAt.Some? && 0.0 <= e.breaksAt.value < 24.0 { assert (e.breaksAt.value / 24.0).Floor == 0; }
  }

  /** Platforms that are on pick it up, each with the score IgnitesAt gives it; a layer that is off is left alone. */
  lemma StoryIgnites(w: World, s: State, e: Event, p: nat)
    requires WorldFits(w) && StateFits(w, s) && EventFits(w, e) && s.layer.Some? && p < |w.platforms|
    requires 0.0 <= e.salience <= 1.0 && 0.0 <= w.platforms[p].velocity <= 1.0
    ensures Injected(w, s, e).layer.Some?
    ensures var l, k := s.layer.value, Injected(w, s, e).layer.value;
      && (!l.enabled ==> k == l)
      && (l.enabled ==>
            var pl, c := w.platforms[p], k.channels[p];
            && k.enabled && k.step == 0 && k.exposed == l.exposed
            && c.score == 0.25 * e.salience * (0.6 + 0.4 * pl.velocity) * (if pl.closed then 0.35 else 1.0)
            && c.presence == 0.0)
  {
    hide WhoOf, SeedAll, Pinned, Carriers;
    if s.layer.value.enabled { Feeds.IgnitesAt(w.platforms, s.layer.value, e.salience, p); }
  }

  lemma Unrolled(start: int, off: int, n: int)
    requires 0 <= off < n
    ensures ((start + off) % n - start) % n == off
  {
    var a := start + off;
    var q, r := a / n, a % n;
    assert a == q * n + r;
    assert r - start == -q * n + off;
    Quotient(-q, off, n);
  }

  /** Seeding a place turns into adopters, of those who have not heard, exactly the people that stand in the window of
      min(k, N) ranks around the centre, k being 64 unless the story names a size. */
  lemma PlaceIsSeeded(w: World, s: State, e: Event, size: int, draw: nat, i: nat)
    requires WorldFits(w) && StateFits(w, s) && |w.net| > 0 && e.seeds == InRegion(size, draw) && i < |w.net|
    ensures var n, t := |w.net|, Injected(w, s, e);
      var asked := if size > 0 then size else 64;
      var k := if asked > n then n else asked;
      var offset := w.rank[i] - w.rank[draw % n] + k / 2;
      if s.cascade.stage[i] == Unaware && offset % n < k
      then t.cascade.stage[i] == Adopted && t.cascade.at[i] == s.cascade.step
      else t.cascade.stage[i] == s.cascade.stage[i] && t.cascade.at[i] == s.cascade.at[i]
  {
    hide SeedAll, Window, Injected, WhoOf;
    var n := |w.net|;
    var k := if SeedCount(size) > n then n else SeedCount(size);
    StorySeeds(w, s, e);
    PlaceIsWindow(w, Eased(s.cascade, e.difficulty), size, draw, k);
    SeedAllAt(Eased(s.cascade, e.difficulty), Window(w.rank, w.order, draw % n, k), i);
    InWindowExactlyWhen(w.rank, w.order, draw % n, k, i);
  }

  lemma StorySeeds(w: World, s: State, e: Event)
    requires WorldFits(w) && StateFits(w, s) && EventFits(w, e)
    ensures var scaled := Eased(s.cascade, e.difficulty);
      && |scaled.stage| == |scaled.at| == |w.net|
      && Injected(w, s, e).cascade == SeedAll(scaled, WhoOf(w, scaled, e.seeds))
  {
    hide SeedAll, Pinned, Carriers, Ignited, WhoOf;
  }

  /** Whom a story approached, and exactly those of them who had not heard adopt. */
  ghost predicate Approached(s: State, t: State, who: seq<nat>)
    requires |s.cascade.stage| == |s.cascade.at| == |t.cascade.stage| == |t.cascade.at|
  {
    forall i :: 0 <= i < |s.cascade.stage| ==>
      if s.cascade.stage[i] == Unaware && i in who
      then t.cascade.stage[i] == Adopted && t.cascade.at[i] == s.cascade.step
      else t.cascade.stage[i] == s.cascade.stage[i] && t.cascade.at[i] == s.cascade.at[i]
  }

  lemma SeedsAreApproached(w: World, s: State, e: Event)
    requires WorldFits(w) && StateFits(w, s) && EventFits(w, e)
    ensures |Eased(s.cascade, e.difficulty).stage| == |Eased(s.cascade, e.difficulty).at| == |w.net|
    ensures Approached(s, Injected(w, s, e), WhoOf(w, Eased(s.cascade, e.difficulty), e.seeds))
  {
    hide SeedAll, Injected, WhoOf;
    var c := Eased(s.cascade, e.difficulty);
    StorySeeds(w, s, e);
    var who := WhoOf(w, c, e.seeds);
    forall i | 0 <= i < |s.cascade.stage|
      ensures if s.cascade.stage[i] == Unaware && i in who
              then SeedAll(c, who).stage[i] == Adopted && SeedAll(c, who).at[i] == s.cascade.step
              else SeedAll(c, who).stage[i] == s.cascade.stage[i] && SeedAll(c, who).at[i] == s.cascade.at[i]
    {
      SeedAllAt(c, who, i);
    }
  }

  /** The people an event reports are those it made adopters, each once. */
  lemma SeededAreNew(w: World, s: State, e: Event)
    requires WorldFits(w) && StateFits(w, s) && EventFits(w, e)
    ensures var t := Injected(w, s, e);
      && Distinct(Seeded(w, s, e))
      && forall i: nat :: i in Seeded(w, s, e) <==>
           i < |w.net| && s.cascade.stage[i] == Unaware && t.cascade.stage[i] == Adopted
  {
    hide SeedAll, Injected, WhoOf, Reported;
    StorySeeds(w, s, e);
    ReportedAre(Eased(s.cascade, e.difficulty), WhoOf(w, Eased(s.cascade, e.difficulty), e.seeds));
  }

  /** Person i is ordinary and no ordinary person among 64 draws has more ties; or none was drawn and it is person 0. */
  ghost predicate DenseAmong(w: World, draws: nat -> nat, start: nat)
    requires |w.net| == |w.media| > 0
  {
    && start < |w.net|
    && (forall j :: 0 <= j < 64 && !w.media[draws(j) % |w.net|] ==>
          !w.media[start] && |w.net[draws(j) % |w.net|]| <= |w.net[start]|)
    && (start != 0 ==> exists j :: 0 <= j < 64 && draws(j) % |w.net| == start)
  }

  /** Seeding a neighbourhood starts from such a person and turns into adopters those who have not heard of a connected
      set around them, k of them, or the whole component if it holds fewer. */
  lemma NetworkIsSeeded(w: World, s: State, e: Event, size: int, draws: nat -> nat)
    returns (start: nat, who: seq<nat>)
    requires WorldFits(w) && StateFits(w, s) && |w.net| > 0 && e.seeds == InNetwork(size, draws)
    ensures DenseAmong(w, draws, start) && Cluster(w.net, start, who) && Approached(s, Injected(w, s, e), who)
    ensures var k, n := if size > 0 then size else 64, |Seeded(w, s, e)|;
      n <= k && (n < k ==> Members(who) == Component(w.net, start))
  {
    hide SeedAll, Injected, Found, Reported, Cluster, Component, Approached;
    var c := Eased(s.cascade, e.difficulty);
    SeedsAreApproached(w, s, e);
    start := Densest(w.net, w.media, draws, 64).0;
    who := WhoOf(w, c, e.seeds);
    DensestIs(w.net, w.media, draws, 64);
    FoundIsCluster(c, w.net, start, SeedCount(size));
  }

  /** Seeding everywhere turns into adopters those who have not heard of the people the draws name, in turn, until k are
      new or 20k + 1000 tries are made. */
  lemma EverywhereIsSeeded(w: World, s: State, e: Event, size: int, draws: nat -> nat) returns (tries: nat)
    requires WorldFits(w) && StateFits(w, s) && |w.net| > 0 && e.seeds == Everywhere(size, draws)
    ensures Approached(s, Injected(w, s, e), seq(tries, j requires 0 <= j < tries => draws(j) % |w.net|))
    ensures var k, n := if size > 0 then size else 64, |Seeded(w, s, e)|;
      n <= k && tries <= 20 * k + 1000 && (n < k ==> tries == 20 * k + 1000)
  {
    hide SeedAll, Injected, Tried, Reported, Approached;
    var c := Eased(s.cascade, e.difficulty);
    SeedsAreApproached(w, s, e);
    var who := WhoOf(w, c, e.seeds);
    TriedAre(c, SeedCount(size), draws, 20 * SeedCount(size) + 1000);
    tries := |who|;
    assert who == seq(tries, j requires 0 <= j < tries => draws(j) % |w.net|);
  }

  lemma PlaceIsWindow(w: World, c: Cascade, size: int, draw: nat, k: nat)
    requires WorldFits(w) && |c.stage| == |c.at| == |w.net| > 0
    requires k == if SeedCount(size) > |w.net| then |w.net| else SeedCount(size)
    ensures WhoOf(w, c, InRegion(size, draw)) == Window(w.rank, w.order, draw % |w.net|, k)
  {
    hide Window;
  }

  lemma InWindowStands(rank: seq<nat>, order: seq<nat>, centre: nat, k: nat, off: nat)
    requires Inverse(rank, order) && centre < |rank| && off < k <= |rank|
    ensures var i := InWindow(rank, order, centre, k, off);
      i < |rank| && (rank[i] - rank[centre] + k / 2) % |rank| == off
  {
    hide Wrapped;
    var n, start, i := |rank|, rank[centre] - k / 2, InWindow(rank, order, centre, k, off);
    WrappedInRange(start, off, n);
    WrappedIsCyclic(start, off, n);
    assert rank[i] == Wrapped(start, off, n);
    Unrolled(start, off, n);
    assert rank[i] - start == rank[i] - rank[centre] + k / 2;
  }

  lemma InWindowExactlyWhen(rank: seq<nat>, order: seq<nat>, centre: nat, k: nat, i: nat)
    requires Inverse(rank, order) && centre < |rank| && 0 < k <= |rank| && i < |rank|
    ensures i in Window(rank, order, centre, k) <==> (rank[i] - rank[centre] + k / 2) % |rank| < k
  {
    hide InWindow;
    var off := (rank[i] - rank[centre] + k / 2) % |rank|;
    assert rank[i] - (rank[centre] - k / 2) == rank[i] - rank[centre] + k / 2;
    if i in Window(rank, order, centre, k) {
      var o :| 0 <= o < k && Window(rank, order, centre, k)[o] == i;
      InWindowStands(rank, order, centre, k, o);
    }
    if off < k {
      StandsInWindow(rank, order, centre, k, i, off);
      assert Window(rank, order, centre, k)[off] == i;
    }
  }

  lemma Rolled(start: int, r: int, n: int, off: int)
    requires 0 <= r < n && off == (r - start) % n
    ensures (start + off) % n == r
  {
    Unrolled(-start, r, n);
  }

  lemma InWindowIs(rank: seq<nat>, order: seq<nat>, centre: nat, k: nat, off: nat)
    requires Inverse(rank, order) && centre < |rank| && off < k <= |rank|
    ensures InWindow(rank, order, centre, k, off) == order[(rank[centre] - k / 2 + off) % |rank|]
  {
    hide Wrapped;
    WrappedIsCyclic(rank[centre] - k / 2, off, |rank|);
  }

  lemma StandsInWindow(rank: seq<nat>, order: seq<nat>, centre: nat, k: nat, i: nat, off: nat)
    requires Inverse(rank, order) && centre < |rank| && i < |rank| && off < k <= |rank|
    requires off == (rank[i] - (rank[centre] - k / 2)) % |rank|
    ensures InWindow(rank, order, centre, k, off) == i
  {
    hide InWindow;
    InWindowIs(rank, order, centre, k, off);
    Rolled(rank[centre] - k / 2, rank[i], |rank|, off);
  }

  // ---------- reactions ----------

  /** Somebody whose archetype reacted has their prior moved toward its stance by weight times salience of the way, an
      unusable weight counting as one; their threshold loses 0.55 of its share, down to 0.01; and a broadcaster says
      what it now believes.  Nobody else is touched. */
  lemma ReactionsReach(w: World, s: State, rx: map<int, Reaction>, weight: real, i: nat)
    requires WorldFits(w) && StateFits(w, s) && i < |w.net|
    ensures var t := ReactedTo(w, s, rx, weight);
      if w.arch[i] in rx then
        var r := rx[w.arch[i]];
        var k := (if weight <= 0.0 || weight > 1.0 then 1.0 else weight) * r.salience;
        var lowered := s.cascade.threshold[i] * (1.0 - 0.55 * r.share);
        && t.field.prior[i] - s.field.prior[i] == (r.stance - s.field.prior[i]) * k
        && t.y[i] == (if w.media[i] then t.field.prior[i] else s.y[i])
        && t.cascade.threshold[i] == (if lowered < 0.01 then 0.01 else lowered)
      else
        t.field.prior[i] == s.field.prior[i] && t.y[i] == s.y[i] && t.cascade.threshold[i] == s.cascade.threshold[i]
  {
    hide Reacted;
    var ps := PeopleOf(s);
    assert AllAfter(w, ps, rx, weight)[i] == After(ps, w.arch, w.media, rx, weight, i);
    if w.arch[i] in rx { ReactedBy(ps[i], w.media[i], rx[w.arch[i]], weight); }
  }

  lemma ReactedBy(p: Person, media: bool, r: Reaction, weight: real)
    ensures var q := Reacted(p, media, r, EffectiveWeight(weight));
      var k := (if weight <= 0.0 || weight > 1.0 then 1.0 else weight) * r.salience;
      var lowered := p.threshold * (1.0 - 0.55 * r.share);
      && q.prior - p.prior == (r.stance - p.prior) * k
      && q.y == (if media then q.prior else p.y)
      && q.threshold == (if lowered < 0.01 then 0.01 else lowered)
  {
  }

  lemma FurtherToward(a: real, b: real, k: real, more: real)
    requires k < more
    ensures a < b ==> Toward(a, b, k) < Toward(a, b, more)
    ensures a > b ==> Toward(a, b, k) > Toward(a, b, more)
  {
    assert Toward(a, b, more) - Toward(a, b, k) == (b - a) * (more - k);
    hide Toward;
    if a < b { ProductPositive(b - a, more - k); }
    if a > b { ProductPositive(a - b, more - k); }
  }

  lemma MovedFurther(prior: real, r: Reaction, more: Reaction, weight: real)
    requires r.stance == more.stance && r.salience < more.salience && weight > 0.0
    ensures prior < r.stance ==> MovedPrior(prior, r, weight) < MovedPrior(prior, more, weight)
    ensures prior > r.stance ==> MovedPrior(prior, r, weight) > MovedPrior(prior, more, weight)
  {
    var k, k' := weight * r.salience, weight * more.salience;
    GrowBy(weight, r.salience, more.salience);
    assert MovedPrior(prior, r, weight) == Toward(prior, r.stance, k);
    assert MovedPrior(prior, more, weight) == Toward(prior, r.stance, k');
    hide Toward, MovedPrior;
    FurtherToward(prior, r.stance, k, k');
  }

  lemma LoweredFurther(threshold: real, share: real, more: real)
    requires threshold > 0.0 && share < more && LoweredThreshold(threshold, share) > 0.01
    ensures LoweredThreshold(threshold, more) < LoweredThreshold(threshold, share)
  {
    GrowBy(threshold, 1.0 - 0.55 * more, 1.0 - 0.55 * share);
  }

  /** So the more salient reaction moves a prior strictly further, and the more shareable one lowers a threshold
      strictly more while it is above the least. */
  lemma StrongerReactionsDoMore(p: Person, media: bool, r: Reaction, more: Reaction, weight: real)
    requires r.stance == more.stance && SanePerson(p)
    ensures var k := EffectiveWeight(weight);
      var q, q' := Reacted(p, media, r, k), Reacted(p, media, more, k);
      && (r.salience < more.salience && r.stance > p.prior ==> q'.prior > q.prior)
      && (r.salience < more.salience && r.stance < p.prior ==> q'.prior < q.prior)
      && (r.share < more.share && q.threshold > 0.01 ==> q'.threshold < q.threshold)
  {
    hide MovedPrior, LoweredThreshold;
    if r.salience < more.salience { MovedFurther(p.prior, r, more, EffectiveWeight(weight)); }
    if r.share < more.share && LoweredThreshold(p.threshold, r.share) > 0.01 {
      LoweredFurther(p.threshold, r.share, more.share);
    }
  }
}
