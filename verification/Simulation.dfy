/** The simulation as one object over the three dynamics; every operation is the one Stories describes.
    The object owns its parts and they share nothing, so an operation on one part leaves the others as they were.
    Longer operations are put together from one method per part. */
module Simulation {
  import opened Common
  import opened Contagion
  import opened Opinion
  import opened Media
  import opened Seeding
  import opened Reactions
  import opened Stories

  ghost function MediaRepr(m: MediaLayer?): set<object> {
    if m == null then {} else m.Repr()
  }

  ghost function ReprOf(s: Contagion, o: OpinionField, m: MediaLayer?): set<object>
    reads s, o
  {
    s.Repr() + o.Repr() + MediaRepr(m)
  }

  /** The parts fit the world and share nothing. */
  ghost predicate Parts(w: World, s: Contagion, o: OpinionField, m: MediaLayer?)
    reads s, o
  {
    && WorldFits(w) && s.Valid(w.net) && s.baseThreshold == w.thresholds && o.Valid(w.net)
    && (m != null ==> m.Valid() && m.score.Length == |w.platforms| && m.exposed.Length == |w.net|)
    && s.Repr() !! o.Repr() && s.Repr() !! MediaRepr(m) && o.Repr() !! MediaRepr(m)
  }

  ghost function ViewOf(m: MediaLayer?): Option<Layer>
    requires m != null ==> m.Valid()
    reads MediaRepr(m)
  {
    if m == null then None else Some(m.View())
  }

  class Sim {
    const w: World
    const spread: Contagion
    var opinions: OpinionField
    const media: MediaLayer?
    var simple: bool
    var tick: nat
    var hour: real

    ghost function Repr(): set<object>
      reads this, spread, opinions
    {
      {this} + ReprOf(spread, opinions, media)
    }

    ghost predicate Valid()
      reads this, spread, opinions
    {
      Parts(w, spread, opinions, media) && this !in ReprOf(spread, opinions, media)
    }

    ghost function View(): (s: State)
      requires Valid()
      reads this, spread, opinions, Repr()
      ensures StateFits(w, s)
    {
      State(spread.View(), simple, opinions.Now(), opinions.y[..], ViewOf(media), tick, hour)
    }

    /** A simulation at its start, put together from its parts. */
    constructor (w: World, s: Contagion, o: OpinionField, m: MediaLayer?)
      requires Parts(w, s, o, m)
      ensures Valid() && this.w == w && Repr() == {this} + ReprOf(s, o, m)
      ensures View() == State(s.View(), false, o.Now(), o.y[..], ViewOf(m), 0, w.startHour)
    {
      hide WorldFits, StateFits;
      this.w, spread, opinions, media := w, s, o, m;
      simple, tick, hour := false, 0, w.startHour;
    }

    // ---------- one part at a time ----------

    method TurnClock(tick: nat, hour: real)
      requires Valid()
      modifies Repr()
      ensures Valid() && Repr() == old(Repr()) && View() == old(View()).(tick := tick, hour := hour)
    {
      hide WorldFits, StateFits;
      this.tick, this.hour := tick, hour;
    }

    /** The feeds' part of a tick. */
    method Feeds() returns (shown: Option<seq<nat>>)
      requires Valid()
      modifies Repr()
      ensures Valid() && Repr() == old(Repr()) && View() == old(View()).(layer := Shown(w, old(View())).0)
      ensures shown == Shown(w, old(View())).1
    {
      hide Media.Advance;
      shown := None;
      if media != null && media.enabled {
        var counts := media.AdvanceLayer(w.platforms, w.audience, w.chance, spread.stage[..], opinions.y[..]);
        shown := Some(counts);
      }
    }

    /** Contagion's part, on what the feeds showed. */
    method Spread(shown: Option<seq<nat>>) returns (total: nat)
      requires Valid() && (shown.Some? ==> |shown.value| == |w.net|)
      modifies Repr()
      ensures Valid() && Repr() == old(Repr()) && (View(), total) == SpreadFrom(w, old(View()), shown)
    {
      hide Round, NewAdopters, WorldFits;
      total := spread.AdvanceWith(w.rule.(simple := simple), w.net, Input(shown, Activity(w, hour)));
    }

    /** Opinion's part, on the feeds as they stand. */
    method Opine() returns (delta: real)
      requires Valid()
      modifies Repr()
      ensures Valid() && Repr() == old(Repr()) && (View(), delta) == OpinedFrom(w, old(View()))
    {
      hide Step, Gap, Pulls;
      var pull: Option<seq<Pull>> := None;
      if media != null {
        pull := media.PullAll(w.platforms, w.audience, opinions.y[..]);
      }
      delta := opinions.StepWith(w.net, pull);
    }

    method Speak(carriers: seq<nat>, stance: real)
      requires Valid() && forall j :: 0 <= j < |carriers| ==> carriers[j] < |w.net|
      modifies Repr()
      ensures Valid() && Repr() == old(Repr())
      ensures var s := old(View());
        View() == s.(field := Pinned(s.field, carriers, stance, |carriers|), y := Spoken(s.y, carriers, stance))
    {
      hide Pinned, WorldFits;
      ghost var was := View();
      var _ := opinions.Broadcast(carriers, stance);
      assert opinions.y[..] == Spoken(was.y, carriers, stance);
    }

    method Ease(difficulty: real)
      requires Valid()
      modifies Repr()
      ensures Valid() && Repr() == old(Repr())
      ensures View() == old(View()).(cascade := Eased(old(View()).cascade, difficulty))
    {
      hide WorldFits, StateFits;
      if difficulty > 0.0 {
        spread.scale := difficulty;
      }
    }

    /** denseStart. */
    method DenseStart(draws: nat -> nat) returns (best: nat)
      requires Valid() && |w.net| > 0
      ensures best == Densest(w.net, w.media, draws, DENSE_DRAWS).0 < |w.net|
      ensures forall k :: 0 <= k < 64 && !w.media[draws(k) % |w.net|] ==>
                |w.net[draws(k) % |w.net|]| <= |w.net[best]| && !w.media[best]
    {
      var bestDeg := -1;
      best := 0;
      for k := 0 to DENSE_DRAWS
        invariant (best, bestDeg) == Densest(w.net, w.media, draws, k)
      {
        var i := draws(k) % |w.net|;
        if !w.media[i] && |w.net[i]| > bestDeg {
          best, bestDeg := i, |w.net[i]|;
        }
      }
      DensestIs(w.net, w.media, draws, DENSE_DRAWS);
    }

    /** The three ways to seed. */
    method Choose(seeds: Seeds) returns (ids: seq<nat>)
      requires Valid() && (|w.net| > 0 || seeds.Everywhere?)
      modifies spread.stage, spread.at
      ensures var c, who := old(spread.View()), WhoOf(w, old(spread.View()), seeds);
        spread.View() == SeedAll(c, who) && ids == Reported(c, who)
    {
      hide SeedAll, Reported, Window, Found, Tried, Densest, Component;
      var k := SeedCount(seeds.size);
      match seeds
      case InRegion(_, draw) =>
        ids := SeedRegion(spread, w.rank, w.order, draw % |w.net|, k);
      case InNetwork(_, draws) =>
        var start := DenseStart(draws);
        ghost var visited;
        ids, visited := SeedCluster(spread, w.net, start, k);
      case Everywhere(_, draws) =>
        ghost var tried;
        ids, tried := SeedScattered(spread, k, draws);
    }

    method Seed(seeds: Seeds) returns (ids: seq<nat>)
      requires Valid() && (|w.net| > 0 || seeds.Everywhere?)
      modifies Repr()
      ensures Valid() && Repr() == old(Repr())
      ensures var c := old(View()).cascade; var who := WhoOf(w, c, seeds);
        View() == old(View()).(cascade := SeedAll(c, who)) && ids == Reported(c, who)
    {
      hide WorldFits, SeedAll, WhoOf, Reported;
      ids := Choose(seeds);
    }

    /** Each broadcaster covers the story or not, by a draw. */
    method Cover(lucks: nat -> real, salience: real) returns (carriers: seq<nat>)
      requires Valid()
      ensures carriers == Carriers(w.media, lucks, salience, |w.net|)
      ensures Valid() && Repr() == old(Repr()) && View() == old(View())
    {
      carriers := [];
      var used := 0;
      for i := 0 to |w.media|
        invariant used == Broadcasters(w.media, i) && carriers == Carriers(w.media, lucks, salience, i)
      {
        if w.media[i] {
          if lucks(used) < salience {
            carriers := carriers + [i];
          }
          used := used + 1;
        }
      }
    }

    method Ignite(salience: real)
      requires Valid()
      modifies Repr()
      ensures Valid() && Repr() == old(Repr())
      ensures View() == old(View()).(layer := IgnitedIn(w, old(View()).layer, salience))
    {
      hide WorldFits, Ignited;
      if media != null {
        media.Ignite(w.platforms, salience);
      }
    }

    method ForgetCascade()
      requires Valid()
      modifies Repr()
      ensures Valid() && Repr() == old(Repr()) && View() == old(View()).(cascade := Fresh(w.thresholds))
    {
      hide WorldFits, Fresh;
      spread.Reset();
    }

    method ForgetFeeds()
      requires Valid()
      modifies Repr()
      ensures Valid() && Repr() == old(Repr()) && View() == old(View()).(layer := ClearedOf(old(View()).layer))
    {
      hide WorldFits, Cleared;
      if media != null {
        media.ResetStory();
      }
    }

    method Rest()
      requires Valid()
      modifies Repr()
      ensures Valid() && forall o :: o in Repr() ==> o in old(Repr()) || fresh(o)
      ensures View() == old(View()).(field := w.beliefs, y := Calm(w))
    {
      hide Calm, StateFits, WorldFits, OpinionField.Valid, Contagion.Valid;
      opinions := CalmField(w);
    }

    // ---------- the operations ----------

    /** One tick. */
    method Advance() returns (newAdopters: nat, delta: real)
      requires Valid()
      modifies Repr()
      ensures Valid() && Repr() == old(Repr())
      ensures View() == Ticked(w, old(View())) && (newAdopters, delta) == Report(w, old(View()))
    {
      hide Valid, View, Repr, Ticked, Report, Shown, SpreadFrom, OpinedFrom;
      ghost var s := View();
      ValidWorld();
      var shown := Feeds();
      ghost var fed := View();
      newAdopters := Spread(shown);
      ghost var spread := View();
      delta := Opine();
      ReportIs(w, s, fed, spread, View(), shown, newAdopters, delta);
      Later(View());
      TurnClock(tick + 1, NextHour(w, hour));
    }

    lemma ValidWorld()
      requires Valid()
      ensures WorldFits(w)
    {
    }

    lemma Later(s: State)
      requires Valid() && s == View()
      ensures s.tick == tick && s.hour == hour
    {
    }

    /** An event; returns the people it made adopters. */
    method Inject(e: Event) returns (ids: seq<nat>)
      requires Valid() && EventFits(w, e)
      modifies Repr()
      ensures Valid() && Repr() == old(Repr()) && View() == Injected(w, old(View()), e)
      ensures ids == Seeded(w, old(View()), e)
    {
      hide Valid, View, Repr, Pinned, Spoken, SeedAll, WhoOf, WorldFits, Eased, IgnitedIn, Carriers, Reported;
      ValidWorld();
      Later(View());
      if e.breaksAt.Some? && w.minutesPerTick > 0.0 {
        TurnClock(tick, WrapHour(e.breaksAt.value));
      }
      var carriers := Cover(e.lucks, e.salience);
      Speak(carriers, e.stance);
      Ease(e.difficulty);
      ids := Seed(e.seeds);
      Ignite(e.salience);
    }

    method Persuade(rx: map<int, Reaction>, weight: real) returns (applied: nat, personas: nat)
      requires Valid()
      modifies Repr()
      ensures Valid() && Repr() == old(Repr()) && SameButPeople(old(View()), View())
      ensures Folded(w, old(View()), View(), rx, weight)
      ensures applied == |rx| && personas == Reached(w, rx)
    {
      hide AllAfter, WorldFits;
      WorldSizes(w);
      applied, personas := Fold(w, opinions.prior, opinions.y, spread.threshold, rx, weight);
    }

    method React(rx: map<int, Reaction>, weight: real) returns (applied: nat, personas: nat)
      requires Valid()
      modifies Repr()
      ensures Valid() && Repr() == old(Repr()) && View() == ReactedTo(w, old(View()), rx, weight)
      ensures applied == |rx| && personas == Reached(w, rx)
    {
      hide Valid, View, Repr, ReactedTo, AllAfter, SameButPeople, WorldFits;
      ghost var was := View();
      ValidWorld();
      WorldSizes(w);
      applied, personas := Persuade(rx, weight);
      ReactedIs(w, was, View(), rx, weight);
    }

    /** Back to before the story, with the expensive graph kept. */
    method Reset()
      requires Valid()
      modifies Repr()
      ensures Valid() && View() == ResetFrom(w, old(View()))
      ensures forall o :: o in Repr() ==> o in old(Repr()) || fresh(o)
    {
      hide Valid, View, Repr, Fresh, ClearedOf, Calm, WorldFits;
      ValidWorld();
      ForgetCascade();
      ForgetFeeds();
      Rest();
      TurnClock(0, w.startHour);
    }

    method SetEnabled(on: bool)
      requires Valid()
      modifies Repr()
      ensures Valid() && Repr() == old(Repr()) && View() == Apply(w, old(View()), Switch(on))
    {
      hide Switched, WorldFits;
      if media != null {
        media.SetEnabled(on);
      }
    }

    method SetMode(simple: bool)
      requires Valid()
      modifies Repr()
      ensures Valid() && Repr() == old(Repr()) && View() == Apply(w, old(View()), Mode(simple))
    {
      hide WorldFits;
      this.simple := simple;
    }
  }

  method Fold(w: World, prior: array<real>, y: array<real>, threshold: array<real>,
              rx: map<int, Reaction>, weight: real)
    returns (applied: nat, personas: nat)
    requires prior.Length == y.Length == threshold.Length == |w.arch| == |w.media|
    requires prior != y && prior != threshold && y != threshold
    modifies prior, y, threshold
    ensures People(prior[..], y[..], threshold[..])
         == AllAfter(w, old(People(prior[..], y[..], threshold[..])), rx, weight)
    ensures applied == |rx| && personas == Reached(w, rx)
  {
    hide After;
    applied, personas := ApplyReactions(prior, y, threshold, w.arch, w.media, rx, weight);
  }

  method NewParts(w: World) returns (s: Contagion, o: OpinionField, m: MediaLayer?)
    requires WorldFits(w)
    ensures Parts(w, s, o, m) && fresh(ReprOf(s, o, m))
    ensures s.View() == Fresh(w.thresholds) && o.Now() == w.beliefs && o.y[..] == Calm(w)
    ensures ViewOf(m) == NewLayerOf(w)
  {
    hide WorldFits, Fresh, NewLayer, Calm, ValidNet;
    WorldSizes(w);
    s := new Contagion(w.thresholds);
    o := CalmField(w);
    m := NewFeeds(w);
  }

  /** New: the field is at rest before anything happens. */
  method New(w: World) returns (sim: Sim)
    requires WorldFits(w)
    ensures sim.w == w && sim.Valid() && sim.View() == Start(w) && fresh(sim.Repr())
  {
    hide WorldFits, StateFits, Fresh, NewLayerOf, Calm, ReprOf, Parts;
    var s, o, m := NewParts(w);
    hide Sim.Valid, Sim.Repr;
    sim := new Sim(w, s, o, m);
  }

  /** The media layer, if the world has platforms. */
  method NewFeeds(w: World) returns (m: MediaLayer?)
    ensures m == null <==> |w.platforms| == 0
    ensures m != null ==> m.Valid() && fresh(m.Repr()) && m.View() == NewLayer(|w.platforms|, |w.net|)
    ensures m != null ==> m.score.Length == |w.platforms| && m.exposed.Length == |w.net|
  {
    m := null;
    if |w.platforms| > 0 {
      m := new MediaLayer(|w.platforms|, |w.net|);
    }
  }

  /** NewOpinion and settle. */
  method CalmField(w: World) returns (o: OpinionField)
    requires WorldFits(w)
    ensures o.Valid(w.net) && fresh(o.Repr()) && o.Now() == w.beliefs && o.y[..] == Calm(w)
  {
    hide Settle;
    o := new OpinionField(w.beliefs);
    var _, _ := o.SettleTo(w.net, SETTLE_ROUNDS, SETTLE_TOLERANCE, 0.0);
  }
}
