/** Whole stories: what a tick, an event, a reaction and a reset do to everything at once, and what survives a run. */
module Stories {
  import opened Common
  import opened Contagion
  import opened Opinion
  import opened Media
  import opened Seeding
  import opened SpatialOrder
  import opened Reactions
  import Spread = Contagion
  import CascadeTheorems

  /** What never changes: the population, its graph, its drawn thresholds and beliefs, the platforms and the clock's
      settings.  curve gives a person's chance of being awake at an hour; a clock of 0 minutes a tick is off. */
  datatype World = World(net: Net, rank: seq<nat>, order: seq<nat>, arch: seq<int>, media: seq<bool>,
                         rule: Rule, thresholds: seq<real>, beliefs: Field,
                         platforms: seq<Platform>, audience: Audience, chance: Chance,
                         minutesPerTick: real, startHour: real, curve: (real, nat) -> real)

  ghost predicate WorldFits(w: World) {
    var n := |w.net|;
    && ValidNet(w.net) && |w.rank| == |w.order| == |w.arch| == |w.media| == |w.thresholds| == n
    && Inverse(w.rank, w.order)
    && |w.beliefs.prior| == |w.beliefs.lambda| == n && |w.audience.member| == |w.audience.weight| == n
    && forall i :: 0 <= i < n ==> |w.audience.member[i]| == |w.platforms|
  }

  /** Everything a story can change.  layer is None when the world was built without platforms. */
  datatype State = State(cascade: Cascade, simple: bool, field: Field, y: seq<real>, layer: Option<Layer>,
                         tick: nat, hour: real)

  ghost predicate StateFits(w: World, s: State) {
    var n := |w.net|;
    && |s.cascade.stage| == |s.cascade.at| == |s.cascade.fed| == |s.cascade.threshold| == n
    && |s.field.prior| == |s.field.lambda| == |s.y| == n
    && (s.layer.Some? ==> |s.layer.value.channels| == |w.platforms| && |s.layer.value.exposed| == n)
  }

  /** Where a story starts, with the draws that seeding makes. */
  datatype Seeds = InRegion(size: int, draw: nat) | InNetwork(size: int, draws: nat -> nat)
                 | Everywhere(size: int, draws: nat -> nat)

  /** lucks are the draws that decide which broadcasters cover the story. */
  datatype Event = Event(lucks: nat -> real, stance: real, salience: real, difficulty: real, seeds: Seeds,
                         breaksAt: Option<real>)

  datatype Op = Tick | Inject(event: Event) | React(rx: map<int, Reaction>, weight: real) | Reset
              | Switch(on: bool) | Mode(simple: bool)

  /** Two of the seeders reduce a draw modulo the population. */
  ghost predicate EventFits(w: World, e: Event) {
    |w.net| > 0 || e.seeds.Everywhere?
  }

  ghost predicate OpFits(w: World, op: Op) {
    op.Inject? ==> EventFits(w, op.event)
  }

  const SETTLE_ROUNDS := 300
  const SETTLE_TOLERANCE := 0.00001
  const DEFAULT_SEEDS := 64

  // ---------- the operations ----------

  function WrapHour(h: real): (r: real)
    ensures 0.0 <= r < 24.0
  {
    h - 24.0 * (h / 24.0).Floor as real
  }

  function SeedCount(size: int): nat {
    if size <= 0 then DEFAULT_SEEDS else size
  }

  ghost function Calm(w: World): (y: seq<real>)
    requires WorldFits(w)
    ensures |y| == |w.net|
  {
    SettleSize(w.net, w.beliefs, w.beliefs.prior, SETTLE_ROUNDS, SETTLE_TOLERANCE, 0.0);
    Settle(w.net, w.beliefs, w.beliefs.prior, SETTLE_ROUNDS, SETTLE_TOLERANCE, 0.0).y
  }

  lemma WorldSizes(w: World)
    requires WorldFits(w)
    ensures ValidNet(w.net) && |w.thresholds| == |w.beliefs.prior| == |w.beliefs.lambda| == |w.net|
    ensures |w.arch| == |w.media| == |w.net|
  {
  }

  lemma {:induction false} SettleSize(net: Net, f: Field, y: seq<real>, maxRounds: nat, tol: real, d: real)
    requires Opinion.Fits(net, f, y, None)
    ensures |Settle(net, f, y, maxRounds, tol, d).y| == |net|
    decreases maxRounds
  {
    hide Gap, Step;
    if maxRounds > 0 {
      var z := Step(net, f, y, None);
      var e := Gap(y, z, |net|);
      if !(e < tol) { SettleSize(net, f, z, maxRounds - 1, tol, e); }
    }
  }

  /** A world nothing has happened in. */
  ghost function Start(w: World): (s: State)
    requires WorldFits(w)
    ensures StateFits(w, s)
  {
    State(Fresh(w.thresholds), false, w.beliefs, Calm(w), NewLayerOf(w), 0, w.startHour)
  }

  ghost function NewLayerOf(w: World): (l: Option<Layer>)
    ensures l.Some? <==> |w.platforms| > 0
    ensures l.Some? ==> |l.value.channels| == |w.platforms| && |l.value.exposed| == |w.net| && l.value.enabled
  {
    if |w.platforms| > 0 then Some(NewLayer(|w.platforms|, |w.net|)) else None
  }

  function RuleOf(w: World, s: State): Rule { w.rule.(simple := s.simple) }

  function Activity(w: World, hour: real): Option<seq<real>> {
    if w.minutesPerTick > 0.0 then Some(seq(|w.net|, i requires 0 <= i < |w.net| => w.curve(hour, i))) else None
  }

  function NextHour(w: World, hour: real): real {
    if w.minutesPerTick > 0.0 then WrapHour(hour + w.minutesPerTick / 60.0) else hour
  }

  /** The feeds' part of a tick; a layer that is missing or off contributes nothing at all. */
  ghost function Shown(w: World, s: State): (r: (Option<Layer>, Option<seq<nat>>))
    requires WorldFits(w) && StateFits(w, s)
    ensures r.0.Some? == s.layer.Some? && (r.0.Some? ==> Fit(w.platforms, w.audience, r.0.value))
    ensures r.1.Some? ==> |r.1.value| == |w.net|
  {
    if s.layer.Some? && s.layer.value.enabled then
      var (l, shown) := Media.Advance(w.platforms, w.audience, w.chance, s.layer.value, s.cascade.stage, s.y);
      (Some(l), Some(shown))
    else (s.layer, None)
  }

  ghost function PullsOf(w: World, layer: Option<Layer>, y: seq<real>): (p: Option<seq<Pull>>)
    requires WorldFits(w) && |y| == |w.net| && (layer.Some? ==> Fit(w.platforms, w.audience, layer.value))
    ensures p.Some? ==> |p.value| == |w.net|
  {
    if layer.Some? then Pulls(w.platforms, w.audience, layer.value, y) else None
  }

  /** A tick: the feeds read the last tick's state, contagion takes what they showed, opinion moves last. */
  ghost function Ticked(w: World, s: State): (t: State)
    requires WorldFits(w) && StateFits(w, s)
    ensures StateFits(w, t)
  {
    var (layer, shown) := Shown(w, s);
    s.(cascade := Round(RuleOf(w, s), w.net, s.cascade, Input(shown, Activity(w, s.hour))),
       y := Step(w.net, s.field, s.y, PullsOf(w, layer, s.y)),
       layer := layer, tick := s.tick + 1, hour := NextHour(w, s.hour))
  }

  /** What a tick reports: how many adopted, and the largest move of an opinion. */
  ghost function Report(w: World, s: State): (nat, real)
    requires WorldFits(w) && StateFits(w, s)
  {
    (NewAdopters(RuleOf(w, s), w.net, s.cascade, Input(Shown(w, s).1, Activity(w, s.hour))),
     Gap(s.y, Ticked(w, s).y, |w.net|))
  }

  lemma ReportIs(w: World, s: State, fed: State, spread: State, moved: State, shown: Option<seq<nat>>,
                 n: nat, d: real)
    requires WorldFits(w) && StateFits(w, s) && StateFits(w, fed) && StateFits(w, spread) && StateFits(w, moved)
    requires fed == s.(layer := Shown(w, s).0) && shown == Shown(w, s).1
    requires SpreadFrom(w, fed, shown) == (spread, n) && OpinedFrom(w, spread) == (moved, d)
    ensures moved.(tick := moved.tick + 1, hour := NextHour(w, moved.hour)) == Ticked(w, s) && (n, d) == Report(w, s)
  {
    hide Round, Step, Gap, NewAdopters, Shown, PullsOf;
  }

  ghost function SpreadFrom(w: World, s: State, shown: Option<seq<nat>>): (r: (State, nat))
    requires WorldFits(w) && StateFits(w, s) && (shown.Some? ==> |shown.value| == |w.net|)
  {
    var x := Input(shown, Activity(w, s.hour));
    (s.(cascade := Round(RuleOf(w, s), w.net, s.cascade, x)), NewAdopters(RuleOf(w, s), w.net, s.cascade, x))
  }

  ghost function OpinedFrom(w: World, s: State): (r: (State, real))
    requires WorldFits(w) && StateFits(w, s)
  {
    var y := Step(w.net, s.field, s.y, PullsOf(w, s.layer, s.y));
    (s.(y := y), Gap(s.y, y, |w.net|))
  }

  /** Broadcasters among the first m people. */
  ghost function Broadcasters(media: seq<bool>, m: nat): (b: nat)
    requires m <= |media|
  {
    if m == 0 then 0 else Broadcasters(media, m - 1) + if media[m - 1] then 1 else 0
  }

  /** Those of them that cover a story of this salience, each by a draw of their own. */
  ghost function Carriers(media: seq<bool>, lucks: nat -> real, salience: real, m: nat): (ids: seq<nat>)
    requires m <= |media|
    ensures forall j :: 0 <= j < |ids| ==> ids[j] < m && media[ids[j]]
  {
    if m == 0 then []
    else
      var before := Carriers(media, lucks, salience, m - 1);
      if media[m - 1] && lucks(Broadcasters(media, m - 1)) < salience then before + [m - 1] else before
  }

  /** The best-connected ordinary person of the first m drawn, and their degree; person 0 and -1 before any. */
  ghost function Densest(net: Net, media: seq<bool>, draws: nat -> nat, m: nat): (r: (nat, int))
    requires |net| == |media| > 0
    ensures r.0 < |net|
  {
    if m == 0 then (0, -1)
    else
      var best, i := Densest(net, media, draws, m - 1), draws(m - 1) % |net|;
      if !media[i] && |net[i]| > best.1 then (i, |net[i]|) else best
  }

  /** It is one of the ordinary people drawn, of the largest degree among them; person 0 if none was drawn. */
  lemma {:induction false} DensestIs(net: Net, media: seq<bool>, draws: nat -> nat, m: nat)
    requires |net| == |media| > 0
    ensures var (best, deg) := Densest(net, media, draws, m);
      && (forall k :: 0 <= k < m && !media[draws(k) % |net|] ==> |net[draws(k) % |net|]| <= deg)
      && (if deg < 0 then best == 0
          else deg == |net[best]| && !media[best] && exists k :: 0 <= k < m && draws(k) % |net| == best)
  {
    if m > 0 {
      DensestIs(net, media, draws, m - 1);
      var (best, deg) := Densest(net, media, draws, m - 1);
      var i := draws(m - 1) % |net|;
      if !media[i] && |net[i]| > deg {
        assert draws(m - 1) % |net| == i;
      } else if deg >= 0 {
        var k :| 0 <= k < m - 1 && draws(k) % |net| == best;
        assert 0 <= k < m;
      }
    }
  }

  const DENSE_DRAWS := 64

  /** Whom a seeding approaches. */
  ghost function WhoOf(w: World, c: Cascade, seeds: Seeds): seq<nat>
    requires WorldFits(w) && |c.stage| == |c.at| == |w.net| && (|w.net| > 0 || seeds.Everywhere?)
  {
    var n, k := |w.net|, SeedCount(seeds.size);
    match seeds
    case InRegion(_, draw) => Window(w.rank, w.order, draw % n, if k > n then n else k)
    case InNetwork(_, draws) => Found(c, w.net, Densest(w.net, w.media, draws, DENSE_DRAWS).0, k, n)
    case Everywhere(_, draws) => Tried(c, k, draws, 20 * k + 1000)
  }

  /** What an event reports: the people it made adopters. */
  ghost function Seeded(w: World, s: State, e: Event): seq<nat>
    requires WorldFits(w) && StateFits(w, s) && EventFits(w, e)
  {
    var scaled := Eased(s.cascade, e.difficulty);
    Reported(scaled, WhoOf(w, scaled, e.seeds))
  }

  function Spoken(y: seq<real>, carriers: seq<nat>, stance: real): (z: seq<real>)
    ensures |z| == |y|
  {
    seq(|y|, i requires 0 <= i < |y| => if i in carriers then stance else y[i])
  }

  function Eased(c: Cascade, difficulty: real): Cascade {
    if difficulty > 0.0 then c.(scale := difficulty) else c
  }

  /** A story breaks: broadcasters are pinned, the story's difficulty is set, seeds adopt, the platforms pick it up. */
  ghost function Injected(w: World, s: State, e: Event): (t: State)
    requires WorldFits(w) && StateFits(w, s) && EventFits(w, e)
    ensures StateFits(w, t)
  {
    var scaled := Eased(s.cascade, e.difficulty);
    var carriers := Carriers(w.media, e.lucks, e.salience, |w.net|);
    var who := WhoOf(w, scaled, e.seeds);
    SeedAllKeeps(scaled, who);
    s.(cascade := SeedAll(scaled, who),
       field := Pinned(s.field, carriers, e.stance, |carriers|),
       y := Spoken(s.y, carriers, e.stance),
       layer := IgnitedIn(w, s.layer, e.salience),
       hour := if e.breaksAt.Some? && w.minutesPerTick > 0.0 then WrapHour(e.breaksAt.value) else s.hour)
  }

  ghost function IgnitedIn(w: World, layer: Option<Layer>, salience: real): (l: Option<Layer>)
    requires layer.Some? ==> |layer.value.channels| == |w.platforms|
    ensures l.Some? == layer.Some?
  {
    if layer.Some? then Some(Ignited(w.platforms, layer.value, salience)) else None
  }

  ghost function ClearedOf(layer: Option<Layer>): (l: Option<Layer>) {
    if layer.Some? then Some(Cleared(layer.value)) else None
  }

  lemma {:induction false} SeedAllKeeps(c: Cascade, who: seq<nat>)
    requires |c.stage| == |c.at|
    ensures var d := SeedAll(c, who); d.fed == c.fed && d.threshold == c.threshold && d.scale == c.scale
    decreases |who|
  {
    if |who| > 0 { SeedAllKeeps(c, who[..|who| - 1]); }
  }

  ghost function PeopleOf(s: State): seq<Person>
    requires |s.field.prior| == |s.y| == |s.cascade.threshold|
  {
    People(s.field.prior, s.y, s.cascade.threshold)
  }

  ghost function AllAfter(w: World, ps: seq<Person>, rx: map<int, Reaction>, weight: real): (qs: seq<Person>)
    requires |ps| == |w.arch| == |w.media|
    ensures |qs| == |ps|
  {
    seq(|ps|, i requires 0 <= i < |ps| => After(ps, w.arch, w.media, rx, weight, i))
  }

  ghost function ReactedTo(w: World, s: State, rx: map<int, Reaction>, weight: real): (t: State)
    requires WorldFits(w) && StateFits(w, s)
    ensures StateFits(w, t)
  {
    var qs := AllAfter(w, PeopleOf(s), rx, weight);
    s.(cascade := s.cascade.(threshold := seq(|qs|, i requires 0 <= i < |qs| => qs[i].threshold)),
       field := s.field.(prior := seq(|qs|, i requires 0 <= i < |qs| => qs[i].prior)),
       y := seq(|qs|, i requires 0 <= i < |qs| => qs[i].y))
  }

  /** Nothing differs but what reactions write. */
  ghost predicate SameButPeople(s: State, t: State) {
    t == s.(cascade := s.cascade.(threshold := t.cascade.threshold), field := s.field.(prior := t.field.prior),
            y := t.y)
  }

  ghost predicate Folded(w: World, s: State, t: State, rx: map<int, Reaction>, weight: real) {
    && |w.arch| == |w.media| == |s.field.prior| == |s.y| == |s.cascade.threshold|
    && |t.field.prior| == |t.y| == |t.cascade.threshold|
    && PeopleOf(t) == AllAfter(w, PeopleOf(s), rx, weight)
  }

  ghost function Reached(w: World, rx: map<int, Reaction>): nat {
    Touched(w.arch, rx, |w.arch|)
  }

  lemma ReactedIs(w: World, s: State, t: State, rx: map<int, Reaction>, weight: real)
    requires WorldFits(w) && StateFits(w, s) && StateFits(w, t) && SameButPeople(s, t)
    requires Folded(w, s, t, rx, weight)
    ensures t == ReactedTo(w, s, rx, weight)
  {
    hide AllAfter, WorldFits;
    WorldSizes(w);
    PeopleApart(t.field.prior, t.y, t.cascade.threshold, AllAfter(w, PeopleOf(s), rx, weight));
  }

  lemma PeopleApart(prior: seq<real>, y: seq<real>, threshold: seq<real>, qs: seq<Person>)
    requires |prior| == |y| == |threshold| && People(prior, y, threshold) == qs
    ensures prior == seq(|qs|, i requires 0 <= i < |qs| => qs[i].prior)
    ensures y == seq(|qs|, i requires 0 <= i < |qs| => qs[i].y)
    ensures threshold == seq(|qs|, i requires 0 <= i < |qs| => qs[i].threshold)
  {
    forall i | 0 <= i < |qs| ensures prior[i] == qs[i].prior && y[i] == qs[i].y && threshold[i] == qs[i].threshold {
      assert qs[i] == People(prior, y, threshold)[i];
    }
  }

  /** The media switch and the transmission mode are settings, not story state: a reset leaves them. */
  ghost function ResetFrom(w: World, s: State): (t: State)
    requires WorldFits(w) && StateFits(w, s)
    ensures StateFits(w, t)
  {
    State(Fresh(w.thresholds), s.simple, w.beliefs, Calm(w),
          ClearedOf(s.layer), 0, w.startHour)
  }

  ghost function Apply(w: World, s: State, op: Op): (t: State)
    requires WorldFits(w) && StateFits(w, s) && OpFits(w, op)
    ensures StateFits(w, t)
  {
    match op
    case Tick => Ticked(w, s)
    case Inject(e) => Injected(w, s, e)
    case React(rx, weight) => ReactedTo(w, s, rx, weight)
    case Reset => ResetFrom(w, s)
    case Switch(on) => s.(layer := if s.layer.Some? then Some(Switched(s.layer.value, on)) else None)
    case Mode(simple) => s.(simple := simple)
  }

  ghost predicate OpsFit(w: World, ops: seq<Op>) {
    forall k :: 0 <= k < |ops| ==> OpFits(w, ops[k])
  }

  ghost function History(w: World, s: State, ops: seq<Op>): (t: State)
    requires WorldFits(w) && StateFits(w, s) && OpsFit(w, ops)
    ensures StateFits(w, t)
    decreases |ops|
  {
    if |ops| == 0 then s else Apply(w, History(w, s, ops[..|ops| - 1]), ops[|ops| - 1])
  }

  lemma {:induction false} HistorySplits(w: World, s: State, before: seq<Op>, after: seq<Op>)
    requires WorldFits(w) && StateFits(w, s) && OpsFit(w, before) && OpsFit(w, after)
    ensures OpsFit(w, before + after)
    ensures History(w, s, before + after) == History(w, History(w, s, before), after)
    decreases |after|
  {
    hide Apply;
    if |after| == 0 {
      assert before + after == before;
    } else {
      HistorySplits(w, s, before, after[..|after| - 1]);
      assert (before + after)[..|before + after| - 1] == before + after[..|after| - 1];
    }
  }

  // ---------- a reset erases the story ----------

  ghost predicate OutOfTheBox(s: State) {
    !s.simple && (s.layer.Some? ==> s.layer.value.enabled)
  }

  /** The layer exists in every state a world reaches, or in none; and without a change of switch or mode both are
      as built. */
  lemma {:induction false} SettingsStay(w: World, ops: seq<Op>)
    requires WorldFits(w) && OpsFit(w, ops)
    ensures History(w, Start(w), ops).layer.Some? <==> |w.platforms| > 0
    ensures (forall k :: 0 <= k < |ops| ==> !ops[k].Switch? && !ops[k].Mode?) ==> OutOfTheBox(History(w, Start(w), ops))
    decreases |ops|
  {
    if |ops| > 0 { SettingsStay(w, ops[..|ops| - 1]); }
  }

  /** After any history, a reset gives back the world nothing has happened in exactly when the switch and the mode
      are as that world has them; nothing else a story did can show. */
  lemma ResetIsStartExactlyWhen(w: World, ops: seq<Op>)
    requires WorldFits(w) && OpsFit(w, ops)
    ensures var s := History(w, Start(w), ops); ResetFrom(w, s) == Start(w) <==> OutOfTheBox(s)
  {
    hide History, Calm, Fresh;
    SettingsStay(w, ops);
  }

  lemma HistoryOfOne(w: World, s: State, op: Op)
    requires WorldFits(w) && StateFits(w, s) && OpFits(w, op)
    ensures OpsFit(w, [op]) && History(w, s, [op]) == Apply(w, s, op)
    ensures op == Reset ==> Apply(w, s, op) == ResetFrom(w, s)
  {
    hide Ticked, Injected, ReactedTo, ResetFrom;
    assert [op][..0] == [];
    assert History(w, s, [op][..0]) == s;
  }

  /** So a story told after a reset is the story told in a new world, whatever was told before. */
  lemma ResetErases(w: World, before: seq<Op>, story: seq<Op>)
    requires WorldFits(w) && OpsFit(w, before) && OpsFit(w, story)
    requires forall k :: 0 <= k < |before| ==> !before[k].Switch? && !before[k].Mode?
    ensures OpsFit(w, before + [Reset] + story)
    ensures History(w, Start(w), before + [Reset] + story) == History(w, Start(w), story)
  {
    hide History, Apply, Start, OutOfTheBox, StateFits, WorldFits;
    SettingsStay(w, before);
    ResetIsStartExactlyWhen(w, before);
    HistorySplits(w, Start(w), before, [Reset]);
    HistoryOfOne(w, History(w, Start(w), before), Reset);
    HistorySplits(w, Start(w), before + [Reset], story);
  }

  // ---------- a layer that is off, and a layer that cannot confirm ----------

  ghost predicate SameButLayer(s: State, t: State) {
    s.(layer := None) == t.(layer := None)
  }

  ghost predicate OffOrNone(s: State) {
    s.layer.Some? ==> !s.layer.value.enabled
  }

  lemma TickWithoutFeeds(w: World, s: State, t: State)
    requires WorldFits(w) && StateFits(w, s) && StateFits(w, t) && SameButLayer(s, t) && OffOrNone(s) && OffOrNone(t)
    ensures SameButLayer(Ticked(w, s), Ticked(w, t)) && OffOrNone(Ticked(w, s))
  {
    hide Round, Step;
  }

  /** While a layer stays off, every run is at every moment the run of a world that has none. */
  lemma {:induction false} OffIsAbsent(w: World, s: State, ops: seq<Op>)
    requires WorldFits(w) && StateFits(w, s) && OpsFit(w, ops) && OffOrNone(s)
    requires forall k :: 0 <= k < |ops| ==> ops[k] != Switch(true)
    ensures StateFits(w, s.(layer := None))
    ensures SameButLayer(History(w, s, ops), History(w, s.(layer := None), ops)) && OffOrNone(History(w, s, ops))
    ensures History(w, s.(layer := None), ops).layer == None
    decreases |ops|
  {
    if |ops| > 0 {
      var init, op := ops[..|ops| - 1], ops[|ops| - 1];
      OffIsAbsent(w, s, init);
      var a, b := History(w, s, init), History(w, s.(layer := None), init);
      hide History;
      if op.Tick? {
        TickWithoutFeeds(w, a, b);
      } else {
        OtherOpsIgnoreLayer(w, a, b, op);
      }
    }
  }

  lemma OtherOpsIgnoreLayer(w: World, s: State, t: State, op: Op)
    requires WorldFits(w) && StateFits(w, s) && StateFits(w, t) && SameButLayer(s, t) && OpFits(w, op) && !op.Tick?
    ensures SameButLayer(Apply(w, s, op), Apply(w, t, op))
    ensures OffOrNone(s) && op != Switch(true) ==> OffOrNone(Apply(w, s, op))
    ensures t.layer == None ==> Apply(w, t, op).layer == None
  {
    hide SeedAll, Calm, Pinned, WhoOf, AllAfter, Fresh, Carriers;
  }

  /** The part of a state that is not about beliefs or feeds. */
  ghost predicate SameSpread(s: State, t: State) {
    s.cascade == t.cascade && s.simple == t.simple && s.tick == t.tick && s.hour == t.hour
  }

  lemma TickOfClosedPlatform(w: World, s: State, t: State)
    requires WorldFits(w) && StateFits(w, s) && StateFits(w, t) && SameSpread(s, t) && t.layer == None
    requires |w.platforms| == 1 && w.platforms[0].closed
    ensures SameSpread(Ticked(w, s), Ticked(w, t)) && Ticked(w, t).layer == None
  {
    hide Round, Step, Media.Advance;
    if s.layer.Some? && s.layer.value.enabled {
      assert w.platforms == [w.platforms[0]];
      ClosedChannelConfirmsNothing(w.platforms[0], w.audience, w.chance, s.layer.value, s.cascade.stage, s.y);
      var shown := Shown(w, s).1.value;
      CascadeTheorems.SilentFeedsAreNone(RuleOf(w, s), w.net, s.cascade, shown, Activity(w, s.hour));
    }
  }

  lemma ReactionsToThresholds(w: World, s: State, t: State, rx: map<int, Reaction>, weight: real)
    requires WorldFits(w) && StateFits(w, s) && StateFits(w, t) && s.cascade == t.cascade
    ensures ReactedTo(w, s, rx, weight).cascade == ReactedTo(w, t, rx, weight).cascade
  {
    var p, q := AllAfter(w, PeopleOf(s), rx, weight), AllAfter(w, PeopleOf(t), rx, weight);
    hide MovedPrior, LoweredThreshold;
    forall i | 0 <= i < |p| ensures p[i].threshold == q[i].threshold {
      assert PeopleOf(s)[i].threshold == PeopleOf(t)[i].threshold;
    }
    assert ReactedTo(w, s, rx, weight).cascade.threshold == ReactedTo(w, t, rx, weight).cascade.threshold;
  }

  lemma OtherOpsKeepSpread(w: World, s: State, t: State, op: Op)
    requires WorldFits(w) && StateFits(w, s) && StateFits(w, t) && SameSpread(s, t) && OpFits(w, op) && !op.Tick?
    requires t.layer == None
    ensures SameSpread(Apply(w, s, op), Apply(w, t, op)) && Apply(w, t, op).layer == None
  {
    hide SeedAll, Calm, Pinned, WhoOf, AllAfter, Fresh, Carriers;
    if op.React? { ReactionsToThresholds(w, s, t, op.rx, op.weight); }
  }

  /** A world whose only platform is a closed one spreads every story exactly as peer ties alone do, tick by tick,
      through any run, though it may move opinions. */
  lemma {:induction false} ClosedPlatformIsPeersOnly(w: World, s: State, ops: seq<Op>)
    requires WorldFits(w) && StateFits(w, s) && OpsFit(w, ops)
    requires |w.platforms| == 1 && w.platforms[0].closed
    ensures StateFits(w, s.(layer := None))
    ensures SameSpread(History(w, s, ops), History(w, s.(layer := None), ops))
    ensures History(w, s.(layer := None), ops).layer == None
    decreases |ops|
  {
    if |ops| > 0 {
      var init, op := ops[..|ops| - 1], ops[|ops| - 1];
      ClosedPlatformIsPeersOnly(w, s, init);
      var a, b := History(w, s, init), History(w, s.(layer := None), init);
      hide History;
      if op.Tick? {
        TickOfClosedPlatform(w, a, b);
      } else {
        OtherOpsKeepSpread(w, a, b, op);
      }
    }
  }

  // ---------- ranges through whole runs ----------

  ghost predicate Thresholds(t: seq<real>) {
    forall i :: 0 <= i < |t| ==> 0.01 <= t[i] <= 1.0
  }

  /** What the draws, the configuration and the model's reactions promise. */
  ghost predicate SaneWorld(w: World) {
    && WorldFits(w) && InRange(w.beliefs.prior) && Susceptible(w.beliefs.lambda, 0.8) && Thresholds(w.thresholds)
    && SaneP(w.platforms) && Weighs(w.audience)
  }

  ghost predicate SaneOp(op: Op) {
    match op
    case Inject(e) => -1.0 <= e.stance <= 1.0
    case React(rx, _) => forall a :: a in rx ==> SaneReaction(rx[a])
    case _ => true
  }

  ghost predicate SaneState(s: State) {
    && InRange(s.y) && InRange(s.field.prior) && Susceptible(s.field.lambda, 0.8) && Thresholds(s.cascade.threshold)
    && (s.layer.Some? ==> Sane(s.layer.value))
  }

  lemma SusceptibleIsShares(lambda: seq<real>)
    requires Susceptible(lambda, 0.8)
    ensures Shares(lambda)
  {
  }

  lemma {:induction false} SettleInRange(net: Net, f: Field, y: seq<real>, maxRounds: nat, tol: real, d: real)
    requires Opinion.Fits(net, f, y, None) && InRange(y) && InRange(f.prior) && Shares(f.lambda)
    ensures InRange(Settle(net, f, y, maxRounds, tol, d).y)
    decreases maxRounds
  {
    hide Gap, Step;
    if maxRounds > 0 {
      var z := Step(net, f, y, None);
      var e := Gap(y, z, |net|);
      StepInRange(net, f, y, None);
      if !(e < tol) { SettleInRange(net, f, z, maxRounds - 1, tol, e); }
    }
  }

  lemma CalmInRange(w: World)
    requires SaneWorld(w)
    ensures InRange(Calm(w))
  {
    hide Settle, InRange, Shares, Susceptible;
    SusceptibleIsShares(w.beliefs.lambda);
    SettleInRange(w.net, w.beliefs, w.beliefs.prior, SETTLE_ROUNDS, SETTLE_TOLERANCE, 0.0);
  }

  lemma TickIsSane(w: World, s: State)
    requires SaneWorld(w) && StateFits(w, s) && SaneState(s)
    ensures SaneState(Ticked(w, s))
  {
    hide Round, Step, Media.Advance, InRange, Shares, Susceptible, Thresholds, Sane, SaneP, Weighs, Pulls;
    SusceptibleIsShares(s.field.lambda);
    if s.layer.Some? && s.layer.value.enabled {
      AdvanceSane(w.platforms, w.audience, w.chance, s.layer.value, s.cascade.stage, s.y);
    }
    var layer := Shown(w, s).0;
    if layer.Some? { PullsSane(w, layer.value, s.y); }
    StepInRange(w.net, s.field, s.y, PullsOf(w, layer, s.y));
    RoundKeepsThresholds(RuleOf(w, s), w.net, s.cascade, Input(Shown(w, s).1, Activity(w, s.hour)));
  }

  lemma RoundKeepsThresholds(r: Rule, net: Net, c: Cascade, x: Input)
    requires Spread.Fits(net, c, x)
    ensures Round(r, net, c, x).threshold == c.threshold
  {
  }

  lemma PullsSane(w: World, l: Layer, y: seq<real>)
    requires SaneWorld(w) && Fit(w.platforms, w.audience, l) && Sane(l) && |y| == |w.net| && InRange(y)
    ensures var p := Pulls(w.platforms, w.audience, l, y);
      p.Some? ==> forall i :: 0 <= i < |w.net| ==> -1.0 <= p.value[i].mean <= 1.0
  {
    hide FeedPull, SaneP, Sane, Quiet;
    if Live(l) {
      forall i | 0 <= i < |y| ensures -1.0 <= FeedPull(w.platforms, w.audience, l, y[i], i).mean <= 1.0 {
        FeedPullSane(w.platforms, w.audience, l, y[i], i);
      }
    }
  }

  lemma InjectIsSane(w: World, s: State, e: Event)
    requires SaneWorld(w) && StateFits(w, s) && EventFits(w, e) && SaneState(s) && -1.0 <= e.stance <= 1.0
    ensures SaneState(Injected(w, s, e))
  {
    hide SeedAll, WhoOf, Pinned, Sane, SaneP, Weighs, Ignited, Carriers;
    PinningInRange(s.field, Carriers(w.media, e.lucks, e.salience, |w.net|), e.stance, 0.8);
    var scaled := Eased(s.cascade, e.difficulty);
    SeedAllKeeps(scaled, WhoOf(w, scaled, e.seeds));
    if s.layer.Some? { StoryStateSane(w.platforms, s.layer.value, e.salience, true); }
  }

  lemma ReactIsSane(w: World, s: State, rx: map<int, Reaction>, weight: real)
    requires SaneWorld(w) && StateFits(w, s) && SaneState(s) && forall a :: a in rx ==> SaneReaction(rx[a])
    ensures SaneState(ReactedTo(w, s, rx, weight))
  {
    hide After, Sane, SaneP, Weighs;
    var qs := AllAfter(w, PeopleOf(s), rx, weight);
    forall i | 0 <= i < |qs| ensures SanePerson(qs[i]) {
      PopulationStaysSane(PeopleOf(s), w.arch, w.media, rx, weight, i);
    }
  }

  /** Whatever happens to a world in range, it stays in range: opinions, priors and feed means in [-1, 1],
      susceptibilities in [0, 0.8], scores and presence in [0, 1], thresholds in [0.01, 1]. */
  lemma {:induction false} HistoryIsSane(w: World, ops: seq<Op>)
    requires SaneWorld(w) && OpsFit(w, ops) && forall k :: 0 <= k < |ops| ==> SaneOp(ops[k])
    ensures SaneState(History(w, Start(w), ops))
    decreases |ops|
  {
    if |ops| == 0 {
      StartIsSane(w);
    } else {
      var init := ops[..|ops| - 1];
      HistoryIsSane(w, init);
      hide History;
      ApplyIsSane(w, History(w, Start(w), init), ops[|ops| - 1]);
    }
  }

  lemma StartIsSane(w: World)
    requires SaneWorld(w)
    ensures SaneState(Start(w))
  {
    hide Calm, Fresh;
    CalmInRange(w);
    FreshKeepsThresholds(w.thresholds);
  }

  lemma FreshKeepsThresholds(thresholds: seq<real>)
    ensures Fresh(thresholds).threshold == thresholds
  {
  }

  lemma ApplyIsSane(w: World, s: State, op: Op)
    requires SaneWorld(w) && StateFits(w, s) && OpFits(w, op) && SaneState(s) && SaneOp(op)
    ensures SaneState(Apply(w, s, op))
  {
    hide Ticked, Injected, ReactedTo, Calm, Fresh, Cleared, Switched, SaneP, Weighs, Sane;
    match op
    case Tick => TickIsSane(w, s);
    case Inject(e) => InjectIsSane(w, s, e);
    case React(rx, weight) => ReactIsSane(w, s, rx, weight);
    case Reset =>
      CalmInRange(w);
      FreshKeepsThresholds(w.thresholds);
      if s.layer.Some? { StoryStateSane(w.platforms, s.layer.value, 0.0, true); }
    case Switch(on) =>
      if s.layer.Some? { StoryStateSane(w.platforms, s.layer.value, 0.0, on); }
    case Mode(_) =>
  }
}
