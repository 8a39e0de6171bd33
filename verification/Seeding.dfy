/** Where a story starts: a place, a social neighbourhood, or anywhere.  The people a seeder approaches are a function
    of the state it finds and of its draws. */
module Seeding {
  import opened Common
  import opened Finite
  import opened Contagion
  import opened SpatialOrder

  /** Seeding one person: only somebody who has not heard, and the story starts for them now. */
  ghost function SeedOne(c: Cascade, i: nat): Cascade
    requires |c.stage| == |c.at|
  {
    if i < |c.stage| && c.stage[i] == Unaware then
      c.(stage := c.stage[i := Adopted], at := c.at[i := c.step])
    else c
  }

  ghost function SeedAll(c: Cascade, who: seq<nat>): (d: Cascade)
    requires |c.stage| == |c.at|
    ensures |d.stage| == |c.stage| == |d.at| && d.step == c.step
  {
    if |who| == 0 then c else SeedOne(SeedAll(c, who[..|who| - 1]), who[|who| - 1])
  }

  /** The people a seeding reports: those it found unaware, in order. */
  ghost function Reported(c: Cascade, who: seq<nat>): seq<nat>
    requires |c.stage| == |c.at|
  {
    if |who| == 0 then []
    else
      var init, last := who[..|who| - 1], who[|who| - 1];
      var ids := Reported(c, init);
      if last < |c.stage| && SeedAll(c, init).stage[last] == Unaware then ids + [last] else ids
  }

  lemma {:induction false} SeedAllAt(c: Cascade, who: seq<nat>, i: nat)
    requires |c.stage| == |c.at| && i < |c.stage|
    ensures var d := SeedAll(c, who);
      if i in who && c.stage[i] == Unaware then d.stage[i] == Adopted && d.at[i] == c.step
      else d.stage[i] == c.stage[i] && d.at[i] == c.at[i]
  {
    if |who| > 0 {
      SeedAllAt(c, who[..|who| - 1], i);
      assert who == who[..|who| - 1] + [who[|who| - 1]];
    }
  }

  /** Whatever a seeder tries, it reports exactly the people it made adopters, each once. */
  lemma {:induction false} ReportedAre(c: Cascade, who: seq<nat>)
    requires |c.stage| == |c.at|
    ensures Distinct(Reported(c, who))
    ensures forall i: nat :: i in Reported(c, who) <==>
              i < |c.stage| && c.stage[i] == Unaware && SeedAll(c, who).stage[i] == Adopted
    decreases |who|
  {
    if |who| > 0 {
      var init, last := who[..|who| - 1], who[|who| - 1];
      ReportedAre(c, init);
      if last < |c.stage| { SeedAllAt(c, init, last); }
    }
  }

  /** On a population nobody has told yet, everyone seeded is reported. */
  lemma {:induction false} AllReported(c: Cascade, who: seq<nat>)
    requires |c.stage| == |c.at| && Distinct(who)
    requires forall k :: 0 <= k < |who| ==> who[k] < |c.stage| && c.stage[who[k]] == Unaware
    ensures Reported(c, who) == who
  {
    hide SeedAll;
    if |who| > 0 {
      var init, last := who[..|who| - 1], who[|who| - 1];
      AllReported(c, init);
      SeedAllAt(c, init, last);
      assert last !in init;
      assert who == init + [last];
    }
  }

  // ---------- a place ----------

  /** Who stands off places into the window of k people around centre. */
  function InWindow(rank: seq<nat>, order: seq<nat>, centre: nat, k: nat, off: nat): (i: nat)
    requires Inverse(rank, order) && centre < |rank| && off < k <= |rank|
    ensures i < |rank|
  {
    WrappedIs(rank[centre] - k / 2, off, |rank|);
    order[Wrapped(rank[centre] - k / 2, off, |rank|)]
  }

  /** The window of k people around centre. */
  ghost function Window(rank: seq<nat>, order: seq<nat>, centre: nat, k: nat): (w: seq<nat>)
    requires Inverse(rank, order) && centre < |rank| && k <= |rank|
    ensures |w| == k
  {
    seq(k, off requires 0 <= off < k => InWindow(rank, order, centre, k, off))
  }

  /** A window holds k different people, the centre among them, at k cyclically consecutive positions. */
  lemma WindowIsCyclic(rank: seq<nat>, order: seq<nat>, centre: nat, k: nat)
    requires Inverse(rank, order) && centre < |rank| && 0 < k <= |rank|
    ensures var w := Window(rank, order, centre, k);
      && Distinct(w) && w[k / 2] == centre
      && (forall off :: 0 <= off < k ==> w[off] < |rank|)
      && forall off :: 0 <= off < k - 1 ==>
           rank[w[off + 1]] == if rank[w[off]] == |rank| - 1 then 0 else rank[w[off]] + 1
  {
    var n, start, w := |rank|, rank[centre] - k / 2, Window(rank, order, centre, k);
    forall off | 0 <= off < k
      ensures w[off] < n && rank[w[off]] ==
        if start + off < 0 then start + off + n else if start + off >= n then start + off - n else start + off
    {
      WrappedIs(start, off, n);
    }
    assert rank[w[k / 2]] == rank[centre];
    assert order[rank[w[k / 2]]] == w[k / 2] && order[rank[centre]] == centre;
    forall i, j | 0 <= i < j < k ensures w[i] != w[j] {
      assert rank[w[i]] != rank[w[j]];
    }
  }

  /** SeedRegion. */
  method SeedRegion(c: Contagion, rank: seq<nat>, order: seq<nat>, centre: nat, k: nat) returns (ids: seq<nat>)
    requires Inverse(rank, order) && (|rank| > 0 ==> centre < |rank|)
    requires c.stage.Length == c.at.Length == |rank|
    modifies c.stage, c.at
    ensures |rank| == 0 ==> ids == [] && c.View() == old(c.View())
    ensures |rank| > 0 ==>
      var who := Window(rank, order, centre, if k > |rank| then |rank| else k);
      c.View() == SeedAll(old(c.View()), who) && ids == Reported(old(c.View()), who)
  {
    ids := [];
    var n := |rank|;
    if n == 0 {
      return;
    }
    var m := if k > n then n else k;
    ghost var was, who := c.View(), Window(rank, order, centre, m);
    hide SeedOne, SeedAll, Reported, InWindow, Inverse;
    SeedStart(was);
    assert who[..0] == [];
    for off := 0 to m
      invariant c.View() == SeedAll(was, who[..off]) && ids == Reported(was, who[..off])
    {
      var i := InWindow(rank, order, centre, m, off);
      SeedNext(was, who, off);
      var newly := SeedPerson(c, i);
      if newly {
        ids := ids + [i];
      }
    }
    assert who[..m] == who;
  }

  method SeedPerson(c: Contagion, i: nat) returns (newly: bool)
    requires i < c.stage.Length == c.at.Length
    modifies c.stage, c.at
    ensures c.View() == SeedOne(old(c.View()), i) && newly == (old(c.stage[i]) == Unaware)
  {
    newly := c.stage[i] == Unaware;
    if newly {
      c.stage[i] := Adopted;
      c.at[i] := c.step;
    }
  }

  function Drawn(draws: nat -> nat, j: nat, n: nat): (i: nat)
    requires n > 0
    ensures i < n
  {
    draws(j) % n
  }

  /** The people a scattered seeding tries within t tries, one draw each, until k are new. */
  ghost function Tried(c: Cascade, k: nat, draws: nat -> nat, t: nat): (who: seq<nat>)
    requires |c.stage| == |c.at|
    ensures |who| <= t && (|c.stage| == 0 ==> who == [])
  {
    if t == 0 then []
    else
      var before := Tried(c, k, draws, t - 1);
      if |c.stage| == 0 || |Reported(c, before)| >= k then before else before + [Drawn(draws, |before|, |c.stage|)]
  }

  /** Once k are new, more tries change nothing. */
  lemma {:induction false} TriedStops(c: Cascade, k: nat, draws: nat -> nat, t: nat, more: nat)
    requires |c.stage| == |c.at| && (|c.stage| == 0 || |Reported(c, Tried(c, k, draws, t))| >= k)
    ensures Tried(c, k, draws, t + more) == Tried(c, k, draws, t)
  {
    hide Reported;
    if more > 0 { TriedStops(c, k, draws, t, more - 1); }
  }

  lemma {:induction false} TriedInRange(c: Cascade, k: nat, draws: nat -> nat, t: nat)
    requires |c.stage| == |c.at|
    ensures forall j :: 0 <= j < |Tried(c, k, draws, t)| ==> Tried(c, k, draws, t)[j] < |c.stage|
  {
    if t > 0 { TriedInRange(c, k, draws, t - 1); }
  }

  /** SeedScattered: anyone anywhere, until k are new or the tries run out. */
  method SeedScattered(c: Contagion, k: nat, draws: nat -> nat) returns (ids: seq<nat>, ghost tried: seq<nat>)
    requires c.stage.Length == c.at.Length
    modifies c.stage, c.at
    ensures c.View() == SeedAll(old(c.View()), tried) && ids == Reported(old(c.View()), tried)
    ensures forall j :: 0 <= j < |tried| ==> c.stage.Length > 0 && tried[j] == draws(j) % c.stage.Length
    ensures |ids| <= k && |tried| <= 20 * k + 1000
    ensures |ids| < k ==> c.stage.Length == 0 || |tried| == 20 * k + 1000
    ensures tried == Tried(old(c.View()), k, draws, 20 * k + 1000)
  {
    hide SeedOne, SeedAll, Reported;
    ids, tried := [], [];
    ghost var was := c.View();
    SeedStart(was);
    var n := c.stage.Length;
    if n == 0 {
      return;
    }
    hide Tried, Drawn;
    NoneTried(was, k, draws);
    var tries := 0;
    while |ids| < k && tries < 20 * k + 1000
      invariant |tried| == tries <= 20 * k + 1000 && |ids| <= k
      invariant c.View() == SeedAll(was, tried) && ids == Reported(was, tried)
      invariant tried == Tried(was, k, draws, tries)
      decreases 20 * k + 1000 - tries
    {
      var i := Drawn(draws, tries, n);
      SeedSnoc(was, tried, i);
      TriedNext(was, k, draws, tries);
      tried := tried + [i];
      var newly := SeedPerson(c, i);
      if newly {
        ids := ids + [i];
      }
      tries := tries + 1;
    }
    if |ids| >= k { TriedStops(was, k, draws, tries, 20 * k + 1000 - tries); }
    TriedAre(was, k, draws, 20 * k + 1000);
  }

  lemma NoneTried(c: Cascade, k: nat, draws: nat -> nat)
    requires |c.stage| == |c.at|
    ensures Tried(c, k, draws, 0) == []
  {
  }

  lemma TriedNext(c: Cascade, k: nat, draws: nat -> nat, t: nat)
    requires |c.stage| == |c.at| > 0 && |Tried(c, k, draws, t)| == t && |Reported(c, Tried(c, k, draws, t))| < k
    ensures Tried(c, k, draws, t + 1) == Tried(c, k, draws, t) + [Drawn(draws, t, |c.stage|)]
  {
  }

  lemma {:induction false} SeedNext(c: Cascade, who: seq<nat>, k: nat)
    requires |c.stage| == |c.at| && k < |who| && who[k] < |c.stage|
    ensures SeedAll(c, who[..k + 1]) == SeedOne(SeedAll(c, who[..k]), who[k])
    ensures Reported(c, who[..k + 1]) ==
      if SeedAll(c, who[..k]).stage[who[k]] == Unaware then Reported(c, who[..k]) + [who[k]] else Reported(c, who[..k])
  {
    assert who[..k + 1][..k] == who[..k];
  }

  /** On a fresh population with k >= 1 a regional seed is exactly min(k, N) different people, all of them newly
      adopted, filling a cyclic window around the centre. */
  lemma RegionIsWhole(c: Cascade, rank: seq<nat>, order: seq<nat>, centre: nat, k: nat)
    requires Inverse(rank, order) && centre < |rank| == |c.stage| == |c.at| && 0 < k <= |rank|
    requires forall i :: 0 <= i < |c.stage| ==> c.stage[i] == Unaware
    ensures var who := Window(rank, order, centre, k);
      && Reported(c, who) == who && |who| == k && Distinct(who)
      && forall i :: 0 <= i < |c.stage| ==> (SeedAll(c, who).stage[i] == Adopted <==> i in who)
  {
    var who := Window(rank, order, centre, k);
    WindowIsCyclic(rank, order, centre, k);
    AllReported(c, who);
    forall i | 0 <= i < |c.stage| ensures SeedAll(c, who).stage[i] == Adopted <==> i in who {
      SeedAllAt(c, who, i);
    }
  }

  // ---------- a neighbourhood ----------

  ghost predicate ClosedUnder(net: Net, s: set<nat>) {
    forall u, v :: u in s && u < |net| && v in net[u] ==> v in s
  }

  ghost predicate Reachable(net: Net, start: nat, v: nat) {
    forall s: set<nat> :: start in s && ClosedUnder(net, s) ==> v in s
  }

  /** Everyone some chain of ties connects to start. */
  ghost function Component(net: Net, start: nat): set<nat> {
    set v: nat | v < |net| && Reachable(net, start, v)
  }

  /** Person j of the list is a neighbour of someone before it, and of one of the first m. */
  ghost predicate Attached(net: Net, list: seq<nat>, m: nat, j: nat)
    requires m <= |list| && j < |list|
  {
    exists i :: 0 <= i < m && i < j && list[i] < |net| && list[j] in net[list[i]]
  }

  /** What the search has established while it looks at the m-th neighbour of the last person visited: visited
      people, then the queue, are different and connected to start, each attached to an earlier visited one; the
      neighbours looked at so far have all been seen. */
  ghost predicate Searching(net: Net, start: nat, visited: seq<nat>, queue: seq<nat>, seen: set<nat>, m: nat) {
    var list := visited + queue;
    && Distinct(list) && |list| > 0 && list[0] == start
    && (forall v :: v in seen <==> v in list)
    && (forall v :: v in seen ==> v < |net| && Reachable(net, start, v))
    && (forall j :: 1 <= j < |list| ==> Attached(net, list, |visited|, j))
    && (forall i :: 0 <= i < |visited| ==>
          LookedAt(net, visited[i], seen, if i == |visited| - 1 then m else DegreeOf(net, visited[i])))
  }

  ghost function DegreeOf(net: Net, u: nat): nat {
    if u < |net| then |net[u]| else 0
  }

  /** The first m neighbours of u have been seen. */
  ghost predicate LookedAt(net: Net, u: nat, seen: set<nat>, m: nat) {
    u < |net| && m <= |net[u]| && forall k :: 0 <= k < m ==> net[u][k] in seen
  }

  lemma AttachedGrows(net: Net, list: seq<nat>, more: seq<nat>, m: nat, m': nat, j: nat)
    requires m <= m' <= |more| && m <= |list| <= |more| && j < |list| && list == more[..|list|]
    requires Attached(net, list, m, j)
    ensures Attached(net, more, m', j)
  {
    var i :| 0 <= i < m && i < j && list[i] < |net| && list[j] in net[list[i]];
    assert more[i] == list[i] && more[j] == list[j];
  }

  lemma SearchStarts(net: Net, start: nat)
    requires ValidNet(net) && start < |net|
    ensures Searching(net, start, [], [start], {start}, 0)
  {
  }

  /** Taking the head of the queue as the next person visited. */
  lemma SearchVisits(net: Net, start: nat, visited: seq<nat>, queue: seq<nat>, seen: set<nat>, m: nat)
    requires Searching(net, start, visited, queue, seen, m) && |queue| > 0
    requires |visited| > 0 ==> m == DegreeOf(net, visited[|visited| - 1])
    ensures Searching(net, start, visited + [queue[0]], queue[1..], seen, 0)
  {
    var list := visited + queue;
    assert visited + [queue[0]] + queue[1..] == list;
    assert queue[0] in list;
    var n := |visited| + 1;
    forall j | 1 <= j < |list| ensures Attached(net, list, n, j) {
      AttachedGrows(net, list, list, |visited|, |visited| + 1, j);
    }
  }

  lemma ReachableStep(net: Net, start: nat, u: nat, v: nat)
    requires Reachable(net, start, u) && u < |net| && v in net[u]
    ensures Reachable(net, start, v)
  {
  }

  /** Looking at one neighbour already seen. */
  lemma SearchSkips(net: Net, start: nat, visited: seq<nat>, queue: seq<nat>, seen: set<nat>, m: nat)
    requires Searching(net, start, visited, queue, seen, m) && |visited| > 0
    requires var v := visited[|visited| - 1]; v < |net| && m < |net[v]| && net[v][m] in seen
    ensures Searching(net, start, visited, queue, seen, m + 1)
  {
  }

  /** Looking at a new one: it joins the queue. */
  lemma SearchAdds(net: Net, start: nat, visited: seq<nat>, queue: seq<nat>, seen: set<nat>, m: nat, u: nat)
    requires ValidNet(net) && Searching(net, start, visited, queue, seen, m) && |visited| > 0 && u !in seen
    requires var v := visited[|visited| - 1]; v < |net| && m < |net[v]| && net[v][m] == u
    ensures Searching(net, start, visited, queue + [u], seen + {u}, m + 1)
  {
    hide Reachable, Attached;
    var list, more := visited + queue, visited + (queue + [u]);
    var v := visited[|visited| - 1];
    assert more == list + [u] && more[|visited| - 1] == v;
    assert v in list;
    ReachableStep(net, start, v, u);
    forall j | 1 <= j < |more| ensures Attached(net, more, |visited|, j) {
      if j < |list| {
        assert list == more[..|list|];
        AttachedGrows(net, list, more, |visited|, |visited|, j);
      } else {
        AttachedTo(net, more, |visited|, j, |visited| - 1);
      }
    }
    forall i | 0 <= i < |visited|
      ensures LookedAt(net, visited[i], seen + {u}, if i == |visited| - 1 then m + 1 else DegreeOf(net, visited[i]))
    {
      assert LookedAt(net, visited[i], seen, if i == |visited| - 1 then m else DegreeOf(net, visited[i]));
    }
  }

  lemma AttachedTo(net: Net, list: seq<nat>, m: nat, j: nat, i: nat)
    requires i < m <= |list| && i < j < |list| && list[i] < |net| && list[j] in net[list[i]]
    ensures Attached(net, list, m, j)
  {
  }

  /** When the queue runs out, everyone connected to start has been visited. */
  lemma SearchExhausts(net: Net, start: nat, visited: seq<nat>, seen: set<nat>, m: nat)
    requires Searching(net, start, visited, [], seen, m) && |visited| > 0
    requires m == DegreeOf(net, visited[|visited| - 1])
    ensures Component(net, start) == Members(visited) && |Component(net, start)| == |visited|
  {
    hide Attached, LookedAt;
    assert visited + [] == visited;
    SeenIsClosed(net, start, visited, seen, m);
    forall v: nat ensures v in Component(net, start) <==> v in Members(visited) {
      assert v in Members(visited) <==> v in seen;
    }
    MembersSize(visited);
  }

  lemma SeenIsClosed(net: Net, start: nat, visited: seq<nat>, seen: set<nat>, m: nat)
    requires Searching(net, start, visited, [], seen, m) && |visited| > 0
    requires m == DegreeOf(net, visited[|visited| - 1])
    ensures ClosedUnder(net, seen)
  {
    hide Attached, Reachable, Distinct;
    assert visited + [] == visited;
    forall u, v | u in seen && u < |net| && v in net[u] ensures v in seen {
      var i :| 0 <= i < |visited| && visited[i] == u;
      assert LookedAt(net, visited[i], seen, DegreeOf(net, u));
      var k :| 0 <= k < |net[u]| && net[u][k] == v;
    }
  }

  /** What SeedCluster's visits come to. */
  ghost predicate Cluster(net: Net, start: nat, visited: seq<nat>) {
    && Distinct(visited) && (|visited| > 0 ==> visited[0] == start)
    && (forall j :: 0 <= j < |visited| ==> visited[j] in Component(net, start))
    && forall j :: 1 <= j < |visited| ==> Attached(net, visited, |visited|, j)
  }

  lemma SearchIsCluster(net: Net, start: nat, visited: seq<nat>, queue: seq<nat>, seen: set<nat>, m: nat)
    requires Searching(net, start, visited, queue, seen, m)
    ensures Cluster(net, start, visited)
  {
    var list := visited + queue;
    forall j | 0 <= j < |visited| ensures visited[j] in Component(net, start) {
      assert list[j] in list;
    }
    forall i, j | 0 <= i < j < |visited| ensures visited[i] != visited[j] {
      assert list[i] != list[j];
    }
    forall j | 1 <= j < |visited| ensures Attached(net, visited, |visited|, j) {
      assert Attached(net, list, |visited|, j);
      var i :| 0 <= i < |visited| && i < j && list[i] < |net| && list[j] in net[list[i]];
      AttachedTo(net, visited, |visited|, j, i);
    }
  }

  lemma SeenFits(net: Net, start: nat, visited: seq<nat>, queue: seq<nat>, seen: set<nat>, m: nat)
    requires Searching(net, start, visited, queue, seen, m)
    ensures |seen| == |visited| + |queue| <= |net|
  {
    var list := visited + queue;
    MembersSize(list);
    assert seen == Members(list);
    forall k | 0 <= k < |list| ensures list[k] < |net| { assert list[k] in list; }
    DistinctBelow(list, |net|);
  }

  // ---------- the search as a function ----------

  datatype Frontier = Frontier(visited: seq<nat>, queue: seq<nat>, seen: set<nat>)

  /** Queue the first m neighbours of v that have not been seen. */
  ghost function Looked(net: Net, queue: seq<nat>, seen: set<nat>, v: nat, m: nat): (seq<nat>, set<nat>)
    requires m <= DegreeOf(net, v)
  {
    if m == 0 then (queue, seen)
    else
      var (q, s) := Looked(net, queue, seen, v, m - 1);
      var u := net[v][m - 1];
      if u in s then (q, s) else (q + [u], s + {u})
  }

  /** The breadth-first search after t visits, if there are that many to make. */
  ghost function Searched(net: Net, start: nat, t: nat): Frontier {
    if t == 0 then Frontier([], [start], {start})
    else
      var f := Searched(net, start, t - 1);
      if |f.queue| == 0 then f
      else
        var v := f.queue[0];
        var (q, s) := Looked(net, f.queue[1..], f.seen, v, DegreeOf(net, v));
        Frontier(f.visited + [v], q, s)
  }

  /** The people a social seeding approaches within t visits, until k are new. */
  ghost function Found(c: Cascade, net: Net, start: nat, k: nat, t: nat): (who: seq<nat>)
    requires |c.stage| == |c.at|
    ensures |who| <= t
  {
    if t == 0 then []
    else
      var before := Found(c, net, start, k, t - 1);
      var queue := Searched(net, start, |before|).queue;
      if |queue| == 0 || |Reported(c, before)| >= k then before else before + [queue[0]]
  }

  lemma {:induction false} FoundStops(c: Cascade, net: Net, start: nat, k: nat, t: nat, more: nat)
    requires |c.stage| == |c.at|
    requires var who := Found(c, net, start, k, t);
      |Searched(net, start, |who|).queue| == 0 || |Reported(c, who)| >= k
    ensures Found(c, net, start, k, t + more) == Found(c, net, start, k, t)
  {
    hide Reported, Searched;
    if more > 0 { FoundStops(c, net, start, k, t, more - 1); }
  }

  /** What the loop's variables stand for after the visits made so far. */
  ghost predicate OnCourse(c: Cascade, net: Net, start: nat, k: nat, visited: seq<nat>, queue: seq<nat>, seen: set<nat>)
    requires |c.stage| == |c.at|
  {
    && Searched(net, start, |visited|) == Frontier(visited, queue, seen)
    && visited == Found(c, net, start, k, |visited|)
  }

  lemma CourseStarts(c: Cascade, net: Net, start: nat, k: nat)
    requires |c.stage| == |c.at|
    ensures OnCourse(c, net, start, k, [], [start], {start})
  {
  }

  lemma CourseGoesOn(c: Cascade, net: Net, start: nat, k: nat, visited: seq<nat>, queue: seq<nat>, seen: set<nat>)
    requires |c.stage| == |c.at| && OnCourse(c, net, start, k, visited, queue, seen)
    requires |queue| > 0 && |Reported(c, visited)| < k
    ensures var v := queue[0];
      var (q, s) := Looked(net, queue[1..], seen, v, DegreeOf(net, v));
      OnCourse(c, net, start, k, visited + [v], q, s)
  {
    hide Looked, Reported;
    assert |visited + [queue[0]]| - 1 == |visited|;
  }

  lemma CourseEnds(c: Cascade, net: Net, start: nat, k: nat, visited: seq<nat>, queue: seq<nat>, seen: set<nat>)
    requires |c.stage| == |c.at| && OnCourse(c, net, start, k, visited, queue, seen) && |visited| <= |net|
    requires |queue| == 0 || |Reported(c, visited)| >= k
    ensures visited == Found(c, net, start, k, |net|)
  {
    hide Reported, Searched, Found;
    FoundStops(c, net, start, k, |visited|, |net| - |visited|);
  }

  /** One visit: pop, seed if unaware, and queue the neighbours not seen before. */
  method LookAround(net: Net, start: nat, ghost visited: seq<nat>, queue: seq<nat>, seen: set<nat>, v: nat)
    returns (queue': seq<nat>, seen': set<nat>)
    requires ValidNet(net) && Searching(net, start, visited, queue, seen, 0)
    requires |visited| > 0 && visited[|visited| - 1] == v < |net|
    ensures Searching(net, start, visited, queue', seen', |net[v]|)
    ensures (queue', seen') == Looked(net, queue, seen, v, |net[v]|)
  {
    queue', seen' := queue, seen;
    for m := 0 to |net[v]|
      invariant Searching(net, start, visited, queue', seen', m)
      invariant (queue', seen') == Looked(net, queue, seen, v, m)
    {
      hide Searching;
      var u := net[v][m];
      if u in seen' {
        SearchSkips(net, start, visited, queue', seen', m);
      } else {
        SearchAdds(net, start, visited, queue', seen', m, u);
        seen' := seen' + {u};
        queue' := queue' + [u];
      }
    }
  }

  /** SeedCluster: breadth-first from start until k people have been newly seeded or nobody is left.  visited is
      whom the search reached; those of them it found unaware are reported. */
  method SeedCluster(c: Contagion, net: Net, start: nat, k: nat) returns (ids: seq<nat>, ghost visited: seq<nat>)
    requires ValidNet(net) && start < |net| && c.stage.Length == c.at.Length == |net|
    modifies c.stage, c.at
    ensures c.View() == SeedAll(old(c.View()), visited) && ids == Reported(old(c.View()), visited)
    ensures Cluster(net, start, visited) && |ids| <= k
    ensures |ids| < k ==> Members(visited) == Component(net, start)
    ensures visited == Found(old(c.View()), net, start, k, |net|)
  {
    hide SeedOne, SeedAll, Reported, Searching, Cluster, Component, OnCourse, Looked;
    var seen := {start};
    var queue := [start];
    ids, visited := [], [];
    ghost var was := c.View();
    ghost var m: nat := 0;
    SearchStarts(net, start);
    CourseStarts(was, net, start, k);
    SeedStart(was);
    while |queue| > 0 && |ids| < k
      invariant Searching(net, start, visited, queue, seen, m)
      invariant |visited| > 0 ==> m == DegreeOf(net, visited[|visited| - 1])
      invariant |visited| == 0 ==> |queue| > 0
      invariant c.View() == SeedAll(was, visited) && ids == Reported(was, visited) && |ids| <= k
      invariant OnCourse(was, net, start, k, visited, queue, seen)
      decreases |net| - |visited|
    {
      CourseGoesOn(was, net, start, k, visited, queue, seen);
      SeenFits(net, start, visited, queue, seen, m);
      SearchVisits(net, start, visited, queue, seen, m);
      HeadIsPerson(net, start, visited, queue, seen, m);
      var v := queue[0];
      queue := queue[1..];
      SeedSnoc(was, visited, v);
      visited := visited + [v];
      var newly := SeedPerson(c, v);
      if newly {
        ids := ids + [v];
      }
      queue, seen := LookAround(net, start, visited, queue, seen, v);
      m := |net[v]|;
    }
    SeenFits(net, start, visited, queue, seen, m);
    CourseEnds(was, net, start, k, visited, queue, seen);
    SearchIsCluster(net, start, visited, queue, seen, m);
    if |ids| < k {
      assert queue == [];
      SearchExhausts(net, start, visited, seen, m);
    }
  }

  lemma SeedStart(c: Cascade)
    requires |c.stage| == |c.at|
    ensures SeedAll(c, []) == c && Reported(c, []) == []
  {
  }

  lemma HeadIsPerson(net: Net, start: nat, visited: seq<nat>, queue: seq<nat>, seen: set<nat>, m: nat)
    requires Searching(net, start, visited, queue, seen, m) && |queue| > 0
    ensures queue[0] < |net|
  {
    assert queue[0] in visited + queue;
  }

  lemma SeedSnoc(c: Cascade, who: seq<nat>, v: nat)
    requires |c.stage| == |c.at| && v < |c.stage|
    ensures SeedAll(c, who + [v]) == SeedOne(SeedAll(c, who), v)
    ensures Reported(c, who + [v]) ==
      if SeedAll(c, who).stage[v] == Unaware then Reported(c, who) + [v] else Reported(c, who)
  {
    assert (who + [v])[..|who|] == who;
  }

  /** On a fresh population a social seed is a connected set around start of exactly min(k, size of its component)
      different people, all newly adopted: visited and ids are what SeedCluster promises of them. */
  lemma ClusterIsWhole(c: Cascade, net: Net, start: nat, k: nat, visited: seq<nat>)
    requires |c.stage| == |c.at| == |net| && start < |net|
    requires forall i :: 0 <= i < |c.stage| ==> c.stage[i] == Unaware
    requires Cluster(net, start, visited) && |Reported(c, visited)| <= k
    requires |Reported(c, visited)| < k ==> Members(visited) == Component(net, start)
    ensures Reported(c, visited) == visited
    ensures |visited| == if k < |Component(net, start)| then k else |Component(net, start)|
  {
    AllReported(c, visited);
    MembersSize(visited);
    assert Members(visited) <= Component(net, start);
    SubsetSize(Members(visited), Component(net, start));
  }

  // ---------- what the searches come to, as functions ----------

  lemma {:induction false} LookedSearches(net: Net, start: nat, visited: seq<nat>, queue: seq<nat>, seen: set<nat>,
                                          v: nat, m: nat)
    requires ValidNet(net) && Searching(net, start, visited, queue, seen, 0)
    requires |visited| > 0 && visited[|visited| - 1] == v < |net| && m <= |net[v]|
    ensures var (q, s) := Looked(net, queue, seen, v, m); Searching(net, start, visited, q, s, m)
  {
    hide Searching;
    if m > 0 {
      LookedSearches(net, start, visited, queue, seen, v, m - 1);
      var (q, s) := Looked(net, queue, seen, v, m - 1);
      var u := net[v][m - 1];
      if u in s {
        SearchSkips(net, start, visited, q, s, m - 1);
      } else {
        SearchAdds(net, start, visited, q, s, m - 1, u);
      }
    }
  }

  ghost function LastDegree(net: Net, visited: seq<nat>): nat {
    if |visited| == 0 then 0 else DegreeOf(net, visited[|visited| - 1])
  }

  lemma {:induction false} SearchedSearches(net: Net, start: nat, t: nat)
    requires ValidNet(net) && start < |net|
    ensures var f := Searched(net, start, t);
      && Searching(net, start, f.visited, f.queue, f.seen, LastDegree(net, f.visited))
      && |f.visited| <= t && (|f.queue| > 0 ==> |f.visited| == t)
  {
    hide Searching, Looked;
    if t == 0 {
      SearchStarts(net, start);
    } else {
      SearchedSearches(net, start, t - 1);
      var f := Searched(net, start, t - 1);
      if |f.queue| > 0 {
        SearchVisits(net, start, f.visited, f.queue, f.seen, LastDegree(net, f.visited));
        HeadIsPerson(net, start, f.visited, f.queue, f.seen, LastDegree(net, f.visited));
        LookedSearches(net, start, f.visited + [f.queue[0]], f.queue[1..], f.seen, f.queue[0], |net[f.queue[0]]|);
      }
    }
  }

  lemma {:induction false} FoundIsVisited(c: Cascade, net: Net, start: nat, k: nat, t: nat)
    requires |c.stage| == |c.at| == |net| && ValidNet(net) && start < |net|
    ensures var who := Found(c, net, start, k, t); who == Searched(net, start, |who|).visited
    ensures |Reported(c, Found(c, net, start, k, t))| <= k
    ensures var who := Found(c, net, start, k, t);
      |Reported(c, who)| < k ==> |who| == t || |Searched(net, start, |who|).queue| == 0
  {
    hide Reported, SeedAll, Looked;
    if t == 0 {
      SeedStart(c);
    } else {
      FoundIsVisited(c, net, start, k, t - 1);
      var before := Found(c, net, start, k, t - 1);
      var f := Searched(net, start, |before|);
      if |f.queue| > 0 && |Reported(c, before)| < k {
        SearchedSearches(net, start, |before|);
        HeadIsPerson(net, start, f.visited, f.queue, f.seen, LastDegree(net, f.visited));
        SeedSnoc(c, before, f.queue[0]);
      }
    }
  }

  /** A social seeding approaches a connected set around the start, until k are new or the component is exhausted. */
  lemma FoundIsCluster(c: Cascade, net: Net, start: nat, k: nat)
    requires |c.stage| == |c.at| == |net| && ValidNet(net) && start < |net|
    ensures var who := Found(c, net, start, k, |net|);
      && Cluster(net, start, who) && |Reported(c, who)| <= k
      && (|Reported(c, who)| < k ==> Members(who) == Component(net, start))
  {
    hide Searching, Searched, Cluster, Component, Reported;
    FoundIsVisited(c, net, start, k, |net|);
    var who := Found(c, net, start, k, |net|);
    var f := Searched(net, start, |who|);
    SearchedSearches(net, start, |who|);
    SearchIsCluster(net, start, who, f.queue, f.seen, LastDegree(net, who));
    SeenFits(net, start, who, f.queue, f.seen, LastDegree(net, who));
    if |Reported(c, who)| < k {
      assert f.queue == [];
      SomebodyVisited(net, start, who, f.seen, LastDegree(net, who));
      SearchExhausts(net, start, who, f.seen, LastDegree(net, who));
    }
  }

  lemma SomebodyVisited(net: Net, start: nat, visited: seq<nat>, seen: set<nat>, m: nat)
    requires Searching(net, start, visited, [], seen, m)
    ensures |visited| > 0
  {
    assert visited + [] == visited;
  }

  /** A scattered seeding approaches the people its draws name, in turn, until k are new or t tries are made. */
  lemma {:induction false} TriedAre(c: Cascade, k: nat, draws: nat -> nat, t: nat)
    requires |c.stage| == |c.at| > 0
    ensures var who := Tried(c, k, draws, t);
      && |who| <= t && (forall j :: 0 <= j < |who| ==> who[j] == draws(j) % |c.stage|)
      && |Reported(c, who)| <= k && (|Reported(c, who)| < k ==> |who| == t)
  {
    hide Reported, SeedAll;
    if t == 0 {
      SeedStart(c);
    } else {
      TriedAre(c, k, draws, t - 1);
      var before := Tried(c, k, draws, t - 1);
      if |Reported(c, before)| < k { SeedSnoc(c, before, Drawn(draws, |before|, |c.stage|)); }
    }
  }
}
