/** What a node proposes: near neighbours in the spatial order, people of its own archetype, and hubs.  Everything the
    two passes of the builder assume of proposals is proved here of the code that makes them. */
module Proposals {
  import opened SpatialOrder
  import HubPool
  import Placement
  import SocialGraph

  // ---------- people by archetype ----------

  /** Where bucketByArchetype puts everybody: a counting sort by archetype. */
  ghost predicate Bucketed(arch: seq<nat>, off: seq<nat>, members: seq<nat>) {
    && (forall i :: 0 <= i < |arch| ==> arch[i] + 1 < |off|)
    && (forall a :: 0 <= a < |off| ==> off[a] == Before(arch, a, |arch|))
    && Inverse(Ranks(arch), members)
  }

  /** The people of archetype a are exactly the members from off[a] up to off[a + 1]. */
  lemma BucketIs(arch: seq<nat>, off: seq<nat>, members: seq<nat>, a: nat, p: nat)
    requires Bucketed(arch, off, members) && a + 1 < |off| && p < |members|
    ensures off[a] <= off[a + 1] <= |members| == |arch| && members[p] < |arch|
    ensures off[a] <= p < off[a + 1] <==> arch[members[p]] == a
  {
    var i := members[p];
    var c, n := arch[i], |arch|;
    assert Ranks(arch)[i] == RankOf(arch, i) == p;
    WithinGrows(arch, c, i, n);
    BeforeNext(arch, c, n);
    BeforeNext(arch, a, n);
    if c < a { BeforeGrows(arch, c + 1, a, n); }
    if a < c { BeforeGrows(arch, a + 1, c, n); }
  }

  /** Nobody's own bucket is empty. */
  lemma OwnBucket(arch: seq<nat>, off: seq<nat>, members: seq<nat>, i: nat)
    requires Bucketed(arch, off, members) && i < |arch|
    ensures arch[i] + 1 < |off| && off[arch[i]] < off[arch[i] + 1] <= |members| == |arch|
  {
    var p := Ranks(arch)[i];
    assert p < |members| && members[p] == i;
    BucketIs(arch, off, members, arch[i], p);
  }

  lemma BucketFits(arch: seq<nat>, off: seq<nat>, members: seq<nat>, i: nat)
    requires Bucketed(arch, off, members) && i < |arch|
    ensures arch[i] + 1 < |off| && off[arch[i]] <= off[arch[i] + 1] <= |members|
  {
    OwnBucket(arch, off, members, i);
  }

  lemma BeforeStep(arch: seq<nat>, a: nat)
    requires a > 0
    ensures Before(arch, a, |arch|) == Before(arch, a - 1, |arch|) + Within(arch, a - 1, |arch|)
  {
    BeforeNext(arch, a - 1, |arch|);
  }

  /** First loop: the largest archetype, for the size of off. */
  method Largest(arch: seq<nat>) returns (maxA: nat)
    ensures forall i :: 0 <= i < |arch| ==> arch[i] <= maxA
  {
    maxA := 0;
    for i := 0 to |arch|
      invariant forall j :: 0 <= j < i ==> arch[j] <= maxA
    {
      if arch[i] > maxA {
        maxA := arch[i];
      }
    }
  }

  /** Second and third loops: counts shifted by one, then summed in place. */
  method Starts(arch: seq<nat>, maxA: nat) returns (off: array<nat>)
    requires forall i :: 0 <= i < |arch| ==> arch[i] <= maxA
    ensures fresh(off) && off.Length == maxA + 2
    ensures forall a :: 0 <= a < off.Length ==> off[a] == Before(arch, a, |arch|)
  {
    off := new nat[maxA + 2](_ => 0);
    for i := 0 to |arch|
      invariant off[0] == 0 && forall a :: 1 <= a < off.Length ==> off[a] == Within(arch, a - 1, i)
    {
      off[arch[i] + 1] := off[arch[i] + 1] + 1;
    }
    NoneBefore(arch, |arch|);
    for a := 1 to off.Length
      invariant forall b :: 0 <= b < a ==> off[b] == Before(arch, b, |arch|)
      invariant forall b :: a <= b < off.Length ==> off[b] == Within(arch, b - 1, |arch|)
    {
      BeforeStep(arch, a);
      off[a] := off[a] + off[a - 1];
    }
  }

  /** Where the fourth loop stands: the next free place of each bucket, and the first i people in their places. */
  ghost predicate Filling(arch: seq<nat>, cur: seq<nat>, members: seq<nat>, i: nat) {
    && i <= |arch| == |members|
    && (forall j :: 0 <= j < |arch| ==> arch[j] < |cur|)
    && (forall a :: 0 <= a < |cur| ==> cur[a] == Before(arch, a, |arch|) + Within(arch, a, i))
    && (forall j :: 0 <= j < i ==> RankOf(arch, j) < |members| && members[RankOf(arch, j)] == j)
  }

  lemma FillStep(arch: seq<nat>, cur: seq<nat>, members: seq<nat>, i: nat)
    requires Filling(arch, cur, members, i) && i < |arch|
    ensures arch[i] < |cur| && cur[arch[i]] < |members|
    ensures Filling(arch, cur[arch[i] := cur[arch[i]] + 1], members[cur[arch[i]] := i], i + 1)
  {
    RankOfNext(arch, i);
    hide RankOf;
  }

  lemma Filled(arch: seq<nat>, cur: seq<nat>, members: seq<nat>)
    requires Filling(arch, cur, members, |arch|)
    ensures Inverse(Ranks(arch), members)
  {
    hide RankOf, Inverse;
    RanksPermute(arch);
    RightInverse(Ranks(arch), members);
  }

  /** Fourth loop: everybody goes to the next free place of their bucket. */
  method Fill(arch: seq<nat>, off: seq<nat>) returns (members: array<nat>)
    requires forall i :: 0 <= i < |arch| ==> arch[i] + 1 < |off|
    requires forall a :: 0 <= a < |off| ==> off[a] == Before(arch, a, |arch|)
    ensures fresh(members) && Inverse(Ranks(arch), members[..])
  {
    members := new nat[|arch|];
    var cur := new nat[|off|](a requires 0 <= a < |off| => off[a]);
    assert Filling(arch, cur[..], members[..], 0);
    hide Filling, Inverse, Ranks;
    for i := 0 to |arch|
      invariant Filling(arch, cur[..], members[..], i)
    {
      FillStep(arch, cur[..], members[..], i);
      members[cur[arch[i]]] := i;
      cur[arch[i]] := cur[arch[i]] + 1;
    }
    Filled(arch, cur[..], members[..]);
  }

  lemma RankOfNext(arch: seq<nat>, i: nat)
    requires i < |arch|
    ensures RankOf(arch, i) == Before(arch, arch[i], |arch|) + Within(arch, arch[i], i) < |arch|
    ensures forall j :: 0 <= j < i ==> RankOf(arch, j) != RankOf(arch, i)
  {
    RankInRange(arch, i);
    forall j | 0 <= j < i ensures RankOf(arch, j) != RankOf(arch, i) {
      RankOrders(arch, j, i);
      RankOrders(arch, i, j);
    }
  }

  /** bucketByArchetype. */
  method BucketByArchetype(arch: seq<nat>) returns (off: array<nat>, members: array<nat>)
    ensures fresh(off) && fresh(members) && Bucketed(arch, off[..], members[..])
  {
    hide Inverse;
    var maxA := Largest(arch);
    off := Starts(arch, maxA);
    members := Fill(arch, off[..]);
  }

  // ---------- one candidate ----------

  /** The lookup structures of the builder, and the shares of geographic and of geographic or like-minded ties. */
  datatype Builder = Builder(rank: seq<nat>, order: seq<nat>, arch: seq<nat>, off: seq<nat>, members: seq<nat>,
                             hubs: seq<nat>, geoCut: real, homCut: real)

  /** The draws for one candidate: which kind, how far and which way, and which of a list. */
  datatype Draw = Draw(kind: real, hop: nat, back: bool, pick: nat)

  ghost predicate Proper(b: Builder) {
    && |b.rank| == |b.arch| > 0 && Inverse(b.rank, b.order) && Bucketed(b.arch, b.off, b.members)
    && |b.hubs| > 0 && forall k :: 0 <= k < |b.hubs| ==> b.hubs[k] < |b.arch|
  }

  function Place(b: Builder, i: nat, d: Draw): (p: int)
    requires Proper(b) && i < |b.rank|
    ensures 0 <= p < |b.order|
  {
    WrappedInRange(b.rank[i], if d.back then -(d.hop + 1) else d.hop + 1, |b.rank|);
    Wrapped(b.rank[i], if d.back then -(d.hop + 1) else d.hop + 1, |b.rank|)
  }

  /** One turn of the loop, up to whether to keep the candidate. */
  function Candidate(b: Builder, i: nat, d: Draw): (j: nat)
    requires Proper(b) && i < |b.rank|
  {
    BucketFits(b.arch, b.off, b.members, i);
    var lo, hi := b.off[b.arch[i]], b.off[b.arch[i] + 1];
    if d.kind < b.geoCut then b.order[Place(b, i, d)]
    else if d.kind < b.homCut then
      if hi > lo then b.members[lo + d.pick % (hi - lo)] else d.pick % |b.arch|
    else b.hubs[d.pick % |b.hubs|]
  }

  /** Every candidate is a person.  A near one stands hop + 1 ranks from the node's own, forward or back, cyclically; a
      like-minded one is of the node's own archetype, and the fallback for an empty bucket is never needed; any other
      is the hub picked. */
  lemma CandidateIs(b: Builder, i: nat, d: Draw)
    requires Proper(b) && i < |b.rank|
    ensures Candidate(b, i, d) < |b.arch|
    ensures b.geoCut <= d.kind < b.homCut ==> b.arch[Candidate(b, i, d)] == b.arch[i]
    ensures d.kind < b.geoCut ==>
      b.rank[Candidate(b, i, d)] == (b.rank[i] + if d.back then -(d.hop + 1) else d.hop + 1) % |b.rank|
    ensures d.kind >= b.geoCut && d.kind >= b.homCut ==> Candidate(b, i, d) == b.hubs[d.pick % |b.hubs|]
  {
    hide Bucketed;
    if d.kind < b.geoCut {
      hide Wrapped;
      WrappedIsCyclic(b.rank[i], if d.back then -(d.hop + 1) else d.hop + 1, |b.rank|);
      assert b.rank[b.order[Place(b, i, d)]] == Place(b, i, d);
    } else if d.kind < b.homCut {
      hide Place;
      LikeMinded(b, i, d.pick);
    }
  }

  lemma LikeMinded(b: Builder, i: nat, pick: nat)
    requires Proper(b) && i < |b.rank|
    ensures b.arch[i] + 1 < |b.off|
    ensures var lo, hi := b.off[b.arch[i]], b.off[b.arch[i] + 1];
      hi > lo && lo + pick % (hi - lo) < |b.members|
      && var j := b.members[lo + pick % (hi - lo)]; j < |b.arch| && b.arch[j] == b.arch[i]
  {
    hide Bucketed, Inverse;
    OwnBucket(b.arch, b.off, b.members, i);
    var lo, hi := b.off[b.arch[i]], b.off[b.arch[i] + 1];
    BucketIs(b.arch, b.off, b.members, b.arch[i], lo + pick % (hi - lo));
  }

  /** Everybody of the node's archetype can be picked as like-minded. */
  lemma EveryLikeMindedIsPicked(b: Builder, i: nat, d: Draw, j: nat)
    requires Proper(b) && i < |b.rank| && j < |b.arch| && b.arch[j] == b.arch[i] && b.geoCut <= d.kind < b.homCut
    ensures exists pick: nat :: Candidate(b, i, d.(pick := pick)) == j
  {
    var p := Ranks(b.arch)[j];
    assert p < |b.members| && b.members[p] == j;
    hide Inverse, Ranks;
    OwnBucket(b.arch, b.off, b.members, i);
    BucketIs(b.arch, b.off, b.members, b.arch[i], p);
    hide Bucketed, Proper;
    var lo, hi := b.off[b.arch[i]], b.off[b.arch[i] + 1];
    SmallRem(p - lo, hi - lo);
    assert (p - lo) % (hi - lo) == p - lo;
    assert Candidate(b, i, d.(pick := p - lo)) == j;
  }

  // ---------- all of a node's proposals ----------

  ghost function Proposed(b: Builder, i: nat, draws: nat -> Draw, k: nat): (out: seq<nat>)
    requires Proper(b) && i < |b.rank|
    ensures |out| <= k
  {
    if k == 0 then []
    else
      var before, j := Proposed(b, i, draws, k - 1), Candidate(b, i, draws(k - 1));
      if j != i then before + [j] else before
  }

  lemma {:induction false} ProposedAre(b: Builder, i: nat, draws: nat -> Draw, k: nat)
    requires Proper(b) && i < |b.rank|
    ensures forall c :: 0 <= c < |Proposed(b, i, draws, k)| ==>
              Proposed(b, i, draws, k)[c] < |b.arch| && Proposed(b, i, draws, k)[c] != i
  {
    hide Candidate, Proper;
    if k > 0 {
      ProposedAre(b, i, draws, k - 1);
      CandidateIs(b, i, draws(k - 1));
    }
  }

  /** The draws before the k-th whose candidate is kept. */
  ghost function Kept(b: Builder, i: nat, draws: nat -> Draw, k: nat): set<nat>
    requires Proper(b) && i < |b.rank|
  {
    set c: nat | c < k && Candidate(b, i, draws(c)) != i
  }

  /** A node proposes the candidates other than itself, all of them, in the order of the draws: as many as are kept,
      each at the place that counts the ones kept before it. */
  lemma {:induction false} ProposedInOrder(b: Builder, i: nat, draws: nat -> Draw, k: nat, c: nat)
    requires Proper(b) && i < |b.rank|
    ensures |Proposed(b, i, draws, k)| == |Kept(b, i, draws, k)|
    ensures c < k && Candidate(b, i, draws(c)) != i ==>
      var at := |Kept(b, i, draws, c)|;
      at < |Proposed(b, i, draws, k)| && Proposed(b, i, draws, k)[at] == Candidate(b, i, draws(c))
  {
    hide Candidate, Proper;
    if k == 0 {
      assert Kept(b, i, draws, k) == {};
    } else {
      ProposedInOrder(b, i, draws, k - 1, c);
      var last := if Candidate(b, i, draws(k - 1)) != i then {k - 1} else {};
      assert Kept(b, i, draws, k) == Kept(b, i, draws, k - 1) + last;
    }
  }

  /** proposals(i): at most k people, never the node itself. */
  method ProposalsOf(b: Builder, i: nat, draws: nat -> Draw, k: nat) returns (out: seq<nat>)
    requires Proper(b) && i < |b.rank|
    ensures out == Proposed(b, i, draws, k)
    ensures |out| == |Kept(b, i, draws, k)| <= k && forall c :: 0 <= c < |out| ==> out[c] < |b.arch| && out[c] != i
    ensures forall c: nat :: c < k && Candidate(b, i, draws(c)) != i ==>
              |Kept(b, i, draws, c)| < |out| && out[|Kept(b, i, draws, c)|] == Candidate(b, i, draws(c))
  {
    hide Candidate, Proper, Kept;
    out := [];
    for c := 0 to k
      invariant out == Proposed(b, i, draws, c)
    {
      var j := Candidate(b, i, draws(c));
      if j != i {
        out := out + [j];
      }
    }
    ProposedAre(b, i, draws, k);
    ProposedInOrder(b, i, draws, k, k);
    forall c: nat | c < k && Candidate(b, i, draws(c)) != i
      ensures |Kept(b, i, draws, c)| < |out| && out[|Kept(b, i, draws, c)|] == Candidate(b, i, draws(c))
    {
      ProposedInOrder(b, i, draws, k, c);
    }
  }

  /** Everybody's proposals, as both passes regenerate them. */
  ghost function All(b: Builder, kdeg: seq<nat>, draws: nat -> nat -> Draw): (props: seq<seq<nat>>)
    requires Proper(b) && |kdeg| == |b.rank|
    ensures |props| == |kdeg|
  {
    seq(|kdeg|, i requires 0 <= i < |kdeg| => Proposed(b, i, draws(i), kdeg[i]))
  }

  /** They are what the passes of the builder assume. */
  lemma AllAreValid(b: Builder, kdeg: seq<nat>, draws: nat -> nat -> Draw)
    requires Proper(b) && |kdeg| == |b.rank|
    ensures Placement.ValidProposals(All(b, kdeg, draws))
  {
    hide Bucketed, Proposed;
    forall i, c | 0 <= i < |kdeg| && 0 <= c < |All(b, kdeg, draws)[i]| ensures All(b, kdeg, draws)[i][c] < |kdeg| {
      ProposedAre(b, i, draws(i), kdeg[i]);
      assert |b.rank| == |b.arch|;
    }
  }

  /** So from the lookup structures and the draws to the graph: whatever the schedules of both passes, it lists exactly
      the ties those proposals make. */
  lemma GraphFromBuilder(b: Builder, kdeg: seq<nat>, draws: nat -> nat -> Draw,
                         counting: Placement.Schedule, off: seq<nat>, placing: Placement.Schedule)
    requires Proper(b) && |kdeg| == |b.rank|
    requires var props := All(b, kdeg, draws);
      Placement.ValidProposals(props) ==>
        && Placement.CountDone(props, Placement.CountRun(props, counting))
        && |off| == |props| + 1 && off[0] == 0
        && forall u :: 0 <= u < |props| ==> off[u + 1] == off[u] + Placement.CountRun(props, counting).caps[u]
    ensures var props := All(b, kdeg, draws);
      && Placement.ValidProposals(props) && Placement.Offsets(props, off)
      && (Placement.PlaceDone(props, Placement.PlaceRun(props, off, placing)) ==>
            var adj := Placement.PlaceRun(props, off, placing).adj;
            SocialGraph.Layout(off, |adj|) && SocialGraph.IsGraphOf(props, SocialGraph.FinalRows(adj, off)))
  {
    hide Proper, All, Placement.ValidProposals, Placement.CountDone, Placement.PlaceDone;
    AllAreValid(b, kdeg, draws);
    SocialGraph.BuiltFromProposals(All(b, kdeg, draws), counting, off, placing);
  }

  /** Among u's first k draws, one lands on v. */
  ghost predicate Draws(b: Builder, draws: nat -> Draw, k: nat, u: nat, v: nat)
    requires Proper(b) && u < |b.rank|
  {
    exists c: nat :: c < k && Candidate(b, u, draws(c)) == v
  }

  lemma {:induction false} ProposedExactly(b: Builder, u: nat, draws: nat -> Draw, k: nat, v: nat)
    requires Proper(b) && u < |b.rank|
    ensures v in Proposed(b, u, draws, k) <==> v != u && Draws(b, draws, k, u, v)
  {
    hide Candidate, Proper;
    if k > 0 {
      ProposedExactly(b, u, draws, k - 1, v);
      var j := Candidate(b, u, draws(k - 1));
      assert Draws(b, draws, k, u, v) <==> Draws(b, draws, k - 1, u, v) || j == v by {
        if j == v { assert Candidate(b, u, draws(k - 1)) == v; }
      }
    }
  }

  /** Two people are tied in the finished graph exactly when they are two and one of them drew the other. */
  lemma TiedExactlyWhenDrawn(b: Builder, kdeg: seq<nat>, draws: nat -> nat -> Draw, rows: seq<seq<nat>>,
                             u: nat, v: nat)
    requires Proper(b) && |kdeg| == |b.rank| && u < |kdeg| && v < |kdeg|
    requires Placement.ValidProposals(All(b, kdeg, draws)) && SocialGraph.IsGraphOf(All(b, kdeg, draws), rows)
    ensures v in rows[u] <==>
      u != v && (Draws(b, draws(u), kdeg[u], u, v) || Draws(b, draws(v), kdeg[v], v, u))
  {
    hide Candidate, Proper, Proposed, Draws;
    ProposedExactly(b, u, draws(u), kdeg[u], v);
    ProposedExactly(b, v, draws(v), kdeg[v], u);
  }

  lemma {:induction false} WantedAddUp(kdeg: seq<nat>, m: nat)
    requires m <= |kdeg| && forall i :: 0 <= i < |kdeg| ==> kdeg[i] >= 1
    ensures HubPool.Total(kdeg, m) >= m
  {
    if m > 0 { WantedAddUp(kdeg, m - 1); }
  }

  /** The pool the builder draws hubs from is one it can use, with at least one tie wanted by everyone, as the degree
      draw sees to. */
  method Hubs(kdeg: seq<nat>, u: real) returns (hubs: seq<nat>)
    requires 0.0 <= u < 1.0 && |kdeg| > 0 && forall i :: 0 <= i < |kdeg| ==> kdeg[i] >= 1
    ensures |hubs| > 0 && forall k :: 0 <= k < |hubs| ==> hubs[k] < |kdeg|
  {
    WantedAddUp(kdeg, |kdeg|);
    var pool, _ := HubPool.HubPool(kdeg, u);
    hubs := pool;
  }
}
