/** The two concurrent passes of the graph builder: counting row slots, then filling them through atomic cursors. */
module Placement {
  // One worker per proposing node is the finest interleaving; a goroutine that handles a chunk of nodes only removes
  // schedules from it.
  import opened Common

  /** A schedule names, step by step, the worker that performs its next atomic action. */
  type Schedule = seq<nat>

  ghost predicate ValidProposals(props: seq<seq<nat>>) {
    forall i, k :: 0 <= i < |props| && 0 <= k < |props[i]| ==> props[i][k] < |props|
  }

  // ---------- how many slots of row u have been handed out ----------

  /** Occurrences of u among the first claimed[i] proposals of each of the first m nodes. */
  ghost function ReverseClaims(props: seq<seq<nat>>, claimed: seq<nat>, u: nat, m: nat): nat
    requires m <= |props| == |claimed|
    requires forall i :: 0 <= i < |props| ==> claimed[i] <= |props[i]|
  {
    if m == 0 then 0
    else ReverseClaims(props, claimed, u, m - 1) + multiset(props[m - 1][..claimed[m - 1]])[u]
  }

  ghost function Issued(props: seq<seq<nat>>, reserved: seq<bool>, claimed: seq<nat>, u: nat): nat
    requires u < |props| == |claimed| == |reserved|
    requires forall i :: 0 <= i < |props| ==> claimed[i] <= |props[i]|
  {
    (if reserved[u] then |props[u]| else 0) + ReverseClaims(props, claimed, u, |props|)
  }

  ghost function Lengths(props: seq<seq<nat>>): (c: seq<nat>)
    ensures |c| == |props| && forall i :: 0 <= i < |props| ==> c[i] == |props[i]|
  {
    seq(|props|, i requires 0 <= i < |props| => |props[i]|)
  }

  /** The capacity of row u: its own proposals plus every proposal that names it. */
  ghost function Capacity(props: seq<seq<nat>>, u: nat): nat
    requires u < |props|
  {
    |props[u]| + ReverseClaims(props, Lengths(props), u, |props|)
  }

  lemma ReverseClaimsAdvance(props: seq<seq<nat>>, claimed: seq<nat>, i: nat, u: nat, m: nat)
    requires m <= |props| == |claimed| && i < |props|
    requires forall j :: 0 <= j < |props| ==> claimed[j] <= |props[j]|
    requires claimed[i] < |props[i]|
    ensures ReverseClaims(props, claimed[i := claimed[i] + 1], u, m)
         == ReverseClaims(props, claimed, u, m) + if i < m && props[i][claimed[i]] == u then 1 else 0
  {
    if m > 0 {
      ReverseClaimsAdvance(props, claimed, i, u, m - 1);
      if i == m - 1 {
        assert props[i][..claimed[i] + 1] == props[i][..claimed[i]] + [props[i][claimed[i]]];
      }
    }
  }

  lemma ReverseClaimsBound(props: seq<seq<nat>>, claimed: seq<nat>, u: nat, m: nat)
    requires m <= |props| == |claimed|
    requires forall j :: 0 <= j < |props| ==> claimed[j] <= |props[j]|
    ensures ReverseClaims(props, claimed, u, m) <= ReverseClaims(props, Lengths(props), u, m)
    ensures forall i :: 0 <= i < m && claimed[i] < |props[i]| && props[i][claimed[i]] == u
              ==> ReverseClaims(props, claimed, u, m) < ReverseClaims(props, Lengths(props), u, m)
  {
    if m > 0 {
      ReverseClaimsBound(props, claimed, u, m - 1);
      var p, c := props[m - 1], claimed[m - 1];
      assert p[..|p|] == p[..c] + p[c..];
      assert multiset(p[..|p|])[u] == multiset(p[..c])[u] + multiset(p[c..])[u];
      if c < |p| {
        assert p[c..][0] == p[c];
      }
    }
  }

  // ---------- pass 1: count ----------

  /** A counting worker: whether its bulk add is done, and how many targets it has bumped. */
  datatype Counting = Counting(caps: seq<nat>, reserved: seq<bool>, bumped: seq<nat>)

  ghost function CountStart(props: seq<seq<nat>>): Counting {
    Counting(seq(|props|, _ => 0), seq(|props|, _ => false), seq(|props|, _ => 0))
  }

  ghost predicate CountShape(props: seq<seq<nat>>, s: Counting) {
    && |s.caps| == |s.reserved| == |s.bumped| == |props|
    && forall i :: 0 <= i < |props| ==> s.bumped[i] <= |props[i]| && (s.bumped[i] > 0 ==> s.reserved[i])
  }

  ghost function CountStep(props: seq<seq<nat>>, s: Counting, i: nat): Counting
    requires ValidProposals(props) && CountShape(props, s)
  {
    if i >= |props| then s
    else if !s.reserved[i] then
      s.(caps := s.caps[i := s.caps[i] + |props[i]|], reserved := s.reserved[i := true])
    else if s.bumped[i] < |props[i]| then
      var j := props[i][s.bumped[i]];
      s.(caps := s.caps[j := s.caps[j] + 1], bumped := s.bumped[i := s.bumped[i] + 1])
    else s
  }

  ghost predicate CountInv(props: seq<seq<nat>>, s: Counting) {
    && CountShape(props, s)
    && forall u :: 0 <= u < |props| ==> s.caps[u] == Issued(props, s.reserved, s.bumped, u)
  }

  lemma CountStepKeeps(props: seq<seq<nat>>, s: Counting, i: nat)
    requires ValidProposals(props) && CountInv(props, s)
    ensures CountInv(props, CountStep(props, s, i))
  {
    if i < |props| && s.reserved[i] && s.bumped[i] < |props[i]| {
      forall u | 0 <= u < |props| {
        ReverseClaimsAdvance(props, s.bumped, i, u, |props|);
      }
    }
  }

  ghost function CountRun(props: seq<seq<nat>>, sched: Schedule): (s: Counting)
    requires ValidProposals(props)
    ensures CountInv(props, s)
  {
    if sched == [] then
      var s := CountStart(props);
      assert CountInv(props, s) by {
        forall u | 0 <= u < |props| { NothingClaimed(props, s.bumped, u, |props|); }
      }
      s
    else
      var before := CountRun(props, sched[..|sched| - 1]);
      CountStepKeeps(props, before, sched[|sched| - 1]);
      CountStep(props, before, sched[|sched| - 1])
  }

  lemma NothingClaimed(props: seq<seq<nat>>, claimed: seq<nat>, u: nat, m: nat)
    requires m <= |props| == |claimed|
    requires forall j :: 0 <= j < |props| ==> claimed[j] == 0
    ensures ReverseClaims(props, claimed, u, m) == 0
  {
  }

  ghost predicate CountDone(props: seq<seq<nat>>, s: Counting)
    requires CountShape(props, s)
  {
    forall i :: 0 <= i < |props| ==> s.reserved[i] && s.bumped[i] == |props[i]|
  }

  /** Whatever the schedule, pass 1 ends with the same capacities. */
  lemma CountingIsScheduleFree(props: seq<seq<nat>>, sched: Schedule)
    requires ValidProposals(props) && CountDone(props, CountRun(props, sched))
    ensures forall u :: 0 <= u < |props| ==> CountRun(props, sched).caps[u] == Capacity(props, u)
  {
    assert CountRun(props, sched).bumped == Lengths(props);
  }

  /** The sequential prefix sum between the passes. */
  method PrefixSum(caps: seq<nat>) returns (off: array<nat>)
    ensures fresh(off) && off.Length == |caps| + 1
    ensures off[0] == 0 && forall u :: 0 <= u < |caps| ==> off[u + 1] == off[u] + caps[u]
  {
    off := new nat[|caps| + 1];
    var total := 0;
    var i := 0;
    while i < |caps|
      invariant 0 <= i <= |caps|
      invariant i == 0 ==> total == 0
      invariant i > 0 ==> off[0] == 0
      invariant forall u :: 0 <= u < i - 1 ==> off[u + 1] == off[u] + caps[u]
      invariant i > 0 ==> total == off[i - 1] + caps[i - 1]
    {
      off[i] := total;
      total := total + caps[i];
      i := i + 1;
    }
    off[|caps|] := total;
  }

  /** Row offsets as pass 2 finds them: every row has room for exactly its capacity. */
  ghost predicate Offsets(props: seq<seq<nat>>, off: seq<nat>) {
    && |off| == |props| + 1 && off[0] == 0
    && forall u :: 0 <= u < |props| ==> off[u + 1] == off[u] + Capacity(props, u)
  }

  /** The prefix sum of whatever pass 1 ended with gives pass 2 its offsets. */
  lemma OffsetsFollow(props: seq<seq<nat>>, counting: Schedule, off: seq<nat>)
    requires ValidProposals(props) && CountDone(props, CountRun(props, counting))
    requires |off| == |props| + 1 && off[0] == 0
    requires forall u :: 0 <= u < |props| ==> off[u + 1] == off[u] + CountRun(props, counting).caps[u]
    ensures Offsets(props, off)
  {
    CountingIsScheduleFree(props, counting);
  }

  lemma OffsetsGrow(props: seq<seq<nat>>, off: seq<nat>, u: nat, v: nat)
    requires Offsets(props, off) && u <= v <= |props|
    ensures off[u] <= off[v]
    decreases v - u
  {
    if u < v { OffsetsGrow(props, off, u, v - 1); }
  }

  // ---------- pass 2: place ----------

  /** Which write a slot was handed out for: node i's k-th own entry, or the reverse entry of i's k-th proposal. */
  datatype Token = Own(i: nat, k: nat) | Reverse(i: nat, k: nat)

  datatype Phase = Waiting | WriteOwn | Claim | WriteReverse

  /** base and k are the worker's locals; the last element of claims is its local p.  Earlier elements of
      claims are history. */
  datatype Worker = Worker(phase: Phase, base: nat, k: nat, claims: seq<nat>)

  /** cur and adj are the shared arrays.  holder and writes are history: the token each slot was handed out
      for and how often it was written.  panicked records an index out of range. */
  datatype Placing = Placing(cur: seq<nat>, adj: seq<nat>, workers: seq<Worker>,
                             holder: seq<Option<Token>>, writes: seq<nat>, panicked: bool)

  ghost function PlaceStart(props: seq<seq<nat>>, off: seq<nat>): Placing
    requires |off| == |props| + 1
  {
    var size := off[|props|];
    Placing(off[..|props|], seq(size, _ => 0), seq(|props|, _ => Worker(Waiting, 0, 0, [])),
            seq(size, _ => None), seq(size, _ => 0), false)
  }

  ghost predicate PlaceShape(props: seq<seq<nat>>, s: Placing) {
    && |s.cur| == |s.workers| == |props|
    && |s.adj| == |s.holder| == |s.writes|
    && forall i :: 0 <= i < |props| ==>
         var w := s.workers[i];
         && w.k <= |props[i]|
         && (w.phase == Waiting ==> w.k == 0)
         && (w.phase == Claim || w.phase == WriteReverse ==> w.k < |props[i]|)
         && |w.claims| == w.k + (if w.phase == WriteReverse then 1 else 0)
  }

  ghost predicate Finished(proposed: seq<nat>, w: Worker) {
    w.phase == WriteOwn && w.k == |proposed|
  }

  ghost function Write(s: Placing, q: nat, v: nat): Placing
    requires |s.adj| == |s.writes|
  {
    if q < |s.adj| then s.(adj := s.adj[q := v], writes := s.writes[q := s.writes[q] + 1])
    else s.(panicked := true)
  }

  /** One atomic action of worker i: the bulk reservation, a plain slot write, or a single-slot claim. */
  ghost function PlaceStep(props: seq<seq<nat>>, s: Placing, i: nat): Placing
    requires ValidProposals(props) && PlaceShape(props, s)
  {
    if i >= |props| || Finished(props[i], s.workers[i]) then s
    else
      var w := s.workers[i];
      match w.phase
      case Waiting =>
        var base, len := s.cur[i], |props[i]|;
        s.(cur := s.cur[i := base + len],
           workers := s.workers[i := w.(phase := WriteOwn, base := base)],
           holder := seq(|s.holder|, q requires 0 <= q < |s.holder| =>
             if base <= q < base + len then Some(Own(i, q - base)) else s.holder[q]))
      case WriteOwn =>
        Write(s, w.base + w.k, props[i][w.k]).(workers := s.workers[i := w.(phase := Claim)])
      case Claim =>
        var j := props[i][w.k];
        var p := s.cur[j];
        s.(cur := s.cur[j := p + 1],
           workers := s.workers[i := w.(phase := WriteReverse, claims := w.claims + [p])],
           holder := if p < |s.holder| then s.holder[p := Some(Reverse(i, w.k))] else s.holder)
      case WriteReverse =>
        Write(s, w.claims[w.k], i).(workers := s.workers[i := w.(phase := WriteOwn, k := w.k + 1)])
  }

  ghost function Reserved(workers: seq<Worker>): seq<bool> {
    seq(|workers|, i requires 0 <= i < |workers| => workers[i].phase != Waiting)
  }

  ghost function Claimed(workers: seq<Worker>): seq<nat> {
    seq(|workers|, i requires 0 <= i < |workers| => |workers[i].claims|)
  }

  ghost function RowOf(props: seq<seq<nat>>, t: Token): nat
    requires t.i < |props| && t.k < |props[t.i]|
  {
    if t.Own? then t.i else props[t.i][t.k]
  }

  ghost function ValueOf(props: seq<seq<nat>>, t: Token): nat
    requires t.i < |props| && t.k < |props[t.i]|
  {
    if t.Own? then props[t.i][t.k] else t.i
  }

  /** The slot was handed out for t but the write has not happened yet. */
  ghost predicate Pending(w: Worker, t: Token) {
    if t.Own? then w.k < t.k || (w.k == t.k && w.phase == WriteOwn)
    else w.k == t.k && w.phase == WriteReverse
  }

  ghost predicate Cursors(props: seq<seq<nat>>, off: seq<nat>, s: Placing)
    requires ValidProposals(props) && PlaceShape(props, s) && Offsets(props, off)
  {
    forall u :: 0 <= u < |props| ==>
      s.cur[u] == off[u] + Issued(props, Reserved(s.workers), Claimed(s.workers), u)
  }

  /** The handed-out slots of row u are exactly off[u] .. cur[u], each for a token of that row. */
  ghost predicate Handed(props: seq<seq<nat>>, off: seq<nat>, s: Placing)
    requires ValidProposals(props) && PlaceShape(props, s) && Offsets(props, off)
  {
    && (forall u, q :: 0 <= u < |props| && off[u] <= q < s.cur[u] && q < |s.holder| ==> s.holder[q].Some?)
    && (forall q :: 0 <= q < |s.holder| && s.holder[q].Some? ==>
          var t := s.holder[q].value;
          && t.i < |props| && t.k < |props[t.i]|
          && off[RowOf(props, t)] <= q < s.cur[RowOf(props, t)])
  }

  /** A slot is written once if its token's write has happened, and never otherwise. */
  ghost predicate WrittenOnce(props: seq<seq<nat>>, s: Placing)
    requires PlaceShape(props, s)
  {
    forall q :: 0 <= q < |s.holder| ==> WrittenAt(props, s, q)
  }

  ghost predicate WrittenAt(props: seq<seq<nat>>, s: Placing, q: nat)
    requires PlaceShape(props, s) && q < |s.holder|
  {
    match s.holder[q]
    case None => s.writes[q] == 0
    case Some(t) =>
      t.i < |props| && t.k < |props[t.i]| &&
      if Pending(s.workers[t.i], t) then s.writes[q] == 0
      else s.writes[q] == 1 && s.adj[q] == ValueOf(props, t)
  }

  /** The slot a worker got for t. */
  ghost predicate Located(w: Worker, t: Token, q: nat) {
    if t.Own? then w.phase != Waiting && q == w.base + t.k
    else t.k < |w.claims| && w.claims[t.k] == q
  }

  /** Each worker's locals name the slots handed out to it, */
  ghost predicate Held(props: seq<seq<nat>>, s: Placing)
    requires PlaceShape(props, s)
  {
    forall i :: 0 <= i < |props| ==> HeldBy(s.holder, s.workers[i], i, |props[i]|)
  }

  ghost predicate HeldBy(holder: seq<Option<Token>>, w: Worker, i: nat, len: nat) {
    && (w.phase != Waiting ==> w.base + len <= |holder|)
    && (w.phase != Waiting ==> forall q :: w.base <= q < w.base + len ==> holder[q] == Some(Own(i, q - w.base)))
    && (forall c :: 0 <= c < |w.claims| ==>
          w.claims[c] < |holder| && holder[w.claims[c]] == Some(Reverse(i, c)))
  }

  /** ... and no other slot was handed out: one slot per token. */
  ghost predicate AtHome(props: seq<seq<nat>>, s: Placing)
    requires PlaceShape(props, s)
  {
    forall q :: 0 <= q < |s.holder| && s.holder[q].Some? ==>
      var t := s.holder[q].value; t.i < |props| && Located(s.workers[t.i], t, q)
  }

  ghost predicate PlaceInv(props: seq<seq<nat>>, off: seq<nat>, s: Placing)
  {
    && ValidProposals(props) && Offsets(props, off)
    && PlaceShape(props, s) && |s.adj| == off[|props|] && !s.panicked
    && Cursors(props, off, s) && Handed(props, off, s) && WrittenOnce(props, s)
    && Held(props, s) && AtHome(props, s)
  }

  /** Room left in row u for worker i's next cursor action. */
  lemma RoomLeft(props: seq<seq<nat>>, off: seq<nat>, s: Placing, i: nat, u: nat)
    requires ValidProposals(props) && Offsets(props, off) && PlaceShape(props, s) && Cursors(props, off, s)
    requires i < |props| && u < |props|
    ensures s.cur[u] <= off[u + 1] <= off[|props|]
    ensures u == i && s.workers[i].phase == Waiting ==> s.cur[u] + |props[u]| <= off[u + 1]
    ensures s.workers[i].phase == Claim && props[i][s.workers[i].k] == u ==> s.cur[u] < off[u + 1]
  {
    var claimed := Claimed(s.workers);
    ReverseClaimsBound(props, claimed, u, |props|);
    OffsetsGrow(props, off, u + 1, |props|);
    assert s.workers[i].phase == Claim ==> claimed[i] == s.workers[i].k;
  }

  /** A free slot of row v is not handed out. */
  lemma FreeSlot(props: seq<seq<nat>>, off: seq<nat>, s: Placing, v: nat, q: nat)
    requires PlaceInv(props, off, s)
    requires v < |props| && s.cur[v] <= q < off[v + 1]
    ensures q < |s.holder| && s.holder[q].None?
  {
    hide WrittenOnce, Held, AtHome, Capacity, Issued, ReverseClaims;
    RoomLeft(props, off, s, v, v);
    if s.holder[q].Some? {
      var u := RowOf(props, s.holder[q].value);
      RoomLeft(props, off, s, v, u);
      if u < v { OffsetsGrow(props, off, u + 1, v); }
      if v < u { OffsetsGrow(props, off, v + 1, u); }
    }
  }

  lemma ClaimAdvances(props: seq<seq<nat>>, off: seq<nat>, s: Placing, i: nat)
    requires ValidProposals(props) && Offsets(props, off) && PlaceShape(props, s) && Cursors(props, off, s)
    requires i < |props| && s.workers[i].phase == Claim
    ensures var s' := PlaceStep(props, s, i); PlaceShape(props, s') && Cursors(props, off, s')
  {
    var s' := PlaceStep(props, s, i);
    var claimed := Claimed(s.workers);
    assert claimed[i] == s.workers[i].k;
    assert Claimed(s'.workers) == claimed[i := claimed[i] + 1];
    assert Reserved(s'.workers) == Reserved(s.workers);
    forall u | 0 <= u < |props|
      ensures s'.cur[u] == off[u] + Issued(props, Reserved(s'.workers), Claimed(s'.workers), u)
    {
      ReverseClaimsAdvance(props, claimed, i, u, |props|);
    }
  }

  lemma OthersAdvance(props: seq<seq<nat>>, off: seq<nat>, s: Placing, i: nat)
    requires ValidProposals(props) && Offsets(props, off) && PlaceShape(props, s) && Cursors(props, off, s)
    requires i < |props| && s.workers[i].phase != Claim
    ensures var s' := PlaceStep(props, s, i); PlaceShape(props, s') && Cursors(props, off, s')
  {
    var s' := PlaceStep(props, s, i);
    assert Claimed(s'.workers) == Claimed(s.workers);
    if s.workers[i].phase == Waiting {
      assert Reserved(s'.workers) == Reserved(s.workers)[i := true];
    } else {
      assert Reserved(s'.workers) == Reserved(s.workers);
    }
  }

  // One lemma per action and per part of the invariant, each from only the parts it needs.

  lemma ReserveHands(props: seq<seq<nat>>, off: seq<nat>, s: Placing, i: nat)
    requires ValidProposals(props) && PlaceShape(props, s) && i < |props| && s.workers[i].phase == Waiting
    requires Offsets(props, off) && Handed(props, off, s) && off[i] <= s.cur[i]
    ensures Handed(props, off, PlaceStep(props, s, i))
  {
  }

  lemma ReserveWrites(props: seq<seq<nat>>, s: Placing, i: nat)
    requires ValidProposals(props) && PlaceShape(props, s) && i < |props| && s.workers[i].phase == Waiting
    requires WrittenOnce(props, s) && AtHome(props, s)
    requires forall q :: s.cur[i] <= q < s.cur[i] + |props[i]| ==> q < |s.holder| && s.holder[q].None?
    ensures WrittenOnce(props, PlaceStep(props, s, i))
  {
    var s' := PlaceStep(props, s, i);
    forall q | 0 <= q < |s'.holder| ensures WrittenAt(props, s', q) {
      assert WrittenAt(props, s, q);
    }
  }

  lemma ReserveHolds(props: seq<seq<nat>>, s: Placing, i: nat)
    requires i < |s.cur| && s.cur[i] + (if i < |props| then |props[i]| else 0) <= |s.holder|
    requires ValidProposals(props) && PlaceShape(props, s) && i < |props| && s.workers[i].phase == Waiting
    requires Held(props, s) && AtHome(props, s)
    requires forall q :: s.cur[i] <= q < s.cur[i] + |props[i]| ==> q < |s.holder| && s.holder[q].None?
    ensures Held(props, PlaceStep(props, s, i)) && AtHome(props, PlaceStep(props, s, i))
  {
    var s' := PlaceStep(props, s, i);
    forall j | 0 <= j < |props| ensures HeldBy(s'.holder, s'.workers[j], j, |props[j]|) {
      assert HeldBy(s.holder, s.workers[j], j, |props[j]|);
      if j != i && s.workers[j].phase != Waiting {
        var base := s.workers[j].base;
        forall q | base <= q < base + |props[j]| ensures s'.holder[q] == Some(Own(j, q - base)) {
          assert s.holder[q] == Some(Own(j, q - base));
        }
      }
    }
  }

  lemma OwnWrites(props: seq<seq<nat>>, s: Placing, i: nat)
    requires ValidProposals(props) && PlaceShape(props, s) && i < |props|
    requires s.workers[i].phase == WriteOwn && s.workers[i].k < |props[i]|
    requires WrittenOnce(props, s) && Held(props, s) && AtHome(props, s)
    ensures PlaceStep(props, s, i).panicked == s.panicked && WrittenOnce(props, PlaceStep(props, s, i))
  {
    assert s.holder[s.workers[i].base + s.workers[i].k] == Some(Own(i, s.workers[i].k));
    var s' := PlaceStep(props, s, i);
    forall q | 0 <= q < |s'.holder| ensures WrittenAt(props, s', q) {
      assert WrittenAt(props, s, q);
    }
  }

  lemma OwnHolds(props: seq<seq<nat>>, s: Placing, i: nat)
    requires ValidProposals(props) && PlaceShape(props, s) && i < |props|
    requires s.workers[i].phase == WriteOwn && s.workers[i].k < |props[i]|
    requires Held(props, s) && AtHome(props, s)
    ensures Held(props, PlaceStep(props, s, i)) && AtHome(props, PlaceStep(props, s, i))
  {
    var s' := PlaceStep(props, s, i);
    forall j | 0 <= j < |props| ensures HeldBy(s'.holder, s'.workers[j], j, |props[j]|) {
      assert HeldBy(s.holder, s.workers[j], j, |props[j]|);
    }
  }

  lemma ClaimHands(props: seq<seq<nat>>, off: seq<nat>, s: Placing, i: nat)
    requires ValidProposals(props) && PlaceShape(props, s) && i < |props| && s.workers[i].phase == Claim
    requires Offsets(props, off) && Handed(props, off, s)
    requires var j := props[i][s.workers[i].k]; off[j] <= s.cur[j]
    requires var p := s.cur[props[i][s.workers[i].k]]; p < |s.holder| && s.holder[p].None?
    ensures Handed(props, off, PlaceStep(props, s, i))
  {
  }

  lemma ClaimWrites(props: seq<seq<nat>>, s: Placing, i: nat)
    requires ValidProposals(props) && PlaceShape(props, s) && i < |props| && s.workers[i].phase == Claim
    requires WrittenOnce(props, s) && AtHome(props, s)
    requires var p := s.cur[props[i][s.workers[i].k]]; p < |s.holder| && s.holder[p].None?
    ensures WrittenOnce(props, PlaceStep(props, s, i))
  {
    var s' := PlaceStep(props, s, i);
    forall q | 0 <= q < |s'.holder| ensures WrittenAt(props, s', q) {
      assert WrittenAt(props, s, q);
    }
  }

  lemma ClaimHolds(props: seq<seq<nat>>, s: Placing, i: nat)
    requires ValidProposals(props) && PlaceShape(props, s) && i < |props| && s.workers[i].phase == Claim
    requires Held(props, s) && AtHome(props, s)
    requires var p := s.cur[props[i][s.workers[i].k]]; p < |s.holder| && s.holder[p].None?
    ensures Held(props, PlaceStep(props, s, i)) && AtHome(props, PlaceStep(props, s, i))
  {
    ClaimHeld(props, s, i);
    ClaimAtHome(props, s, i);
  }

  lemma ClaimHeld(props: seq<seq<nat>>, s: Placing, i: nat)
    requires ValidProposals(props) && PlaceShape(props, s) && i < |props| && s.workers[i].phase == Claim
    requires Held(props, s)
    requires var p := s.cur[props[i][s.workers[i].k]]; p < |s.holder| && s.holder[p].None?
    ensures Held(props, PlaceStep(props, s, i))
  {
    var s' := PlaceStep(props, s, i);
    forall j | 0 <= j < |props| ensures HeldBy(s'.holder, s'.workers[j], j, |props[j]|) {
      assert HeldBy(s.holder, s.workers[j], j, |props[j]|);
    }
  }

  lemma ClaimAtHome(props: seq<seq<nat>>, s: Placing, i: nat)
    requires ValidProposals(props) && PlaceShape(props, s) && i < |props| && s.workers[i].phase == Claim
    requires Held(props, s) && AtHome(props, s)
    requires var p := s.cur[props[i][s.workers[i].k]]; p < |s.holder| && s.holder[p].None?
    ensures AtHome(props, PlaceStep(props, s, i))
  {
    assert HeldBy(s.holder, s.workers[i], i, |props[i]|);
  }

  lemma ReverseWrites(props: seq<seq<nat>>, s: Placing, i: nat)
    requires ValidProposals(props) && PlaceShape(props, s) && i < |props| && s.workers[i].phase == WriteReverse
    requires WrittenOnce(props, s) && Held(props, s) && AtHome(props, s)
    ensures PlaceStep(props, s, i).panicked == s.panicked && WrittenOnce(props, PlaceStep(props, s, i))
  {
    assert s.holder[s.workers[i].claims[s.workers[i].k]] == Some(Reverse(i, s.workers[i].k));
    var s' := PlaceStep(props, s, i);
    forall q | 0 <= q < |s'.holder| ensures WrittenAt(props, s', q) {
      assert WrittenAt(props, s, q);
    }
  }

  lemma ReverseHolds(props: seq<seq<nat>>, s: Placing, i: nat)
    requires ValidProposals(props) && PlaceShape(props, s) && i < |props| && s.workers[i].phase == WriteReverse
    requires Held(props, s) && AtHome(props, s)
    ensures Held(props, PlaceStep(props, s, i)) && AtHome(props, PlaceStep(props, s, i))
  {
    var s' := PlaceStep(props, s, i);
    forall j | 0 <= j < |props| ensures HeldBy(s'.holder, s'.workers[j], j, |props[j]|) {
      assert HeldBy(s.holder, s.workers[j], j, |props[j]|);
    }
  }

  /** Every atomic action keeps the placement invariant; in particular none indexes out of range. */
  lemma PlaceStepKeeps(props: seq<seq<nat>>, off: seq<nat>, s: Placing, i: nat)
    requires PlaceInv(props, off, s)
    ensures PlaceInv(props, off, PlaceStep(props, s, i))
  {
    if i < |props| && !Finished(props[i], s.workers[i]) {
      if s.workers[i].phase == Claim { ClaimAdvances(props, off, s, i); } else { OthersAdvance(props, off, s, i); }
      match s.workers[i].phase
      case Waiting =>
        RoomLeft(props, off, s, i, i);
        forall q | s.cur[i] <= q < s.cur[i] + |props[i]| ensures q < |s.holder| && s.holder[q].None? {
          FreeSlot(props, off, s, i, q);
        }
        ReserveHands(props, off, s, i);
        ReserveWrites(props, s, i);
        ReserveHolds(props, s, i);
      case WriteOwn =>
        OwnWrites(props, s, i);
        OwnHolds(props, s, i);
      case Claim =>
        var j := props[i][s.workers[i].k];
        RoomLeft(props, off, s, i, j);
        FreeSlot(props, off, s, j, s.cur[j]);
        ClaimHands(props, off, s, i);
        ClaimWrites(props, s, i);
        ClaimHolds(props, s, i);
      case WriteReverse =>
        ReverseWrites(props, s, i);
        ReverseHolds(props, s, i);
    }
  }

  lemma PlaceStartHolds(props: seq<seq<nat>>, off: seq<nat>)
    requires ValidProposals(props) && Offsets(props, off)
    ensures PlaceInv(props, off, PlaceStart(props, off))
  {
    var s := PlaceStart(props, off);
    forall u | 0 <= u < |props| ensures s.cur[u] == off[u] + Issued(props, Reserved(s.workers), Claimed(s.workers), u) {
      NothingClaimed(props, Claimed(s.workers), u, |props|);
    }
  }

  ghost function PlaceRun(props: seq<seq<nat>>, off: seq<nat>, sched: Schedule): (s: Placing)
    requires ValidProposals(props) && Offsets(props, off)
    ensures PlaceInv(props, off, s)
  {
    if sched == [] then PlaceStartHolds(props, off); PlaceStart(props, off)
    else
      var before := PlaceRun(props, off, sched[..|sched| - 1]);
      PlaceStepKeeps(props, off, before, sched[|sched| - 1]);
      PlaceStep(props, before, sched[|sched| - 1])
  }

  // ---------- pass 2 can always finish ----------

  ghost function WorkerWork(w: Worker, len: nat): int {
    match w.phase
    case Waiting => 3 * len + 1
    case WriteOwn => 3 * (len - w.k)
    case Claim => 3 * (len - w.k) - 1
    case WriteReverse => 3 * (len - w.k) - 2
  }

  ghost function Work(props: seq<seq<nat>>, workers: seq<Worker>, m: nat): int
    requires m <= |props| == |workers|
  {
    if m == 0 then 0 else Work(props, workers, m - 1) + WorkerWork(workers[m - 1], |props[m - 1]|)
  }

  lemma WorkUpdate(props: seq<seq<nat>>, workers: seq<Worker>, i: nat, w: Worker, m: nat)
    requires i < m <= |props| == |workers|
    ensures Work(props, workers[i := w], m)
         == Work(props, workers, m) - WorkerWork(workers[i], |props[i]|) + WorkerWork(w, |props[i]|)
  {
    if i < m - 1 {
      WorkUpdate(props, workers, i, w, m - 1);
    } else {
      WorkPrefix(props, workers, workers[i := w], i);
    }
  }

  lemma WorkPrefix(props: seq<seq<nat>>, a: seq<Worker>, b: seq<Worker>, m: nat)
    requires m <= |props| == |a| == |b|
    requires forall j :: 0 <= j < m ==> a[j] == b[j]
    ensures Work(props, a, m) == Work(props, b, m)
  {
  }

  lemma WorkNonNegative(props: seq<seq<nat>>, s: Placing, m: nat)
    requires PlaceShape(props, s) && m <= |props|
    ensures Work(props, s.workers, m) >= 0
  {
  }

  lemma StepDoesWork(props: seq<seq<nat>>, s: Placing, i: nat)
    requires ValidProposals(props) && PlaceShape(props, s)
    requires i < |props| && !Finished(props[i], s.workers[i])
    ensures |PlaceStep(props, s, i).workers| == |props|
    ensures 0 <= Work(props, PlaceStep(props, s, i).workers, |props|) < Work(props, s.workers, |props|)
  {
    var s' := PlaceStep(props, s, i);
    assert s'.workers == s.workers[i := s'.workers[i]];
    WorkUpdate(props, s.workers, i, s'.workers[i], |props|);
    assert PlaceShape(props, s');
    WorkNonNegative(props, s', |props|);
  }

  lemma RunSnoc(props: seq<seq<nat>>, off: seq<nat>, sched: Schedule, i: nat)
    requires ValidProposals(props) && Offsets(props, off)
    ensures PlaceRun(props, off, sched + [i]) == PlaceStep(props, PlaceRun(props, off, sched), i)
  {
    assert (sched + [i])[..|sched|] == sched;
  }

  /** No worker ever blocks another: any partial schedule extends to one that ends the pass. */
  lemma {:induction false} PlacementCanFinish(props: seq<seq<nat>>, off: seq<nat>, sched: Schedule)
    returns (more: Schedule)
    requires ValidProposals(props) && Offsets(props, off)
    ensures PlaceDone(props, PlaceRun(props, off, sched + more))
    decreases Work(props, PlaceRun(props, off, sched).workers, |props|)
  {
    var s := PlaceRun(props, off, sched);
    if PlaceDone(props, s) {
      more := [];
      assert sched + more == sched;
    } else {
      var i: nat :| i < |props| && !Finished(props[i], s.workers[i]);
      RunSnoc(props, off, sched, i);
      StepDoesWork(props, s, i);
      var rest := PlacementCanFinish(props, off, sched + [i]);
      more := [i] + rest;
      Resumed(props, off, sched, i, rest);
    }
  }

  lemma Resumed(props: seq<seq<nat>>, off: seq<nat>, sched: Schedule, i: nat, rest: Schedule)
    requires ValidProposals(props) && Offsets(props, off)
    ensures PlaceRun(props, off, sched + [i] + rest) == PlaceRun(props, off, sched + ([i] + rest))
  {
    hide PlaceRun, PlaceInv;
    assert sched + [i] + rest == sched + ([i] + rest);
  }

  ghost predicate PlaceDone(props: seq<seq<nat>>, s: Placing)
    requires PlaceShape(props, s)
  {
    forall i :: 0 <= i < |props| ==> Finished(props[i], s.workers[i])
  }

  /** v belongs in row u before sorting: one of the two proposed the other. */
  ghost predicate Proposed(props: seq<seq<nat>>, u: nat, v: nat) {
    u < |props| && v < |props| && (v in props[u] || u in props[v])
  }

  lemma CursorsFull(props: seq<seq<nat>>, off: seq<nat>, s: Placing)
    requires PlaceInv(props, off, s) && PlaceDone(props, s)
    ensures forall u :: 0 <= u < |props| ==> s.cur[u] == off[u + 1]
  {
    assert Claimed(s.workers) == Lengths(props);
  }

  /** When all workers are done, every slot has been written, once, with the value it was handed out for. */
  lemma SlotFilled(props: seq<seq<nat>>, off: seq<nat>, s: Placing, q: nat)
    requires PlaceInv(props, off, s) && PlaceDone(props, s) && q < |s.adj|
    ensures s.writes[q] == 1 && s.holder[q].Some?
    ensures var t := s.holder[q].value;
      && t.i < |props| && t.k < |props[t.i]| && s.adj[q] == ValueOf(props, t)
      && off[RowOf(props, t)] <= q < off[RowOf(props, t) + 1]
  {
    CursorsFull(props, off, s);
    var u := RowAt(props, off, q, |props|);
    assert s.holder[q].Some?;
    assert WrittenAt(props, s, q);
    var t := s.holder[q].value;
    assert Located(s.workers[t.i], t, q);
    assert Finished(props[t.i], s.workers[t.i]);
  }

  lemma RowHoldsProposed(props: seq<seq<nat>>, off: seq<nat>, s: Placing, u: nat, q: nat)
    requires PlaceInv(props, off, s) && PlaceDone(props, s) && u < |props| && off[u] <= q < off[u + 1]
    ensures q < |s.adj| && Proposed(props, u, s.adj[q])
  {
    hide WrittenOnce, AtHome, Held, Capacity, Issued, ReverseClaims;
    OffsetsGrow(props, off, u + 1, |props|);
    SlotFilled(props, off, s, q);
    TokenInRow(props, off, s.holder[q].value, q, u);
  }

  lemma TokenInRow(props: seq<seq<nat>>, off: seq<nat>, t: Token, q: nat, u: nat)
    requires ValidProposals(props) && Offsets(props, off) && t.i < |props| && t.k < |props[t.i]| && u < |props|
    requires off[u] <= q < off[u + 1] && off[RowOf(props, t)] <= q < off[RowOf(props, t) + 1]
    ensures Proposed(props, u, ValueOf(props, t))
  {
    SameRow(props, off, q, u, RowOf(props, t));
  }

  lemma ProposedIsInRow(props: seq<seq<nat>>, off: seq<nat>, s: Placing, u: nat, v: nat) returns (q: nat)
    requires PlaceInv(props, off, s) && PlaceDone(props, s) && Proposed(props, u, v)
    ensures off[u] <= q < off[u + 1] <= |s.adj| && s.adj[q] == v
  {
    hide WrittenOnce, AtHome, Capacity, Issued, ReverseClaims;
    OffsetsGrow(props, off, u + 1, |props|);
    CursorsFull(props, off, s);
    if v in props[u] {
      var k :| 0 <= k < |props[u]| && props[u][k] == v;
      assert HeldBy(s.holder, s.workers[u], u, |props[u]|);
      q := s.workers[u].base + k;
      assert s.holder[q] == Some(Own(u, k));
    } else {
      var k :| 0 <= k < |props[v]| && props[v][k] == u;
      assert HeldBy(s.holder, s.workers[v], v, |props[v]|);
      q := s.workers[v].claims[k];
      assert s.holder[q] == Some(Reverse(v, k));
    }
    SlotFilled(props, off, s, q);
  }

  /** Row u of the raw adjacency array holds exactly the nodes tied to u by a proposal. */
  ghost predicate RowComplete(props: seq<seq<nat>>, off: seq<nat>, adj: seq<nat>, u: nat)
    requires u < |props| < |off|
  {
    && off[u] <= off[u + 1] <= |adj|
    && forall v: nat :: v in adj[off[u]..off[u + 1]] <==> Proposed(props, u, v)
  }

  lemma RowIsComplete(props: seq<seq<nat>>, off: seq<nat>, s: Placing, u: nat)
    requires PlaceInv(props, off, s) && PlaceDone(props, s) && u < |props|
    ensures RowComplete(props, off, s.adj, u)
  {
    OffsetsGrow(props, off, u + 1, |props|);
    var row := s.adj[off[u]..off[u + 1]];
    forall v: nat ensures v in row <==> Proposed(props, u, v) {
      if v in row {
        var k :| 0 <= k < |row| && row[k] == v;
        RowHoldsProposed(props, off, s, u, off[u] + k);
      }
      if Proposed(props, u, v) {
        var q := ProposedIsInRow(props, off, s, u, v);
        assert row[q - off[u]] == v;
      }
    }
  }

  /** Whatever the schedule of the atomic actions of pass 2: no index is out of range, every slot of the
      adjacency array has been written exactly once when all workers are done, and row u holds exactly the
      nodes that u proposed or that proposed u. */
  lemma PlacementIsScheduleFree(props: seq<seq<nat>>, off: seq<nat>, sched: Schedule)
    requires ValidProposals(props) && Offsets(props, off)
    requires PlaceDone(props, PlaceRun(props, off, sched))
    ensures var s := PlaceRun(props, off, sched);
      && !s.panicked && |s.adj| == off[|props|]
      && (forall q :: 0 <= q < |s.adj| ==> s.writes[q] == 1)
      && (forall u :: 0 <= u < |props| ==> RowComplete(props, off, s.adj, u))
  {
    var s := PlaceRun(props, off, sched);
    forall q | 0 <= q < |s.adj| ensures s.writes[q] == 1 {
      SlotFilled(props, off, s, q);
    }
    forall u | 0 <= u < |props| {
      RowIsComplete(props, off, s, u);
    }
  }

  /** Each slot lies in some row. */
  lemma RowAt(props: seq<seq<nat>>, off: seq<nat>, q: nat, m: nat) returns (u: nat)
    requires Offsets(props, off) && m <= |props| && q < off[m]
    ensures u < m && off[u] <= q < off[u + 1]
  {
    if off[m - 1] <= q { u := m - 1; } else { u := RowAt(props, off, q, m - 1); }
  }

  /** ... and in only one. */
  lemma SameRow(props: seq<seq<nat>>, off: seq<nat>, q: nat, u: nat, v: nat)
    requires Offsets(props, off) && u < |props| && v < |props|
    requires off[u] <= q < off[u + 1] && off[v] <= q < off[v + 1]
    ensures u == v
  {
    if u < v { OffsetsGrow(props, off, u + 1, v); }
    if v < u { OffsetsGrow(props, off, v + 1, u); }
  }
}
