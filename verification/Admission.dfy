/** Admission: two channels as counting semaphores, a batch reservation, waits that can be abandoned, release. */
module Admission {
  // Every channel operation and atomic counter update is one step, so a run is any interleaving of any number of
  // requests.

  datatype Lane = Interactive | Batch

  /** Config after defaults(): the capacities of the two channels and the waiting limit. */
  datatype Config = Config(maxInFlight: int, batchCap: int, maxWaiting: int)

  function Max(a: int, b: int): int { if a > b then a else b }

  function Defaults(c: Config): Config {
    var m := if c.maxInFlight <= 0 then 8 else c.maxInFlight;
    var b := if c.batchCap <= 0 || c.batchCap > m then Max(1, m - 2) else c.batchCap;
    Config(m, b, if c.maxWaiting <= 0 then 64 else c.maxWaiting)
  }

  ghost predicate Usable(c: Config) {
    1 <= c.batchCap <= c.maxInFlight && 1 <= c.maxWaiting
  }

  /** Every configuration becomes usable, a usable one keeps its capacities, and a reservation exists exactly
      when the caller asked for a smaller batch share or left it to a default with more than one slot. */
  lemma DefaultsAreUsable(c: Config)
    ensures Usable(Defaults(c))
    ensures Usable(c) ==> Defaults(c).maxInFlight == c.maxInFlight && Defaults(c).batchCap == c.batchCap
    ensures c.maxInFlight <= 0 ==> Defaults(c).maxInFlight == 8
    ensures Defaults(c).maxWaiting == if c.maxWaiting <= 0 then 64 else c.maxWaiting
    ensures Defaults(c).batchCap < Defaults(c).maxInFlight <==>
      if c.maxInFlight <= 0 then c.batchCap != 8
      else c.batchCap != c.maxInFlight && c.maxInFlight != 1
  {
  }

  /** The default share leaves at least two slots batch can never occupy exactly from three slots up. */
  lemma DefaultShareLeavesTwo(c: Config)
    requires c.batchCap <= 0 || c.batchCap > Defaults(c).maxInFlight
    ensures Defaults(c).maxInFlight - Defaults(c).batchCap >= 2 <==> c.maxInFlight <= 0 || c.maxInFlight >= 3
  {
  }

  // ---------- one request's program counter ----------

  datatype Pc =
    | Arrived        // about to read the waiting count
    | Entering       // about to add itself to the waiting count
    | WantBatch      // select on the batch channel or the context
    | WantSlot       // select on the slots channel or the context
    | Counting       // got a slot, about to add to inFlight
    | Admitted       // about to leave the waiting count (deferred) with a nil error
    | Serving        // the upstream call; next is release's receive from slots
    | Uncounting     // about to subtract from inFlight
    | ReturnBatch    // release's receive from batch
    | Undo           // context ended while holding the batch token: receive from batch
    | Leaving        // about to leave the waiting count (deferred) with an error
    | Done

  datatype Request = Request(lane: Lane, pc: Pc)

  datatype State = State(reqs: seq<Request>, slots: int, batch: int, inFlight: int,
                         waitingInteractive: int, waitingBatch: int)

  /** Proceed is the request's next operation; GiveUp is the ctx.Done() arm of a select. */
  datatype Action = Arrive(lane: Lane) | Proceed(r: nat) | GiveUp(r: nat)

  ghost const IDLE := State([], 0, 0, 0, 0, 0)

  ghost function Waiting(s: State, l: Lane): int {
    if l == Interactive then s.waitingInteractive else s.waitingBatch
  }

  ghost function AddWaiting(s: State, l: Lane, d: int): State {
    if l == Interactive then s.(waitingInteractive := s.waitingInteractive + d)
    else s.(waitingBatch := s.waitingBatch + d)
  }

  ghost function Goto(s: State, r: nat, pc: Pc): State
    requires r < |s.reqs|
  {
    s.(reqs := s.reqs[r := s.reqs[r].(pc := pc)])
  }

  /** A send blocks on a full channel, a receive on an empty one. */
  ghost predicate CanProceed(c: Config, s: State, r: nat) {
    r < |s.reqs| &&
    match s.reqs[r].pc
    case WantBatch => s.batch < c.batchCap
    case WantSlot => s.slots < c.maxInFlight
    case Serving => s.slots > 0
    case ReturnBatch => s.batch > 0
    case Undo => s.batch > 0
    case Done => false
    case _ => true
  }

  ghost function Advance(c: Config, s: State, r: nat): State
    requires CanProceed(c, s, r)
  {
    var lane := s.reqs[r].lane;
    match s.reqs[r].pc
    case Arrived => Goto(s, r, if Waiting(s, lane) >= c.maxWaiting then Done else Entering)
    case Entering => Goto(AddWaiting(s, lane, 1), r, if lane == Batch then WantBatch else WantSlot)
    case WantBatch => Goto(s.(batch := s.batch + 1), r, WantSlot)
    case WantSlot => Goto(s.(slots := s.slots + 1), r, Counting)
    case Counting => Goto(s.(inFlight := s.inFlight + 1), r, Admitted)
    case Admitted => Goto(AddWaiting(s, lane, -1), r, Serving)
    case Serving => Goto(s.(slots := s.slots - 1), r, Uncounting)
    case Uncounting => Goto(s.(inFlight := s.inFlight - 1), r, if lane == Batch then ReturnBatch else Done)
    case ReturnBatch => Goto(s.(batch := s.batch - 1), r, Done)
    case Undo => Goto(s.(batch := s.batch - 1), r, Leaving)
    case Leaving => Goto(AddWaiting(s, lane, -1), r, Done)
  }

  ghost predicate CanGiveUp(s: State, r: nat) {
    r < |s.reqs| && (s.reqs[r].pc == WantBatch || s.reqs[r].pc == WantSlot)
  }

  /** Actions that are not enabled leave the state alone. */
  ghost function Step(c: Config, s: State, a: Action): State {
    match a
    case Arrive(l) => s.(reqs := s.reqs + [Request(l, Arrived)])
    case Proceed(r) => if CanProceed(c, s, r) then Advance(c, s, r) else s
    case GiveUp(r) =>
      if !CanGiveUp(s, r) then s
      else Goto(s, r, if s.reqs[r].pc == WantSlot && s.reqs[r].lane == Batch then Undo else Leaving)
  }

  // ---------- the invariant: every counter counts the requests it should ----------

  ghost function Count(reqs: seq<Request>, p: Request -> bool): nat {
    if |reqs| == 0 then 0
    else Count(reqs[..|reqs| - 1], p) + if p(reqs[|reqs| - 1]) then 1 else 0
  }

  ghost predicate HoldsSlot(q: Request) {
    q.pc == Counting || q.pc == Admitted || q.pc == Serving
  }

  ghost predicate HoldsBatch(q: Request) {
    q.lane == Batch && (q.pc == WantSlot || HoldsSlot(q) || q.pc == Uncounting || q.pc == ReturnBatch || q.pc == Undo)
  }

  ghost predicate IsCounted(q: Request) {
    q.pc == Admitted || q.pc == Serving || q.pc == Uncounting
  }

  ghost predicate IsWaiting(q: Request) {
    q.pc == WantBatch || q.pc == WantSlot || q.pc == Counting || q.pc == Admitted || q.pc == Undo || q.pc == Leaving
  }

  ghost predicate WaitsInteractive(q: Request) { IsWaiting(q) && q.lane == Interactive }

  ghost predicate WaitsBatch(q: Request) { IsWaiting(q) && q.lane == Batch }

  /** The pcs only a batch request reaches. */
  ghost predicate LaneFits(q: Request) {
    (q.pc == WantBatch || q.pc == Undo || q.pc == ReturnBatch) ==> q.lane == Batch
  }

  ghost predicate Inv(c: Config, s: State) {
    && s.slots == Count(s.reqs, HoldsSlot) <= c.maxInFlight
    && s.batch == Count(s.reqs, HoldsBatch) <= c.batchCap
    && s.inFlight == Count(s.reqs, IsCounted)
    && s.waitingInteractive == Count(s.reqs, WaitsInteractive)
    && s.waitingBatch == Count(s.reqs, WaitsBatch)
    && forall r :: 0 <= r < |s.reqs| ==> LaneFits(s.reqs[r])
  }

  lemma {:induction false} CountUpdate(reqs: seq<Request>, p: Request -> bool, r: nat, q: Request)
    requires r < |reqs|
    ensures Count(reqs[r := q], p) == Count(reqs, p) - (if p(reqs[r]) then 1 else 0) + (if p(q) then 1 else 0)
  {
    var n := |reqs| - 1;
    if r == n {
      assert reqs[r := q][..n] == reqs[..n];
    } else {
      CountUpdate(reqs[..n], p, r, q);
      assert reqs[r := q][..n] == reqs[..n][r := q];
    }
  }

  lemma CountSnoc(reqs: seq<Request>, p: Request -> bool, q: Request)
    ensures Count(reqs + [q], p) == Count(reqs, p) + if p(q) then 1 else 0
  {
    assert (reqs + [q])[..|reqs|] == reqs;
  }

  ghost function Bit(b: bool): int { if b then 1 else 0 }

  lemma GotoCounts(s: State, r: nat, pc: Pc)
    requires r < |s.reqs|
    ensures var q, q', reqs' := s.reqs[r], s.reqs[r].(pc := pc), Goto(s, r, pc).reqs;
      && Count(reqs', HoldsSlot) == Count(s.reqs, HoldsSlot) - Bit(HoldsSlot(q)) + Bit(HoldsSlot(q'))
      && Count(reqs', HoldsBatch) == Count(s.reqs, HoldsBatch) - Bit(HoldsBatch(q)) + Bit(HoldsBatch(q'))
      && Count(reqs', IsCounted) == Count(s.reqs, IsCounted) - Bit(IsCounted(q)) + Bit(IsCounted(q'))
      && Count(reqs', WaitsInteractive)
         == Count(s.reqs, WaitsInteractive) - Bit(WaitsInteractive(q)) + Bit(WaitsInteractive(q'))
      && Count(reqs', WaitsBatch) == Count(s.reqs, WaitsBatch) - Bit(WaitsBatch(q)) + Bit(WaitsBatch(q'))
  {
    var q' := s.reqs[r].(pc := pc);
    CountUpdate(s.reqs, HoldsSlot, r, q');
    CountUpdate(s.reqs, HoldsBatch, r, q');
    CountUpdate(s.reqs, IsCounted, r, q');
    CountUpdate(s.reqs, WaitsInteractive, r, q');
    CountUpdate(s.reqs, WaitsBatch, r, q');
  }

  lemma AdvanceKeeps(c: Config, s: State, r: nat)
    requires Inv(c, s) && CanProceed(c, s, r)
    ensures Inv(c, Advance(c, s, r))
  {
    hide Count;
    GotoCounts(s, r, Advance(c, s, r).reqs[r].pc);
  }

  lemma ArriveKeeps(c: Config, s: State, l: Lane)
    requires Inv(c, s)
    ensures Inv(c, Step(c, s, Arrive(l)))
  {
    var q := Request(l, Arrived);
    CountSnoc(s.reqs, HoldsSlot, q);
    CountSnoc(s.reqs, HoldsBatch, q);
    CountSnoc(s.reqs, IsCounted, q);
    CountSnoc(s.reqs, WaitsInteractive, q);
    CountSnoc(s.reqs, WaitsBatch, q);
  }

  lemma StepKeeps(c: Config, s: State, a: Action)
    requires Inv(c, s)
    ensures Inv(c, Step(c, s, a))
  {
    match a
    case Arrive(l) => ArriveKeeps(c, s, l);
    case Proceed(r) => if CanProceed(c, s, r) { AdvanceKeeps(c, s, r); }
    case GiveUp(r) => if CanGiveUp(s, r) { GotoCounts(s, r, Step(c, s, a).reqs[r].pc); }
  }

  ghost function Run(c: Config, s: State, trace: seq<Action>): State {
    if |trace| == 0 then s else Step(c, Run(c, s, trace[..|trace| - 1]), trace[|trace| - 1])
  }

  /** Every state the gateway can reach, from idle, under any interleaving. */
  lemma {:induction false} RunKeeps(c: Config, s: State, trace: seq<Action>)
    requires Inv(c, s)
    ensures Inv(c, Run(c, s, trace))
  {
    if |trace| > 0 {
      RunKeeps(c, s, trace[..|trace| - 1]);
      StepKeeps(c, Run(c, s, trace[..|trace| - 1]), trace[|trace| - 1]);
    }
  }

  ghost function Reached(c: Config, trace: seq<Action>): (s: State)
    requires Usable(c)
    ensures Inv(c, s)
  {
    RunKeeps(c, IDLE, trace);
    Run(c, IDLE, trace)
  }

  // ---------- the bounds ----------

  ghost predicate BatchInSlot(q: Request) { HoldsSlot(q) && q.lane == Batch }

  ghost predicate InteractiveInSlot(q: Request) { HoldsSlot(q) && q.lane == Interactive }

  lemma {:induction false} SlotsByLane(reqs: seq<Request>)
    ensures Count(reqs, HoldsSlot) == Count(reqs, BatchInSlot) + Count(reqs, InteractiveInSlot)
    ensures Count(reqs, BatchInSlot) <= Count(reqs, HoldsBatch)
  {
    if |reqs| > 0 { SlotsByLane(reqs[..|reqs| - 1]); }
  }

  /** At any moment at most maxInFlight requests hold a slot and at most batchCap of those are batch.  An
      interactive request is held up at the slots channel only while at least maxInFlight - batchCap
      interactive requests hold slots. */
  lemma AdmissionBounds(c: Config, trace: seq<Action>)
    requires Usable(c)
    ensures var s := Reached(c, trace);
      && Count(s.reqs, HoldsSlot) <= c.maxInFlight
      && Count(s.reqs, BatchInSlot) <= c.batchCap
      && forall r :: 0 <= r < |s.reqs| && s.reqs[r] == Request(Interactive, WantSlot) && !CanProceed(c, s, r) ==>
           Count(s.reqs, InteractiveInSlot) >= c.maxInFlight - c.batchCap
  {
    SlotsByLane(Reached(c, trace).reqs);
  }

  /** The release path and the undo after a timeout never block, and so never leave a token behind. */
  lemma ReleaseNeverBlocks(c: Config, trace: seq<Action>, r: nat)
    requires Usable(c) && r < |Reached(c, trace).reqs|
    requires var pc := Reached(c, trace).reqs[r].pc; pc != Done && pc != WantBatch && pc != WantSlot
    ensures CanProceed(c, Reached(c, trace), r)
  {
    var s := Reached(c, trace);
    if HoldsSlot(s.reqs[r]) { Positive(s.reqs, HoldsSlot, r); }
    if HoldsBatch(s.reqs[r]) { Positive(s.reqs, HoldsBatch, r); }
  }

  lemma {:induction false} Positive(reqs: seq<Request>, p: Request -> bool, r: nat)
    requires r < |reqs| && p(reqs[r])
    ensures Count(reqs, p) > 0
  {
    if r < |reqs| - 1 { Positive(reqs[..|reqs| - 1], p, r); }
  }

  lemma {:induction false} Witness(reqs: seq<Request>, p: Request -> bool) returns (r: nat)
    requires Count(reqs, p) > 0
    ensures r < |reqs| && p(reqs[r])
  {
    r := |reqs| - 1;
    if !p(reqs[r]) { r := Witness(reqs[..|reqs| - 1], p); }
  }

  ghost predicate AllDone(s: State) {
    forall r :: 0 <= r < |s.reqs| ==> s.reqs[r].pc == Done
  }

  lemma {:induction false} NoneLeft(reqs: seq<Request>, p: Request -> bool)
    requires forall r :: 0 <= r < |reqs| ==> !p(reqs[r])
    ensures Count(reqs, p) == 0
  {
    if |reqs| > 0 { NoneLeft(reqs[..|reqs| - 1], p); }
  }

  /** Nothing leaks: once every request has finished, however it finished, all tokens and counts are back. */
  lemma NothingLeaks(c: Config, trace: seq<Action>)
    requires Usable(c) && AllDone(Reached(c, trace))
    ensures var s := Reached(c, trace);
      s.slots == 0 && s.batch == 0 && s.inFlight == 0 && s.waitingInteractive == 0 && s.waitingBatch == 0
  {
    var s := Reached(c, trace);
    NoneLeft(s.reqs, HoldsSlot);
    NoneLeft(s.reqs, HoldsBatch);
    NoneLeft(s.reqs, IsCounted);
    NoneLeft(s.reqs, WaitsInteractive);
    NoneLeft(s.reqs, WaitsBatch);
  }

  // ---------- progress without timeouts ----------

  /** While any request is unfinished some request can move, and none needs a timeout to do so. */
  lemma SomeoneCanMove(c: Config, trace: seq<Action>) returns (r: nat)
    requires Usable(c) && !AllDone(Reached(c, trace))
    ensures CanProceed(c, Reached(c, trace), r)
  {
    var s := Reached(c, trace);
    r :| 0 <= r < |s.reqs| && s.reqs[r].pc != Done;
    if s.reqs[r].pc == WantBatch && !CanProceed(c, s, r) {
      r := Witness(s.reqs, HoldsBatch);
    }
    if s.reqs[r].pc == WantSlot && !CanProceed(c, s, r) {
      r := Witness(s.reqs, HoldsSlot);
    }
    if s.reqs[r].pc != WantBatch && s.reqs[r].pc != WantSlot {
      ReleaseNeverBlocks(c, trace, r);
    }
  }

  ghost function Rank(pc: Pc): nat {
    match pc
    case Arrived => 9 case Entering => 8 case WantBatch => 7 case WantSlot => 6
    case Counting => 5 case Admitted => 4 case Serving => 3 case Uncounting => 2 case ReturnBatch => 1
    case Undo => 2 case Leaving => 1 case Done => 0
  }

  ghost function Left(reqs: seq<Request>): (n: nat)
    ensures n <= 9 * |reqs|
  {
    if |reqs| == 0 then 0 else Left(reqs[..|reqs| - 1]) + Rank(reqs[|reqs| - 1].pc)
  }

  lemma {:induction false} LeftUpdate(reqs: seq<Request>, r: nat, q: Request)
    requires r < |reqs|
    ensures Left(reqs[r := q]) == Left(reqs) - Rank(reqs[r].pc) + Rank(q.pc)
  {
    var n := |reqs| - 1;
    if r == n {
      assert reqs[r := q][..n] == reqs[..n];
    } else {
      LeftUpdate(reqs[..n], r, q);
      assert reqs[r := q][..n] == reqs[..n][r := q];
    }
  }

  lemma RunSnoc(c: Config, trace: seq<Action>, a: Action)
    ensures Run(c, IDLE, trace + [a]) == Step(c, Run(c, IDLE, trace), a)
  {
    assert (trace + [a])[..|trace|] == trace;
  }

  lemma MoveTakesRank(c: Config, s: State, r: nat)
    requires CanProceed(c, s, r)
    ensures Left(Advance(c, s, r).reqs) < Left(s.reqs)
  {
    LeftUpdate(s.reqs, r, Advance(c, s, r).reqs[r]);
  }

  /** From any reachable state the requests present can all finish, with no timeout and in at most nine
      steps each. */
  lemma {:induction false} Drains(c: Config, trace: seq<Action>) returns (more: seq<Action>)
    requires Usable(c)
    ensures AllDone(Reached(c, trace + more))
    ensures |more| <= Left(Reached(c, trace).reqs) <= 9 * |Reached(c, trace).reqs|
    ensures forall k :: 0 <= k < |more| ==> more[k].Proceed?
    decreases Left(Reached(c, trace).reqs)
  {
    hide Inv, Advance, Left, Run;
    var s := Reached(c, trace);
    if AllDone(s) {
      more := [];
      assert trace + more == trace;
    } else {
      var r := SomeoneCanMove(c, trace);
      RunSnoc(c, trace, Proceed(r));
      MoveTakesRank(c, s, r);
      var rest := Drains(c, trace + [Proceed(r)]);
      more := [Proceed(r)] + rest;
      assert trace + [Proceed(r)] + rest == trace + more;
    }
  }

  // ---------- how many can wait ----------

  /** Between reading the waiting count and adding to it. */
  ghost function Enters(l: Lane): Request -> bool {
    (q: Request) => q.pc == Entering && q.lane == l
  }

  ghost function EnteringOn(s: State, l: Lane): nat {
    Count(s.reqs, Enters(l))
  }

  /** What arriving, moving or giving up does to a lane's waiting count and to those about to join it: only a request
      that reads a count below the limit starts to join, and only one that starts joins. */
  lemma WaitingMoves(c: Config, s: State, a: Action, l: Lane)
    ensures var t := Step(c, s, a);
      || Waiting(t, l) + EnteringOn(t, l) <= Waiting(s, l) + EnteringOn(s, l)
      || (Waiting(t, l) == Waiting(s, l) < c.maxWaiting && EnteringOn(t, l) == EnteringOn(s, l) + 1)
  {
    hide Count;
    match a
    case Arrive(lane) => CountSnoc(s.reqs, Enters(l), Request(lane, Arrived));
    case Proceed(r) => if CanProceed(c, s, r) { CountUpdate(s.reqs, Enters(l), r, Advance(c, s, r).reqs[r]); }
    case GiveUp(r) => if CanGiveUp(s, r) { CountUpdate(s.reqs, Enters(l), r, Step(c, s, a).reqs[r]); }
  }

  /** At no moment of the run were more than e requests of the lane between the read and the addition. */
  ghost predicate AtMostEntering(c: Config, trace: seq<Action>, l: Lane, e: nat) {
    forall n :: 0 <= n <= |trace| ==> EnteringOn(Run(c, IDLE, trace[..n]), l) <= e
  }

  lemma AtMostEnteringBefore(c: Config, trace: seq<Action>, l: Lane, e: nat)
    requires |trace| > 0 && AtMostEntering(c, trace, l, e)
    ensures AtMostEntering(c, trace[..|trace| - 1], l, e) && EnteringOn(Run(c, IDLE, trace), l) <= e
  {
    var init := trace[..|trace| - 1];
    forall n | 0 <= n <= |init| ensures EnteringOn(Run(c, IDLE, init[..n]), l) <= e {
      assert init[..n] == trace[..n];
    }
    assert trace[..|trace|] == trace;
  }

  /** The waiting limit is soft by exactly those who pass it together: with at most e requests of a lane between the
      read and the addition at a time, at most maxWaiting + e - 1 wait, so without such overlap the limit holds. */
  lemma {:induction false} WaitingBound(c: Config, trace: seq<Action>, l: Lane, e: nat)
    requires Usable(c) && e >= 1 && AtMostEntering(c, trace, l, e)
    ensures var s := Run(c, IDLE, trace); Waiting(s, l) + EnteringOn(s, l) <= c.maxWaiting + e - 1
  {
    hide Step, EnteringOn, AtMostEntering;
    if |trace| > 0 {
      var init := trace[..|trace| - 1];
      AtMostEnteringBefore(c, trace, l, e);
      WaitingBound(c, init, l, e);
      WaitingMoves(c, Run(c, IDLE, init), trace[|trace| - 1], l);
    } else {
      NobodyEnters(l);
    }
  }

  lemma NobodyEnters(l: Lane)
    ensures EnteringOn(IDLE, l) == 0
  {
  }

  /** a interactive requests wait for a slot and b more are about to join them. */
  ghost function Line(a: nat, b: nat): State {
    State(seq(a, _ => Request(Interactive, WantSlot)) + seq(b, _ => Request(Interactive, Entering)), 0, 0, 0, a, 0)
  }

  lemma {:induction false} CountRun(q: Request, k: nat, l: Lane)
    ensures Count(seq(k, _ => q), Enters(l)) == if Enters(l)(q) then k else 0
  {
    if k > 0 {
      assert seq(k, _ => q)[..k - 1] == seq(k - 1, _ => q);
      CountRun(q, k - 1, l);
    }
  }

  lemma {:induction false} CountAppend(a: seq<Request>, b: seq<Request>, p: Request -> bool)
    ensures Count(a + b, p) == Count(a, p) + Count(b, p)
  {
    if |b| == 0 {
      assert a + b == a;
    } else {
      assert (a + b)[..|a + b| - 1] == a + b[..|b| - 1];
      CountAppend(a, b[..|b| - 1], p);
    }
  }

  lemma LineEnters(a: nat, b: nat)
    ensures EnteringOn(Line(a, b), Interactive) == b
  {
    CountRun(Request(Interactive, WantSlot), a, Interactive);
    CountRun(Request(Interactive, Entering), b, Interactive);
    CountAppend(seq(a, _ => Request(Interactive, WantSlot)), seq(b, _ => Request(Interactive, Entering)),
                Enters(Interactive));
  }

  lemma AtMostEnteringNext(c: Config, trace: seq<Action>, a: Action, l: Lane, e: nat)
    requires AtMostEntering(c, trace, l, e) && EnteringOn(Step(c, Run(c, IDLE, trace), a), l) <= e
    ensures AtMostEntering(c, trace + [a], l, e)
  {
    hide EnteringOn, Step;
    RunSnoc(c, trace, a);
    forall n | 0 <= n <= |trace + [a]| ensures EnteringOn(Run(c, IDLE, (trace + [a])[..n]), l) <= e {
      if n <= |trace| {
        assert (trace + [a])[..n] == trace[..n];
      } else {
        assert (trace + [a])[..n] == trace + [a];
      }
    }
  }

  /** One more request reads the count while it is below the limit. */
  lemma OneMoreEnters(c: Config, trace: seq<Action>, a: nat, b: nat, e: nat) returns (more: seq<Action>)
    requires Usable(c) && a < c.maxWaiting && b < e && Run(c, IDLE, trace) == Line(a, b)
    requires AtMostEntering(c, trace, Interactive, e)
    ensures Run(c, IDLE, more) == Line(a, b + 1) && AtMostEntering(c, more, Interactive, e)
  {
    hide Run, AtMostEntering, Count;
    var s, p := Line(a, b), Proceed(a + b);
    var mid := Step(c, s, Arrive(Interactive));
    LineEnters(a, b);
    LineEnters(a, b + 1);
    CountSnoc(s.reqs, Enters(Interactive), Request(Interactive, Arrived));
    AtMostEnteringNext(c, trace, Arrive(Interactive), Interactive, e);
    RunSnoc(c, trace, Arrive(Interactive));
    more := trace + [Arrive(Interactive)];
    assert Step(c, mid, p).reqs == Line(a, b + 1).reqs;
    AtMostEnteringNext(c, more, p, Interactive, e);
    RunSnoc(c, more, p);
    more := more + [p];
  }

  /** One of those that have read the count adds itself to it. */
  lemma OneMoreWaits(c: Config, trace: seq<Action>, a: nat, b: nat, e: nat) returns (more: seq<Action>)
    requires Usable(c) && 0 < b <= e && Run(c, IDLE, trace) == Line(a, b)
    requires AtMostEntering(c, trace, Interactive, e)
    ensures Run(c, IDLE, more) == Line(a + 1, b - 1) && AtMostEntering(c, more, Interactive, e)
  {
    hide Run, AtMostEntering, Count;
    var p := Proceed(a);
    LineEnters(a + 1, b - 1);
    assert Step(c, Line(a, b), p).reqs == Line(a + 1, b - 1).reqs;
    AtMostEnteringNext(c, trace, p, Interactive, e);
    RunSnoc(c, trace, p);
    more := trace + [p];
  }

  /** A line of a, made by one request at a time. */
  lemma {:induction false} LineForms(c: Config, a: nat, e: nat) returns (trace: seq<Action>)
    requires Usable(c) && a < c.maxWaiting && e >= 1
    ensures Run(c, IDLE, trace) == Line(a, 0) && AtMostEntering(c, trace, Interactive, e)
  {
    hide Run, AtMostEntering;
    if a == 0 {
      trace := [];
      EmptyLine(c, e);
    } else {
      trace := LineForms(c, a - 1, e);
      trace := OneMoreEnters(c, trace, a - 1, 0, e);
      trace := OneMoreWaits(c, trace, a - 1, 1, e);
    }
  }

  lemma EmptyLine(c: Config, e: nat)
    ensures Run(c, IDLE, []) == Line(0, 0) && AtMostEntering(c, [], Interactive, e)
  {
    assert Line(0, 0).reqs == [];
    LineEnters(0, 0);
    var none: seq<Action> := [];
    forall n | 0 <= n <= |none| ensures EnteringOn(Run(c, IDLE, none[..n]), Interactive) <= e {
      assert none[..n] == none;
    }
  }

  lemma {:induction false} TogetherTheyPass(c: Config, trace: seq<Action>, a: nat, b: nat, e: nat)
    returns (more: seq<Action>)
    requires Usable(c) && a < c.maxWaiting && b <= e && Run(c, IDLE, trace) == Line(a, b)
    requires AtMostEntering(c, trace, Interactive, e)
    ensures Run(c, IDLE, more) == Line(a, e) && AtMostEntering(c, more, Interactive, e)
    decreases e - b
  {
    hide Run, AtMostEntering;
    more := trace;
    if b < e {
      more := OneMoreEnters(c, trace, a, b, e);
      more := TogetherTheyPass(c, more, a, b + 1, e);
    }
  }

  lemma {:induction false} TogetherTheyWait(c: Config, trace: seq<Action>, a: nat, b: nat, e: nat)
    returns (more: seq<Action>)
    requires Usable(c) && b <= e && Run(c, IDLE, trace) == Line(a, b) && AtMostEntering(c, trace, Interactive, e)
    ensures Run(c, IDLE, more) == Line(a + b, 0) && AtMostEntering(c, more, Interactive, e)
    decreases b
  {
    hide Run, AtMostEntering;
    more := trace;
    if b > 0 {
      more := OneMoreWaits(c, trace, a, b, e);
      more := TogetherTheyWait(c, more, a + 1, b - 1, e);
    }
  }

  /** And that many do wait in some run, for every e: the limit alone bounds nothing. */
  lemma WaitingBoundIsReached(c: Config, e: nat) returns (trace: seq<Action>)
    requires Usable(c) && e >= 1
    ensures AtMostEntering(c, trace, Interactive, e)
    ensures Waiting(Run(c, IDLE, trace), Interactive) == c.maxWaiting + e - 1
  {
    hide Run, AtMostEntering;
    var a: nat := c.maxWaiting - 1;
    trace := LineForms(c, a, e);
    trace := TogetherTheyPass(c, trace, a, 0, e);
    trace := TogetherTheyWait(c, trace, a, e, e);
  }

  /** So the limit holds in every run exactly of those in which no two requests of a lane pass it together. */
  lemma LimitHoldsExactlyWhen(c: Config, e: nat)
    requires Usable(c) && e >= 1
    ensures (forall trace :: AtMostEntering(c, trace, Interactive, e) ==>
               Waiting(Run(c, IDLE, trace), Interactive) <= c.maxWaiting) <==> e == 1
  {
    hide Run, AtMostEntering;
    if e == 1 {
      forall trace | AtMostEntering(c, trace, Interactive, e)
        ensures Waiting(Run(c, IDLE, trace), Interactive) <= c.maxWaiting
      {
        WaitingBound(c, trace, Interactive, e);
      }
    } else {
      var trace := WaitingBoundIsReached(c, e);
    }
  }

  // ---------- giving up ----------

  /** Whoever waits for a token can give up, and needs nobody else to be done two steps later at the most: it leaves the
      queue, returns the batch token if it held one, and takes nothing. */
  lemma GivingUpEnds(c: Config, trace: seq<Action>, r: nat) returns (more: seq<Action>)
    requires Usable(c) && r < |Reached(c, trace).reqs|
    requires Reached(c, trace).reqs[r].pc == WantBatch || Reached(c, trace).reqs[r].pc == WantSlot
    ensures |more| <= 3 && forall k :: 0 <= k < |more| ==> more[k] == GiveUp(r) || more[k] == Proceed(r)
    ensures var s, t := Reached(c, trace), Run(c, IDLE, trace + more);
      var q := s.reqs[r];
      && t.reqs == s.reqs[r := Request(q.lane, Done)] && t.slots == s.slots && t.inFlight == s.inFlight
      && t.batch == s.batch - (if q.lane == Batch && q.pc == WantSlot then 1 else 0)
      && Waiting(t, q.lane) == Waiting(s, q.lane) - 1
  {
    hide Inv, Run;
    var s := Reached(c, trace);
    RunSnoc(c, trace, GiveUp(r));
    more := [GiveUp(r)];
    if s.reqs[r].lane == Batch && s.reqs[r].pc == WantSlot {
      HoldsToken(c, trace, r);
      RunSnoc(c, trace + more, Proceed(r));
      assert trace + more + [Proceed(r)] == trace + (more + [Proceed(r)]);
      more := more + [Proceed(r)];
    }
    RunSnoc(c, trace + more, Proceed(r));
    assert trace + more + [Proceed(r)] == trace + (more + [Proceed(r)]);
    more := more + [Proceed(r)];
    assert Run(c, IDLE, trace + more).reqs == s.reqs[r := Request(s.reqs[r].lane, Done)];
  }

  lemma HoldsToken(c: Config, trace: seq<Action>, r: nat)
    requires Usable(c) && r < |Reached(c, trace).reqs| && HoldsBatch(Reached(c, trace).reqs[r])
    ensures Reached(c, trace).batch > 0
  {
    Positive(Reached(c, trace).reqs, HoldsBatch, r);
  }

  // ---------- when the reservation is real ----------

  /** k batch requests, each with a slot. */
  ghost function House(k: nat): State {
    State(seq(k, _ => Request(Batch, Serving)), k, k, k, 0, 0)
  }

  /** ... and one more at pc, holding the batch token. */
  ghost function HouseAnd(k: nat, pc: Pc): State {
    House(k).(reqs := House(k).reqs + [Request(Batch, pc)], batch := k + 1, waitingBatch := 1)
  }

  lemma HalfMore(c: Config, k: nat, trace: seq<Action>) returns (more: seq<Action>)
    requires Usable(c) && k < c.batchCap && Run(c, IDLE, trace) == House(k)
    ensures Run(c, IDLE, more) == HouseAnd(k, WantSlot)
  {
    var p := Proceed(k);
    more := trace + [Arrive(Batch)];
    RunSnoc(c, trace, Arrive(Batch));
    RunSnoc(c, more, p); more := more + [p];
    RunSnoc(c, more, p); more := more + [p];
    RunSnoc(c, more, p); more := more + [p];
    assert Run(c, IDLE, more).reqs == HouseAnd(k, WantSlot).reqs;
  }

  /** One more batch request runs through admit without interruption. */
  lemma OneMore(c: Config, k: nat, trace: seq<Action>) returns (more: seq<Action>)
    requires Usable(c) && k < c.batchCap && Run(c, IDLE, trace) == House(k)
    ensures Run(c, IDLE, more) == House(k + 1)
  {
    var p := Proceed(k);
    more := HalfMore(c, k, trace);
    RunSnoc(c, more, p); more := more + [p];
    RunSnoc(c, more, p); more := more + [p];
    RunSnoc(c, more, p); more := more + [p];
    assert Run(c, IDLE, more).reqs == House(k + 1).reqs;
  }

  lemma {:induction false} FullHouse(c: Config, k: nat) returns (trace: seq<Action>)
    requires Usable(c) && k <= c.batchCap
    ensures Run(c, IDLE, trace) == House(k)
  {
    if k == 0 {
      trace := [];
      assert House(0).reqs == [];
    } else {
      trace := FullHouse(c, k - 1);
      trace := OneMore(c, k - 1, trace);
    }
  }

  /** An interactive request held up at the slots channel with only batch work in the slots. */
  ghost predicate CrowdedOut(c: Config, s: State) {
    Count(s.reqs, InteractiveInSlot) == 0 &&
    exists r :: 0 <= r < |s.reqs| && s.reqs[r] == Request(Interactive, WantSlot) && !CanProceed(c, s, r)
  }

  /** "Interactive always has room" is true of a configuration exactly when its batch share is smaller than
      its slots; with an equal share some run holds an interactive request up behind batch work alone. */
  lemma ReservationIsReal(c: Config)
    requires Usable(c)
    ensures (exists trace :: CrowdedOut(c, Reached(c, trace))) <==> c.batchCap == c.maxInFlight
  {
    forall trace | CrowdedOut(c, Reached(c, trace)) ensures c.batchCap == c.maxInFlight {
      AdmissionBounds(c, trace);
    }
    if c.batchCap == c.maxInFlight {
      var k: nat := c.batchCap;
      var trace := FullHouse(c, k);
      RunSnoc(c, trace, Arrive(Interactive));
      var t1 := trace + [Arrive(Interactive)];
      RunSnoc(c, t1, Proceed(k));
      var t2 := t1 + [Proceed(k)];
      RunSnoc(c, t2, Proceed(k));
      var t3 := t2 + [Proceed(k)];
      var s := Reached(c, t3);
      assert s.reqs[k] == Request(Interactive, WantSlot);
      assert !CanProceed(c, s, k);
      NoneLeft(s.reqs, InteractiveInSlot);
      assert CrowdedOut(c, Reached(c, t3));
    }
  }
}
