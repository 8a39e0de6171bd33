/** State frames: dirty list, last-sent copy, bytes and parser, and how the page mirrors the server over runs. */
module StateFrames {
  import opened Finite
  import opened Wire

  // ---------- the server's bookkeeping, on values ----------

  /** flags is what a viewer should see now, last what it was last told; dirty lists the pending persons. */
  datatype Server = Server(tick: nat, flags: seq<U16>, last: seq<U16>, inDirty: seq<bool>, dirty: seq<nat>)

  ghost predicate Sized(s: Server) {
    |s.flags| == |s.last| == |s.inDirty| < 0x8000_0000
  }

  /** The dirty list has no repeats, agrees with its bitmap, and covers every difference from last among the
      first n persons. */
  ghost predicate TrackedUpTo(s: Server, n: nat) {
    && Sized(s) && n <= |s.flags|
    && (forall i :: 0 <= i < |s.inDirty| ==> (s.inDirty[i] <==> i in s.dirty))
    && (forall k :: 0 <= k < |s.dirty| ==> s.dirty[k] < |s.flags|)
    && Distinct(s.dirty)
    && (forall i :: 0 <= i < n && s.flags[i] != s.last[i] ==> s.inDirty[i])
  }

  ghost predicate Tracked(s: Server) {
    TrackedUpTo(s, |s.flags|)
  }

  /** One turn of repack's loop, for person i whose packed word is now f. */
  ghost function RepackOne(s: Server, i: nat, f: U16): Server
    requires Sized(s) && i < |s.flags|
  {
    var t := s.(flags := s.flags[i := f]);
    if f != s.last[i] && !s.inDirty[i] then t.(inDirty := s.inDirty[i := true], dirty := s.dirty + [i]) else t
  }

  /** repack over the first n persons, given everyone's packed words. */
  ghost function Repacked(s: Server, words: seq<U16>, n: nat): (t: Server)
    requires Sized(s) && n <= |words| == |s.flags|
    ensures Sized(t) && |t.flags| == |s.flags| && t.last == s.last && t.tick == s.tick
    ensures t.flags == words[..n] + s.flags[n..]
  {
    if n == 0 then s else RepackOne(Repacked(s, words, n - 1), n - 1, words[n - 1])
  }

  lemma RepackedStart(s: Server, words: seq<U16>)
    requires Sized(s) && |words| == |s.flags|
    ensures Repacked(s, words, 0) == s
  {
  }

  lemma RepackedNext(s: Server, words: seq<U16>, n: nat)
    requires Sized(s) && n < |words| == |s.flags|
    ensures Repacked(s, words, n + 1) == RepackOne(Repacked(s, words, n), n, words[n])
  {
  }

  lemma RepackOneKeeps(s: Server, i: nat, f: U16)
    requires TrackedUpTo(s, i) && i < |s.flags|
    ensures TrackedUpTo(RepackOne(s, i, f), i + 1)
  {
    var t := RepackOne(s, i, f);
    if t.dirty != s.dirty {
      assert i !in s.dirty;
      forall j | 0 <= j < |t.inDirty| ensures t.inDirty[j] <==> j in t.dirty {
        assert j in t.dirty <==> j in s.dirty || j == i;
      }
    }
  }

  lemma {:induction false} RepackedUpTo(s: Server, words: seq<U16>, n: nat)
    requires TrackedUpTo(s, 0) && n <= |words| == |s.flags|
    ensures TrackedUpTo(Repacked(s, words, n), n)
  {
    if n > 0 {
      RepackedUpTo(s, words, n - 1);
      RepackOneKeeps(Repacked(s, words, n - 1), n - 1, words[n - 1]);
    }
  }

  /** resync: forget the pending list, then repack. */
  ghost function Cleared(s: Server): Server {
    s.(inDirty := seq(|s.inDirty|, _ => false), dirty := [])
  }

  ghost function Resynced(s: Server, words: seq<U16>): Server
    requires Sized(s) && |words| == |s.flags|
  {
    Repacked(Cleared(s), words, |words|)
  }

  lemma TrackedStart(s: Server)
    requires Tracked(s)
    ensures TrackedUpTo(s, 0)
  {
  }

  lemma WholeOf(a: seq<U16>, b: seq<U16>)
    requires |a| == |b|
    ensures a[..|a|] + b[|a|..] == a
  {
  }

  lemma {:induction false} RepackTracks(s: Server, words: seq<U16>)
    requires Tracked(s) && |words| == |s.flags|
    ensures Tracked(Repacked(s, words, |words|)) && Repacked(s, words, |words|).flags == words
  {
    hide TrackedUpTo, Repacked;
    TrackedStart(s);
    RepackedUpTo(s, words, |words|);
    WholeOf(words, s.flags);
  }

  lemma ResyncTracks(s: Server, words: seq<U16>)
    requires Sized(s) && |words| == |s.flags|
    ensures Tracked(Resynced(s, words)) && Resynced(s, words).flags == words
  {
    RepackedUpTo(Cleared(s), words, |words|);
    WholeOf(words, s.flags);
  }

  /** After resync the pending set is exactly the difference from what was last sent. */
  lemma {:induction false} ResyncIsExact(s: Server, words: seq<U16>, n: nat, i: nat)
    requires Sized(s) && n <= |words| == |s.flags| && i < n
    ensures Repacked(Cleared(s), words, n).inDirty[i] <==> words[i] != s.last[i]
  {
    if i < n - 1 {
      ResyncIsExact(s, words, n - 1, i);
    } else {
      ResyncLater(s, words, n - 1, i);
    }
  }

  lemma {:induction false} ResyncLater(s: Server, words: seq<U16>, n: nat, i: nat)
    requires Sized(s) && n <= |words| == |s.flags| && n <= i < |words|
    ensures !Repacked(Cleared(s), words, n).inDirty[i]
  {
    if n > 0 { ResyncLater(s, words, n - 1, i); }
  }

  // ---------- frames ----------

  const DELTA: seq<Byte> := [0x50, 0x44, 0x4C, 0x31]  // "PDL1"
  const FULL: seq<Byte> := [0x50, 0x46, 0x4C, 0x31]   // "PFL1"

  ghost predicate IsFull(s: Server) {
    6 * |s.dirty| >= 2 * |s.flags|
  }

  ghost function Words(flags: seq<U16>, n: nat): (b: seq<Byte>)
    requires n <= |flags|
    ensures |b| == 2 * n
  {
    if n == 0 then [] else Words(flags, n - 1) + Put16(flags[n - 1])
  }

  ghost function Records(flags: seq<U16>, dirty: seq<nat>, n: nat): (b: seq<Byte>)
    requires n <= |dirty| && |flags| < 0x8000_0000 && forall k :: 0 <= k < |dirty| ==> dirty[k] < |flags|
    ensures |b| == 6 * n
  {
    if n == 0 then []
    else Records(flags, dirty, n - 1) + (Put32(dirty[n - 1]) + Put16(flags[dirty[n - 1]]))
  }

  lemma DirtyFits(s: Server)
    requires Tracked(s)
    ensures |s.dirty| <= |s.flags|
  {
    DistinctBelow(s.dirty, |s.flags|);
  }

  ghost function Header(s: Server): (h: seq<Byte>)
    requires Tracked(s)
    ensures |h| == 12
  {
    DirtyFits(s);
    (if IsFull(s) then FULL + Put32(|s.flags|) else DELTA + Put32(|s.dirty|)) + Put32(s.tick % 0x1_0000_0000)
  }

  ghost function Body(s: Server): seq<Byte>
    requires Tracked(s)
  {
    if IsFull(s) then Words(s.flags, |s.flags|) else Records(s.flags, s.dirty, |s.dirty|)
  }

  ghost function Frame(s: Server): (b: seq<Byte>)
    requires Tracked(s)
  {
    Header(s) + Body(s)
  }

  /** The frame is the smaller of the two forms: 12 bytes and 6 per change or 2 per person, whichever is less. */
  lemma FrameSize(s: Server)
    requires Tracked(s)
    ensures |Frame(s)| == 12 + if 6 * |s.dirty| < 2 * |s.flags| then 6 * |s.dirty| else 2 * |s.flags|
  {
  }

  /** What a completed Encode leaves behind: everything the frame carried now counts as seen. */
  ghost function Sent(s: Server): Server
    requires Sized(s)
  {
    if IsFull(s) then s.(last := s.flags, inDirty := seq(|s.inDirty|, _ => false), dirty := [])
    else Acknowledged(s, |s.dirty|).(dirty := [])
  }

  /** The delta acknowledgement over the first n dirty persons. */
  ghost function Acknowledged(s: Server, n: nat): (t: Server)
    requires Sized(s) && n <= |s.dirty|
    ensures Sized(t) && t.flags == s.flags && t.dirty == s.dirty && t.tick == s.tick
  {
    if n == 0 then s
    else
      var t := Acknowledged(s, n - 1);
      var i := s.dirty[n - 1];
      if i < |s.flags| then t.(last := t.last[i := s.flags[i]], inDirty := t.inDirty[i := false]) else t
  }

  lemma {:induction false} AcknowledgedIs(s: Server, n: nat, i: nat)
    requires Sized(s) && n <= |s.dirty| && i < |s.flags|
    ensures var t := Acknowledged(s, n);
      if i in s.dirty[..n] then t.last[i] == s.flags[i] && !t.inDirty[i]
      else t.last[i] == s.last[i] && t.inDirty[i] == s.inDirty[i]
  {
    if n > 0 {
      AcknowledgedIs(s, n - 1, i);
      assert s.dirty[..n] == s.dirty[..n - 1] + [s.dirty[n - 1]];
    }
  }

  /** Sending keeps the bookkeeping, and the last-sent copy is then the current state, person by person. */
  lemma SentTracks(s: Server)
    requires Tracked(s)
    ensures Tracked(Sent(s)) && Sent(s).last == s.flags == Sent(s).flags
  {
    var t := Sent(s);
    forall i | 0 <= i < |s.flags| ensures t.last[i] == s.flags[i] && !t.inDirty[i] {
      if !IsFull(s) {
        AcknowledgedIs(s, |s.dirty|, i);
        assert s.dirty[..|s.dirty|] == s.dirty;
      }
    }
  }

  // ---------- the page ----------

  /** The page's copy; loaded is false until the instance stream has been read. */
  datatype Page = Page(loaded: bool, tick: int, flags: seq<U16>)

  datatype Outcome = Applied(page: Page, count: int) | Thrown(page: Page)

  ghost function MinOf(a: int, b: int): int { if a < b then a else b }

  /** The first n words of a full frame. */
  ghost function TakeWords(flags: seq<U16>, buf: seq<Byte>, n: nat): (f: seq<U16>)
    requires n <= |flags| && 12 + 2 * n <= |buf|
    ensures |f| == |flags|
  {
    seq(|flags|, i requires 0 <= i < |flags| => if i < n then Get16(buf, 12 + 2 * i) else flags[i])
  }

  /** The delta loop over records k .. count; a record that runs past the buffer throws part-way. */
  ghost function TakeRecords(p: Page, buf: seq<Byte>, count: nat, k: nat): Outcome
    requires k <= count
    decreases count - k
  {
    if k == count then Applied(p, count)
    else
      var o := 12 + 6 * k;
      if o + 4 > |buf| then Thrown(p)
      else
        var idx := Get32(buf, o);
        if idx >= |p.flags| then TakeRecords(p, buf, count, k + 1)
        else if o + 6 > |buf| then Thrown(p)
        else TakeRecords(p.(flags := p.flags[idx := Get16(buf, o + 4)]), buf, count, k + 1)
  }

  ghost function ApplyFrame(p: Page, buf: seq<Byte>): Outcome {
    if |buf| < 12 then Thrown(p)
    else
      var count := Get32(buf, 4);
      var q := p.(tick := Get32(buf, 8));
      if !p.loaded then Applied(q, 0)
      else if buf[..4] == FULL then
        var n := MinOf(count, |p.flags|);
        if 12 + 2 * n > |buf| then Thrown(q) else Applied(q.(flags := TakeWords(p.flags, buf, n)), count)
      else if buf[..4] == DELTA then TakeRecords(q, buf, count, 0)
      else Thrown(q)
  }

  /** The 32-bit number that stands at o, low byte first, and the 16-bit one. */
  ghost predicate Holds32(b: seq<Byte>, o: nat, w: int) {
    && o + 4 <= |b|
    && b[o] as int + 0x100 * b[o + 1] as int + 0x1_0000 * b[o + 2] as int + 0x100_0000 * b[o + 3] as int == w
  }

  ghost predicate Holds16(b: seq<Byte>, o: nat, w: int) {
    o + 2 <= |b| && b[o] as int + 0x100 * b[o + 1] as int == w
  }

  /** The bytes of a frame: "PFL1", the population and the tick, then everyone's word in order; or "PDL1", the number of
      changes and the tick, then a position and a word for each; whichever is shorter. */
  lemma FrameLayout(s: Server, k: nat)
    requires Tracked(s)
    ensures var b, full := Frame(s), 6 * |s.dirty| >= 2 * |s.flags|;
      && |b| >= 12 && b[0] == 'P' as int && b[1] == (if full then 'F' else 'D') as int
      && b[2] == 'L' as int && b[3] == '1' as int
      && Holds32(b, 4, if full then |s.flags| else |s.dirty|) && Holds32(b, 8, s.tick % 0x1_0000_0000)
      && (full && k < |s.flags| ==> Holds16(b, 12 + 2 * k, s.flags[k]))
      && (!full && k < |s.dirty| ==>
            Holds32(b, 12 + 6 * k, s.dirty[k]) && Holds16(b, 16 + 6 * k, s.flags[s.dirty[k]]))
  {
    hide Frame, Tracked;
    var b := Frame(s);
    HeaderReads(s);
    assert b[0] == b[..4][0] && b[1] == b[..4][1] && b[2] == b[..4][2] && b[3] == b[..4][3];
    if IsFull(s) {
      if k < |s.flags| { FullWordAt(s, k); }
    } else if k < |s.dirty| {
      DeltaRecordAt(s, k);
    }
  }

  // ---------- a frame arriving ----------

  lemma HeaderReads(s: Server)
    requires Tracked(s)
    ensures var b := Frame(s);
      && |b| >= 12
      && b[..4] == (if IsFull(s) then FULL else DELTA)
      && Get32(b, 4) == (if IsFull(s) then |s.flags| else |s.dirty|)
      && Get32(b, 8) == s.tick % 0x1_0000_0000
  {
    DirtyFits(s);
    var b, h := Frame(s), Header(s);
    assert b[..4] == h[..4] && b[4..8] == h[4..8] && b[8..12] == h[8..12];
    Word32(b, 4, if IsFull(s) then |s.flags| else |s.dirty|);
    Word32(b, 8, s.tick % 0x1_0000_0000);
  }

  lemma {:induction false} WordsRead(flags: seq<U16>, n: nat, i: nat)
    requires i < n <= |flags|
    ensures Words(flags, n)[2 * i..2 * i + 2] == Put16(flags[i])
  {
    var b := Words(flags, n - 1);
    if i < n - 1 {
      WordsRead(flags, n - 1, i);
      assert Words(flags, n)[2 * i..2 * i + 2] == b[2 * i..2 * i + 2];
    }
  }

  lemma {:induction false} RecordsRead(flags: seq<U16>, dirty: seq<nat>, n: nat, k: nat)
    requires k < n <= |dirty| && |flags| < 0x8000_0000 && forall k :: 0 <= k < |dirty| ==> dirty[k] < |flags|
    ensures var b := Records(flags, dirty, n);
      b[6 * k..6 * k + 4] == Put32(dirty[k]) && b[6 * k + 4..6 * k + 6] == Put16(flags[dirty[k]])
  {
    var b := Records(flags, dirty, n - 1);
    if k < n - 1 {
      RecordsRead(flags, dirty, n - 1, k);
      assert Records(flags, dirty, n)[6 * k..6 * k + 4] == b[6 * k..6 * k + 4];
      assert Records(flags, dirty, n)[6 * k + 4..6 * k + 6] == b[6 * k + 4..6 * k + 6];
    }
  }

  lemma FullWordAt(s: Server, i: nat)
    requires Tracked(s) && IsFull(s) && i < |s.flags|
    ensures |Frame(s)| == 12 + 2 * |s.flags| && Get16(Frame(s), 12 + 2 * i) == s.flags[i]
  {
    WordsRead(s.flags, |s.flags|, i);
    assert Frame(s)[12 + 2 * i..12 + 2 * i + 2] == Body(s)[2 * i..2 * i + 2];
    Word16(Frame(s), 12 + 2 * i, s.flags[i]);
  }

  lemma DeltaRecordAt(s: Server, k: nat)
    requires Tracked(s) && !IsFull(s) && k < |s.dirty|
    ensures |Frame(s)| == 12 + 6 * |s.dirty|
    ensures Get32(Frame(s), 12 + 6 * k) == s.dirty[k]
    ensures Get16(Frame(s), 12 + 6 * k + 4) == s.flags[s.dirty[k]]
  {
    RecordsRead(s.flags, s.dirty, |s.dirty|, k);
    var b, o := Frame(s), 12 + 6 * k;
    assert b[o..o + 4] == Body(s)[6 * k..6 * k + 4];
    assert b[o + 4..o + 6] == Body(s)[6 * k + 4..6 * k + 6];
    Word32(b, o, s.dirty[k]);
    Word16(b, o + 4, s.flags[s.dirty[k]]);
  }

  /** Person i is on the wire. */
  ghost predicate Carries(s: Server, i: nat) {
    IsFull(s) || i in s.dirty
  }

  lemma {:induction false} RecordsApply(s: Server, p: Page, k: nat)
    requires Tracked(s) && !IsFull(s) && k <= |s.dirty|
    ensures var r := TakeRecords(p, Frame(s), |s.dirty|, k);
      && r.Applied? && r.count == |s.dirty| && r.page.loaded == p.loaded && r.page.tick == p.tick
      && |r.page.flags| == |p.flags|
      && forall i :: 0 <= i < |p.flags| && i < |s.flags| ==>
           r.page.flags[i] == if i in s.dirty[k..] then s.flags[i] else p.flags[i]
    decreases |s.dirty| - k
  {
    hide Frame, IsFull;
    if k < |s.dirty| {
      DeltaRecordAt(s, k);
      var idx := s.dirty[k];
      var next := if idx < |p.flags| then p.(flags := p.flags[idx := s.flags[idx]]) else p;
      RecordsApply(s, next, k + 1);
      assert s.dirty[k..] == [idx] + s.dirty[k + 1..];
    }
  }

  /** A page that holds no more persons than the server parses every frame without throwing and ends with the
      server's word for each person the frame carried and its own old word for each other. */
  lemma FrameApplies(s: Server, p: Page)
    requires Tracked(s) && p.loaded && |p.flags| <= |s.flags|
    ensures var r := ApplyFrame(p, Frame(s));
      && r.Applied? && r.page.loaded && r.page.tick == s.tick % 0x1_0000_0000
      && |r.page.flags| == |p.flags|
      && forall i :: 0 <= i < |p.flags| ==>
           r.page.flags[i] == if Carries(s, i) then s.flags[i] else p.flags[i]
  {
    HeaderReads(s);
    if IsFull(s) {
      assert FULL != DELTA;
      forall i | 0 <= i < |s.flags| { FullWordAt(s, i); }
      FrameSize(s);
    } else {
      assert DELTA[1] != FULL[1];
      var q := p.(tick := s.tick % 0x1_0000_0000);
      RecordsApply(s, q, 0);
      assert s.dirty[0..] == s.dirty;
    }
  }

  // ---------- runs of the server, watched from one of its pages ----------

  /** Advance and Rebuild carry everyone's newly packed words; Rebuild is Inject, ApplyReactions or Reset.
      A failed write sends nothing the page applies and acknowledges nothing.  Elsewhere is a frame written in full
      that this page does not apply: another page fetched it, or this one dropped it. */
  datatype Op = Advance(words: seq<U16>) | Rebuild(words: seq<U16>, tick: nat) | Send | SendFails | Elsewhere

  /** seen and missed are history: which persons of the page some frame has brought it, and which of them a frame has
      carried past it since. */
  datatype Session = Session(server: Server, page: Page, seen: seq<bool>, missed: seq<bool>)

  ghost predicate Paired(x: Session) {
    && Tracked(x.server) && x.page.loaded
    && |x.missed| == |x.seen| == |x.page.flags| <= |x.server.flags|
  }

  ghost function Step(x: Session, op: Op): Session
    requires Paired(x)
  {
    var s := x.server;
    match op
    case Advance(words) =>
      if |words| != |s.flags| then x else x.(server := Repacked(s, words, |words|).(tick := s.tick + 1))
    case Rebuild(words, tick) =>
      if |words| != |s.flags| then x else x.(server := Resynced(s, words).(tick := tick))
    case Send =>
      FrameApplies(s, x.page);
      Session(Sent(s), ApplyFrame(x.page, Frame(s)).page,
              seq(|x.seen|, i requires 0 <= i < |x.seen| => x.seen[i] || Carries(s, i)),
              seq(|x.missed|, i requires 0 <= i < |x.missed| => x.missed[i] && !Carries(s, i)))
    case SendFails => x
    case Elsewhere =>
      x.(server := Sent(s), missed := seq(|x.missed|, i requires 0 <= i < |x.missed| => x.missed[i] || Carries(s, i)))
  }

  lemma RetickTracks(s: Server, tick: nat)
    requires Tracked(s)
    ensures Tracked(s.(tick := tick))
  {
  }

  lemma StepPairs(x: Session, op: Op)
    requires Paired(x)
    ensures Paired(Step(x, op))
  {
    match op
    case Advance(words) =>
      if |words| == |x.server.flags| {
        RepackTracks(x.server, words);
        RetickTracks(Repacked(x.server, words, |words|), x.server.tick + 1);
      }
    case Rebuild(words, tick) =>
      if |words| == |x.server.flags| {
        ResyncTracks(x.server, words);
        RetickTracks(Resynced(x.server, words), tick);
      }
    case Send =>
      SentTracks(x.server);
      FrameApplies(x.server, x.page);
    case SendFails =>
    case Elsewhere => SentTracks(x.server);
  }

  ghost function Run(x: Session, ops: seq<Op>): (y: Session)
    requires Paired(x)
    ensures Paired(y) && |y.page.flags| == |x.page.flags|
  {
    if |ops| == 0 then x
    else
      var before := Run(x, ops[..|ops| - 1]);
      StepPairs(before, ops[|ops| - 1]);
      FrameApplies(before.server, before.page);
      Step(before, ops[|ops| - 1])
  }

  ghost predicate AgreedAtFirst(x0: Session, i: nat)
    requires Paired(x0) && i < |x0.page.flags|
  {
    x0.page.flags[i] == x0.server.last[i]
  }

  /** Unless a frame has carried i past the page: its word for i is the last one sent, once i agreed at the start or
      has been brought to it; until then neither side's word for i has moved. */
  ghost predicate Mirrors(x0: Session, x: Session, i: nat)
    requires Paired(x0) && Paired(x) && i < |x.page.flags| == |x0.page.flags| && |x.server.flags| == |x0.server.flags|
  {
    !x.missed[i] ==>
      if AgreedAtFirst(x0, i) || x.seen[i] then x.page.flags[i] == x.server.last[i]
      else x.page.flags[i] == x0.page.flags[i] && x.server.last[i] == x0.server.last[i]
  }

  lemma StepMirrors(x0: Session, x: Session, op: Op, i: nat)
    requires Paired(x0) && Paired(x) && i < |x.page.flags| == |x0.page.flags| && |x.server.flags| == |x0.server.flags|
    requires Mirrors(x0, x, i)
    ensures var y := Step(x, op);
      Paired(y) && |y.page.flags| == |x.page.flags| && |y.server.flags| == |x.server.flags| && Mirrors(x0, y, i)
  {
    StepPairs(x, op);
    if op.Send? || op.Elsewhere? {
      FrameApplies(x.server, x.page);
      SentWord(x.server, i);
    }
  }

  /** After a frame the last word sent is the current one; it is the one sent before for a person not carried. */
  lemma SentWord(s: Server, i: nat)
    requires Tracked(s) && i < |s.flags|
    ensures Tracked(Sent(s)) && |Sent(s).flags| == |s.flags| && Sent(s).last[i] == Sent(s).flags[i] == s.flags[i]
    ensures !Carries(s, i) ==> s.flags[i] == s.last[i]
  {
    SentTracks(s);
    if !Carries(s, i) {
      assert !s.inDirty[i];
    }
  }

  lemma {:induction false} RunMirrors(x0: Session, ops: seq<Op>, i: nat)
    requires Paired(x0) && i < |x0.page.flags| && !x0.seen[i] && !x0.missed[i]
    ensures var x := Run(x0, ops); |x.server.flags| == |x0.server.flags| && Mirrors(x0, x, i)
  {
    if |ops| > 0 {
      RunMirrors(x0, ops[..|ops| - 1], i);
      StepMirrors(x0, Run(x0, ops[..|ops| - 1]), ops[|ops| - 1], i);
    }
  }

  lemma RunNext(x0: Session, ops: seq<Op>, op: Op)
    requires Paired(x0)
    ensures Run(x0, ops + [op]) == Step(Run(x0, ops), op)
    ensures |ops| == 0 ==> Run(x0, ops) == x0
  {
    assert (ops + [op])[..|ops|] == ops;
  }

  /** Over any run of a server with any number of pages, after a frame this page has applied its word for person i is
      the server's current one exactly when that frame carried i; or, where an earlier frame had carried i past the
      page, the last word sent was by then the one it held; or, where none had, i agreed with the server's last-sent
      copy to begin with or had been brought to it. */
  lemma {:induction false} MirrorExactlyWhen(x0: Session, ops: seq<Op>, i: nat)
    requires Paired(x0) && i < |x0.page.flags| && !x0.seen[i] && !x0.missed[i]
    ensures var b, x := Run(x0, ops), Run(x0, ops + [Send]);
      && i < |x.server.flags| == |b.server.flags|
      && (x.page.flags[i] == x.server.flags[i] <==>
           (Carries(b.server, i)
            || if b.missed[i] then b.page.flags[i] == b.server.last[i] else AgreedAtFirst(x0, i) || b.seen[i]))
  {
    hide Run, Step, Frame, ApplyFrame;
    var b := Run(x0, ops);
    RunMirrors(x0, ops, i);
    RunNext(x0, ops, Send);
    SendIs(b, i);
    SentWord(b.server, i);
  }

  lemma SendIs(b: Session, i: nat)
    requires Paired(b) && i < |b.page.flags|
    ensures var x := Step(b, Send);
      && x.server == Sent(b.server) && |x.page.flags| == |b.page.flags|
      && x.page.flags[i] == if Carries(b.server, i) then b.server.flags[i] else b.page.flags[i]
  {
    FrameApplies(b.server, b.page);
  }

  // ---------- a page that gets every frame ----------

  /** Every frame written in full reaches the page. */
  ghost predicate Sole(ops: seq<Op>) {
    forall k :: 0 <= k < |ops| ==> !ops[k].Elsewhere?
  }

  lemma {:induction false} NothingMissed(x0: Session, ops: seq<Op>, i: nat)
    requires Paired(x0) && i < |x0.page.flags| && !x0.missed[i] && Sole(ops)
    ensures !Run(x0, ops).missed[i]
  {
    if |ops| > 0 { NothingMissed(x0, ops[..|ops| - 1], i); }
  }

  /** Then, after any frame, its word for person i is the server's current one exactly when it agreed with the server's
      last-sent copy to begin with or some frame has carried i. */
  lemma {:induction false} SoleMirrorExactlyWhen(x0: Session, ops: seq<Op>, i: nat)
    requires Paired(x0) && i < |x0.page.flags| && !x0.seen[i] && !x0.missed[i] && Sole(ops)
    ensures var x := Run(x0, ops + [Send]);
      && i < |x.server.flags|
      && (x.page.flags[i] == x.server.flags[i] <==> AgreedAtFirst(x0, i) || x.seen[i])
  {
    hide Run, AgreedAtFirst;
    NothingMissed(x0, ops, i);
    MirrorExactlyWhen(x0, ops, i);
    RunNext(x0, ops, Send);
  }

  /** A page that agreed at the start and gets every frame mirrors the server after each. */
  lemma {:induction false} AgreementLasts(x0: Session, ops: seq<Op>)
    requires Paired(x0) && x0.page.flags == x0.server.last[..|x0.page.flags|] && Sole(ops)
    requires forall i :: 0 <= i < |x0.seen| ==> !x0.seen[i] && !x0.missed[i]
    ensures var x := Run(x0, ops + [Send]);
      |x.page.flags| <= |x.server.flags| && x.page.flags == x.server.flags[..|x.page.flags|]
  {
    var x := Run(x0, ops + [Send]);
    forall i | 0 <= i < |x.page.flags| ensures x.page.flags[i] == x.server.flags[i] {
      SoleMirrorExactlyWhen(x0, ops, i);
      assert x0.page.flags[i] == x0.server.last[..|x0.page.flags|][i];
    }
  }

  // ---------- and one that does not ----------

  lemma AdvanceIs(x: Session, words: seq<U16>, i: nat)
    requires Paired(x) && |words| == |x.server.flags| && i < |words| && words[i] != x.server.last[i]
    ensures var y := Step(x, Advance(words));
      && Paired(y) && y.page == x.page && |y.server.flags| == |words| && y.server.flags[i] == words[i]
      && Carries(y.server, i)
  {
    hide Repacked;
    StepPairs(x, Advance(words));
    RepackTracks(x.server, words);
  }

  /** A person who agreed at the start, whose word then changes in a frame that goes to another page: after the next
      frame this page applies it is still stale. */
  lemma AnotherPageTakesTheChange(x0: Session, words: seq<U16>, i: nat)
    requires Paired(x0) && |words| == |x0.server.flags| && i < |x0.page.flags| && AgreedAtFirst(x0, i)
    requires words[i] != x0.server.last[i]
    ensures var x := Run(x0, [Advance(words), Elsewhere, Send]);
      |x.page.flags| == |x0.page.flags| <= |x.server.flags| && x.page.flags[i] != x.server.flags[i]
  {
    hide Run, Step, Carries;
    assert [Advance(words), Elsewhere, Send] == [Advance(words), Elsewhere] + [Send];
    assert [Advance(words), Elsewhere] == [Advance(words)] + [Elsewhere] && [Advance(words)] == [] + [Advance(words)];
    RunNext(x0, [], Advance(words));
    RunNext(x0, [Advance(words)], Elsewhere);
    RunNext(x0, [Advance(words), Elsewhere], Send);
    var a := Run(x0, [Advance(words)]);
    AdvanceIs(x0, words, i);
    var b := Run(x0, [Advance(words), Elsewhere]);
    ElsewhereIs(a, i);
    SendIs(b, i);
    SentWord(b.server, i);
  }

  lemma ElsewhereIs(a: Session, i: nat)
    requires Paired(a) && i < |a.page.flags|
    ensures var b := Step(a, Elsewhere);
      Paired(b) && b.page == a.page && |b.server.flags| == |a.server.flags|
      && b.server.flags[i] == a.server.flags[i] && !Carries(b.server, i)
  {
    StepPairs(a, Elsewhere);
    SentTracks(a.server);
  }

  /** The words New starts from: everything packed counts as sent, although no page has it. */
  ghost function Fresh(words: seq<U16>): Server {
    Server(0, words, words, seq(|words|, _ => false), [])
  }

  /** A page that has just loaded shows zeros.  The first frame of a server that has just started is an empty
      delta, so it repairs nothing: the page is right exactly where the packed word is zero. */
  lemma FirstFrameRepairsNothing(words: seq<U16>, tick: int, n: nat, i: nat)
    requires 0 < |words| < 0x8000_0000 && i < n <= |words|
    ensures var x0 := Session(Fresh(words), Page(true, tick, seq(n, _ => 0)), seq(n, _ => false), seq(n, _ => false));
      Paired(x0) && (Run(x0, [Send]).page.flags[i] == words[i] <==> words[i] == 0)
  {
    var x0 := Session(Fresh(words), Page(true, tick, seq(n, _ => 0)), seq(n, _ => false), seq(n, _ => false));
    assert [] + [Send] == [Send];
    MirrorExactlyWhen(x0, [], i);
    assert !Carries(x0.server, i);
  }

  // ---------- the server as it runs ----------

  /** The response writer: a call may fail after passing on part of its bytes. */
  class Writer {
    var sent: seq<Byte>
    var budget: nat

    constructor (budget: nat)
      ensures sent == [] && this.budget == budget
    {
      sent, this.budget := [], budget;
    }

    method Write(buf: seq<Byte>) returns (ok: bool)
      modifies this
      ensures ok ==> sent == old(sent) + buf
      ensures ok <==> old(budget) > 0
    {
      ok := budget > 0;
      if ok {
        sent, budget := sent + buf, budget - 1;
      } else {
        var k :| 0 <= k <= |buf|;
        sent := sent + buf[..k];
      }
    }
  }

  class StateSource {
    const flags: array<U16>
    const last: array<U16>
    const inDirty: array<bool>
    var dirty: seq<nat>
    var tick: nat

    ghost predicate Valid()
      reads this, flags, last, inDirty
    {
      flags != last && Tracked(View())
    }

    ghost function View(): Server
      reads this, flags, last, inDirty
    {
      Server(tick, flags[..], last[..], inDirty[..], dirty)
    }

    /** packAll on a new world. */
    constructor (words: seq<U16>)
      requires |words| < 0x8000_0000
      ensures Valid() && View() == Fresh(words)
      ensures fresh(flags) && fresh(last) && fresh(inDirty)
    {
      flags := new U16[|words|](i requires 0 <= i < |words| => words[i]);
      last := new U16[|words|](i requires 0 <= i < |words| => words[i]);
      inDirty := new bool[|words|](_ => false);
      dirty, tick := [], 0;
      new;
      assert View() == Fresh(words);
    }

    /** words is flagsFor of each person. */
    method Repack(words: seq<U16>)
      requires flags != last && Sized(View()) && |words| == flags.Length
      modifies this`dirty, flags, inDirty
      ensures View() == Repacked(old(View()), words, |words|)
    {
      hide Repacked;
      ghost var was := View();
      RepackedStart(was, words);
      for i := 0 to flags.Length
        invariant View() == Repacked(was, words, i)
      {
        var f := words[i];
        ghost var now := View();
        RepackedNext(was, words, i);
        flags[i] := f;
        if f != last[i] && !inDirty[i] {
          inDirty[i] := true;
          dirty := dirty + [i];
        }
        assert View() == RepackOne(now, i, f);
      }
    }

    method Resync(words: seq<U16>)
      requires flags != last && Sized(View()) && |words| == flags.Length
      modifies this`dirty, flags, inDirty
      ensures View() == Resynced(old(View()), words)
    {
      ghost var was := View();
      dirty := [];
      ClearDirty();
      assert View() == Cleared(was);
      Repack(words);
    }

    method ClearDirty()
      modifies inDirty
      ensures inDirty[..] == seq(inDirty.Length, _ => false)
    {
      for i := 0 to inDirty.Length
        invariant forall j :: 0 <= j < i ==> !inDirty[j]
      {
        inDirty[i] := false;
      }
    }

    /** The flush closure: writes the buffer once it is long enough, or when forced. */
    method Flush(out: Writer, buf: seq<Byte>, force: bool) returns (rest: seq<Byte>, ok: bool)
      modifies out
      ensures ok ==> out.sent + rest == old(out.sent) + buf
      ensures ok && force ==> rest == []
    {
      rest, ok := buf, true;
      if force || |buf| >= 6 * 4096 {
        ok := out.Write(buf);
        rest := [];
      }
    }

    method WriteWords(out: Writer) returns (buf: seq<Byte>, ok: bool)
      requires Valid()
      modifies out
      ensures ok ==> out.sent + buf == old(out.sent) + Words(flags[..], flags.Length)
    {
      buf, ok := [], true;
      ghost var words := flags[..];
      ghost var start := out.sent;
      for i := 0 to flags.Length
        invariant ok && out.sent + buf == start + Words(words, i)
      {
        ghost var before := out.sent + buf;
        buf := buf + Put16(flags[i]);
        assert out.sent + buf == before + Put16(words[i]);
        assert start + Words(words, i) + Put16(words[i]) == start + Words(words, i + 1);
        buf, ok := Flush(out, buf, false);
        if !ok {
          return;
        }
      }
    }

    method WriteRecords(out: Writer) returns (buf: seq<Byte>, ok: bool)
      requires Valid()
      modifies out
      ensures ok ==> out.sent + buf == old(out.sent) + Records(flags[..], dirty, |dirty|)
    {
      buf, ok := [], true;
      ghost var words := flags[..];
      ghost var start := out.sent;
      for k := 0 to |dirty|
        invariant ok && out.sent + buf == start + Records(words, dirty, k)
      {
        ghost var before := out.sent + buf;
        ghost var record := Put32(dirty[k]) + Put16(words[dirty[k]]);
        buf := buf + Put32(dirty[k]);
        buf := buf + Put16(flags[dirty[k]]);
        assert out.sent + buf == before + record;
        assert start + Records(words, dirty, k) + record == start + Records(words, dirty, k + 1);
        buf, ok := Flush(out, buf, false);
        if !ok {
          return;
        }
      }
    }

    /** The acknowledgement after a completed write. */
    method Acknowledge(full: bool)
      requires Valid() && full == IsFull(View())
      modifies this`dirty, last, inDirty
      ensures View() == Sent(old(View()))
    {
      ghost var was := View();
      if full {
        forall i | 0 <= i < last.Length {
          last[i] := flags[i];
        }
        ClearDirty();
        assert last[..] == was.flags;
      } else {
        for k := 0 to |dirty|
          invariant View() == Acknowledged(was, k)
        {
          var i := dirty[k];
          last[i] := flags[i];
          inDirty[i] := false;
          assert View() == Acknowledged(was, k + 1);
        }
      }
      dirty := [];
    }

    /** Encode writes exactly the frame and then counts it as seen; a failed write acknowledges nothing. */
    method Encode(out: Writer) returns (records: nat, full: bool, ok: bool)
      requires Valid()
      modifies out, this`dirty, last, inDirty
      ensures full == IsFull(old(View()))
      ensures ok ==> out.sent == old(out.sent) + Frame(old(View())) && View() == Sent(old(View())) && Valid()
      ensures ok ==> records == if full then flags.Length else |old(dirty)|
      ensures !ok ==> View() == old(View()) && records == 0
    {
      ghost var s, start := View(), out.sent;
      full, records := 6 * |dirty| >= 2 * flags.Length, 0;
      DirtyFits(s);
      var hdr := (if full then FULL + Put32(flags.Length) else DELTA + Put32(|dirty|)) + Put32(tick % 0x1_0000_0000);
      ok := out.Write(hdr);
      if !ok {
        return;
      }
      var buf;
      if full {
        buf, ok := WriteWords(out);
      } else {
        buf, ok := WriteRecords(out);
      }
      if !ok {
        return;
      }
      assert start + hdr + Body(s) == start + (hdr + Body(s));
      buf, ok := Flush(out, buf, true);
      if !ok {
        return;
      }
      records := if full then flags.Length else |dirty|;
      SentTracks(s);
      Acknowledge(full);
    }
  }

  /** The page's copy as the parser updates it in place. */
  class Globe {
    const flags: array<U16>
    const loaded: bool
    var tick: int

    constructor (n: nat, loaded: bool)
      ensures flags.Length == n && this.loaded == loaded && forall i :: 0 <= i < n ==> flags[i] == 0
    {
      flags := new U16[n](_ => 0);
      this.loaded := loaded;
      tick := 0;
    }

    ghost function View(): Page
      reads this, flags
    {
      Page(loaded, tick, flags[..])
    }

    method ApplyFull(buf: seq<Byte>, n: nat)
      requires n <= flags.Length && 12 + 2 * n <= |buf|
      modifies flags
      ensures flags[..] == TakeWords(old(flags[..]), buf, n)
    {
      for i := 0 to n
        invariant flags[..] == TakeWords(old(flags[..]), buf, i)
      {
        flags[i] := Get16(buf, 12 + 2 * i);
      }
    }

    method ApplyDelta(buf: seq<Byte>, count: nat) returns (ok: bool)
      modifies flags
      ensures TakeRecords(old(View()), buf, count, 0) == if ok then Applied(View(), count) else Thrown(View())
    {
      ghost var all := TakeRecords(View(), buf, count, 0);
      for k := 0 to count
        invariant TakeRecords(View(), buf, count, k) == all
      {
        var o := 12 + k * 6;
        if o + 4 > |buf| {
          return false;
        }
        var idx := Get32(buf, o);
        if idx < flags.Length {
          if o + 6 > |buf| {
            return false;
          }
          ghost var p := View();
          flags[idx] := Get16(buf, o + 4);
          assert View() == p.(flags := p.flags[idx := Get16(buf, o + 4)]);
        }
      }
      return true;
    }

    /** applyFrame; ok is false where the source throws. */
    method Apply(buf: seq<Byte>) returns (count: nat, ok: bool)
      modifies this, flags
      ensures ApplyFrame(old(View()), buf) == if ok then Applied(View(), count) else Thrown(View())
    {
      count, ok := 0, false;
      if |buf| < 12 {
        return;
      }
      var n := Get32(buf, 4);
      tick := Get32(buf, 8);
      if !loaded {
        return 0, true;
      }
      if buf[..4] == FULL {
        var m := if n < flags.Length then n else flags.Length;
        if 12 + 2 * m > |buf| {
          return;
        }
        ApplyFull(buf, m);
        return n, true;
      } else if buf[..4] == DELTA {
        ok := ApplyDelta(buf, n);
        count := n;
      }
    }
  }
}
