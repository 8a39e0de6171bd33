/** Message history, and the release of a script into it, a turn per tick, as its speakers hear the story. */
module Conversation {
  import opened Script

  /** A message's From and Kind fold into origin: a friend's own reaction, or a scripted turn. */
  datatype Origin = Reaction(friend: int, kind: string) | Scripted(friend: int, model: bool)

  datatype Message = Message(id: nat, tick: nat, origin: Origin, line: Line, replyTo: int)

  /** The fields of a Cohort.  based says whether the baseline that Observe diffs against has been taken.  said and
      since are history: every message ever appended, and how many there were when the current script was written or
      the chat was reset. */
  datatype Chat = Chat(friends: nat, messages: seq<Message>, maxHistory: nat, nextMsgID: nat,
                       script: seq<Turn>, cursor: nat, stallSince: int, msgIDs: seq<int>, isModel: bool,
                       based: bool, said: seq<Message>, since: nat)

  const STALL_LIMIT := 120

  ghost function Append(c: Chat, tick: nat, origin: Origin, line: Line, replyTo: int): Chat {
    var m := Message(c.nextMsgID, tick, origin, line, replyTo);
    var all := c.messages + [m];
    c.(nextMsgID := c.nextMsgID + 1,
       messages := if |all| > c.maxHistory then all[|all| - c.maxHistory..] else all,
       said := c.said + [m])
  }

  ghost function Unsaid(n: nat): (ids: seq<int>)
    ensures |ids| == n
  {
    seq(n, _ => -1)
  }

  ghost function Reset(c: Chat): Chat {
    c.(messages := [], script := [], cursor := 0, stallSince := -1, msgIDs := [], isModel := false, based := false,
       since := |c.said|)
  }

  ghost function NewScript(c: Chat, canned: seq<Turn>): Chat {
    c.(script := canned, msgIDs := Unsaid(|canned|), cursor := 0, stallSince := -1, isModel := false, since := |c.said|)
  }

  /** Refused once the cursor has moved. */
  ghost function Install(c: Chat, turns: seq<Turn>): Chat {
    if c.cursor != 0 then c
    else c.(script := turns, msgIDs := Unsaid(|turns|), isModel := true, stallSince := -1)
  }

  // ---------- releaseScript ----------

  ghost predicate DepReady(c: Chat, t: Turn) {
    t.replyTo < 0 || (t.replyTo < |c.msgIDs| && c.msgIDs[t.replyTo] >= 0)
  }

  ghost predicate Ready(c: Chat, heard: seq<bool>)
    requires c.cursor < |c.script|
  {
    var t := c.script[c.cursor];
    0 <= t.speaker < c.friends && t.speaker < |heard| && heard[t.speaker] && DepReady(c, t)
  }

  ghost function Skip(c: Chat): Chat {
    c.(cursor := c.cursor + 1, stallSince := -1)
  }

  ghost function Say(c: Chat, tick: nat): Chat
    requires c.cursor < |c.script| == |c.msgIDs|
  {
    var t := c.script[c.cursor];
    var reply := if 0 <= t.replyTo < |c.msgIDs| then c.msgIDs[t.replyTo] else -1;
    Append(c, tick, Scripted(t.speaker, c.isModel), t.line, reply).(
      msgIDs := c.msgIDs[c.cursor := c.nextMsgID], cursor := c.cursor + 1, stallSince := -1)
  }

  ghost function Stalled(c: Chat, tick: nat): Chat {
    if c.stallSince < 0 then c.(stallSince := tick) else c
  }

  /** heard says, friend by friend, whose contagion state is not Unaware this tick. */
  ghost function Release(c: Chat, heard: seq<bool>, tick: nat): Chat
    requires |c.msgIDs| == |c.script|
    decreases |c.script| - c.cursor
  {
    if c.cursor >= |c.script| then c
    else
      var t := c.script[c.cursor];
      if t.speaker < 0 || t.speaker >= c.friends then Release(Skip(c), heard, tick)
      else if Ready(c, heard) then Say(c, tick)
      else
        var w := Stalled(c, tick);
        if tick - w.stallSince < STALL_LIMIT then w else Release(Skip(w), heard, tick)
  }

  // ---------- the invariant ----------

  /** The retained history is the tail of everything said, whose identifiers are its positions. */
  ghost predicate HistoryIsTail(c: Chat) {
    && c.nextMsgID == |c.said| && c.since <= |c.said|
    && (forall k :: 0 <= k < |c.said| ==> c.said[k].id == k)
    && |c.messages| <= |c.said| && |c.messages| <= c.maxHistory
    && c.messages == c.said[|c.said| - |c.messages|..]
  }

  /** Turn k was said, as the message its slot names: after everything said for earlier turns, in its own words,
      answering the message its target became. */
  ghost predicate Landed(c: Chat, k: nat)
    requires k < |c.script| == |c.msgIDs|
  {
    var t, id := c.script[k], c.msgIDs[k];
    && Sayable(c.script, c.friends, k)
    && c.since <= id < |c.said|
    && (forall j :: 0 <= j < k && c.msgIDs[j] >= 0 ==> c.msgIDs[j] < id)
    && c.said[id].origin == Scripted(t.speaker, c.isModel) && c.said[id].line == t.line
    && c.said[id].replyTo == (if t.replyTo >= 0 then c.msgIDs[t.replyTo] else -1)
    && (t.replyTo >= 0 ==> c.msgIDs[t.replyTo] >= 0)
  }

  /** Everything scripted that was said since the script was written is one of its turns before the cursor. */
  ghost predicate OneScript(c: Chat)
    requires |c.script| == |c.msgIDs|
  {
    forall k :: c.since <= k < |c.said| && c.said[k].origin.Scripted? ==>
      exists i :: 0 <= i < c.cursor && i < |c.msgIDs| && c.msgIDs[i] == k
  }

  ghost predicate Inv(c: Chat) {
    && HistoryIsTail(c)
    && |c.msgIDs| == |c.script| && c.cursor <= |c.script| && c.stallSince >= -1
    && (forall k :: c.cursor <= k < |c.script| ==> c.msgIDs[k] == -1)
    && (forall k :: 0 <= k < c.cursor && c.msgIDs[k] != -1 ==> Landed(c, k))
    && OneScript(c)
  }

  lemma AppendKeepsHistory(c: Chat, tick: nat, origin: Origin, line: Line, replyTo: int)
    requires HistoryIsTail(c)
    ensures HistoryIsTail(Append(c, tick, origin, line, replyTo))
  {
    var d := Append(c, tick, origin, line, replyTo);
    var m := Message(c.nextMsgID, tick, origin, line, replyTo);
    assert c.messages + [m] == d.said[|c.said| - |c.messages|..];
    assert d.messages == d.said[|d.said| - |d.messages|..];
  }

  /** The history keeps the newest message, and of the older ones drops at most the oldest, only when it is full. */
  lemma AppendRetains(c: Chat, tick: nat, origin: Origin, line: Line, replyTo: int)
    requires HistoryIsTail(c)
    ensures var d, m := Append(c, tick, origin, line, replyTo), Message(|c.said|, tick, origin, line, replyTo);
      && d.said == c.said + [m]
      && (|c.messages| < c.maxHistory ==> d.messages == c.messages + [m])
      && (|c.messages| == c.maxHistory > 0 ==> d.messages == c.messages[1..] + [m])
  {
    var m := Message(|c.said|, tick, origin, line, replyTo);
    if |c.messages| == c.maxHistory > 0 { assert (c.messages + [m])[1..] == c.messages[1..] + [m]; }
  }

  lemma SkipKeeps(c: Chat)
    requires Inv(c) && c.cursor < |c.script|
    ensures Inv(Skip(c))
  {
    var d := Skip(c);
    forall k | 0 <= k < d.cursor && d.msgIDs[k] != -1 ensures Landed(d, k) {
      assert Landed(c, k);
    }
    OneScriptStays(c, d);
  }

  /** Moving only the cursor and the stall clock forward keeps every released turn where it was. */
  lemma OneScriptStays(c: Chat, d: Chat)
    requires |c.script| == |c.msgIDs| && OneScript(c)
    requires d.said == c.said && d.since == c.since && d.msgIDs == c.msgIDs && d.script == c.script
    requires c.cursor <= d.cursor
    ensures OneScript(d)
  {
    forall k | d.since <= k < |d.said| && d.said[k].origin.Scripted?
      ensures exists i :: 0 <= i < d.cursor && i < |d.msgIDs| && d.msgIDs[i] == k
    {
      var i :| 0 <= i < c.cursor && i < |c.msgIDs| && c.msgIDs[i] == k;
      assert d.msgIDs[i] == k;
    }
  }

  lemma SayLands(c: Chat, heard: seq<bool>, tick: nat, k: nat)
    requires Inv(c) && c.cursor < |c.script| && Ready(c, heard)
    requires k <= c.cursor && Say(c, tick).msgIDs[k] != -1
    ensures Landed(Say(c, tick), k)
  {
    hide OneScript;
    var d, n := Say(c, tick), c.cursor;
    assert c.script[n].replyTo < n;
    if k < n {
      assert Landed(c, k);
    } else {
      forall j | 0 <= j < n && d.msgIDs[j] >= 0 ensures d.msgIDs[j] < c.nextMsgID {
        assert Landed(c, j);
      }
    }
  }

  lemma SayKeeps(c: Chat, heard: seq<bool>, tick: nat)
    requires Inv(c) && c.cursor < |c.script| && Ready(c, heard)
    ensures Inv(Say(c, tick))
  {
    var d, n := Say(c, tick), c.cursor;
    var t := c.script[n];
    AppendKeepsHistory(c, tick, Scripted(t.speaker, c.isModel), t.line,
                       if 0 <= t.replyTo < |c.msgIDs| then c.msgIDs[t.replyTo] else -1);
    forall k | 0 <= k < d.cursor && d.msgIDs[k] != -1 ensures Landed(d, k) {
      SayLands(c, heard, tick, k);
    }
    SayKeepsOneScript(c, tick);
  }

  lemma SayKeepsOneScript(c: Chat, tick: nat)
    requires c.cursor < |c.script| == |c.msgIDs| && OneScript(c) && c.nextMsgID == |c.said|
    requires c.msgIDs[c.cursor] == -1
    ensures OneScript(Say(c, tick))
  {
    var d, n := Say(c, tick), c.cursor;
    forall k | d.since <= k < |d.said| && d.said[k].origin.Scripted?
      ensures exists i :: 0 <= i < d.cursor && i < |d.msgIDs| && d.msgIDs[i] == k
    {
      if k < |c.said| {
        var i :| 0 <= i < c.cursor && i < |c.msgIDs| && c.msgIDs[i] == k;
        assert d.msgIDs[i] == k;
      } else {
        assert d.msgIDs[n] == k;
      }
    }
  }

  lemma {:induction false} ReleaseKeeps(c: Chat, heard: seq<bool>, tick: nat)
    requires Inv(c)
    ensures Inv(Release(c, heard, tick))
    decreases |c.script| - c.cursor
  {
    if c.cursor < |c.script| {
      var t := c.script[c.cursor];
      if t.speaker < 0 || t.speaker >= c.friends {
        SkipKeeps(c);
        ReleaseKeeps(Skip(c), heard, tick);
      } else if Ready(c, heard) {
        SayKeeps(c, heard, tick);
      } else {
        var w := Stalled(c, tick);
        StallKeeps(c, tick);
        if tick - w.stallSince >= STALL_LIMIT {
          SkipKeeps(w);
          ReleaseKeeps(Skip(w), heard, tick);
        }
      }
    }
  }

  lemma StallKeeps(c: Chat, tick: nat)
    requires Inv(c)
    ensures Inv(Stalled(c, tick))
  {
    var d := Stalled(c, tick);
    forall k | 0 <= k < d.cursor && d.msgIDs[k] != -1 ensures Landed(d, k) {
      assert Landed(c, k);
    }
    OneScriptStays(c, d);
  }

  /** d is c with exactly one more message: the turn just before d's cursor, whose speaker has heard the story. */
  ghost predicate SaidOne(c: Chat, d: Chat, heard: seq<bool>)
    requires |c.script| == |c.msgIDs|
  {
    && c.cursor < d.cursor <= |c.script|
    && Sayable(c.script, c.friends, d.cursor - 1)
    && var t := c.script[d.cursor - 1];
    && t.speaker < |heard| && heard[t.speaker]
    && |d.said| == |c.said| + 1 && d.said[..|c.said|] == c.said
    && d.said[|c.said|].origin == Scripted(t.speaker, c.isModel)
    && d.msgIDs == c.msgIDs[d.cursor - 1 := |c.said|]
  }

  lemma SaidLast(c: Chat, tick: nat)
    requires HistoryIsTail(c) && c.cursor < |c.script| == |c.msgIDs|
    ensures c.nextMsgID == |c.said| && Say(c, tick).said[..|c.said|] == c.said
  {
  }

  lemma StallOnly(c: Chat, tick: nat)
    ensures Stalled(c, tick) == c.(stallSince := Stalled(c, tick).stallSince)
  {
  }

  /** One call says at most one turn, never going back, and only for a speaker who has heard the story. */
  lemma {:induction false} ReleaseSaysOne(c: Chat, heard: seq<bool>, tick: nat)
    requires Inv(c)
    ensures var d := Release(c, heard, tick);
      && d.script == c.script && d.friends == c.friends && d.isModel == c.isModel && d.based == c.based
      && d.cursor >= c.cursor
      && ((d.said == c.said && d.msgIDs == c.msgIDs) || SaidOne(c, d, heard))
    decreases |c.script| - c.cursor
  {
    hide Landed, OneScript, HistoryIsTail, Stalled;
    if c.cursor < |c.script| {
      var t := c.script[c.cursor];
      if t.speaker < 0 || t.speaker >= c.friends {
        SkipKeeps(c);
        ReleaseSaysOne(Skip(c), heard, tick);
      } else if Ready(c, heard) {
        assert t.replyTo < c.cursor;
        SaidLast(c, tick);
      } else {
        var w := Stalled(c, tick);
        StallKeeps(c, tick);
        StallOnly(c, tick);
        if tick - w.stallSince >= STALL_LIMIT {
          SkipKeeps(w);
          ReleaseSaysOne(Skip(w), heard, tick);
        }
      }
    }
  }

  // ---------- whole runs ----------

  datatype Remark = Remark(friend: int, kind: string, line: Line)

  /** What one call of Observe finds: the friends' own reactions, in order, and who has heard the story. */
  datatype Observation = Observation(remarks: seq<Remark>, heard: seq<bool>)

  ghost function React(c: Chat, tick: nat, remarks: seq<Remark>, n: nat): Chat
    requires n <= |remarks|
  {
    if n == 0 then c
    else
      var r := remarks[n - 1];
      Append(React(c, tick, remarks, n - 1), tick, Reaction(r.friend, r.kind), r.line, -1)
  }

  /** Observe: nothing without friends; the first call only takes the baseline; every other one posts the friends'
      reactions and then turns to the script. */
  ghost function Observe(c: Chat, o: Observation, tick: nat): Chat
    requires |c.msgIDs| == |c.script|
  {
    if c.friends == 0 then c
    else if !c.based then c.(based := true)
    else
      ReactFrame(c, tick, o.remarks, |o.remarks|);
      Release(React(c, tick, o.remarks, |o.remarks|), o.heard, tick)
  }

  lemma {:induction false} ReactFrame(c: Chat, tick: nat, remarks: seq<Remark>, n: nat)
    requires n <= |remarks|
    ensures var d := React(c, tick, remarks, n);
      && d.script == c.script && d.msgIDs == c.msgIDs && d.cursor == c.cursor && d.stallSince == c.stallSince
      && d.friends == c.friends && d.isModel == c.isModel && d.since == c.since && d.based == c.based
  {
    if n > 0 { ReactFrame(c, tick, remarks, n - 1); }
  }

  lemma RemarkKeeps(c: Chat, tick: nat, r: Remark)
    requires Inv(c)
    ensures Inv(Append(c, tick, Reaction(r.friend, r.kind), r.line, -1))
  {
    var d := Append(c, tick, Reaction(r.friend, r.kind), r.line, -1);
    AppendKeepsHistory(c, tick, Reaction(r.friend, r.kind), r.line, -1);
    forall k | 0 <= k < d.cursor && d.msgIDs[k] != -1 ensures Landed(d, k) {
      assert Landed(c, k);
    }
    forall k | d.since <= k < |d.said| && d.said[k].origin.Scripted?
      ensures exists i :: 0 <= i < d.cursor && i < |d.msgIDs| && d.msgIDs[i] == k
    {
      assert k < |c.said| && c.said[k] == d.said[k];
      var i :| 0 <= i < c.cursor && i < |c.msgIDs| && c.msgIDs[i] == k;
      assert d.msgIDs[i] == k;
    }
  }

  lemma {:induction false} ReactKeeps(c: Chat, tick: nat, remarks: seq<Remark>, n: nat)
    requires Inv(c) && n <= |remarks|
    ensures Inv(React(c, tick, remarks, n))
  {
    if n > 0 {
      ReactKeeps(c, tick, remarks, n - 1);
      RemarkKeeps(React(c, tick, remarks, n - 1), tick, remarks[n - 1]);
    }
  }

  /** What the first n remarks become. */
  ghost function Posted(from: nat, tick: nat, remarks: seq<Remark>, n: nat): seq<Message>
    requires n <= |remarks|
  {
    seq(n, j requires 0 <= j < n =>
      Message(from + j, tick, Reaction(remarks[j].friend, remarks[j].kind), remarks[j].line, -1))
  }

  lemma PostedNext(from: nat, tick: nat, remarks: seq<Remark>, n: nat)
    requires 0 < n <= |remarks|
    ensures var r := remarks[n - 1];
      Posted(from, tick, remarks, n)
        == Posted(from, tick, remarks, n - 1) + [Message(from + n - 1, tick, Reaction(r.friend, r.kind), r.line, -1)]
  {
  }

  lemma {:induction false} ReactPosts(c: Chat, tick: nat, remarks: seq<Remark>, n: nat)
    requires n <= |remarks| && Inv(c)
    ensures React(c, tick, remarks, n).said == c.said + Posted(|c.said|, tick, remarks, n)
  {
    hide Inv, Append;
    if n > 0 {
      ReactPosts(c, tick, remarks, n - 1);
      ReactKeeps(c, tick, remarks, n - 1);
      var b, r := React(c, tick, remarks, n - 1), remarks[n - 1];
      AppendSays(b, tick, Reaction(r.friend, r.kind), r.line);
      PostedNext(|c.said|, tick, remarks, n);
      hide Posted;
      var before, m := Posted(|c.said|, tick, remarks, n - 1),
                       Message(|b.said|, tick, Reaction(r.friend, r.kind), r.line, -1);
      assert c.said + before + [m] == c.said + (before + [m]);
    } else {
      assert Posted(|c.said|, tick, remarks, 0) == [];
    }
  }

  lemma AppendSays(c: Chat, tick: nat, origin: Origin, line: Line)
    requires Inv(c)
    ensures Append(c, tick, origin, line, -1).said == c.said + [Message(|c.said|, tick, origin, line, -1)]
  {
  }

  /** A tick, once the baseline is taken, posts every reaction, in order and as a new thread, and then says at most one
      turn of the script; nothing said before is changed. */
  lemma ObservePosts(c: Chat, o: Observation, tick: nat)
    requires Inv(c) && c.based && c.friends > 0
    ensures var d, n := Observe(c, o, tick), |o.remarks|;
      && |c.said| + n <= |d.said| <= |c.said| + n + 1
      && d.said[..|c.said| + n] == c.said + Posted(|c.said|, tick, o.remarks, n)
  {
    hide Landed, OneScript, HistoryIsTail, Release;
    var mid := React(c, tick, o.remarks, |o.remarks|);
    ReactKeeps(c, tick, o.remarks, |o.remarks|);
    ReactPosts(c, tick, o.remarks, |o.remarks|);
    ReleaseSaysOne(mid, o.heard, tick);
    assert Release(mid, o.heard, tick).said[..|mid.said|] == mid.said;
  }

  datatype Op =
    | Tick(o: Observation, tick: nat)
    | Clear
    | Write(canned: seq<Turn>)
    | Offer(turns: seq<Turn>)

  ghost function Step(c: Chat, op: Op): Chat
    requires |c.msgIDs| == |c.script|
  {
    match op
    case Tick(o, tick) => Observe(c, o, tick)
    case Clear => Reset(c)
    case Write(canned) => NewScript(c, canned)
    case Offer(turns) => Install(c, turns)
  }

  lemma {:induction false} FreshScriptKeeps(c: Chat, d: Chat)
    requires Inv(c) && HistoryIsTail(d) && d.said == c.said && c.since <= d.since
    requires d.cursor == 0 && d.stallSince == -1 && d.msgIDs == Unsaid(|d.script|)
    requires d.since == |c.said| || c.cursor == 0
    ensures Inv(d)
  {
  }

  lemma BaselineKeeps(c: Chat)
    requires Inv(c)
    ensures Inv(c.(based := true))
  {
    var d := c.(based := true);
    forall k | 0 <= k < d.cursor && d.msgIDs[k] != -1 ensures Landed(d, k) {
      assert Landed(c, k);
    }
    OneScriptStays(c, d);
  }

  lemma StepKeeps(c: Chat, op: Op)
    requires Inv(c)
    ensures Inv(Step(c, op))
  {
    match op
    case Tick(o, tick) =>
      BaselineKeeps(c);
      ReactKeeps(c, tick, o.remarks, |o.remarks|);
      ReleaseKeeps(React(c, tick, o.remarks, |o.remarks|), o.heard, tick);
    case Clear => FreshScriptKeeps(c, Reset(c));
    case Write(canned) => FreshScriptKeeps(c, NewScript(c, canned));
    case Offer(turns) => if c.cursor == 0 { FreshScriptKeeps(c, Install(c, turns)); }
  }

  /** A cohort as NewCohort leaves it. */
  ghost function Start(friends: nat, maxHistory: nat): Chat {
    Chat(friends, [], maxHistory, 0, [], 0, 0, [], false, false, [], 0)
  }

  ghost function Run(friends: nat, maxHistory: nat, ops: seq<Op>): (c: Chat)
    ensures Inv(c) && c.friends == friends
  {
    if |ops| == 0 then
      var c := Start(friends, maxHistory);
      assert HistoryIsTail(c);
      c
    else
      var before := Run(friends, maxHistory, ops[..|ops| - 1]);
      StepKeeps(before, ops[|ops| - 1]);
      StepFriends(before, ops[|ops| - 1]);
      Step(before, ops[|ops| - 1])
  }

  lemma StepFriends(c: Chat, op: Op)
    requires Inv(c)
    ensures Step(c, op).friends == c.friends
  {
    if op.Tick? { ObserveStays(c, op.o, op.tick); }
  }

  /** After any history of scripts, offers, resets and ticks, whatever the scripts: retained identifiers are
      consecutive, said turns are in script order, each reply names the message its target became, and every
      scripted message since the script was written is one of its turns and carries its provenance. */
  lemma ConversationIsOneThread(friends: nat, maxHistory: nat, ops: seq<Op>)
    ensures var c := Run(friends, maxHistory, ops);
      && (forall k :: 0 <= k < |c.messages| ==> c.messages[k].id == c.nextMsgID - |c.messages| + k)
      && |c.messages| <= c.maxHistory
      && (forall j, k :: 0 <= j < k < |c.script| && c.msgIDs[j] >= 0 && c.msgIDs[k] >= 0 ==> c.msgIDs[j] < c.msgIDs[k])
      && (forall k :: 0 <= k < |c.script| && c.msgIDs[k] >= 0 ==> k < c.cursor && Landed(c, k))
      && OneScript(c)
  {
    RetainedIDs(Run(friends, maxHistory, ops));
  }

  lemma RetainedIDs(c: Chat)
    requires HistoryIsTail(c)
    ensures forall k :: 0 <= k < |c.messages| ==> c.messages[k].id == c.nextMsgID - |c.messages| + k
  {
    forall k | 0 <= k < |c.messages| ensures c.messages[k].id == c.nextMsgID - |c.messages| + k {
      assert c.messages[k] == c.said[|c.said| - |c.messages| + k];
    }
  }

  // ---------- the script always ends ----------

  /** Calls still needed at the worst: 121 a turn, less the ones the current turn has already waited. */
  ghost function Left(c: Chat, tick: nat): int {
    if c.cursor >= |c.script| then 0
    else (STALL_LIMIT + 1) * (|c.script| - c.cursor) - if c.stallSince >= 0 then tick - c.stallSince else 0
  }

  /** The stall clock started at most 120 ticks ago. */
  ghost predicate OnTime(c: Chat, tick: nat) {
    c.cursor < |c.script| && c.stallSince >= 0 ==> c.stallSince <= tick <= c.stallSince + STALL_LIMIT
  }

  lemma {:induction false} ReleaseTakesOne(c: Chat, heard: seq<bool>, tick: nat)
    requires |c.msgIDs| == |c.script| && c.cursor <= |c.script| && OnTime(c, tick)
    ensures var d := Release(c, heard, tick);
      && |d.script| == |c.script| == |d.msgIDs| && d.cursor <= |d.script|
      && OnTime(d, tick + 1) && 0 <= Left(d, tick + 1)
      && (Left(d, tick + 1) <= Left(c, tick) - 1 || Left(d, tick + 1) == 0)
    decreases |c.script| - c.cursor
  {
    if c.cursor < |c.script| {
      var t := c.script[c.cursor];
      if t.speaker < 0 || t.speaker >= c.friends {
        ReleaseTakesOne(Skip(c), heard, tick);
      } else if !Ready(c, heard) {
        var w := Stalled(c, tick);
        if tick - w.stallSince >= STALL_LIMIT {
          ReleaseTakesOne(Skip(w), heard, tick);
        }
      }
    }
  }

  /** The chat after n observations at consecutive ticks. */
  ghost function Observed(c: Chat, os: seq<Observation>, tick: nat, n: nat): (d: Chat)
    requires Inv(c) && n <= |os|
    ensures Inv(d)
  {
    if n == 0 then c
    else
      var before := Observed(c, os, tick, n - 1);
      StepKeeps(before, Tick(os[n - 1], tick + n - 1));
      Observe(before, os[n - 1], tick + n - 1)
  }

  /** Once the baseline is taken, every call counts. */
  lemma ObserveTakesOne(c: Chat, o: Observation, tick: nat)
    requires |c.msgIDs| == |c.script| && c.cursor <= |c.script| && OnTime(c, tick) && c.based && c.friends > 0
    ensures var d := Observe(c, o, tick);
      && |d.script| == |c.script| && d.cursor <= |d.script|
      && OnTime(d, tick + 1) && 0 <= Left(d, tick + 1)
      && (Left(d, tick + 1) <= Left(c, tick) - 1 || Left(d, tick + 1) == 0)
  {
    ReactFrame(c, tick, o.remarks, |o.remarks|);
    ReleaseTakesOne(React(c, tick, o.remarks, |o.remarks|), o.heard, tick);
  }

  lemma {:induction false} ObservedTakes(c: Chat, os: seq<Observation>, tick: nat, n: nat)
    requires Inv(c) && n <= |os| && OnTime(c, tick) && c.based && c.friends > 0
    ensures var d := Observed(c, os, tick, n);
      && |d.script| == |c.script| && OnTime(d, tick + n)
      && (Left(d, tick + n) <= Left(c, tick) - n || Left(d, tick + n) == 0)
  {
    hide Observe, Left, OnTime;
    ObservedStays(c, os, tick, n);
    if n > 0 {
      ObservedTakes(c, os, tick, n - 1);
      ObservedStays(c, os, tick, n - 1);
      ObserveTakesOne(Observed(c, os, tick, n - 1), os[n - 1], tick + n - 1);
      assert tick + n - 1 + 1 == tick + n;
    } else {
      assert tick + n == tick;
    }
  }

  lemma ObserveStays(c: Chat, o: Observation, tick: nat)
    requires Inv(c)
    ensures var d := Observe(c, o, tick);
      d.script == c.script && d.friends == c.friends && (c.based ==> d.based) && (c.friends == 0 ==> d == c)
  {
    ReactFrame(c, tick, o.remarks, |o.remarks|);
    ReactKeeps(c, tick, o.remarks, |o.remarks|);
    ReleaseSaysOne(React(c, tick, o.remarks, |o.remarks|), o.heard, tick);
  }

  lemma {:induction false} ObservedStays(c: Chat, os: seq<Observation>, tick: nat, n: nat)
    requires Inv(c) && n <= |os|
    ensures var d := Observed(c, os, tick, n);
      d.script == c.script && d.friends == c.friends && (c.based ==> d.based) && (c.friends == 0 ==> d == c)
  {
    hide Inv, Observe;
    if n > 0 {
      ObservedStays(c, os, tick, n - 1);
      ObserveStays(Observed(c, os, tick, n - 1), os[n - 1], tick + n - 1);
    }
  }

  /** The call that takes the baseline is the only one that is lost. */
  lemma {:induction false} FirstIsLost(c: Chat, os: seq<Observation>, tick: nat, n: nat)
    requires Inv(c) && 0 < n <= |os| && !c.based && c.friends > 0
    ensures Inv(c.(based := true))
    ensures Observed(c, os, tick, n) == Observed(c.(based := true), os[1..], tick + 1, n - 1)
  {
    hide Inv;
    BaselineKeeps(c);
    var d := c.(based := true);
    if n == 1 {
      assert Observed(c, os, tick, 0) == c;
      assert Observed(d, os[1..], tick + 1, 0) == d;
    } else {
      FirstIsLost(c, os, tick, n - 1);
      assert os[1..][n - 2] == os[n - 1] && tick + 1 + (n - 1) - 1 == tick + n - 1;
    }
  }

  /** 1 where the next call of Observe only takes the baseline: after NewCohort or Reset. */
  ghost function Lost(c: Chat): nat { if c.based then 0 else 1 }

  /** Whatever the cascade does, and whatever else is said, 121 ticks a turn, and one for the baseline, are enough to
      get through a script, as long as the chat has anyone in it. */
  lemma ScriptEnds(c: Chat, os: seq<Observation>, tick: nat)
    requires Inv(c) && c.cursor == 0 && c.stallSince == -1 && |os| >= 121 * |c.script| + Lost(c)
    ensures var d := Observed(c, os, tick, |os|);
      |d.script| == |c.script| && (d.cursor == |d.script| <==> c.friends > 0 || |c.script| == 0)
  {
    hide Observe, OneScript, HistoryIsTail, Landed;
    ObservedStays(c, os, tick, |os|);
    if c.friends > 0 {
      if c.based {
        ObservedTakes(c, os, tick, |os|);
      } else {
        FirstIsLost(c, os, tick, |os|);
        ObservedTakes(c.(based := true), os[1..], tick + 1, |os| - 1);
      }
    }
  }

  // ---------- the bound is reached ----------

  ghost predicate NobodyHeard(o: Observation) {
    forall i :: 0 <= i < |o.heard| ==> !o.heard[i]
  }

  lemma {:induction false} StallsOnFirst(c: Chat, os: seq<Observation>, tick: nat, n: nat)
    requires Inv(c) && c.cursor == 0 && c.stallSince == -1 && c.based && n <= |os| && n <= STALL_LIMIT
    requires |c.script| > 0 && 0 <= c.script[0].speaker < c.friends
    requires forall i :: 0 <= i < |os| ==> NobodyHeard(os[i])
    ensures var d := Observed(c, os, tick, n);
      d.script == c.script && d.friends == c.friends && d.based && d.cursor == 0
      && d.stallSince == if n == 0 then -1 else tick
  {
    hide Landed, OneScript, HistoryIsTail, Observe, NobodyHeard;
    if n > 0 {
      StallsOnFirst(c, os, tick, n - 1);
      StallGoesOn(Observed(c, os, tick, n - 1), os[n - 1], tick + n - 1);
    }
  }

  lemma StallGoesOn(c: Chat, o: Observation, now: nat)
    requires |c.msgIDs| == |c.script| && c.cursor == 0 && c.based && NobodyHeard(o)
    requires |c.script| > 0 && 0 <= c.script[0].speaker < c.friends
    requires c.stallSince < 0 || now - c.stallSince < STALL_LIMIT
    ensures var d := Observe(c, o, now);
      d.script == c.script && d.friends == c.friends && d.based && d.cursor == 0
      && d.stallSince == if c.stallSince < 0 then now else c.stallSince
  {
    ReactFrame(c, now, o.remarks, |o.remarks|);
  }

  /** A script of one turn whose speaker never hears the story takes every one of those ticks. */
  lemma OneTurnTakesThemAll(c: Chat, os: seq<Observation>, tick: nat)
    requires Inv(c) && c.cursor == 0 && c.stallSince == -1 && |os| == 120 + Lost(c)
    requires |c.script| == 1 && 0 <= c.script[0].speaker < c.friends
    requires forall i :: 0 <= i < |os| ==> NobodyHeard(os[i])
    ensures Observed(c, os, tick, |os|).cursor == 0
  {
    hide Landed, OneScript, HistoryIsTail, NobodyHeard, Observe;
    if c.based {
      StallsOnFirst(c, os, tick, |os|);
    } else {
      FirstIsLost(c, os, tick, |os|);
      StallsOnFirst(c.(based := true), os[1..], tick + 1, |os| - 1);
    }
  }

  // ---------- a well-formed script is said whole ----------

  ghost predicate AllHeard(o: Observation, friends: nat) {
    |o.heard| == friends && forall i :: 0 <= i < friends ==> o.heard[i]
  }

  ghost predicate AllSaid(c: Chat) {
    c.cursor <= |c.msgIDs| && forall k :: 0 <= k < c.cursor ==> c.msgIDs[k] >= 0
  }

  lemma ObserveSaysNext(c: Chat, o: Observation, tick: nat)
    requires Inv(c) && WellFormed(c.script, c.friends) && AllHeard(o, c.friends) && AllSaid(c)
    requires c.based && c.friends > 0
    ensures var d := Observe(c, o, tick);
      && d.script == c.script && d.friends == c.friends && d.based && AllSaid(d)
      && d.cursor == (if c.cursor < |c.script| then c.cursor + 1 else c.cursor)
  {
    hide Landed, OneScript, HistoryIsTail;
    ReactFrame(c, tick, o.remarks, |o.remarks|);
    var mid := React(c, tick, o.remarks, |o.remarks|);
    if mid.cursor < |mid.script| {
      assert Sayable(c.script, c.friends, mid.cursor);
      assert Ready(mid, o.heard);
    }
  }

  lemma {:induction false} SaidWhole(c: Chat, os: seq<Observation>, tick: nat, n: nat)
    requires Inv(c) && c.cursor == 0 && WellFormed(c.script, c.friends) && n <= |os| && c.based && c.friends > 0
    requires forall i :: 0 <= i < |os| ==> AllHeard(os[i], c.friends)
    ensures var d := Observed(c, os, tick, n);
      && d.script == c.script && d.friends == c.friends && d.based && AllSaid(d)
      && d.cursor == (if n < |c.script| then n else |c.script|)
  {
    hide Landed, OneScript, HistoryIsTail, Observe, WellFormed;
    if n > 0 {
      SaidWhole(c, os, tick, n - 1);
      ObserveSaysNext(Observed(c, os, tick, n - 1), os[n - 1], tick + n - 1);
    }
  }

  /** How far a well-formed script has got after n ticks once all friends have heard: a turn a tick, after the one
      that takes the baseline, and nothing skipped. */
  lemma SaidSoFar(c: Chat, os: seq<Observation>, tick: nat, n: nat)
    requires Inv(c) && c.cursor == 0 && WellFormed(c.script, c.friends) && n <= |os| && c.friends > 0
    requires forall i :: 0 <= i < |os| ==> AllHeard(os[i], c.friends)
    ensures var d, m := Observed(c, os, tick, n), if n < Lost(c) then 0 else n - Lost(c);
      AllSaid(d) && d.cursor == if m < |c.script| then m else |c.script|
  {
    hide Landed, OneScript, HistoryIsTail, Observe, WellFormed, AllHeard;
    if c.based {
      SaidWhole(c, os, tick, n);
    } else if n > 0 {
      FirstIsLost(c, os, tick, n);
      SaidWhole(c.(based := true), os[1..], tick + 1, n - 1);
    }
  }

  /** Once all the friends have heard the story, a script is said whole, one turn a tick after the baseline is taken
      and nothing skipped, exactly when each of its turns has a real speaker and replies only backwards. */
  lemma SaidWholeExactlyWhen(c: Chat, os: seq<Observation>, tick: nat)
    requires Inv(c) && c.cursor == 0 && |os| == |c.script| + Lost(c)
    requires forall i :: 0 <= i < |os| ==> AllHeard(os[i], c.friends)
    ensures var d := Observed(c, os, tick, |os|);
      && |d.msgIDs| == |c.script|
      && ((forall k :: 0 <= k < |c.script| ==> d.msgIDs[k] >= 0) <==> WellFormed(c.script, c.friends))
  {
    var d := Observed(c, os, tick, |os|);
    ObservedStays(c, os, tick, |os|);
    if WellFormed(c.script, c.friends) {
      assert |c.script| > 0 ==> Sayable(c.script, c.friends, 0);
      if c.friends > 0 { SaidSoFar(c, os, tick, |os|); }
    }
    if forall k :: 0 <= k < |c.script| ==> d.msgIDs[k] >= 0 { AllSaidIsWellFormed(d); }
  }

  lemma AllSaidIsWellFormed(d: Chat)
    requires Inv(d) && forall k :: 0 <= k < |d.script| ==> d.msgIDs[k] >= 0
    ensures WellFormed(d.script, d.friends)
  {
    hide HistoryIsTail, OneScript;
    forall k | 0 <= k < |d.script| ensures Sayable(d.script, d.friends, k) {
      assert d.msgIDs[k] >= 0;
      assert k < d.cursor;
      assert Landed(d, k);
    }
  }

  /** So an offer made before the conversation has started is what the friends then say, whole, in their order, as the
      model's, if its turns are well formed and all the friends have heard. */
  lemma OfferIsSaidWhole(c: Chat, turns: seq<Turn>, os: seq<Observation>, tick: nat)
    requires Inv(c) && c.cursor == 0 && WellFormed(turns, c.friends) && |os| == |turns| + Lost(c)
    requires forall i :: 0 <= i < |os| ==> AllHeard(os[i], c.friends)
    ensures Inv(Install(c, turns)) && |os| == |turns| + Lost(Install(c, turns))
    ensures var d := Observed(Install(c, turns), os, tick, |os|);
      && |d.msgIDs| == |turns|
      && (forall j, k :: 0 <= j < k < |turns| ==> d.msgIDs[j] < d.msgIDs[k])
      && forall k :: 0 <= k < |turns| ==>
           && 0 <= d.msgIDs[k] < |d.said| && d.said[d.msgIDs[k]].line == turns[k].line
           && d.said[d.msgIDs[k]].origin == Scripted(turns[k].speaker, true)
  {
    hide OneScript, HistoryIsTail, Observe;
    var offered := Install(c, turns);
    StepKeeps(c, Offer(turns));
    ObservedStays(offered, os, tick, |os|);
    ObservedIsModel(offered, os, tick, |os|);
    SaidWholeExactlyWhen(offered, os, tick);
    AllLanded(Observed(offered, os, tick, |os|));
  }

  lemma AllLanded(d: Chat)
    requires Inv(d) && forall k :: 0 <= k < |d.script| ==> d.msgIDs[k] >= 0
    ensures forall j, k :: 0 <= j < k < |d.script| ==> d.msgIDs[j] < d.msgIDs[k]
    ensures forall k :: 0 <= k < |d.script| ==> Landed(d, k)
  {
    hide HistoryIsTail, OneScript;
    forall k | 0 <= k < |d.script| ensures Landed(d, k) {
      assert d.msgIDs[k] >= 0;
      assert k < d.cursor;
    }
    forall j, k | 0 <= j < k < |d.script| ensures d.msgIDs[j] < d.msgIDs[k] {
      assert Landed(d, k);
    }
  }

  lemma ObserveIsModel(c: Chat, o: Observation, tick: nat)
    requires Inv(c)
    ensures Observe(c, o, tick).isModel == c.isModel
  {
    ReactFrame(c, tick, o.remarks, |o.remarks|);
    ReactKeeps(c, tick, o.remarks, |o.remarks|);
    hide Inv, SaidOne;
    ReleaseSaysOne(React(c, tick, o.remarks, |o.remarks|), o.heard, tick);
  }

  lemma {:induction false} ObservedIsModel(c: Chat, os: seq<Observation>, tick: nat, n: nat)
    requires Inv(c) && n <= |os|
    ensures Observed(c, os, tick, n).isModel == c.isModel
  {
    hide Inv, Observe;
    if n > 0 {
      ObservedIsModel(c, os, tick, n - 1);
      ObserveIsModel(Observed(c, os, tick, n - 1), os[n - 1], tick + n - 1);
    }
  }

  /** Clearing the chat leaves a new one but for the numbering of messages and what history has seen; writing a script
      keeps the messages. */
  lemma ClearedIsNew(c: Chat, canned: seq<Turn>)
    ensures Reset(c).(nextMsgID := 0, said := [], since := 0, stallSince := 0) == Start(c.friends, c.maxHistory)
    ensures Reset(c).nextMsgID == c.nextMsgID && Reset(c).said == c.said == NewScript(c, canned).said
    ensures NewScript(c, canned).messages == c.messages && NewScript(c, canned).script == canned
    ensures NewScript(c, canned).based == c.based && NewScript(c, canned).cursor == 0
  {
  }

  // ---------- offers refused although nothing was said ----------

  /** A turn of the script in force has been said. */
  ghost predicate Released(c: Chat) {
    exists k :: c.since <= k < |c.said| && c.said[k].origin.Scripted?
  }

  /** Install keeps its promise to refuse only a conversation that has started, except exactly where the cursor has
      gone past turns none of which was said. */
  lemma RefusedUnsaidExactlyWhen(friends: nat, maxHistory: nat, ops: seq<Op>)
    ensures var c := Run(friends, maxHistory, ops);
      c.cursor != 0 && !Released(c) <==> c.cursor > 0 && forall k :: 0 <= k < |c.msgIDs| ==> c.msgIDs[k] == -1
  {
    hide HistoryIsTail;
    var c := Run(friends, maxHistory, ops);
    if k :| 0 <= k < |c.msgIDs| && c.msgIDs[k] != -1 {
      assert Landed(c, k);
      assert c.said[c.msgIDs[k]].origin.Scripted?;
    }
    if Released(c) {
      var k :| c.since <= k < |c.said| && c.said[k].origin.Scripted?;
      var i :| 0 <= i < c.cursor && i < |c.msgIDs| && c.msgIDs[i] == k;
    }
  }

  /** It happens: the model names a speaker who is not there, a tick skips the turn, and its next answer is refused. */
  lemma RefusedUnsaidHappens(better: seq<Turn>)
    ensures var bad, idle := [Turn(6, -1, Opening)], Observation([], [false]);
      var c := Run(1, 10, [Offer(bad), Tick(idle, 0), Tick(idle, 1)]);
      c.cursor == 1 && !Released(c) && Install(c, better) == c
  {
    hide Run, Inv;
    var bad, idle := [Turn(6, -1, Opening)], Observation([], [false]);
    assert [Offer(bad), Tick(idle, 0), Tick(idle, 1)] == [Offer(bad), Tick(idle, 0)] + [Tick(idle, 1)];
    assert [Offer(bad), Tick(idle, 0)] == [Offer(bad)] + [Tick(idle, 0)] && [Offer(bad)] == [] + [Offer(bad)];
    RunNext(1, 10, [], Offer(bad));
    RunNext(1, 10, [Offer(bad)], Tick(idle, 0));
    RunNext(1, 10, [Offer(bad), Tick(idle, 0)], Tick(idle, 1));
    var c := Run(1, 10, [Offer(bad), Tick(idle, 0)]);
    assert c.based && c.cursor == 0 && c.script == bad && c.said == [] && c.friends == 1;
  }

  lemma RunNext(friends: nat, maxHistory: nat, ops: seq<Op>, op: Op)
    ensures Run(friends, maxHistory, ops + [op]) == Step(Run(friends, maxHistory, ops), op)
    ensures |ops| == 0 ==> Run(friends, maxHistory, ops) == Start(friends, maxHistory)
  {
    hide Inv;
    assert (ops + [op])[..|ops|] == ops;
  }

  // ---------- the cohort as it runs ----------

  class Cohort {
    const friends: nat
    const maxHistory: nat
    var messages: seq<Message>
    var nextMsgID: nat
    var script: seq<Turn>
    var cursor: nat
    var stallSince: int
    var msgIDs: seq<int>
    var isModel: bool
    var based: bool
    ghost var said: seq<Message>
    ghost var since: nat

    ghost function View(): Chat
      reads this
    {
      Chat(friends, messages, maxHistory, nextMsgID, script, cursor, stallSince, msgIDs, isModel, based, said, since)
    }

    constructor (friends: nat, maxHistory: nat)
      ensures View() == Start(friends, maxHistory) && Inv(View())
    {
      this.friends, this.maxHistory := friends, maxHistory;
      messages, nextMsgID, script, cursor, stallSince, msgIDs, isModel := [], 0, [], 0, 0, [], false;
      based := false;
      said, since := [], 0;
      new;
      assert HistoryIsTail(View());
    }

    method AppendMessage(tick: nat, origin: Origin, line: Line, replyTo: int) returns (id: nat)
      modifies this
      ensures View() == Append(old(View()), tick, origin, line, replyTo) && id == old(nextMsgID)
    {
      var m := Message(nextMsgID, tick, origin, line, replyTo);
      nextMsgID := nextMsgID + 1;
      messages := messages + [m];
      if |messages| > maxHistory {
        messages := messages[|messages| - maxHistory..];
      }
      said := said + [m];
      id := m.id;
    }

    method ClearChat()
      modifies this
      ensures View() == Reset(old(View()))
    {
      messages := [];
      script, cursor, stallSince, msgIDs := [], 0, -1, [];
      isModel := false;
      based := false;
      since := |said|;
    }

    /** NewScript always writes a well-formed script. */
    method WriteScript(draws: nat -> nat, lean: seq<real>)
      requires |lean| == friends
      modifies this
      ensures View() == NewScript(old(View()), script) && WellFormed(script, friends)
      ensures friends > 0 ==> friends < |script| <= friends + 2
    {
      ghost var order;
      script, order := BuildCannedScript(friends, draws, lean);
      msgIDs := seq(|script|, _ => -1);
      cursor, stallSince, isModel := 0, -1, false;
      since := |said|;
    }

    method InstallModelScript(turns: seq<Turn>) returns (ok: bool)
      modifies this
      ensures View() == Install(old(View()), turns) && ok == (old(cursor) == 0)
    {
      if cursor != 0 {
        return false;
      }
      script := turns;
      msgIDs := seq(|turns|, _ => -1);
      isModel := true;
      stallSince := -1;
      return true;
    }

    method ReleaseScript(heard: seq<bool>, tick: nat)
      requires |msgIDs| == |script| && |heard| == friends
      modifies this
      ensures View() == Release(old(View()), heard, tick)
    {
      ghost var goal := Release(View(), heard, tick);
      while cursor < |script|
        invariant |msgIDs| == |script| && Release(View(), heard, tick) == goal
        decreases |script| - cursor
      {
        var t := script[cursor];
        if t.speaker < 0 || t.speaker >= friends {
          cursor := cursor + 1;
          stallSince := -1;
          continue;
        }
        var depReady := t.replyTo < 0 || (t.replyTo < |msgIDs| && msgIDs[t.replyTo] >= 0);
        if heard[t.speaker] && depReady {
          var replyID := -1;
          if t.replyTo >= 0 && t.replyTo < |msgIDs| {
            replyID := msgIDs[t.replyTo];
          }
          var id := AppendMessage(tick, Scripted(t.speaker, isModel), t.line, replyID);
          msgIDs := msgIDs[cursor := id];
          cursor := cursor + 1;
          stallSince := -1;
          return;
        }
        if stallSince < 0 {
          stallSince := tick;
        }
        if tick - stallSince < STALL_LIMIT {
          return;
        }
        cursor := cursor + 1;
        stallSince := -1;
      }
    }

    /** Observe, from the reactions the transitions of this tick give rise to. */
    method ObserveTick(o: Observation, tick: nat)
      requires |msgIDs| == |script| && |o.heard| == friends
      modifies this
      ensures View() == Observe(old(View()), o, tick)
    {
      hide Release;
      if friends == 0 {
        return;
      }
      if !based {
        based := true;
        return;
      }
      ghost var was := View();
      for i := 0 to |o.remarks|
        invariant View() == React(was, tick, o.remarks, i)
      {
        var r := o.remarks[i];
        var _ := AppendMessage(tick, Reaction(r.friend, r.kind), r.line, -1);
      }
      ReactFrame(was, tick, o.remarks, |o.remarks|);
      ReleaseScript(o.heard, tick);
    }
  }
}
