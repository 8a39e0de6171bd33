/** Scripts for the group chat: what a script is, the validation of the model's turns, and the canned one.  Only
    who speaks and what they answer is kept of the lines. */
module Script {
  import opened Common
  import opened Finite
  import opened Reals

  /** What a turn says, as far as the chat's own lines are concerned; Words is the model's text. */
  datatype Line = Opening | Answer(target: nat, agree: bool) | Tangent | Words(text: string)

  /** replyTo is the position of an earlier turn of the same script, or negative for a new thread. */
  datatype Turn = Turn(speaker: int, replyTo: int, line: Line)

  /** Turn k can be said once its turn has come: a real speaker, and no reply to itself or a later turn. */
  ghost predicate Sayable(script: seq<Turn>, members: nat, k: nat)
    requires k < |script|
  {
    0 <= script[k].speaker < members && script[k].replyTo < k
  }

  ghost predicate WellFormed(script: seq<Turn>, members: nat) {
    forall k :: 0 <= k < |script| ==> Sayable(script, members, k)
  }

  // ---------- the model's turns ----------

  /** One element of the response's turns array. */
  datatype Raw = Raw(speaker: int, replyTo: int, text: string)

  ghost predicate Kept(raw: seq<Raw>, members: int, trim: string -> string, k: nat)
    requires k < |raw|
  {
    trim(raw[k].text) != "" && 0 <= raw[k].speaker < members
  }

  /** How many of the first k turns are kept: where turn k lands if it is kept itself. */
  ghost function Place(raw: seq<Raw>, members: int, trim: string -> string, k: nat): (p: nat)
    requires k <= |raw|
    ensures p <= k
  {
    if k == 0 then 0 else Place(raw, members, trim, k - 1) + if Kept(raw, members, trim, k - 1) then 1 else 0
  }

  /** What turn k becomes: its reply follows its target to the target's new place, or is dropped with it. */
  ghost function Renumbered(raw: seq<Raw>, members: int, trim: string -> string, k: nat): Turn
    requires k < |raw|
  {
    var r := raw[k].replyTo;
    Turn(raw[k].speaker,
         if 0 <= r < k && Kept(raw, members, trim, r) then Place(raw, members, trim, r) else -1,
         Words(trim(raw[k].text)))
  }

  /** out is the kept turns among the first n, in order and renumbered. */
  ghost predicate Renumbering(raw: seq<Raw>, members: int, trim: string -> string, n: nat, out: seq<Turn>)
    requires n <= |raw|
  {
    && |out| == Place(raw, members, trim, n)
    && forall k :: 0 <= k < n && Kept(raw, members, trim, k) ==>
         Place(raw, members, trim, k) < |out| && out[Place(raw, members, trim, k)] == Renumbered(raw, members, trim, k)
  }

  lemma {:induction false} PlaceGrows(raw: seq<Raw>, members: int, trim: string -> string, j: nat, k: nat)
    requires j <= k <= |raw|
    ensures Place(raw, members, trim, j) <= Place(raw, members, trim, k)
    ensures j < k && Kept(raw, members, trim, j) ==> Place(raw, members, trim, j) < Place(raw, members, trim, k)
  {
    if j < k { PlaceGrows(raw, members, trim, j, k - 1); }
  }

  /** Every place of the output is taken by exactly one kept turn. */
  lemma {:induction false} PlaceIsTaken(raw: seq<Raw>, members: int, trim: string -> string, n: nat, p: nat)
    returns (k: nat)
    requires n <= |raw| && p < Place(raw, members, trim, n)
    ensures k < n && Kept(raw, members, trim, k) && Place(raw, members, trim, k) == p
  {
    if Kept(raw, members, trim, n - 1) && Place(raw, members, trim, n - 1) == p {
      k := n - 1;
    } else {
      k := PlaceIsTaken(raw, members, trim, n - 1, p);
    }
  }

  lemma RenumberingIsUnique(raw: seq<Raw>, members: int, trim: string -> string, a: seq<Turn>, b: seq<Turn>)
    requires Renumbering(raw, members, trim, |raw|, a) && Renumbering(raw, members, trim, |raw|, b)
    ensures a == b
  {
    forall p | 0 <= p < |a| ensures a[p] == b[p] {
      var k := PlaceIsTaken(raw, members, trim, |raw|, p);
    }
  }

  /** The parser only ever emits sayable turns. */
  lemma RenumberingIsWellFormed(raw: seq<Raw>, members: nat, trim: string -> string, out: seq<Turn>)
    requires Renumbering(raw, members, trim, |raw|, out)
    ensures WellFormed(out, members)
  {
    forall p | 0 <= p < |out| ensures Sayable(out, members, p) {
      var k := PlaceIsTaken(raw, members, trim, |raw|, p);
      var r := raw[k].replyTo;
      if 0 <= r < k && Kept(raw, members, trim, r) {
        PlaceGrows(raw, members, trim, r, k);
      }
    }
  }

  /** The first n turns that say something once trimmed, by a speaker who is there. */
  ghost function Usable(raw: seq<Raw>, members: int, trim: string -> string, n: nat): set<nat>
    requires n <= |raw|
  {
    set k: nat | k < n && |trim(raw[k].text)| > 0 && 0 <= raw[k].speaker < members
  }

  /** So the source's error is returned exactly when none is usable. */
  lemma {:induction false} PlaceCounts(raw: seq<Raw>, members: int, trim: string -> string, n: nat)
    requires n <= |raw|
    ensures Place(raw, members, trim, n) == |Usable(raw, members, trim, n)|
  {
    if n == 0 {
      assert Usable(raw, members, trim, 0) == {};
    } else {
      PlaceCounts(raw, members, trim, n - 1);
      var last := if Kept(raw, members, trim, n - 1) then {n - 1} else {};
      assert Usable(raw, members, trim, n) == Usable(raw, members, trim, n - 1) + last;
    }
  }

  /** What a renumbering is: as many turns as are usable, each at the place that counts the usable ones before it, its
      own speaker and trimmed words, answering the turn it answered wherever that went, or nobody if it answered
      itself, a later turn or one that is gone. */
  lemma RenumberedAt(raw: seq<Raw>, members: int, trim: string -> string, out: seq<Turn>, k: nat)
    requires Renumbering(raw, members, trim, |raw|, out)
    ensures |out| == |Usable(raw, members, trim, |raw|)|
    ensures k in Usable(raw, members, trim, |raw|) ==>
      var at, r := |Usable(raw, members, trim, k)|, raw[k].replyTo;
      && at < |out| && out[at].speaker == raw[k].speaker && out[at].line == Words(trim(raw[k].text))
      && out[at].replyTo == if r in Usable(raw, members, trim, k) then |Usable(raw, members, trim, r)| else -1
  {
    PlaceCounts(raw, members, trim, |raw|);
    if k in Usable(raw, members, trim, |raw|) {
      PlaceCounts(raw, members, trim, k);
      var r := raw[k].replyTo;
      if 0 <= r < k { PlaceCounts(raw, members, trim, r); }
    }
  }

  /** The validation loop of parseDialogue, from the decoded turns on; None is the source's error. */
  method ParseTurns(raw: seq<Raw>, members: nat, trim: string -> string) returns (r: Option<seq<Turn>>)
    ensures r.None? <==> Place(raw, members, trim, |raw|) == 0
    ensures r.Some? ==> Renumbering(raw, members, trim, |raw|, r.value) && WellFormed(r.value, members)
  {
    if |raw| == 0 {
      return None;
    }
    var out: seq<Turn> := [];
    var remap := new int[|raw|];
    for k := 0 to |raw|
      invariant Renumbering(raw, members, trim, k, out)
      invariant forall j :: 0 <= j < k ==>
        remap[j] == if Kept(raw, members, trim, j) then Place(raw, members, trim, j) else -1
    {
      remap[k] := -1;
      var t := raw[k];
      var text := trim(t.text);
      if text == "" || t.speaker < 0 || t.speaker >= members {
        continue;
      }
      var replyTo := -1;
      if t.replyTo >= 0 && t.replyTo < k {
        var mapped := remap[t.replyTo];
        if mapped >= 0 {
          replyTo := mapped;
        }
      }
      out := out + [Turn(t.speaker, replyTo, Words(text))];
      remap[k] := |out| - 1;
    }
    if |out| == 0 {
      return None;
    }
    RenumberingIsWellFormed(raw, members, trim, out);
    return Some(out);
  }

  // ---------- the canned script ----------

  ghost predicate Permutation(s: seq<nat>, n: nat) {
    |s| == n && (forall i :: 0 <= i < n ==> s[i] < n) && forall i, j :: 0 <= i < j < n ==> s[i] != s[j]
  }

  ghost function InOrder(n: nat): (s: seq<nat>)
    ensures |s| == n
  {
    seq(n, i => i)
  }

  ghost function Swapped(s: seq<nat>, i: nat, j: nat): (t: seq<nat>)
    requires i < |s| && j < |s|
    ensures |t| == |s|
  {
    s[i := s[j]][j := s[i]]
  }

  lemma SwapPermutes(s: seq<nat>, n: nat, i: nat, j: nat)
    requires Permutation(s, n) && i < n && j < n && n == |s|
    ensures Permutation(Swapped(s, i, j), n)
  {
  }

  function Pick(draws: nat -> nat, used: nat, m: nat): (j: nat)
    requires m > 0
    ensures j < m
  {
    draws(used) % m
  }

  /** The shuffle of the first m places: the last of them trades with one drawn from among them, and so on down. */
  ghost function Shuffled(s: seq<nat>, draws: nat -> nat, used: nat, m: nat): seq<nat>
    requires m <= |s|
    decreases m
  {
    if m <= 1 then s else Shuffled(Swapped(s, m - 1, Pick(draws, used, m)), draws, used + 1, m - 1)
  }

  /** Where a value stands in an arrangement that agrees with another from place m on. */
  lemma PlacedBefore(s: seq<nat>, target: seq<nat>, n: nat, m: nat) returns (j: nat)
    requires Permutation(s, n) && Permutation(target, n) && 0 < m <= n
    requires forall i :: m <= i < n ==> s[i] == target[i]
    ensures j < m && s[j] == target[m - 1]
  {
    assert Distinct(s);
    DistinctBelow(s, n);
    assert target[m - 1] in s;
    j :| 0 <= j < n && s[j] == target[m - 1];
    if j >= m { assert false; }
  }

  lemma PickOwn(draws: nat -> nat, used: nat, j: nat, m: nat)
    requires j < m && draws(used) == j
    ensures Pick(draws, used, m) == j
  {
  }

  /** Any order can come out of a shuffle, by draws that depend on the order alone. */
  lemma {:induction false} EveryOrderHappens(s: seq<nat>, target: seq<nat>, n: nat, m: nat, used: nat)
    returns (picks: seq<nat>)
    requires Permutation(s, n) && Permutation(target, n) && m <= n
    requires forall i :: m <= i < n ==> s[i] == target[i]
    ensures |picks| == if m == 0 then 0 else m - 1
    ensures forall draws: nat -> nat :: (forall k :: 0 <= k < |picks| ==> draws(used + k) == picks[k]) ==>
              Shuffled(s, draws, used, m) == target
    decreases m
  {
    picks := [];
    if m == 0 {
      SameOrder(s, target, n);
    } else {
      var j := PlacedBefore(s, target, n, m);
      if m == 1 {
        SameOrder(s, target, n);
      } else {
        Sizes(s, n);
        Sizes(target, n);
        var next := Swapped(s, m - 1, j);
        SwapPermutes(s, n, m - 1, j);
        var rest := EveryOrderHappens(next, target, n, m - 1, used + 1);
        picks := [j] + rest;
        forall draws: nat -> nat | forall k :: 0 <= k < |picks| ==> draws(used + k) == picks[k]
          ensures Shuffled(s, draws, used, m) == target
        {
          assert draws(used + 0) == picks[0] == j;
          assert draws(used) == j;
          PickOwn(draws, used, j, m);
          forall k | 0 <= k < |rest| ensures draws(used + 1 + k) == rest[k] {
            var l := k + 1;
            assert draws(used + l) == picks[l] == rest[k];
          }
        }
      }
    }
  }

  lemma Sizes(s: seq<nat>, n: nat)
    requires Permutation(s, n)
    ensures |s| == n
  {
  }

  lemma SameOrder(s: seq<nat>, target: seq<nat>, n: nat)
    requires Permutation(s, n) && Permutation(target, n) && forall i :: 0 <= i < n ==> s[i] == target[i]
    ensures s == target
  {
  }

  method Roster(n: nat) returns (order: array<nat>)
    ensures fresh(order) && order[..] == InOrder(n)
  {
    order := new nat[n](i => i);
  }

  method Trade(a: array<nat>, i: nat, j: nat)
    requires i < a.Length && j < a.Length
    modifies a
    ensures a[..] == Swapped(old(a[..]), i, j)
  {
    a[i], a[j] := a[j], a[i];
  }

  /** The Fisher-Yates shuffle of the speaking order; draws is the generator's stream. */
  method Shuffle(n: nat, draws: nat -> nat) returns (order: array<nat>, used: nat)
    requires n > 0
    ensures fresh(order) && Permutation(order[..], n)
    ensures order[..] == Shuffled(InOrder(n), draws, 0, n) && used == n - 1
  {
    order := Roster(n);
    used := 0;
    Unshuffled(n);
    ghost var goal := Shuffled(InOrder(n), draws, 0, n);
    hide Shuffled, Permutation, InOrder, Swapped, Pick;
    ghost var s := InOrder(n);
    var i := n - 1;
    while i > 0
      invariant -1 <= i < n && |s| == n
      invariant order[..] == s
      invariant Permutation(s, n)
      invariant Shuffled(s, draws, used, i + 1) == goal
      invariant i >= 0 && used == n - 1 - i
    {
      var j := Pick(draws, used, i + 1);
      ShuffleStep(s, draws, used, i);
      SwapPermutes(s, n, i, j);
      Trade(order, i, j);
      s := Swapped(s, i, j);
      used := used + 1;
      i := i - 1;
    }
    assert i == 0;
    ShuffleEnds(s, draws, used, 1);
  }

  lemma Unshuffled(n: nat)
    ensures Permutation(InOrder(n), n)
  {
  }

  lemma ShuffleStep(s: seq<nat>, draws: nat -> nat, used: nat, i: nat)
    requires 0 < i < |s|
    ensures Shuffled(s, draws, used, i + 1) == Shuffled(Swapped(s, i, Pick(draws, used, i + 1)), draws, used + 1, i)
  {
  }

  lemma ShuffleEnds(s: seq<nat>, draws: nat -> nat, used: nat, m: nat)
    requires m <= 1 && m <= |s|
    ensures Shuffled(s, draws, used, m) == s
  {
  }

  function Agrees(lean: seq<real>, a: nat, b: nat): bool
    requires a < |lean| && b < |lean|
  {
    lean[a] * lean[b] >= 0.0
  }

  /** Two friends agree unless they lean opposite ways. */
  lemma AgreesExactlyWhen(lean: seq<real>, a: nat, b: nat)
    requires a < |lean| && b < |lean|
    ensures Agrees(lean, a, b) <==> !(lean[a] < 0.0 < lean[b]) && !(lean[b] < 0.0 < lean[a])
  {
    var x, y := lean[a], lean[b];
    if x < 0.0 && y > 0.0 { ProductPositive(-x, y); }
    if x > 0.0 && y < 0.0 { ProductPositive(x, -y); }
    if x >= 0.0 && y >= 0.0 { NonNegative(x, y); }
    if x <= 0.0 && y <= 0.0 { NonNegative(-x, -y); }
  }

  /** The first m turns: the first speaker opens, each later one answers some earlier turn. */
  ghost predicate Thread(script: seq<Turn>, order: seq<nat>, lean: seq<real>, m: nat)
    requires m <= |order| && |lean| == |order| && Permutation(order, |order|)
  {
    && |script| == m
    && forall k :: 0 <= k < m ==>
         var t := script[k];
         && t.speaker == order[k]
         && (k == 0 ==> t.replyTo == -1 && t.line == Opening)
         && (k > 0 ==> 0 <= t.replyTo < k)
         && (k > 0 ==> t.line == Answer(order[t.replyTo], Agrees(lean, order[k], order[t.replyTo])))
  }

  lemma ThreadNext(script: seq<Turn>, order: seq<nat>, lean: seq<real>, m: nat, replyTo: nat)
    requires 0 < m < |order| && |lean| == |order| && Permutation(order, |order|) && Thread(script, order, lean, m)
    requires replyTo < m
    ensures script[replyTo].speaker == order[replyTo]
    ensures Thread(script + [Turn(order[m], replyTo, Answer(order[replyTo], Agrees(lean, order[m], order[replyTo])))],
                   order, lean, m + 1)
  {
    hide Agrees;
  }

  method BuildThread(order: array<nat>, draws: nat -> nat, lean: seq<real>, start: nat)
    returns (script: seq<Turn>, used: nat)
    requires order.Length > 0 && |lean| == order.Length && Permutation(order[..], order.Length)
    ensures Thread(script, order[..], lean, order.Length) && used == start + order.Length - 1
    ensures forall k :: 0 < k < |script| ==> script[k].replyTo == draws(start + k - 1) % k
  {
    hide Agrees;
    used := start;
    script := [Turn(order[0], -1, Opening)];
    var openedAt := [0];
    assert Thread(script, order[..], lean, 1);
    for m := 1 to order.Length
      invariant |script| == m && Thread(script, order[..], lean, m)
      invariant |openedAt| == m && forall k :: 0 <= k < m ==> openedAt[k] == k
      invariant used == start + m - 1
      invariant forall k :: 0 < k < m ==> script[k].replyTo == draws(start + k - 1) % k
    {
      hide Thread;
      var idx := order[m];
      var replyTo := openedAt[draws(used) % |openedAt|];
      ThreadNext(script, order[..], lean, m, replyTo);
      used := used + 1;
      var target := script[replyTo].speaker;
      script := script + [Turn(idx, replyTo, Answer(target, Agrees(lean, idx, target)))];
      openedAt := openedAt + [|script| - 1];
    }
  }

  /** The one or two turns it ends on. */
  method Tangents(thread: seq<Turn>, order: array<nat>, draws: nat -> nat, start: nat) returns (script: seq<Turn>)
    requires |thread| == order.Length > 0 && Permutation(order[..], order.Length)
    ensures var n := order.Length;
      && |script| == n + 1 + draws(start) % 2 && script[..n] == thread
      && forall k :: n <= k < |script| ==>
           && script[k].replyTo == k - 1 && script[k].line == Tangent
           && 0 <= script[k].speaker < n && script[k].speaker == order[draws(start + 1 + k - n) % n]
  {
    var n, used := order.Length, start;
    script := thread;
    var tangents := 1 + draws(used) % 2;
    used := used + 1;
    for k := 0 to tangents
      invariant |script| == n + k && script[..n] == thread && used == start + 1 + k
      invariant forall j :: n <= j < |script| ==>
        && script[j].replyTo == j - 1 && script[j].line == Tangent
        && 0 <= script[j].speaker < n && script[j].speaker == order[draws(start + 1 + j - n) % n]
    {
      var idx := order[draws(used) % n];
      used := used + 1;
      script := script + [Turn(idx, |script| - 1, Tangent)];
    }
  }

  /** buildCannedScript: everyone speaks once in a random order, each answering someone earlier with a line that
      agrees or not, then one or two tangents answering the turn before. */
  method BuildCannedScript(n: nat, draws: nat -> nat, lean: seq<real>)
    returns (script: seq<Turn>, ghost order: seq<nat>)
    requires |lean| == n
    ensures n == 0 ==> script == []
    ensures WellFormed(script, n)
    ensures n > 0 ==> Permutation(order, n) && n < |script| <= n + 2 && Thread(script[..n], order, lean, n)
    ensures n > 0 ==> order == Shuffled(InOrder(n), draws, 0, n) && |script| == n + 1 + draws(2 * n - 2) % 2
    ensures n > 0 ==> forall k :: 0 < k < n ==> script[k].replyTo == draws(n + k - 2) % k
    ensures n > 0 ==> forall k :: n <= k < |script| ==>
              && script[k].replyTo == k - 1 && script[k].line == Tangent
              && script[k].speaker == order[draws(n - 1 + k) % n]
  {
    hide Shuffled, Agrees, InOrder;
    order := [];
    if n == 0 {
      return [], order;
    }
    var shuffled, used := Shuffle(n, draws);
    order := shuffled[..];
    script, used := BuildThread(shuffled, draws, lean, used);
    ghost var thread := script;
    script := Tangents(script, shuffled, draws, used);
    forall k | 0 <= k < |script| ensures Sayable(script, n, k) {
      if k < n { assert thread[k] == script[k]; }
    }
  }
}
