/** A street: some residents of one place, and where each one's ties go.  Who they are comes from the reservoir;
    the graph is any symmetric one. */
module Street {
  import opened Common
  import opened Finite
  import opened Reservoir
  import Rows
  import SocialGraph

  /** ties are positions in the roster of residents. */
  datatype Resident = Resident(id: nat, degree: nat, ties: seq<nat>, localOther: nat, outside: nat)

  type Roster = map<nat, nat>

  ghost predicate RosterOf(roster: Roster, ids: seq<nat>) {
    && (forall i :: 0 <= i < |ids| ==> ids[i] in roster && roster[ids[i]] == i)
    && forall x :: x in roster ==> roster[x] < |ids| && ids[roster[x]] == x
  }

  ghost function TiesOf(row: seq<nat>, roster: Roster): seq<nat> {
    if |row| == 0 then []
    else
      var rest, v := TiesOf(row[..|row| - 1], roster), row[|row| - 1];
      if v in roster then rest + [roster[v]] else rest
  }

  /** Neighbours off the roster: those living in p, or those living elsewhere. */
  ghost function OthersOf(row: seq<nat>, roster: Roster, place: seq<nat>, p: nat, inside: bool): nat {
    if |row| == 0 then 0
    else
      var v := row[|row| - 1];
      OthersOf(row[..|row| - 1], roster, place, p, inside) + if IsOther(v, roster, place, p, inside) then 1 else 0
  }

  ghost predicate IsOther(v: nat, roster: Roster, place: seq<nat>, p: nat, inside: bool) {
    v !in roster && v < |place| && (place[v] == p <==> inside)
  }

  ghost function ResidentOf(id: nat, net: Net, roster: Roster, place: seq<nat>, p: nat): Resident
    requires id < |net|
  {
    Resident(id, |net[id]|, TiesOf(net[id], roster), OthersOf(net[id], roster, place, p, true),
             OthersOf(net[id], roster, place, p, false))
  }

  method SplitRow(row: seq<nat>, roster: Roster, place: seq<nat>, p: nat)
    returns (ties: seq<nat>, localOther: nat, outside: nat)
    requires forall k :: 0 <= k < |row| ==> row[k] < |place|
    ensures ties == TiesOf(row, roster)
    ensures localOther == OthersOf(row, roster, place, p, true)
    ensures outside == OthersOf(row, roster, place, p, false)
  {
    ties, localOther, outside := [], 0, 0;
    for i := 0 to |row|
      invariant ties == TiesOf(row[..i], roster)
      invariant localOther == OthersOf(row[..i], roster, place, p, true)
      invariant outside == OthersOf(row[..i], roster, place, p, false)
    {
      assert row[..i + 1][..i] == row[..i] && row[..i + 1][i] == row[i];
      if row[i] in roster {
        ties := ties + [roster[row[i]]];
      } else if place[row[i]] == p {
        localOther := localOther + 1;
      } else {
        outside := outside + 1;
      }
    }
    assert row[..|row|] == row;
  }

  method MakeRoster(ids: seq<nat>) returns (roster: Roster)
    requires Distinct(ids)
    ensures RosterOf(roster, ids)
  {
    roster := map[];
    for i := 0 to |ids|
      invariant RosterOf(roster, ids[..i])
    {
      RosterNext(roster, ids, i);
      roster := roster[ids[i] := i];
    }
    assert ids[..|ids|] == ids;
  }

  lemma RosterNext(roster: Roster, ids: seq<nat>, i: nat)
    requires i < |ids| && Distinct(ids) && RosterOf(roster, ids[..i])
    ensures RosterOf(roster[ids[i] := i], ids[..i + 1])
  {
  }

  /** NewStreet: no street where nobody lives; otherwise at most k distinct residents of the place, each with
      everyone they are tied to sorted into one of three kinds. */
  method NewStreet(place: seq<nat>, net: Net, bucket: seq<nat>, p: nat, draws: nat -> nat, k: nat)
    returns (residents: Option<array<Resident>>, ghost ids: seq<nat>, ghost roster: Roster)
    requires ValidNet(net) && |place| == |net| && Distinct(bucket)
    requires forall i :: 0 <= i < |bucket| ==> bucket[i] < |net|
    ensures residents == None <==> |bucket| == 0
    ensures Distinct(ids) && RosterOf(roster, ids) && forall x :: x in ids ==> x in bucket
    ensures |bucket| > 0 ==> |ids| == if |bucket| <= k then |bucket| else k
    ensures residents.Some? ==> residents.value.Length == |ids| && fresh(residents.value)
    ensures residents.Some? ==> forall i :: 0 <= i < |ids| ==>
              ids[i] < |net| && residents.value[i] == ResidentOf(ids[i], net, roster, place, p)
  {
    hide Distinct, RosterOf, TiesOf, OthersOf, Picked, Slots;
    ids, roster := [], map[];
    NobodyOnIt();
    if |bucket| == 0 {
      return None, ids, roster;
    }
    var drawn := ReservoirFromSlice(bucket, draws, k);
    DrawnFrom(bucket, draws, k, drawn[..]);
    ids := drawn[..];
    AllPeople(bucket, ids, |net|);
    var r := MakeRoster(drawn[..]);
    roster := r;
    var rows := new Resident[drawn.Length](i => Resident(0, 0, [], 0, 0));
    for i := 0 to drawn.Length
      invariant ids == drawn[..]
      invariant forall q :: 0 <= q < i ==> rows[q] == ResidentOf(ids[q], net, roster, place, p)
    {
      var id := drawn[i];
      var ties, localOther, outside := SplitRow(net[id], r, place, p);
      rows[i] := Resident(id, |net[id]|, ties, localOther, outside);
    }
    residents := Some(rows);
  }

  lemma AllPeople(bucket: seq<nat>, ids: seq<nat>, n: nat)
    requires forall i :: 0 <= i < |bucket| ==> bucket[i] < n
    requires forall x :: x in ids ==> x in bucket
    ensures forall i :: 0 <= i < |ids| ==> ids[i] < n
  {
    forall i | 0 <= i < |ids| ensures ids[i] < n {
      assert ids[i] in bucket;
    }
  }

  lemma NobodyOnIt()
    ensures Distinct([]) && RosterOf(map[], [])
  {
  }

  lemma DrawnFrom(bucket: seq<nat>, draws: nat -> nat, k: nat, out: seq<nat>)
    requires Distinct(bucket)
    requires |bucket| <= k ==> out == bucket
    requires |bucket| > k ==> Picked(out, bucket, Slots(draws, k, |bucket|))
    ensures Distinct(out) && |out| == if |bucket| <= k then |bucket| else k
    ensures forall x :: x in out ==> x in bucket
  {
    if |bucket| > k { PickedAreDistinct(out, bucket, draws, k); }
  }

  // ---------- what the numbers mean ----------

  lemma {:induction false} TiesAre(row: seq<nat>, roster: Roster, ids: seq<nat>)
    requires RosterOf(roster, ids)
    ensures forall j: nat :: j in TiesOf(row, roster) <==> j < |ids| && ids[j] in row
  {
    if |row| > 0 {
      var init, v := row[..|row| - 1], row[|row| - 1];
      assert row == init + [v];
      TiesAre(init, roster, ids);
    }
  }

  lemma {:induction false} TiesAreDistinct(row: seq<nat>, roster: Roster, ids: seq<nat>)
    requires RosterOf(roster, ids) && Rows.Increasing(row)
    ensures Distinct(TiesOf(row, roster))
  {
    if |row| > 0 {
      var init, v := row[..|row| - 1], row[|row| - 1];
      TiesAreDistinct(init, roster, ids);
      TiesAre(init, roster, ids);
      assert v !in init;
    }
  }

  lemma {:induction false} EveryNeighbourSorted(row: seq<nat>, roster: Roster, place: seq<nat>, p: nat)
    requires forall k :: 0 <= k < |row| ==> row[k] < |place|
    ensures |TiesOf(row, roster)| + OthersOf(row, roster, place, p, true) + OthersOf(row, roster, place, p, false)
         == |row|
  {
    if |row| > 0 {
      EveryNeighbourSorted(row[..|row| - 1], roster, place, p);
    }
  }

  ghost function Others(row: seq<nat>, roster: Roster, place: seq<nat>, p: nat, inside: bool): set<nat> {
    set v | v in Members(row) && IsOther(v, roster, place, p, inside)
  }

  lemma OthersGrow(init: seq<nat>, v: nat, roster: Roster, place: seq<nat>, p: nat, inside: bool)
    requires v !in init
    ensures |Others(init + [v], roster, place, p, inside)|
         == |Others(init, roster, place, p, inside)| + if IsOther(v, roster, place, p, inside) then 1 else 0
  {
    hide IsOther;
    var before := Others(init, roster, place, p, inside);
    assert Others(init + [v], roster, place, p, inside)
        == if IsOther(v, roster, place, p, inside) then before + {v} else before;
  }

  lemma {:induction false} OthersCounted(row: seq<nat>, roster: Roster, place: seq<nat>, p: nat, inside: bool)
    requires Rows.Increasing(row)
    ensures OthersOf(row, roster, place, p, inside) == |Others(row, roster, place, p, inside)|
  {
    hide Members, IsOther;
    if |row| > 0 {
      var init, v := row[..|row| - 1], row[|row| - 1];
      OthersCounted(init, roster, place, p, inside);
      OthersGrow(init, v, roster, place, p, inside);
      assert row == init + [v];
      assert v !in init;
    } else {
      assert Others(row, roster, place, p, inside) == {};
    }
  }

  /** Residents' ties are mutual, no one is tied to themselves or twice to another, and ties, neighbours in the
      same place and neighbours elsewhere add up to the degree, each counting different people. */
  lemma StreetTies(net: Net, ids: seq<nat>, roster: Roster, place: seq<nat>, p: nat, i: nat, j: nat)
    requires ValidNet(net) && |place| == |net| && SocialGraph.Symmetric(net) && RosterOf(roster, ids)
    requires i < |ids| && j < |ids| && ids[i] < |net| && ids[j] < |net|
    ensures var a, b := ResidentOf(ids[i], net, roster, place, p), ResidentOf(ids[j], net, roster, place, p);
      && (j in a.ties <==> i in b.ties)
      && (j in a.ties <==> ids[j] in net[ids[i]])
      && i !in a.ties && Distinct(a.ties)
      && a.degree == |a.ties| + a.localOther + a.outside
      && a.localOther == |Others(net[ids[i]], roster, place, p, true)|
      && a.outside == |Others(net[ids[i]], roster, place, p, false)|
  {
    hide TiesOf, OthersOf, Others, RosterOf, Rows.Increasing, Distinct;
    TiesAre(net[ids[i]], roster, ids);
    TiesAre(net[ids[j]], roster, ids);
    RowIncreases(net, ids[i]);
    TiesAreDistinct(net[ids[i]], roster, ids);
    EveryNeighbourSorted(net[ids[i]], roster, place, p);
    OthersCounted(net[ids[i]], roster, place, p, true);
    OthersCounted(net[ids[i]], roster, place, p, false);
    TiedBothWays(net, ids[i], ids[j]);
    TiedBothWays(net, ids[i], ids[i]);
  }

  lemma RowIncreases(net: Net, u: nat)
    requires SocialGraph.Symmetric(net) && u < |net|
    ensures Rows.Increasing(net[u])
  {
  }

  lemma TiedBothWays(net: Net, u: nat, v: nat)
    requires SocialGraph.Symmetric(net) && u < |net| && v < |net|
    ensures v in net[u] <==> u in net[v]
    ensures v in net[u] ==> u != v
  {
    if v in net[u] { assert SocialGraph.Tied(net, u, v); }
    if u in net[v] { assert SocialGraph.Tied(net, v, u); }
  }
}
