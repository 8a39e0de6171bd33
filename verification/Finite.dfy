/** Counting facts about finite sets of indices.

    They serve the seeders, the sampler and the dirty list alike. */
module Finite {

  ghost function UpTo(n: nat): (s: set<nat>)
    ensures |s| == n && forall x: nat :: x in s <==> x < n
  {
    if n == 0 then {} else UpTo(n - 1) + {n - 1}
  }

  ghost function CountOf(s: seq<nat>): nat {
    if |s| == 0 then 0 else CountOf(s[..|s| - 1]) + s[|s| - 1]
  }

  ghost predicate Distinct(d: seq<nat>) {
    forall j, k :: 0 <= j < k < |d| ==> d[j] != d[k]
  }

  ghost function Members(d: seq<nat>): (s: set<nat>)
    ensures forall x :: x in s <==> x in d
  {
    if |d| == 0 then {}
    else
      assert d == d[..|d| - 1] + [d[|d| - 1]];
      Members(d[..|d| - 1]) + {d[|d| - 1]}
  }

  lemma {:induction false} MembersSize(d: seq<nat>)
    requires Distinct(d)
    ensures |Members(d)| == |d|
  {
    if |d| > 0 {
      MembersSize(d[..|d| - 1]);
      assert d[|d| - 1] !in d[..|d| - 1];
    }
  }

  lemma {:induction false} SubsetSize<T>(a: set<T>, b: set<T>)
    requires a <= b
    ensures |a| <= |b|
    ensures |a| == |b| ==> a == b
    decreases |a|
  {
    if |a| > 0 {
      var x :| x in a;
      SubsetSize(a - {x}, b - {x});
      assert a == (a - {x}) + {x};
      assert b == (b - {x}) + {x};
    } else if |b| == 0 {
      assert a == b;
    }
  }

  /** The pigeonhole principle: distinct numbers below n are at most n, and if they are n they are all of them. */
  lemma DistinctBelow(d: seq<nat>, n: nat)
    requires Distinct(d) && forall k :: 0 <= k < |d| ==> d[k] < n
    ensures |d| <= n
    ensures |d| == n ==> forall x: nat :: x < n ==> x in d
  {
    MembersSize(d);
    assert Members(d) <= UpTo(n);
    SubsetSize(Members(d), UpTo(n));
    if |d| == n {
      forall x: nat | x < n ensures x in d {
        assert x in UpTo(n);
      }
    }
  }
}
