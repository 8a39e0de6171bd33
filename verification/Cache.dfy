/** The byte-bounded LRU of responses: a recency list of mutable entries, an index by key and a byte count.  It
    refines a sequence in order of last use. */
module Cache {
  import opened Common

  /** Requests stand for themselves: distinct requests are taken to have distinct digests. */
  type Key = seq<nat>
  type Bytes = seq<nat>

  // ---------- the specification: most recently used first ----------

  datatype Held = Held(key: Key, val: Bytes)

  ghost function Total(held: seq<Held>): nat {
    if |held| == 0 then 0 else |held[0].val| + Total(held[1..])
  }

  ghost function Find(held: seq<Held>, k: Key): Option<nat> {
    if |held| == 0 then None
    else if held[0].key == k then Some(0)
    else match Find(held[1..], k) case None => None case Some(i) => Some(i + 1)
  }

  ghost function Without(held: seq<Held>, k: Key): seq<Held> {
    if |held| == 0 then []
    else if held[0].key == k then Without(held[1..], k)
    else [held[0]] + Without(held[1..], k)
  }

  /** The longest prefix of the recency order that fits in max bytes. */
  ghost function Fit(held: seq<Held>, max: nat): seq<Held> {
    if Total(held) <= max || |held| == 0 then held else Fit(held[..|held| - 1], max)
  }

  ghost predicate NoRepeats(held: seq<Held>) {
    forall i, j :: 0 <= i < j < |held| ==> held[i].key != held[j].key
  }

  /** Get and Put on the recency order. */
  ghost function Got(held: seq<Held>, k: Key): seq<Held> {
    match Find(held, k)
    case None => held
    case Some(i) => if i < |held| then [held[i]] + Without(held, k) else held
  }

  ghost function PutIn(held: seq<Held>, k: Key, val: Bytes, max: nat): seq<Held> {
    if |val| > max then held else Fit([Held(k, val)] + Without(held, k), max)
  }

  lemma {:induction false} FindIs(held: seq<Held>, k: Key)
    ensures match Find(held, k)
      case None => forall i :: 0 <= i < |held| ==> held[i].key != k
      case Some(n) => n < |held| && held[n].key == k
  {
    if |held| > 0 && held[0].key != k {
      FindIs(held[1..], k);
      assert forall i :: 0 < i < |held| ==> held[i] == held[1..][i - 1];
    }
  }

  lemma {:induction false} WithoutAbsent(held: seq<Held>, k: Key)
    requires forall i :: 0 <= i < |held| ==> held[i].key != k
    ensures Without(held, k) == held
  {
    if |held| > 0 {
      WithoutAbsent(held[1..], k);
      assert held == [held[0]] + held[1..];
    }
  }

  lemma {:induction false} WithoutAt(held: seq<Held>, n: nat)
    requires NoRepeats(held) && n < |held|
    ensures Without(held, held[n].key) == held[..n] + held[n + 1..]
  {
    if n == 0 {
      WithoutAbsent(held[1..], held[0].key);
    } else {
      WithoutAt(held[1..], n - 1);
      assert held[..n] == [held[0]] + held[1..][..n - 1];
    }
  }

  lemma {:induction false} TotalAppend(a: seq<Held>, b: seq<Held>)
    ensures Total(a + b) == Total(a) + Total(b)
  {
    if |a| == 0 {
      assert a + b == b;
    } else {
      TotalAppend(a[1..], b);
      assert (a + b)[1..] == a[1..] + b;
    }
  }

  /** Fit is the longest prefix within the bound. */
  lemma {:induction false} FitIsLongest(held: seq<Held>, max: nat)
    ensures var f := Fit(held, max);
      && |f| <= |held| && f == held[..|f|] && Total(f) <= max
      && forall m :: |f| < m <= |held| ==> Total(held[..m]) > max
  {
    if Total(held) <= max || |held| == 0 {
      assert held[..|held|] == held;
    } else {
      var init := held[..|held| - 1];
      FitIsLongest(init, max);
      forall m | |Fit(init, max)| < m <= |held| ensures Total(held[..m]) > max {
        if m < |held| { assert held[..m] == init[..m]; } else { assert held[..m] == held; }
      }
      assert forall m :: 0 <= m <= |init| ==> held[..m] == init[..m];
    }
  }

  /** An accepted entry is at the front afterwards: it is never the one evicted. */
  lemma {:induction false} AcceptedSurvives(held: seq<Held>, k: Key, val: Bytes, max: nat)
    requires |val| <= max
    ensures var p := PutIn(held, k, val, max); |p| > 0 && p[0] == Held(k, val)
  {
    var full := [Held(k, val)] + Without(held, k);
    FitIsLongest(full, max);
    assert full[..1] == [Held(k, val)] + [];
    assert Total(full[..1][1..]) == 0;
    assert Total(full[..1]) <= max;
  }

  /** Entry n is k's, or n is past the end and nothing is. */
  ghost predicate HeldAt(held: seq<Held>, k: Key, n: nat) {
    && n <= |held| && (n < |held| ==> held[n].key == k)
    && (n == |held| ==> forall i :: 0 <= i < |held| ==> held[i].key != k)
  }

  /** The entries but the n-th, in their order. */
  ghost function Others(held: seq<Held>, n: nat): seq<Held>
    requires n <= |held|
  {
    if n < |held| then held[..n] + held[n + 1..] else held
  }

  /** A Get moves the entry it hits to the front and does nothing else. */
  lemma GotIs(held: seq<Held>, k: Key, n: nat)
    requires NoRepeats(held) && HeldAt(held, k, n)
    ensures Got(held, k) == if n < |held| then [held[n]] + Others(held, n) else held
  {
    FindIs(held, k);
    if n < |held| { WithoutAt(held, n); }
  }

  /** An accepted Put leaves its entry, then the others in their order, as many of them as fit; a refused one leaves
      everything. */
  lemma PutInIs(held: seq<Held>, k: Key, val: Bytes, max: nat, n: nat)
    requires NoRepeats(held) && HeldAt(held, k, n)
    ensures |val| > max ==> PutIn(held, k, val, max) == held
    ensures |val| <= max ==>
      var p, full := PutIn(held, k, val, max), [Held(k, val)] + Others(held, n);
      && |p| <= |full| && p == full[..|p|] && Total(p) <= max
      && forall m :: |p| < m <= |full| ==> Total(full[..m]) > max
  {
    if n < |held| { WithoutAt(held, n); } else { WithoutAbsent(held, k); }
    FitIsLongest([Held(k, val)] + Others(held, n), max);
  }

  // ---------- histories ----------

  datatype Op = Get(k: Key) | Put(k: Key, val: Bytes)

  ghost function Apply(held: seq<Held>, op: Op, max: nat): seq<Held> {
    match op
    case Get(k) => Got(held, k)
    case Put(k, val) => PutIn(held, k, val, max)
  }

  ghost function Run(ops: seq<Op>, max: nat): seq<Held> {
    if |ops| == 0 then [] else Apply(Run(ops[..|ops| - 1], max), ops[|ops| - 1], max)
  }

  ghost predicate Accepted(op: Op, max: nat) {
    op.Put? && |op.val| <= max
  }

  /** The value of the last Put of k that was not refused for its size. */
  ghost function LastPut(ops: seq<Op>, k: Key, max: nat): Option<Bytes> {
    if |ops| == 0 then None
    else
      var op := ops[|ops| - 1];
      if op.k == k && Accepted(op, max) then Some(op.val) else LastPut(ops[..|ops| - 1], k, max)
  }

  /** When k was last read or stored: the number of operations up to and including that one. */
  ghost function LastUse(ops: seq<Op>, k: Key, max: nat): (n: nat)
    ensures n <= |ops|
  {
    if |ops| == 0 then 0
    else
      var op := ops[|ops| - 1];
      if op.k == k && (op.Get? || Accepted(op, max)) then |ops| else LastUse(ops[..|ops| - 1], k, max)
  }

  /** Held values are the last accepted ones and the list is in order of last use, most recent first. */
  ghost predicate Ordered(held: seq<Held>, ops: seq<Op>, max: nat) {
    && (forall i :: 0 <= i < |held| ==> LastPut(ops, held[i].key, max) == Some(held[i].val))
    && (forall i, j :: 0 <= i < j < |held| ==> LastUse(ops, held[i].key, max) > LastUse(ops, held[j].key, max))
  }

  ghost predicate Faithful(held: seq<Held>, ops: seq<Op>, max: nat) {
    Ordered(held, ops, max) && Total(held) <= max
  }

  /** The list without k, and with k's newest version in front, after one more operation on k. */
  lemma FrontIsFaithful(held: seq<Held>, ops: seq<Op>, op: Op, front: Held, max: nat)
    requires Faithful(held, ops, max) && front.key == op.k && (op.Get? || Accepted(op, max))
    requires LastPut(ops + [op], op.k, max) == Some(front.val)
    ensures Ordered([front] + Without(held, op.k), ops + [op], max)
  {
    var rest := Without(held, op.k);
    assert (ops + [op])[..|ops|] == ops;
    RestIsFaithful(held, ops, op.k, max);
    forall i | 0 <= i < |rest|
      ensures LastPut(ops + [op], rest[i].key, max) == Some(rest[i].val)
      ensures LastUse(ops + [op], rest[i].key, max) == LastUse(ops, rest[i].key, max)
    {
      assert rest[i].key != op.k;
    }
  }

  lemma RestIsFaithful(held: seq<Held>, ops: seq<Op>, k: Key, max: nat)
    requires Faithful(held, ops, max)
    ensures Ordered(Without(held, k), ops, max)
    ensures forall i :: 0 <= i < |Without(held, k)| ==> Without(held, k)[i].key != k
  {
    FindIs(held, k);
    match Find(held, k)
    case None => WithoutAbsent(held, k);
    case Some(n) =>
      WithoutAt(held, n);
      var rest := held[..n] + held[n + 1..];
      assert forall i :: 0 <= i < |rest| ==> rest[i] == held[if i < n then i else i + 1];
  }

  lemma GotIsFaithful(held: seq<Held>, ops: seq<Op>, k: Key, max: nat)
    requires Faithful(held, ops, max)
    ensures Faithful(Got(held, k), ops + [Get(k)], max)
  {
    FindIs(held, k);
    assert (ops + [Get(k)])[..|ops|] == ops;
    match Find(held, k)
    case None =>
    case Some(n) =>
      FrontIsFaithful(held, ops, Get(k), held[n], max);
      GotSameTotal(held, n);
  }

  lemma {:induction false} GotSameTotal(held: seq<Held>, n: nat)
    requires NoRepeats(held) && n < |held|
    ensures Total([held[n]] + Without(held, held[n].key)) == Total(held)
  {
    hide Total, NoRepeats, Without;
    WithoutAt(held, n);
    TotalAppend(held[..n], held[n + 1..]);
    TotalAppend([held[n]], held[..n] + held[n + 1..]);
    TotalAppend([held[n]], held[n + 1..]);
    TotalAppend(held[..n], [held[n]] + held[n + 1..]);
    assert held == held[..n] + ([held[n]] + held[n + 1..]);
  }

  lemma PutIsFaithful(held: seq<Held>, ops: seq<Op>, k: Key, val: Bytes, max: nat)
    requires Faithful(held, ops, max)
    ensures Faithful(PutIn(held, k, val, max), ops + [Put(k, val)], max)
  {
    var op := Put(k, val);
    assert (ops + [op])[..|ops|] == ops;
    if |val| <= max {
      var front := Held(k, val);
      var full := [front] + Without(held, op.k);
      FrontIsFaithful(held, ops, op, front, max);
      FitIsLongest(full, max);
      PrefixIsFaithful(full, Fit(full, max), ops + [op], max);
    }
  }

  lemma {:induction false} PrefixIsFaithful(full: seq<Held>, f: seq<Held>, ops: seq<Op>, max: nat)
    requires |f| <= |full| && f == full[..|f|] && Total(f) <= max && Ordered(full, ops, max)
    ensures Faithful(f, ops, max)
  {
    assert forall i :: 0 <= i < |f| ==> f[i] == full[i];
  }

  /** After any history the cache holds, per key, the last accepted Put, in order of last use, within the bound. */
  lemma {:induction false} RunIsFaithful(ops: seq<Op>, max: nat)
    ensures Faithful(Run(ops, max), ops, max)
  {
    if |ops| > 0 {
      var before, op := ops[..|ops| - 1], ops[|ops| - 1];
      RunIsFaithful(before, max);
      assert ops == before + [op];
      match op
      case Get(k) => GotIsFaithful(Run(before, max), before, k, max);
      case Put(k, val) => PutIsFaithful(Run(before, max), before, k, val, max);
    }
  }

  ghost function Lookup(held: seq<Held>, k: Key): Option<Bytes> {
    match Find(held, k)
    case None => None
    case Some(i) => if i < |held| then Some(held[i].val) else None
  }

  /** A hit returns the value of the last accepted Put of that key, and the bytes held never exceed the bound. */
  lemma HitIsLastPut(ops: seq<Op>, k: Key, max: nat)
    ensures Lookup(Run(ops, max), k).Some? ==> Lookup(Run(ops, max), k) == LastPut(ops, k, max)
    ensures Total(Run(ops, max)) <= max
  {
    RunIsFaithful(ops, max);
    FindIs(Run(ops, max), k);
  }

  /** The value of the last Put of k, refused or not. */
  ghost function LastOffer(ops: seq<Op>, k: Key): Option<Bytes> {
    if |ops| == 0 then None
    else
      var op := ops[|ops| - 1];
      if op.Put? && op.k == k then Some(op.val) else LastOffer(ops[..|ops| - 1], k)
  }

  lemma {:induction false} LastPutIsOffer(ops: seq<Op>, k: Key, max: nat)
    ensures var put, offer := LastPut(ops, k, max), LastOffer(ops, k);
      && (put.Some? ==> offer.Some? && |put.value| <= max)
      && (offer.Some? && |offer.value| <= max ==> put == offer)
  {
    if |ops| > 0 { LastPutIsOffer(ops[..|ops| - 1], k, max); }
  }

  /** Through any history, a hit returns what was last put under its key exactly when that fitted: a refused Put leaves
      the older value to be served. */
  lemma HitIsLastOfferExactlyWhen(ops: seq<Op>, k: Key, max: nat)
    ensures var hit := Lookup(Run(ops, max), k);
      hit.Some? ==> LastOffer(ops, k).Some? && (hit == LastOffer(ops, k) <==> |LastOffer(ops, k).value| <= max)
  {
    hide Run, Lookup;
    HitIsLastPut(ops, k, max);
    LastPutIsOffer(ops, k, max);
  }

  /** It happens: room for one byte, a value of one, then one of two. */
  lemma RefusedPutServesTheOld(k: Key)
    ensures Lookup(Run([Put(k, [7]), Put(k, [8, 9])], 1), k) == Some([7])
  {
    var ops := [Put(k, [7]), Put(k, [8, 9])];
    assert ops[..1] == [Put(k, [7])] && ops[..1][..0] == [];
    assert Run(ops[..1], 1) == PutIn(Run([], 1), k, [7], 1);
    assert Total([Held(k, [7])]) == 1;
    assert Run(ops, 1) == [Held(k, [7])];
  }

  // ---------- the cache ----------

  /** One entry of the list; Put overwrites val and size in place. */
  class Entry {
    const key: Key
    var val: Bytes
    var size: int

    constructor (key: Key, val: Bytes)
      ensures this.key == key && this.val == val && size == |val|
    {
      this.key, this.val, this.size := key, val, |val|;
    }
  }

  ghost function Contents(ll: seq<Entry>): (held: seq<Held>)
    reads ll
    ensures |held| == |ll| && forall i :: 0 <= i < |ll| ==> held[i] == Held(ll[i].key, ll[i].val)
  {
    seq(|ll|, i requires 0 <= i < |ll| reads ll => Held(ll[i].key, ll[i].val))
  }

  /** The index and the list name the same entries, each once. */
  ghost predicate Indexed(ll: seq<Entry>, items: map<Key, Entry>) {
    && (forall i :: 0 <= i < |ll| ==> ll[i].key in items && items[ll[i].key] == ll[i])
    && (forall k :: k in items ==> items[k] in ll && items[k].key == k)
    && (forall i, j :: 0 <= i < j < |ll| ==> ll[i] != ll[j])
  }

  /** Where position i of the list with its n-th element moved to the front came from. */
  ghost function From(n: nat, i: nat): nat {
    if i == 0 then n else if i <= n then i - 1 else i
  }

  lemma MovedFrom(ll: seq<Entry>, moved: seq<Entry>, n: nat)
    requires n < |ll| && moved == [ll[n]] + ll[..n] + ll[n + 1..]
    ensures |moved| == |ll| && forall i :: 0 <= i < |moved| ==> moved[i] == ll[From(n, i)]
    ensures forall e :: e in moved <==> e in ll
  {
    assert ll == ll[..n] + [ll[n]] + ll[n + 1..];
  }

  lemma MovedStaysIndexed(ll: seq<Entry>, items: map<Key, Entry>, n: nat, moved: seq<Entry>)
    requires Indexed(ll, items) && n < |ll| && moved == [ll[n]] + ll[..n] + ll[n + 1..]
    ensures Indexed(moved, items) && forall e :: e in moved <==> e in ll
  {
    MovedFrom(ll, moved, n);
    forall i, j | 0 <= i < j < |moved| ensures moved[i] != moved[j] {
      assert From(n, i) != From(n, j);
    }
  }

  lemma ContentsMoved(ll: seq<Entry>, n: nat)
    requires n < |ll| && NoRepeats(Contents(ll))
    ensures var held := Contents(ll);
      Contents([ll[n]] + ll[..n] + ll[n + 1..]) == [held[n]] + Without(held, held[n].key)
  {
    WithoutAt(Contents(ll), n);
  }

  lemma {:induction false} MovedToFront(ll: seq<Entry>, items: map<Key, Entry>, n: nat)
    requires Indexed(ll, items) && n < |ll|
    ensures var el, moved := ll[n], [ll[n]] + ll[..n] + ll[n + 1..];
      && Indexed(moved, items) && (forall e :: e in moved <==> e in ll)
      && Contents(moved) == [Held(el.key, el.val)] + Without(Contents(ll), el.key)
      && Total(Contents(moved)) == Total(Contents(ll))
  {
    IndexAgrees(ll, items, ll[n].key);
    ContentsMoved(ll, n);
    GotSameTotal(Contents(ll), n);
    MovedStaysIndexed(ll, items, n, [ll[n]] + ll[..n] + ll[n + 1..]);
  }

  lemma IndexAgrees(ll: seq<Entry>, items: map<Key, Entry>, k: Key)
    requires Indexed(ll, items)
    ensures var f := Find(Contents(ll), k);
      && (k in items <==> f.Some?)
      && (f.Some? ==> f.value < |ll| && items[k] == ll[f.value] && Contents(ll)[f.value].key == k)
    ensures NoRepeats(Contents(ll))
  {
    FindIs(Contents(ll), k);
    if k in items {
      var i :| 0 <= i < |ll| && ll[i] == items[k];
      assert Contents(ll)[i].key == k;
    }
  }

  class Cache {
    const maxBytes: nat
    var bytes: int
    var ll: seq<Entry>
    var items: map<Key, Entry>
    var hits: nat
    var misses: nat

    /** List and index agree, every size is its value's length, and bytes is their sum. */
    ghost predicate Linked()
      reads this, ll
    {
      && Indexed(ll, items)
      && (forall e :: e in ll ==> e.size == |e.val|)
      && bytes == Total(Contents(ll))
    }

    ghost predicate Valid()
      reads this, ll
    {
      Linked() && bytes <= maxBytes
    }

    ghost function Order(): seq<Held>
      reads this, ll
    {
      Contents(ll)
    }

    constructor (maxBytes: nat)
      ensures Valid() && this.maxBytes == maxBytes && Order() == [] && hits == misses == 0
    {
      this.maxBytes := maxBytes;
      bytes, ll, items, hits, misses := 0, [], map[], 0, 0;
    }

    /** list.MoveToFront. */
    method MoveToFront(el: Entry)
      requires Linked() && el in ll
      modifies this`ll
      ensures Linked() && Order() == [Held(el.key, el.val)] + Without(old(Order()), el.key)
      ensures forall e :: e in ll <==> e in old(ll)
    {
      hide Indexed, Total, Without, Contents;
      var n :| 0 <= n < |ll| && ll[n] == el;
      MovedToFront(ll, items, n);
      ll := [el] + ll[..n] + ll[n + 1..];
    }

    method Get(req: Key) returns (r: Option<Bytes>)
      requires Valid()
      modifies this
      ensures Valid() && Order() == Got(old(Order()), req)
      ensures r == Lookup(old(Order()), req)
      ensures hits == old(hits) + (if r.Some? then 1 else 0) && misses == old(misses) + (if r.None? then 1 else 0)
    {
      hide Total, Without, Indexed;
      IndexAgrees(ll, items, req);
      if req !in items {
        misses := misses + 1;
        return None;
      }
      var el := items[req];
      MoveToFront(el);
      hits := hits + 1;
      return Some(el.val);
    }

    /** Put refuses a value over the bound; otherwise it overwrites or pushes, then evicts from the back. */
    method Put(req: Key, resp: Bytes)
      requires Valid()
      modifies this, ll
      ensures Valid() && Order() == PutIn(old(Order()), req, resp, maxBytes)
      ensures forall e :: e in ll ==> e in old(ll) || fresh(e)
      ensures hits == old(hits) && misses == old(misses)
    {
      hide Linked, Order, Fit, Without;
      if |resp| > maxBytes {
        return;
      }
      Store(req, resp);
      Evict();
    }

    method Store(req: Key, resp: Bytes)
      requires Valid()
      modifies this, ll
      ensures Linked() && Order() == [Held(req, resp)] + Without(old(Order()), req)
      ensures forall e :: e in ll ==> e in old(ll) || fresh(e)
      ensures hits == old(hits) && misses == old(misses)
    {
      hide Without, Total, Indexed;
      ghost var held := Order();
      IndexAgrees(ll, items, req);
      if req in items {
        var e := items[req];
        ghost var n := Find(held, req).value;
        Overwrite(e, n, resp);
        WithoutReplaced(held, n, resp);
        MoveToFront(e);
      } else {
        FindIs(held, req);
        WithoutAbsent(held, req);
        Push(req, resp);
      }
    }

    /** A stored value is replaced inside its entry, which stands at position n. */
    method Overwrite(e: Entry, ghost n: nat, resp: Bytes)
      requires Linked() && n < |ll| && ll[n] == e
      modifies this`bytes, e
      ensures Linked()
      ensures e.val == resp && Order() == old(Order())[n := Held(e.key, resp)]
    {
      hide Total;
      ghost var held := Contents(ll);
      bytes := bytes + |resp| - e.size;
      e.val, e.size := resp, |resp|;
      TotalUpdate(held, n, Held(e.key, resp));
      assert Contents(ll) == held[n := Held(e.key, resp)];
    }

    /** list.PushFront of a new entry. */
    method Push(req: Key, resp: Bytes)
      requires Linked() && req !in items
      modifies this`bytes, this`ll, this`items
      ensures Linked() && Order() == [Held(req, resp)] + old(Order())
      ensures forall e :: e in ll ==> e in old(ll) || fresh(e)
    {
      hide Indexed, Total;
      var e := new Entry(req, resp);
      PushedIsIndexed(ll, items, e);
      ghost var held := Contents(ll);
      items := items[req := e];
      ll := [e] + ll;
      assert Contents(ll) == [Held(req, resp)] + held;
      TotalFront(Held(req, resp), held);
      bytes := bytes + e.size;
    }

    method Evict()
      requires Linked()
      modifies this`bytes, this`ll, this`items
      ensures Valid() && Order() == Fit(old(Order()), maxBytes)
      ensures ll <= old(ll)
    {
      hide Indexed, Total, Fit;
      while bytes > maxBytes
        invariant Linked() && ll <= old(ll)
        invariant Fit(Order(), maxBytes) == Fit(old(Order()), maxBytes)
        decreases |ll|
      {
        FitStep(Contents(ll), maxBytes);
        if |ll| == 0 {
          break;
        }
        var e := ll[|ll| - 1];
        PoppedIsIndexed(ll, items);
        assert Contents(ll[..|ll| - 1]) == Contents(ll)[..|ll| - 1];
        ll := ll[..|ll| - 1];
        items := items - {e.key};
        bytes := bytes - e.size;
      }
      FitStep(Contents(ll), maxBytes);
    }
  }

  lemma FitStep(held: seq<Held>, max: nat)
    ensures Total(held) <= max ==> Fit(held, max) == held
    ensures Total(held) > max ==>
      && |held| > 0
      && Fit(held, max) == Fit(held[..|held| - 1], max)
      && Total(held[..|held| - 1]) == Total(held) - |held[|held| - 1].val|
  {
    if |held| > 0 { TotalLast(held); }
  }

  lemma {:induction false} WithoutReplaced(held: seq<Held>, n: nat, val: Bytes)
    requires NoRepeats(held) && n < |held|
    ensures var k := held[n].key; Without(held[n := Held(k, val)], k) == Without(held, k)
  {
    WithoutAt(held, n);
    WithoutAt(held[n := Held(held[n].key, val)], n);
  }

  lemma TotalFront(h: Held, held: seq<Held>)
    ensures Total([h] + held) == |h.val| + Total(held)
  {
    assert ([h] + held)[1..] == held;
  }

  lemma TotalUpdate(held: seq<Held>, n: nat, h: Held)
    requires n < |held|
    ensures Total(held[n := h]) == Total(held) - |held[n].val| + |h.val|
  {
    if n > 0 {
      TotalUpdate(held[1..], n - 1, h);
      assert held[n := h][1..] == held[1..][n - 1 := h];
    } else {
      assert held[n := h][1..] == held[1..];
    }
  }

  lemma TotalLast(held: seq<Held>)
    requires |held| > 0
    ensures Total(held) == Total(held[..|held| - 1]) + |held[|held| - 1].val|
  {
    var last := [held[|held| - 1]];
    TotalAppend(held[..|held| - 1], last);
    assert held == held[..|held| - 1] + last && last[1..] == [];
  }

  lemma PushedIsIndexed(ll: seq<Entry>, items: map<Key, Entry>, e: Entry)
    requires Indexed(ll, items) && e.key !in items
    ensures Indexed([e] + ll, items[e.key := e])
  {
  }

  lemma PoppedIsIndexed(ll: seq<Entry>, items: map<Key, Entry>)
    requires Indexed(ll, items) && |ll| > 0
    ensures Indexed(ll[..|ll| - 1], items - {ll[|ll| - 1].key})
  {
    var last := ll[|ll| - 1];
    forall k | k in items && k != last.key ensures items[k] in ll[..|ll| - 1] {
      assert items[k] != last;
    }
  }
}
