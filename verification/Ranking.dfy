/** Python's `sorted(..., reverse=True)`: largest key first, and items with equal
    keys stay in their original order. A sort is described by the order in which
    it visits the positions of its input. */
module Ranking {

  /** A sort key: compared on `major` first, then on `minor`. */
  datatype Key = Key(major: int, minor: real)

  predicate Above(a: Key, b: Key) {
    a.major > b.major || (a.major == b.major && a.minor > b.minor)
  }

  /** The strict total order of positions: greater key first, then earlier position. */
  predicate Precedes(keys: seq<Key>, i: int, j: int) {
    && 0 <= i < |keys| && 0 <= j < |keys|
    && (Above(keys[i], keys[j]) || (keys[i] == keys[j] && i < j))
  }

  /** `order` lists every position once, in the order of `Precedes`. */
  predicate IsOrder(keys: seq<Key>, order: seq<nat>) {
    && |order| == |keys|
    && (forall i: nat :: i < |keys| ==> i in order)
    && (forall p, q :: 0 <= p < q < |order| ==> Precedes(keys, order[p], order[q]))
    && (forall p :: 0 <= p < |order| ==> order[p] < |keys|)
  }

  function Insert(keys: seq<Key>, order: seq<nat>, x: nat): (r: seq<nat>)
    requires x < |keys| && forall p :: 0 <= p < |order| ==> order[p] < |keys|
    ensures forall p :: 0 <= p < |r| ==> r[p] < |keys|
  {
    if order == [] then [x]
    else if Above(keys[x], keys[order[0]]) then [x] + order
    else [order[0]] + Insert(keys, order[1..], x)
  }

  /** The stable descending order of the positions of `keys`. */
  function Order(keys: seq<Key>): (r: seq<nat>)
    ensures forall p :: 0 <= p < |r| ==> r[p] < |keys|
    ensures |r| == |keys|
  {
    if keys == [] then []
    else
      var before := Order(keys[..|keys| - 1]);
      InsertLength(keys, before, |keys| - 1);
      Insert(keys, before, |keys| - 1)
  }

  lemma {:induction false} InsertLength(keys: seq<Key>, order: seq<nat>, x: nat)
    requires x < |keys| && forall p :: 0 <= p < |order| ==> order[p] < |keys|
    ensures |Insert(keys, order, x)| == |order| + 1
    ensures x in Insert(keys, order, x)
    ensures forall i :: i in order ==> i in Insert(keys, order, x)
    ensures forall i :: i in Insert(keys, order, x) ==> i in order || i == x
    decreases |order|
  {
    if order != [] && !Above(keys[x], keys[order[0]]) {
      InsertLength(keys, order[1..], x);
      assert order == [order[0]] + order[1..];
    }
  }

  predicate Sorted(keys: seq<Key>, order: seq<nat>) {
    forall p, q :: 0 <= p < q < |order| ==> Precedes(keys, order[p], order[q])
  }

  lemma {:induction false} InsertSorts(keys: seq<Key>, order: seq<nat>, x: nat)
    requires x < |keys| && (forall p :: 0 <= p < |order| ==> order[p] < x)
    requires Sorted(keys, order)
    ensures Sorted(keys, Insert(keys, order, x))
    decreases |order|
  {
    if order != [] && !Above(keys[x], keys[order[0]]) {
      var rest := Insert(keys, order[1..], x);
      InsertSorts(keys, order[1..], x);
      InsertLength(keys, order[1..], x);
      forall q | 0 <= q < |rest| ensures Precedes(keys, order[0], rest[q]) {
        assert rest[q] in rest;
        if rest[q] != x {
          var k :| 0 <= k < |order[1..]| && order[1..][k] == rest[q];
          assert order[k + 1] == rest[q];
        }
      }
    }
  }

  lemma OrderStep(keys: seq<Key>)
    requires keys != []
    ensures var before := Order(keys[..|keys| - 1]);
      Order(keys) == Insert(keys, before, |keys| - 1)
  {
  }

  /** The insertion sort yields the stable descending order ... */
  lemma {:induction false} OrderSorts(keys: seq<Key>)
    ensures IsOrder(keys, Order(keys))
    decreases |keys|
  {
    if keys != [] {
      var n := |keys| - 1;
      var before := Order(keys[..n]);
      OrderSorts(keys[..n]);
      OrderStep(keys);
      StaySorted(keys, n, before);
      hide Order, Precedes, Insert, Sorted;
      InsertSorts(keys, before, n);
      InsertLength(keys, before, n);
      MeansSorted(keys, Order(keys));
    }
  }

  lemma StaySorted(keys: seq<Key>, n: nat, order: seq<nat>)
    requires n <= |keys| && IsOrder(keys[..n], order)
    ensures Sorted(keys, order)
  {
    forall p, q | 0 <= p < q < |order| ensures Precedes(keys, order[p], order[q]) {
      assert Precedes(keys[..n], order[p], order[q]);
    }
  }

  lemma MeansSorted(keys: seq<Key>, order: seq<nat>)
    requires Sorted(keys, order)
    ensures forall p, q :: 0 <= p < q < |order| ==> Precedes(keys, order[p], order[q])
  {
  }

  /** ... and there is only one such order. */
  lemma OrderUnique(keys: seq<Key>, order: seq<nat>)
    requires IsOrder(keys, order)
    ensures order == Order(keys)
  {
    OrderSorts(keys);
    forall p | 0 <= p < |keys| ensures order[p] == Order(keys)[p] {
      SameAt(keys, order, Order(keys), p);
    }
  }

  lemma {:induction false} SameAt(keys: seq<Key>, a: seq<nat>, b: seq<nat>, p: nat)
    requires IsOrder(keys, a) && IsOrder(keys, b) && p < |keys|
    ensures a[p] == b[p]
    decreases p
  {
    forall q | 0 <= q < p ensures a[q] == b[q] { SameAt(keys, a, b, q); }
    assert a[p] in b && b[p] in a;
    var i :| 0 <= i < |b| && b[i] == a[p];
    var j :| 0 <= j < |a| && a[j] == b[p];
  }

  // ----- Sorting sequences -----

  function Permute<T>(xs: seq<T>, order: seq<nat>): (r: seq<T>)
    requires forall p :: 0 <= p < |order| ==> order[p] < |xs|
    ensures |r| == |order| && forall p :: 0 <= p < |r| ==> r[p] == xs[order[p]]
  {
    seq(|order|, p requires 0 <= p < |order| => xs[order[p]])
  }

  /** `sorted(xs, key=..., reverse=True)` where `keys[i]` is the key of `xs[i]`. */
  function SortDesc<T>(xs: seq<T>, keys: seq<Key>): (r: seq<T>)
    requires |keys| == |xs|
    ensures |r| == |xs|
  {
    Permute(xs, Order(keys))
  }

  /** `xs[:k]` for a non-negative `k`. */
  function Take<T>(xs: seq<T>, k: nat): (r: seq<T>)
    ensures |r| == (if |xs| < k then |xs| else k) && r == xs[..|r|]
  {
    if |xs| < k then xs else xs[..k]
  }

  /** `at` lists best positions first, and nothing it leaves out beats any of them. */
  predicate IsTop(keys: seq<Key>, at: seq<nat>) {
    && (forall p :: 0 <= p < |at| ==> at[p] < |keys|)
    && (forall p, q :: 0 <= p < q < |at| ==> Precedes(keys, at[p], at[q]))
    && (forall p, i: nat :: 0 <= p < |at| && i < |keys| && i !in at ==> Precedes(keys, at[p], i))
  }

  /** The first `n` positions of the order are such a list ... */
  lemma TopOfOrder(keys: seq<Key>, n: nat)
    ensures IsTop(keys, Take(Order(keys), n))
  {
    OrderSorts(keys);
    var order, at := Order(keys), Take(Order(keys), n);
    forall p, i: nat | 0 <= p < |at| && i < |keys| && i !in at ensures Precedes(keys, at[p], i) {
      assert i in order;
      var q :| 0 <= q < |order| && order[q] == i;
      assert forall r :: 0 <= r < |at| ==> order[r] == at[r] != i;
      assert Precedes(keys, order[p], order[q]);
    }
  }

  /** ... and the only one of their number. */
  lemma {:induction false} TopUnique(keys: seq<Key>, at: seq<nat>)
    requires IsTop(keys, at) && |at| <= |keys|
    ensures at == Take(Order(keys), |at|)
  {
    OrderSorts(keys);
    forall p | 0 <= p < |at| ensures at[p] == Order(keys)[p] { SameTop(keys, at, Order(keys), p); }
  }

  lemma {:induction false} SameTop(keys: seq<Key>, at: seq<nat>, order: seq<nat>, p: nat)
    requires IsTop(keys, at) && IsOrder(keys, order) && p < |at| && p < |order|
    ensures at[p] == order[p]
    decreases p
  {
    forall q | 0 <= q < p ensures at[q] == order[q] { SameTop(keys, at, order, q); }
    assert at[p] in order;
    var i :| 0 <= i < |order| && order[i] == at[p];
    if order[p] in at {
      var j :| 0 <= j < |at| && at[j] == order[p];
    }
  }

  function Combined(major: seq<int>, minor: seq<real>): (keys: seq<Key>)
    requires |major| == |minor|
    ensures |keys| == |major| && forall i :: 0 <= i < |keys| ==> keys[i] == Key(major[i], minor[i])
  {
    seq(|major|, i requires 0 <= i < |major| => Key(major[i], minor[i]))
  }

  function MinorOnly(minor: seq<real>): (keys: seq<Key>)
    ensures |keys| == |minor| && forall i :: 0 <= i < |keys| ==> keys[i] == Key(0, minor[i])
  {
    seq(|minor|, i requires 0 <= i < |minor| => Key(0, minor[i]))
  }

  lemma PermuteCovers(first: seq<nat>, second: seq<nat>, n: nat)
    requires |first| == |second| == n && forall p :: 0 <= p < n ==> second[p] < n
    requires (forall i: nat :: i < n ==> i in first) && (forall i: nat :: i < n ==> i in second)
    ensures forall i: nat :: i < n ==> i in Permute(first, second)
  {
    forall i: nat | i < n ensures i in Permute(first, second) {
      assert i in first;
      var p: nat :| p < n && first[p] == i;
      assert p in second;
      var q :| 0 <= q < n && second[q] == p;
      assert Permute(first, second)[q] == i;
    }
  }

  /** A stable sort by `minor` followed by a stable sort by `(major, minor)` is
      one sort by (major, minor, original position). */
  lemma {:induction false} TwoSortsAreOne(major: seq<int>, minor: seq<real>)
    requires |major| == |minor|
    ensures var first := Order(MinorOnly(minor));
      var second := Order(Combined(Permute(major, first), Permute(minor, first)));
      Permute(first, second) == Order(Combined(major, minor))
  {
    var once, keys := MinorOnly(minor), Combined(major, minor);
    var first := Order(once);
    var again := Combined(Permute(major, first), Permute(minor, first));
    var second := Order(again);
    OrderSorts(once);
    OrderSorts(again);
    PermuteCovers(first, second, |keys|);
    var both := Permute(first, second);
    forall p, q | 0 <= p < q < |both| ensures Precedes(keys, both[p], both[q]) {
      assert Precedes(again, second[p], second[q]);
      if second[p] < second[q] {
        assert Precedes(once, first[second[p]], first[second[q]]);
      }
    }
    OrderUnique(keys, both);
  }
}
