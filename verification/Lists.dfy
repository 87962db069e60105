/** List comprehensions with a condition, and the positions they keep. */
module Lists {

  /** `[x for x in xs if p(x)]` */
  function Filter<T>(xs: seq<T>, p: T -> bool): (r: seq<T>)
    ensures |r| <= |xs|
    ensures forall k :: 0 <= k < |r| ==> p(r[k])
  {
    if xs == [] then []
    else
      var last := xs[|xs| - 1];
      Filter(xs[..|xs| - 1], p) + (if p(last) then [last] else [])
  }

  /** The positions whose items pass the filter, in increasing order. */
  function Where<T>(xs: seq<T>, p: T -> bool): (r: seq<nat>)
    ensures |r| == |Filter(xs, p)|
    ensures forall k :: 0 <= k < |r| ==> r[k] < |xs| && p(xs[r[k]]) && Filter(xs, p)[k] == xs[r[k]]
    ensures forall j, k :: 0 <= j < k < |r| ==> r[j] < r[k]
  {
    if xs == [] then []
    else
      Where(xs[..|xs| - 1], p) + (if p(xs[|xs| - 1]) then [|xs| - 1] else [])
  }

  lemma {:induction false} WhereComplete<T>(xs: seq<T>, p: T -> bool, i: nat) returns (k: nat)
    requires i < |xs| && p(xs[i])
    ensures k < |Where(xs, p)| && Where(xs, p)[k] == i
    decreases |xs|
  {
    if i == |xs| - 1 {
      k := |Where(xs, p)| - 1;
    } else {
      k := WhereComplete(xs[..|xs| - 1], p, i);
    }
  }

  lemma {:induction false} FilterConcat<T>(a: seq<T>, b: seq<T>, p: T -> bool)
    ensures Filter(a + b, p) == Filter(a, p) + Filter(b, p)
    decreases |b|
  {
    if b == [] {
      assert a + b == a;
    } else {
      FilterConcat(a, b[..|b| - 1], p);
      assert (a + b)[..|a + b| - 1] == a + b[..|b| - 1];
    }
  }

  lemma FilterOne<T>(x: T, p: T -> bool)
    ensures Filter([x], p) == if p(x) then [x] else []
  {
    assert [x][..0] == [];
  }

  lemma {:induction false} FilterAll<T>(xs: seq<T>, p: T -> bool)
    requires forall k :: 0 <= k < |xs| ==> p(xs[k])
    ensures Filter(xs, p) == xs
    decreases |xs|
  {
    if xs != [] {
      FilterAll(xs[..|xs| - 1], p);
    }
  }

  lemma {:induction false} FilterNone<T>(xs: seq<T>, p: T -> bool)
    requires forall k :: 0 <= k < |xs| ==> !p(xs[k])
    ensures Filter(xs, p) == []
    decreases |xs|
  {
    if xs != [] {
      FilterNone(xs[..|xs| - 1], p);
    }
  }

  /** Filtering by a weaker condition first changes nothing. */
  lemma {:induction false} FilterTwice<T>(xs: seq<T>, weak: T -> bool, strong: T -> bool)
    requires forall k :: 0 <= k < |xs| && strong(xs[k]) ==> weak(xs[k])
    ensures Filter(Filter(xs, weak), strong) == Filter(xs, strong)
    decreases |xs|
  {
    if xs != [] {
      var n := |xs| - 1;
      FilterTwice(xs[..n], weak, strong);
      if weak(xs[n]) {
        FilterConcat(Filter(xs[..n], weak), [xs[n]], strong);
        FilterOne(xs[n], strong);
      } else {
        assert Filter(xs, weak) == Filter(xs[..n], weak);
      }
    }
  }

  /** Two conditions that agree on the items select the same items. */
  lemma {:induction false} FilterSame<T>(xs: seq<T>, p: T -> bool, q: T -> bool)
    requires forall k :: 0 <= k < |xs| ==> p(xs[k]) == q(xs[k])
    ensures Filter(xs, p) == Filter(xs, q)
    decreases |xs|
  {
    if xs != [] {
      FilterSame(xs[..|xs| - 1], p, q);
    }
  }

  lemma FilterCommutes<T>(xs: seq<T>, p: T -> bool, q: T -> bool)
    ensures Filter(Filter(xs, p), q) == Filter(Filter(xs, q), p)
  {
    var both := x => p(x) && q(x);
    FilterTwice(xs, p, both);
    FilterTwice(xs, q, both);
    FilterSame(Filter(xs, p), q, both);
    FilterSame(Filter(xs, q), p, both);
  }
}
