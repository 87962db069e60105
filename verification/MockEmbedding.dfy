/** The hashing bag-of-words embedder (app/ai/embeddings/mock.py) over exact reals.
    The digest of a token is known only by the slot and the sign taken from it. */
module MockEmbedding {
  import opened Comprehensions = Lists
  import opened Reals
  import opened Text
  import opened Vectors

  datatype Hashing = Hashing(slot: string -> nat, positive: string -> bool)

  /** An exact `math.sqrt`. */
  ghost predicate ExactRoot(sqrt: real -> real) {
    forall x :: x >= 0.0 ==> sqrt(x) >= 0.0 && sqrt(x) * sqrt(x) == x
  }

  /** What one token adds to coordinate `i`. */
  function Contribution(h: Hashing, token: string, dimension: nat, i: nat): real
    requires dimension > 0
  {
    if h.slot(token) % dimension != i then 0.0 else if h.positive(token) then 1.0 else -1.0
  }

  function Coordinate(h: Hashing, tokens: seq<string>, dimension: nat, i: nat): real
    requires dimension > 0
  {
    if tokens == [] then 0.0
    else
      Coordinate(h, tokens[..|tokens| - 1], dimension, i) + Contribution(h, tokens[|tokens| - 1], dimension, i)
  }

  function Raw(h: Hashing, tokens: seq<string>, dimension: nat): (v: Vector)
    requires dimension > 0
    ensures |v| == dimension && forall i :: 0 <= i < dimension ==> v[i] == Coordinate(h, tokens, dimension, i)
  {
    seq(dimension, i requires 0 <= i < dimension => Coordinate(h, tokens, dimension, i))
  }

  function Scaled(v: Vector, norm: real): (r: Vector)
    requires norm != 0.0
    ensures |r| == |v| && forall i :: 0 <= i < |v| ==> r[i] == v[i] / norm
  {
    seq(|v|, i requires 0 <= i < |v| => v[i] / norm)
  }

  function Normalised(v: Vector, sqrt: real -> real): Vector {
    if sqrt(Norm2(v)) == 0.0 then v else Scaled(v, sqrt(Norm2(v)))
  }

  function Embedding(h: Hashing, text: string, dimension: nat, sqrt: real -> real): Vector
    requires dimension > 0
  {
    Normalised(Raw(h, Tokens(text), dimension), sqrt)
  }

  method EmbedOne(h: Hashing, text: string, dimension: nat, sqrt: real -> real) returns (v: Vector)
    requires dimension > 0
    ensures v == Embedding(h, text, dimension, sqrt)
  {
    hide Tokens;
    var vector := new real[dimension](_ => 0.0);
    var tokens := Tokens(text);
    for k := 0 to |tokens|
      invariant forall i :: 0 <= i < dimension ==> vector[i] == Coordinate(h, tokens[..k], dimension, i)
    {
      assert tokens[..k + 1][..k] == tokens[..k];
      var index := h.slot(tokens[k]) % dimension;
      var sign := if h.positive(tokens[k]) then 1.0 else -1.0;
      vector[index] := vector[index] + sign;
    }
    assert tokens[..|tokens|] == tokens;
    assert vector[..] == Raw(h, tokens, dimension);
    var norm := sqrt(Norm2(vector[..]));
    if norm == 0.0 {
      return vector[..];
    }
    return Scaled(vector[..], norm);
  }

  // ----- Only the bag of tokens matters -----

  lemma {:induction false} CoordinateConcat(h: Hashing, a: seq<string>, b: seq<string>, dimension: nat, i: nat)
    requires dimension > 0
    ensures Coordinate(h, a + b, dimension, i) == Coordinate(h, a, dimension, i) + Coordinate(h, b, dimension, i)
    decreases |b|
  {
    if b == [] {
      assert a + b == a;
    } else {
      CoordinateConcat(h, a, b[..|b| - 1], dimension, i);
      assert (a + b)[..|a + b| - 1] == a + b[..|b| - 1];
    }
  }

  lemma CoordinateWithout(h: Hashing, tokens: seq<string>, k: nat, dimension: nat, i: nat)
    requires dimension > 0 && k < |tokens|
    ensures Coordinate(h, tokens, dimension, i)
         == Coordinate(h, tokens[..k] + tokens[k + 1..], dimension, i) + Contribution(h, tokens[k], dimension, i)
  {
    var front, back := tokens[..k], tokens[k + 1..];
    assert tokens == tokens[..k + 1] + back && tokens[..k + 1][..k] == front;
    CoordinateConcat(h, tokens[..k + 1], back, dimension, i);
    CoordinateConcat(h, front, back, dimension, i);
  }

  lemma WithoutOne(b: seq<string>, k: nat)
    requires k < |b|
    ensures multiset(b[..k] + b[k + 1..]) == multiset(b) - multiset{b[k]}
  {
    assert b == b[..k] + [b[k]] + b[k + 1..];
  }

  /** A bag equal to one that ends in `token` has it somewhere, and the rests are equal. */
  lemma SameBag(front: seq<string>, token: string, b: seq<string>) returns (k: nat)
    requires multiset(front + [token]) == multiset(b)
    ensures k < |b| && b[k] == token && multiset(b[..k] + b[k + 1..]) == multiset(front)
  {
    assert multiset(front + [token]) == multiset(front) + multiset{token};
    assert token in multiset(b);
    k :| 0 <= k < |b| && b[k] == token;
    WithoutOne(b, k);
    assert multiset(front) == multiset(front + [token]) - multiset{token};
  }

  lemma {:induction false} CoordinateOfBag(h: Hashing, a: seq<string>, b: seq<string>, dimension: nat, i: nat)
    requires dimension > 0 && multiset(a) == multiset(b)
    ensures Coordinate(h, a, dimension, i) == Coordinate(h, b, dimension, i)
    decreases |a|
  {
    hide Contribution;
    if a == [] {
      assert |b| == |multiset(b)| == |multiset(a)|;
    } else {
      var n := |a| - 1;
      assert a == a[..n] + [a[n]];
      var k := SameBag(a[..n], a[n], b);
      CoordinateOfBag(h, a[..n], b[..k] + b[k + 1..], dimension, i);
      CoordinateWithout(h, b, k, dimension, i);
    }
  }

  /** Texts with the same tokens in any order get the same vector. */
  lemma RewordingsEmbedAlike(h: Hashing, a: string, b: string, dimension: nat, sqrt: real -> real)
    requires dimension > 0 && multiset(Tokens(a)) == multiset(Tokens(b))
    ensures Embedding(h, a, dimension, sqrt) == Embedding(h, b, dimension, sqrt)
  {
    hide Tokens;
    forall i | 0 <= i < dimension
      ensures Raw(h, Tokens(a), dimension)[i] == Raw(h, Tokens(b), dimension)[i]
    {
      CoordinateOfBag(h, Tokens(a), Tokens(b), dimension, i);
    }
    assert Raw(h, Tokens(a), dimension) == Raw(h, Tokens(b), dimension);
  }

  // ----- What a coordinate is -----

  function Lands(h: Hashing, dimension: nat, i: nat, positive: bool): string -> bool
    requires dimension > 0
  {
    (token: string) => h.slot(token) % dimension == i && h.positive(token) == positive
  }

  /** A coordinate of the raw vector is the number of positive minus the number of
      negative tokens whose slot it is. */
  lemma {:induction false} CoordinateCounts(h: Hashing, tokens: seq<string>, dimension: nat, i: nat)
    requires dimension > 0
    ensures Coordinate(h, tokens, dimension, i)
         == (|Filter(tokens, Lands(h, dimension, i, true))| - |Filter(tokens, Lands(h, dimension, i, false))|) as real
    decreases |tokens|
  {
    if tokens != [] {
      CoordinateCounts(h, tokens[..|tokens| - 1], dimension, i);
    }
  }

  /** So every embedding is made of these counts, divided by a common length. */
  lemma {:induction false} EmbeddingCounts(h: Hashing, text: string, dimension: nat, sqrt: real -> real, i: nat)
    requires dimension > 0 && i < dimension
    ensures var v, norm := Embedding(h, text, dimension, sqrt), sqrt(Norm2(Raw(h, Tokens(text), dimension)));
      var count := |Filter(Tokens(text), Lands(h, dimension, i, true))|
                   - |Filter(Tokens(text), Lands(h, dimension, i, false))|;
      |v| == dimension && v[i] == if norm == 0.0 then count as real else count as real / norm
  {
    hide Tokens, Norm2, Coordinate;
    CoordinateCounts(h, Tokens(text), dimension, i);
  }

  // ----- Unit length -----

  lemma ScaleStep(q: real, norm: real, x: real, rest: real, tail: real, sum: real, m: real)
    requires norm > 0.0 && q == x / norm && norm * norm == m && Product(rest, m) == tail && sum == q * q + rest
    ensures Product(sum, m) == x * x + tail
  {
    assert q * norm == x;
    assert (q * q) * (norm * norm) == (q * norm) * (q * norm);
    assert (q * q + rest) * m == (q * q) * m + rest * m;
  }

  lemma {:induction false} ScaledNorm(v: Vector, norm: real, m: real)
    requires norm > 0.0 && norm * norm == m
    ensures Product(Norm2(Scaled(v, norm)), m) == Norm2(v)
    decreases |v|
  {
    var scaled := Scaled(v, norm);
    if v == [] {
      assert scaled == [];
    } else {
      ScaledNorm(v[1..], norm, m);
      assert scaled[1..] == Scaled(v[1..], norm);
      ScaleStep(scaled[0], norm, v[0], Norm2(scaled[1..]), Norm2(v[1..]), Norm2(scaled), m);
    }
  }

  /** Every embedding has squared norm 1, or is the zero vector. */
  lemma UnitOrZero(h: Hashing, text: string, dimension: nat, sqrt: real -> real)
    requires dimension > 0 && ExactRoot(sqrt)
    ensures var v := Embedding(h, text, dimension, sqrt);
      |v| == dimension && (Norm2(v) == 1.0 || forall i :: 0 <= i < |v| ==> v[i] == 0.0)
  {
    hide Tokens;
    var raw := Raw(h, Tokens(text), dimension);
    var norm := sqrt(Norm2(raw));
    assert norm * norm == Norm2(raw);
    if norm == 0.0 {
      ZeroNorm(raw);
    } else {
      assert Product(norm, norm) == norm * norm;
      ProductSign(norm, norm);
      ScaledNorm(raw, norm, Norm2(raw));
      FactorIsOne(Norm2(Scaled(raw, norm)), Norm2(raw));
    }
  }

  lemma FactorIsOne(n: real, m: real)
    requires m > 0.0 && Product(n, m) == m
    ensures n == 1.0
  {
    assert 1.0 * m == m;
    if n < 1.0 { ProductsOrdered(n, 1.0, m); }
    if n > 1.0 { ProductsOrdered(1.0, n, m); }
  }

  lemma {:induction false} ZeroNorm(v: Vector)
    requires Norm2(v) == 0.0
    ensures forall i :: 0 <= i < |v| ==> v[i] == 0.0
    decreases |v|
  {
    if v != [] {
      var x := v[0];
      assert x * x >= 0.0;
      SquareZero(x);
      ZeroNorm(v[1..]);
    }
  }
}
