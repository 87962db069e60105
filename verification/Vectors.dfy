/** Cosine similarity over exact reals. `_cosine` divides by square roots; the
    model compares signed squares of cosines instead, which keeps every
    comparison because the signed square is strictly increasing. */
module Vectors {
  import opened Reals

  type Vector = seq<real>

  /** `sum(x * y for x, y in zip(a, b, strict=False))`: zip stops at the shorter one. */
  function Dot(a: Vector, b: Vector): real {
    if a == [] || b == [] then 0.0 else a[0] * b[0] + Dot(a[1..], b[1..])
  }

  /** `sum(x * x for x in a)`: the squared norm, over the whole vector. */
  function Norm2(a: Vector): (n: real)
    ensures n >= 0.0
  {
    if a == [] then 0.0 else a[0] * a[0] + Norm2(a[1..])
  }

  function Abs(x: real): real { if x < 0.0 then -x else x }

  function SignedSquare(x: real): real { x * Abs(x) }

  function Ratio(d: real, x: real, y: real): real
    requires x > 0.0 && y > 0.0
  {
    d / (x * y)
  }

  /** What `_cosine` computes from a dot product and the two norms. */
  function Cosine(d: real, na: real, nb: real): real
    requires na >= 0.0 && nb >= 0.0
  {
    if na == 0.0 || nb == 0.0 then 0.0 else Ratio(d, na, nb)
  }

  /** The signed square of `_cosine(a, b)`. */
  function Score(a: Vector, b: Vector): real {
    if Norm2(a) == 0.0 || Norm2(b) == 0.0 then 0.0 else Ratio(SignedSquare(Dot(a, b)), Norm2(a), Norm2(b))
  }

  lemma SignedSquareMonotone(x: real, y: real)
    ensures x < y <==> SignedSquare(x) < SignedSquare(y)
  {
    if 0.0 <= x && 0.0 <= y {
      SquareMonotone(x, y);
    } else if x < 0.0 && y < 0.0 {
      SquareMonotone(-y, -x);
    } else if x < 0.0 {
      assert x * (-x) < 0.0 && y * y >= 0.0;
    } else {
      assert y * (-y) < 0.0 && x * x >= 0.0;
    }
  }

  /** Whatever exact roots `na`, `nb` of the squared norms are used, `Score` is
      the signed square of the cosine the code computes from them. */
  lemma ScoreIsSignedCosine(a: Vector, b: Vector, na: real, nb: real)
    requires na >= 0.0 && nb >= 0.0 && na * na == Norm2(a) && nb * nb == Norm2(b)
    ensures Score(a, b) == SignedSquare(Cosine(Dot(a, b), na, nb))
  {
    hide SignedSquare, Dot, Norm2, Ratio;
    if na == 0.0 || nb == 0.0 {
      assert Norm2(a) == 0.0 || Norm2(b) == 0.0;
      NoSquare();
    } else {
      CosineSquared(Dot(a, b), Norm2(a), Norm2(b), na, nb);
    }
  }

  lemma NoSquare()
    ensures SignedSquare(0.0) == 0.0
  {
  }

  lemma CosineSquared(d: real, x: real, y: real, na: real, nb: real)
    requires na > 0.0 && nb > 0.0 && x == na * na && y == nb * nb
    ensures x > 0.0 && y > 0.0
    ensures Ratio(SignedSquare(d), x, y) == SignedSquare(Ratio(d, na, nb))
  {
    assert Product(na, nb) == na * nb && Product(na, na) == na * na && Product(nb, nb) == nb * nb;
    ProductSign(na, nb);
    ProductSign(na, na);
    ProductSign(nb, nb);
    var n := na * nb;
    SquareOfProduct(na, nb, x, y);
    assert Product(n, n) == n * n == x * y;
    ProductSign(n, n);
    QuotientSigned(d, n);
  }

  lemma QuotientSigned(d: real, n: real)
    requires n > 0.0
    ensures SignedSquare(d / n) == SignedSquare(d) / (n * n)
  {
    assert Product(n, n) == n * n;
    ProductSign(n, n);
    SignedSquareScales(d, d / n, n);
    DivideBack(SignedSquare(d), SignedSquare(d / n), n * n);
  }

  lemma SignedSquareScales(d: real, q: real, n: real)
    requires n > 0.0 && d == q * n
    ensures SignedSquare(d) == SignedSquare(q) * (n * n)
  {
    var abs := Abs(q);
    assert Product(abs, n) == abs * n;
    ProductSign(abs, n);
    if q < 0.0 {
      assert abs * n == -d;
    }
    assert Abs(d) == abs * n;
    assert SignedSquare(d) == (q * n) * (abs * n) == (q * abs) * (n * n);
  }

  // ----- Cauchy-Schwarz -----

  lemma CauchyStep(d: real, a: real, b: real, x: real, y: real)
    requires a >= 0.0 && b >= 0.0 && d * d <= a * b
    ensures (d + x * y) * (d + x * y) <= (a + x * x) * (b + y * y)
  {
    var gap := a * (y * y) + b * (x * x) - 2.0 * d * (x * y);
    assert (a + x * x) * (b + y * y) == a * b + a * (y * y) + b * (x * x) + (x * x) * (y * y);
    assert (d + x * y) * (d + x * y) == d * d + 2.0 * d * (x * y) + (x * y) * (x * y);
    assert (x * x) * (y * y) == (x * y) * (x * y);
    GapNonNegative(d, a, b, x, y);
  }

  lemma GapNonNegative(d: real, a: real, b: real, x: real, y: real)
    requires a >= 0.0 && b >= 0.0 && d * d <= a * b
    ensures a * (y * y) + b * (x * x) - 2.0 * d * (x * y) >= 0.0
  {
    if a == 0.0 {
      SquareZero(d);
      assert Product(b, x * x) == b * (x * x);
      ProductSign(b, x * x);
      assert a * (y * y) == 0.0;
      assert 2.0 * d * (x * y) == 0.0;
    } else {
      var gap, slack, s := a * (y * y) + b * (x * x) - 2.0 * d * (x * y), a * b - d * d, a * y - d * x;
      assert a * gap == s * s + slack * (x * x);
      assert Product(slack, x * x) == slack * (x * x);
      ProductSign(slack, x * x);
      CancelSign(a, gap);
    }
  }

  /** The truncated dot product is still bounded by the full norms. */
  lemma {:induction false} CauchySchwarz(a: Vector, b: Vector)
    ensures Dot(a, b) * Dot(a, b) <= Norm2(a) * Norm2(b)
    decreases |a|
  {
    if a == [] || b == [] {
      assert Norm2(a) * Norm2(b) >= 0.0;
    } else {
      CauchySchwarz(a[1..], b[1..]);
      CauchyStep(Dot(a[1..], b[1..]), Norm2(a[1..]), Norm2(b[1..]), a[0], b[0]);
    }
  }

  lemma {:induction false} DotSelf(a: Vector)
    ensures Dot(a, a) == Norm2(a)
  {
    if a != [] {
      DotSelf(a[1..]);
    }
  }

  lemma SignedAtMostSquare(d: real)
    ensures SignedSquare(d) <= d * d
  {
    if d < 0.0 { assert d * -d <= 0.0 <= d * d; }
  }

  lemma RatioAtMostOne(d: real, x: real, y: real)
    requires x > 0.0 && y > 0.0 && d <= x * y
    ensures Ratio(d, x, y) <= 1.0
  {
    assert Product(x, y) == x * y;
    ProductSign(x, y);
    QuotientAtMostOne(d, x * y);
  }

  /** No score exceeds 1, ... */
  lemma ScoreAtMostOne(a: Vector, b: Vector)
    ensures Score(a, b) <= 1.0
  {
    hide SignedSquare, Ratio, Dot, Norm2;
    if Norm2(a) != 0.0 && Norm2(b) != 0.0 {
      CauchySchwarz(a, b);
      SignedAtMostSquare(Dot(a, b));
      RatioAtMostOne(SignedSquare(Dot(a, b)), Norm2(a), Norm2(b));
    }
  }

  lemma QuotientAtMostOne(x: real, n: real)
    requires n > 0.0 && x <= n
    ensures x / n <= 1.0
  {
    var q := x / n;
    assert q * n == x;
    var over := q - 1.0;
    assert over * n == x - n;
    assert Product(over, n) == over * n;
    if over > 0.0 { ProductSign(over, n); }
  }

  /** ... a nonzero vector reaches 1 with itself, and the zero vector always scores 0. */
  lemma ScoreSelf(a: Vector, b: Vector)
    ensures Norm2(a) != 0.0 ==> Score(a, a) == 1.0
    ensures Norm2(a) == 0.0 ==> Score(a, b) == 0.0
  {
    if Norm2(a) != 0.0 {
      DotSelf(a);
      var n := Norm2(a);
      assert SignedSquare(n) == 1.0 * (n * n);
      assert Product(n, n) == n * n;
      ProductSign(n, n);
      DivideBack(n * n, 1.0, n * n);
    }
  }

  // ----- What the dot product is -----

  function Sum(a: Vector, b: Vector): (r: Vector)
    requires |a| == |b|
    ensures |r| == |a| && forall i :: 0 <= i < |a| ==> r[i] == a[i] + b[i]
  {
    seq(|a|, i requires 0 <= i < |a| => a[i] + b[i])
  }

  /** `a` with every coordinate multiplied by `k`. */
  function Times(k: real, a: Vector): (r: Vector)
    ensures |r| == |a| && forall i :: 0 <= i < |a| ==> r[i] == Product(k, a[i])
  {
    seq(|a|, i requires 0 <= i < |a| => Product(k, a[i]))
  }

  /** The vector of length `n` that is 1 at `i` and 0 elsewhere. */
  function Unit(n: nat, i: nat): (r: Vector)
    ensures |r| == n && forall j :: 0 <= j < n ==> r[j] == (if j == i then 1.0 else 0.0)
  {
    seq(n, j requires 0 <= j < n => if j == i then 1.0 else 0.0)
  }

  lemma {:induction false} DotCommutes(a: Vector, b: Vector)
    ensures Dot(a, b) == Dot(b, a)
    decreases |a|
  {
    if a != [] && b != [] {
      DotCommutes(a[1..], b[1..]);
    }
  }

  /** The dot product is linear in each argument ... */
  lemma {:induction false} DotAdds(a: Vector, b: Vector, c: Vector)
    requires |a| == |b|
    ensures Dot(Sum(a, b), c) == Dot(a, c) + Dot(b, c)
    ensures Dot(c, Sum(a, b)) == Dot(c, a) + Dot(c, b)
    decreases |a|
  {
    var s := Sum(a, b);
    if a != [] && c != [] {
      DotAdds(a[1..], b[1..], c[1..]);
      assert s[1..] == Sum(a[1..], b[1..]);
      Distributes(a[0], b[0], c[0]);
    }
  }

  lemma Distributes(x: real, y: real, z: real)
    ensures (x + y) * z == x * z + y * z && z * (x + y) == z * x + z * y
  {
  }

  lemma {:induction false} DotTimes(k: real, a: Vector, b: Vector)
    ensures Dot(Times(k, a), b) == Product(k, Dot(a, b))
    decreases |a|
  {
    hide Product;
    if a == [] || b == [] {
      TimesZero(k);
    } else {
      DotTimes(k, a[1..], b[1..]);
      assert Times(k, a)[1..] == Times(k, a[1..]);
      DotFirst(Times(k, a), b);
      DotFirst(a, b);
      hide Dot;
      TimesOut(k, a[0], b[0], Dot(a[1..], b[1..]), Times(k, a)[0], Times(k, a)[0] * b[0], Dot(a, b));
    }
  }

  lemma DotFirst(a: Vector, b: Vector)
    requires a != [] && b != []
    ensures Dot(a, b) == a[0] * b[0] + Dot(a[1..], b[1..])
  {
  }

  lemma TimesZero(k: real)
    ensures Product(k, 0.0) == 0.0
  {
  }

  lemma TimesOut(k: real, x: real, y: real, rest: real, kx: real, kxy: real, total: real)
    requires kx == Product(k, x) && kxy == kx * y && total == x * y + rest
    ensures kxy + Product(k, rest) == Product(k, total)
  {
    assert (k * x) * y == k * (x * y);
    Distributes(x * y, rest, k);
  }

  /** ... a unit vector picks the coordinate, or nothing past the end ... */
  lemma {:induction false} DotUnit(n: nat, i: nat, b: Vector)
    requires i < n
    ensures Dot(Unit(n, i), b) == if i < |b| then b[i] else 0.0
    decreases n
  {
    var e := Unit(n, i);
    if b != [] {
      if i == 0 {
        forall j | 0 <= j < |e[1..]| ensures e[1..][j] == 0.0 {}
        DotZero(e[1..], b[1..]);
      } else {
        assert e[1..] == Unit(n - 1, i - 1);
        DotUnit(n - 1, i - 1, b[1..]);
      }
    }
  }

  lemma {:induction false} DotZero(z: Vector, b: Vector)
    requires forall j :: 0 <= j < |z| ==> z[j] == 0.0
    ensures Dot(z, b) == 0.0
    decreases |z|
  {
    if z != [] && b != [] {
      DotZero(z[1..], b[1..]);
    }
  }

  /** ... and what is longer is cut to the length of the other: these laws leave no
      other function. */
  lemma {:induction false} DotTruncates(a: Vector, b: Vector)
    ensures var m := if |a| < |b| then |a| else |b|;
      Dot(a, b) == Dot(a[..m], b[..m])
    decreases |a|
  {
    var m := if |a| < |b| then |a| else |b|;
    if m > 0 {
      DotTruncates(a[1..], b[1..]);
      assert a[..m][1..] == a[1..][..m - 1] && b[..m][1..] == b[1..][..m - 1];
    }
  }

  // ----- What the score is -----

  lemma NormTimes(k: real, a: Vector)
    ensures Norm2(Times(k, a)) == Product(k, Product(k, Norm2(a)))
  {
    DotSelf(a);
    DotSelf(Times(k, a));
    DotTimes(k, a, Times(k, a));
    DotCommutes(a, Times(k, a));
    DotTimes(k, a, a);
  }

  lemma ScoreCommutes(a: Vector, b: Vector)
    ensures Score(a, b) == Score(b, a)
  {
    DotCommutes(a, b);
    RatioCommutes(SignedSquare(Dot(a, b)), Norm2(a), Norm2(b));
  }

  lemma RatioCommutes(d: real, x: real, y: real)
    ensures x > 0.0 && y > 0.0 ==> Ratio(d, x, y) == Ratio(d, y, x)
  {
    if x > 0.0 && y > 0.0 {
      assert Product(x, y) == x * y == y * x;
      ProductSign(x, y);
    }
  }

  /** Length does not matter: a positive factor leaves the score as it is ... */
  lemma ScoreIgnoresLength(k: real, a: Vector, b: Vector)
    requires k > 0.0
    ensures Score(Times(k, a), b) == Score(a, b)
  {
    NormTimes(k, a);
    DotTimes(k, a, b);
    hide Dot, Norm2, SignedSquare, Ratio, Times, Product;
    TwiceTimes(k, Norm2(a));
    if Norm2(a) != 0.0 && Norm2(b) != 0.0 {
      RatioTimes(k, Dot(a, b), Norm2(a), Norm2(b), Norm2(Times(k, a)));
    }
  }

  lemma TwiceTimes(k: real, x: real)
    requires k != 0.0 && x >= 0.0
    ensures Product(k, Product(k, x)) >= 0.0 && (Product(k, Product(k, x)) == 0.0 <==> x == 0.0)
    ensures Product(k, Product(k, x)) == Product(k * k, x)
  {
    var f, m := k * k, -k;
    assert k * (k * x) == f * x;
    assert Product(k, k) == f && Product(m, m) == f;
    if k > 0.0 { ProductSign(k, k); } else { ProductSign(m, m); }
    ProductSign(f, x);
  }

  lemma RatioTimes(k: real, d: real, x: real, y: real, kx: real)
    requires k > 0.0 && x > 0.0 && y > 0.0 && kx == Product(k, Product(k, x)) && kx > 0.0
    ensures Ratio(SignedSquare(Product(k, d)), kx, y) == Ratio(SignedSquare(d), x, y)
  {
    var p, q, f := SignedSquare(d), x * y, k * k;
    TwiceTimes(k, x);
    SignedSquareScales(k * d, d, k);
    TimesOut(f, x, y, 0.0, kx, kx * y, q);
    TimesZero(f);
    Positive(x, y);
    Positive(k, k);
    Positive(f, q);
    CancelFactor(p, q, f);
  }

  lemma Positive(x: real, y: real)
    requires x > 0.0 && y > 0.0
    ensures x * y > 0.0
  {
    assert Product(x, y) == x * y;
    ProductSign(x, y);
  }

  lemma CancelFactor(p: real, q: real, f: real)
    requires q > 0.0 && f > 0.0 && f * q > 0.0
    ensures (p * f) / (f * q) == p / q
  {
    var r := p / q;
    assert r * q == p;
    assert r * (f * q) == p * f;
    DivideBack(p * f, r, f * q);
  }

  /** ... and turning a vector round negates it. */
  lemma ScoreNegates(a: Vector, b: Vector)
    ensures Score(Times(-1.0, a), b) == -Score(a, b)
  {
    NormTimes(-1.0, a);
    DotTimes(-1.0, a, b);
    var d := Dot(a, b);
    assert Norm2(Times(-1.0, a)) == Norm2(a) && Dot(Times(-1.0, a), b) == -d;
    hide Dot, Norm2, Times, Ratio, SignedSquare;
    if Norm2(a) != 0.0 && Norm2(b) != 0.0 {
      RatioNegates(d, Norm2(a), Norm2(b));
    }
  }

  lemma RatioNegates(d: real, x: real, y: real)
    requires x > 0.0 && y > 0.0
    ensures Ratio(SignedSquare(-d), x, y) == -Ratio(SignedSquare(d), x, y)
  {
    assert SignedSquare(-d) == -SignedSquare(d);
    Positive(x, y);
    NegatedQuotient(SignedSquare(d), x * y);
  }

  lemma NegatedQuotient(s: real, m: real)
    requires m > 0.0
    ensures -s / m == -(s / m)
  {
    var r := s / m;
    assert r * m == s;
    assert (-r) * m == -(r * m);
    DivideBack(-s, -r, m);
  }

  /** The opposite of a nonzero vector is the worst match: it scores -1. */
  lemma OppositeScore(a: Vector)
    requires Norm2(a) != 0.0
    ensures Score(Times(-1.0, a), a) == -1.0 && Score(a, Times(-1.0, a)) == -1.0
  {
    ScoreNegates(a, a);
    ScoreSelf(a, a);
    ScoreCommutes(a, Times(-1.0, a));
  }
}
