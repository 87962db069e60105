/** Order facts about products and quotients of reals that the solver needs spelt out. */
module Reals {
  /** Products under a name, so that equal factors give equal products. */
  function Product(x: real, y: real): real { x * y }

  lemma ProductSign(x: real, y: real)
    requires x >= 0.0 && y >= 0.0
    ensures Product(x, y) >= 0.0 && (x > 0.0 && y > 0.0 ==> Product(x, y) > 0.0)
  {
  }

  lemma SquareMonotone(x: real, y: real)
    requires x >= 0.0 && y >= 0.0
    ensures x < y <==> x * x < y * y
  {
    assert y * y - x * x == (y - x) * (y + x);
    if x < y {
      var gap, sum := y - x, y + x;
      assert Product(gap, sum) == gap * sum;
      ProductSign(gap, sum);
    } else {
      var gap, sum := x - y, y + x;
      assert gap * sum == x * x - y * y;
      assert Product(gap, sum) == gap * sum;
      ProductSign(gap, sum);
    }
  }

  lemma DivideBack(x: real, p: real, m: real)
    requires m > 0.0 && x == p * m
    ensures x / m == p
  {
    var q := x / m;
    assert q * m == x;
    var over, under := q - p, p - q;
    assert over * m == 0.0 && under * m == 0.0;
    assert Product(over, m) == over * m;
    if over > 0.0 { ProductSign(over, m); }
    assert Product(under, m) == under * m;
    if under > 0.0 { ProductSign(under, m); }
  }

  lemma CancelSign(a: real, g: real)
    requires a > 0.0 && a * g >= 0.0
    ensures g >= 0.0
  {
    var h := -g;
    assert a * h == -(a * g);
    assert Product(a, h) == a * h;
    if h > 0.0 { ProductSign(a, h); }
  }

  lemma SquareZero(d: real)
    requires d * d <= 0.0
    ensures d == 0.0
  {
    var e := -d;
    assert e * e == d * d;
    assert Product(d, d) == d * d;
    if d > 0.0 { ProductSign(d, d); }
    assert Product(e, e) == e * e;
    if e > 0.0 { ProductSign(e, e); }
  }

  lemma ProductsOrdered(x: real, y: real, c: real)
    requires x <= y && c > 0.0
    ensures x * c <= y * c
    ensures x < y ==> x * c < y * c
    ensures Product(x, c) <= Product(y, c) && (x < y ==> Product(x, c) < Product(y, c))
  {
    var d := y - x;
    assert d * c == y * c - x * c;
    assert Product(d, c) == d * c;
    ProductSign(d, c);
  }

  lemma ReciprocalsOrdered(a: real, b: real)
    requires 0.0 < a <= b
    ensures 1.0 / a >= 1.0 / b > 0.0
  {
    var x, y := 1.0 / a, 1.0 / b;
    assert x * a == 1.0 && y * b == 1.0;
    if y <= 0.0 {
      ProductsOrdered(y, 0.0, b);
    } else if x < y {
      ProductsOrdered(x, y, a);
      ProductsOrdered(a, b, y);
    }
  }

  lemma QuotientBack(x: real, c: real)
    requires c != 0.0
    ensures Product(x / c, c) == x
  {
  }

  lemma ProductAsReal(a: int, b: int)
    ensures (a * b) as real == Product(a as real, b as real)
  {
  }

  lemma SquareOfProduct(x: real, y: real, xx: real, yy: real)
    requires xx == x * x && yy == y * y
    ensures xx * yy == (x * y) * (x * y)
  {
    assert (x * x) * (y * y) == (x * y) * (x * y);
  }

  lemma IntProductsOrdered(a: int, b: int, c: int)
    requires a <= b && c > 0
    ensures a * c <= b * c
  {
  }
}
