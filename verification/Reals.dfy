/** The few facts of real arithmetic that are not linear, each proved where nothing else is in sight. */
module Reals {

  lemma MulLess(a: real, b: real, d: real)
    requires a < b && d > 0.0
    ensures a * d < b * d
  {
  }

  lemma MulMonotone(a: real, b: real, d: real)
    requires a <= b && d >= 0.0
    ensures a * d <= b * d
  {
  }

  lemma ProductOrder(a: real, b: real, d: real)
    requires d > 0.0
    ensures a < b <==> a * d < b * d
  {
    if a < b { MulLess(a, b, d); } else { MulMonotone(b, a, d); }
  }

  lemma IntMonotone(a: nat, x: int, y: int)
    requires x <= y
    ensures a * x <= a * y
  {
  }

  lemma RealProduct(a: int, b: int)
    ensures (a * b) as real == a as real * b as real
  {
  }

  lemma Distribute(a: real, b: real, c: real)
    ensures (a + b) * c == a * c + b * c
    ensures (a - b) * c == a * c - b * c
  {
  }

  lemma DivisionOrder(x: real, y: real, d: real)
    requires d > 0.0
    ensures x <= y <==> x / d <= y / d
    ensures x == y <==> x / d == y / d
  {
    var p, q := x / d, y / d;
    assert p * d == x && q * d == y;
    if p < q { MulLess(p, q, d); } else if q < p { MulLess(q, p, d); }
  }

  lemma InverseOrder(a: real, b: real)
    requires 0.0 < a < b
    ensures 0.0 < 1.0 / b < 1.0 / a
  {
    var p, q := 1.0 / a, 1.0 / b;
    assert p * a == 1.0 && q * b == 1.0;
    if q <= 0.0 {
      MulMonotone(q, 0.0, b);
    } else if p <= q {
      MulMonotone(p, q, a);
      MulLess(a, b, q);
    }
  }

  lemma DivisionRange(x: real, d: real)
    requires d > 0.0 && 0.0 <= x <= d
    ensures 0.0 <= x / d <= 1.0
  {
    DivisionOrder(0.0, x, d);
    DivisionOrder(x, d, d);
  }

  lemma SameQuotient(q: real, x: real, d: real)
    requires d != 0.0 && q * d == x
    ensures q == x / d
  {
  }

  lemma UnitQuotient(c: real, x: real, y: real)
    requires x > 0.0 && y > 0.0
    ensures x * y > 0.0 && (c / (x * y) == 1.0 <==> c == x * y)
  {
    var d := x * y;
    ProductPositive(x, y, d);
    DivisionOrder(c, d, d);
    DivisionBySelf(d);
  }

  lemma DivisionScale(x: real, d: real)
    requires d != 0.0
    ensures x / d == 1.0 / d * x
    ensures x / d * d == x
  {
  }

  lemma ProductPositive(a: real, b: real, ab: real)
    requires a > 0.0 && b > 0.0 && ab == a * b
    ensures ab > 0.0
  {
  }

  lemma DivisionBySelf(d: real)
    requires d != 0.0
    ensures d / d == 1.0
  {
  }

  lemma SelfQuotient(c: real, x: real)
    requires x > 0.0 && c == x * x
    ensures c / (x * x) == 1.0
  {
    ProductPositive(x, x, c);
    DivisionBySelf(c);
  }

  /** Rounding in units of `p` is off by at most half a `p`. */
  lemma ScaledGap(n: real, x: real, p: real)
    requires p > 0.0 && -0.5 <= n - x / p <= 0.5
    ensures -p / 2.0 <= n * p - x <= p / 2.0
  {
    var gap := n - x / p;
    DivisionScale(x, p);
    Distribute(n, x / p, p);
    MulMonotone(-0.5, gap, p);
    MulMonotone(gap, 0.5, p);
    assert gap * p == n * p - x;
  }

  lemma SquareSign(x: real)
    ensures x * x >= 0.0
    ensures x * x == 0.0 <==> x == 0.0
  {
    if x > 0.0 { ProductPositive(x, x, x * x); } else if x < 0.0 { ProductPositive(-x, -x, x * x); }
  }

  lemma SquareLess(a: real, b: real)
    requires 0.0 <= b < a
    ensures b * b < a * a
  {
    calc {
      b * b;
    <= { MulMonotone(b, a, b); }
      a * b;
    <  { MulLess(b, a, a); }
      a * a;
    }
  }

  /** `|c| <= x * y` read off the squares. */
  lemma RatioBound(c: real, x: real, y: real, xx: real, yy: real)
    requires x > 0.0 && y > 0.0 && xx == x * x && yy == y * y && c * c <= xx * yy
    ensures x * y > 0.0 && -1.0 <= c / (x * y) <= 1.0
  {
    var d := x * y;
    MulLess(0.0, x, y);
    SquareOfProduct(x, y, xx, yy, d);
    if c > d {
      SquareLess(c, d);
    } else if -c > d {
      SquareLess(-c, d);
      assert (-c) * (-c) == c * c;
    }
    DivisionOrder(c, d, d);
    DivisionOrder(-d, c, d);
    SameQuotient(-1.0, -d, d);
    SameQuotient(1.0, d, d);
  }

  lemma SquareOfProduct(a: real, b: real, aa: real, bb: real, ab: real)
    requires aa == a * a && bb == b * b && ab == a * b
    ensures aa * bb == ab * ab
  {
    assert a * a * (b * b) == a * b * (a * b);
  }

  lemma SquareOfCross(a: real, b: real, c: real, d: real)
    ensures a * a * (d * d) - a * b * (c * d) + (c * c * (b * b) - c * d * (a * b)) >= 0.0
  {
    var r := a * d - c * b;
    assert r * r == a * a * (d * d) - a * b * (c * d) + (c * c * (b * b) - c * d * (a * b));
  }
}
