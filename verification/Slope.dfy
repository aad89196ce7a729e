/** The least-squares slope of diagnostics.py and slices.py, and what its sign means. */
module Slope {
  import opened Reals
  import opened Sums
  import opened Ranks

  datatype Point = Point(x: int, y: real)

  function Points(values: seq<real>): (r: seq<Point>)
    ensures |r| == |values| && forall i | 0 <= i < |values| :: r[i] == Point(i, values[i])
  {
    seq(|values|, i requires 0 <= i < |values| => Point(i, values[i]))
  }

  function X(): Point -> real { (p: Point) => p.x as real }

  function Y(): Point -> real { (p: Point) => p.y }

  function CrossTerm(f: Point -> real, a: real, g: Point -> real, b: real): Point -> real {
    (p: Point) => (f(p) - a) * (g(p) - b)
  }

  function IndexMean(n: nat): real { (n as real - 1.0) / 2.0 }

  function SlopeDenominator(values: seq<real>): real {
    var m := IndexMean(|values|);
    Sum(Points(values), CrossTerm(X(), m, X(), m))
  }

  function SlopeNumerator(values: seq<real>): real
    requires values != []
  {
    Sum(Points(values), CrossTerm(X(), IndexMean(|values|), Y(), Mean(values)))
  }

  /** `_linear_slope`; `daily_primary_slope` is the same without the guard on the denominator. */
  function LinearSlope(values: seq<real>): real {
    if |values| < 2 then 0.0
    else if SlopeDenominator(values) == 0.0 then 0.0
    else SlopeNumerator(values) / SlopeDenominator(values)
  }

  // ----- Centred products are sums over pairs -----

  function Product(f: Point -> real, g: Point -> real): Point -> real { (p: Point) => f(p) * g(p) }

  function PairProduct(f: Point -> real, g: Point -> real): (Point, Point) -> real {
    (p: Point, q: Point) => (f(p) - f(q)) * (g(p) - g(q))
  }

  function Diagonal(f: Point -> real, g: Point -> real): (Point, Point) -> real {
    (p: Point, q: Point) => Product(f, g)(p)
  }

  function Across(f: Point -> real, g: Point -> real): (Point, Point) -> real { (p: Point, q: Point) => f(p) * g(q) }

  function HalfPair(f: Point -> real, g: Point -> real): (Point, Point) -> real {
    (p: Point, q: Point) => Diagonal(f, g)(p, q) - Across(f, g)(p, q)
  }

  lemma {:induction false} PairsOfPoints(s: seq<Point>, f: Point -> real, g: Point -> real)
    ensures Triangle(s, PairProduct(f, g)) == |s| as real * Sum(s, Product(f, g)) - Sum(s, f) * Sum(s, g)
  {
    hide Sum;
    hide Pairs;
    hide Triangle;
    var one, zero := (p: Point) => 1.0, (p: Point) => 0.0;
    PairsProduct(s, s, Product(f, g), one, Diagonal(f, g));
    SumConst(s, one, 1.0);
    PairsProduct(s, s, f, g, Across(f, g));
    PairsLinear(s, s, Diagonal(f, g), 1.0, Across(f, g), -1.0, HalfPair(f, g));
    forall p, q | p in s && q in s ensures PairProduct(f, g)(p, q) == HalfPair(f, g)(p, q) + HalfPair(f, g)(q, p) {
      CrossExpand(f(p), f(q), g(p), g(q));
    }
    PairsTriangle(s, HalfPair(f, g), zero, PairProduct(f, g));
    SumConst(s, zero, 0.0);
  }

  lemma {:induction false} CrossExpand(a: real, b: real, c: real, d: real)
    ensures (a - b) * (c - d) == (a * c - a * d) + (b * d - b * c)
  {
  }

  /** Centring both factors leaves, up to the number of points, the sum over pairs. */
  lemma {:induction false} CentredIsPairs(s: seq<Point>, f: Point -> real, a: real, g: Point -> real, b: real)
    requires a * |s| as real == Sum(s, f) && b * |s| as real == Sum(s, g)
    ensures |s| as real * Sum(s, CrossTerm(f, a, g, b)) == Triangle(s, PairProduct(f, g))
  {
    hide Sum;
    hide Triangle;
    var n := |s| as real;
    var linear, one := (p: Point) => a * g(p) + b * f(p), (p: Point) => 1.0;
    forall p | p in s ensures CrossTerm(f, a, g, b)(p) == 1.0 * PlusConstant(f, a, g, b)(p) + -1.0 * linear(p) {
      CentredTerm(f(p), a, g(p), b);
      assert Product(f, g)(p) == f(p) * g(p);
    }
    SumLinear(s, PlusConstant(f, a, g, b), 1.0, linear, -1.0, CrossTerm(f, a, g, b));
    SumLinear(s, g, a, f, b, linear);
    SumLinear(s, Product(f, g), 1.0, one, a * b, PlusConstant(f, a, g, b));
    SumConst(s, one, 1.0);
    PairsOfPoints(s, f, g);
    CentredTotal(n, a, b, Sum(s, f), Sum(s, g), Sum(s, Product(f, g)));
  }

  lemma {:induction false} CentredTerm(x: real, a: real, y: real, b: real)
    ensures (x - a) * (y - b) == (x * y + a * b) - (a * y + b * x)
  {
  }

  function PlusConstant(f: Point -> real, a: real, g: Point -> real, b: real): Point -> real {
    (p: Point) => Product(f, g)(p) + a * b
  }

  lemma {:induction false} CentredTotal(n: real, a: real, b: real, F: real, G: real, P: real)
    requires a * n == F && b * n == G
    ensures n * (P + a * b * n - (a * G + b * F)) == n * P - F * G
  {
    assert a * b * n == a * G;
    assert n * (b * F) == G * F;
  }

  // ----- The denominator -----

  lemma {:induction false} IndexSum(values: seq<real>)
    ensures IndexMean(|values|) * |values| as real == Sum(Points(values), X())
  {
    if values != [] {
      var n := |values| - 1;
      var init := values[..n];
      IndexSum(init);
      assert Points(values) == Points(init) + [Point(n, values[n])];
      SumAppend(Points(init), [Point(n, values[n])], X());
      SumSingle([Point(n, values[n])], 0, X());
      MeanStep(n as real);
    }
  }

  lemma {:induction false} MeanStep(n: real)
    ensures (n - 1.0) / 2.0 * n + n == (n + 1.0 - 1.0) / 2.0 * (n + 1.0)
  {
  }

  lemma {:induction false} ValueSum(values: seq<real>)
    requires values != []
    ensures Mean(values) * |values| as real == Sum(Points(values), Y())
  {
    hide Sum;
    assert Map(Points(values), Y()) == values;
    SumMap(Points(values), Y(), Identity(), Y());
    DivisionScale(Sum(values, Identity()), |values| as real);
  }

  lemma {:induction false} DenominatorIsPairs(values: seq<real>)
    ensures |values| as real * SlopeDenominator(values) == Triangle(Points(values), PairProduct(X(), X()))
  {
    IndexSum(values);
    CentredIsPairs(Points(values), X(), IndexMean(|values|), X(), IndexMean(|values|));
  }

  lemma {:induction false} NumeratorIsPairs(values: seq<real>)
    requires values != []
    ensures |values| as real * SlopeNumerator(values) == Triangle(Points(values), PairProduct(X(), Y()))
  {
    IndexSum(values);
    ValueSum(values);
    CentredIsPairs(Points(values), X(), IndexMean(|values|), Y(), Mean(values));
  }

  lemma {:induction false} IndexSquareSum(values: seq<real>)
    ensures var n := |values| as real;
      6.0 * Sum(Points(values), Product(X(), X())) == n * (n - 1.0) * (2.0 * n - 1.0)
  {
    if values != [] {
      var n := |values| - 1;
      var init, last := values[..n], Point(n, values[n]);
      IndexSquareSum(init);
      assert Points(values) == Points(init) + [last];
      SumAppend(Points(init), [last], Product(X(), X()));
      SumSingle([last], 0, Product(X(), X()));
      SquareStep(n as real);
    }
  }

  lemma {:induction false} SquareStep(n: real)
    ensures n * (n - 1.0) * (2.0 * n - 1.0) + 6.0 * (n * n) == (n + 1.0) * (n + 1.0 - 1.0) * (2.0 * (n + 1.0) - 1.0)
  {
    assert n * (n - 1.0) == n * n - n;
    assert (n * n - n) * (2.0 * n - 1.0) == 2.0 * (n * n * n) - 3.0 * (n * n) + n;
    assert (n + 1.0) * n == n * n + n;
    assert (n * n + n) * (2.0 * n + 1.0) == 2.0 * (n * n * n) + 3.0 * (n * n) + n;
  }

  /** The denominator is n(n^2 - 1)/12, so from two points on it is never 0 and both slope
      formulas agree. */
  lemma {:induction false} DenominatorClosed(values: seq<real>)
    requires values != []
    ensures var n := |values| as real; 12.0 * SlopeDenominator(values) == n * (n * n - 1.0)
    ensures |values| >= 2 ==> SlopeDenominator(values) > 0.0
    ensures |values| >= 2 ==> LinearSlope(values) == SlopeNumerator(values) / SlopeDenominator(values)
  {
    hide Sum;
    hide Triangle;
    var n := |values| as real;
    DenominatorIsPairs(values);
    PairsOfPoints(Points(values), X(), X());
    IndexSum(values);
    IndexSquareSum(values);
    DenominatorAlgebra(n, SlopeDenominator(values), Sum(Points(values), X()), Sum(Points(values), Product(X(), X())));
    if |values| >= 2 {
      MulLess(1.0, n, n);
      ProductPositive(n, n * n - 1.0, n * (n * n - 1.0));
    }
  }

  lemma {:induction false} DenominatorAlgebra(n: real, d: real, s: real, q: real)
    requires n > 0.0 && s == (n - 1.0) / 2.0 * n && 6.0 * q == n * (n - 1.0) * (2.0 * n - 1.0) && n * d == n * q - s * s
    ensures 12.0 * d == n * (n * n - 1.0)
  {
    var h := (n - 1.0) / 2.0;
    calc {
      s * s;
    ==
      h * n * (h * n);
    ==
      n * (h * h * n);
    }
    Distribute(q, h * h * n, n);
    assert n * d == n * (q - h * h * n);
    DivisionOrder(n * d, n * (q - h * h * n), n);
    Cancel(d, n);
    Cancel(q - h * h * n, n);
    assert d == q - h * h * n;
    assert 4.0 * (h * h) == n * n - 2.0 * n + 1.0;
    assert 12.0 * (h * h * n) == 3.0 * ((n * n - 2.0 * n + 1.0) * n);
    assert n * (n - 1.0) == n * n - n;
    assert (n * n - n) * (2.0 * n - 1.0) == 2.0 * (n * n * n) - 3.0 * (n * n) + n;
    assert (n * n - 2.0 * n + 1.0) * n == n * n * n - 2.0 * (n * n) + n;
    assert n * (n * n - 1.0) == n * n * n - n;
  }

  lemma {:induction false} Cancel(x: real, n: real)
    requires n != 0.0
    ensures n * x / n == x
  {
  }

  // ----- What the slope means -----

  /** An affine sequence has exactly its own slope. */
  lemma {:induction false} AffineSlope(values: seq<real>, a: real, b: real)
    requires |values| >= 2 && forall i | 0 <= i < |values| :: values[i] == a + b * i as real
    ensures LinearSlope(values) == b
  {
    hide Sum;
    hide Triangle;
    hide SlopeDenominator;
    hide SlopeNumerator;
    hide LinearSlope;
    hide PairProduct;
    var n, points := |values| as real, Points(values);
    DenominatorClosed(values);
    DenominatorIsPairs(values);
    NumeratorIsPairs(values);
    forall p, q | p in points && q in points ensures PairProduct(X(), Y())(p, q) == b * PairProduct(X(), X())(p, q) {
      assert p.y == a + b * p.x as real && q.y == a + b * q.x as real;
      AffinePair(p, q, a, b);
    }
    TriangleScale(points, PairProduct(X(), X()), b, PairProduct(X(), Y()));
    AffineAlgebra(n, SlopeDenominator(values), SlopeNumerator(values), b);
  }

  lemma {:induction false} AffineAlgebra(n: real, x: real, y: real, b: real)
    requires n > 0.0 && x > 0.0 && n * y == b * (n * x)
    ensures y / x == b
  {
    assert n * y == n * (b * x);
    Cancel(y, n);
    Cancel(b * x, n);
    SameQuotient(b, y, x);
  }

  lemma {:induction false} AffinePair(p: Point, q: Point, a: real, b: real)
    requires p.y == a + b * p.x as real && q.y == a + b * q.x as real
    ensures PairProduct(X(), Y())(p, q) == b * PairProduct(X(), X())(p, q)
  {
    ScaledPair(p.x as real, q.x as real, a, b);
  }

  lemma {:induction false} ScaledPair(x: real, z: real, a: real, b: real)
    ensures (x - z) * ((a + b * x) - (a + b * z)) == b * ((x - z) * (x - z))
  {
    assert (a + b * x) - (a + b * z) == b * (x - z);
  }

  lemma {:induction false} TriangleScale<T>(s: seq<T>, f: (T, T) -> real, c: real, g: (T, T) -> real)
    requires forall x, y | x in s && y in s :: g(x, y) == c * f(x, y)
    ensures Triangle(s, g) == c * Triangle(s, f)
  {
    if s != [] {
      TriangleScale(s[1..], f, c, g);
      SumLinear(s[1..], From(f, s[0]), c, From(f, s[0]), 0.0, From(g, s[0]));
      Distribute(Sum(s[1..], From(f, s[0])), Triangle(s[1..], f), c);
    }
  }

  /** Chebyshev: a sequence that never falls has a slope that is not negative, and zero only if the
      sequence is constant. */
  lemma {:induction false} RisingSlope(values: seq<real>)
    requires |values| >= 2 && forall i, j | 0 <= i < j < |values| :: values[i] <= values[j]
    ensures LinearSlope(values) >= 0.0
    ensures LinearSlope(values) == 0.0 <==> forall i | 0 <= i < |values| :: values[i] == values[0]
  {
    hide Sum;
    hide Triangle;
    hide SlopeDenominator;
    hide SlopeNumerator;
    hide LinearSlope;
    hide PairProduct;
    var n, points, f := |values| as real, Points(values), PairProduct(X(), Y());
    DenominatorClosed(values);
    NumeratorIsPairs(values);
    forall p, q | p in points && q in points ensures f(p, q) >= 0.0 {
      RisingPair(values, p, q);
    }
    TriangleZero(points, f);
    SignOfFactor(n, SlopeNumerator(values));
    DivisionOrder(0.0, SlopeNumerator(values), SlopeDenominator(values));
    if Triangle(points, f) == 0.0 {
      forall i | 0 <= i < |values| ensures values[i] == values[0] {
        if i > 0 { FlatPair(points, values, i, f); }
      }
    }
    if forall i | 0 <= i < |values| :: values[i] == values[0] {
      forall i, j | 0 <= i < j < |points| ensures f(points[i], points[j]) == 0.0 {
        LevelPair(points[i], points[j]);
      }
    }
  }

  lemma {:induction false} RisingPair(values: seq<real>, p: Point, q: Point)
    requires forall i, j | 0 <= i < j < |values| :: values[i] <= values[j]
    requires p in Points(values) && q in Points(values)
    ensures PairProduct(X(), Y())(p, q) >= 0.0
  {
    var a, b := X()(p) - X()(q), p.y - q.y;
    if p.x < q.x {
      assert p.y <= q.y;
      SameSigns(-a, -b);
    } else if q.x < p.x {
      assert q.y <= p.y;
      SameSigns(a, b);
    }
  }

  lemma {:induction false} LevelPair(p: Point, q: Point)
    requires p.y == q.y
    ensures PairProduct(X(), Y())(p, q) == 0.0
  {
  }

  lemma {:induction false} SameSigns(a: real, b: real)
    requires a >= 0.0 && b >= 0.0
    ensures a * b >= 0.0 && (-a) * (-b) >= 0.0
  {
  }

  lemma {:induction false} FlatPair(points: seq<Point>, values: seq<real>, i: nat, f: (Point, Point) -> real)
    requires points == Points(values) && 0 < i < |values| && f == PairProduct(X(), Y())
    requires forall a, b | 0 <= a < b < |points| :: f(points[a], points[b]) == 0.0
    ensures values[i] == values[0]
  {
    assert f(points[0], points[i]) == 0.0;
    assert (0.0 - i as real) * (values[0] - values[i]) == 0.0;
    SignOfFactor(i as real, values[0] - values[i]);
    Distribute(0.0, i as real, values[0] - values[i]);
  }

  lemma {:induction false} SignOfFactor(n: real, x: real)
    requires n > 0.0
    ensures n * x >= 0.0 <==> x >= 0.0
    ensures n * x == 0.0 <==> x == 0.0
  {
    if x > 0.0 {
      ProductPositive(n, x, n * x);
    } else if x < 0.0 {
      ProductPositive(n, -x, n * (-x));
      assert n * (-x) == -(n * x);
    }
  }

  // ----- Least squares -----

  /** The squared error of the line `a + b i` at a point. */
  function SquaredError(a: real, b: real): Point -> real {
    (p: Point) => (p.y - (a + b * p.x as real)) * (p.y - (a + b * p.x as real))
  }

  function Centred(f: Point -> real, a: real): Point -> real { (p: Point) => f(p) - a }

  lemma {:induction false} CentredSum(s: seq<Point>, f: Point -> real, a: real)
    requires a * |s| as real == Sum(s, f)
    ensures Sum(s, Centred(f, a)) == 0.0
  {
    hide Sum;
    var one := (p: Point) => 1.0;
    SumLinear(s, f, 1.0, one, -a, Centred(f, a));
    SumConst(s, one, 1.0);
  }

  /** What is left of a squared error besides the three centred products. */
  function Offset(m: real, mean: real, b: real, c: real): Point -> real {
    (p: Point) => 2.0 * c * Centred(Y(), mean)(p) + -2.0 * b * c * Centred(X(), m)(p)
  }

  function ThreeProducts(m: real, mean: real, b: real): Point -> real {
    (p: Point) =>
      1.0 * CrossTerm(Y(), mean, Y(), mean)(p)
      + 1.0 * (-2.0 * b * CrossTerm(X(), m, Y(), mean)(p) + b * b * CrossTerm(X(), m, X(), m)(p))
  }

  function Square(x: real): real { x * x }

  lemma {:induction false} ErrorTerm(p: Point, m: real, mean: real, a: real, b: real, c: real)
    requires c == mean - a - b * m
    ensures SquaredError(a, b)(p) == 1.0 * ThreeProducts(m, mean, b)(p) + 1.0 * (Offset(m, mean, b, c)(p) + c * c)
  {
    hide *;
    var u, v := Centred(X(), m)(p), Centred(Y(), mean)(p);
    ErrorIs(p, a, b);
    ThreeProductsIs(p, m, mean, b);
    OffsetIs(p, m, mean, b, c);
    CentredParts(p, m, mean);
    LineGap(p.x as real, p.y, u, v, m, mean, a, b, c);
    SquareOfThree(v, b, u, c, CrossTerm(Y(), mean, Y(), mean)(p), CrossTerm(X(), m, Y(), mean)(p),
                  CrossTerm(X(), m, X(), m)(p));
  }

  lemma {:induction false} LineGap(x: real, y: real, u: real, v: real, m: real, mean: real, a: real, b: real, c: real)
    requires c == mean - a - b * m && u == x - m && v == y - mean
    ensures y - (a + b * x) == v - b * u + c
  {
    assert b * u == b * x - b * m;
  }

  lemma {:induction false} ErrorIs(p: Point, a: real, b: real)
    ensures SquaredError(a, b)(p) == Square(p.y - (a + b * p.x as real))
  {
  }

  lemma {:induction false} ThreeProductsIs(p: Point, m: real, mean: real, b: real)
    ensures ThreeProducts(m, mean, b)(p) ==
      1.0 * CrossTerm(Y(), mean, Y(), mean)(p)
      + 1.0 * (-2.0 * b * CrossTerm(X(), m, Y(), mean)(p) + b * b * CrossTerm(X(), m, X(), m)(p))
  {
    hide CrossTerm;
  }

  lemma {:induction false} OffsetIs(p: Point, m: real, mean: real, b: real, c: real)
    ensures Offset(m, mean, b, c)(p) == 2.0 * c * Centred(Y(), mean)(p) + -2.0 * b * c * Centred(X(), m)(p)
  {
    hide Centred;
  }

  lemma {:induction false} CentredParts(p: Point, m: real, mean: real)
    ensures Centred(Y(), mean)(p) == p.y - mean && Centred(X(), m)(p) == p.x as real - m
    ensures CrossTerm(Y(), mean, Y(), mean)(p) == (p.y - mean) * (p.y - mean)
    ensures CrossTerm(X(), m, Y(), mean)(p) == (p.x as real - m) * (p.y - mean)
    ensures CrossTerm(X(), m, X(), m)(p) == (p.x as real - m) * (p.x as real - m)
  {
  }

  lemma {:induction false} SquareOfThree(v: real, b: real, u: real, c: real, vv: real, uv: real, uu: real)
    requires vv == v * v && uv == u * v && uu == u * u
    ensures Square(v - b * u + c) ==
      1.0 * (1.0 * vv + 1.0 * (-2.0 * b * uv + b * b * uu)) + 1.0 * (2.0 * c * v + -2.0 * b * c * u + c * c)
  {
    var w := b * u;
    assert (v - w + c) * (v - w + c) == v * v - 2.0 * (w * v) + w * w + 2.0 * (c * v) - 2.0 * (c * w) + c * c;
    assert w * v == b * uv;
    assert w * w == b * b * uu;
    assert c * w == b * c * u;
  }

  /** The total squared error of a line: the scatter of the values, less twice the slope times the numerator,
      plus its square times the denominator, plus the square of how far it passes from the point of means. */
  lemma {:induction false} ErrorSum(values: seq<real>, a: real, b: real, c: real)
    requires values != [] && c == Mean(values) - a - b * IndexMean(|values|)
    ensures Sum(Points(values), SquaredError(a, b)) ==
      Sum(Points(values), CrossTerm(Y(), Mean(values), Y(), Mean(values)))
      + (-2.0 * b * SlopeNumerator(values) + b * b * SlopeDenominator(values)) + |values| as real * (c * c)
  {
    hide Sum;
    hide CrossTerm;
    hide IndexMean;
    hide Mean;
    var s, m, mean := Points(values), IndexMean(|values|), Mean(values);
    var products := (p: Point) => -2.0 * b * CrossTerm(X(), m, Y(), mean)(p) + b * b * CrossTerm(X(), m, X(), m)(p);
    var rest, one := (p: Point) => Offset(m, mean, b, c)(p) + c * c, (p: Point) => 1.0;
    SumLinear(s, CrossTerm(X(), m, Y(), mean), -2.0 * b, CrossTerm(X(), m, X(), m), b * b, products);
    SumLinear(s, CrossTerm(Y(), mean, Y(), mean), 1.0, products, 1.0, ThreeProducts(m, mean, b));
    IndexSum(values);
    ValueSum(values);
    CentredSum(s, X(), m);
    CentredSum(s, Y(), mean);
    SumLinear(s, Centred(Y(), mean), 2.0 * c, Centred(X(), m), -2.0 * b * c, Offset(m, mean, b, c));
    SumLinear(s, Offset(m, mean, b, c), 1.0, one, c * c, rest);
    SumConst(s, one, 1.0);
    forall p | p in s
      ensures SquaredError(a, b)(p) == 1.0 * ThreeProducts(m, mean, b)(p) + 1.0 * rest(p)
    {
      ErrorTerm(p, m, mean, a, b, c);
    }
    SumLinear(s, ThreeProducts(m, mean, b), 1.0, rest, 1.0, SquaredError(a, b));
  }

  /** Where the line of that slope through the point of means starts. */
  function Intercept(values: seq<real>): real
    requires values != []
  {
    Mean(values) - LinearSlope(values) * IndexMean(|values|)
  }

  function TotalError(values: seq<real>, a: real, b: real): real { Sum(Points(values), SquaredError(a, b)) }

  /** That line has the least total squared error of all lines, and is the only one that has. */
  lemma {:induction false} LeastSquares(values: seq<real>, a: real, b: real)
    requires |values| >= 2
    ensures TotalError(values, Intercept(values), LinearSlope(values)) <= TotalError(values, a, b)
    ensures TotalError(values, Intercept(values), LinearSlope(values)) == TotalError(values, a, b) <==>
      a == Intercept(values) && b == LinearSlope(values)
  {
    hide *;
    var c := Mean(values) - a - b * IndexMean(|values|);
    SlopeTimesDenominator(values);
    BothErrors(values, a, b, c);
    CompletedSquare(|values| as real, LinearSlope(values), SlopeDenominator(values), SlopeNumerator(values), b, c);
  }

  lemma {:induction false} SlopeTimesDenominator(values: seq<real>)
    requires |values| >= 2
    ensures SlopeDenominator(values) > 0.0 && SlopeNumerator(values) == LinearSlope(values) * SlopeDenominator(values)
  {
    hide SlopeDenominator;
    hide SlopeNumerator;
    hide LinearSlope;
    DenominatorClosed(values);
    DivisionScale(SlopeNumerator(values), SlopeDenominator(values));
  }

  lemma {:induction false} BothErrors(values: seq<real>, a: real, b: real, c: real)
    requires values != [] && c == Mean(values) - a - b * IndexMean(|values|)
    ensures TotalError(values, a, b) - TotalError(values, Intercept(values), LinearSlope(values)) ==
      Excess(|values| as real, SlopeDenominator(values), SlopeNumerator(values), b, c)
      - Excess(|values| as real, SlopeDenominator(values), SlopeNumerator(values), LinearSlope(values), 0.0)
    ensures c == 0.0 && b == LinearSlope(values) <==> a == Intercept(values) && b == LinearSlope(values)
  {
    hide Sum;
    hide Mean;
    hide IndexMean;
    hide SlopeDenominator;
    hide SlopeNumerator;
    hide LinearSlope;
    hide SquaredError;
    hide Points;
    ErrorSum(values, a, b, c);
    ErrorSum(values, Intercept(values), LinearSlope(values), 0.0);
  }

  /** The part of a total squared error that depends on the line. */
  function Excess(n: real, den: real, num: real, b: real, c: real): real {
    -2.0 * b * num + b * b * den + n * (c * c)
  }

  lemma {:induction false} CompletedSquare(n: real, slope: real, den: real, num: real, b: real, c: real)
    requires n > 0.0 && den > 0.0 && num == slope * den
    ensures var best, other := Excess(n, den, num, slope, 0.0), Excess(n, den, num, b, c);
      best <= other && (best == other <==> b == slope && c == 0.0)
  {
    var r := b - slope;
    var rr, cc := r * r, c * c;
    assert -2.0 * b * num + b * b * den - (-2.0 * slope * num + slope * slope * den) == rr * den by {
      assert b * num == b * slope * den && slope * num == slope * slope * den;
      assert rr == b * b - 2.0 * (b * slope) + slope * slope;
      assert rr * den == b * b * den - 2.0 * (b * slope * den) + slope * slope * den;
    }
    SquareSign(r);
    SquareSign(c);
    SignOfFactor(den, rr);
    SignOfFactor(n, cc);
    assert rr * den == den * rr;
  }
}
