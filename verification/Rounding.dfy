/** Python's `math.ceil`, and `round` to the nearest integer, halves to even. */
module Rounding {

  function Ceiling(x: real): int { -((-x).Floor) }

  ghost predicate IsWhole(x: real) { x == x.Floor as real }

  lemma CeilingBounds(x: real)
    ensures x <= Ceiling(x) as real < x + 1.0
  {
    var f := (-x).Floor;
    assert f as real <= -x < f as real + 1.0;
  }

  lemma WholeIsInteger(x: real, n: int)
    requires x == n as real
    ensures x.Floor == n && (-x).Floor == -n && IsWhole(x)
  {
    var y := -x;
    assert y == (-n) as real;
  }

  lemma CeilingOfWhole(x: real)
    ensures Ceiling(x) as real <= x <==> IsWhole(x)
  {
    CeilingBounds(x);
    if x == x.Floor as real {
      WholeIsInteger(x, x.Floor);
    } else if Ceiling(x) as real <= x {
      WholeIsInteger(x, Ceiling(x));
    }
  }

  function RoundHalfEven(x: real): int {
    var below := x.Floor;
    var rest := x - below as real;
    if rest < 0.5 then below
    else if rest > 0.5 then below + 1
    else if below % 2 == 0 then below
    else below + 1
  }

  ghost predicate IsNearest(n: int, x: real) {
    && -0.5 <= n as real - x <= 0.5
    && (n as real - x == 0.5 || n as real - x == -0.5 ==> n % 2 == 0)
  }

  /** It is a nearest integer, and the even one of the two when there are two. */
  lemma RoundNearest(x: real, n: int)
    ensures -0.5 <= RoundHalfEven(x) as real - x <= 0.5
    ensures RoundHalfEven(x) as real - x == 0.5 || RoundHalfEven(x) as real - x == -0.5 ==> RoundHalfEven(x) % 2 == 0
    ensures -0.5 < n as real - x < 0.5 ==> n == RoundHalfEven(x)
  {
  }

  lemma RoundMonotone(x: real, y: real)
    requires x <= y
    ensures RoundHalfEven(x) <= RoundHalfEven(y)
  {
    RoundNearest(x, RoundHalfEven(y));
    RoundNearest(y, RoundHalfEven(x));
  }
}
