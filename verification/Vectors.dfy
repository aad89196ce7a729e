/** Vectors of a fixed rank: sums and inner products. */
module Vectors {
  import opened Reals

  type Vector = seq<real>

  function Zero(rank: nat): (r: Vector)
    ensures |r| == rank
  {
    seq(rank, _ => 0.0)
  }

  function Add(a: Vector, b: Vector): (r: Vector)
    requires |a| == |b|
    ensures |r| == |a| && forall c | 0 <= c < |a| :: r[c] == a[c] + b[c]
  {
    seq(|a|, c requires 0 <= c < |a| => a[c] + b[c])
  }

  function Scale(k: real, a: Vector): (r: Vector)
    ensures |r| == |a| && forall c | 0 <= c < |a| :: r[c] == k * a[c]
  {
    seq(|a|, c requires 0 <= c < |a| => k * a[c])
  }

  function Minus(a: Vector, b: Vector): (r: Vector)
    requires |a| == |b|
    ensures |r| == |a| && forall c | 0 <= c < |a| :: r[c] == a[c] - b[c]
  {
    seq(|a|, c requires 0 <= c < |a| => a[c] - b[c])
  }

  function Dot(a: Vector, b: Vector): real
    requires |a| == |b|
  {
    if a == [] then 0.0 else a[0] * b[0] + Dot(a[1..], b[1..])
  }

  lemma {:induction false} DotZero(a: Vector)
    ensures Dot(a, Zero(|a|)) == 0.0
  {
    if a != [] {
      assert Zero(|a|)[1..] == Zero(|a| - 1);
      DotZero(a[1..]);
    }
  }

  lemma {:induction false} AddAssociative(a: Vector, b: Vector, c: Vector)
    requires |a| == |b| == |c|
    ensures Add(a, Add(b, c)) == Add(Add(a, b), c)
  {
  }

  lemma {:induction false} AddOnceMore(v: Vector, h: Vector, s: Vector, m: real)
    requires |v| == |h| == |s|
    ensures Add(Add(v, h), Add(s, Scale(m, h))) == Add(Add(v, s), Scale(1.0 + m, h))
  {
    forall c | 0 <= c < |v| ensures (1.0 + m) * h[c] == h[c] + m * h[c] {
      Distribute(1.0, m, h[c]);
    }
  }

  lemma {:induction false} DotSymmetric(a: Vector, b: Vector)
    requires |a| == |b|
    ensures Dot(a, b) == Dot(b, a)
  {
    if a != [] { DotSymmetric(a[1..], b[1..]); }
  }

  lemma {:induction false} DotAdd(a: Vector, b: Vector, c: Vector)
    requires |a| == |b| == |c|
    ensures Dot(a, Add(b, c)) == Dot(a, b) + Dot(a, c)
  {
    if a != [] {
      assert Add(b, c)[1..] == Add(b[1..], c[1..]);
      DotAdd(a[1..], b[1..], c[1..]);
      Distribute(b[0], c[0], a[0]);
    }
  }

  lemma {:induction false} DotMinus(a: Vector, b: Vector, c: Vector)
    requires |a| == |b| == |c|
    ensures Dot(a, Minus(b, c)) == Dot(a, b) - Dot(a, c)
  {
    if a != [] {
      assert Minus(b, c)[1..] == Minus(b[1..], c[1..]);
      DotMinus(a[1..], b[1..], c[1..]);
      Distribute(b[0], c[0], a[0]);
    }
  }

  lemma {:induction false} ScaleTail(k: real, a: Vector)
    requires a != []
    ensures Scale(k, a)[1..] == Scale(k, a[1..])
  {
    var s, t := Scale(k, a)[1..], Scale(k, a[1..]);
    forall c | 0 <= c < |t| ensures s[c] == t[c] {
      assert a[1..][c] == a[c + 1];
    }
  }

  lemma {:induction false} DotScale(a: Vector, k: real, b: Vector)
    requires |a| == |b|
    ensures Dot(a, Scale(k, b)) == k * Dot(a, b)
  {
    if a != [] {
      ScaleTail(k, b);
      DotScale(a[1..], k, b[1..]);
      Distribute(a[0] * b[0], Dot(a[1..], b[1..]), k);
      ThreeFactors(a[0], k, b[0]);
    } else {
      ThreeFactors(0.0, k, 0.0);
    }
  }

  lemma {:induction false} ThreeFactors(a: real, k: real, b: real)
    ensures a * (k * b) == k * (a * b)
  {
  }

  /** The square of a sum of two vectors. */
  lemma {:induction false} SquareOfSum(a: Vector, b: Vector)
    requires |a| == |b|
    ensures Dot(Add(a, b), Add(a, b)) == Dot(a, a) + 2.0 * Dot(a, b) + Dot(b, b)
  {
    DotAdd(Add(a, b), a, b);
    DotSymmetric(Add(a, b), a);
    DotSymmetric(Add(a, b), b);
    DotAdd(a, a, b);
    DotAdd(b, a, b);
    DotSymmetric(a, b);
  }

  /** The first unit vector. */
  function Unit(rank: nat): (r: Vector)
    requires rank > 0
    ensures |r| == rank
  {
    [1.0] + Zero(rank - 1)
  }

  lemma {:induction false} UnitSquare(rank: nat)
    requires rank > 0
    ensures Dot(Unit(rank), Unit(rank)) == 1.0
  {
    assert Unit(rank)[1..] == Zero(rank - 1);
    DotZero(Zero(rank - 1));
  }
}
