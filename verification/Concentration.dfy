/** slices.py, `gain_concentration`: the share of all movement carried by the largest deltas. */
module Concentration {
  import opened Reals
  import opened Results
  import opened Rounding
  import opened Sums
  import opened Sorting

  function Magnitude(): real -> real { (x: real) => Abs(x) }

  function Magnitudes(deltas: seq<real>): seq<real> { Map(deltas, Magnitude()) }

  function Movement(deltas: seq<real>): real { Sum(deltas, Magnitude()) }

  /** How many deltas count as the largest. */
  function Count(n: nat, fraction: real): int {
    var c := Ceiling(n as real * fraction);
    if c < 1 then 1 else c
  }

  function Largest(deltas: seq<real>): seq<real> { SortBy(Magnitudes(deltas), Descending()) }

  /** `gain_concentration`. */
  function GainConcentration(deltas: seq<real>, fraction: real): (r: Result<real>)
    ensures r.Ok? <==> deltas != [] && 0.0 < fraction <= 1.0
  {
    if deltas == [] || !(0.0 < fraction <= 1.0) then Err(BadFraction)
    else
      var magnitudes := Largest(deltas);
      var total := Sum(magnitudes, Identity());
      if total == 0.0 then Ok(0.0)
      else
        CountRange(|deltas|, fraction);
        Ok(Sum(magnitudes[..Count(|deltas|, fraction)], Identity()) / total)
  }

  /** The count is the least positive integer that is not below that fraction of n. */
  lemma {:induction false} CountRange(n: nat, fraction: real)
    requires n > 0 && 0.0 < fraction <= 1.0
    ensures 1 <= Count(n, fraction) <= n
    ensures n as real * fraction <= Count(n, fraction) as real
    ensures Count(n, fraction) == 1 || (Count(n, fraction) - 1) as real < n as real * fraction
  {
    MulMonotone(fraction, 1.0, n as real);
    MulLess(0.0, fraction, n as real);
    assert n as real * fraction == fraction * n as real;
    var x := n as real * fraction;
    assert (-x).Floor as real <= -x < (-x).Floor as real + 1.0;
  }

  // ----- The largest, as a list -----

  lemma {:induction false} LargestFacts(deltas: seq<real>)
    ensures |Largest(deltas)| == |deltas| && Sorted(Largest(deltas), Descending())
    ensures forall x | x in Largest(deltas) :: x >= 0.0
    ensures forall i | 0 <= i < |deltas| :: Largest(deltas)[i] >= 0.0
    ensures Sum(Largest(deltas), Identity()) == Movement(deltas)
  {
    hide Sum;
    var m := Magnitudes(deltas);
    SortSorted(m, Descending());
    SumPermutation(Largest(deltas), m, Identity());
    SumMap(deltas, Magnitude(), Identity(), Magnitude());
    forall x | x in Largest(deltas) ensures x >= 0.0 {
      assert x in m;
      var i :| 0 <= i < |m| && m[i] == x;
      assert m[i] == Magnitude()(deltas[i]);
    }
    forall i | 0 <= i < |deltas| ensures Largest(deltas)[i] >= 0.0 {
      assert Largest(deltas)[i] in Largest(deltas);
    }
  }

  function Excess(t: real): real -> real { (x: real) => if x > t then x - t else 0.0 }

  function ExcessMagnitude(t: real): real -> real { (x: real) => if Abs(x) > t then Abs(x) - t else 0.0 }

  /** The head of a descending list is everything above its last element, plus that element repeated. */
  lemma {:induction false} HeadSum(m: seq<real>, count: nat)
    requires 0 < count <= |m| && Sorted(m, Descending())
    ensures Sum(m[..count], Identity()) == Sum(m, Excess(m[count - 1])) + count as real * m[count - 1]
  {
    hide Sum;
    var t, head, tail := m[count - 1], m[..count], m[count..];
    assert m == head + tail;
    SumAppend(head, tail, Excess(t));
    forall x | x in tail ensures Excess(t)(x) == 0.0 {
      var j :| 0 <= j < |tail| && tail[j] == x;
      assert Descending()(m[count - 1], m[count + j]);
    }
    SumConst(tail, Excess(t), 0.0);
    var level := (x: real) => t;
    forall x | x in head ensures Identity()(x) == 1.0 * Excess(t)(x) + 1.0 * level(x) {
      var j :| 0 <= j < |head| && head[j] == x;
      assert j < count - 1 ==> Descending()(m[j], m[count - 1]);
    }
    SumLinear(head, Excess(t), 1.0, level, 1.0, Identity());
    SumConst(head, level, t);
  }

  // ----- Any subset of the chosen size -----

  function Size(chosen: seq<bool>): nat {
    if chosen == [] then 0 else (if chosen[0] then 1 else 0) + Size(chosen[1..])
  }

  /** The movement carried by a subset of the deltas. */
  function Carried(deltas: seq<real>, chosen: seq<bool>): real
    requires |deltas| == |chosen|
  {
    if deltas == [] then 0.0 else (if chosen[0] then Abs(deltas[0]) else 0.0) + Carried(deltas[1..], chosen[1..])
  }

  /** `t` once for every chosen place. */
  function Base(chosen: seq<bool>, t: real): real {
    if chosen == [] then 0.0 else (if chosen[0] then t else 0.0) + Base(chosen[1..], t)
  }

  lemma {:induction false} BaseIsProduct(chosen: seq<bool>, t: real)
    ensures Base(chosen, t) == Size(chosen) as real * t
  {
    if chosen != [] {
      BaseIsProduct(chosen[1..], t);
      Distribute(1.0, Size(chosen[1..]) as real, t);
    }
  }

  lemma {:induction false} CarriedBound(deltas: seq<real>, chosen: seq<bool>, t: real)
    requires |deltas| == |chosen|
    ensures Carried(deltas, chosen) <= Sum(deltas, ExcessMagnitude(t)) + Base(chosen, t)
  {
    if deltas != [] { CarriedBound(deltas[1..], chosen[1..], t); }
  }

  /** The deltas above `t`, and the first `ties` of those equal to it. */
  function Pick(deltas: seq<real>, t: real, ties: nat): (chosen: seq<bool>)
    ensures |chosen| == |deltas|
  {
    if deltas == [] then []
    else if Abs(deltas[0]) == t && ties > 0 then [true] + Pick(deltas[1..], t, ties - 1)
    else [Abs(deltas[0]) > t] + Pick(deltas[1..], t, ties)
  }

  function Over(t: real): real -> bool { (x: real) => x > t }

  function Exactly(t: real): real -> bool { (x: real) => x == t }

  lemma {:induction false} PickAttains(deltas: seq<real>, t: real, ties: nat)
    requires ties <= |Filter(Magnitudes(deltas), Exactly(t))|
    ensures var chosen := Pick(deltas, t, ties);
      && Size(chosen) == |Filter(Magnitudes(deltas), Over(t))| + ties
      && Carried(deltas, chosen) == Sum(deltas, ExcessMagnitude(t)) + Base(chosen, t)
    decreases |deltas|
  {
    if deltas != [] {
      var v, rest := Abs(deltas[0]), deltas[1..];
      assert Magnitudes(deltas) == [v] + Magnitudes(rest);
      FilterCons(v, Magnitudes(rest), Over(t));
      FilterCons(v, Magnitudes(rest), Exactly(t));
      var ties' := if v == t && ties > 0 then ties - 1 else ties;
      PickAttains(rest, t, ties');
      var chosen := Pick(deltas, t, ties);
      assert chosen[1..] == Pick(rest, t, ties');
    }
  }

  /** In a descending list, fewer than `count` elements exceed the one in place `count`, and at
      least `count` reach it. */
  lemma {:induction false} Threshold(m: seq<real>, count: nat)
    requires 0 < count <= |m| && Sorted(m, Descending())
    ensures var t := m[count - 1];
      |Filter(m, Over(t))| <= count <= |Filter(m, Over(t))| + |Filter(m, Exactly(t))|
  {
    hide Filter;
    var t, head, tail := m[count - 1], m[..count], m[count..];
    assert m == head + tail;
    FilterAppend(head, tail, Over(t));
    FilterAppend(head, tail, Exactly(t));
    forall x | x in tail ensures !Over(t)(x) {
      var j :| 0 <= j < |tail| && tail[j] == x;
      assert Descending()(m[count - 1], m[count + j]);
    }
    FilterNone(tail, Over(t));
    forall x | x in head ensures Over(t)(x) || Exactly(t)(x) {
      var j :| 0 <= j < |head| && head[j] == x;
      assert j < count - 1 ==> Descending()(m[j], m[count - 1]);
    }
    TwoParts(head, Over(t), Exactly(t));
  }

  lemma {:induction false} TwoParts<T>(s: seq<T>, p: T -> bool, q: T -> bool)
    requires forall x | x in s :: p(x) != q(x)
    ensures |Filter(s, p)| + |Filter(s, q)| == |s|
  {
    if s != [] { TwoParts(s[1..], p, q); }
  }

  lemma {:induction false} HeadIsThreshold(deltas: seq<real>, count: nat)
    requires 0 < count <= |deltas|
    ensures var t := Largest(deltas)[count - 1];
      Sum(Largest(deltas)[..count], Identity()) == Sum(deltas, ExcessMagnitude(t)) + count as real * t
  {
    hide Sum;
    hide SortBy;
    var m := Largest(deltas);
    var t := m[count - 1];
    LargestFacts(deltas);
    HeadSum(m, count);
    SumPermutation(m, Magnitudes(deltas), Excess(t));
    SumMap(deltas, Magnitude(), Excess(t), ExcessMagnitude(t));
  }

  ghost predicate Choice(deltas: seq<real>, count: nat, chosen: seq<bool>) {
    |chosen| == |deltas| && Size(chosen) == count
  }

  /** The head of the sorted magnitudes carries as much as any subset of its size, and as much as
      some subset of its size. */
  lemma {:induction false} HeadIsMaximal(deltas: seq<real>, count: nat)
    requires 0 < count <= |deltas|
    ensures forall chosen | Choice(deltas, count, chosen) ::
      Carried(deltas, chosen) <= Sum(Largest(deltas)[..count], Identity())
    ensures exists chosen :: (Choice(deltas, count, chosen) &&
      Carried(deltas, chosen) == Sum(Largest(deltas)[..count], Identity()))
  {
    hide Sum;
    hide Carried;
    hide Size;
    hide Largest;
    LargestFacts(deltas);
    var t := Largest(deltas)[count - 1];
    HeadIsThreshold(deltas, count);
    forall chosen | Choice(deltas, count, chosen)
      ensures Carried(deltas, chosen) <= Sum(Largest(deltas)[..count], Identity())
    {
      CarriedBound(deltas, chosen, t);
      BaseIsProduct(chosen, t);
    }
    var chosen := HeadAttained(deltas, count);
  }

  lemma {:induction false} HeadAttained(deltas: seq<real>, count: nat) returns (chosen: seq<bool>)
    requires 0 < count <= |deltas|
    ensures Choice(deltas, count, chosen)
    ensures Carried(deltas, chosen) == Sum(Largest(deltas)[..count], Identity())
  {
    hide *;
    var t, over := TopCounts(deltas, count);
    HeadIsThreshold(deltas, count);
    PickAttains(deltas, t, count - over);
    chosen := Pick(deltas, t, count - over);
    BaseIsProduct(chosen, t);
    assert Choice(deltas, count, chosen) by { ChoiceIs(deltas, count, chosen); }
  }

  lemma {:induction false} ChoiceIs(deltas: seq<real>, count: nat, chosen: seq<bool>)
    requires |chosen| == |deltas| && Size(chosen) == count
    ensures Choice(deltas, count, chosen)
  {
  }

  lemma {:induction false} TopCounts(deltas: seq<real>, count: nat) returns (t: real, over: nat)
    requires 0 < count <= |deltas|
    ensures |Largest(deltas)| == |deltas| && t == Largest(deltas)[count - 1]
    ensures over == |Filter(Magnitudes(deltas), Over(t))|
    ensures over <= count <= over + |Filter(Magnitudes(deltas), Exactly(t))|
  {
    hide Filter;
    hide SortBy;
    var m := Largest(deltas);
    t, over := m[count - 1], |Filter(m, Over(m[count - 1]))|;
    LargestFacts(deltas);
    Threshold(m, count);
    FilterPermutation(m, Magnitudes(deltas), Over(t));
    FilterPermutation(m, Magnitudes(deltas), Exactly(t));
  }

  // ----- What the share satisfies -----

  ghost predicate Valid(deltas: seq<real>, fraction: real) { deltas != [] && 0.0 < fraction <= 1.0 }

  function Share(deltas: seq<real>, fraction: real): real
    requires deltas != [] && 0.0 < fraction <= 1.0
  {
    GainConcentration(deltas, fraction).value
  }

  /** The share times all movement is the movement of the head. */
  lemma {:induction false} ShareOfMovement(deltas: seq<real>, fraction: real)
    requires Valid(deltas, fraction)
    ensures 1 <= Count(|deltas|, fraction) <= |deltas|
    ensures Share(deltas, fraction) * Movement(deltas) == Sum(Largest(deltas)[..Count(|deltas|, fraction)], Identity())
    ensures Movement(deltas) == 0.0 ==> Share(deltas, fraction) == 0.0
  {
    hide Sum;
    hide Largest;
    var count, m := Count(|deltas|, fraction), Largest(deltas);
    CountRange(|deltas|, fraction);
    LargestFacts(deltas);
    HeadRange(m, count);
    if Movement(deltas) != 0.0 {
      DivisionScale(Sum(m[..count], Identity()), Movement(deltas));
    }
  }

  lemma {:induction false} HeadRange(m: seq<real>, count: nat)
    requires count <= |m| && forall i | 0 <= i < |m| :: m[i] >= 0.0
    ensures 0.0 <= Sum(m[..count], Identity()) <= Sum(m, Identity())
  {
    hide Sum;
    var head, tail := m[..count], m[count..];
    assert m == head + tail;
    SumAppend(head, tail, Identity());
    NonNegative(head);
    NonNegative(tail);
  }

  lemma {:induction false} NonNegative(s: seq<real>)
    requires forall i | 0 <= i < |s| :: s[i] >= 0.0
    ensures Sum(s, Identity()) >= 0.0
  {
    if s != [] { NonNegative(s[1..]); }
  }

  /** `gain_concentration` is the largest share any subset of the chosen size carries. */
  lemma {:induction false} ShareIsMaximal(deltas: seq<real>, fraction: real)
    requires Valid(deltas, fraction)
    ensures var count := Count(|deltas|, fraction);
      && (forall chosen | Choice(deltas, count, chosen) ::
            Carried(deltas, chosen) <= Share(deltas, fraction) * Movement(deltas))
      && (exists chosen :: (Choice(deltas, count, chosen) &&
            Carried(deltas, chosen) == Share(deltas, fraction) * Movement(deltas)))
  {
    hide Share;
    hide Largest;
    hide Carried;
    hide Movement;
    hide Choice;
    ShareOfMovement(deltas, fraction);
    HeadIsMaximal(deltas, Count(|deltas|, fraction));
  }

  /** It is a proportion, at least that of an even spread whenever anything moved. */
  lemma {:induction false} ShareRange(deltas: seq<real>, fraction: real)
    requires Valid(deltas, fraction)
    ensures 0.0 <= Share(deltas, fraction) <= 1.0
    ensures Movement(deltas) != 0.0 ==>
      Share(deltas, fraction) * |deltas| as real >= Count(|deltas|, fraction) as real
  {
    hide Sum;
    hide Largest;
    var count, m := Count(|deltas|, fraction), Largest(deltas);
    ShareOfMovement(deltas, fraction);
    LargestFacts(deltas);
    HeadRange(m, count);
    HeadRange(m, 0);
    if Movement(deltas) != 0.0 {
      DivisionRange(Sum(m[..count], Identity()), Movement(deltas));
      EvenSpread(m, count);
      QuotientAtLeast(Sum(m[..count], Identity()), Movement(deltas), count as real, |deltas| as real);
    }
  }

  lemma {:induction false} QuotientAtLeast(x: real, y: real, c: real, n: real)
    requires y > 0.0 && x * n >= c * y
    ensures x / y * n >= c
  {
    var q := x / y;
    DivisionScale(x, y);
    assert q * n * y == q * y * n;
    if q * n < c { MulLess(q * n, c, y); }
  }

  /** The head is on average at least as large as the whole. */
  lemma {:induction false} EvenSpread(m: seq<real>, count: nat)
    requires 0 < count <= |m| && Sorted(m, Descending())
    ensures Sum(m[..count], Identity()) * |m| as real >= count as real * Sum(m, Identity())
  {
    hide Sum;
    var t, head, tail := m[count - 1], m[..count], m[count..];
    assert m == head + tail;
    SumAppend(head, tail, Identity());
    var level := (x: real) => t;
    forall x | x in head ensures level(x) <= Identity()(x) {
      var j :| 0 <= j < |head| && head[j] == x;
      assert j < count - 1 ==> Descending()(m[j], m[count - 1]);
    }
    forall x | x in tail ensures Identity()(x) <= level(x) {
      var j :| 0 <= j < |tail| && tail[j] == x;
      assert Descending()(m[count - 1], m[count + j]);
    }
    SumMonotone(head, level, Identity());
    SumMonotone(tail, Identity(), level);
    SumConst(head, level, t);
    SumConst(tail, level, t);
    Averages(Sum(head, Identity()), Sum(tail, Identity()), count as real, |tail| as real, t);
  }

  lemma {:induction false} Averages(h: real, r: real, c: real, k: real, t: real)
    requires c >= 0.0 && k >= 0.0 && h >= c * t && r <= k * t
    ensures h * (c + k) >= c * (h + r)
  {
    MulMonotone(c * t, h, k);
    MulMonotone(r, k * t, c);
    assert c * t * k == k * t * c;
    assert h * (c + k) == h * c + h * k;
    assert c * (h + r) == h * c + r * c;
  }

  /** A larger fraction never has a smaller share. */
  lemma {:induction false} ShareMonotone(deltas: seq<real>, small: real, large: real)
    requires Valid(deltas, small) && Valid(deltas, large) && small <= large
    ensures Share(deltas, small) <= Share(deltas, large)
  {
    hide Sum;
    hide Largest;
    var a, b, m := Count(|deltas|, small), Count(|deltas|, large), Largest(deltas);
    CountMonotone(|deltas|, small, large);
    ShareOfMovement(deltas, small);
    ShareOfMovement(deltas, large);
    LargestFacts(deltas);
    if Movement(deltas) != 0.0 {
      HeadRange(m, 0);
      HeadRange(m[..b], a);
      assert m[..b][..a] == m[..a];
      HeadRange(m, b);
      DivisionOrder(Sum(m[..a], Identity()), Sum(m[..b], Identity()), Movement(deltas));
    }
  }

  lemma {:induction false} CountMonotone(n: nat, small: real, large: real)
    requires small <= large
    ensures Count(n, small) <= Count(n, large)
  {
    MulMonotone(small, large, n as real);
    var x, y := n as real * small, n as real * large;
    assert x == small * n as real && y == large * n as real;
    assert (-y).Floor <= (-x).Floor;
  }

  /** The order in which users are listed is irrelevant. */
  lemma {:induction false} SharePermutation(a: seq<real>, b: seq<real>, fraction: real)
    requires multiset(a) == multiset(b)
    ensures GainConcentration(a, fraction) == GainConcentration(b, fraction)
  {
    SameElements(a, b);
    SameMagnitudes(a, b);
    LargestFacts(a);
    LargestFacts(b);
    DescendingUnique(Largest(a), Largest(b));
  }

  lemma {:induction false} SameMagnitudes(a: seq<real>, b: seq<real>)
    requires multiset(a) == multiset(b)
    ensures multiset(Magnitudes(a)) == multiset(Magnitudes(b))
  {
    if a == [] {
      assert |multiset(b)| == |multiset(a)| == 0;
    } else {
      assert a[0] in multiset(a);
      var k :| 0 <= k < |b| && b[k] == a[0];
      RemoveAt(a, 0);
      RemoveAt(b, k);
      SameMagnitudes(Without(a, 0), Without(b, k));
      MagnitudesWithout(a, 0);
      MagnitudesWithout(b, k);
    }
  }

  lemma {:induction false} MagnitudesWithout(s: seq<real>, k: nat)
    requires k < |s|
    ensures multiset(Magnitudes(s)) == multiset(Magnitudes(Without(s, k))) + multiset{Abs(s[k])}
  {
    var m := Magnitudes(s);
    assert Magnitudes(Without(s, k)) == Without(m, k);
    RemoveAt(m, k);
    assert m[k] in multiset(m);
  }
}
