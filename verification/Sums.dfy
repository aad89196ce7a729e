/** Finite sums over sequences, and the three identities the evaluation kernel rests on:
    a sum may be taken group by group, a square of a sum splits into a diagonal and pairs,
    and a product of sums is a sum over all pairs. */
module Sums {
  import opened Reals

  function Sum<T>(s: seq<T>, f: T -> real): real {
    if s == [] then 0.0 else f(s[0]) + Sum(s[1..], f)
  }

  function Map<T, U>(s: seq<T>, f: T -> U): (r: seq<U>)
    ensures |r| == |s| && forall i | 0 <= i < |s| :: r[i] == f(s[i])
  {
    seq(|s|, i requires 0 <= i < |s| => f(s[i]))
  }

  function Indices(n: nat): (r: seq<int>)
    ensures |r| == n && forall i | 0 <= i < n :: r[i] == i
  {
    seq(n, i requires 0 <= i < n => i)
  }

  function Zip<T, U>(a: seq<T>, b: seq<U>): (r: seq<(T, U)>)
    requires |a| == |b|
    ensures |r| == |a| && forall i | 0 <= i < |a| :: r[i] == (a[i], b[i])
  {
    seq(|a|, i requires 0 <= i < |a| => (a[i], b[i]))
  }

  function Filter<T>(s: seq<T>, p: T -> bool): (r: seq<T>)
    ensures forall x | x in r :: x in s && p(x)
    ensures forall x | x in s && p(x) :: x in r
  {
    if s == [] then [] else (if p(s[0]) then [s[0]] else []) + Filter(s[1..], p)
  }

  function Abs(x: real): real { if x < 0.0 then -x else x }

  function Identity(): real -> real { (x: real) => x }

  /** The elements of `s` without repetition, in order of first occurrence:
      the key order of a Python dict filled from `s`. */
  function FirstSeen<T(==)>(s: seq<T>): (r: seq<T>)
    ensures Distinct(r)
    ensures forall x | x in r :: x in s
    ensures forall x | x in s :: x in r
  {
    if s == [] then [] else
      var init, last := FirstSeen(s[..|s| - 1]), s[|s| - 1];
      assert s == s[..|s| - 1] + [last];
      if last in init then init else init + [last]
  }

  ghost predicate Distinct<T>(s: seq<T>) {
    forall i, j | 0 <= i < j < |s| :: s[i] != s[j]
  }

  // ----- One sum -----

  lemma {:induction false} SumAppend<T>(a: seq<T>, b: seq<T>, f: T -> real)
    ensures Sum(a + b, f) == Sum(a, f) + Sum(b, f)
  {
    if a == [] {
      assert a + b == b;
    } else {
      assert (a + b)[1..] == a[1..] + b;
      SumAppend(a[1..], b, f);
    }
  }

  lemma {:induction false} PrefixSums<T>(s: seq<T>, i: nat, f: T -> real)
    requires i <= |s|
    ensures Sum(s[..i], f) == if i == 0 then 0.0 else Sum(s[..i - 1], f) + f(s[i - 1])
  {
    if i != 0 {
      assert s[..i] == s[..i - 1] + [s[i - 1]];
      SumAppend(s[..i - 1], [s[i - 1]], f);
    }
  }

  lemma {:induction false} SumExt<T>(s: seq<T>, f: T -> real, g: T -> real)
    requires forall x | x in s :: f(x) == g(x)
    ensures Sum(s, f) == Sum(s, g)
  {
    if s != [] { SumExt(s[1..], f, g); }
  }

  lemma {:induction false} SumMonotone<T>(s: seq<T>, f: T -> real, g: T -> real)
    requires forall x | x in s :: f(x) <= g(x)
    ensures Sum(s, f) <= Sum(s, g)
  {
    if s != [] { SumMonotone(s[1..], f, g); }
  }

  lemma {:induction false} SumLinear<T>(s: seq<T>, f: T -> real, a: real, g: T -> real, b: real, h: T -> real)
    requires forall x | x in s :: h(x) == a * f(x) + b * g(x)
    ensures Sum(s, h) == a * Sum(s, f) + b * Sum(s, g)
  {
    if s != [] {
      SumLinear(s[1..], f, a, g, b, h);
      var x, F, G := s[0], Sum(s[1..], f), Sum(s[1..], g);
      assert a * (f(x) + F) == a * f(x) + a * F;
      assert b * (g(x) + G) == b * g(x) + b * G;
    }
  }

  lemma {:induction false} SumConst<T>(s: seq<T>, f: T -> real, c: real)
    requires forall x | x in s :: f(x) == c
    ensures Sum(s, f) == |s| as real * c
  {
    if s != [] {
      SumConst(s[1..], f, c);
      assert |s| as real * c == (|s| - 1) as real * c + c;
    }
  }

  lemma {:induction false} SumNonNegative<T>(s: seq<T>, f: T -> real)
    requires forall x | x in s :: f(x) >= 0.0
    ensures Sum(s, f) >= 0.0
    ensures forall x | x in s :: f(x) <= Sum(s, f)
  {
    if s != [] { SumNonNegative(s[1..], f); }
  }

  lemma {:induction false} SumSingle<T>(s: seq<T>, i: nat, f: T -> real)
    requires i < |s|
    requires forall j | 0 <= j < |s| && j != i :: f(s[j]) == 0.0
    ensures Sum(s, f) == f(s[i])
  {
    if i == 0 {
      forall x | x in s[1..] ensures f(x) == 0.0 {
        var j :| 0 <= j < |s| - 1 && s[1..][j] == x;
        assert f(s[j + 1]) == 0.0;
      }
      SumConst(s[1..], f, 0.0);
    } else {
      SumSingle(s[1..], i - 1, f);
    }
  }

  lemma {:induction false} SumDifference<T>(s: seq<T>, f: T -> real, g: T -> real, bound: T -> real)
    requires forall x | x in s :: Abs(f(x) - g(x)) <= bound(x)
    ensures Abs(Sum(s, f) - Sum(s, g)) <= Sum(s, bound)
  {
    if s != [] { SumDifference(s[1..], f, g, bound); }
  }

  lemma {:induction false} SumMap<T, U>(s: seq<T>, m: T -> U, f: U -> real, g: T -> real)
    requires forall x | x in s :: g(x) == f(m(x))
    ensures Sum(Map(s, m), f) == Sum(s, g)
  {
    if s != [] {
      assert Map(s, m)[1..] == Map(s[1..], m);
      SumMap(s[1..], m, f, g);
    }
  }

  lemma {:induction false} SumFilter<T>(s: seq<T>, p: T -> bool, f: T -> real, g: T -> real)
    requires forall x | x in s :: g(x) == if p(x) then f(x) else 0.0
    ensures Sum(Filter(s, p), f) == Sum(s, g)
  {
    if s != [] {
      SumFilter(s[1..], p, f, g);
      SumAppend(if p(s[0]) then [s[0]] else [], Filter(s[1..], p), f);
    }
  }

  lemma {:induction false} SumPermutation<T>(a: seq<T>, b: seq<T>, f: T -> real)
    requires multiset(a) == multiset(b)
    ensures Sum(a, f) == Sum(b, f)
  {
    if a == [] {
      assert |multiset(b)| == |multiset(a)| == 0;
    } else {
      assert a[0] in multiset(a);
      var k :| 0 <= k < |b| && b[k] == a[0];
      RemoveAt(a, 0);
      RemoveAt(b, k);
      SumPermutation(Without(a, 0), Without(b, k), f);
      SumWithout(a, 0, f);
      SumWithout(b, k, f);
    }
  }

  lemma {:induction false} SumWithout<T>(s: seq<T>, k: nat, f: T -> real)
    requires k < |s|
    ensures Sum(s, f) == f(s[k]) + Sum(Without(s, k), f)
  {
    SumAppend(s[..k], s[k + 1..], f);
    SumAppend(s[..k], [s[k]] + s[k + 1..], f);
    assert s == s[..k] + ([s[k]] + s[k + 1..]);
  }

  function Without<T>(s: seq<T>, k: nat): seq<T>
    requires k < |s|
  {
    s[..k] + s[k + 1..]
  }

  lemma {:induction false} RemoveAt<T>(s: seq<T>, k: nat)
    requires k < |s|
    ensures multiset(Without(s, k)) == multiset(s) - multiset{s[k]}
  {
    assert s == s[..k] + ([s[k]] + s[k + 1..]);
  }

  // ----- Filtering and mapping -----

  lemma {:induction false} FilterAppend<T>(a: seq<T>, b: seq<T>, p: T -> bool)
    ensures Filter(a + b, p) == Filter(a, p) + Filter(b, p)
  {
    if a == [] {
      assert a + b == b;
    } else {
      assert (a + b)[1..] == a[1..] + b;
      FilterAppend(a[1..], b, p);
    }
  }

  lemma {:induction false} FilterCons<T>(x: T, s: seq<T>, p: T -> bool)
    ensures Filter([x] + s, p) == (if p(x) then [x] else []) + Filter(s, p)
  {
    assert ([x] + s)[1..] == s;
  }

  lemma {:induction false} FilterAll<T>(s: seq<T>, p: T -> bool)
    requires forall x | x in s :: p(x)
    ensures Filter(s, p) == s
  {
    if s != [] { FilterAll(s[1..], p); }
  }

  lemma {:induction false} FilterNone<T>(s: seq<T>, p: T -> bool)
    requires forall x | x in s :: !p(x)
    ensures Filter(s, p) == []
  {
    if s != [] { FilterNone(s[1..], p); }
  }

  lemma {:induction false} FilterFilter<T>(s: seq<T>, p: T -> bool, q: T -> bool, r: T -> bool)
    requires forall x | x in s :: r(x) <==> p(x) && q(x)
    ensures Filter(Filter(s, p), q) == Filter(s, r)
  {
    if s != [] {
      FilterFilter(s[1..], p, q, r);
      FilterAppend(if p(s[0]) then [s[0]] else [], Filter(s[1..], p), q);
    }
  }

  lemma {:induction false} FilterMap<T, U>(s: seq<T>, m: T -> U, p: U -> bool, q: T -> bool)
    requires forall x | x in s :: q(x) <==> p(m(x))
    ensures Filter(Map(s, m), p) == Map(Filter(s, q), m)
  {
    if s != [] {
      assert Map(s, m)[1..] == Map(s[1..], m);
      FilterMap(s[1..], m, p, q);
    }
  }

  lemma {:induction false} FilterPermutation<T>(a: seq<T>, b: seq<T>, p: T -> bool)
    requires multiset(a) == multiset(b)
    ensures |Filter(a, p)| == |Filter(b, p)|
  {
    var one := (x: T) => if p(x) then 1.0 else 0.0;
    SumPermutation(a, b, one);
    FilterCount(a, p, one);
    FilterCount(b, p, one);
  }

  lemma {:induction false} FilterCount<T>(s: seq<T>, p: T -> bool, one: T -> real)
    requires forall x | x in s :: one(x) == if p(x) then 1.0 else 0.0
    ensures |Filter(s, p)| as real == Sum(s, one)
  {
    if s != [] { FilterCount(s[1..], p, one); }
  }

  lemma {:induction false} MapMap<T, U, V>(s: seq<T>, f: T -> U, g: U -> V, h: T -> V)
    requires forall x | x in s :: h(x) == g(f(x))
    ensures Map(Map(s, f), g) == Map(s, h)
  {
  }

  lemma {:induction false} FirstSeenAppend<T>(s: seq<T>, x: T)
    ensures FirstSeen(s + [x]) == if x in s then FirstSeen(s) else FirstSeen(s) + [x]
  {
    assert (s + [x])[..|s|] == s;
  }

  lemma {:induction false} FirstSeenFilter<T, K>(s: seq<T>, key: T -> K, p: K -> bool, q: T -> bool)
    requires forall x | x in s :: q(x) <==> p(key(x))
    ensures FirstSeen(Map(Filter(s, q), key)) == Filter(FirstSeen(Map(s, key)), p)
  {
    if s != [] {
      var n := |s| - 1;
      var init, x := s[..n], s[n];
      assert s == init + [x];
      FirstSeenFilter(init, key, p, q);
      FirstSeenFilterStep(Map(init, key), Map(Filter(init, q), key), key(x), p);
      MapFilterStep(init, x, key, p, q);
    }
  }

  lemma {:induction false} MapFilterStep<T, K>(init: seq<T>, x: T, key: T -> K, p: K -> bool, q: T -> bool)
    requires q(x) <==> p(key(x))
    ensures Map(init + [x], key) == Map(init, key) + [key(x)]
    ensures Map(Filter(init + [x], q), key) == Map(Filter(init, q), key) + (if p(key(x)) then [key(x)] else [])
  {
    FilterAppend(init, [x], q);
    FilterCons(x, [], q);
    assert [x] + [] == [x] && [x][1..] == [];
  }

  lemma {:induction false} FirstSeenFilterStep<K>(all: seq<K>, some: seq<K>, k: K, p: K -> bool)
    requires FirstSeen(some) == Filter(FirstSeen(all), p)
    ensures FirstSeen(some + if p(k) then [k] else []) == Filter(FirstSeen(all + [k]), p)
  {
    FirstSeenAppend(all, k);
    FirstSeenAppend(some, k);
    SameMembers(all, k);
    SameMembers(some, k);
    FilterAppend(FirstSeen(all), [k], p);
    FilterCons(k, [], p);
    KeptMember(FirstSeen(all), p, k);
    hide *;
    assert some + [] == some;
    assert FirstSeen(some) + [] == FirstSeen(some);
    assert [k] + [] == [k];
  }

  lemma {:induction false} SameMembers<K>(s: seq<K>, k: K)
    ensures k in FirstSeen(s) <==> k in s
  {
  }

  lemma {:induction false} KeptMember<T>(s: seq<T>, p: T -> bool, x: T)
    ensures x in Filter(s, p) <==> x in s && p(x)
    ensures Filter([], p) == []
  {
  }

  // ----- Sums over pairs -----

  function From<T, U>(g: (T, U) -> real, x: T): U -> real { (y: U) => g(x, y) }

  function Into<T, U>(g: (T, U) -> real, y: U): T -> real { (x: T) => g(x, y) }

  /** The sum of `g` over all pairs of an element of `s` with an element of `t`. */
  function Pairs<T, U>(s: seq<T>, t: seq<U>, g: (T, U) -> real): real {
    if s == [] then 0.0 else Sum(t, From(g, s[0])) + Pairs(s[1..], t, g)
  }

  /** The sum of `g(s[i], s[j])` over `i < j`. */
  function Triangle<T>(s: seq<T>, g: (T, T) -> real): real {
    if s == [] then 0.0 else Sum(s[1..], From(g, s[0])) + Triangle(s[1..], g)
  }

  /** Taking the inner sums first. */
  lemma {:induction false} PairsRows<T, U>(s: seq<T>, t: seq<U>, g: (T, U) -> real, row: T -> real)
    requires forall x | x in s :: row(x) == Sum(t, From(g, x))
    ensures Pairs(s, t, g) == Sum(s, row)
  {
    if s != [] { PairsRows(s[1..], t, g, row); }
  }

  /** Taking the outer sums first. */
  lemma {:induction false} PairsColumns<T, U>(s: seq<T>, t: seq<U>, g: (T, U) -> real, column: U -> real)
    requires forall y | y in t :: column(y) == Sum(s, Into(g, y))
    ensures Pairs(s, t, g) == Sum(t, column)
  {
    if s == [] {
      SumConst(t, column, 0.0);
    } else {
      var rest := (y: U) => Sum(s[1..], Into(g, y));
      PairsColumns(s[1..], t, g, rest);
      forall y | y in t ensures column(y) == 1.0 * From(g, s[0])(y) + 1.0 * rest(y) {}
      SumLinear(t, From(g, s[0]), 1.0, rest, 1.0, column);
    }
  }

  lemma {:induction false} PairsProduct<T, U>(s: seq<T>, t: seq<U>, f: T -> real, h: U -> real, g: (T, U) -> real)
    requires forall x, y | x in s && y in t :: g(x, y) == f(x) * h(y)
    ensures Pairs(s, t, g) == Sum(s, f) * Sum(t, h)
  {
    if s != [] {
      PairsProduct(s[1..], t, f, h, g);
      SumLinear(t, h, f(s[0]), h, 0.0, From(g, s[0]));
      assert Sum(s, f) * Sum(t, h) == f(s[0]) * Sum(t, h) + Sum(s[1..], f) * Sum(t, h);
    }
  }

  lemma {:induction false} PairsLinear<T, U>(s: seq<T>, t: seq<U>, f: (T, U) -> real, a: real, g: (T, U) -> real,
                                              b: real, h: (T, U) -> real)
    requires forall x, y | x in s && y in t :: h(x, y) == a * f(x, y) + b * g(x, y)
    ensures Pairs(s, t, h) == a * Pairs(s, t, f) + b * Pairs(s, t, g)
  {
    hide Sum;
    if s != [] {
      PairsLinear(s[1..], t, f, a, g, b, h);
      var F, G := Sum(t, From(f, s[0])), Sum(t, From(g, s[0]));
      SumLinear(t, From(f, s[0]), a, From(g, s[0]), b, From(h, s[0]));
      var F', G' := Pairs(s[1..], t, f), Pairs(s[1..], t, g);
      assert a * (F + F') == a * F + a * F';
      assert b * (G + G') == b * G + b * G';
    }
  }

  lemma {:induction false} PairsMonotone<T, U>(s: seq<T>, t: seq<U>, f: (T, U) -> real, g: (T, U) -> real)
    requires forall x, y | x in s && y in t :: f(x, y) <= g(x, y)
    ensures Pairs(s, t, f) <= Pairs(s, t, g)
  {
    if s != [] {
      SumMonotone(t, From(f, s[0]), From(g, s[0]));
      PairsMonotone(s[1..], t, f, g);
    }
  }

  lemma {:induction false} PairsPermutation<T>(a: seq<T>, b: seq<T>, g: (T, T) -> real)
    requires multiset(a) == multiset(b)
    ensures Pairs(a, a, g) == Pairs(b, b, g)
  {
    var row, row' := (x: T) => Sum(a, From(g, x)), (x: T) => Sum(b, From(g, x));
    PairsRows(a, a, g, row);
    PairsRows(b, b, g, row');
    forall x | x in a ensures row(x) == row'(x) {
      SumPermutation(a, b, From(g, x));
    }
    SumExt(a, row, row');
    SumPermutation(a, b, row');
  }

  /** If a pair's two orders together make a product, all pairs together make half a square. */
  lemma {:induction false} PairsHalfSquare<T>(s: seq<T>, f: T -> real, g: (T, T) -> real)
    requires forall x, y | x in s && y in s :: g(x, y) + g(y, x) == f(x) * f(y)
    ensures 2.0 * Pairs(s, s, g) == Sum(s, f) * Sum(s, f)
  {
    var flipped := (x: T, y: T) => g(y, x);
    var both := (x: T, y: T) => f(x) * f(y);
    var row := (x: T) => Sum(s, From(g, x));
    PairsRows(s, s, g, row);
    forall x | x in s ensures row(x) == Sum(s, Into(flipped, x)) {
      SumExt(s, From(g, x), Into(flipped, x));
    }
    PairsColumns(s, s, flipped, row);
    PairsLinear(s, s, g, 1.0, flipped, 1.0, both);
    PairsProduct(s, s, f, f, both);
  }

  lemma {:induction false} TriangleMonotone<T>(s: seq<T>, f: (T, T) -> real, g: (T, T) -> real)
    requires forall x, y | x in s && y in s :: f(x, y) <= g(x, y)
    ensures Triangle(s, f) <= Triangle(s, g)
  {
    if s != [] {
      SumMonotone(s[1..], From(f, s[0]), From(g, s[0]));
      TriangleMonotone(s[1..], f, g);
    }
  }

  /** The number of pairs that can be drawn from `n` things. */
  function Choose2(n: nat): nat {
    if n == 0 then 0 else n - 1 + Choose2(n - 1)
  }

  lemma {:induction false} Choose2Closed(n: nat)
    ensures 2.0 * Choose2(n) as real == n as real * (n as real - 1.0)
  {
    if n != 0 {
      Choose2Closed(n - 1);
      var m := (n - 1) as real;
      assert (m + 1.0) * m == m * (m - 1.0) + 2.0 * m;
    }
  }

  lemma {:induction false} TriangleConst<T>(s: seq<T>, f: (T, T) -> real, c: real)
    requires forall x, y | x in s && y in s :: f(x, y) == c
    ensures Triangle(s, f) == Choose2(|s|) as real * c
  {
    hide Sum;
    if s != [] {
      var n := |s| - 1;
      TriangleConst(s[1..], f, c);
      SumConst(s[1..], From(f, s[0]), c);
      Distribute(n as real, Choose2(n) as real, c);
    }
  }

  /** The diagonal and the two triangles: all pairs of `s` with itself. */
  lemma {:induction false} PairsTriangle<T>(s: seq<T>, g: (T, T) -> real, diagonal: T -> real, both: (T, T) -> real)
    requires forall x | x in s :: diagonal(x) == g(x, x)
    requires forall x, y | x in s && y in s :: both(x, y) == g(x, y) + g(y, x)
    ensures Pairs(s, s, g) == Sum(s, diagonal) + Triangle(s, both)
  {
    if s != [] {
      var x, r := s[0], s[1..];
      PairsTriangle(r, g, diagonal, both);
      SumLinear(r, From(g, x), 1.0, Into(g, x), 1.0, From(both, x));
      PairsFirstColumn(r, s, g, Into(g, x));
    }
  }

  lemma {:induction false} PairsFirstColumn<T, U>(s: seq<T>, t: seq<U>, g: (T, U) -> real, column: T -> real)
    requires t != [] && forall x | x in s :: column(x) == g(x, t[0])
    ensures Pairs(s, t, g) == Sum(s, column) + Pairs(s, t[1..], g)
  {
    if s != [] { PairsFirstColumn(s[1..], t, g, column); }
  }

  lemma {:induction false} PairsMap<T, U>(s: seq<T>, t: seq<T>, m: T -> U, g: (U, U) -> real, h: (T, T) -> real)
    requires forall x, y | x in s && y in t :: h(x, y) == g(m(x), m(y))
    ensures Pairs(Map(s, m), Map(t, m), g) == Pairs(s, t, h)
  {
    if s != [] {
      assert Map(s, m)[1..] == Map(s[1..], m);
      PairsMap(s[1..], t, m, g, h);
      SumMap(t, m, From(g, m(s[0])), From(h, s[0]));
    }
  }

  lemma {:induction false} TriangleMap<T, U>(s: seq<T>, m: T -> U, g: (U, U) -> real, h: (T, T) -> real)
    requires forall x, y | x in s && y in s :: h(x, y) == g(m(x), m(y))
    ensures Triangle(Map(s, m), g) == Triangle(s, h)
  {
    if s != [] {
      assert Map(s, m)[1..] == Map(s[1..], m);
      TriangleMap(s[1..], m, g, h);
      SumMap(s[1..], m, From(g, m(s[0])), From(h, s[0]));
    }
  }

  /** A sum of non-negative pair terms vanishes exactly when every term does. */
  lemma {:induction false} TriangleZero<T>(s: seq<T>, g: (T, T) -> real)
    requires forall x, y | x in s && y in s :: g(x, y) >= 0.0
    ensures Triangle(s, g) >= 0.0
    ensures Triangle(s, g) == 0.0 <==> forall i, j | 0 <= i < j < |s| :: g(s[i], s[j]) == 0.0
  {
    if s != [] {
      var r := s[1..];
      TriangleZero(r, g);
      SumNonNegative(r, From(g, s[0]));
      if Triangle(s, g) == 0.0 {
        forall i, j | 0 <= i < j < |s| ensures g(s[i], s[j]) == 0.0 {
          if i == 0 {
            assert s[j] == r[j - 1] && From(g, s[0])(r[j - 1]) == g(s[0], s[j]);
          } else {
            assert s[i] == r[i - 1] && s[j] == r[j - 1];
          }
        }
      }
      if forall i, j | 0 <= i < j < |s| :: g(s[i], s[j]) == 0.0 {
        forall i, j | 0 <= i < j < |r| ensures g(r[i], r[j]) == 0.0 {
          assert g(s[i + 1], s[j + 1]) == 0.0;
        }
        forall y | y in r ensures From(g, s[0])(y) == 0.0 {
          var j :| 0 <= j < |r| && r[j] == y;
          assert g(s[0], s[j + 1]) == 0.0;
        }
        SumConst(r, From(g, s[0]), 0.0);
      }
    }
  }

  // ----- Groups -----

  /** The elements of `s` at the places listed. */
  function Gather<T>(s: seq<T>, places: seq<nat>): (r: seq<T>)
    requires forall j | 0 <= j < |places| :: places[j] < |s|
    ensures |r| == |places| && forall j | 0 <= j < |places| :: r[j] == s[places[j]]
  {
    seq(|places|, j requires 0 <= j < |places| => s[places[j]])
  }

  function KeyIs<T, K(==)>(key: T -> K, name: K): T -> bool { (x: T) => key(x) == name }

  /** Summing group by group, over distinct names that cover every key, is summing once. */
  lemma {:induction false} PartitionSum<T, K>(s: seq<T>, key: T -> K, names: seq<K>, f: T -> real, group: K -> real)
    requires Distinct(names)
    requires forall x | x in s :: key(x) in names
    requires forall k | k in names :: group(k) == Sum(Filter(s, KeyIs(key, k)), f)
    ensures Sum(names, group) == Sum(s, f)
  {
    var cell := (k: K, x: T) => if key(x) == k then f(x) else 0.0;
    forall k | k in names ensures group(k) == Sum(s, From(cell, k)) {
      SumFilter(s, KeyIs(key, k), f, From(cell, k));
    }
    PairsRows(names, s, cell, group);
    forall x | x in s ensures f(x) == Sum(names, Into(cell, x)) {
      SumIndicator(names, key(x), f(x), Into(cell, x));
    }
    PairsColumns(names, s, cell, f);
  }

  lemma {:induction false} SumIndicator<K>(names: seq<K>, name: K, c: real, f: K -> real)
    requires Distinct(names)
    requires forall k | k in names :: f(k) == if k == name then c else 0.0
    ensures Sum(names, f) == if name in names then c else 0.0
  {
    if names != [] { SumIndicator(names[1..], name, c, f); }
  }

  // ----- Squares -----

  /** Lagrange's identity gives Cauchy-Schwarz with no division and no square root. */
  lemma {:induction false} CauchySchwarz<T>(s: seq<T>, f: T -> real, g: T -> real, fg: T -> real, ff: T -> real,
                                             gg: T -> real)
    requires forall x | x in s :: fg(x) == f(x) * g(x) && ff(x) == f(x) * f(x) && gg(x) == g(x) * g(x)
    ensures Sum(s, fg) * Sum(s, fg) <= Sum(s, ff) * Sum(s, gg)
  {
    var squares := (x: T, y: T) => ff(x) * gg(y);
    var crosses := (x: T, y: T) => fg(x) * fg(y);
    var difference := (x: T, y: T) => squares(x, y) - crosses(x, y);
    assert Pairs(s, s, difference) == Sum(s, ff) * Sum(s, gg) - Sum(s, fg) * Sum(s, fg) by {
      PairsProduct(s, s, ff, gg, squares);
      PairsProduct(s, s, fg, fg, crosses);
      PairsLinear(s, s, squares, 1.0, crosses, -1.0, difference);
    }
    forall x | x in s ensures difference(x, x) == 0.0 {
      SquareOfProduct(f(x), g(x), ff(x), gg(x), fg(x));
    }
    forall x, y | x in s && y in s ensures 0.0 <= difference(x, y) + difference(y, x) {
      SquareOfCross(f(x), g(x), f(y), g(y));
    }
    PairsNonNegative(s, difference);
  }

  lemma {:induction false} PairsNonNegative<T>(s: seq<T>, g: (T, T) -> real)
    requires forall x | x in s :: g(x, x) == 0.0
    requires forall x, y | x in s && y in s :: 0.0 <= g(x, y) + g(y, x)
    ensures 0.0 <= Pairs(s, s, g)
  {
    var diagonal, both, zero := (x: T) => g(x, x), (x: T, y: T) => g(x, y) + g(y, x), (x: T, y: T) => 0.0;
    PairsTriangle(s, g, diagonal, both);
    SumConst(s, diagonal, 0.0);
    TriangleMonotone(s, zero, both);
    TriangleConst(s, zero, 0.0);
  }
}
