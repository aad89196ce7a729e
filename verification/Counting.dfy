/** Sums of ones are sizes of sets of places: what the counting loops of the evaluation code count. */
module Counting {
  import opened Sums

  /** The places of `s` where `p` holds. */
  ghost function Where<T>(s: seq<T>, p: T -> bool): set<int> { set i | 0 <= i < |s| && p(s[i]) }

  /** The pairs of places of `s` and `t` where `p` holds. */
  ghost function Cells<T, U>(s: seq<T>, t: seq<U>, p: (T, U) -> bool): set<(int, int)> {
    set i, j | 0 <= i < |s| && 0 <= j < |t| && p(s[i], t[j]) :: (i, j)
  }

  /** The pairs of places `i < j` of `s` where `p` holds. */
  ghost function Couples<T>(s: seq<T>, p: (T, T) -> bool): set<(int, int)> {
    set i, j | 0 <= i < j < |s| && p(s[i], s[j]) :: (i, j)
  }

  function Fixed<T, U>(p: (T, U) -> bool, x: T): U -> bool { (y: U) => p(x, y) }

  function FixedLast<T, U>(p: (T, U) -> bool, y: U): T -> bool { (x: T) => p(x, y) }

  // ----- Places -----

  lemma {:induction false} WhereStep<T>(s: seq<T>, x: T, p: T -> bool)
    ensures Where(s + [x], p) == Where(s, p) + if p(x) then {|s|} else {}
    ensures |Where(s + [x], p)| == |Where(s, p)| + if p(x) then 1 else 0
  {
    var t := s + [x];
    forall i ensures i in Where(t, p) <==> i in Where(s, p) + if p(x) then {|s|} else {} {
      if 0 <= i < |s| { assert t[i] == s[i]; }
    }
  }

  lemma {:induction false} FilterCounts<T>(s: seq<T>, p: T -> bool)
    ensures |Filter(s, p)| == |Where(s, p)|
  {
    if s != [] {
      var n := |s| - 1;
      assert s == s[..n] + [s[n]];
      FilterCounts(s[..n], p);
      FilterAppend(s[..n], [s[n]], p);
      WhereStep(s[..n], s[n], p);
    }
  }

  function Indicator<T>(p: T -> bool): T -> real { (x: T) => if p(x) then 1.0 else 0.0 }

  lemma {:induction false} SumCounts<T>(s: seq<T>, p: T -> bool, f: T -> real)
    requires forall x | x in s :: f(x) == if p(x) then 1.0 else 0.0
    ensures Sum(s, f) == |Where(s, p)| as real
  {
    FilterCounts(s, p);
    FilterCount(s, p, f);
  }

  // ----- Pairs -----

  lemma {:induction false} RowSize<T>(row: int, s: seq<T>, p: T -> bool)
    ensures |set j | j in Where(s, p) :: (row, j)| == |Where(s, p)|
  {
    if s == [] {
      assert (set j | j in Where(s, p) :: (row, j)) == {};
    } else {
      var n := |s| - 1;
      assert s == s[..n] + [s[n]];
      RowSize(row, s[..n], p);
      WhereStep(s[..n], s[n], p);
      assert (set j | j in Where(s, p) :: (row, j)) ==
        (set j | j in Where(s[..n], p) :: (row, j)) + if p(s[n]) then {(row, n)} else {};
    }
  }

  lemma {:induction false} ColumnSize<T>(s: seq<T>, p: T -> bool, column: int)
    ensures |set i | i in Where(s, p) :: (i, column)| == |Where(s, p)|
  {
    if s == [] {
      assert (set i | i in Where(s, p) :: (i, column)) == {};
    } else {
      var n := |s| - 1;
      assert s == s[..n] + [s[n]];
      ColumnSize(s[..n], p, column);
      WhereStep(s[..n], s[n], p);
      assert (set i | i in Where(s, p) :: (i, column)) ==
        (set i | i in Where(s[..n], p) :: (i, column)) + if p(s[n]) then {(n, column)} else {};
    }
  }

  lemma {:induction false} CellsStep<T, U>(s: seq<T>, x: T, t: seq<U>, p: (T, U) -> bool)
    ensures |Cells(s + [x], t, p)| == |Cells(s, t, p)| + |Where(t, Fixed(p, x))|
  {
    var all, n := s + [x], |s|;
    var row := set j | j in Where(t, Fixed(p, x)) :: (n, j);
    RowSize(n, t, Fixed(p, x));
    forall i, j ensures (i, j) in Cells(all, t, p) <==> (i, j) in Cells(s, t, p) + row {
      if 0 <= i < n { assert all[i] == s[i]; }
    }
    assert Cells(all, t, p) == Cells(s, t, p) + row;
  }

  lemma {:induction false} PairsStep<T, U>(s: seq<T>, x: T, t: seq<U>, g: (T, U) -> real)
    ensures Pairs(s + [x], t, g) == Pairs(s, t, g) + Sum(t, From(g, x))
  {
    if s == [] {
      assert ([] + [x])[1..] == [];
    } else {
      assert (s + [x])[1..] == s[1..] + [x];
      PairsStep(s[1..], x, t, g);
    }
  }

  lemma {:induction false} PairsCount<T, U>(s: seq<T>, t: seq<U>, p: (T, U) -> bool, g: (T, U) -> real)
    requires forall x, y | x in s && y in t :: g(x, y) == if p(x, y) then 1.0 else 0.0
    ensures Pairs(s, t, g) == |Cells(s, t, p)| as real
  {
    if s == [] {
      assert Cells(s, t, p) == {};
    } else {
      var n := |s| - 1;
      var init, x := s[..n], s[n];
      assert s == init + [x];
      PairsCount(init, t, p, g);
      PairsStep(init, x, t, g);
      CellsStep(init, x, t, p);
      SumCounts(t, Fixed(p, x), From(g, x));
    }
  }

  lemma {:induction false} CouplesStep<T>(s: seq<T>, x: T, p: (T, T) -> bool)
    ensures |Couples(s + [x], p)| == |Couples(s, p)| + |Where(s, FixedLast(p, x))|
  {
    var all, n := s + [x], |s|;
    var column := set i | i in Where(s, FixedLast(p, x)) :: (i, n);
    ColumnSize(s, FixedLast(p, x), n);
    forall i, j ensures (i, j) in Couples(all, p) <==> (i, j) in Couples(s, p) + column {
      if 0 <= i < n { assert all[i] == s[i]; }
      if 0 <= j < n { assert all[j] == s[j]; }
    }
    assert Couples(all, p) == Couples(s, p) + column;
  }

  lemma {:induction false} TriangleStep<T>(s: seq<T>, x: T, g: (T, T) -> real)
    ensures Triangle(s + [x], g) == Triangle(s, g) + Sum(s, Into(g, x))
  {
    if s == [] {
      assert ([] + [x])[1..] == [];
    } else {
      assert (s + [x])[1..] == s[1..] + [x];
      TriangleStep(s[1..], x, g);
      SumAppend(s[1..], [x], From(g, s[0]));
      SumSingle([x], 0, From(g, s[0]));
    }
  }

  lemma {:induction false} TriangleCounts<T>(s: seq<T>, p: (T, T) -> bool, g: (T, T) -> real)
    requires forall x, y | x in s && y in s :: g(x, y) == if p(x, y) then 1.0 else 0.0
    ensures Triangle(s, g) == |Couples(s, p)| as real
  {
    if s == [] {
      assert Couples(s, p) == {};
    } else {
      var n := |s| - 1;
      var init, x := s[..n], s[n];
      assert s == init + [x];
      TriangleCounts(init, p, g);
      TriangleStep(init, x, g);
      CouplesStep(init, x, p);
      SumCounts(init, FixedLast(p, x), Into(g, x));
    }
  }

  // ----- Pairs within groups -----

  function RowSum<T, U>(t: seq<U>, g: (T, U) -> real): T -> real { (x: T) => Sum(t, From(g, x)) }

  /** All pairs of a filtered list are the pairs both of whose members pass. */
  lemma {:induction false} PairsFilter<T>(s: seq<T>, p: T -> bool, g: (T, T) -> real)
    ensures Pairs(Filter(s, p), Filter(s, p), g) == Pairs(s, s, Gated(p, g))
  {
    hide Sum;
    hide Pairs;
    hide Filter;
    var kept := Filter(s, p);
    PairsRows(kept, kept, g, RowSum(kept, g));
    PairsRows(s, s, Gated(p, g), RowSum(s, Gated(p, g)));
    forall x | x in s ensures RowSum(s, Gated(p, g))(x) == if p(x) then RowSum(kept, g)(x) else 0.0 {
      if p(x) {
        SumFilter(s, p, From(g, x), From(Gated(p, g), x));
      } else {
        SumConst(s, From(Gated(p, g), x), 0.0);
      }
    }
    SumFilter(s, p, RowSum(kept, g), RowSum(s, Gated(p, g)));
  }

  function Gated<T>(p: T -> bool, g: (T, T) -> real): (T, T) -> real {
    (x: T, y: T) => if p(x) && p(y) then g(x, y) else 0.0
  }

  /** The pairs of a filtered list are the pairs both of whose members pass. */
  lemma {:induction false} TriangleFilter<T>(s: seq<T>, p: T -> bool, g: (T, T) -> real)
    ensures Triangle(Filter(s, p), g) == Triangle(s, Gated(p, g))
  {
    if s != [] {
      var x, rest := s[0], s[1..];
      TriangleFilter(rest, p, g);
      if p(x) {
        assert Filter(s, p) == [x] + Filter(rest, p);
        assert ([x] + Filter(rest, p))[1..] == Filter(rest, p);
        SumFilter(rest, p, From(g, x), From(Gated(p, g), x));
      } else {
        assert Filter(s, p) == Filter(rest, p);
        SumConst(rest, From(Gated(p, g), x), 0.0);
      }
    }
  }

  function SameKey<T, K(==)>(key: T -> K, g: (T, T) -> real): (T, T) -> real {
    (x: T, y: T) => if key(x) == key(y) then g(x, y) else 0.0
  }

  function OfGroup<T, K(==)>(s: seq<T>, key: T -> K, g: (T, T) -> real): K -> real {
    (k: K) => Triangle(Filter(s, KeyIs(key, k)), g)
  }

  /** Summing over the pairs of each group, over distinct names that cover every key, is summing over
      the pairs with equal keys. */
  lemma {:induction false} GroupedPairs<T, K>(s: seq<T>, key: T -> K, names: seq<K>, g: (T, T) -> real)
    requires Distinct(names)
    requires forall x | x in s :: key(x) in names
    ensures Sum(names, OfGroup(s, key, g)) == Triangle(s, SameKey(key, g))
  {
    if s == [] {
      EmptyGroups(s, key, names, g);
    } else {
      var n := |s| - 1;
      var init, x := s[..n], s[n];
      assert s == init + [x];
      GroupedPairs(init, key, names, g);
      GroupedStep(init, x, key, names, g);
    }
  }

  lemma {:induction false} EmptyGroups<T, K>(s: seq<T>, key: T -> K, names: seq<K>, g: (T, T) -> real)
    requires s == []
    ensures Sum(names, OfGroup(s, key, g)) == Triangle(s, SameKey(key, g)) == 0.0
  {
    hide Sum;
    forall k | k in names ensures OfGroup(s, key, g)(k) == 0.0 { EmptyTriangle(Filter(s, KeyIs(key, k)), g); }
    SumConst(names, OfGroup(s, key, g), 0.0);
  }

  function AddedAt<K(==)>(name: K, own: real): K -> real { (k: K) => if k == name then own else 0.0 }

  lemma {:induction false} GroupedStep<T, K>(init: seq<T>, x: T, key: T -> K, names: seq<K>, g: (T, T) -> real)
    requires Distinct(names) && key(x) in names
    ensures Sum(names, OfGroup(init + [x], key, g)) - Sum(names, OfGroup(init, key, g)) ==
      Triangle(init + [x], SameKey(key, g)) - Triangle(init, SameKey(key, g))
  {
    hide Triangle;
    hide Sum;
    hide Filter;
    hide OfGroup;
    var own := Sum(init, Into(SameKey(key, g), x));
    TriangleStep(init, x, SameKey(key, g));
    forall k | k in names
      ensures OfGroup(init + [x], key, g)(k) == 1.0 * OfGroup(init, key, g)(k) + 1.0 * AddedAt(key(x), own)(k)
    {
      GroupStep(init, x, key, k, g);
    }
    SumLinear(names, OfGroup(init, key, g), 1.0, AddedAt(key(x), own), 1.0, OfGroup(init + [x], key, g));
    SumIndicator(names, key(x), own, AddedAt(key(x), own));
  }

  lemma {:induction false} EmptyTriangle<T>(s: seq<T>, g: (T, T) -> real)
    requires s == []
    ensures Triangle(s, g) == 0.0
  {
  }

  lemma {:induction false} GroupStep<T, K>(init: seq<T>, x: T, key: T -> K, k: K, g: (T, T) -> real)
    ensures OfGroup(init + [x], key, g)(k) ==
      OfGroup(init, key, g)(k) + if k == key(x) then Sum(init, Into(SameKey(key, g), x)) else 0.0
  {
    hide Triangle;
    hide Sum;
    var group := Filter(init, KeyIs(key, k));
    FilterAppend(init, [x], KeyIs(key, k));
    FilterCons(x, [], KeyIs(key, k));
    assert [x] + [] == [x];
    if k == key(x) {
      TriangleStep(group, x, g);
      SumFilter(init, KeyIs(key, k), Into(g, x), Into(SameKey(key, g), x));
    } else {
      assert group + [] == group;
    }
  }
}
