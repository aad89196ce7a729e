/** Python's stable `sorted`, as a function of an order. */
module Sorting {
  import opened Sums

  /** Puts `x` before the first element it does not exceed, so ahead of its equals. */
  function Insert<T>(x: T, s: seq<T>, le: (T, T) -> bool): (r: seq<T>)
    ensures multiset(r) == multiset(s) + multiset{x}
  {
    if s == [] || le(x, s[0]) then
      [x] + s
    else
      assert s == [s[0]] + s[1..];
      [s[0]] + Insert(x, s[1..], le)
  }

  function SortBy<T>(s: seq<T>, le: (T, T) -> bool): (r: seq<T>)
    ensures multiset(r) == multiset(s)
    ensures |r| == |s|
    ensures forall x | x in r :: x in s
    ensures forall x | x in s :: x in r
  {
    if s == [] then [] else
      var r := Insert(s[0], SortBy(s[1..], le), le);
      assert s == [s[0]] + s[1..];
      SameElements(r, s);
      r
  }

  lemma {:induction false} SameElements<T>(r: seq<T>, s: seq<T>)
    requires multiset(r) == multiset(s)
    ensures |r| == |s|
    ensures forall x | x in r :: x in s
    ensures forall x | x in s :: x in r
  {
    assert |multiset(r)| == |multiset(s)|;
    forall x | x in r ensures x in s { assert x in multiset(r); }
    forall x | x in s ensures x in r { assert x in multiset(s); }
  }

  ghost predicate Sorted<T>(s: seq<T>, le: (T, T) -> bool) {
    forall i, j | 0 <= i < j < |s| :: le(s[i], s[j])
  }

  ghost predicate Total<T>(s: seq<T>, le: (T, T) -> bool) {
    && (forall x, y | x in s && y in s :: le(x, y) || le(y, x))
    && (forall x, y, z | x in s && y in s && z in s && le(x, y) && le(y, z) :: le(x, z))
  }

  lemma {:induction false} SortedCons<T>(x: T, s: seq<T>, le: (T, T) -> bool)
    requires Sorted(s, le) && forall y | y in s :: le(x, y)
    ensures Sorted([x] + s, le)
  {
  }

  lemma {:induction false} InsertSorted<T>(x: T, s: seq<T>, le: (T, T) -> bool)
    requires Sorted(s, le) && Total([x] + s, le)
    ensures Sorted(Insert(x, s, le), le)
  {
    hide Sorted;
    if s == [] || le(x, s[0]) {
      InsertFront(x, s, le);
    } else {
      var rest, r := s[1..], Insert(x, s[1..], le);
      TailFacts(x, s, le);
      InsertSorted(x, rest, le);
      SameElements(r, [x] + rest);
      SortedCons(s[0], r, le);
    }
  }

  lemma {:induction false} InsertFront<T>(x: T, s: seq<T>, le: (T, T) -> bool)
    requires Sorted(s, le) && Total([x] + s, le) && (s == [] || le(x, s[0]))
    ensures Sorted([x] + s, le)
  {
    var all := [x] + s;
    forall i | 0 <= i < |s| ensures le(x, s[i]) {
      assert i > 0 ==> le(s[0], s[i]);
      assert all[0] in all && all[1] in all && all[i + 1] in all;
    }
    SortedCons(x, s, le);
  }

  lemma {:induction false} TailFacts<T>(x: T, s: seq<T>, le: (T, T) -> bool)
    requires Sorted(s, le) && Total([x] + s, le) && s != [] && !le(x, s[0])
    ensures Sorted(s[1..], le) && Total([x] + s[1..], le)
    ensures forall y | y in [x] + s[1..] :: le(s[0], y)
  {
    var all := [x] + s;
    assert forall y | y in [x] + s[1..] :: y in all;
    assert all[0] in all && all[1] in all;
    forall i | 1 <= i < |s| ensures le(s[0], s[i]) {}
  }

  lemma {:induction false} SortSorted<T>(s: seq<T>, le: (T, T) -> bool)
    requires Total(s, le)
    ensures Sorted(SortBy(s, le), le)
  {
    if s != [] {
      SortSorted(s[1..], le);
      InsertSorted(s[0], SortBy(s[1..], le), le);
    }
  }

  /** Equals keep their order: any class of mutually tied elements comes out as it went in. */
  lemma {:induction false} SortStable<T>(s: seq<T>, le: (T, T) -> bool, p: T -> bool)
    requires forall x, y | x in s && y in s && p(x) && p(y) :: le(x, y)
    ensures Filter(SortBy(s, le), p) == Filter(s, p)
  {
    if s != [] {
      SortStable(s[1..], le, p);
      InsertStable(s[0], SortBy(s[1..], le), le, p);
    }
  }

  lemma {:induction false} InsertStable<T>(x: T, s: seq<T>, le: (T, T) -> bool, p: T -> bool)
    requires forall y | y in s && p(x) && p(y) :: le(x, y)
    ensures Filter(Insert(x, s, le), p) == (if p(x) then [x] else []) + Filter(s, p)
  {
    hide Filter;
    if s == [] || le(x, s[0]) {
      FilterCons(x, s, p);
    } else {
      InsertStable(x, s[1..], le, p);
      FilterCons(s[0], Insert(x, s[1..], le), p);
      FilterCons(s[0], s[1..], p);
      assert [s[0]] + s[1..] == s;
    }
  }

  /** Sorting looks at nothing but the order of the elements, so it commutes with
      any map that keeps that order. */
  lemma {:induction false} SortMap<T, U>(s: seq<T>, f: T -> U, le: (T, T) -> bool, le': (U, U) -> bool)
    requires forall x, y | x in s && y in s :: le(x, y) <==> le'(f(x), f(y))
    ensures SortBy(Map(s, f), le') == Map(SortBy(s, le), f)
  {
    if s != [] {
      assert Map(s, f)[1..] == Map(s[1..], f);
      SortMap(s[1..], f, le, le');
      InsertMap(s[0], SortBy(s[1..], le), f, le, le');
    }
  }

  lemma {:induction false} InsertMap<T, U>(x: T, s: seq<T>, f: T -> U, le: (T, T) -> bool, le': (U, U) -> bool)
    requires forall y | y in s :: le(x, y) <==> le'(f(x), f(y))
    ensures Insert(f(x), Map(s, f), le') == Map(Insert(x, s, le), f)
  {
    if s != [] {
      assert Map(s, f)[1..] == Map(s[1..], f);
      InsertMap(x, s[1..], f, le, le');
    }
  }

  lemma {:induction false} SortExt<T>(s: seq<T>, le: (T, T) -> bool, le': (T, T) -> bool)
    requires forall x, y | x in s && y in s :: le(x, y) <==> le'(x, y)
    ensures SortBy(s, le) == SortBy(s, le')
  {
    var same := (x: T) => x;
    SortMap(s, same, le, le');
    assert Map(s, same) == s;
    assert Map(SortBy(s, le), same) == SortBy(s, le);
  }

  // ----- Orders used by the evaluation code -----

  function Ascending(): (real, real) -> bool { (x: real, y: real) => x <= y }

  function Descending(): (real, real) -> bool { (x: real, y: real) => x >= y }

  /** A sorted arrangement of numbers depends only on which numbers there are. */
  lemma {:induction false} DescendingUnique(a: seq<real>, b: seq<real>)
    requires multiset(a) == multiset(b)
    requires Sorted(a, Descending()) && Sorted(b, Descending())
    ensures a == b
  {
    SameElements(a, b);
    if a != [] {
      var x, y := a[0], b[0];
      assert x == y by {
        assert x in b && y in a;
        var i :| 0 <= i < |b| && b[i] == x;
        var j :| 0 <= j < |a| && a[j] == y;
        assert b[0] >= b[i] && a[0] >= a[j];
      }
      RemoveAt(a, 0);
      RemoveAt(b, 0);
      assert Without(a, 0) == a[1..] && Without(b, 0) == b[1..];
      DescendingUnique(a[1..], b[1..]);
    }
  }
}
