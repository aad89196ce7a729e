/** nDCG at a cutoff (metrics.py), over any positive, strictly increasing discounts. */
module DiscountedGain {
  import opened Reals
  import opened Sums
  import opened Counting
  import opened Sorting
  import opened PairwiseAuc

  ghost predicate IsDiscount(d: int -> real) {
    && (forall p | 0 <= p :: 0.0 < d(p))
    && (forall p, q | 0 <= p < q :: d(p) < d(q))
  }

  /** `log2(position + 2)`, by the two facts nDCG relies on. */
  type Discounts = d: int -> real | IsDiscount(d) witness (p: int) => (p + 1) as real

  function Power2(n: int): int { if n <= 0 then 1 else 2 * Power2(n - 1) }

  function Gain(grade: int): real { (Power2(grade) - 1) as real }

  lemma {:induction false} BinaryGain(grade: int)
    requires grade == 0 || grade == 1
    ensures Gain(grade) == grade as real
  {
    assert Power2(0) == 1;
  }

  function Take<T>(s: seq<T>, k: nat): (r: seq<T>)
    ensures |r| == (if k < |s| then k else |s|) && r <= s
  {
    if k < |s| then s[..k] else s
  }

  function Dcg(labels: seq<int>, d: Discounts): real {
    if labels == [] then 0.0 else
      var n := |labels| - 1;
      Dcg(labels[..n], d) + Gain(labels[n]) / d(n)
  }

  function AtLeast(): (int, int) -> bool { (x: int, y: int) => x >= y }

  /** `ndcg_at_k` on validated arguments. */
  function Ndcg(labels: seq<int>, k: nat, d: Discounts): real {
    var dcg := Dcg(Take(labels, k), d);
    var idcg := Dcg(Take(SortBy(labels, AtLeast()), k), d);
    if idcg == 0.0 then 0.0 else dcg / idcg
  }

  // ----- The best that can be done with a number of positives -----

  /** The DCG of `m` positives in the first `m` places. */
  function Ideal(m: int, d: Discounts): real {
    if m <= 0 then 0.0 else Ideal(m - 1, d) + 1.0 / d(m - 1)
  }

  lemma {:induction false} Reciprocal(d: Discounts, p: int)
    requires 0 <= p
    ensures 1.0 / d(p) > 0.0
    ensures forall q | 0 <= q < p :: 1.0 / d(p) < 1.0 / d(q)
  {
    InverseOrder(d(p), d(p) + 1.0);
    forall q | 0 <= q < p ensures 1.0 / d(p) < 1.0 / d(q) {
      InverseOrder(d(q), d(p));
    }
  }

  lemma {:induction false} IdealIncreasing(m: int, n: int, d: Discounts)
    requires 0 <= m <= n
    ensures Ideal(m, d) <= Ideal(n, d)
    ensures m < n ==> Ideal(m, d) < Ideal(n, d)
    decreases n
  {
    if m < n {
      IdealIncreasing(m, n - 1, d);
      Reciprocal(d, n - 1);
    }
  }

  lemma {:induction false} LabelSumAppend(a: seq<int>, b: seq<int>)
    ensures LabelSum(a + b) == LabelSum(a) + LabelSum(b)
  {
    if a == [] {
      assert a + b == b;
    } else {
      assert (a + b)[1..] == a[1..] + b;
      LabelSumAppend(a[1..], b);
    }
  }

  ghost predicate OnesFirst(labels: seq<int>) { Sorted(labels, AtLeast()) }

  /** With as many positives, no order beats positives first, and only that order matches it. */
  lemma {:induction false} DcgBound(labels: seq<int>, d: Discounts)
    requires Binary(labels)
    ensures Dcg(labels, d) <= Ideal(LabelSum(labels), d)
    ensures Dcg(labels, d) == Ideal(LabelSum(labels), d) <==> OnesFirst(labels)
  {
    if labels != [] {
      var n := |labels| - 1;
      var init, last := labels[..n], labels[n];
      assert labels == init + [last];
      DcgBound(init, d);
      DcgBoundStep(init, last, d);
    }
  }

  lemma {:induction false} DcgBoundStep(init: seq<int>, last: int, d: Discounts)
    requires Binary(init) && (last == 0 || last == 1)
    requires Dcg(init, d) <= Ideal(LabelSum(init), d)
    requires Dcg(init, d) == Ideal(LabelSum(init), d) <==> OnesFirst(init)
    ensures Dcg(init + [last], d) <= Ideal(LabelSum(init + [last]), d)
    ensures Dcg(init + [last], d) == Ideal(LabelSum(init + [last]), d) <==> OnesFirst(init + [last])
  {
    LabelSumBinary(init);
    DcgStep(init, last, d);
    OnesFirstStep(init, last);
    IdealStep(LabelSum(init), |init|, d);
    hide *;
  }

  lemma {:induction false} DcgStep(init: seq<int>, last: int, d: Discounts)
    requires last == 0 || last == 1
    ensures LabelSum(init + [last]) == LabelSum(init) + last
    ensures Dcg(init + [last], d) == Dcg(init, d) + if last == 1 then 1.0 / d(|init|) else 0.0
  {
    LabelSumAppend(init, [last]);
    BinaryGain(last);
    assert (init + [last])[..|init|] == init;
  }

  lemma {:induction false} IdealStep(m: int, n: int, d: Discounts)
    requires 0 <= m <= n
    ensures Ideal(m + 1, d) == Ideal(m, d) + 1.0 / d(m)
    ensures 1.0 / d(n) <= 1.0 / d(m) && (1.0 / d(n) == 1.0 / d(m) <==> m == n)
  {
    Reciprocal(d, n);
  }

  lemma {:induction false} OnesFirstStep(init: seq<int>, last: int)
    requires Binary(init) && (last == 0 || last == 1)
    ensures OnesFirst(init + [last]) <==> OnesFirst(init) && (last == 0 || LabelSum(init) == |init|)
  {
    var s, n := init + [last], |init|;
    AllOnes(init);
    if OnesFirst(s) {
      forall i, j | 0 <= i < j < n ensures AtLeast()(init[i], init[j]) {
        assert AtLeast()(s[i], s[j]);
      }
      forall i | 0 <= i < n ensures last == 1 ==> init[i] == 1 {
        assert AtLeast()(s[i], s[n]);
      }
    }
    if OnesFirst(init) && (last == 0 || LabelSum(init) == n) {
      forall i, j | 0 <= i < j <= n ensures AtLeast()(s[i], s[j]) {
        assert j < n ==> AtLeast()(init[i], init[j]);
      }
    }
  }

  lemma {:induction false} AllOnes(labels: seq<int>)
    requires Binary(labels)
    ensures LabelSum(labels) == |labels| <==> forall i | 0 <= i < |labels| :: labels[i] == 1
  {
    if labels != [] {
      AllOnes(labels[1..]);
      LabelSumBinary(labels[1..]);
      assert labels == [labels[0]] + labels[1..];
    }
  }

  function Least(a: int, b: int): int { if a < b then a else b }

  /** Positives-first means exactly: the first `LabelSum` labels are positive. */
  lemma {:induction false} OnesFirstPrefix(labels: seq<int>, m: nat)
    requires Binary(labels) && LabelSum(labels) == m
    ensures OnesFirst(labels) <==> m <= |labels| && forall i | 0 <= i < m :: labels[i] == 1
  {
    LabelSumBinary(labels);
    var a, b := labels[..m], labels[m..];
    assert labels == a + b;
    LabelSumAppend(a, b);
    LabelSumBinary(a);
    LabelSumBinary(b);
    AllOnes(a);
    AllZeros(b);
    if OnesFirst(labels) { OnesBeforeZeros(labels, m); }
  }

  lemma {:induction false} OnesBeforeZeros(labels: seq<int>, m: nat)
    requires Binary(labels) && OnesFirst(labels) && m <= |labels|
    ensures LabelSum(labels[..m]) == m || LabelSum(labels[m..]) == 0
  {
    AllOnes(labels[..m]);
    AllZeros(labels[m..]);
    if LabelSum(labels[m..]) != 0 {
      var j :| m <= j < |labels| && labels[j] == 1;
      forall i | 0 <= i < m ensures labels[i] == 1 {
        assert AtLeast()(labels[i], labels[j]);
      }
    }
  }

  lemma {:induction false} AllZeros(labels: seq<int>)
    requires Binary(labels)
    ensures LabelSum(labels) == 0 <==> forall i | 0 <= i < |labels| :: labels[i] == 0
  {
    if labels != [] {
      AllZeros(labels[1..]);
      LabelSumBinary(labels[1..]);
      assert labels == [labels[0]] + labels[1..];
    }
  }

  /** Cutting a list at `k` leaves at most `min(k, positives)` positives, all of them there
      exactly when the first `min(k, positives)` places are. */
  lemma {:induction false} TakePositives(labels: seq<int>, k: nat)
    requires Binary(labels)
    ensures var m := Least(k, LabelSum(labels));
      && 0 <= LabelSum(Take(labels, k)) <= m <= |labels|
      && (OnesFirst(labels) ==> LabelSum(Take(labels, k)) == m)
      && (OnesFirst(Take(labels, k)) && LabelSum(Take(labels, k)) == m <==> forall i | 0 <= i < m :: labels[i] == 1)
  {
    var p, m, t := LabelSum(labels), Least(k, LabelSum(labels)), Take(labels, k);
    var rest := labels[|t|..];
    assert labels == t + rest;
    LabelSumAppend(t, rest);
    LabelSumBinary(t);
    LabelSumBinary(rest);
    LabelSumBinary(labels);
    OnesFirstPrefix(t, LabelSum(t));
    OnesFirstPrefix(labels, p);
    hide OnesFirst;
    if forall i | 0 <= i < m :: labels[i] == 1 { LeadingOnes(t, m); }
  }

  lemma {:induction false} LeadingOnes(labels: seq<int>, m: nat)
    requires Binary(labels) && m <= |labels| && forall i | 0 <= i < m :: labels[i] == 1
    ensures LabelSum(labels) >= m
  {
    var a, b := labels[..m], labels[m..];
    assert labels == a + b;
    LabelSumAppend(a, b);
    AllOnes(a);
    LabelSumBinary(b);
  }

  lemma {:induction false} SortedLabels(labels: seq<int>)
    requires Binary(labels)
    ensures var s := SortBy(labels, AtLeast()); Binary(s) && OnesFirst(s) && LabelSum(s) == LabelSum(labels)
  {
    SortSorted(labels, AtLeast());
    var s := SortBy(labels, AtLeast());
    forall i | 0 <= i < |s| ensures s[i] == 0 || s[i] == 1 { assert s[i] in labels; }
    LabelSumPermutation(s, labels);
  }

  lemma {:induction false} LabelSumPermutation(a: seq<int>, b: seq<int>)
    requires multiset(a) == multiset(b)
    ensures LabelSum(a) == LabelSum(b)
  {
    LabelSumIsSum(a);
    LabelSumIsSum(b);
    SumPermutation(a, b, AsReal());
  }

  function AsReal(): int -> real { (x: int) => x as real }

  lemma {:induction false} LabelSumIsSum(labels: seq<int>)
    ensures LabelSum(labels) as real == Sum(labels, AsReal())
  {
    if labels != [] { LabelSumIsSum(labels[1..]); }
  }

  /** The descending label sort is the ideal: its DCG is that of `min(k, positives)` leading positives. */
  lemma {:induction false} SortedDcg(labels: seq<int>, k: nat, d: Discounts)
    requires Binary(labels)
    ensures Dcg(Take(SortBy(labels, AtLeast()), k), d) == Ideal(Least(k, LabelSum(labels)), d)
  {
    var s := SortBy(labels, AtLeast());
    SortedLabels(labels);
    TakePositives(s, k);
    LabelSumBinary(s);
    OnesFirstPrefix(s, LabelSum(s));
    DcgBound(Take(s, k), d);
  }

  /** No permutation of the labels has a larger DCG than the descending sort. */
  lemma {:induction false} SortMaximisesDcg(labels: seq<int>, arrangement: seq<int>, k: nat, d: Discounts)
    requires Binary(labels) && multiset(arrangement) == multiset(labels)
    ensures Dcg(Take(arrangement, k), d) <= Dcg(Take(SortBy(labels, AtLeast()), k), d)
  {
    SameElements(arrangement, labels);
    forall i | 0 <= i < |arrangement| ensures arrangement[i] == 0 || arrangement[i] == 1 {
      assert arrangement[i] in labels;
    }
    LabelSumPermutation(arrangement, labels);
    SortedDcg(labels, k, d);
    TakePositives(arrangement, k);
    DcgBound(Take(arrangement, k), d);
    IdealIncreasing(LabelSum(Take(arrangement, k)), Least(k, LabelSum(labels)), d);
  }

  /** nDCG lies in [0, 1]; it is 1 exactly when there is a positive and the places that can be
      positive all are. */
  lemma {:induction false} NdcgRange(labels: seq<int>, k: nat, d: Discounts)
    requires Binary(labels) && k > 0
    ensures Least(k, LabelSum(labels)) <= |labels|
    ensures 0.0 <= Ndcg(labels, k, d) <= 1.0
    ensures Ndcg(labels, k, d) == 1.0 <==>
      LabelSum(labels) > 0 && forall i | 0 <= i < Least(k, LabelSum(labels)) :: labels[i] == 1
  {
    var m, t := Least(k, LabelSum(labels)), Take(labels, k);
    LabelSumBinary(labels);
    SortedDcg(labels, k, d);
    TakePositives(labels, k);
    DcgBound(t, d);
    DcgNonNegative(t, d);
    IdealIncreasing(LabelSum(t), m, d);
    IdealIncreasing(0, m, d);
    if m > 0 {
      DivisionRange(Dcg(t, d), Ideal(m, d));
      DivisionOrder(Dcg(t, d), Ideal(m, d), Ideal(m, d));
      DivisionBySelf(Ideal(m, d));
    }
  }

  /** What a place contributes: one over its discount, if it holds a positive. */
  function PlaceGain(labels: seq<int>, d: Discounts): int -> real {
    (p: int) => if 0 <= p < |labels| && labels[p] == 1 then 1.0 / d(p) else 0.0
  }

  function AnyPlaceGain(d: Discounts): int -> real { (p: int) => if 0 <= p then 1.0 / d(p) else 0.0 }

  lemma {:induction false} DcgIsSum(labels: seq<int>, d: Discounts)
    requires Binary(labels)
    ensures Dcg(labels, d) == Sum(Indices(|labels|), PlaceGain(labels, d))
  {
    hide Sum;
    if labels == [] {
      SumConst(Indices(0), PlaceGain(labels, d), 0.0);
    } else {
      var n := |labels| - 1;
      var init := labels[..n];
      assert labels == init + [labels[n]];
      assert Indices(n + 1) == Indices(n) + [n];
      DcgIsSum(init, d);
      DcgStep(init, labels[n], d);
      SumAppend(Indices(n), [n], PlaceGain(labels, d));
      SumSingle([n], 0, PlaceGain(labels, d));
      forall p | p in Indices(n) ensures PlaceGain(init, d)(p) == PlaceGain(labels, d)(p) {}
      SumExt(Indices(n), PlaceGain(init, d), PlaceGain(labels, d));
    }
  }

  lemma {:induction false} IdealIsSum(m: nat, d: Discounts)
    ensures Ideal(m, d) == Sum(Indices(m), AnyPlaceGain(d))
  {
    hide Sum;
    if m == 0 {
      SumConst(Indices(0), AnyPlaceGain(d), 0.0);
    } else {
      IdealIsSum(m - 1, d);
      assert Indices(m) == Indices(m - 1) + [m - 1];
      SumAppend(Indices(m - 1), [m - 1], AnyPlaceGain(d));
      SumSingle([m - 1], 0, AnyPlaceGain(d));
    }
  }

  ghost predicate IsRatio(ratio: real, part: real, whole: real) { whole > 0.0 && ratio * whole == part }

  /** nDCG times the discounted sum over the first min(k, positives) places is the discounted sum over the
      positives among the first k places; without positives it is 0. */
  lemma {:induction false} NdcgMeans(labels: seq<int>, k: nat, d: Discounts)
    requires Binary(labels) && k > 0
    ensures var positives, places := |LabelPlaces(labels, 1)|, Least(k, |labels|);
      if positives == 0 then Ndcg(labels, k, d) == 0.0
      else IsRatio(Ndcg(labels, k, d), Sum(Indices(places), PlaceGain(labels, d)),
                   Sum(Indices(Least(k, positives)), AnyPlaceGain(d)))
  {
    assert Least(k, |LabelPlaces(labels, 1)|) >= 0;
    hide *;
    PositivePlaces(labels);
    IdealIsSum(Least(k, |LabelPlaces(labels, 1)|), d);
    TakenDcg(labels, k, d);
    NdcgTimesIdeal(labels, k, d);
  }

  lemma {:induction false} NdcgTimesIdeal(labels: seq<int>, k: nat, d: Discounts)
    requires Binary(labels) && k > 0
    ensures var m := Least(k, LabelSum(labels));
      if LabelSum(labels) == 0 then Ndcg(labels, k, d) == 0.0
      else m > 0 && IsRatio(Ndcg(labels, k, d), Dcg(Take(labels, k), d), Ideal(m, d))
  {
    hide Dcg;
    hide Take;
    hide SortBy;
    hide LabelSum;
    var m := Least(k, LabelSum(labels));
    LabelSumBinary(labels);
    SortedDcg(labels, k, d);
    IdealIncreasing(0, m, d);
    if m > 0 { DivisionScale(Dcg(Take(labels, k), d), Ideal(m, d)); }
  }

  lemma {:induction false} TakenDcg(labels: seq<int>, k: nat, d: Discounts)
    requires Binary(labels)
    ensures Dcg(Take(labels, k), d) == Sum(Indices(Least(k, |labels|)), PlaceGain(labels, d))
  {
    hide Sum;
    hide Dcg;
    var t, places := Take(labels, k), Least(k, |labels|);
    DcgIsSum(t, d);
    forall p | p in Indices(places) ensures PlaceGain(t, d)(p) == PlaceGain(labels, d)(p) {}
    SumExt(Indices(places), PlaceGain(t, d), PlaceGain(labels, d));
  }

  lemma {:induction false} PositivePlaces(labels: seq<int>)
    requires Binary(labels)
    ensures LabelSum(labels) == |LabelPlaces(labels, 1)|
  {
    hide Sum;
    var isOne := (x: int) => x == 1;
    LabelSumIsSum(labels);
    forall x | x in labels ensures AsReal()(x) == if isOne(x) then 1.0 else 0.0 {
      var i :| 0 <= i < |labels| && labels[i] == x;
    }
    SumCounts(labels, isOne, AsReal());
    assert Where(labels, isOne) == LabelPlaces(labels, 1);
  }

  lemma {:induction false} DcgNonNegative(labels: seq<int>, d: Discounts)
    requires Binary(labels)
    ensures Dcg(labels, d) >= 0.0
  {
    if labels != [] {
      var n := |labels| - 1;
      DcgNonNegative(labels[..n], d);
      BinaryGain(labels[n]);
      DivisionOrder(0.0, Gain(labels[n]), d(n));
    }
  }
}
