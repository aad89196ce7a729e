/** Tie-averaged ranks: the loops of no_op.py and final_selection.py, the closed form they
    compute, and what rank correlation and rank averaging inherit from it. */
module Ranks {
  import opened Reals
  import opened Results
  import opened Sums
  import opened Counting
  import opened Sorting

  function Below(v: real): real -> bool { (w: real) => w < v }

  function EqualTo(v: real): real -> bool { (w: real) => w == v }

  /** The rank of `v` among `values`, ties sharing the mean of the ranks they span. */
  function MidRank(values: seq<real>, v: real): real {
    |Filter(values, Below(v))| as real + (|Filter(values, EqualTo(v))| as real + 1.0) / 2.0
  }

  function RankIn(values: seq<real>): real -> real { (v: real) => MidRank(values, v) }

  ghost function LessPlaces(values: seq<real>, v: real): set<int> { set j | 0 <= j < |values| && values[j] < v }

  ghost function EqualPlaces(values: seq<real>, v: real): set<int> { set j | 0 <= j < |values| && values[j] == v }

  /** One-based, a rank is the number of smaller values plus half of one more than the number of equal ones. */
  lemma {:induction false} MidRankCounts(values: seq<real>, v: real)
    ensures MidRank(values, v) == |LessPlaces(values, v)| as real + (|EqualPlaces(values, v)| as real + 1.0) / 2.0
  {
    FilterCounts(values, Below(v));
    FilterCounts(values, EqualTo(v));
    assert Where(values, Below(v)) == LessPlaces(values, v);
    assert Where(values, EqualTo(v)) == EqualPlaces(values, v);
  }

  /** The Mann-Whitney kernel: what `v` earns against `w`. */
  function Credit(v: real, w: real): real {
    if w < v then 1.0 else if w == v then 0.5 else 0.0
  }

  function CreditOf(): (real, real) -> real { (v: real, w: real) => Credit(v, w) }

  function CreditOver(v: real): real -> real { (w: real) => Credit(v, w) }

  lemma {:induction false} MidRankIsCredit(values: seq<real>, v: real)
    ensures MidRank(values, v) == Sum(values, CreditOver(v)) + 0.5
  {
    if values != [] { MidRankIsCredit(values[1..], v); }
  }

  lemma {:induction false} MidRankPermutation(a: seq<real>, b: seq<real>, v: real)
    requires multiset(a) == multiset(b)
    ensures MidRank(a, v) == MidRank(b, v)
  {
    FilterPermutation(a, b, Below(v));
    FilterPermutation(a, b, EqualTo(v));
  }

  // ----- The tie-group loops -----

  /** `s[lo..hi + 1]` is a whole group of ties in the ascending `s`. */
  ghost predicate TieGroup(s: seq<real>, lo: nat, hi: nat) {
    && lo <= hi < |s|
    && (forall j | 0 <= j < lo :: s[j] < s[lo])
    && (forall j | lo <= j <= hi :: s[j] == s[lo])
    && (forall j | hi < j < |s| :: s[lo] < s[j])
  }

  lemma {:induction false} TieGroupRank(s: seq<real>, lo: nat, hi: nat)
    requires TieGroup(s, lo, hi)
    ensures MidRank(s, s[lo]) == (lo + hi) as real / 2.0 + 1.0
  {
    var a, b, c := s[..lo], s[lo..hi + 1], s[hi + 1..];
    assert s == a + b + c == [] + a + (b + c);
    MiddleOnly([], a, b + c, Below(s[lo]));
    MiddleOnly(a, b, c, EqualTo(s[lo]));
  }

  lemma {:induction false} MiddleOnly<T>(a: seq<T>, b: seq<T>, c: seq<T>, p: T -> bool)
    requires forall x | x in a :: !p(x)
    requires forall x | x in c :: !p(x)
    requires forall x | x in b :: p(x)
    ensures |Filter(a + b + c, p)| == |b|
  {
    FilterAppend(a + b, c, p);
    FilterAppend(a, b, p);
    FilterNone(a, p);
    FilterAll(b, p);
    FilterNone(c, p);
  }

  /** The inner loop: the last index of the tie group that starts at `index`. */
  method TieGroupEnd(s: seq<real>, index: nat) returns (end: nat)
    requires Sorted(s, Ascending()) && index < |s|
    requires forall j | 0 <= j < index :: s[j] < s[index]
    ensures index <= end < |s| && TieGroup(s, index, end)
    ensures forall j | end < j < |s| :: forall i | 0 <= i <= end :: s[i] < s[j]
  {
    end := index;
    while end + 1 < |s| && s[end + 1] == s[index]
      invariant index <= end < |s|
      invariant forall j | index <= j <= end :: s[j] == s[index]
    {
      end := end + 1;
    }
    forall j | end < j < |s| ensures s[index] < s[j] {
      assert Ascending()(s[end], s[end + 1]);
      assert j > end + 1 ==> Ascending()(s[end + 1], s[j]);
    }
  }

  function Enumerate(values: seq<real>): (r: seq<(nat, real)>)
    ensures |r| == |values| && forall i | 0 <= i < |values| :: r[i] == (i, values[i])
  {
    seq(|values|, i requires 0 <= i < |values| => (i, values[i]))
  }

  function ByValue(): ((nat, real), (nat, real)) -> bool {
    (a: (nat, real), b: (nat, real)) => a.1 <= b.1
  }

  function ValueOf(): ((nat, real)) -> real { (a: (nat, real)) => a.1 }

  lemma {:induction false} SortAscending(values: seq<real>)
    ensures Sorted(SortBy(values, Ascending()), Ascending())
  {
    SortSorted(values, Ascending());
  }

  lemma {:induction false} SortedEntries(values: seq<real>)
    ensures var entries := SortBy(Enumerate(values), ByValue());
      && Map(entries, ValueOf()) == SortBy(values, Ascending())
      && (forall e | e in entries :: e.0 < |values| && e.1 == values[e.0])
      && (forall i | 0 <= i < |values| :: (i, values[i]) in entries)
  {
    SortMap(Enumerate(values), ValueOf(), ByValue(), Ascending());
    assert Map(Enumerate(values), ValueOf()) == values;
    forall i | 0 <= i < |values| ensures (i, values[i]) in SortBy(Enumerate(values), ByValue()) {
      assert Enumerate(values)[i] == (i, values[i]);
    }
  }

  /** Which entries of the sorted list have had their final rank written. */
  ghost predicate Written(ranks: seq<real>, values: seq<real>, first: real, entries: seq<(nat, real)>) {
    forall e | e in entries :: e.0 < |ranks| && ranks[e.0] == MidRank(values, e.1) - 1.0 + first
  }

  /** The innermost loop: one tie group gets its rank, at the places its values came from. */
  method WriteGroup(before: seq<real>, values: seq<real>, first: real, entries: seq<(nat, real)>, index: nat,
                    end: nat, average: real)
    returns (ranks: seq<real>)
    requires index <= end < |entries| && |before| == |values|
    requires forall e | e in entries :: e.0 < |values| && e.1 == values[e.0]
    requires forall j | index <= j <= end :: average == MidRank(values, entries[j].1) - 1.0 + first
    requires Written(before, values, first, entries[..index])
    ensures |ranks| == |values| && Written(ranks, values, first, entries[..end + 1])
  {
    ranks := before;
    for position := index to end + 1
      invariant |ranks| == |values| && Written(ranks, values, first, entries[..position])
    {
      WrittenStep(ranks, values, first, entries, position, average);
      ranks := ranks[entries[position].0 := average];
    }
  }

  /** Both rank loops: the smallest of distinct values is given the rank `first`. */
  method FillAverageRanks(values: seq<real>, first: real) returns (ranks: seq<real>)
    ensures |ranks| == |values|
    ensures forall i | 0 <= i < |values| :: ranks[i] == MidRank(values, values[i]) - 1.0 + first
  {
    hide *;
    var n := |values|;
    var indexed := SortBy(Enumerate(values), ByValue());
    var sorted := Map(indexed, ValueOf());
    SortedEntries(values);
    SortAscending(values);
    ranks := seq(n, _ => 0.0);
    NothingWritten(ranks, values, first, indexed[..0]);
    var index := 0;
    while index < n
      invariant 0 <= index <= n
      invariant index < n ==> forall j | 0 <= j < index :: sorted[j] < sorted[index]
      invariant |ranks| == n && Written(ranks, values, first, indexed[..index])
    {
      var end := TieGroupEnd(sorted, index);
      var average := (index + end) as real / 2.0 + first;
      GroupAverage(values, indexed, sorted, index, end, first);
      ranks := WriteGroup(ranks, values, first, indexed, index, end, average);
      index := end + 1;
    }
    assert indexed[..n] == indexed;
    AllWritten(ranks, values, first, indexed);
  }

  lemma {:induction false} NothingWritten(ranks: seq<real>, values: seq<real>, first: real, entries: seq<(nat, real)>)
    requires entries == []
    ensures Written(ranks, values, first, entries)
  {
  }

  lemma {:induction false} AllWritten(ranks: seq<real>, values: seq<real>, first: real, entries: seq<(nat, real)>)
    requires |ranks| == |values| && Written(ranks, values, first, entries)
    requires forall i | 0 <= i < |values| :: (i, values[i]) in entries
    ensures forall i | 0 <= i < |values| :: ranks[i] == MidRank(values, values[i]) - 1.0 + first
  {
    forall i | 0 <= i < |values| ensures ranks[i] == MidRank(values, values[i]) - 1.0 + first {
      assert (i, values[i]) in entries;
    }
  }

  /** The average the loop computes is the rank, among the unsorted values, of every member of the group. */
  lemma {:induction false} GroupAverage(values: seq<real>, entries: seq<(nat, real)>, sorted: seq<real>, lo: nat,
                                         hi: nat, first: real)
    requires sorted == Map(entries, ValueOf()) && multiset(sorted) == multiset(values)
    requires TieGroup(sorted, lo, hi)
    ensures forall j | lo <= j <= hi :: (lo + hi) as real / 2.0 + first == MidRank(values, entries[j].1) - 1.0 + first
  {
    TieGroupRank(sorted, lo, hi);
    MidRankPermutation(sorted, values, sorted[lo]);
    forall j | lo <= j <= hi ensures entries[j].1 == sorted[lo] {
      assert sorted[j] == ValueOf()(entries[j]);
    }
  }

  lemma {:induction false} WrittenStep(ranks: seq<real>, values: seq<real>, first: real, entries: seq<(nat, real)>,
                                        position: nat, average: real)
    requires position < |entries| && |ranks| == |values|
    requires forall e | e in entries :: e.0 < |values| && e.1 == values[e.0]
    requires average == MidRank(values, entries[position].1) - 1.0 + first
    requires Written(ranks, values, first, entries[..position])
    ensures Written(ranks[entries[position].0 := average], values, first, entries[..position + 1])
  {
    hide MidRank;
    var ranks' := ranks[entries[position].0 := average];
    forall e | e in entries[..position + 1]
      ensures e.0 < |ranks'| && ranks'[e.0] == MidRank(values, e.1) - 1.0 + first
    {
      assert entries[..position + 1] == entries[..position] + [entries[position]];
      assert e in entries;
    }
  }

  /** `_average_ranks`. */
  method AverageRanks(values: seq<real>) returns (ranks: seq<real>)
    ensures ranks == Map(values, RankIn(values))
    ensures forall i | 0 <= i < |values| ::
      ranks[i] == |LessPlaces(values, values[i])| as real + (|EqualPlaces(values, values[i])| as real + 1.0) / 2.0
  {
    forall v { MidRankCounts(values, v); }
    ranks := FillAverageRanks(values, 1.0);
  }

  function Denominator(n: nat): nat { if n <= 2 then 1 else n - 1 }

  function Scaled(zeroBased: real, n: nat): real { zeroBased / Denominator(n) as real }

  function NormalizedRank(values: seq<real>, v: real): real { Scaled(MidRank(values, v) - 1.0, |values|) }

  function NormalizedRankIn(values: seq<real>): real -> real { (v: real) => NormalizedRank(values, v) }

  /** `_normalized_average_ranks`. */
  method NormalizedAverageRanks(values: seq<real>) returns (ranks: seq<real>)
    ensures ranks == Map(values, NormalizedRankIn(values))
    ensures forall i | 0 <= i < |values| :: IsNormalizedRank(ranks[i], values, values[i])
  {
    hide IsNormalizedRank;
    forall i | 0 <= i < |values| ensures IsNormalizedRank(NormalizedRank(values, values[i]), values, values[i]) {
      NormalizedCounts(values, values[i]);
    }
    hide MidRank;
    var zeroBased := FillAverageRanks(values, 0.0);
    ranks := Map(zeroBased, (rank: real) => Scaled(rank, |values|));
  }

  // ----- What every rank vector satisfies -----

  /** Ranks respect the order of the values, strictly and through ties. */
  /** Times n - 1, it counts the smaller values and half of the other equal ones; alone, it is 0. */
  ghost predicate IsNormalizedRank(rank: real, values: seq<real>, v: real) {
    var less, equal := |LessPlaces(values, v)| as real, |EqualPlaces(values, v)| as real;
    if |values| < 2 then rank == 0.0 else rank * (|values| - 1) as real == less + (equal - 1.0) / 2.0
  }

  lemma {:induction false} NormalizedCounts(values: seq<real>, v: real)
    requires v in values
    ensures IsNormalizedRank(NormalizedRank(values, v), values, v)
  {
    hide MidRank;
    MidRankCounts(values, v);
    MidRankRange(values, v);
    DivisionScale(MidRank(values, v) - 1.0, Denominator(|values|) as real);
  }

  lemma {:induction false} MidRankOrder(values: seq<real>, v: real, w: real)
    requires v in values && w in values
    ensures v < w <==> MidRank(values, v) < MidRank(values, w)
    ensures v == w <==> MidRank(values, v) == MidRank(values, w)
  {
    if v < w {
      MidRankStrict(values, v, w);
    } else if w < v {
      MidRankStrict(values, w, v);
    }
  }

  lemma {:induction false} MidRankStrict(values: seq<real>, v: real, w: real)
    requires v in values && v < w
    ensures MidRank(values, v) < MidRank(values, w)
  {
    hide Sum;
    hide MidRank;
    MidRankIsCredit(values, v);
    MidRankIsCredit(values, w);
    var gain := (u: real) => Credit(w, u) - Credit(v, u);
    SumLinear(values, CreditOver(w), 1.0, CreditOver(v), -1.0, gain);
    SumNonNegative(values, gain);
    assert gain(v) == 0.5;
  }

  lemma {:induction false} MidRankRange(values: seq<real>, v: real)
    requires v in values
    ensures 1.0 <= MidRank(values, v) <= |values| as real
  {
    MidRankIsCredit(values, v);
    var above := (u: real) => Credit(u, v);
    var one := (u: real) => 1.0;
    SumNonNegative(values, CreditOver(v));
    SumNonNegative(values, above);
    assert CreditOver(v)(v) == 0.5 && above(v) == 0.5;
    SumLinear(values, CreditOver(v), 1.0, above, 1.0, one);
    SumConst(values, one, 1.0);
  }

  /** However the ties fall, the ranks of `n` values sum to `n(n + 1)/2`. */
  lemma {:induction false} RanksSum(values: seq<real>)
    ensures Sum(Map(values, RankIn(values)), Identity()) == |values| as real * (|values| as real + 1.0) / 2.0
  {
    hide Sum;
    hide MidRank;
    RanksAreCredit(values);
    CreditRows(values);
    SumMap(values, RankIn(values), Identity(), RankIn(values));
    HalfSquare(|values| as real);
  }

  lemma {:induction false} RanksAreCredit(values: seq<real>)
    ensures Sum(values, RankIn(values)) == Sum(values, CreditWithin(values)) + |values| as real * 0.5
  {
    hide Sum;
    hide MidRank;
    forall v | v in values ensures RankIn(values)(v) == 1.0 * CreditWithin(values)(v) + 1.0 * HalfOf()(v) {
      MidRankIsCredit(values, v);
    }
    SumLinear(values, CreditWithin(values), 1.0, HalfOf(), 1.0, RankIn(values));
    SumConst(values, HalfOf(), 0.5);
  }

  function HalfOf(): real -> real { (v: real) => 0.5 }

  function CreditWithin(values: seq<real>): real -> real { (v: real) => Sum(values, CreditOver(v)) }

  lemma {:induction false} CreditRows(values: seq<real>)
    ensures Sum(values, CreditWithin(values)) == |values| as real * |values| as real / 2.0
  {
    forall v | v in values ensures CreditWithin(values)(v) == Sum(values, From(CreditOf(), v)) {
      forall w | w in values ensures CreditOver(v)(w) == From(CreditOf(), v)(w) {}
      SumExt(values, CreditOver(v), From(CreditOf(), v));
    }
    PairsRows(values, values, CreditOf(), CreditWithin(values));
    CreditPairs(values);
  }

  /** Every pair of a list with itself hands out exactly one credit between its two orders. */
  lemma {:induction false} CreditPairs(values: seq<real>)
    ensures Pairs(values, values, CreditOf()) == |values| as real * |values| as real / 2.0
  {
    var half, one := (v: real) => 0.5, (v: real, w: real) => 1.0;
    PairsTriangle(values, CreditOf(), half, one);
    SumConst(values, half, 0.5);
    TriangleConst(values, one, 1.0);
    Choose2Closed(|values|);
    HalfSquare(|values| as real);
  }

  lemma {:induction false} HalfSquare(n: real)
    ensures n * 0.5 + n * (n - 1.0) / 2.0 == n * n / 2.0
    ensures n * n / 2.0 + n * 0.5 == n * (n + 1.0) / 2.0
  {
    assert n * (n - 1.0) == n * n - n;
    assert n * (n + 1.0) == n * n + n;
  }

  // ----- Rank correlation -----

  function Mean(s: seq<real>): real
    requires s != []
  {
    Sum(s, Identity()) / |s| as real
  }

  function SquaredDeviation(mean: real): real -> real { (v: real) => (v - mean) * (v - mean) }

  function CrossDeviation(a: real, b: real): ((real, real)) -> real {
    (p: (real, real)) => (p.0 - a) * (p.1 - b)
  }

  function Scatter(s: seq<real>): real
    requires s != []
  {
    Sum(s, SquaredDeviation(Mean(s)))
  }

  /** `math.sqrt`, by what it promises. */
  ghost predicate IsRoot(root: real, square: real) { root >= 0.0 && root * root == square }

  /** `spearman`, the two square roots being supplied by the caller. */
  function Spearman(left: seq<real>, right: seq<real>, leftNorm: real, rightNorm: real): Result<real> {
    if |left| != |right| then Err(Misaligned)
    else if left == [] then Err(Empty)
    else
      var l, r := Map(left, RankIn(left)), Map(right, RankIn(right));
      if leftNorm == 0.0 || rightNorm == 0.0 then Ok(if left == right then 1.0 else 0.0)
      else Ok(Sum(Zip(l, r), CrossDeviation(Mean(l), Mean(r))) / (leftNorm * rightNorm))
  }

  ghost predicate RankNorms(left: seq<real>, right: seq<real>, leftNorm: real, rightNorm: real) {
    && left != [] && right != []
    && IsRoot(leftNorm, Scatter(Map(left, RankIn(left))))
    && IsRoot(rightNorm, Scatter(Map(right, RankIn(right))))
  }

  /** A rank correlation lies in [-1, 1], whatever the vectors. */
  lemma {:induction false} SpearmanRange(left: seq<real>, right: seq<real>, leftNorm: real, rightNorm: real)
    requires |left| == |right|
    requires RankNorms(left, right, leftNorm, rightNorm)
    ensures Spearman(left, right, leftNorm, rightNorm).Ok?
    ensures -1.0 <= Spearman(left, right, leftNorm, rightNorm).value <= 1.0
  {
    hide Sum;
    var l, r := Map(left, RankIn(left)), Map(right, RankIn(right));
    CovarianceBound(l, r);
    if leftNorm != 0.0 && rightNorm != 0.0 {
      RatioBound(Sum(Zip(l, r), CrossDeviation(Mean(l), Mean(r))), leftNorm, rightNorm, Scatter(l), Scatter(r));
    }
  }

  function Left(mean: real): ((real, real)) -> real { (p: (real, real)) => p.0 - mean }

  function Right(mean: real): ((real, real)) -> real { (p: (real, real)) => p.1 - mean }

  function LeftSquare(mean: real): ((real, real)) -> real { (p: (real, real)) => (p.0 - mean) * (p.0 - mean) }

  function RightSquare(mean: real): ((real, real)) -> real { (p: (real, real)) => (p.1 - mean) * (p.1 - mean) }

  function First(): ((real, real)) -> real { (p: (real, real)) => p.0 }

  function Second(): ((real, real)) -> real { (p: (real, real)) => p.1 }

  lemma {:induction false} CovarianceBound(l: seq<real>, r: seq<real>)
    requires |l| == |r| != 0
    ensures var c := Sum(Zip(l, r), CrossDeviation(Mean(l), Mean(r))); c * c <= Scatter(l) * Scatter(r)
  {
    hide Sum;
    var pairs, a, b := Zip(l, r), Mean(l), Mean(r);
    ScatterOfZip(l, r, a, b);
    CauchySchwarz(pairs, Left(a), Right(b), CrossDeviation(a, b), LeftSquare(a), RightSquare(b));
  }

  lemma {:induction false} ScatterOfZip(l: seq<real>, r: seq<real>, a: real, b: real)
    requires |l| == |r|
    ensures Sum(Zip(l, r), LeftSquare(a)) == Sum(l, SquaredDeviation(a))
    ensures Sum(Zip(l, r), RightSquare(b)) == Sum(r, SquaredDeviation(b))
  {
    hide Sum;
    var pairs := Zip(l, r);
    assert Map(pairs, First()) == l && Map(pairs, Second()) == r;
    SumMap(pairs, First(), SquaredDeviation(a), LeftSquare(a));
    SumMap(pairs, Second(), SquaredDeviation(b), RightSquare(b));
  }

  /** The two vectors order every two rows alike, ties included. */
  ghost predicate Concordant(left: seq<real>, right: seq<real>)
    requires |left| == |right|
  {
    forall i, j | 0 <= i < |left| && 0 <= j < |left| :: left[i] < left[j] <==> right[i] < right[j]
  }

  /** The correlation is 1 exactly when the two vectors are in the same order; vectors all of whose values
      tie count as correlated only when they are equal. */
  lemma {:induction false} SpearmanIsOne(left: seq<real>, right: seq<real>, leftNorm: real, rightNorm: real)
    requires |left| == |right|
    requires RankNorms(left, right, leftNorm, rightNorm)
    ensures Spearman(left, right, leftNorm, rightNorm) == Ok(1.0) <==>
      Concordant(left, right) && (left == right || (leftNorm > 0.0 && rightNorm > 0.0))
  {
    hide Sum;
    hide Concordant;
    hide Scatter;
    hide Mean;
    if left == right { EqualIsConcordant(left); }
    if leftNorm > 0.0 && rightNorm > 0.0 {
      if Concordant(left, right) {
        SpearmanOfSameOrder(left, right, leftNorm, rightNorm);
      } else if Spearman(left, right, leftNorm, rightNorm) == Ok(1.0) {
        PerfectlyCorrelated(left, right, leftNorm, rightNorm);
      }
    }
  }

  lemma {:induction false} EqualIsConcordant(s: seq<real>)
    ensures Concordant(s, s)
  {
  }

  /** The same order gives the same ranks, hence the same norms. */
  lemma {:induction false} SpearmanOfSameOrder(left: seq<real>, right: seq<real>, leftNorm: real, rightNorm: real)
    requires |left| == |right| && Concordant(left, right)
    requires leftNorm > 0.0 && rightNorm > 0.0 && RankNorms(left, right, leftNorm, rightNorm)
    ensures Spearman(left, right, leftNorm, rightNorm) == Ok(1.0)
  {
    hide Sum;
    hide Concordant;
    hide Mean;
    SameOrderSameRanks(left, right);
    var l := Map(left, RankIn(left));
    SelfCovariance(l);
    if leftNorm < rightNorm {
      SquareLess(rightNorm, leftNorm);
    } else if rightNorm < leftNorm {
      SquareLess(leftNorm, rightNorm);
    }
    SelfQuotient(Scatter(l), leftNorm);
  }

  function Residual(x: real, y: real, a: real, b: real): ((real, real)) -> real {
    (p: (real, real)) => (p.0 - a) * y - (p.1 - b) * x
  }

  function ResidualSquare(x: real, y: real, a: real, b: real): ((real, real)) -> real {
    (p: (real, real)) => Residual(x, y, a, b)(p) * Residual(x, y, a, b)(p)
  }

  /** Equality in Cauchy-Schwarz: no residual is left, so the deviations are proportional. */
  lemma {:induction false} NoResidual(l: seq<real>, r: seq<real>, x: real, y: real, xx: real, yy: real, xy: real)
    requires |l| == |r| != 0 && xx == x * x == Scatter(l) && yy == y * y == Scatter(r)
    requires xy == x * y == Sum(Zip(l, r), CrossDeviation(Mean(l), Mean(r)))
    ensures forall i | 0 <= i < |l| :: (l[i] - Mean(l)) * y == (r[i] - Mean(r)) * x
  {
    hide Sum;
    hide Mean;
    var pairs, a, b := Zip(l, r), Mean(l), Mean(r);
    ScatterOfZip(l, r, a, b);
    ResidualTotal(pairs, x, y, a, b, xx, yy, xy);
    SquareOfProduct(x, y, xx, yy, xy);
    assert Sum(pairs, ResidualSquare(x, y, a, b)) == 0.0;
    forall i | 0 <= i < |l| ensures (l[i] - a) * y == (r[i] - b) * x {
      NoSquare(pairs, i, x, y, a, b);
      assert pairs[i] == (l[i], r[i]);
    }
  }

  lemma {:induction false} ResidualTotal(pairs: seq<(real, real)>, x: real, y: real, a: real, b: real,
                                         xx: real, yy: real, xy: real)
    requires xx == x * x && yy == y * y && xy == x * y
    ensures Sum(pairs, ResidualSquare(x, y, a, b)) ==
      yy * Sum(pairs, LeftSquare(a)) + xx * Sum(pairs, RightSquare(b)) + -2.0 * xy * Sum(pairs, CrossDeviation(a, b))
  {
    hide Sum;
    hide ResidualSquare;
    hide CrossDeviation;
    var squares := (p: (real, real)) => yy * LeftSquare(a)(p) + xx * RightSquare(b)(p);
    forall p | p in pairs
      ensures ResidualSquare(x, y, a, b)(p) == 1.0 * squares(p) + -2.0 * xy * CrossDeviation(a, b)(p)
    {
      ResidualTerm(p, x, y, a, b, xx, yy, xy);
    }
    SumLinear(pairs, LeftSquare(a), yy, RightSquare(b), xx, squares);
    SumLinear(pairs, squares, 1.0, CrossDeviation(a, b), -2.0 * xy, ResidualSquare(x, y, a, b));
  }

  lemma {:induction false} ResidualTerm(p: (real, real), x: real, y: real, a: real, b: real, xx: real, yy: real,
                                         xy: real)
    requires xx == x * x && yy == y * y && xy == x * y
    ensures ResidualSquare(x, y, a, b)(p) ==
      1.0 * (yy * LeftSquare(a)(p) + xx * RightSquare(b)(p)) + -2.0 * xy * CrossDeviation(a, b)(p)
  {
    hide Residual;
    var u, v := p.0 - a, p.1 - b;
    assert LeftSquare(a)(p) == u * u && RightSquare(b)(p) == v * v && CrossDeviation(a, b)(p) == u * v;
    ResidualIs(p, x, y, a, b);
    SquareOfDifference(u * y, v * x, LeftSquare(a)(p), RightSquare(b)(p), CrossDeviation(a, b)(p),
                       x, y, u, v, xx, yy, xy);
  }

  lemma {:induction false} ResidualIs(p: (real, real), x: real, y: real, a: real, b: real)
    ensures Residual(x, y, a, b)(p) == (p.0 - a) * y - (p.1 - b) * x
  {
  }

  lemma {:induction false} SquareOfDifference(s: real, t: real, uu: real, vv: real, uv: real,
                                              x: real, y: real, u: real, v: real, xx: real, yy: real, xy: real)
    requires s == u * y && t == v * x && uu == u * u && vv == v * v && uv == u * v
    requires xx == x * x && yy == y * y && xy == x * y
    ensures (s - t) * (s - t) == 1.0 * (yy * uu + xx * vv) + -2.0 * xy * uv
  {
    SquareOfProduct(u, y, uu, yy, s);
    SquareOfProduct(v, x, vv, xx, t);
    assert s * t == xy * uv by {
      assert u * y * (v * x) == x * y * (u * v);
    }
    assert (s - t) * (s - t) == s * s - 2.0 * (s * t) + t * t;
    assert -2.0 * xy * uv == -2.0 * (xy * uv);
  }

  lemma {:induction false} NoSquare(pairs: seq<(real, real)>, i: nat, x: real, y: real, a: real, b: real)
    requires i < |pairs| && Sum(pairs, ResidualSquare(x, y, a, b)) == 0.0
    ensures Residual(x, y, a, b)(pairs[i]) == 0.0
  {
    hide Sum;
    forall p | p in pairs ensures ResidualSquare(x, y, a, b)(p) >= 0.0 {
      SquareSign(Residual(x, y, a, b)(p));
    }
    SumNonNegative(pairs, ResidualSquare(x, y, a, b));
    assert pairs[i] in pairs;
    SquareSign(Residual(x, y, a, b)(pairs[i]));
  }

  lemma {:induction false} PerfectlyCorrelated(left: seq<real>, right: seq<real>, x: real, y: real)
    requires |left| == |right| && x > 0.0 && y > 0.0 && RankNorms(left, right, x, y)
    requires Spearman(left, right, x, y) == Ok(1.0)
    ensures Concordant(left, right)
  {
    hide Sum;
    hide Mean;
    hide Scatter;
    hide MidRank;
    var l, r := Map(left, RankIn(left)), Map(right, RankIn(right));
    UnitQuotient(Sum(Zip(l, r), CrossDeviation(Mean(l), Mean(r))), x, y);
    NoResidual(l, r, x, y, x * x, y * y, x * y);
    forall i, j | 0 <= i < |left| && 0 <= j < |left| ensures left[i] < left[j] <==> right[i] < right[j] {
      Proportional(x, y, l[i] - Mean(l), l[j] - Mean(l), r[i] - Mean(r), r[j] - Mean(r));
      MidRankOrder(left, left[i], left[j]);
      MidRankOrder(right, right[i], right[j]);
    }
  }

  lemma {:induction false} Proportional(x: real, y: real, u: real, u': real, v: real, v': real)
    requires x > 0.0 && y > 0.0 && u * y == v * x && u' * y == v' * x
    ensures u < u' <==> v < v'
  {
    ProductOrder(u, u', y);
    ProductOrder(v, v', x);
  }

  lemma {:induction false} SelfCovariance(l: seq<real>)
    requires l != []
    ensures Sum(Zip(l, l), CrossDeviation(Mean(l), Mean(l))) == Scatter(l)
  {
    hide Sum;
    var pairs, m := Zip(l, l), Mean(l);
    ScatterOfZip(l, l, m, m);
    forall p | p in pairs ensures LeftSquare(m)(p) == CrossDeviation(m, m)(p) {
      assert p.0 == p.1;
    }
    SumExt(pairs, LeftSquare(m), CrossDeviation(m, m));
  }

  lemma {:induction false} SameOrderSameRanks(left: seq<real>, right: seq<real>)
    requires |left| == |right| && Concordant(left, right)
    ensures Map(left, RankIn(left)) == Map(right, RankIn(right))
  {
    hide MidRank;
    hide Concordant;
    forall i | 0 <= i < |left| ensures MidRank(left, left[i]) == MidRank(right, right[i]) {
      SameRank(left, right, i);
    }
  }

  function EarnedBy(v: real): ((real, real)) -> real { (p: (real, real)) => Credit(v, p.0) }

  lemma {:induction false} SameCredit(left: seq<real>, right: seq<real>, i: nat, j: nat)
    requires |left| == |right| && i < |left| && j < |left| && Concordant(left, right)
    ensures EarnedBy(left[i])((left[j], right[j])) == CreditOver(right[i])((left[j], right[j]).1)
  {
    assert left[j] < left[i] <==> right[j] < right[i];
    assert left[i] < left[j] <==> right[i] < right[j];
  }

  lemma {:induction false} SameRank(left: seq<real>, right: seq<real>, i: nat)
    requires |left| == |right| && i < |left| && Concordant(left, right)
    ensures MidRank(left, left[i]) == MidRank(right, right[i])
  {
    hide Sum;
    hide MidRank;
    var pairs, v, w := Zip(left, right), left[i], right[i];
    forall p | p in pairs ensures EarnedBy(v)(p) == CreditOver(w)(p.1) {
      var j :| 0 <= j < |left| && pairs[j] == p;
      SameCredit(left, right, i, j);
    }
    MidRankIsCredit(left, v);
    MidRankIsCredit(right, w);
    assert Map(pairs, First()) == left && Map(pairs, Second()) == right;
    SumMap(pairs, First(), CreditOver(v), EarnedBy(v));
    SumMap(pairs, Second(), CreditOver(w), EarnedBy(v));
  }

  /** The product of two rows' rank deviations from the mean rank (n + 1) / 2. */
  function RankProduct(left: seq<real>, right: seq<real>): int -> real {
    (i: int) =>
      if 0 <= i < |left| && i < |right| then
        (MidRank(left, left[i]) - (|left| as real + 1.0) / 2.0)
        * (MidRank(right, right[i]) - (|right| as real + 1.0) / 2.0)
      else 0.0
  }

  /** What `spearman` returns: the product sum of the rank deviations over the product of the norms, which
      are the roots of their square sums; and 1 or 0 when all values of a vector tie. */
  lemma {:induction false} SpearmanMeans(left: seq<real>, right: seq<real>, leftNorm: real, rightNorm: real)
    requires |left| == |right| && RankNorms(left, right, leftNorm, rightNorm)
    ensures leftNorm * leftNorm == Sum(Indices(|left|), RankProduct(left, left))
    ensures rightNorm * rightNorm == Sum(Indices(|right|), RankProduct(right, right))
    ensures var r := Spearman(left, right, leftNorm, rightNorm);
      if leftNorm > 0.0 && rightNorm > 0.0
      then r.Ok? && r.value * (leftNorm * rightNorm) == Sum(Indices(|left|), RankProduct(left, right))
      else r == Ok(if left == right then 1.0 else 0.0)
  {
    hide Sum;
    hide MidRank;
    var l, r := Map(left, RankIn(left)), Map(right, RankIn(right));
    MeanRank(left);
    MeanRank(right);
    ProductsByIndex(left, right);
    ProductsByIndex(left, left);
    ProductsByIndex(right, right);
    SelfCovariance(l);
    SelfCovariance(r);
    if leftNorm > 0.0 && rightNorm > 0.0 {
      ProductPositive(leftNorm, rightNorm, leftNorm * rightNorm);
      DivisionScale(Sum(Zip(l, r), CrossDeviation(Mean(l), Mean(r))), leftNorm * rightNorm);
    }
  }

  lemma {:induction false} MeanRank(values: seq<real>)
    requires values != []
    ensures Mean(Map(values, RankIn(values))) == (|values| as real + 1.0) / 2.0
  {
    hide Sum;
    hide MidRank;
    RanksSum(values);
    var n := |values| as real;
    var total := Sum(Map(values, RankIn(values)), Identity());
    assert (n + 1.0) / 2.0 * n == total;
    SameQuotient((n + 1.0) / 2.0, total, n);
  }

  lemma {:induction false} ProductsByIndex(left: seq<real>, right: seq<real>)
    requires |left| == |right| != 0
    ensures var l, r := Map(left, RankIn(left)), Map(right, RankIn(right));
      var a, b := (|left| as real + 1.0) / 2.0, (|right| as real + 1.0) / 2.0;
      Sum(Zip(l, r), CrossDeviation(a, b)) == Sum(Indices(|left|), RankProduct(left, right))
  {
    hide Sum;
    hide MidRank;
    var l, r := Map(left, RankIn(left)), Map(right, RankIn(right));
    var a, b := (|left| as real + 1.0) / 2.0, (|right| as real + 1.0) / 2.0;
    assert Map(Indices(|left|), RanksAt(left, right)) == Zip(l, r);
    SumMap(Indices(|left|), RanksAt(left, right), CrossDeviation(a, b), RankProduct(left, right));
  }

  function RanksAt(left: seq<real>, right: seq<real>): int -> (real, real) {
    (i: int) =>
      if 0 <= i < |left| && i < |right| then (MidRank(left, left[i]), MidRank(right, right[i])) else (0.0, 0.0)
  }

  // ----- Rank averaging -----

  /** What vector `v` says about position `i`. */
  function NormalizedAt(i: int): seq<real> -> real {
    (v: seq<real>) => if 0 <= i < |v| then NormalizedRank(v, v[i]) else 0.0
  }

  function AveragedAt(predictions: seq<seq<real>>): int -> real {
    (i: int) => if predictions == [] then 0.0 else Sum(predictions, NormalizedAt(i)) / |predictions| as real
  }

  ghost predicate Aligned(predictions: seq<seq<real>>) {
    predictions != [] && predictions[0] != [] && AllOfLength(predictions, |predictions[0]|)
  }

  ghost predicate IsMean(mean: real, total: real, n: nat) { mean * n as real == total }

  predicate AllOfLength(predictions: seq<seq<real>>, length: nat) {
    forall v | v in predictions :: |v| == length
  }

  function ValueAt(i: int): seq<real> -> real { (v: seq<real>) => if 0 <= i < |v| then v[i] else 0.0 }

  /** `rank_average`. */
  method RankAverage(predictions: seq<seq<real>>) returns (r: Result<seq<real>>)
    ensures r.Ok? <==> Aligned(predictions)
    ensures r.Ok? ==> r.value == Map(Indices(|predictions[0]|), AveragedAt(predictions))
    ensures r.Ok? ==> forall i | 0 <= i < |r.value| ::
      IsMean(r.value[i], Sum(predictions, NormalizedAt(i)), |predictions|)
    ensures r.Err? ==> r.error == if predictions == [] then Empty else Misaligned
  {
    if |predictions| == 0 { return Err(Empty); }
    var length := |predictions[0]|;
    hide *;
    if length == 0 || !AllOfLength(predictions, length) {
      NotAligned(predictions);
      return Err(Misaligned);
    }
    IsAligned(predictions);
    var means := AverageRows(predictions);
    r := Ok(means);
  }

  lemma {:induction false} IsAligned(predictions: seq<seq<real>>)
    requires predictions != [] && predictions[0] != [] && AllOfLength(predictions, |predictions[0]|)
    ensures Aligned(predictions)
  {
  }

  lemma {:induction false} NotAligned(predictions: seq<seq<real>>)
    requires predictions != [] && (predictions[0] == [] || !AllOfLength(predictions, |predictions[0]|))
    ensures !Aligned(predictions)
  {
  }

  method AverageRows(predictions: seq<seq<real>>) returns (means: seq<real>)
    requires Aligned(predictions)
    ensures means == Map(Indices(|predictions[0]|), AveragedAt(predictions))
    ensures forall i | 0 <= i < |means| :: IsMean(means[i], Sum(predictions, NormalizedAt(i)), |predictions|)
  {
    AveragedTotals(predictions);
    hide *;
    var rankVectors := RankVectors(predictions);
    AllMeans(predictions, rankVectors);
    means := Map(Indices(|predictions[0]|), MeanAt(rankVectors));
  }

  lemma {:induction false} AveragedTotals(predictions: seq<seq<real>>)
    requires predictions != []
    ensures forall i :: IsMean(AveragedAt(predictions)(i), Sum(predictions, NormalizedAt(i)), |predictions|)
  {
    hide Sum;
    forall i ensures IsMean(AveragedAt(predictions)(i), Sum(predictions, NormalizedAt(i)), |predictions|) {
      DivisionScale(Sum(predictions, NormalizedAt(i)), |predictions| as real);
    }
  }

  /** One normalized rank vector per prediction vector. */
  method RankVectors(predictions: seq<seq<real>>) returns (rankVectors: seq<seq<real>>)
    ensures |rankVectors| == |predictions|
    ensures forall j | 0 <= j < |predictions| :: rankVectors[j] == Map(predictions[j], NormalizedRankIn(predictions[j]))
  {
    hide NormalizedRankIn;
    rankVectors := [];
    for k := 0 to |predictions|
      invariant |rankVectors| == k
      invariant forall j | 0 <= j < k :: rankVectors[j] == Map(predictions[j], NormalizedRankIn(predictions[j]))
    {
      var ranks := NormalizedAverageRanks(predictions[k]);
      rankVectors := rankVectors + [ranks];
    }
  }

  function MeanAt(vectors: seq<seq<real>>): int -> real {
    (i: int) => if vectors == [] then 0.0 else Sum(vectors, ValueAt(i)) / |vectors| as real
  }

  lemma {:induction false} AllMeans(predictions: seq<seq<real>>, rankVectors: seq<seq<real>>)
    requires Aligned(predictions) && |rankVectors| == |predictions|
    requires forall j | 0 <= j < |predictions| ::
      rankVectors[j] == Map(predictions[j], NormalizedRankIn(predictions[j]))
    ensures var rows := Indices(|predictions[0]|); Map(rows, MeanAt(rankVectors)) == Map(rows, AveragedAt(predictions))
  {
    hide NormalizedRankIn;
    hide Sum;
    forall i | 0 <= i < |predictions[0]| ensures MeanAt(rankVectors)(i) == AveragedAt(predictions)(i) {
      VectorSums(predictions, rankVectors, i);
    }
  }

  lemma {:induction false} VectorSums(predictions: seq<seq<real>>, rankVectors: seq<seq<real>>, i: nat)
    requires |rankVectors| == |predictions|
    requires forall v | v in predictions :: i < |v|
    requires forall j | 0 <= j < |predictions| ::
      rankVectors[j] == Map(predictions[j], NormalizedRankIn(predictions[j]))
    ensures Sum(rankVectors, ValueAt(i)) == Sum(predictions, NormalizedAt(i))
  {
    if predictions != [] {
      assert predictions[0] in predictions;
      VectorSums(predictions[1..], rankVectors[1..], i);
    }
  }

  /** Averaged ranks stay within [0, 1]. */
  lemma {:induction false} RankAverageRange(predictions: seq<seq<real>>, i: nat)
    requires Aligned(predictions) && i < |predictions[0]|
    ensures 0.0 <= AveragedAt(predictions)(i) <= 1.0
  {
    hide Sum;
    var zero, one := (v: seq<real>) => 0.0, (v: seq<real>) => 1.0;
    forall v | v in predictions ensures zero(v) <= NormalizedAt(i)(v) <= one(v) {
      NormalizedRange(v, v[i]);
    }
    SumMonotone(predictions, zero, NormalizedAt(i));
    SumMonotone(predictions, NormalizedAt(i), one);
    SumConst(predictions, zero, 0.0);
    SumConst(predictions, one, 1.0);
    DivisionRange(Sum(predictions, NormalizedAt(i)), |predictions| as real);
  }

  /** An order that every seed agrees on survives the averaging: ties stay ties, and one strict
      preference without a dissenting one is strict in the average. */
  lemma {:induction false} RankAverageOrder(predictions: seq<seq<real>>, i: nat, j: nat)
    requires Aligned(predictions) && i < |predictions[0]| && j < |predictions[0]|
    requires forall v | v in predictions :: v[i] <= v[j]
    ensures AveragedAt(predictions)(i) <= AveragedAt(predictions)(j)
    ensures AveragedAt(predictions)(i) == AveragedAt(predictions)(j) <==> forall v | v in predictions :: v[i] == v[j]
  {
    hide Sum;
    hide NormalizedRank;
    PreferenceSigns(predictions, i, j);
    SumLinear(predictions, NormalizedAt(j), 1.0, NormalizedAt(i), -1.0, Preference(i, j));
    DivisionOrder(Sum(predictions, NormalizedAt(i)), Sum(predictions, NormalizedAt(j)), |predictions| as real);
  }

  lemma {:induction false} PreferenceSigns(predictions: seq<seq<real>>, i: nat, j: nat)
    requires Aligned(predictions) && i < |predictions[0]| && j < |predictions[0]|
    requires forall v | v in predictions :: v[i] <= v[j]
    ensures Sum(predictions, Preference(i, j)) >= 0.0
    ensures Sum(predictions, Preference(i, j)) == 0.0 <==> forall v | v in predictions :: v[i] == v[j]
  {
    hide Sum;
    hide NormalizedRank;
    forall v | v in predictions ensures Preference(i, j)(v) >= 0.0 && (Preference(i, j)(v) == 0.0 <==> v[i] == v[j]) {
      NormalizedOrder(v, v[i], v[j]);
      assert NormalizedAt(i)(v) == NormalizedRank(v, v[i]);
      assert NormalizedAt(j)(v) == NormalizedRank(v, v[j]);
    }
    SumNonNegative(predictions, Preference(i, j));
    if forall v | v in predictions :: v[i] == v[j] {
      SumConst(predictions, Preference(i, j), 0.0);
    }
  }

  function Preference(i: int, j: int): seq<real> -> real {
    (v: seq<real>) => NormalizedAt(j)(v) - NormalizedAt(i)(v)
  }

  lemma {:induction false} NormalizedRange(values: seq<real>, v: real)
    requires v in values
    ensures 0.0 <= NormalizedRank(values, v) <= 1.0
  {
    MidRankRange(values, v);
    DivisionRange(MidRank(values, v) - 1.0, Denominator(|values|) as real);
  }

  /** Dividing by the same positive denominator keeps the order of the ranks, hence of the values. */
  lemma {:induction false} NormalizedOrder(values: seq<real>, v: real, w: real)
    requires v in values && w in values
    ensures NormalizedRank(values, v) <= NormalizedRank(values, w) <==> v <= w
    ensures NormalizedRank(values, v) == NormalizedRank(values, w) <==> v == w
  {
    hide MidRank;
    MidRankOrder(values, v, w);
    DivisionOrder(MidRank(values, v) - 1.0, MidRank(values, w) - 1.0, Denominator(|values|) as real);
  }

  /** Whatever is averaged, the averaged ranks of `n >= 2` rows sum to `n/2`. */
  lemma {:induction false} RankAverageSum(predictions: seq<seq<real>>)
    requires Aligned(predictions) && |predictions[0]| >= 2
    ensures Sum(Indices(|predictions[0]|), AveragedAt(predictions)) == |predictions[0]| as real / 2.0
  {
    hide Sum;
    hide NormalizedAt;
    var n, m := |predictions[0]|, |predictions| as real;
    AllRowsSum(predictions);
    forall i | i in Indices(n)
      ensures AveragedAt(predictions)(i) == 1.0 / m * TotalAt(predictions)(i) + 0.0 * TotalAt(predictions)(i)
    {
      DivisionScale(TotalAt(predictions)(i), m);
    }
    SumLinear(Indices(n), TotalAt(predictions), 1.0 / m, TotalAt(predictions), 0.0, AveragedAt(predictions));
    MeanOfSame(m, n as real / 2.0);
  }

  lemma {:induction false} MeanOfSame(m: real, x: real)
    requires m > 0.0
    ensures 1.0 / m * (m * x) == x
  {
    var e := 1.0 / m;
    assert e * m == 1.0;
    assert e * (m * x) == e * m * x;
  }

  function TotalAt(predictions: seq<seq<real>>): int -> real { (i: int) => Sum(predictions, NormalizedAt(i)) }

  /** Summing row by row, each vector contributes `n/2`. */
  lemma {:induction false} AllRowsSum(predictions: seq<seq<real>>)
    requires Aligned(predictions) && |predictions[0]| >= 2
    ensures Sum(Indices(|predictions[0]|), TotalAt(predictions)) ==
      |predictions| as real * (|predictions[0]| as real / 2.0)
  {
    hide Sum;
    hide NormalizedAt;
    var n := |predictions[0]|;
    var cell := (v: seq<real>, i: int) => NormalizedAt(i)(v);
    var half := (v: seq<real>) => n as real / 2.0;
    forall v | v in predictions ensures half(v) == Sum(Indices(n), From(cell, v)) {
      NormalizedSum(v, From(cell, v));
    }
    PairsRows(predictions, Indices(n), cell, half);
    forall i | i in Indices(n) ensures TotalAt(predictions)(i) == Sum(predictions, Into(cell, i)) {
      SumExt(predictions, NormalizedAt(i), Into(cell, i));
    }
    PairsColumns(predictions, Indices(n), cell, TotalAt(predictions));
    SumConst(predictions, half, n as real / 2.0);
  }

  lemma {:induction false} NormalizedSum(v: seq<real>, row: int -> real)
    requires |v| >= 2
    requires forall i | 0 <= i < |v| :: row(i) == NormalizedAt(i)(v)
    ensures Sum(Indices(|v|), row) == |v| as real / 2.0
  {
    hide Sum;
    var at := (i: int) => if 0 <= i < |v| then v[i] else 0.0;
    assert Map(Indices(|v|), at) == v;
    SumMap(Indices(|v|), at, NormalizedRankIn(v), row);
    NormalizedTotal(v);
  }

  lemma {:induction false} NormalizedTotal(v: seq<real>)
    requires |v| >= 2
    ensures Sum(v, NormalizedRankIn(v)) == |v| as real / 2.0
  {
    hide Sum;
    hide NormalizedRank;
    hide MidRank;
    var one, d := (w: real) => 1.0, Denominator(|v|) as real;
    forall w | w in v ensures NormalizedRankIn(v)(w) == 1.0 / d * RankIn(v)(w) + -1.0 / d * one(w) {
      NormalizedIsLinear(v, w);
    }
    SumLinear(v, RankIn(v), 1.0 / d, one, -1.0 / d, NormalizedRankIn(v));
    SumConst(v, one, 1.0);
    SumMap(v, RankIn(v), Identity(), RankIn(v));
    RanksSum(v);
    HalfOfRanks(|v| as real, d);
  }

  lemma {:induction false} NormalizedIsLinear(values: seq<real>, v: real)
    ensures var d := Denominator(|values|) as real;
      NormalizedRank(values, v) == 1.0 / d * MidRank(values, v) + -1.0 / d * 1.0
  {
    hide MidRank;
    var x, d := MidRank(values, v), Denominator(|values|) as real;
    calc {
      (x - 1.0) / d;
    == { DivisionScale(x - 1.0, d); }
      1.0 / d * (x - 1.0);
    == { Distribute(x, 1.0, 1.0 / d); }
      1.0 / d * x + -1.0 / d * 1.0;
    }
  }

  lemma {:induction false} HalfOfRanks(n: real, d: real)
    requires n >= 2.0 && d == n - 1.0
    ensures 1.0 / d * (n * (n + 1.0) / 2.0) + -1.0 / d * (n * 1.0) == n / 2.0
  {
    var e := 1.0 / d;
    assert e * d == 1.0;
    assert n * (n + 1.0) / 2.0 - n == n / 2.0 * d;
    assert e * (n / 2.0 * d) == e * d * (n / 2.0);
  }
}
