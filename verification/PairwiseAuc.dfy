/** AUC by tie-averaged rank sums (metrics.py) and the pair count it is meant to equal. */
module PairwiseAuc {
  import opened Reals
  import opened Results
  import opened Sums
  import opened Counting
  import opened Sorting
  import opened Ranks

  datatype Item = Item(score: real, lab: int)

  function ScoreOf(): Item -> real { (x: Item) => x.score }

  function LabelOf(): Item -> int { (x: Item) => x.lab }

  predicate Binary(labels: seq<int>) { forall i | 0 <= i < |labels| :: labels[i] == 0 || labels[i] == 1 }

  function Labels(items: seq<Item>): seq<int> { Map(items, LabelOf()) }

  function Scores(items: seq<Item>): seq<real> { Map(items, ScoreOf()) }

  function LabelSum(labels: seq<int>): int {
    if labels == [] then 0 else labels[0] + LabelSum(labels[1..])
  }

  lemma {:induction false} LabelSumBinary(labels: seq<int>)
    requires Binary(labels)
    ensures 0 <= LabelSum(labels) <= |labels|
  {
    if labels != [] { LabelSumBinary(labels[1..]); }
  }

  function IsPositive(): Item -> real { (x: Item) => if x.lab == 1 then 1.0 else 0.0 }

  lemma {:induction false} PositivesSum(items: seq<Item>)
    requires Binary(Labels(items))
    ensures Sum(items, IsPositive()) == LabelSum(Labels(items)) as real
  {
    if items != [] {
      assert Labels(items)[0] == items[0].lab;
      assert Labels(items)[1..] == Labels(items[1..]);
      PositivesSum(items[1..]);
    }
  }

  // ----- The reference: counting pairs -----

  /** What a pair of a positive and a negative row earns; other pairs earn nothing. */
  function PairCredit(): (Item, Item) -> real {
    (x: Item, y: Item) => if x.lab == 1 && y.lab == 0 then Credit(x.score, y.score) else 0.0
  }

  /** (Positive, negative) pairs in the right order, ties counting half. */
  function Wins(items: seq<Item>): real { Pairs(items, items, PairCredit()) }

  /** The Mann-Whitney statistic. */
  function MannWhitney(items: seq<Item>): real {
    var p := LabelSum(Labels(items));
    var n := |items| - p;
    if p == 0 || n == 0 then 0.5 else Wins(items) / (p * n) as real
  }

  function HasLabel(lab: int): Item -> bool { (x: Item) => x.lab == lab }

  function Won(): (Item, Item) -> bool { (x: Item, y: Item) => x.lab == 1 && y.lab == 0 && x.score > y.score }

  function Drawn(): (Item, Item) -> bool { (x: Item, y: Item) => x.lab == 1 && y.lab == 0 && x.score == y.score }

  function WonCredit(): (Item, Item) -> real { (x: Item, y: Item) => if Won()(x, y) then 1.0 else 0.0 }

  function DrawnCredit(): (Item, Item) -> real { (x: Item, y: Item) => if Drawn()(x, y) then 1.0 else 0.0 }

  /** The statistic's numerator is a number of index pairs, its factors numbers of rows. */
  lemma {:induction false} WinsAreCounts(items: seq<Item>)
    requires Binary(Labels(items))
    ensures LabelSum(Labels(items)) == |Where(items, HasLabel(1))|
    ensures |items| - LabelSum(Labels(items)) == |Where(items, HasLabel(0))|
    ensures Wins(items) == |Cells(items, items, Won())| as real + |Cells(items, items, Drawn())| as real / 2.0
  {
    hide Sum;
    hide Pairs;
    PositivesSum(items);
    NegativesSum(items);
    SumCounts(items, HasLabel(1), IsPositive());
    SumCounts(items, HasLabel(0), IsNegative());
    forall x, y | x in items && y in items
      ensures PairCredit()(x, y) == 1.0 * WonCredit()(x, y) + 0.5 * DrawnCredit()(x, y)
    {
      SplitPair(x, y);
    }
    PairsLinear(items, items, WonCredit(), 1.0, DrawnCredit(), 0.5, PairCredit());
    forall x, y ensures WonCredit()(x, y) == if Won()(x, y) then 1.0 else 0.0 {}
    forall x, y ensures DrawnCredit()(x, y) == if Drawn()(x, y) then 1.0 else 0.0 {}
    PairsCount(items, items, Won(), WonCredit());
    PairsCount(items, items, Drawn(), DrawnCredit());
  }

  lemma {:induction false} SplitPair(x: Item, y: Item)
    ensures PairCredit()(x, y) == 1.0 * WonCredit()(x, y) + 0.5 * DrawnCredit()(x, y)
  {
    assert WonCredit()(x, y) == if x.lab == 1 && y.lab == 0 && x.score > y.score then 1.0 else 0.0 by {
      assert Won()(x, y) <==> x.lab == 1 && y.lab == 0 && x.score > y.score;
    }
    assert DrawnCredit()(x, y) == if x.lab == 1 && y.lab == 0 && x.score == y.score then 1.0 else 0.0 by {
      assert Drawn()(x, y) <==> x.lab == 1 && y.lab == 0 && x.score == y.score;
    }
  }

  /** The index pairs of a row labelled 1 and a row labelled 0 that the scores put in the right order. */
  ghost function WonPlaces(labels: seq<int>, scores: seq<real>): set<(int, int)>
    requires |labels| == |scores|
  {
    set i, j | 0 <= i < |labels| && 0 <= j < |labels| && labels[i] == 1 && labels[j] == 0 && scores[i] > scores[j] ::
      (i, j)
  }

  ghost function DrawnPlaces(labels: seq<int>, scores: seq<real>): set<(int, int)>
    requires |labels| == |scores|
  {
    set i, j | 0 <= i < |labels| && 0 <= j < |labels| && labels[i] == 1 && labels[j] == 0 && scores[i] == scores[j] ::
      (i, j)
  }

  ghost function LabelPlaces(labels: seq<int>, lab: int): set<int> { set i | 0 <= i < |labels| && labels[i] == lab }

  /** AUC times P times N is the number of (positive, negative) pairs in the right order plus half the
      tied ones. */
  lemma {:induction false} AucCountsPairs(labels: seq<int>, scores: seq<real>)
    requires |labels| == |scores| && Binary(labels)
    ensures var auc, p, n := MannWhitney(ZipItems(labels, scores)), |LabelPlaces(labels, 1)|, |LabelPlaces(labels, 0)|;
      if p == 0 || n == 0 then auc == 0.5
      else auc * (p * n) as real ==
           |WonPlaces(labels, scores)| as real + |DrawnPlaces(labels, scores)| as real / 2.0
  {
    hide Wins;
    hide LabelSum;
    var items := ZipItems(labels, scores);
    ZipLabels(labels, scores);
    WinsAreCounts(items);
    assert Where(items, HasLabel(1)) == LabelPlaces(labels, 1);
    assert Where(items, HasLabel(0)) == LabelPlaces(labels, 0);
    assert Cells(items, items, Won()) == WonPlaces(labels, scores);
    assert Cells(items, items, Drawn()) == DrawnPlaces(labels, scores);
    var p, n := |LabelPlaces(labels, 1)|, |LabelPlaces(labels, 0)|;
    if p != 0 && n != 0 {
      ProductPositive(p as real, n as real, (p * n) as real);
      DivisionScale(Wins(items), (p * n) as real);
    }
  }

  lemma {:induction false} MannWhitneyPermutation(a: seq<Item>, b: seq<Item>)
    requires multiset(a) == multiset(b)
    requires Binary(Labels(a)) && Binary(Labels(b))
    ensures LabelSum(Labels(a)) == LabelSum(Labels(b))
    ensures Wins(a) == Wins(b) && MannWhitney(a) == MannWhitney(b)
  {
    PairsPermutation(a, b, PairCredit());
    SumPermutation(a, b, IsPositive());
    PositivesSum(a);
    PositivesSum(b);
    SameElements(a, b);
  }

  // ----- Rank sums count pairs -----

  function PositiveRank(scores: seq<real>): Item -> real {
    (x: Item) => if x.lab == 1 then MidRank(scores, x.score) else 0.0
  }

  function PositivePairCredit(): (Item, Item) -> real {
    (x: Item, y: Item) => if x.lab == 1 && y.lab == 1 then Credit(x.score, y.score) else 0.0
  }

  function AnyCredit(): (Item, Item) -> real {
    (x: Item, y: Item) => if x.lab == 1 then Credit(x.score, y.score) else 0.0
  }

  function CreditOfPositive(items: seq<Item>): Item -> real {
    (x: Item) => Sum(items, From(AnyCredit(), x))
  }

  lemma {:induction false} PositiveRankIsCredit(items: seq<Item>, x: Item)
    ensures PositiveRank(Scores(items))(x) == CreditOfPositive(items)(x) + 0.5 * IsPositive()(x)
  {
    if x.lab == 1 {
      MidRankIsCredit(Scores(items), x.score);
      SumMap(items, ScoreOf(), CreditOver(x.score), From(AnyCredit(), x));
    } else {
      SumConst(items, From(AnyCredit(), x), 0.0);
    }
  }

  /** The ranks of the positives exceed the least they could be by exactly the pairs they win. */
  lemma {:induction false} RankSumCountsPairs(items: seq<Item>)
    requires Binary(Labels(items))
    ensures var p := LabelSum(Labels(items)) as real;
      Sum(items, PositiveRank(Scores(items))) == Wins(items) + p * (p + 1.0) / 2.0
  {
    hide Sum;
    hide Pairs;
    var p := Sum(items, IsPositive());
    PositivesSum(items);
    forall x | x in items
      ensures PositiveRank(Scores(items))(x) == 1.0 * CreditOfPositive(items)(x) + 0.5 * IsPositive()(x)
    {
      PositiveRankIsCredit(items, x);
    }
    SumLinear(items, CreditOfPositive(items), 1.0, IsPositive(), 0.5, PositiveRank(Scores(items)));
    PairsRows(items, items, AnyCredit(), CreditOfPositive(items));
    SplitCredit(items);
    PositivePairs(items);
    HalfSquare(p);
  }

  lemma {:induction false} SplitCredit(items: seq<Item>)
    requires Binary(Labels(items))
    ensures Pairs(items, items, AnyCredit()) == Wins(items) + Pairs(items, items, PositivePairCredit())
  {
    hide Pairs;
    forall x, y | x in items && y in items
      ensures AnyCredit()(x, y) == 1.0 * PairCredit()(x, y) + 1.0 * PositivePairCredit()(x, y)
    {
      BinaryLabel(items, y);
    }
    PairsLinear(items, items, PairCredit(), 1.0, PositivePairCredit(), 1.0, AnyCredit());
  }

  lemma {:induction false} BinaryLabel(items: seq<Item>, x: Item)
    requires Binary(Labels(items)) && x in items
    ensures x.lab == 0 || x.lab == 1
  {
    var i :| 0 <= i < |items| && items[i] == x;
    assert Labels(items)[i] == x.lab;
  }

  lemma {:induction false} PositivePairs(items: seq<Item>)
    ensures var p := Sum(items, IsPositive()); 2.0 * Pairs(items, items, PositivePairCredit()) == p * p
  {
    hide Sum;
    hide Pairs;
    forall x, y | x in items && y in items
      ensures PositivePairCredit()(x, y) + PositivePairCredit()(y, x) == IsPositive()(x) * IsPositive()(y)
    {
    }
    PairsHalfSquare(items, IsPositive(), PositivePairCredit());
  }

  // ----- The loop -----

  function ZipItems(labels: seq<int>, scores: seq<real>): (r: seq<Item>)
    requires |labels| == |scores|
    ensures |r| == |labels| && forall i | 0 <= i < |labels| :: r[i] == Item(scores[i], labels[i])
  {
    seq(|labels|, i requires 0 <= i < |labels| => Item(scores[i], labels[i]))
  }

  /** Python's order on `(score, label)` tuples. */
  function Lexicographic(): (Item, Item) -> bool {
    (x: Item, y: Item) => x.score < y.score || (x.score == y.score && x.lab <= y.lab)
  }

  function PositiveRankSum(ranks: seq<real>, pairs: seq<Item>): real
    requires |ranks| == |pairs|
  {
    if pairs == [] then 0.0
    else (if pairs[0].lab == 1 then ranks[0] else 0.0) + PositiveRankSum(ranks[1..], pairs[1..])
  }

  lemma {:induction false} PositiveRankSumIsSum(ranks: seq<real>, pairs: seq<Item>, scores: seq<real>)
    requires |ranks| == |pairs|
    requires forall i | 0 <= i < |pairs| :: ranks[i] == MidRank(scores, pairs[i].score)
    ensures PositiveRankSum(ranks, pairs) == Sum(pairs, PositiveRank(scores))
  {
    if pairs != [] { PositiveRankSumIsSum(ranks[1..], pairs[1..], scores); }
  }

  lemma {:induction false} SortedPairs(items: seq<Item>)
    ensures Sorted(Scores(SortBy(items, Lexicographic())), Ascending())
  {
    SortSorted(items, Lexicographic());
  }

  /** The rank loop of `auc`, over pairs sorted by score. */
  method SortedRanks(pairs: seq<Item>) returns (ranks: seq<real>)
    requires Sorted(Scores(pairs), Ascending())
    ensures |ranks| == |pairs|
    ensures forall i | 0 <= i < |pairs| :: ranks[i] == MidRank(Scores(pairs), pairs[i].score)
  {
    var scores := Scores(pairs);
    ranks := seq(|pairs|, _ => 0.0);
    var index := 0;
    while index < |pairs|
      invariant 0 <= index <= |pairs| == |ranks|
      invariant index < |pairs| ==> forall j | 0 <= j < index :: scores[j] < scores[index]
      invariant forall j | 0 <= j < index :: ranks[j] == MidRank(scores, scores[j])
    {
      hide MidRank;
      var end := TieGroupEnd(scores, index);
      var averageRank := (index + end) as real / 2.0 + 1.0;
      TieGroupRank(scores, index, end);
      for position := index to end + 1
        invariant |ranks| == |pairs|
        invariant forall j | 0 <= j < position :: ranks[j] == MidRank(scores, scores[j])
      {
        ranks := ranks[position := averageRank];
      }
      index := end + 1;
    }
  }

  /** `auc`. */
  method Auc(labels: seq<int>, scores: seq<real>) returns (r: Result<real>)
    ensures |labels| != |scores| ==> r == Err(Misaligned)
    ensures |labels| == |scores| && !Binary(labels) ==> r == Err(NotBinary)
    ensures |labels| == |scores| && Binary(labels) ==> r == Ok(MannWhitney(ZipItems(labels, scores)))
    ensures |labels| == |scores| && Binary(labels) ==>
      var p, n := |LabelPlaces(labels, 1)|, |LabelPlaces(labels, 0)|;
      if p == 0 || n == 0 then r == Ok(0.5)
      else r.Ok? && r.value * (p * n) as real ==
           |WonPlaces(labels, scores)| as real + |DrawnPlaces(labels, scores)| as real / 2.0
  {
    hide MannWhitney;
    hide LabelPlaces;
    hide WonPlaces;
    hide DrawnPlaces;
    if |labels| != |scores| { return Err(Misaligned); }
    if !Binary(labels) { return Err(NotBinary); }
    ZipLabels(labels, scores);
    AucCountsPairs(labels, scores);
    var value := SortAndRank(ZipItems(labels, scores));
    r := Ok(value);
  }

  /** `auc` past its checks: sort, rank, and close with the rank-sum formula. */
  method SortAndRank(items: seq<Item>) returns (auc: real)
    requires Binary(Labels(items))
    ensures auc == MannWhitney(items)
  {
    hide *;
    var pairs := SortBy(items, Lexicographic());
    SortedPairs(items);
    var ranks := SortedRanks(pairs);
    SortedFormula(items, pairs, ranks);
    var positives := LabelSum(Labels(pairs));
    var negatives := |pairs| - positives;
    if positives == 0 || negatives == 0 { return 0.5; }
    auc := RankSumAuc(PositiveRankSum(ranks, pairs), positives, negatives);
  }

  /** The closing formula does not depend on the order the rows came in. */
  lemma {:induction false} SortedFormula(items: seq<Item>, pairs: seq<Item>, ranks: seq<real>)
    requires multiset(pairs) == multiset(items) && Binary(Labels(items)) && |ranks| == |pairs|
    requires forall i | 0 <= i < |pairs| :: ranks[i] == MidRank(Scores(pairs), pairs[i].score)
    ensures var p := LabelSum(Labels(pairs));
      MannWhitney(items) ==
      if p == 0 || |pairs| - p == 0 then 0.5 else RankSumAuc(PositiveRankSum(ranks, pairs), p, |pairs| - p)
  {
    hide *;
    BinaryPermutation(items, pairs);
    MannWhitneyPermutation(pairs, items);
    RankFormula(pairs, ranks);
  }

  lemma {:induction false} ZipLabels(labels: seq<int>, scores: seq<real>)
    requires |labels| == |scores|
    ensures Labels(ZipItems(labels, scores)) == labels
  {
  }

  function RankSumAuc(positiveRankSum: real, positives: int, negatives: int): real
    requires positives != 0 && negatives != 0
  {
    (positiveRankSum - (positives * (positives + 1)) as real / 2.0) / (positives * negatives) as real
  }

  /** The closing formula of `auc`, on ranks that are right. */
  lemma {:induction false} RankFormula(pairs: seq<Item>, ranks: seq<real>)
    requires Binary(Labels(pairs)) && |ranks| == |pairs|
    requires forall i | 0 <= i < |pairs| :: ranks[i] == MidRank(Scores(pairs), pairs[i].score)
    ensures var p := LabelSum(Labels(pairs));
      MannWhitney(pairs) ==
      if p == 0 || |pairs| - p == 0 then 0.5 else RankSumAuc(PositiveRankSum(ranks, pairs), p, |pairs| - p)
  {
    hide Sum;
    hide MidRank;
    PositiveRankSumIsSum(ranks, pairs, Scores(pairs));
    RankSumCountsPairs(pairs);
    var p := LabelSum(Labels(pairs));
    RealProduct(p, p + 1);
    assert PositiveRankSum(ranks, pairs) - (p * (p + 1)) as real / 2.0 == Wins(pairs);
  }

  lemma {:induction false} BinaryPermutation(a: seq<Item>, b: seq<Item>)
    requires multiset(a) == multiset(b) && Binary(Labels(a))
    ensures Binary(Labels(b))
  {
    SameElements(a, b);
    forall i | 0 <= i < |b| ensures b[i].lab == 0 || b[i].lab == 1 {
      BinaryLabel(a, b[i]);
    }
  }

  /** A pair count is a proportion: AUC lies in [0, 1]. */
  lemma {:induction false} MannWhitneyRange(items: seq<Item>)
    requires Binary(Labels(items))
    ensures 0.0 <= MannWhitney(items) <= 1.0
  {
    hide Sum;
    hide Pairs;
    var p, n := LabelSum(Labels(items)), |items| - LabelSum(Labels(items));
    LabelSumBinary(Labels(items));
    WinsRange(items);
    if p != 0 && n != 0 {
      ProductPositive(p as real, n as real, (p * n) as real);
      DivisionRange(Wins(items), (p * n) as real);
    }
  }

  function IsNegative(): Item -> real { (x: Item) => if x.lab == 0 then 1.0 else 0.0 }

  lemma {:induction false} WinsRange(items: seq<Item>)
    requires Binary(Labels(items))
    ensures var p := LabelSum(Labels(items)); 0.0 <= Wins(items) <= (p * (|items| - p)) as real
  {
    hide Sum;
    hide Pairs;
    var zero := (x: Item, y: Item) => 0.0;
    var one := (x: Item, y: Item) => if x.lab == 1 && y.lab == 0 then 1.0 else 0.0;
    PairsMonotone(items, items, zero, PairCredit());
    PairsMonotone(items, items, PairCredit(), one);
    PairsProduct(items, items, IsPositive(), IsNegative(), one);
    PairsProduct(items, items, (x: Item) => 0.0, (x: Item) => 0.0, zero);
    SumConst(items, (x: Item) => 0.0, 0.0);
    PositivesSum(items);
    NegativesSum(items);
  }

  lemma {:induction false} NegativesSum(items: seq<Item>)
    requires Binary(Labels(items))
    ensures Sum(items, IsNegative()) == (|items| - LabelSum(Labels(items))) as real
  {
    var one := (x: Item) => 1.0;
    forall x | x in items ensures IsNegative()(x) == 1.0 * one(x) + -1.0 * IsPositive()(x) {
      BinaryLabel(items, x);
    }
    SumLinear(items, one, 1.0, IsPositive(), -1.0, IsNegative());
    SumConst(items, one, 1.0);
    PositivesSum(items);
  }
}
