/** What the metrics respond to. no_op.py calls the within-user pair measure the only quantity
    GAUC and nDCG react to; here that is proved in both directions, with a bound in between. */
module OrderResponse {
  import opened Reals
  import opened Sums
  import opened Sorting
  import opened Ranks
  import opened PairwiseAuc
  import opened DiscountedGain
  import opened Evaluation
  import opened RankChange

  /** A row both models score, with its label. */
  datatype Duo = Duo(shift: Shift, lab: int)

  function ZipDuos(shifts: seq<Shift>, labels: seq<int>): (r: seq<Duo>)
    requires |shifts| == |labels|
    ensures |r| == |shifts| && forall i | 0 <= i < |r| :: r[i] == Duo(shifts[i], labels[i])
  {
    seq(|shifts|, i requires 0 <= i < |shifts| => Duo(shifts[i], labels[i]))
  }

  function CandidateRow(): Duo -> Row { (x: Duo) => Row(x.shift.user, x.lab, x.shift.candidate) }

  function ParentRow(): Duo -> Row { (x: Duo) => Row(x.shift.user, x.lab, x.shift.parent) }

  function CandidateItem(): Duo -> Item { (x: Duo) => Item(x.shift.candidate, x.lab) }

  function ParentItem(): Duo -> Item { (x: Duo) => Item(x.shift.parent, x.lab) }

  function DuoUser(): Duo -> string { (x: Duo) => x.shift.user }

  function ShiftOf(): Duo -> Shift { (x: Duo) => x.shift }

  function CandidateRows(shifts: seq<Shift>, labels: seq<int>): seq<Row>
    requires |shifts| == |labels|
  {
    Map(ZipDuos(shifts, labels), CandidateRow())
  }

  function ParentRows(shifts: seq<Shift>, labels: seq<int>): seq<Row>
    requires |shifts| == |labels|
  {
    Map(ZipDuos(shifts, labels), ParentRow())
  }

  function DuosOf(duos: seq<Duo>, user: string): seq<Duo> { Filter(duos, KeyIs(DuoUser(), user)) }

  // ----- Both models group the rows alike -----

  lemma {:induction false} SameUsers(shifts: seq<Shift>, labels: seq<int>)
    requires |shifts| == |labels|
    ensures Users(CandidateRows(shifts, labels)) == ShiftUsers(shifts) == Users(ParentRows(shifts, labels))
  {
    assert Map(CandidateRows(shifts, labels), UserOf()) == Map(shifts, ShiftUser());
    assert Map(ParentRows(shifts, labels), UserOf()) == Map(shifts, ShiftUser());
  }

  lemma {:induction false} SameGroups(shifts: seq<Shift>, labels: seq<int>, user: string)
    requires |shifts| == |labels|
    ensures var group := DuosOf(ZipDuos(shifts, labels), user);
      && RowsOf(CandidateRows(shifts, labels), user) == Map(group, CandidateItem())
      && RowsOf(ParentRows(shifts, labels), user) == Map(group, ParentItem())
      && GroupOf(shifts, user) == Map(group, ShiftOf())
  {
    hide Filter;
    var duos := ZipDuos(shifts, labels);
    FilterMap(duos, CandidateRow(), KeyIs(UserOf(), user), KeyIs(DuoUser(), user));
    FilterMap(duos, ParentRow(), KeyIs(UserOf(), user), KeyIs(DuoUser(), user));
    FilterMap(duos, ShiftOf(), KeyIs(ShiftUser(), user), KeyIs(DuoUser(), user));
    assert Map(duos, ShiftOf()) == shifts;
    MapMap(DuosOf(duos, user), CandidateRow(), ItemOf(), CandidateItem());
    MapMap(DuosOf(duos, user), ParentRow(), ItemOf(), ParentItem());
  }

  ghost predicate BinaryDuos(duos: seq<Duo>) { forall x | x in duos :: x.lab == 0 || x.lab == 1 }

  lemma {:induction false} BinaryZip(shifts: seq<Shift>, labels: seq<int>)
    requires |shifts| == |labels| && Binary(labels)
    ensures BinaryDuos(ZipDuos(shifts, labels))
    ensures BinaryRows(CandidateRows(shifts, labels)) && BinaryRows(ParentRows(shifts, labels))
  {
  }

  // ----- One user: the pairs that move -----

  function CreditMove(): (Duo, Duo) -> real {
    (x: Duo, y: Duo) => CandidateCredit()(x, y) - ParentCredit()(x, y)
  }

  function CandidateCredit(): (Duo, Duo) -> real {
    (x: Duo, y: Duo) => if x.lab == 1 && y.lab == 0 then Credit(x.shift.candidate, y.shift.candidate) else 0.0
  }

  function ParentCredit(): (Duo, Duo) -> real {
    (x: Duo, y: Duo) => if x.lab == 1 && y.lab == 0 then Credit(x.shift.parent, y.shift.parent) else 0.0
  }

  function MoveOf(): (Duo, Duo) -> real { (x: Duo, y: Duo) => CreditMove()(x, y) + CreditMove()(y, x) }

  function MinusMoveOf(): (Duo, Duo) -> real { (x: Duo, y: Duo) => -MoveOf()(x, y) }

  function ChangedDuo(): (Duo, Duo) -> real { (x: Duo, y: Duo) => Changed(0.0)(x.shift, y.shift) }

  /** A pair gains or loses at most one credit, and only if it was reordered. */
  lemma {:induction false} PairMove(x: Duo, y: Duo)
    ensures -ChangedDuo()(x, y) <= MoveOf()(x, y) <= ChangedDuo()(x, y)
  {
    assert MoveOf()(x, y) == CreditMove()(x, y) + CreditMove()(y, x);
    assert CreditMove()(x, y) == CandidateCredit()(x, y) - ParentCredit()(x, y);
    assert CreditMove()(y, x) == CandidateCredit()(y, x) - ParentCredit()(y, x);
    assert ChangedDuo()(x, y) == Changed(0.0)(x.shift, y.shift);
  }

  lemma {:induction false} WinsMove(group: seq<Duo>)
    ensures Abs(Wins(Map(group, CandidateItem())) - Wins(Map(group, ParentItem())))
      <= Triangle(Map(group, ShiftOf()), Changed(0.0))
  {
    hide Pairs;
    hide Triangle;
    hide MoveOf;
    hide Changed;
    PairsMap(group, group, CandidateItem(), PairCredit(), CandidateCredit());
    PairsMap(group, group, ParentItem(), PairCredit(), ParentCredit());
    PairsLinear(group, group, CandidateCredit(), 1.0, ParentCredit(), -1.0, CreditMove());
    MoveBound(group);
  }

  lemma {:induction false} MoveBound(group: seq<Duo>)
    ensures Abs(Pairs(group, group, CreditMove())) <= Triangle(Map(group, ShiftOf()), Changed(0.0))
  {
    hide Pairs;
    hide Triangle;
    hide Changed;
    TriangleMap(group, ShiftOf(), Changed(0.0), ChangedDuo());
    var zero := (x: Duo) => 0.0;
    forall x | x in group ensures zero(x) == CreditMove()(x, x) {
      assert CreditMove()(x, x) == CandidateCredit()(x, x) - ParentCredit()(x, x);
    }
    PairsTriangle(group, CreditMove(), zero, MoveOf());
    SumConst(group, zero, 0.0);
    forall x, y | x in group && y in group
      ensures MoveOf()(x, y) <= ChangedDuo()(x, y) && MinusMoveOf()(x, y) <= ChangedDuo()(x, y)
    {
      PairMove(x, y);
      assert MinusMoveOf()(x, y) == -MoveOf()(x, y);
    }
    TriangleMonotone(group, MoveOf(), ChangedDuo());
    TriangleMonotone(group, MinusMoveOf(), ChangedDuo());
    TriangleNegate(group, MoveOf(), MinusMoveOf());
  }

  lemma {:induction false} TriangleNegate<T>(s: seq<T>, f: (T, T) -> real, g: (T, T) -> real)
    requires forall x, y | x in s && y in s :: g(x, y) == -f(x, y)
    ensures Triangle(s, g) == -Triangle(s, f)
  {
    if s != [] {
      TriangleNegate(s[1..], f, g);
      SumLinear(s[1..], From(f, s[0]), -1.0, From(f, s[0]), 0.0, From(g, s[0]));
    }
  }

  lemma {:induction false} SameLabels(group: seq<Duo>)
    requires BinaryDuos(group)
    ensures Labels(Map(group, CandidateItem())) == Labels(Map(group, ParentItem()))
    ensures Binary(Labels(Map(group, CandidateItem())))
  {
  }

  /** One user's weighted AUC moves by at most the number of pairs reordered. */
  lemma {:induction false} UserMove(user: string, group: seq<Duo>, k: nat, d: Discounts)
    requires BinaryDuos(group)
    ensures var c := UserMetricOf(user, Map(group, CandidateItem()), k, d);
      var p := UserMetricOf(user, Map(group, ParentItem()), k, d);
      && Weight()(c) == Weight()(p) >= 0.0 && c.positives == p.positives && (c.auc.Some? <==> p.auc.Some?)
      && Abs(WeightedAuc()(c) - WeightedAuc()(p)) <= Triangle(Map(group, ShiftOf()), Changed(0.0))
      && (Wins(Map(group, CandidateItem())) == Wins(Map(group, ParentItem())) ==> c.auc == p.auc)
  {
    hide Triangle;
    hide Wins;
    hide MannWhitney;
    hide Weighed;
    hide LabelSum;
    hide Ndcg;
    var c, p := Map(group, CandidateItem()), Map(group, ParentItem());
    SameLabels(group);
    WinsMove(group);
    TriangleZero(Map(group, ShiftOf()), Changed(0.0));
    if Mixed(LabelSum(Labels(c)), |group|) {
      WeightedAucMove(c, p);
    }
    if Wins(c) == Wins(p) { SameWinsSameAuc(c, p); }
  }

  lemma {:induction false} SameWinsSameAuc(c: seq<Item>, p: seq<Item>)
    requires |c| == |p| && Labels(c) == Labels(p) && Wins(c) == Wins(p)
    ensures MannWhitney(c) == MannWhitney(p)
  {
  }

  lemma {:induction false} WeightedAucMove(c: seq<Item>, p: seq<Item>)
    requires |c| == |p| && Labels(c) == Labels(p) && Mixed(LabelSum(Labels(c)), |c|)
    ensures var w := LabelSum(Labels(c));
      Abs(Weighed(w, MannWhitney(c)) - Weighed(w, MannWhitney(p))) <= Abs(Wins(c) - Wins(p))
  {
    hide Wins;
    hide LabelSum;
    var positives, negatives := LabelSum(Labels(c)), |c| - LabelSum(Labels(c));
    WeightedRatio(Wins(c), positives, negatives);
    WeightedRatio(Wins(p), positives, negatives);
    QuotientShrinks(Wins(c), Wins(p), negatives as real);
  }

  lemma {:induction false} WeightedRatio(wins: real, positives: int, negatives: int)
    requires positives > 0 && negatives > 0
    ensures positives as real * (wins / (positives * negatives) as real) == wins / negatives as real
  {
    var p, n := positives as real, negatives as real;
    RealProduct(positives, negatives);
    ProductPositive(p, n, p * n);
    var q := wins / (p * n);
    DivisionScale(wins, p * n);
    assert q * (p * n) == p * q * n;
    DivisionScale(wins, n);
    SameQuotient(p * q, wins, n);
  }

  /** Dividing by a whole number of negatives only shrinks a difference. */
  lemma {:induction false} QuotientShrinks(x: real, y: real, n: real)
    requires n >= 1.0
    ensures Abs(x / n - y / n) <= Abs(x - y)
  {
    var q, r := x / n, y / n;
    DivisionScale(x, n);
    DivisionScale(y, n);
    Distribute(q, r, n);
    if q >= r {
      MulMonotone(1.0, n, q - r);
    } else {
      MulMonotone(1.0, n, r - q);
    }
    assert (q - r) * n == x - y;
  }

  // ----- The population -----

  function Through(f: string -> UserMetric, g: UserMetric -> real): string -> real { (user: string) => g(f(user)) }

  lemma {:induction false} UserMoveOf(shifts: seq<Shift>, labels: seq<int>, user: string, k: nat, d: Discounts)
    requires |shifts| == |labels| && Binary(labels)
    ensures var c, p := MetricFor(CandidateRows(shifts, labels), k, d), MetricFor(ParentRows(shifts, labels), k, d);
      && Through(c, Weight())(user) == Through(p, Weight())(user) >= 0.0
      && Abs(Through(c, WeightedAuc())(user) - Through(p, WeightedAuc())(user)) <= InGroup(shifts, Changed(0.0))(user)
  {
    hide RowsOf;
    hide GroupOf;
    hide UserMetricOf;
    hide Triangle;
    BinaryZip(shifts, labels);
    SameGroups(shifts, labels, user);
    UserMove(user, DuosOf(ZipDuos(shifts, labels), user), k, d);
  }

  /** The total positive weight of GAUC: the same for every model of the same labels. */
  function PositiveWeight(shifts: seq<Shift>, labels: seq<int>, k: nat, d: Discounts): real
    requires |shifts| == |labels|
  {
    Sum(UserMetrics(ParentRows(shifts, labels), k, d), Weight())
  }

  lemma {:induction false} TotalsMove(shifts: seq<Shift>, labels: seq<int>, k: nat, d: Discounts)
    requires |shifts| == |labels| && Binary(labels)
    ensures var c, p := UserMetrics(CandidateRows(shifts, labels), k, d), UserMetrics(ParentRows(shifts, labels), k, d);
      && Sum(c, Weight()) == PositiveWeight(shifts, labels, k, d) >= 0.0
      && Abs(Sum(c, WeightedAuc()) - Sum(p, WeightedAuc())) <= ChangedPairs(shifts, 0.0)
  {
    hide Sum;
    hide ShiftUsers;
    hide Users;
    var users := ShiftUsers(shifts);
    var c, p := MetricFor(CandidateRows(shifts, labels), k, d), MetricFor(ParentRows(shifts, labels), k, d);
    SameUsers(shifts, labels);
    SumMap(users, c, Weight(), Through(c, Weight()));
    SumMap(users, p, Weight(), Through(p, Weight()));
    SumMap(users, c, WeightedAuc(), Through(c, WeightedAuc()));
    SumMap(users, p, WeightedAuc(), Through(p, WeightedAuc()));
    SumsMove(shifts, labels, users, k, d);
  }

  lemma {:induction false} SumsMove(shifts: seq<Shift>, labels: seq<int>, users: seq<string>, k: nat, d: Discounts)
    requires |shifts| == |labels| && Binary(labels)
    ensures var c, p := MetricFor(CandidateRows(shifts, labels), k, d), MetricFor(ParentRows(shifts, labels), k, d);
      && Sum(users, Through(c, Weight())) == Sum(users, Through(p, Weight())) >= 0.0
      && Abs(Sum(users, Through(c, WeightedAuc())) - Sum(users, Through(p, WeightedAuc())))
        <= Sum(users, InGroup(shifts, Changed(0.0)))
  {
    hide Sum;
    hide Through;
    hide InGroup;
    var c, p := MetricFor(CandidateRows(shifts, labels), k, d), MetricFor(ParentRows(shifts, labels), k, d);
    var cw, pw := Through(c, Weight()), Through(p, Weight());
    var ca, pa := Through(c, WeightedAuc()), Through(p, WeightedAuc());
    var bound := InGroup(shifts, Changed(0.0));
    forall user ensures cw(user) == pw(user) >= 0.0 && Abs(ca(user) - pa(user)) <= bound(user) {
      UserMoveOf(shifts, labels, user, k, d);
    }
    SumExt(users, cw, pw);
    SumNonNegative(users, pw);
    SumDifference(users, ca, pa, bound);
  }

  /** Reordering bounds metric movement: GAUC moves, in units of its own weight, by at most the
      number of within-user pairs reordered. */
  lemma {:induction false} ReorderingBoundsGauc(shifts: seq<Shift>, labels: seq<int>, k: nat, d: Discounts)
    requires |shifts| == |labels| && Binary(labels)
    ensures var c, p := Evaluate(CandidateRows(shifts, labels), k, d), Evaluate(ParentRows(shifts, labels), k, d);
      Abs(c.gauc - p.gauc) * PositiveWeight(shifts, labels, k, d) <= ChangedPairs(shifts, 0.0)
  {
    hide Sum;
    hide UserMetrics;
    hide ChangedPairs;
    TotalsMove(shifts, labels, k, d);
    var c, p := UserMetrics(CandidateRows(shifts, labels), k, d), UserMetrics(ParentRows(shifts, labels), k, d);
    QuotientDifference(Sum(c, WeightedAuc()), Sum(p, WeightedAuc()), PositiveWeight(shifts, labels, k, d));
  }

  lemma {:induction false} QuotientDifference(x: real, y: real, w: real)
    ensures w > 0.0 ==> Abs(x / w - y / w) * w == Abs(x - y)
  {
    if w > 0.0 {
      DivisionScale(x, w);
      DivisionScale(y, w);
      Distribute(x / w, y / w, w);
      Distribute(y / w, x / w, w);
      DivisionOrder(x, y, w);
    }
  }

  // ----- No reordering, no movement -----

  function CandidateAbove(): (Duo, Duo) -> bool { (x: Duo, y: Duo) => x.shift.candidate >= y.shift.candidate }

  function ParentAbove(): (Duo, Duo) -> bool { (x: Duo, y: Duo) => x.shift.parent >= y.shift.parent }

  function DuoLabel(): Duo -> int { (x: Duo) => x.lab }

  /** The ranked label list, all nDCG looks at, is the same for both models. */
  lemma {:induction false} SameRankedLabels(group: seq<Duo>)
    requires forall x, y | x in group && y in group :: CandidateAbove()(x, y) <==> ParentAbove()(x, y)
    ensures Labels(Ranked(Map(group, CandidateItem()))) == Labels(Ranked(Map(group, ParentItem())))
  {
    hide SortBy;
    SortMap(group, CandidateItem(), CandidateAbove(), ByScore());
    SortMap(group, ParentItem(), ParentAbove(), ByScore());
    SortExt(group, CandidateAbove(), ParentAbove());
    var sorted := SortBy(group, CandidateAbove());
    MapMap(sorted, CandidateItem(), LabelOf(), DuoLabel());
    MapMap(sorted, ParentItem(), LabelOf(), DuoLabel());
  }

  lemma {:induction false} SameAbove(shifts: seq<Shift>, labels: seq<int>, user: string)
    requires |shifts| == |labels| && SameOrder(shifts, 0.0)
    ensures var group := DuosOf(ZipDuos(shifts, labels), user);
      forall x, y | x in group && y in group :: CandidateAbove()(x, y) <==> ParentAbove()(x, y)
  {
    var group := DuosOf(ZipDuos(shifts, labels), user);
    forall x, y | x in group && y in group ensures CandidateAbove()(x, y) <==> ParentAbove()(x, y) {
      assert x.shift in shifts && y.shift in shifts;
      assert ParentOrder(y.shift, x.shift, 0.0) == CandidateOrder(y.shift, x.shift, 0.0);
    }
  }

  lemma {:induction false} UserUnmoved(shifts: seq<Shift>, labels: seq<int>, user: string, k: nat, d: Discounts)
    requires |shifts| == |labels| && Binary(labels) && SameOrder(shifts, 0.0)
    ensures MetricFor(CandidateRows(shifts, labels), k, d)(user) == MetricFor(ParentRows(shifts, labels), k, d)(user)
  {
    hide RowsOf;
    hide SortBy;
    hide Wins;
    hide LabelSum;
    hide Triangle;
    var group := DuosOf(ZipDuos(shifts, labels), user);
    BinaryZip(shifts, labels);
    SameGroups(shifts, labels, user);
    SameLabels(group);
    SameAbove(shifts, labels, user);
    SameRankedLabels(group);
    NoChangeInGroup(GroupOf(shifts, user), 0.0);
    UserMove(user, group, k, d);
    WinsMove(group);
  }

  /** A candidate that reorders no within-user pair leaves every metric exactly where it was. */
  lemma {:induction false} NoReorderingNoMovement(shifts: seq<Shift>, labels: seq<int>, k: nat, d: Discounts)
    requires |shifts| == |labels| && Binary(labels)
    requires ChangedPairs(shifts, 0.0) == 0.0
    ensures Evaluate(CandidateRows(shifts, labels), k, d) == Evaluate(ParentRows(shifts, labels), k, d)
  {
    hide MetricFor;
    hide Users;
    hide ChangedPairs;
    NoChangeIsSameOrder(shifts, 0.0);
    SameUsers(shifts, labels);
    var c, p := CandidateRows(shifts, labels), ParentRows(shifts, labels);
    forall user ensures MetricFor(c, k, d)(user) == MetricFor(p, k, d)(user) {
      UserUnmoved(shifts, labels, user, k, d);
    }
    assert UserMetrics(c, k, d) == UserMetrics(p, k, d);
  }
}
