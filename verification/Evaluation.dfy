/** The grouped evaluator of metrics.py: per-user AUC and nDCG, and the aggregate they form. */
module Evaluation {
  import opened Reals
  import opened Results
  import opened Sums
  import opened Sorting
  import opened PairwiseAuc
  import opened DiscountedGain

  datatype Row = Row(user: string, lab: int, score: real)

  function UserOf(): Row -> string { (row: Row) => row.user }

  function ItemOf(): Row -> Item { (row: Row) => Item(row.score, row.lab) }

  function ZipRows(userIds: seq<string>, labels: seq<int>, scores: seq<real>): (r: seq<Row>)
    requires |userIds| == |labels| == |scores|
    ensures |r| == |userIds| && forall i | 0 <= i < |r| :: r[i] == Row(userIds[i], labels[i], scores[i])
  {
    seq(|userIds|, i requires 0 <= i < |userIds| => Row(userIds[i], labels[i], scores[i]))
  }

  ghost predicate BinaryRows(rows: seq<Row>) {
    forall row | row in rows :: row.lab == 0 || row.lab == 1
  }

  // ----- One user -----

  function Users(rows: seq<Row>): seq<string> { FirstSeen(Map(rows, UserOf())) }

  function RowsOf(rows: seq<Row>, user: string): seq<Item> {
    Map(Filter(rows, KeyIs(UserOf(), user)), ItemOf())
  }

  function ByScore(): (Item, Item) -> bool { (x: Item, y: Item) => x.score >= y.score }

  /** `rows.sort(key=lambda row: -row[0])`. */
  function Ranked(items: seq<Item>): seq<Item> { SortBy(items, ByScore()) }

  function HasScore(v: real): Item -> bool { (x: Item) => x.score == v }

  /** Every class of tied rows comes in its input order. */
  ghost predicate TiesInOrder(arrangement: seq<Item>, items: seq<Item>) {
    forall v :: Filter(arrangement, HasScore(v)) == Filter(items, HasScore(v))
  }

  ghost predicate Descends(arrangement: seq<Item>) {
    forall i, j | 0 <= i < j < |arrangement| :: arrangement[i].score >= arrangement[j].score
  }

  /** The order nDCG is read from: descending by score, tied rows as they came in. These two facts leave a
      single arrangement. */
  lemma {:induction false} RankedIff(items: seq<Item>, arrangement: seq<Item>)
    ensures arrangement == Ranked(items) <==> Descends(arrangement) && TiesInOrder(arrangement, items)
  {
    hide Filter;
    hide SortBy;
    SortSorted(items, ByScore());
    forall v ensures Filter(Ranked(items), HasScore(v)) == Filter(items, HasScore(v)) {
      SortStable(items, ByScore(), HasScore(v));
    }
    if Descends(arrangement) && TiesInOrder(arrangement, items) {
      RankingUnique(arrangement, Ranked(items));
    }
  }

  lemma {:induction false} RankingUnique(a: seq<Item>, b: seq<Item>)
    requires Sorted(a, ByScore()) && Sorted(b, ByScore()) && TiesInOrder(a, b)
    ensures a == b
  {
    hide Filter;
    if a == [] || b == [] {
      NoneTied(a, b);
    } else {
      SameHead(a, b);
      var v := a[0].score;
      assert [a[0]] + a[1..] == a && [b[0]] + b[1..] == b;
      forall u ensures Filter(a[1..], HasScore(u)) == Filter(b[1..], HasScore(u)) {
        FilterCons(a[0], a[1..], HasScore(u));
        FilterCons(b[0], b[1..], HasScore(u));
        var head := if HasScore(u)(a[0]) then [a[0]] else [];
        assert head + Filter(a[1..], HasScore(u)) == head + Filter(b[1..], HasScore(u));
        SamePrefix(head, Filter(a[1..], HasScore(u)), Filter(b[1..], HasScore(u)));
      }
      RankingUnique(a[1..], b[1..]);
    }
  }

  lemma {:induction false} SamePrefix(head: seq<Item>, x: seq<Item>, y: seq<Item>)
    requires head + x == head + y
    ensures x == y
  {
    assert (head + x)[|head|..] == x && (head + y)[|head|..] == y;
  }

  lemma {:induction false} NoneTied(a: seq<Item>, b: seq<Item>)
    requires (a == [] || b == []) && TiesInOrder(a, b)
    ensures a == b
  {
    if a != [] { SomeTied(a); }
    if b != [] { SomeTied(b); }
  }

  lemma {:induction false} SomeTied(s: seq<Item>)
    requires s != []
    ensures Filter(s, HasScore(s[0].score)) != []
  {
    assert s[0] in Filter(s, HasScore(s[0].score));
  }

  lemma {:induction false} SameHead(a: seq<Item>, b: seq<Item>)
    requires a != [] && b != [] && Sorted(a, ByScore()) && Sorted(b, ByScore()) && TiesInOrder(a, b)
    ensures a[0] == b[0]
  {
    HeadAtLeast(a, b);
    HeadAtLeast(b, a);
    var v := a[0].score;
    FilterCons(a[0], a[1..], HasScore(v));
    FilterCons(b[0], b[1..], HasScore(v));
    assert [a[0]] + a[1..] == a && [b[0]] + b[1..] == b;
    assert Filter(a, HasScore(v))[0] == a[0] && Filter(b, HasScore(v))[0] == b[0];
  }

  lemma {:induction false} HeadAtLeast(a: seq<Item>, b: seq<Item>)
    requires a != [] && b != [] && Sorted(a, ByScore()) && TiesInOrder(a, b)
    ensures a[0].score >= b[0].score
  {
    var w := b[0].score;
    assert b[0] in Filter(b, HasScore(w));
    assert b[0] in Filter(a, HasScore(w));
    var i :| 0 <= i < |a| && a[i] == b[0];
    if i > 0 { assert ByScore()(a[0], a[i]); }
  }

  predicate Mixed(positives: int, rows: int) { 0 < positives < rows }

  /** slices.py, `UserMetric`: everything the aggregate needs of one user. */
  datatype UserMetric = UserMetric(user: string, impressions: nat, positives: int, auc: Option<real>, ndcg: real)

  function UserMetricOf(user: string, items: seq<Item>, k: nat, d: Discounts): UserMetric {
    var positives := LabelSum(Labels(items));
    UserMetric(user, |items|, positives,
      if Mixed(positives, |items|) then Some(MannWhitney(items)) else None,
      Ndcg(Labels(Ranked(items)), k, d))
  }

  function MetricFor(rows: seq<Row>, k: nat, d: Discounts): string -> UserMetric {
    (user: string) => UserMetricOf(user, RowsOf(rows, user), k, d)
  }

  function UserMetrics(rows: seq<Row>, k: nat, d: Discounts): seq<UserMetric> {
    Map(Users(rows), MetricFor(rows, k, d))
  }

  // ----- The aggregate -----

  function Weight(): UserMetric -> real { (m: UserMetric) => if m.auc.Some? then m.positives as real else 0.0 }

  function Weighed(positives: int, auc: real): real { positives as real * auc }

  function WeightedAuc(): UserMetric -> real {
    (m: UserMetric) => if m.auc.Some? then Weighed(m.positives, m.auc.value) else 0.0
  }

  function NdcgPart(): UserMetric -> real { (m: UserMetric) => m.ndcg }

  function GaucOf(ms: seq<UserMetric>): real {
    if Sum(ms, Weight()) == 0.0 then 0.5 else Sum(ms, WeightedAuc()) / Sum(ms, Weight())
  }

  function NdcgOf(ms: seq<UserMetric>): real {
    if ms == [] then 0.0 else Sum(ms, NdcgPart()) / |ms| as real
  }

  datatype Metrics = Metrics(gauc: real, ndcg: real, primary: real, users: nat, rows: nat)

  function Primary(gauc: real, ndcg: real): real { (gauc + ndcg) / 2.0 }

  /** Positive-weighted AUC over mixed users, plain mean of nDCG over all users. */
  function Evaluate(rows: seq<Row>, k: nat, d: Discounts): Metrics {
    var ms := UserMetrics(rows, k, d);
    Metrics(GaucOf(ms), NdcgOf(ms), Primary(GaucOf(ms), NdcgOf(ms)), |ms|, |rows|)
  }

  lemma {:induction false} MetricNamed(rows: seq<Row>, user: string, k: nat, d: Discounts)
    ensures MetricFor(rows, k, d)(user).user == user
  {
  }

  lemma {:induction false} UsersCounted(rows: seq<Row>, k: nat, d: Discounts)
    ensures Evaluate(rows, k, d).users == |Users(rows)|
  {
  }

  /** Users with an AUC have positives: what `user_metrics` guarantees. */
  ghost predicate Weighable(ms: seq<UserMetric>) {
    forall m | m in ms :: m.auc.Some? ==> m.positives > 0
  }

  lemma {:induction false} UserMetricsWeighable(rows: seq<Row>, k: nat, d: Discounts)
    ensures Weighable(UserMetrics(rows, k, d))
  {
    hide RowsOf;
    hide Users;
    hide LabelSum;
    hide MannWhitney;
    hide Ndcg;
  }

  /** Undoing the divisions: each average times its own denominator is its total, also when the
      denominator is 0. */
  lemma {:induction false} TimesDenominator(ms: seq<UserMetric>)
    requires Weighable(ms)
    ensures GaucOf(ms) * Sum(ms, Weight()) == Sum(ms, WeightedAuc())
    ensures NdcgOf(ms) * |ms| as real == Sum(ms, NdcgPart())
  {
    hide Sum;
    if ms == [] {
      SumConst(ms, NdcgPart(), 0.0);
    } else {
      DivisionScale(Sum(ms, NdcgPart()), |ms| as real);
    }
    if Sum(ms, Weight()) == 0.0 {
      SumNonNegative(ms, Weight());
      forall m | m in ms ensures WeightedAuc()(m) == 0.0 {
        assert Weight()(m) <= 0.0;
      }
      SumConst(ms, WeightedAuc(), 0.0);
    } else {
      DivisionScale(Sum(ms, WeightedAuc()), Sum(ms, Weight()));
    }
  }

  // ----- The loops -----

  /** The `defaultdict` both evaluators fill, with its insertion order. */
  ghost predicate Grouped(rows: seq<Row>, order: seq<string>, grouped: map<string, seq<Item>>) {
    && order == Users(rows)
    && (forall user :: user in grouped <==> user in order)
    && (forall user | user in order :: grouped[user] == RowsOf(rows, user))
  }

  method GroupRows(rows: seq<Row>) returns (order: seq<string>, grouped: map<string, seq<Item>>)
    ensures Grouped(rows, order, grouped)
  {
    hide Grouped;
    order, grouped := [], map[];
    NothingGrouped(rows[..0]);
    for i := 0 to |rows|
      invariant Grouped(rows[..i], order, grouped)
    {
      var row := rows[i];
      GroupedStep(rows[..i], row, order, grouped);
      assert rows[..i + 1] == rows[..i] + [row];
      if row.user !in grouped {
        order, grouped := order + [row.user], grouped[row.user := []];
      }
      grouped := grouped[row.user := grouped[row.user] + [Item(row.score, row.lab)]];
    }
    assert rows[..|rows|] == rows;
  }

  lemma {:induction false} NothingGrouped(rows: seq<Row>)
    requires rows == []
    ensures Grouped(rows, [], map[])
  {
  }

  lemma {:induction false} GroupedStep(rows: seq<Row>, row: Row, order: seq<string>, grouped: map<string, seq<Item>>)
    requires Grouped(rows, order, grouped)
    ensures var own := if row.user in grouped then grouped[row.user] else [];
      var ready := if row.user in grouped then grouped else grouped[row.user := []];
      Grouped(rows + [row], if row.user in grouped then order else order + [row.user],
              ready[row.user := own + [Item(row.score, row.lab)]])
  {
    hide Users;
    hide RowsOf;
    GroupStep(rows, row);
  }

  /** One more row opens its user's group or extends it, and touches no other. */
  lemma {:induction false} GroupStep(rows: seq<Row>, row: Row)
    ensures Users(rows + [row]) == if row.user in Users(rows) then Users(rows) else Users(rows) + [row.user]
    ensures row.user !in Users(rows) ==> RowsOf(rows, row.user) == []
    ensures RowsOf(rows + [row], row.user) == RowsOf(rows, row.user) + [Item(row.score, row.lab)]
    ensures forall user | user != row.user :: RowsOf(rows + [row], user) == RowsOf(rows, user)
  {
    UsersStep(rows, row);
    forall user
      ensures RowsOf(rows + [row], user) ==
        RowsOf(rows, user) + (if user == row.user then [Item(row.score, row.lab)] else [])
    {
      RowsOfStep(rows, row, user);
    }
    if row.user !in Users(rows) { NoRowsOf(rows, row.user); }
  }

  lemma {:induction false} UsersStep(rows: seq<Row>, row: Row)
    ensures Users(rows + [row]) == if row.user in Users(rows) then Users(rows) else Users(rows) + [row.user]
  {
    hide FirstSeen;
    var users := Map(rows, UserOf());
    assert Map(rows + [row], UserOf()) == users + [row.user];
    FirstSeenAppend(users, row.user);
  }

  lemma {:induction false} RowsOfStep(rows: seq<Row>, row: Row, user: string)
    ensures RowsOf(rows + [row], user) ==
      RowsOf(rows, user) + if user == row.user then [Item(row.score, row.lab)] else []
  {
    var own := Filter(rows, KeyIs(UserOf(), user));
    FilterAppend(rows, [row], KeyIs(UserOf(), user));
    if user == row.user {
      assert Map(own + [row], ItemOf()) == Map(own, ItemOf()) + [Item(row.score, row.lab)];
    }
  }

  lemma {:induction false} NoRowsOf(rows: seq<Row>, user: string)
    requires user !in Users(rows)
    ensures RowsOf(rows, user) == []
  {
    forall x | x in rows ensures !KeyIs(UserOf(), user)(x) { UserListed(rows, x); }
    FilterNone(rows, KeyIs(UserOf(), user));
  }

  lemma {:induction false} UserListed(rows: seq<Row>, row: Row)
    requires row in rows
    ensures row.user in Users(rows)
  {
    var i :| 0 <= i < |rows| && rows[i] == row;
    assert Map(rows, UserOf())[i] == row.user;
  }

  lemma {:induction false} SomeUser(rows: seq<Row>, k: nat, d: Discounts)
    requires rows != []
    ensures UserMetrics(rows, k, d) != []
  {
    UserListed(rows, rows[0]);
  }

  lemma {:induction false} RankedAuc(items: seq<Item>)
    requires Binary(Labels(items))
    ensures var ranked := Ranked(items);
      && Binary(Labels(ranked)) && ZipItems(Labels(ranked), Scores(ranked)) == ranked
      && LabelSum(Labels(ranked)) == LabelSum(Labels(items)) && |ranked| == |items|
      && MannWhitney(ranked) == MannWhitney(items)
  {
    BinaryPermutation(items, Ranked(items));
    MannWhitneyPermutation(Ranked(items), items);
  }

  lemma {:induction false} BinaryRowsOf(rows: seq<Row>, user: string)
    requires BinaryRows(rows)
    ensures Binary(Labels(RowsOf(rows, user)))
  {
    var own := Filter(rows, KeyIs(UserOf(), user));
    forall i | 0 <= i < |own| ensures own[i].lab == 0 || own[i].lab == 1 {
      assert own[i] in rows;
    }
  }

  /** The body of the per-user loops: sort, count, and score one user's rows. */
  method ScoreUser(items: seq<Item>, k: nat, d: Discounts, user: string) returns (m: UserMetric)
    requires Binary(Labels(items))
    ensures m == UserMetricOf(user, items, k, d)
  {
    hide SortBy;
    hide MannWhitney;
    hide LabelSum;
    hide Ndcg;
    var ranked := Ranked(items);
    RankedAuc(items);
    var labels := Labels(ranked);
    var positives := LabelSum(labels);
    var auc := None;
    if Mixed(positives, |labels|) {
      var value := Auc(labels, Scores(ranked));
      auc := Some(value.value);
    }
    m := UserMetric(user, |items|, positives, auc, Ndcg(labels, k, d));
  }

  /** `evaluate_independent`. */
  method EvaluateIndependent(userIds: seq<string>, labels: seq<int>, scores: seq<real>, k: int, d: Discounts)
    returns (r: Result<Metrics>)
    ensures !(|userIds| == |labels| == |scores|) ==> r == Err(Misaligned)
    ensures |userIds| == |labels| == |scores| == 0 ==> r == Err(Empty)
    ensures |userIds| == |labels| == |scores| != 0 && !Binary(labels) ==> r == Err(NotBinary)
    ensures |userIds| == |labels| == |scores| != 0 && Binary(labels) && k <= 0 ==> r == Err(NonPositiveK)
    ensures |userIds| == |labels| == |scores| != 0 && Binary(labels) && k > 0 ==>
      r == Ok(Evaluate(ZipRows(userIds, labels, scores), k, d))
  {
    if !(|userIds| == |labels| == |scores|) { return Err(Misaligned); }
    if |userIds| == 0 { return Err(Empty); }
    if !Binary(labels) { return Err(NotBinary); }
    var rows := ZipRows(userIds, labels, scores);
    var order, grouped := GroupRows(rows);
    if k <= 0 { return Err(NonPositiveK); }
    var value := AggregateGroups(rows, order, grouped, k, d);
    r := Ok(value);
  }

  /** The accumulating loop of `evaluate_independent` and its closing divisions. */
  method AggregateGroups(rows: seq<Row>, order: seq<string>, grouped: map<string, seq<Item>>, k: nat, d: Discounts)
    returns (r: Metrics)
    requires BinaryRows(rows)
    requires Grouped(rows, order, grouped)
    ensures r == Evaluate(rows, k, d)
  {
    hide Sum;
    hide Users;
    hide RowsOf;
    hide UserMetricOf;
    hide Weighed;
    var weightedAuc, positiveWeight := 0.0, 0.0;
    var ndcgValues: seq<real> := [];
    ghost var ms := UserMetrics(rows, k, d);
    PrefixSums(ms, 0, Weight());
    PrefixSums(ms, 0, WeightedAuc());
    for i := 0 to |order|
      invariant positiveWeight == Sum(ms[..i], Weight())
      invariant weightedAuc == Sum(ms[..i], WeightedAuc())
      invariant ndcgValues == Map(ms[..i], NdcgPart())
    {
      BinaryRowsOf(rows, order[i]);
      var m := ScoreUser(grouped[order[i]], k, d, order[i]);
      assert m == ms[i];
      if m.auc.Some? {
        weightedAuc := weightedAuc + Weighed(m.positives, m.auc.value);
        positiveWeight := positiveWeight + m.positives as real;
      }
      ndcgValues := ndcgValues + [m.ndcg];
      PrefixSums(ms, i + 1, Weight());
      PrefixSums(ms, i + 1, WeightedAuc());
    }
    assert ms[..|order|] == ms;
    SumMap(ms, NdcgPart(), Identity(), NdcgPart());
    var gauc := if positiveWeight == 0.0 then 0.5 else weightedAuc / positiveWeight;
    var ndcg := if |ndcgValues| == 0 then 0.0 else Sum(ndcgValues, Identity()) / |ndcgValues| as real;
    r := Metrics(gauc, ndcg, (gauc + ndcg) / 2.0, |order|, |rows|);
  }
}
