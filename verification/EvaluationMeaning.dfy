/** What the figures of metrics.py stand for, in terms of the evaluated rows alone. */
module EvaluationMeaning {
  import opened Reals
  import opened Sums
  import opened Counting
  import opened PairwiseAuc
  import opened DiscountedGain
  import opened Evaluation
  import opened RankChange
  import opened OrderResponse

  /** The places of a user's rows with a label. */
  ghost function RowsWith(rows: seq<Row>, user: string, lab: int): set<int> {
    set i | 0 <= i < |rows| && rows[i].user == user && rows[i].lab == lab
  }

  ghost function RowsBy(rows: seq<Row>, user: string): set<int> { set i | 0 <= i < |rows| && rows[i].user == user }

  /** The pairs of a user's positive and negative row that the scores put in the right order. */
  ghost function WonRows(rows: seq<Row>, user: string): set<(int, int)> {
    set i, j | i in RowsWith(rows, user, 1) && j in RowsWith(rows, user, 0) && rows[i].score > rows[j].score :: (i, j)
  }

  ghost function DrawnRows(rows: seq<Row>, user: string): set<(int, int)> {
    set i, j | i in RowsWith(rows, user, 1) && j in RowsWith(rows, user, 0) && rows[i].score == rows[j].score :: (i, j)
  }

  /** The positive rows that GAUC weighs: those whose user also has a negative row. */
  ghost function WeighedRows(rows: seq<Row>): set<int> {
    set i | 0 <= i < |rows| && rows[i].lab == 1 && RowsWith(rows, rows[i].user, 0) != {}
  }

  /** A user's pairs won, ties counting half, per negative row; nothing without rows of both labels. */
  ghost function WinsPerNegative(rows: seq<Row>, user: string): real {
    if RowsWith(rows, user, 1) == {} || RowsWith(rows, user, 0) == {} then 0.0
    else
      (|WonRows(rows, user)| as real + |DrawnRows(rows, user)| as real / 2.0) / |RowsWith(rows, user, 0)| as real
  }

  // ----- One user -----

  function OfUser(user: string, lab: int): Row -> bool { (row: Row) => row.user == user && row.lab == lab }

  function OneOf(user: string, lab: int): Row -> real {
    (row: Row) => if row.user == user && row.lab == lab then 1.0 else 0.0
  }

  function OneIf(lab: int): Row -> real { (row: Row) => if row.lab == lab then 1.0 else 0.0 }

  lemma {:induction false} CountRows(rows: seq<Row>, user: string, lab: int, f: Item -> real)
    requires forall x :: f(x) == if x.lab == lab then 1.0 else 0.0
    ensures Sum(RowsOf(rows, user), f) == |RowsWith(rows, user, lab)| as real
  {
    hide Sum;
    hide Filter;
    var own := Filter(rows, KeyIs(UserOf(), user));
    SumMap(own, ItemOf(), f, OneIf(lab));
    SumFilter(rows, KeyIs(UserOf(), user), OneIf(lab), OneOf(user, lab));
    SumCounts(rows, OfUser(user, lab), OneOf(user, lab));
    assert Where(rows, OfUser(user, lab)) == RowsWith(rows, user, lab);
  }

  lemma {:induction false} UserCounts(rows: seq<Row>, user: string)
    requires BinaryRows(rows)
    ensures LabelSum(Labels(RowsOf(rows, user))) == |RowsWith(rows, user, 1)|
    ensures |RowsOf(rows, user)| == |RowsBy(rows, user)|
    ensures |RowsOf(rows, user)| - LabelSum(Labels(RowsOf(rows, user))) == |RowsWith(rows, user, 0)|
  {
    hide Sum;
    var items := RowsOf(rows, user);
    BinaryRowsOf(rows, user);
    PositivesSum(items);
    NegativesSum(items);
    CountRows(rows, user, 1, IsPositive());
    CountRows(rows, user, 0, IsNegative());
    FilterCounts(rows, KeyIs(UserOf(), user));
    assert Where(rows, KeyIs(UserOf(), user)) == RowsBy(rows, user);
  }

  function RowCredit(g: (Item, Item) -> real): (Row, Row) -> real {
    (x: Row, y: Row) => g(ItemOf()(x), ItemOf()(y))
  }

  function RowPair(user: string, p: (Item, Item) -> bool): (Row, Row) -> bool {
    (x: Row, y: Row) => x.user == user && y.user == user && p(ItemOf()(x), ItemOf()(y))
  }

  lemma {:induction false} CountPairs(rows: seq<Row>, user: string, p: (Item, Item) -> bool, g: (Item, Item) -> real)
    requires forall x, y :: g(x, y) == if p(x, y) then 1.0 else 0.0
    ensures Pairs(RowsOf(rows, user), RowsOf(rows, user), g) == |Cells(rows, rows, RowPair(user, p))| as real
  {
    hide Sum;
    hide Pairs;
    hide Filter;
    var own := Filter(rows, KeyIs(UserOf(), user));
    PairsMap(own, own, ItemOf(), g, RowCredit(g));
    PairsFilter(rows, KeyIs(UserOf(), user), RowCredit(g));
    PairsCount(rows, rows, RowPair(user, p), Gated(KeyIs(UserOf(), user), RowCredit(g)));
  }

  lemma {:induction false} WinsOfUser(rows: seq<Row>, user: string)
    requires BinaryRows(rows)
    ensures Wins(RowsOf(rows, user)) == |WonRows(rows, user)| as real + |DrawnRows(rows, user)| as real / 2.0
  {
    hide Sum;
    hide Pairs;
    hide RowsOf;
    hide Wins;
    BinaryRowsOf(rows, user);
    WinsOfItems(RowsOf(rows, user));
    forall x, y ensures WonCredit()(x, y) == if Won()(x, y) then 1.0 else 0.0 {}
    forall x, y ensures DrawnCredit()(x, y) == if Drawn()(x, y) then 1.0 else 0.0 {}
    CountPairs(rows, user, Won(), WonCredit());
    CountPairs(rows, user, Drawn(), DrawnCredit());
    PairPlaces(rows, user);
  }

  lemma {:induction false} PairPlaces(rows: seq<Row>, user: string)
    ensures Cells(rows, rows, RowPair(user, Won())) == WonRows(rows, user)
    ensures Cells(rows, rows, RowPair(user, Drawn())) == DrawnRows(rows, user)
  {
    hide Won;
    hide Drawn;
    forall x: Row, y: Row
      ensures RowPair(user, Won())(x, y) <==>
        x.user == user && y.user == user && x.lab == 1 && y.lab == 0 && x.score > y.score
      ensures RowPair(user, Drawn())(x, y) <==>
        x.user == user && y.user == user && x.lab == 1 && y.lab == 0 && x.score == y.score
    {
      PairIs(Item(x.score, x.lab), Item(y.score, y.lab));
      assert ItemOf()(x) == Item(x.score, x.lab) && ItemOf()(y) == Item(y.score, y.lab);
      assert RowPair(user, Won())(x, y) <==> x.user == user && y.user == user && Won()(ItemOf()(x), ItemOf()(y));
      assert RowPair(user, Drawn())(x, y) <==> x.user == user && y.user == user && Drawn()(ItemOf()(x), ItemOf()(y));
    }
  }

  lemma {:induction false} PairIs(x: Item, y: Item)
    ensures Won()(x, y) <==> x.lab == 1 && y.lab == 0 && x.score > y.score
    ensures Drawn()(x, y) <==> x.lab == 1 && y.lab == 0 && x.score == y.score
  {
  }

  lemma {:induction false} WinsOfItems(items: seq<Item>)
    requires Binary(Labels(items))
    ensures Wins(items) == Pairs(items, items, WonCredit()) + 0.5 * Pairs(items, items, DrawnCredit())
  {
    hide Pairs;
    forall x, y | x in items && y in items
      ensures PairCredit()(x, y) == 1.0 * WonCredit()(x, y) + 0.5 * DrawnCredit()(x, y)
    {
      SplitPair(x, y);
    }
    PairsLinear(items, items, WonCredit(), 1.0, DrawnCredit(), 0.5, PairCredit());
  }

  /** A user's metrics in terms of its rows: how many, how many positive, the pairs behind the AUC, and the
      ranking behind nDCG. */
  lemma {:induction false} UserMetricMeans(rows: seq<Row>, user: string, k: nat, d: Discounts)
    requires BinaryRows(rows)
    ensures var m := MetricFor(rows, k, d)(user);
      var positives, negatives := |RowsWith(rows, user, 1)|, |RowsWith(rows, user, 0)|;
      && m.user == user && m.impressions == |RowsBy(rows, user)| && m.positives == positives
      && m.ndcg == Ndcg(Labels(Ranked(RowsOf(rows, user))), k, d)
      && (m.auc.Some? <==> positives > 0 && negatives > 0)
      && (m.auc.Some? ==>
            (m.auc.value * (positives * negatives) as real
             == |WonRows(rows, user)| as real + |DrawnRows(rows, user)| as real / 2.0))
      && WeightedAuc()(m) == WinsPerNegative(rows, user)
      && Weight()(m) == (if positives > 0 && negatives > 0 then positives as real else 0.0)
  {
    hide Wins;
    hide LabelSum;
    hide RowsOf;
    hide Ndcg;
    var items := RowsOf(rows, user);
    var positives, negatives := |RowsWith(rows, user, 1)|, |RowsWith(rows, user, 0)|;
    UserCounts(rows, user);
    WinsOfUser(rows, user);
    hide RowsWith;
    hide WonRows;
    hide DrawnRows;
    if positives > 0 && negatives > 0 { PairQuotients(Wins(items), positives, negatives); }
  }

  lemma {:induction false} PairQuotients(wins: real, positives: int, negatives: int)
    requires positives > 0 && negatives > 0
    ensures (positives * negatives) as real > 0.0
    ensures wins / (positives * negatives) as real * (positives * negatives) as real == wins
    ensures positives as real * (wins / (positives * negatives) as real) == wins / negatives as real
  {
    ProductPositive(positives as real, negatives as real, (positives * negatives) as real);
    DivisionScale(wins, (positives * negatives) as real);
    WeightedRatio(wins, positives, negatives);
  }

  // ----- The population -----

  ghost predicate IsWeighed(rows: seq<Row>, row: Row) { row.lab == 1 && RowsWith(rows, row.user, 0) != {} }

  /** A user's share of the weight, row by row. */
  lemma {:induction false} UserWeight(rows: seq<Row>, user: string, weighed: Row -> real)
    requires BinaryRows(rows)
    requires forall row :: weighed(row) == if IsWeighed(rows, row) then 1.0 else 0.0
    ensures Sum(Filter(rows, KeyIs(UserOf(), user)), weighed) ==
      if RowsWith(rows, user, 0) != {} then |RowsWith(rows, user, 1)| as real else 0.0
  {
    hide Sum;
    hide RowsWith;
    var own := Filter(rows, KeyIs(UserOf(), user));
    if RowsWith(rows, user, 0) == {} {
      SumConst(own, weighed, 0.0);
    } else {
      SumExt(own, weighed, OneIf(1));
      CountRows(rows, user, 1, IsPositive());
      SumMap(own, ItemOf(), IsPositive(), OneIf(1));
    }
  }

  lemma {:induction false} TotalWeight(rows: seq<Row>, k: nat, d: Discounts)
    requires BinaryRows(rows)
    ensures Sum(UserMetrics(rows, k, d), Weight()) == |WeighedRows(rows)| as real
  {
    hide Sum;
    hide RowsWith;
    hide Filter;
    hide Users;
    hide MetricFor;
    ghost var weighed := WeighedRow(rows);
    var users, metric := Users(rows), MetricFor(rows, k, d);
    SumMap(users, metric, Weight(), Through(metric, Weight()));
    forall user | user in users
      ensures Through(metric, Weight())(user) == Sum(Filter(rows, KeyIs(UserOf(), user)), weighed)
    {
      UserMetricMeans(rows, user, k, d);
      UserWeight(rows, user, weighed);
      NoneOrSome(rows, user);
    }
    UsersCover(rows);
    PartitionSum(rows, UserOf(), users, weighed, Through(metric, Weight()));
    WeighedCount(rows, weighed);
  }

  ghost function WeighedRow(rows: seq<Row>): (f: Row -> real)
    ensures forall row :: f(row) == if IsWeighed(rows, row) then 1.0 else 0.0
  {
    var opposed := set user | user in Users(rows) && RowsWith(rows, user, 0) != {};
    assert forall user | user !in opposed :: RowsWith(rows, user, 0) == {} by {
      forall i | 0 <= i < |rows| ensures rows[i].user in Users(rows) { UserListed(rows, rows[i]); }
    }
    (row: Row) => if row.lab == 1 && row.user in opposed then 1.0 else 0.0
  }

  lemma {:induction false} NoneOrSome(rows: seq<Row>, user: string)
    ensures RowsWith(rows, user, 0) != {} <==> |RowsWith(rows, user, 0)| > 0
  {
  }

  lemma {:induction false} UsersCover(rows: seq<Row>)
    ensures Distinct(Users(rows)) && forall row | row in rows :: row.user in Users(rows)
  {
    forall row | row in rows ensures row.user in Users(rows) { UserListed(rows, row); }
  }

  lemma {:induction false} WeighedCount(rows: seq<Row>, weighed: Row -> real)
    requires forall row :: weighed(row) == if IsWeighed(rows, row) then 1.0 else 0.0
    ensures Sum(rows, weighed) == |WeighedRows(rows)| as real
  {
    var p := (row: Row) => weighed(row) == 1.0;
    SumCounts(rows, p, weighed);
    assert Where(rows, p) == WeighedRows(rows);
  }

  ghost function WinsShare(rows: seq<Row>, users: seq<string>): real {
    if users == [] then 0.0 else WinsPerNegative(rows, users[0]) + WinsShare(rows, users[1..])
  }

  lemma {:induction false} SharesOfWins(rows: seq<Row>, users: seq<string>, k: nat, d: Discounts)
    requires BinaryRows(rows)
    ensures Sum(users, Through(MetricFor(rows, k, d), WeightedAuc())) == WinsShare(rows, users)
  {
    hide MetricFor;
    hide WinsPerNegative;
    hide WeightedAuc;
    if users != [] {
      SharesOfWins(rows, users[1..], k, d);
      UserMetricMeans(rows, users[0], k, d);
    }
  }

  /** GAUC times the number of weighed positive rows is the sum over the users of the pairs each wins, per
      negative row of theirs; where no row is weighed it is one half. nDCG times the number of users is the
      sum of theirs. */
  lemma {:induction false} EvaluationMeans(rows: seq<Row>, k: nat, d: Discounts)
    requires BinaryRows(rows) && rows != []
    ensures var m := Evaluate(rows, k, d);
      && m.users == |Users(rows)| > 0 && m.rows == |rows|
      && (if WeighedRows(rows) == {} then m.gauc == 0.5
          else IsRatio(m.gauc, WinsShare(rows, Users(rows)), |WeighedRows(rows)| as real))
      && IsRatio(m.ndcg, Sum(Users(rows), Through(MetricFor(rows, k, d), NdcgPart())), m.users as real)
      && m.primary == (m.gauc + m.ndcg) / 2.0
  {
    SomeUser(rows, k, d);
    UsersCounted(rows, k, d);
    GaucMeans(rows, k, d);
    NdcgSum(rows, k, d);
    hide Sum;
    hide Users;
    hide UserMetrics;
    hide MetricFor;
    hide GaucOf;
    hide NdcgOf;
    hide WeighedRows;
    hide WinsShare;
    hide IsRatio;
  }

  lemma {:induction false} NdcgSum(rows: seq<Row>, k: nat, d: Discounts)
    requires UserMetrics(rows, k, d) != []
    ensures IsRatio(NdcgOf(UserMetrics(rows, k, d)), Sum(Users(rows), Through(MetricFor(rows, k, d), NdcgPart())),
                    |UserMetrics(rows, k, d)| as real)
  {
    hide Sum;
    hide Users;
    hide MetricFor;
    hide NdcgOf;
    hide GaucOf;
    var users, metric := Users(rows), MetricFor(rows, k, d);
    UserMetricsWeighable(rows, k, d);
    TimesDenominator(UserMetrics(rows, k, d));
    SumMap(users, metric, NdcgPart(), Through(metric, NdcgPart()));
  }

  lemma {:induction false} GaucMeans(rows: seq<Row>, k: nat, d: Discounts)
    requires BinaryRows(rows)
    ensures var gauc := GaucOf(UserMetrics(rows, k, d));
      if WeighedRows(rows) == {} then gauc == 0.5
      else IsRatio(gauc, WinsShare(rows, Users(rows)), |WeighedRows(rows)| as real)
  {
    hide Sum;
    hide Users;
    hide MetricFor;
    hide WeighedRows;
    hide WinsShare;
    var users, metric, ms := Users(rows), MetricFor(rows, k, d), UserMetrics(rows, k, d);
    UserMetricsWeighable(rows, k, d);
    TotalWeight(rows, k, d);
    SharesOfWins(rows, users, k, d);
    SumMap(users, metric, WeightedAuc(), Through(metric, WeightedAuc()));
    hide UserMetrics;
    TimesDenominator(ms);
  }
}
