/** `validate_metric_set` (metrics.py) and the KuaiRand contract (evaluator_adapter.py). */
module Contract {
  import opened Reals
  import opened Results
  import opened Sums
  import opened PairwiseAuc
  import opened DiscountedGain
  import opened Evaluation

  datatype MetricSet = MetricSet(metrics: map<string, real>, primaryName: string, primary: real)

  function Lookup(m: map<string, real>): string -> real { (name: string) => if name in m then m[name] else 0.0 }

  function Weighted(m: map<string, real>, weights: map<string, real>): string -> real {
    (name: string) => Lookup(m)(name) * Lookup(weights)(name)
  }

  predicate InRange(name: string, value: real, ranges: map<string, (real, real)>) {
    name in ranges ==> ranges[name].0 <= value <= ranges[name].1
  }

  /** `validate_metric_set`. */
  function ValidateMetricSet(raw: map<string, real>, required: seq<string>, primaryName: string,
                             weights: map<string, real>, tolerance: real, allowExtra: seq<string>,
                             ranges: map<string, (real, real)>): Result<MetricSet>
  {
    var needed := set name | name in required;
    var actual := raw.Keys - {primaryName} - set name | name in allowExtra;
    if !(needed <= actual) then Err(MissingMetric)
    else if !(actual <= needed) then Err(UndeclaredMetric)
    else if primaryName !in raw then Err(MissingPrimary)
    else
      var metrics := map name | name in needed :: raw[name];
      ValidateValues(metrics, required, primaryName, raw[primaryName], weights, tolerance, ranges)
  }

  /** The second half of `validate_metric_set`: ranges, weights, and the reproduced primary. */
  function ValidateValues(metrics: map<string, real>, required: seq<string>, primaryName: string, primary: real,
                          weights: map<string, real>, tolerance: real,
                          ranges: map<string, (real, real)>): Result<MetricSet>
  {
    if exists name | name in metrics :: !InRange(name, metrics[name], ranges) then Err(OutsideRange)
    else if weights.Keys != metrics.Keys then Err(WrongWeights)
    else
      var totalWeight := Sum(FirstSeen(required), Lookup(weights));
      if totalWeight <= 0.0 then Err(NoWeight)
      else
        var reproduced := Sum(required, Weighted(metrics, weights)) / totalWeight;
        if Abs(primary - reproduced) > tolerance then Err(PrimaryMismatch)
        else Ok(MetricSet(metrics, primaryName, primary))
  }

  const GAUC := "GAUC"
  const NDCG := "nDCG@5"
  const PRIMARY := "primary"
  const TOLERANCE := 0.000000000001

  /** `kuairand_contract` with the defaults of `validate_metric_set`. */
  function ValidateKuaiRand(raw: map<string, real>): Result<MetricSet> {
    ValidateMetricSet(raw, [GAUC, NDCG], PRIMARY, map[GAUC := 0.5, NDCG := 0.5], TOLERANCE, ["users", "rows"],
                      map[GAUC := (0.0, 1.0), NDCG := (0.0, 1.0)])
  }

  /** The contract accepts exactly the two metrics, each a proportion, and their mean. */
  lemma {:induction false} KuaiRandAccepts(raw: map<string, real>)
    ensures ValidateKuaiRand(raw).Ok? <==>
      && raw.Keys - {"users", "rows"} == {GAUC, NDCG, PRIMARY}
      && 0.0 <= raw[GAUC] <= 1.0 && 0.0 <= raw[NDCG] <= 1.0
      && Abs(raw[PRIMARY] - (raw[GAUC] + raw[NDCG]) / 2.0) <= TOLERANCE
    ensures ValidateKuaiRand(raw).Ok? ==>
      (ValidateKuaiRand(raw).value == MetricSet(map[GAUC := raw[GAUC], NDCG := raw[NDCG]], PRIMARY, raw[PRIMARY]))
  {
    hide ValidateValues;
    Distinctness();
    var needed := set name | name in [GAUC, NDCG];
    var extras := set name | name in ["users", "rows"];
    assert needed == {GAUC, NDCG} && extras == {"users", "rows"};
    if raw.Keys - {"users", "rows"} == {GAUC, NDCG, PRIMARY} {
      assert raw.Keys - {PRIMARY} - extras == {GAUC, NDCG, PRIMARY} - {PRIMARY};
      KuaiRandValues(raw[GAUC], raw[NDCG], raw[PRIMARY]);
      assert (map name | name in needed :: raw[name]) == map[GAUC := raw[GAUC], NDCG := raw[NDCG]];
    } else {
      assert raw.Keys - extras != needed + {PRIMARY};
    }
  }

  lemma {:induction false} KuaiRandValues(gauc: real, ndcg: real, primary: real)
    ensures var metrics := map[GAUC := gauc, NDCG := ndcg];
      ValidateValues(metrics, [GAUC, NDCG], PRIMARY, primary, map[GAUC := 0.5, NDCG := 0.5], TOLERANCE,
                     map[GAUC := (0.0, 1.0), NDCG := (0.0, 1.0)])
      == if !(0.0 <= gauc <= 1.0 && 0.0 <= ndcg <= 1.0) then Err(OutsideRange)
         else if Abs(primary - (gauc + ndcg) / 2.0) > TOLERANCE then Err(PrimaryMismatch)
         else Ok(MetricSet(metrics, PRIMARY, primary))
  {
    hide Sum;
    hide FirstSeen;
    hide Abs;
    Distinctness();
    var metrics, weights := map[GAUC := gauc, NDCG := ndcg], map[GAUC := 0.5, NDCG := 0.5];
    TwoNames(Lookup(weights));
    TwoNames(Weighted(metrics, weights));
    assert GAUC in metrics && NDCG in metrics;
    assert weights.Keys == metrics.Keys;
    var ranges := map[GAUC := (0.0, 1.0), NDCG := (0.0, 1.0)];
    assert InRange(GAUC, gauc, ranges) <==> 0.0 <= gauc <= 1.0;
    assert InRange(NDCG, ndcg, ranges) <==> 0.0 <= ndcg <= 1.0;
    assert metrics[GAUC] == gauc && metrics[NDCG] == ndcg;
    assert Sum(FirstSeen([GAUC, NDCG]), Lookup(weights)) == 1.0;
    assert Sum([GAUC, NDCG], Weighted(metrics, weights)) == (gauc + ndcg) / 2.0;
  }

  lemma {:induction false} Distinctness()
    ensures GAUC != NDCG && GAUC != PRIMARY && NDCG != PRIMARY
    ensures {"users", "rows"} !! {GAUC, NDCG, PRIMARY}
  {
    assert |GAUC| == 4 && |NDCG| == 6 && |PRIMARY| == 7 && |"users"| == 5;
    assert "rows"[0] == 'r' && GAUC[0] == 'G';
  }

  lemma {:induction false} TwoNames(f: string -> real)
    ensures FirstSeen([GAUC, NDCG]) == [GAUC, NDCG]
    ensures Sum([GAUC, NDCG], f) == f(GAUC) + f(NDCG)
  {
    Distinctness();
    FirstSeenAppend([], GAUC);
    FirstSeenAppend([GAUC], NDCG);
    assert [] + [GAUC] == [GAUC] && [GAUC] + [NDCG] == [GAUC, NDCG];
    assert [GAUC][1..] == [] && [NDCG][1..] == [];
    SumAppend([GAUC], [NDCG], f);
  }

  // ----- The evaluator always satisfies the contract -----

  function AsRaw(m: Metrics): map<string, real> {
    map[GAUC := m.gauc, NDCG := m.ndcg, PRIMARY := m.primary, "users" := m.users as real, "rows" := m.rows as real]
  }

  ghost predicate Proportions(ms: seq<UserMetric>) {
    forall m | m in ms :: 0.0 <= m.ndcg <= 1.0 && 0 <= m.positives && (m.auc.Some? ==> 0.0 <= m.auc.value <= 1.0)
  }

  lemma {:induction false} UserMetricsAreProportions(rows: seq<Row>, k: nat, d: Discounts)
    requires BinaryRows(rows) && k > 0
    ensures Proportions(UserMetrics(rows, k, d))
  {
    var users, ms := Users(rows), UserMetrics(rows, k, d);
    forall m | m in ms
      ensures 0.0 <= m.ndcg <= 1.0 && 0 <= m.positives && (m.auc.Some? ==> 0.0 <= m.auc.value <= 1.0)
    {
      var i :| 0 <= i < |ms| && ms[i] == m;
      UserProportions(users[i], RowsOf(rows, users[i]), rows, k, d);
    }
  }

  lemma {:induction false} UserProportions(user: string, items: seq<Item>, rows: seq<Row>, k: nat, d: Discounts)
    requires BinaryRows(rows) && items == RowsOf(rows, user) && k > 0
    ensures var m := UserMetricOf(user, items, k, d);
      0.0 <= m.ndcg <= 1.0 && 0 <= m.positives && (m.auc.Some? ==> 0.0 <= m.auc.value <= 1.0)
  {
    BinaryRowsOf(rows, user);
    RankedAuc(items);
    LabelSumBinary(Labels(items));
    MannWhitneyRange(items);
    NdcgRange(Labels(Ranked(items)), k, d);
  }

  lemma {:induction false} AggregateRange(ms: seq<UserMetric>)
    requires ms != [] && Proportions(ms)
    ensures 0.0 <= GaucOf(ms) <= 1.0 && 0.0 <= NdcgOf(ms) <= 1.0
  {
    hide Sum;
    var one := (m: UserMetric) => 1.0;
    SumNonNegative(ms, NdcgPart());
    SumMonotone(ms, NdcgPart(), one);
    SumConst(ms, one, 1.0);
    DivisionRange(Sum(ms, NdcgPart()), |ms| as real);
    forall m | m in ms ensures 0.0 <= WeightedAuc()(m) <= Weight()(m) {
      if m.auc.Some? {
        MulMonotone(m.auc.value, 1.0, m.positives as real);
        MulMonotone(0.0, m.auc.value, m.positives as real);
      }
    }
    SumNonNegative(ms, WeightedAuc());
    SumMonotone(ms, WeightedAuc(), Weight());
    if Sum(ms, Weight()) != 0.0 {
      DivisionRange(Sum(ms, WeightedAuc()), Sum(ms, Weight()));
    }
  }

  /** Whatever the predictions, what `evaluate_independent` returns at k = 5 meets the contract. */
  lemma {:induction false} EvaluationMeetsContract(rows: seq<Row>, d: Discounts)
    requires BinaryRows(rows) && rows != []
    ensures var m := Evaluate(rows, 5, d);
      ValidateKuaiRand(AsRaw(m)) == Ok(MetricSet(map[GAUC := m.gauc, NDCG := m.ndcg], PRIMARY, m.primary))
  {
    hide Sum;
    hide UserMetrics;
    hide ValidateKuaiRand;
    var m, ms := Evaluate(rows, 5, d), UserMetrics(rows, 5, d);
    UserMetricsAreProportions(rows, 5, d);
    SomeUser(rows, 5, d);
    AggregateRange(ms);
    var raw := AsRaw(m);
    KuaiRandAccepts(raw);
    Distinctness();
    assert raw.Keys - {"users", "rows"} == {GAUC, NDCG, PRIMARY};
  }
}
