/** A cohort slice of slices.py is the evaluation of metrics.py on the rows of its users. */
module Cohorts {
  import opened Sums
  import opened PairwiseAuc
  import opened DiscountedGain
  import opened Evaluation
  import opened EvaluationMeaning
  import opened Slices
  import opened Proxy

  /** The users whose metrics fall in a bucket. */
  function InCohort(rows: seq<Row>, k: nat, d: Discounts, bucket: Bucket, name: string): string -> bool {
    (user: string) => bucket(MetricFor(rows, k, d)(user)) == name
  }

  function CohortRows(rows: seq<Row>, k: nat, d: Discounts, bucket: Bucket, name: string): seq<Row> {
    Arm(rows, InCohort(rows, k, d, bucket, name), true)
  }

  lemma {:induction false} CohortMetrics(rows: seq<Row>, k: nat, d: Discounts, bucket: Bucket, name: string)
    ensures UserMetrics(CohortRows(rows, k, d, bucket, name), k, d) == Members(UserMetrics(rows, k, d), bucket, name)
  {
    hide Filter;
    hide MetricFor;
    hide Users;
    hide Arm;
    var ms, cohort := UserMetrics(rows, k, d), InCohort(rows, k, d, bucket, name);
    ArmMetrics(rows, cohort, true, k, d);
    forall m | m in ms ensures MetricIn(cohort, true)(m) <==> KeyIs(bucket, name)(m) {
      var i :| 0 <= i < |ms| && ms[i] == m;
      MetricNamed(rows, Users(rows)[i], k, d);
      assert m == MetricFor(rows, k, d)(m.user);
    }
    SameFilter(ms, MetricIn(cohort, true), KeyIs(bucket, name));
  }

  /** A slice reports what evaluating its users' rows alone would, and its weight is their number of positive
      rows beside a negative row of the same user. */
  lemma {:induction false} SliceIsEvaluation(rows: seq<Row>, k: nat, d: Discounts, bucket: Bucket, name: string)
    requires BinaryRows(rows)
    ensures var s := SliceFor(UserMetrics(rows, k, d), bucket)(name);
      var part := CohortRows(rows, k, d, bucket, name);
      var m := Evaluate(part, k, d);
      && s.name == name && s.users == m.users && s.weight == |WeighedRows(part)| as real
      && s.gauc == m.gauc && s.ndcg == m.ndcg && s.primary == m.primary
  {
    hide Sum;
    hide GaucOf;
    hide NdcgOf;
    hide UserMetrics;
    hide CohortRows;
    CohortMetrics(rows, k, d, bucket, name);
    BinaryCohort(rows, k, d, bucket, name);
    TotalWeight(CohortRows(rows, k, d, bucket, name), k, d);
  }

  lemma {:induction false} BinaryCohort(rows: seq<Row>, k: nat, d: Discounts, bucket: Bucket, name: string)
    requires BinaryRows(rows)
    ensures BinaryRows(CohortRows(rows, k, d, bucket, name))
  {
  }
}
