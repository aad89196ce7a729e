/** slices.py, `delta_vector`: a change in the primary metric, split exactly among the users. */
module Attribution {
  import opened Reals
  import opened Results
  import opened Sums
  import opened PairwiseAuc
  import opened DiscountedGain
  import opened Evaluation
  import opened RankChange
  import opened OrderResponse
  import opened Slices

  /** One entry of `delta_vector`: a user's share of the change. */
  function Contribution(c: UserMetric, p: UserMetric, users: nat, weight: real): real
    requires users > 0
  {
    var ndcgDelta := (c.ndcg - p.ndcg) / users as real;
    var aucDelta :=
      if c.auc.Some? && p.auc.Some? && weight != 0.0 then c.positives as real * (c.auc.value - p.auc.value) / weight
      else 0.0;
    (aucDelta + ndcgDelta) / 2.0
  }

  function Contributions(candidate: seq<UserMetric>, parent: seq<UserMetric>): (r: seq<real>)
    requires |candidate| == |parent|
  {
    var weight := Sum(candidate, Weight());
    seq(|candidate|, i requires 0 <= i < |candidate| => Contribution(candidate[i], parent[i], |candidate|, weight))
  }

  /** Two metric lists of the same labelled rows under different scores. */
  ghost predicate Comparable(candidate: seq<UserMetric>, parent: seq<UserMetric>) {
    && |candidate| == |parent|
    && (forall i | 0 <= i < |candidate| :: Twins(candidate[i], parent[i]))
    && (forall i, j | 0 <= i < j < |candidate| :: candidate[i].user != candidate[j].user)
  }

  predicate Twins(c: UserMetric, p: UserMetric) {
    c.user == p.user && c.positives == p.positives && (c.auc.Some? <==> p.auc.Some?)
  }

  /** The dict comprehension over the parent's metrics. */
  method ByUser(candidate: seq<UserMetric>, parent: seq<UserMetric>) returns (byUser: map<string, UserMetric>)
    requires Comparable(candidate, parent)
    ensures forall i | 0 <= i < |candidate| :: candidate[i].user in byUser && byUser[candidate[i].user] == parent[i]
  {
    byUser := map[];
    for i := 0 to |parent|
      invariant forall j | 0 <= j < i :: candidate[j].user in byUser && byUser[candidate[j].user] == parent[j]
    {
      assert Twins(candidate[i], parent[i]);
      byUser := byUser[parent[i].user := parent[i]];
    }
  }

  /** The loop of `delta_vector` over the candidate's users. */
  method CollectDeltas(candidate: seq<UserMetric>, parent: seq<UserMetric>)
    returns (ids: seq<string>, deltas: seq<real>)
    requires Comparable(candidate, parent)
    ensures |ids| == |candidate| && forall i | 0 <= i < |candidate| :: ids[i] == candidate[i].user
    ensures deltas == Contributions(candidate, parent)
  {
    var byUser := ByUser(candidate, parent);
    var totalUsers := |candidate|;
    var totalPositiveWeight := Sum(candidate, Weight());
    ids, deltas := [], [];
    for i := 0 to |candidate|
      invariant |ids| == i && forall j | 0 <= j < i :: ids[j] == candidate[j].user
      invariant deltas == Contributions(candidate, parent)[..i]
    {
      hide Sum;
      hide Weight;
      var metric := candidate[i];
      assert Twins(candidate[i], parent[i]);
      var previous := byUser[metric.user];
      var ndcgDelta := (metric.ndcg - previous.ndcg) / totalUsers as real;
      var aucDelta := 0.0;
      if metric.auc.Some? && totalPositiveWeight != 0.0 {
        aucDelta := metric.positives as real * (metric.auc.value - previous.auc.value) / totalPositiveWeight;
      }
      var delta := (aucDelta + ndcgDelta) / 2.0;
      assert delta == Contribution(candidate[i], parent[i], |candidate|, totalPositiveWeight);
      assert delta == Contributions(candidate, parent)[i];
      ids := ids + [metric.user];
      deltas := deltas + [delta];
    }
  }

  datatype Deltas = Deltas(ids: seq<string>, values: seq<real>)

  /** The user ids in order of appearance, each with its contribution; together the whole change. */
  ghost predicate Explains(r: Deltas, shifts: seq<Shift>, labels: seq<int>, k: nat, d: Discounts)
    requires |shifts| == |labels|
  {
    var c, p := CandidateRows(shifts, labels), ParentRows(shifts, labels);
    && r.ids == ShiftUsers(shifts)
    && Comparable(UserMetrics(c, k, d), UserMetrics(p, k, d))
    && r.values == Contributions(UserMetrics(c, k, d), UserMetrics(p, k, d))
    && Sum(r.values, Identity()) == Evaluate(c, k, d).primary - Evaluate(p, k, d).primary
  }

  /** `delta_vector`. */
  method DeltaVector(userIds: seq<string>, labels: seq<int>, candidateScores: seq<real>, parentScores: seq<real>,
                     k: int, d: Discounts)
    returns (r: Result<Deltas>)
    ensures !(|userIds| == |labels| == |candidateScores| != 0) ==> r == Err(Misaligned)
    ensures |userIds| == |labels| == |candidateScores| != 0 && !Binary(labels) ==> r == Err(NotBinary)
    ensures |userIds| == |labels| == |candidateScores| != 0 && Binary(labels) && k <= 0 ==> r == Err(NonPositiveK)
    ensures |userIds| == |labels| == |candidateScores| != 0 && Binary(labels) && k > 0 ==>
      (|parentScores| != |userIds| ==> r == Err(Misaligned))
    ensures |userIds| == |labels| == |candidateScores| == |parentScores| != 0 && Binary(labels) && k > 0 ==>
      r.Ok? && Explains(r.value, ZipShifts(candidateScores, parentScores, userIds), labels, k, d)
  {
    hide UserMetrics;
    hide Contributions;
    hide ShiftUsers;
    hide Sum;
    hide Evaluate;
    var candidate := ComputeUserMetrics(userIds, labels, candidateScores, k, d);
    if candidate.Err? { return Err(candidate.error); }
    var parent := ComputeUserMetrics(userIds, labels, parentScores, k, d);
    if parent.Err? { return Err(parent.error); }
    ghost var shifts := ZipShifts(candidateScores, parentScores, userIds);
    ZippedRows(userIds, labels, candidateScores, parentScores);
    MetricsComparable(shifts, labels, k, d);
    DeltasSumToPrimary(shifts, labels, k, d);
    MetricUsers(shifts, labels, k, d);
    var ids, values := CollectDeltas(candidate.value, parent.value);
    assert ids == ShiftUsers(shifts);
    r := Ok(Deltas(ids, values));
  }

  lemma {:induction false} ZippedRows(userIds: seq<string>, labels: seq<int>, candidateScores: seq<real>,
                                       parentScores: seq<real>)
    requires |userIds| == |labels| == |candidateScores| == |parentScores|
    ensures var shifts := ZipShifts(candidateScores, parentScores, userIds);
      && ZipRows(userIds, labels, candidateScores) == CandidateRows(shifts, labels)
      && ZipRows(userIds, labels, parentScores) == ParentRows(shifts, labels)
  {
  }

  lemma {:induction false} MetricUsers(shifts: seq<Shift>, labels: seq<int>, k: nat, d: Discounts)
    requires |shifts| == |labels|
    ensures var ms := UserMetrics(CandidateRows(shifts, labels), k, d);
      |ms| == |ShiftUsers(shifts)| && forall i | 0 <= i < |ms| :: ms[i].user == ShiftUsers(shifts)[i]
  {
    hide ShiftUsers;
    hide Users;
    hide RowsOf;
    SameUsers(shifts, labels);
  }

  // ----- The contributions add up -----

  type Both = (UserMetric, UserMetric)

  function Change(f: UserMetric -> real): Both -> real { (x: Both) => f(x.0) - f(x.1) }

  function ContributionIn(users: nat, weight: real): Both -> real {
    (x: Both) => if users > 0 then Contribution(x.0, x.1, users, weight) else 0.0
  }

  lemma {:induction false} ChangeSum(c: seq<UserMetric>, p: seq<UserMetric>, f: UserMetric -> real)
    requires |c| == |p|
    ensures Sum(Zip(c, p), Change(f)) == Sum(c, f) - Sum(p, f)
  {
    if c != [] {
      assert Zip(c, p)[1..] == Zip(c[1..], p[1..]);
      ChangeSum(c[1..], p[1..], f);
    }
  }

  function Half(weight: real): real { if weight == 0.0 then 0.0 else 1.0 / (2.0 * weight) }

  lemma {:induction false} ContributionLinear(c: UserMetric, p: UserMetric, users: nat, weight: real)
    requires users > 0 && Twins(c, p)
    ensures Contribution(c, p, users, weight) ==
      Half(weight) * (WeightedAuc()(c) - WeightedAuc()(p)) + Half(users as real) * (c.ndcg - p.ndcg)
  {
    var n := c.ndcg - p.ndcg;
    HalfQuotient(n, users as real);
    if c.auc.Some? && weight != 0.0 {
      var w := c.positives as real;
      Distribute(c.auc.value, p.auc.value, w);
      HalfQuotient(w * (c.auc.value - p.auc.value), weight);
    }
  }

  lemma {:induction false} HalfQuotient(x: real, w: real)
    requires w != 0.0
    ensures x / w / 2.0 == Half(w) * x
  {
    DivisionScale(x, w);
    var e := 1.0 / w;
    DivisionScale(1.0, w);
    SameQuotient(e / 2.0, 1.0, 2.0 * w);
  }

  lemma {:induction false} ContributionsSum(c: seq<UserMetric>, p: seq<UserMetric>)
    requires Comparable(c, p) && c != []
    ensures Sum(Contributions(c, p), Identity()) ==
      Half(Sum(c, Weight())) * (Sum(c, WeightedAuc()) - Sum(p, WeightedAuc()))
      + Half(|c| as real) * (Sum(c, NdcgPart()) - Sum(p, NdcgPart()))
  {
    hide Sum;
    hide Half;
    hide Contribution;
    hide Weighed;
    var w, pairs := Sum(c, Weight()), Zip(c, p);
    assert Map(pairs, ContributionIn(|c|, w)) == Contributions(c, p);
    SumMap(pairs, ContributionIn(|c|, w), Identity(), ContributionIn(|c|, w));
    forall x | x in pairs
      ensures ContributionIn(|c|, w)(x) ==
        Half(w) * Change(WeightedAuc())(x) + Half(|c| as real) * Change(NdcgPart())(x)
    {
      ContributionLinear(x.0, x.1, |c|, w);
    }
    SumLinear(pairs, Change(WeightedAuc()), Half(w), Change(NdcgPart()), Half(|c| as real), ContributionIn(|c|, w));
    ChangeSum(c, p, WeightedAuc());
    ChangeSum(c, p, NdcgPart());
  }

  lemma {:induction false} SameWeight(c: seq<UserMetric>, p: seq<UserMetric>)
    requires Comparable(c, p)
    ensures Sum(c, Weight()) == Sum(p, Weight())
  {
    hide Sum;
    var pairs := Zip(c, p);
    forall x | x in pairs ensures Change(Weight())(x) == 0.0 {
      assert Twins(x.0, x.1);
    }
    SumConst(pairs, Change(Weight()), 0.0);
    ChangeSum(c, p, Weight());
  }

  lemma {:induction false} MetricsComparable(shifts: seq<Shift>, labels: seq<int>, k: nat, d: Discounts)
    requires |shifts| == |labels| && Binary(labels)
    ensures Comparable(UserMetrics(CandidateRows(shifts, labels), k, d), UserMetrics(ParentRows(shifts, labels), k, d))
  {
    hide ShiftUsers;
    hide RowsOf;
    hide UserMetricOf;
    var c, p := UserMetrics(CandidateRows(shifts, labels), k, d), UserMetrics(ParentRows(shifts, labels), k, d);
    var users := ShiftUsers(shifts);
    SameUsers(shifts, labels);
    forall i | 0 <= i < |users| ensures c[i].user == users[i] && Twins(c[i], p[i]) {
      BinaryZip(shifts, labels);
      SameGroups(shifts, labels, users[i]);
      UserMove(users[i], DuosOf(ZipDuos(shifts, labels), users[i]), k, d);
      MetricNamed(CandidateRows(shifts, labels), users[i], k, d);
      MetricNamed(ParentRows(shifts, labels), users[i], k, d);
    }
    UsersDistinct(shifts);
  }

  /** The entries of the delta vector sum exactly to the change in the official primary metric,
      with or without users of both classes. */
  lemma {:induction false} DeltasSumToPrimary(shifts: seq<Shift>, labels: seq<int>, k: nat, d: Discounts)
    requires |shifts| == |labels| && shifts != [] && Binary(labels)
    ensures var c, p := CandidateRows(shifts, labels), ParentRows(shifts, labels);
      && Comparable(UserMetrics(c, k, d), UserMetrics(p, k, d))
      && Sum(Contributions(UserMetrics(c, k, d), UserMetrics(p, k, d)), Identity())
        == Evaluate(c, k, d).primary - Evaluate(p, k, d).primary
  {
    hide Sum;
    hide UserMetrics;
    hide Contributions;
    var c, p := UserMetrics(CandidateRows(shifts, labels), k, d), UserMetrics(ParentRows(shifts, labels), k, d);
    MetricsComparable(shifts, labels, k, d);
    SomeUser(CandidateRows(shifts, labels), k, d);
    ContributionsSum(c, p);
    SameWeight(c, p);
    PrimaryChange(c, p);
  }

  lemma {:induction false} PrimaryChange(c: seq<UserMetric>, p: seq<UserMetric>)
    requires |c| == |p| != 0 && Sum(c, Weight()) == Sum(p, Weight())
    ensures Primary(GaucOf(c), NdcgOf(c)) - Primary(GaucOf(p), NdcgOf(p)) ==
      Half(Sum(c, Weight())) * (Sum(c, WeightedAuc()) - Sum(p, WeightedAuc()))
      + Half(|c| as real) * (Sum(c, NdcgPart()) - Sum(p, NdcgPart()))
  {
    hide Sum;
    var w, n := Sum(c, Weight()), |c| as real;
    HalfDifference(Sum(c, NdcgPart()), Sum(p, NdcgPart()), n);
    if w != 0.0 {
      HalfDifference(Sum(c, WeightedAuc()), Sum(p, WeightedAuc()), w);
    }
  }

  lemma {:induction false} HalfDifference(x: real, y: real, w: real)
    requires w != 0.0
    ensures (x / w) / 2.0 - (y / w) / 2.0 == Half(w) * (x - y)
  {
    HalfQuotient(x, w);
    HalfQuotient(y, w);
    Distribute(x, y, Half(w));
  }

  // ----- What one contribution means -----

  /** The candidate's scores for one user only, the parent's for everyone else. */
  function Solo(user: string): Shift -> Shift {
    (s: Shift) => if s.user == user then s else Shift(s.user, s.parent, s.parent)
  }

  function SoloRow(user: string): Duo -> Row {
    (x: Duo) => Row(x.shift.user, x.lab, if x.shift.user == user then x.shift.candidate else x.shift.parent)
  }

  function SoloItem(user: string): Duo -> Item { (x: Duo) => ItemOf()(SoloRow(user)(x)) }

  lemma {:induction false} SoloGroups(shifts: seq<Shift>, labels: seq<int>, user: string, other: string)
    requires |shifts| == |labels|
    ensures RowsOf(CandidateRows(Map(shifts, Solo(user)), labels), other) ==
      RowsOf(if other == user then CandidateRows(shifts, labels) else ParentRows(shifts, labels), other)
  {
    hide Filter;
    var duos := ZipDuos(shifts, labels);
    var group := DuosOf(duos, other);
    assert CandidateRows(Map(shifts, Solo(user)), labels) == Map(duos, SoloRow(user));
    FilterMap(duos, SoloRow(user), KeyIs(UserOf(), other), KeyIs(DuoUser(), other));
    MapMap(group, SoloRow(user), ItemOf(), SoloItem(user));
    SameGroups(shifts, labels, other);
    forall i | 0 <= i < |group|
      ensures SoloItem(user)(group[i]) == (if other == user then CandidateItem() else ParentItem())(group[i])
    {
      assert group[i] in group;
    }
  }

  lemma {:induction false} SoloMetrics(shifts: seq<Shift>, labels: seq<int>, i: nat, k: nat, d: Discounts)
    requires |shifts| == |labels| && i < |ShiftUsers(shifts)|
    ensures var c, p := UserMetrics(CandidateRows(shifts, labels), k, d), UserMetrics(ParentRows(shifts, labels), k, d);
      && |c| == |p| == |ShiftUsers(shifts)|
      && UserMetrics(CandidateRows(Map(shifts, Solo(ShiftUsers(shifts)[i])), labels), k, d) == p[i := c[i]]
  {
    hide FirstSeen;
    hide RowsOf;
    hide UserMetricOf;
    var users := ShiftUsers(shifts);
    var solo := Map(shifts, Solo(users[i]));
    assert Map(solo, ShiftUser()) == Map(shifts, ShiftUser());
    SameUsers(shifts, labels);
    SameUsers(solo, labels);
    UsersDistinct(shifts);
    forall j | 0 <= j < |users|
      ensures RowsOf(CandidateRows(solo, labels), users[j]) ==
        RowsOf(if j == i then CandidateRows(shifts, labels) else ParentRows(shifts, labels), users[j])
    {
      SoloGroups(shifts, labels, users[i], users[j]);
    }
  }

  /** A total over the metrics of a mixed population differs from the parent's in one term. */
  lemma {:induction false} SoloSum(c: seq<UserMetric>, p: seq<UserMetric>, i: nat, f: UserMetric -> real)
    requires |c| == |p| && i < |p|
    ensures Sum(p[i := c[i]], f) - Sum(p, f) == f(c[i]) - f(p[i])
  {
    hide Sum;
    var q := p[i := c[i]];
    ChangeSum(q, p, f);
    SumSingle(Zip(q, p), i, Change(f));
  }

  /** A user's entry in the delta vector is what the official primary metric would change by if the
      candidate's scores were adopted for that user alone. */
  lemma {:induction false} ContributionIsSoloEffect(shifts: seq<Shift>, labels: seq<int>, i: nat, k: nat, d: Discounts)
    requires |shifts| == |labels| && Binary(labels) && i < |ShiftUsers(shifts)|
    ensures var c, p := CandidateRows(shifts, labels), ParentRows(shifts, labels);
      && |UserMetrics(c, k, d)| == |UserMetrics(p, k, d)| == |ShiftUsers(shifts)|
      && Contributions(UserMetrics(c, k, d), UserMetrics(p, k, d))[i] ==
        Evaluate(CandidateRows(Map(shifts, Solo(ShiftUsers(shifts)[i])), labels), k, d).primary
        - Evaluate(p, k, d).primary
  {
    hide Sum;
    hide UserMetrics;
    hide ShiftUsers;
    hide Contribution;
    hide Half;
    hide Primary;
    hide WeightedAuc;
    var c, p := UserMetrics(CandidateRows(shifts, labels), k, d), UserMetrics(ParentRows(shifts, labels), k, d);
    SoloMetrics(shifts, labels, i, k, d);
    MetricsComparable(shifts, labels, k, d);
    var q := p[i := c[i]];
    assert Comparable(q, p);
    SameWeight(c, p);
    SameWeight(q, p);
    PrimaryChange(q, p);
    SoloSum(c, p, i, WeightedAuc());
    SoloSum(c, p, i, NdcgPart());
    ContributionLinear(c[i], p[i], |c|, Sum(c, Weight()));
  }
}
