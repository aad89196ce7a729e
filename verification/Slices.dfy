/** slices.py: per-user metrics, cohort slices and their exact recombination, and the split of a
    primary delta into per-user contributions. */
module Slices {
  import opened Results
  import opened Sums
  import opened PairwiseAuc
  import opened DiscountedGain
  import opened Evaluation

  datatype UserSlice = UserSlice(name: string, users: nat, weight: real, gauc: real, ndcg: real, primary: real)

  /** `user_metrics`. */
  method ComputeUserMetrics(userIds: seq<string>, labels: seq<int>, scores: seq<real>, k: int, d: Discounts)
    returns (r: Result<seq<UserMetric>>)
    ensures !(|userIds| == |labels| == |scores| != 0) ==> r == Err(Misaligned)
    ensures |userIds| == |labels| == |scores| != 0 && !Binary(labels) ==> r == Err(NotBinary)
    ensures |userIds| == |labels| == |scores| != 0 && Binary(labels) && k <= 0 ==> r == Err(NonPositiveK)
    ensures |userIds| == |labels| == |scores| != 0 && Binary(labels) && k > 0 ==>
      r == Ok(UserMetrics(ZipRows(userIds, labels, scores), k, d))
  {
    if !(|userIds| == |labels| == |scores|) || |scores| == 0 { return Err(Misaligned); }
    if !Binary(labels) { return Err(NotBinary); }
    var rows := ZipRows(userIds, labels, scores);
    var order, grouped := GroupRows(rows);
    if k <= 0 { return Err(NonPositiveK); }
    var output := ScoreGroups(rows, order, grouped, k, d);
    r := Ok(output);
  }

  method ScoreGroups(rows: seq<Row>, order: seq<string>, grouped: map<string, seq<Item>>, k: nat, d: Discounts)
    returns (output: seq<UserMetric>)
    requires BinaryRows(rows) && Grouped(rows, order, grouped)
    ensures output == UserMetrics(rows, k, d)
  {
    hide RowsOf;
    hide Users;
    hide UserMetricOf;
    output := [];
    for i := 0 to |order|
      invariant output == UserMetrics(rows, k, d)[..i]
    {
      BinaryRowsOf(rows, order[i]);
      var m := ScoreUser(grouped[order[i]], k, d, order[i]);
      assert m == UserMetrics(rows, k, d)[i];
      output := output + [m];
    }
  }

  // ----- Slices -----

  type Bucket = UserMetric -> string

  function SliceNames(ms: seq<UserMetric>, bucket: Bucket): seq<string> { FirstSeen(Map(ms, bucket)) }

  function Members(ms: seq<UserMetric>, bucket: Bucket, name: string): seq<UserMetric> {
    Filter(ms, KeyIs(bucket, name))
  }

  function SliceOf(name: string, members: seq<UserMetric>): UserSlice {
    UserSlice(name, |members|, Sum(members, Weight()), GaucOf(members), NdcgOf(members),
              Primary(GaucOf(members), NdcgOf(members)))
  }

  function SliceFor(ms: seq<UserMetric>, bucket: Bucket): string -> UserSlice {
    (name: string) => SliceOf(name, Members(ms, bucket, name))
  }

  function SliceUsers(ms: seq<UserMetric>, bucket: Bucket): seq<UserSlice> {
    Map(SliceNames(ms, bucket), SliceFor(ms, bucket))
  }

  ghost predicate Sliced(ms: seq<UserMetric>, bucket: Bucket, order: seq<string>, grouped: map<string,
                         seq<UserMetric>>) {
    && order == SliceNames(ms, bucket)
    && (forall name :: name in grouped <==> name in order)
    && (forall name | name in order :: grouped[name] == Members(ms, bucket, name))
  }

  /** `slice_users`: the grouping loop and the loop over the groups. */
  method ComputeSlices(ms: seq<UserMetric>, bucket: Bucket) returns (output: seq<UserSlice>)
    ensures output == SliceUsers(ms, bucket)
  {
    hide Sliced;
    var order: seq<string>, grouped: map<string, seq<UserMetric>> := [], map[];
    NothingSliced(ms[..0], bucket);
    for i := 0 to |ms|
      invariant Sliced(ms[..i], bucket, order, grouped)
    {
      var name := bucket(ms[i]);
      SlicedStep(ms[..i], ms[i], bucket, order, grouped);
      assert ms[..i + 1] == ms[..i] + [ms[i]];
      if name !in grouped {
        order, grouped := order + [name], grouped[name := []];
      }
      grouped := grouped[name := grouped[name] + [ms[i]]];
    }
    assert ms[..|ms|] == ms;
    output := SliceGroups(ms, bucket, order, grouped);
  }

  method SliceGroups(ms: seq<UserMetric>, bucket: Bucket, order: seq<string>, grouped: map<string, seq<UserMetric>>)
    returns (output: seq<UserSlice>)
    requires Sliced(ms, bucket, order, grouped)
    ensures output == SliceUsers(ms, bucket)
  {
    hide Sum;
    hide SliceNames;
    output := [];
    for i := 0 to |order|
      invariant output == SliceUsers(ms, bucket)[..i]
    {
      var values := grouped[order[i]];
      var gaucWeight := Sum(values, Weight());
      var gauc := if gaucWeight != 0.0 then Sum(values, WeightedAuc()) / gaucWeight else 0.5;
      MemberListed(ms, bucket, order[i]);
      var ndcg := Sum(values, NdcgPart()) / |values| as real;
      output := output + [UserSlice(order[i], |values|, gaucWeight, gauc, ndcg, (gauc + ndcg) / 2.0)];
    }
  }

  lemma {:induction false} NothingSliced(ms: seq<UserMetric>, bucket: Bucket)
    requires ms == []
    ensures Sliced(ms, bucket, [], map[])
  {
  }

  lemma {:induction false} SlicedStep(ms: seq<UserMetric>, m: UserMetric, bucket: Bucket, order: seq<string>,
                                       grouped: map<string, seq<UserMetric>>)
    requires Sliced(ms, bucket, order, grouped)
    ensures var name := bucket(m);
      var own := if name in grouped then grouped[name] else [];
      var ready := if name in grouped then grouped else grouped[name := []];
      Sliced(ms + [m], bucket, if name in grouped then order else order + [name], ready[name := own + [m]])
  {
    hide FirstSeen;
    hide Filter;
    var name := bucket(m);
    assert Map(ms + [m], bucket) == Map(ms, bucket) + [name];
    FirstSeenAppend(Map(ms, bucket), name);
    SliceNamesListed(ms, bucket);
    forall other
      ensures Members(ms + [m], bucket, other) == Members(ms, bucket, other) + if other == name then [m] else []
    {
      MembersStep(ms, m, bucket, other);
    }
    if name !in grouped {
      FilterNone(ms, KeyIs(bucket, name));
    }
  }

  lemma {:induction false} MembersStep(ms: seq<UserMetric>, m: UserMetric, bucket: Bucket, name: string)
    ensures Members(ms + [m], bucket, name) == Members(ms, bucket, name) + if name == bucket(m) then [m] else []
  {
    FilterAppend(ms, [m], KeyIs(bucket, name));
  }

  lemma {:induction false} SliceNamesListed(ms: seq<UserMetric>, bucket: Bucket)
    ensures Distinct(SliceNames(ms, bucket))
    ensures forall m | m in ms :: bucket(m) in SliceNames(ms, bucket)
  {
    forall m | m in ms ensures bucket(m) in SliceNames(ms, bucket) {
      var i :| 0 <= i < |ms| && ms[i] == m;
      assert Map(ms, bucket)[i] == bucket(m);
    }
  }

  lemma {:induction false} MemberListed(ms: seq<UserMetric>, bucket: Bucket, name: string)
    requires name in SliceNames(ms, bucket)
    ensures Members(ms, bucket, name) != []
  {
    var i :| 0 <= i < |ms| && Map(ms, bucket)[i] == name;
    assert ms[i] in Members(ms, bucket, name);
  }

  // ----- Recombination -----

  function SliceWeight(): UserSlice -> real { (s: UserSlice) => s.weight }

  function SliceGauc(): UserSlice -> real { (s: UserSlice) => s.gauc * s.weight }

  function SliceNdcg(): UserSlice -> real { (s: UserSlice) => s.ndcg * s.users as real }

  function SliceCount(): UserSlice -> real { (s: UserSlice) => s.users as real }

  datatype Rebuilt = Rebuilt(gauc: real, ndcg: real, primary: real)

  /** `reconstruct_from_user_slices`; slices without users are as good as no slices. */
  function Reconstruct(slices: seq<UserSlice>): Result<Rebuilt>
  {
    if slices == [] || Sum(slices, SliceCount()) == 0.0 then Err(Empty)
    else
      var weight := Sum(slices, SliceWeight());
      var gauc := if weight != 0.0 then Sum(slices, SliceGauc()) / weight else 0.5;
      var ndcg := Sum(slices, SliceNdcg()) / Sum(slices, SliceCount());
      Ok(Rebuilt(gauc, ndcg, Primary(gauc, ndcg)))
  }

  /** A slice's GAUC times its weight is its members' weighted AUC, even when it has no weight. */
  lemma {:induction false} SliceProducts(members: seq<UserMetric>, name: string)
    requires Weighable(members)
    ensures SliceGauc()(SliceOf(name, members)) == Sum(members, WeightedAuc())
    ensures members != [] ==> SliceNdcg()(SliceOf(name, members)) == Sum(members, NdcgPart())
  {
    hide Sum;
    hide GaucOf;
    hide NdcgOf;
    TimesDenominator(members);
  }

  lemma {:induction false} SliceTotals(ms: seq<UserMetric>, bucket: Bucket)
    requires Weighable(ms)
    ensures var slices := SliceUsers(ms, bucket);
      && Sum(slices, SliceWeight()) == Sum(ms, Weight())
      && Sum(slices, SliceGauc()) == Sum(ms, WeightedAuc())
      && Sum(slices, SliceNdcg()) == Sum(ms, NdcgPart())
      && Sum(slices, SliceCount()) == |ms| as real
  {
    hide Sum;
    hide SliceOf;
    hide Weighable;
    SliceNamesListed(ms, bucket);
    var one := (m: UserMetric) => 1.0;
    forall name | name in SliceNames(ms, bucket)
      ensures var s, members := SliceFor(ms, bucket)(name), Members(ms, bucket, name);
        && SliceWeight()(s) == Sum(members, Weight()) && SliceGauc()(s) == Sum(members, WeightedAuc())
        && SliceNdcg()(s) == Sum(members, NdcgPart()) && SliceCount()(s) == Sum(members, one)
    {
      OneSlice(ms, bucket, name, one);
    }
    TotalOverSlices(ms, bucket, Weight(), SliceWeight());
    TotalOverSlices(ms, bucket, WeightedAuc(), SliceGauc());
    TotalOverSlices(ms, bucket, NdcgPart(), SliceNdcg());
    TotalOverSlices(ms, bucket, one, SliceCount());
    SumConst(ms, one, 1.0);
  }

  lemma {:induction false} OneSlice(ms: seq<UserMetric>, bucket: Bucket, name: string, one: UserMetric -> real)
    requires Weighable(ms) && name in SliceNames(ms, bucket)
    requires forall m :: one(m) == 1.0
    ensures var s, members := SliceFor(ms, bucket)(name), Members(ms, bucket, name);
      && SliceWeight()(s) == Sum(members, Weight()) && SliceGauc()(s) == Sum(members, WeightedAuc())
      && SliceNdcg()(s) == Sum(members, NdcgPart()) && SliceCount()(s) == Sum(members, one)
  {
    hide Sum;
    MemberListed(ms, bucket, name);
    SliceProducts(Members(ms, bucket, name), name);
    SumConst(Members(ms, bucket, name), one, 1.0);
  }

  /** A total over members, slice by slice, is the total over the population. */
  lemma {:induction false} TotalOverSlices(ms: seq<UserMetric>, bucket: Bucket, f: UserMetric -> real,
                                            g: UserSlice -> real)
    requires forall name | name in SliceNames(ms, bucket) ::
      g(SliceFor(ms, bucket)(name)) == Sum(Members(ms, bucket, name), f)
    ensures Sum(SliceUsers(ms, bucket), g) == Sum(ms, f)
  {
    hide Sum;
    hide SliceOf;
    hide SliceNames;
    SliceNamesListed(ms, bucket);
    var group := (name: string) => g(SliceFor(ms, bucket)(name));
    SumMap(SliceNames(ms, bucket), SliceFor(ms, bucket), g, group);
    PartitionSum(ms, bucket, SliceNames(ms, bucket), f, group);
  }

  /** Whatever the cohorts, their slices rebuild the population's metrics exactly, each with its
      own denominator. */
  lemma {:induction false} ReconstructionIsExact(rows: seq<Row>, k: nat, d: Discounts, bucket: Bucket)
    requires rows != []
    ensures var m := Evaluate(rows, k, d);
      Reconstruct(SliceUsers(UserMetrics(rows, k, d), bucket)) == Ok(Rebuilt(m.gauc, m.ndcg, m.primary))
  {
    hide Sum;
    hide SliceUsers;
    hide UserMetrics;
    var ms := UserMetrics(rows, k, d);
    UserMetricsWeighable(rows, k, d);
    SomeUser(rows, k, d);
    SliceTotals(ms, bucket);
    SomeSlice(ms, bucket);
  }

  lemma {:induction false} SomeSlice(ms: seq<UserMetric>, bucket: Bucket)
    requires ms != []
    ensures SliceUsers(ms, bucket) != []
  {
    SliceNamesListed(ms, bucket);
    assert ms[0] in ms;
  }
}
