/** proxy.py: the split of the validation rows into two arms that share no user, and why evaluating
    the arms apart loses nothing. */
module Proxy {
  import opened Reals
  import opened Results
  import opened Rounding
  import opened Sums
  import opened PairwiseAuc
  import opened DiscountedGain
  import opened Evaluation
  import opened RankChange
  import opened OrderResponse

  type Hash = string -> int

  function Threshold(ratio: real): int { RoundHalfEven(ratio * 10000.0) }

  /** The rule itself, with no memory of earlier rows. */
  function InA(hash: Hash, ratio: real): string -> bool { (user: string) => hash(user) % 10000 < Threshold(ratio) }

  /** Arm A is the users whose hash, modulo 10000, is below an integer nearest to 10000 times the ratio, the
      even one of two. */
  lemma {:induction false} InAIff(hash: Hash, ratio: real)
    ensures exists threshold: int :: CutsAt(hash, ratio, threshold)
  {
    RoundNearest(ratio * 10000.0, 0);
    assert CutsAt(hash, ratio, Threshold(ratio));
  }

  ghost predicate CutsAt(hash: Hash, ratio: real, threshold: int) {
    && IsNearest(threshold, ratio * 10000.0)
    && forall user :: InA(hash, ratio)(user) <==> hash(user) % 10000 < threshold
  }

  /** The places, in order, whose user is (or is not) in arm A. */
  function Places(userIds: seq<string>, arm: string -> bool, want: bool): (r: seq<nat>)
    ensures forall j | 0 <= j < |r| :: r[j] < |userIds| && arm(userIds[r[j]]) == want
  {
    if userIds == [] then [] else
      var n := |userIds| - 1;
      Places(userIds[..n], arm, want) + if arm(userIds[n]) == want then [n] else []
  }

  lemma {:induction false} PlacesStep(userIds: seq<string>, i: nat, arm: string -> bool, want: bool)
    requires i < |userIds|
    ensures Places(userIds[..i + 1], arm, want) ==
      Places(userIds[..i], arm, want) + if arm(userIds[i]) == want then [i] else []
  {
    assert userIds[..i + 1][..i] == userIds[..i];
  }

  /** `split_validation_indices`. */
  method SplitValidationIndices(userIds: seq<string>, ratio: real, hash: Hash) returns (r: Result<(seq<nat>, seq<nat>)>)
    ensures !(0.0 < ratio < 1.0) ==> r == Err(BadRatio)
    ensures 0.0 < ratio < 1.0 ==>
      r == Ok((Places(userIds, InA(hash, ratio), true), Places(userIds, InA(hash, ratio), false)))
  {
    if !(0.0 < ratio < 1.0) { return Err(BadRatio); }
    var threshold := RoundHalfEven(ratio * 10000.0);
    var armCache: map<string, bool> := map[];
    var valA: seq<nat>, valB: seq<nat> := [], [];
    for index := 0 to |userIds|
      invariant forall user | user in armCache :: armCache[user] == InA(hash, ratio)(user)
      invariant valA == Places(userIds[..index], InA(hash, ratio), true)
      invariant valB == Places(userIds[..index], InA(hash, ratio), false)
    {
      PlacesStep(userIds, index, InA(hash, ratio), true);
      PlacesStep(userIds, index, InA(hash, ratio), false);
      var user := userIds[index];
      if user !in armCache {
        armCache := armCache[user := hash(user) % 10000 < threshold];
      }
      if armCache[user] { valA := valA + [index]; } else { valB := valB + [index]; }
    }
    assert userIds[..|userIds|] == userIds;
    r := Ok((valA, valB));
  }

  /** The two lists are strictly increasing and cut the rows in two, never through a user. */
  lemma {:induction false} SplitPartitions(userIds: seq<string>, arm: string -> bool)
    ensures var a, b := Places(userIds, arm, true), Places(userIds, arm, false);
      && (forall i, j | 0 <= i < j < |a| :: a[i] < a[j]) && (forall i, j | 0 <= i < j < |b| :: b[i] < b[j])
      && |a| + |b| == |userIds|
      && (forall i: nat | i < |userIds| :: i in a <==> i !in b)
      && (forall i, j | 0 <= i < |a| && 0 <= j < |b| :: userIds[a[i]] != userIds[b[j]])
  {
    if userIds != [] {
      var n := |userIds| - 1;
      SplitPartitions(userIds[..n], arm);
    }
  }

  // ----- Evaluating the arms apart -----

  function RowIn(arm: string -> bool, want: bool): Row -> bool { (row: Row) => arm(row.user) == want }

  function NameIn(arm: string -> bool, want: bool): string -> bool { (user: string) => arm(user) == want }

  function MetricIn(arm: string -> bool, want: bool): UserMetric -> bool { (m: UserMetric) => arm(m.user) == want }

  /** The rows of one arm. */
  function Arm(rows: seq<Row>, arm: string -> bool, want: bool): seq<Row> { Filter(rows, RowIn(arm, want)) }

  /** Picking the listed places is keeping the rows of the arm's users. */
  lemma {:induction false} PlacesAreArm(rows: seq<Row>, arm: string -> bool, want: bool)
    ensures Gather(rows, Places(Map(rows, UserOf()), arm, want)) == Arm(rows, arm, want)
  {
    hide Filter;
    var users := Map(rows, UserOf());
    if rows == [] {
      FilterNone(rows, RowIn(arm, want));
    } else {
      var n := |rows| - 1;
      var init := rows[..n];
      PlacesAreArm(init, arm, want);
      assert users[..n] == Map(init, UserOf());
      assert rows == init + [rows[n]];
      ArmStep(init, rows[n], arm, want);
      var places := Places(users[..n], arm, want);
      assert Gather(rows, places) == Gather(init, places);
      if arm(users[n]) == want {
        assert Gather(rows, places + [n]) == Gather(rows, places) + [rows[n]];
      }
    }
  }

  lemma {:induction false} ArmStep(rows: seq<Row>, row: Row, arm: string -> bool, want: bool)
    ensures Arm(rows + [row], arm, want) == Arm(rows, arm, want) + if arm(row.user) == want then [row] else []
  {
    FilterAppend(rows, [row], RowIn(arm, want));
  }

  /** An arm's users keep all their rows, so their metrics are the population's. */
  lemma {:induction false} ArmMetrics(rows: seq<Row>, arm: string -> bool, want: bool, k: nat, d: Discounts)
    ensures UserMetrics(Arm(rows, arm, want), k, d) == Filter(UserMetrics(rows, k, d), MetricIn(arm, want))
  {
    hide FirstSeen;
    hide Filter;
    hide UserMetricOf;
    var part := Arm(rows, arm, want);
    var all, some := MetricFor(rows, k, d), MetricFor(part, k, d);
    FirstSeenFilter(rows, UserOf(), NameIn(arm, want), RowIn(arm, want));
    var users := Filter(Users(rows), NameIn(arm, want));
    forall i | 0 <= i < |users| ensures all(users[i]) == some(users[i]) {
      assert users[i] in users;
      FilterFilter(rows, RowIn(arm, want), KeyIs(UserOf(), users[i]), KeyIs(UserOf(), users[i]));
    }
    assert Map(users, some) == Map(users, all);
    forall user | user in Users(rows) ensures NameIn(arm, want)(user) <==> MetricIn(arm, want)(all(user)) {
      MetricNamed(rows, user, k, d);
    }
    FilterMap(Users(rows), all, MetricIn(arm, want), NameIn(arm, want));
  }

  function ArmOf(arm: string -> bool): UserMetric -> bool { (m: UserMetric) => arm(m.user) }

  lemma {:induction false} ArmTotals(rows: seq<Row>, arm: string -> bool, k: nat, d: Discounts, f: UserMetric -> real)
    ensures Sum(UserMetrics(rows, k, d), f) ==
      Sum(UserMetrics(Arm(rows, arm, true), k, d), f) + Sum(UserMetrics(Arm(rows, arm, false), k, d), f)
  {
    hide Sum;
    hide Filter;
    var ms, names := UserMetrics(rows, k, d), [true, false];
    ArmMetrics(rows, arm, true, k, d);
    ArmMetrics(rows, arm, false, k, d);
    SameFilter(ms, KeyIs(ArmOf(arm), true), MetricIn(arm, true));
    SameFilter(ms, KeyIs(ArmOf(arm), false), MetricIn(arm, false));
    var group := (want: bool) => Sum(Filter(ms, KeyIs(ArmOf(arm), want)), f);
    PartitionSum(ms, ArmOf(arm), names, f, group);
    TwoArms(group);
  }

  lemma {:induction false} TwoArms(f: bool -> real)
    ensures Sum([true, false], f) == f(true) + f(false)
  {
    assert [true, false][1..] == [false] && [false][1..] == [];
  }

  lemma {:induction false} SameFilter<T>(s: seq<T>, p: T -> bool, q: T -> bool)
    requires forall x | x in s :: p(x) <==> q(x)
    ensures Filter(s, p) == Filter(s, q)
  {
    if s != [] { SameFilter(s[1..], p, q); }
  }

  function WeightOf(rows: seq<Row>, k: nat, d: Discounts): real { Sum(UserMetrics(rows, k, d), Weight()) }

  /** The arms, weighted by their own positive weight and user count, give back the population's
      metrics; an arm may be empty. */
  lemma {:induction false} ArmsRecombine(rows: seq<Row>, arm: string -> bool, k: nat, d: Discounts)
    ensures var a, b := Arm(rows, arm, true), Arm(rows, arm, false);
      var whole, inA, inB := Evaluate(rows, k, d), Evaluate(a, k, d), Evaluate(b, k, d);
      && WeightOf(rows, k, d) == WeightOf(a, k, d) + WeightOf(b, k, d)
      && whole.users == inA.users + inB.users
      && whole.gauc * WeightOf(rows, k, d) == inA.gauc * WeightOf(a, k, d) + inB.gauc * WeightOf(b, k, d)
      && whole.ndcg * whole.users as real == inA.ndcg * inA.users as real + inB.ndcg * inB.users as real
  {
    hide Sum;
    hide GaucOf;
    hide NdcgOf;
    hide UserMetrics;
    hide Arm;
    hide WeightOf;
    var a, b := Arm(rows, arm, true), Arm(rows, arm, false);
    ArmWeights(rows, arm, k, d);
    ArmTotals(rows, arm, k, d, WeightedAuc());
    ArmTotals(rows, arm, k, d, NdcgPart());
    UserCounts(rows, arm, k, d);
    PartTotals(rows, k, d);
    PartTotals(a, k, d);
    PartTotals(b, k, d);
  }

  lemma {:induction false} ArmWeights(rows: seq<Row>, arm: string -> bool, k: nat, d: Discounts)
    ensures WeightOf(rows, k, d) == WeightOf(Arm(rows, arm, true), k, d) + WeightOf(Arm(rows, arm, false), k, d)
  {
    ArmTotals(rows, arm, k, d, Weight());
  }

  lemma {:induction false} UserCounts(rows: seq<Row>, arm: string -> bool, k: nat, d: Discounts)
    ensures |UserMetrics(rows, k, d)| ==
      |UserMetrics(Arm(rows, arm, true), k, d)| + |UserMetrics(Arm(rows, arm, false), k, d)|
  {
    hide Sum;
    hide UserMetrics;
    var one := (m: UserMetric) => 1.0;
    ArmTotals(rows, arm, k, d, one);
    SumConst(UserMetrics(rows, k, d), one, 1.0);
    SumConst(UserMetrics(Arm(rows, arm, true), k, d), one, 1.0);
    SumConst(UserMetrics(Arm(rows, arm, false), k, d), one, 1.0);
  }

  lemma {:induction false} PartTotals(rows: seq<Row>, k: nat, d: Discounts)
    ensures Evaluate(rows, k, d).gauc * WeightOf(rows, k, d) == Sum(UserMetrics(rows, k, d), WeightedAuc())
    ensures Evaluate(rows, k, d).ndcg * Evaluate(rows, k, d).users as real == Sum(UserMetrics(rows, k, d), NdcgPart())
  {
    hide Sum;
    hide GaucOf;
    hide NdcgOf;
    hide UserMetrics;
    UserMetricsWeighable(rows, k, d);
    TimesDenominator(UserMetrics(rows, k, d));
  }

  /** Two averages combined by their own denominators; `none` stands for an average of nothing. */
  function Combined(x: real, xWeight: real, y: real, yWeight: real, none: real): real {
    if xWeight + yWeight == 0.0 then none else (x * xWeight + y * yWeight) / (xWeight + yWeight)
  }

  /** So the population's metrics are the arms' combined, with the defaults of the source where there is
      nothing to average. */
  lemma {:induction false} ArmsCombine(rows: seq<Row>, arm: string -> bool, k: nat, d: Discounts)
    ensures var a, b := Arm(rows, arm, true), Arm(rows, arm, false);
      var whole, inA, inB := Evaluate(rows, k, d), Evaluate(a, k, d), Evaluate(b, k, d);
      && whole.gauc == Combined(inA.gauc, WeightOf(a, k, d), inB.gauc, WeightOf(b, k, d), 0.5)
      && whole.ndcg == Combined(inA.ndcg, inA.users as real, inB.ndcg, inB.users as real, 0.0)
      && whole.primary == Primary(whole.gauc, whole.ndcg)
  {
    hide Sum;
    hide UserMetrics;
    hide Arm;
    var a, b := Arm(rows, arm, true), Arm(rows, arm, false);
    var whole, inA, inB := Evaluate(rows, k, d), Evaluate(a, k, d), Evaluate(b, k, d);
    ArmsRecombine(rows, arm, k, d);
    if WeightOf(rows, k, d) != 0.0 {
      SameQuotient(whole.gauc, inA.gauc * WeightOf(a, k, d) + inB.gauc * WeightOf(b, k, d), WeightOf(rows, k, d));
    }
    if whole.users != 0 {
      SameQuotient(whole.ndcg, inA.ndcg * inA.users as real + inB.ndcg * inB.users as real, whole.users as real);
    }
  }

  // ----- The arms' deltas -----

  /** `_primary_delta`, and the changes of the two metrics behind it. */
  datatype Delta = Delta(gauc: real, ndcg: real, primary: real)

  function Change(candidate: Metrics, parent: Metrics): Delta {
    Delta(candidate.gauc - parent.gauc, candidate.ndcg - parent.ndcg, candidate.primary - parent.primary)
  }

  function ShiftIn(arm: string -> bool, want: bool): Duo -> bool { (x: Duo) => arm(x.shift.user) == want }

  function DeltaOf(duos: seq<Duo>, k: nat, d: Discounts): Delta {
    Change(Evaluate(Map(duos, CandidateRow()), k, d), Evaluate(Map(duos, ParentRow()), k, d))
  }

  function ArmDuos(duos: seq<Duo>, arm: string -> bool, want: bool): seq<Duo> { Filter(duos, ShiftIn(arm, want)) }

  /** Both models put the same rows, hence the same weight and the same users, in an arm. */
  lemma {:induction false} ArmOfDuos(duos: seq<Duo>, arm: string -> bool, want: bool)
    ensures Arm(Map(duos, CandidateRow()), arm, want) == Map(ArmDuos(duos, arm, want), CandidateRow())
    ensures Arm(Map(duos, ParentRow()), arm, want) == Map(ArmDuos(duos, arm, want), ParentRow())
  {
    hide Filter;
    FilterMap(duos, CandidateRow(), RowIn(arm, want), ShiftIn(arm, want));
    FilterMap(duos, ParentRow(), RowIn(arm, want), ShiftIn(arm, want));
  }

  lemma {:induction false} SameDenominators(duos: seq<Duo>, k: nat, d: Discounts)
    requires BinaryDuos(duos)
    ensures WeightOf(Map(duos, CandidateRow()), k, d) == WeightOf(Map(duos, ParentRow()), k, d)
    ensures Evaluate(Map(duos, CandidateRow()), k, d).users == Evaluate(Map(duos, ParentRow()), k, d).users
  {
    hide Sum;
    hide UserMetrics;
    hide WeightOf;
    var shifts, labels := Map(duos, ShiftOf()), Map(duos, DuoLabel());
    assert ZipDuos(shifts, labels) == duos;
    BinaryLabels(duos);
    TotalWeights(shifts, labels, k, d);
    SameUsers(shifts, labels);
    UsersCounted(CandidateRows(shifts, labels), k, d);
    UsersCounted(ParentRows(shifts, labels), k, d);
  }

  lemma {:induction false} BinaryLabels(duos: seq<Duo>)
    requires BinaryDuos(duos)
    ensures Binary(Map(duos, DuoLabel()))
  {
  }

  lemma {:induction false} TotalWeights(shifts: seq<Shift>, labels: seq<int>, k: nat, d: Discounts)
    requires |shifts| == |labels| && Binary(labels)
    ensures WeightOf(CandidateRows(shifts, labels), k, d) == WeightOf(ParentRows(shifts, labels), k, d)
  {
    hide Sum;
    hide UserMetrics;
    TotalsMove(shifts, labels, k, d);
  }

  lemma {:induction false} CombinedDifference(x: real, x': real, xWeight: real, y: real, y': real, yWeight: real,
                                               none: real)
    ensures Combined(x, xWeight, y, yWeight, none) - Combined(x', xWeight, y', yWeight, none) ==
      Combined(x - x', xWeight, y - y', yWeight, 0.0)
  {
    var w := xWeight + yWeight;
    if w != 0.0 {
      var s, t := x * xWeight + y * yWeight, x' * xWeight + y' * yWeight;
      assert (x - x') * xWeight + (y - y') * yWeight == s - t by {
        Distribute(x, x', xWeight);
        Distribute(y, y', yWeight);
      }
      QuotientOfDifference(s, t, w);
    }
  }

  lemma {:induction false} QuotientOfDifference(s: real, t: real, w: real)
    requires w != 0.0
    ensures s / w - t / w == (s - t) / w
  {
    DivisionScale(s, w);
    DivisionScale(t, w);
    DivisionScale(s - t, w);
    Distribute(s, t, 1.0 / w);
  }

  /** A candidate's change in the official metrics is its changes in the two arms, combined by the arms'
      positive weights and user counts, which do not depend on the model; where nothing can be averaged
      nothing changes. */
  lemma {:induction false} ArmDeltasRecombine(duos: seq<Duo>, arm: string -> bool, k: nat, d: Discounts)
    requires BinaryDuos(duos)
    ensures var a, b := ArmDuos(duos, arm, true), ArmDuos(duos, arm, false);
      var whole, inA, inB := DeltaOf(duos, k, d), DeltaOf(a, k, d), DeltaOf(b, k, d);
      var wA, wB := WeightOf(Map(a, ParentRow()), k, d), WeightOf(Map(b, ParentRow()), k, d);
      var uA, uB := |Users(Map(a, ParentRow()))| as real, |Users(Map(b, ParentRow()))| as real;
      && whole.gauc == Combined(inA.gauc, wA, inB.gauc, wB, 0.0)
      && whole.ndcg == Combined(inA.ndcg, uA, inB.ndcg, uB, 0.0)
      && whole.primary == Primary(whole.gauc, whole.ndcg)
      && inA.primary == Primary(inA.gauc, inA.ndcg) && inB.primary == Primary(inB.gauc, inB.ndcg)
  {
    hide Filter;
    hide GaucOf;
    hide NdcgOf;
    hide WeightOf;
    hide Combined;
    hide UserMetrics;
    var a, b := ArmDuos(duos, arm, true), ArmDuos(duos, arm, false);
    BinaryArm(duos, arm, true);
    BinaryArm(duos, arm, false);
    ArmOfDuos(duos, arm, true);
    ArmOfDuos(duos, arm, false);
    ArmsCombine(Map(duos, CandidateRow()), arm, k, d);
    ArmsCombine(Map(duos, ParentRow()), arm, k, d);
    SameDenominators(a, k, d);
    SameDenominators(b, k, d);
    UsersCounted(Map(a, ParentRow()), k, d);
    UsersCounted(Map(b, ParentRow()), k, d);
    var cA, cB := Evaluate(Map(a, CandidateRow()), k, d), Evaluate(Map(b, CandidateRow()), k, d);
    var pA, pB := Evaluate(Map(a, ParentRow()), k, d), Evaluate(Map(b, ParentRow()), k, d);
    CombinedDifference(cA.gauc, pA.gauc, WeightOf(Map(a, ParentRow()), k, d),
                       cB.gauc, pB.gauc, WeightOf(Map(b, ParentRow()), k, d), 0.5);
    CombinedDifference(cA.ndcg, pA.ndcg, pA.users as real, cB.ndcg, pB.ndcg, pB.users as real, 0.0);
  }

  lemma {:induction false} BinaryArm(duos: seq<Duo>, arm: string -> bool, want: bool)
    requires BinaryDuos(duos)
    ensures BinaryDuos(ArmDuos(duos, arm, want))
  {
  }
}
