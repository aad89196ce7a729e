/** The converse of `NoReorderingNoMovement`: GAUC sees every within-user reordering. */
module OrderIdentified {
  import opened Reals
  import opened Sums
  import opened Ranks
  import opened PairwiseAuc
  import opened DiscountedGain
  import opened Evaluation
  import opened RankChange
  import opened OrderResponse

  /** A single positive, at row `i`. */
  function OneHot(n: nat, i: nat): (r: seq<int>)
    ensures |r| == n && forall j | 0 <= j < n :: r[j] == if j == i then 1 else 0
  {
    seq(n, j => if j == i then 1 else 0)
  }

  function CandidateScore(): Shift -> real { (s: Shift) => s.candidate }

  function PositiveDuo(): Duo -> real { (x: Duo) => if x.lab == 1 then 1.0 else 0.0 }

  function OwnPositive(user: string): Duo -> real {
    (x: Duo) => if KeyIs(DuoUser(), user)(x) then PositiveDuo()(x) else 0.0
  }

  lemma {:induction false} OneHotDuos(shifts: seq<Shift>, i: nat, f: Duo -> real)
    requires i < |shifts|
    requires forall x: Duo | x.lab == 0 :: f(x) == 0.0
    ensures Sum(ZipDuos(shifts, OneHot(|shifts|, i)), f) == f(Duo(shifts[i], 1))
    ensures forall x | x in ZipDuos(shifts, OneHot(|shifts|, i)) :: x.lab == 0 || x == Duo(shifts[i], 1)
  {
    SumSingle(ZipDuos(shifts, OneHot(|shifts|, i)), i, f);
  }

  /** Only the user of row `i` has a positive, and only one. */
  lemma {:induction false} OneHotPositives(shifts: seq<Shift>, i: nat, user: string)
    requires i < |shifts|
    ensures var group := DuosOf(ZipDuos(shifts, OneHot(|shifts|, i)), user);
      && Sum(group, PositiveDuo()) == (if user == shifts[i].user then 1.0 else 0.0)
      && LabelSum(Labels(Map(group, CandidateItem()))) == (if user == shifts[i].user then 1 else 0)
  {
    hide Sum;
    hide LabelSum;
    hide Filter;
    var duos := ZipDuos(shifts, OneHot(|shifts|, i));
    var group := DuosOf(duos, user);
    SumFilter(duos, KeyIs(DuoUser(), user), PositiveDuo(), OwnPositive(user));
    OneHotDuos(shifts, i, OwnPositive(user));
    BinaryZip(shifts, OneHot(|shifts|, i));
    SameLabels(group);
    PositivesSum(Map(group, CandidateItem()));
    SumMap(group, CandidateItem(), IsPositive(), PositiveDuo());
  }

  function CreditAgainst(score: real): Duo -> real { (y: Duo) => Credit(score, y.shift.candidate) }

  function CreditAgainstNegative(score: real): Duo -> real {
    (y: Duo) => if y.lab == 0 then Credit(score, y.shift.candidate) else 0.0
  }

  function WinsOfPositive(wins: real): Duo -> real { (x: Duo) => if x.lab == 1 then wins else 0.0 }

  /** The one positive wins exactly its rank less one. */
  lemma {:induction false} OneHotWins(group: seq<Duo>, star: Duo)
    requires star.lab == 1 && forall x | x in group :: x.lab == 0 || x == star
    requires Sum(group, PositiveDuo()) == 1.0
    ensures Wins(Map(group, CandidateItem())) ==
      MidRank(Map(Map(group, ShiftOf()), CandidateScore()), star.shift.candidate) - 1.0
  {
    hide Sum;
    hide Pairs;
    hide MidRank;
    var v := star.shift.candidate;
    var earned := Sum(group, CreditAgainstNegative(v));
    PairsMap(group, group, CandidateItem(), PairCredit(), CandidateCredit());
    forall x | x in group ensures WinsOfPositive(earned)(x) == Sum(group, From(CandidateCredit(), x)) {
      if x.lab == 1 {
        SumExt(group, From(CandidateCredit(), x), CreditAgainstNegative(v));
      } else {
        SumConst(group, From(CandidateCredit(), x), 0.0);
      }
    }
    PairsRows(group, group, CandidateCredit(), WinsOfPositive(earned));
    SumLinear(group, PositiveDuo(), earned, PositiveDuo(), 0.0, WinsOfPositive(earned));
    forall y | y in group
      ensures CreditAgainstNegative(v)(y) == 1.0 * CreditAgainst(v)(y) + -0.5 * PositiveDuo()(y)
    {
    }
    SumLinear(group, CreditAgainst(v), 1.0, PositiveDuo(), -0.5, CreditAgainstNegative(v));
    RankOfPositive(group, v);
  }

  lemma {:induction false} RankOfPositive(group: seq<Duo>, v: real)
    ensures MidRank(Map(Map(group, ShiftOf()), CandidateScore()), v) == Sum(group, CreditAgainst(v)) + 0.5
  {
    hide Sum;
    hide MidRank;
    var scores := Map(Map(group, ShiftOf()), CandidateScore());
    var score := (x: Duo) => x.shift.candidate;
    MapMap(group, ShiftOf(), CandidateScore(), score);
    MidRankIsCredit(scores, v);
    SumMap(group, score, CreditOver(v), CreditAgainst(v));
  }

  /** The normalized rank of row `i` among the rows of its user. */
  function RankShare(shifts: seq<Shift>, i: nat): real
    requires i < |shifts| && |GroupOf(shifts, shifts[i].user)| >= 2
  {
    var group := GroupOf(shifts, shifts[i].user);
    (MidRank(Map(group, CandidateScore()), shifts[i].candidate) - 1.0) / (|group| - 1) as real
  }

  /** With a single positive, GAUC is that row's normalized rank among its user's rows. */
  lemma {:induction false} OneHotGauc(shifts: seq<Shift>, i: nat, k: nat, d: Discounts)
    requires i < |shifts| && |GroupOf(shifts, shifts[i].user)| >= 2
    ensures Evaluate(CandidateRows(shifts, OneHot(|shifts|, i)), k, d).gauc == RankShare(shifts, i)
  {
    hide GaucOf;
    hide RankShare;
    hide GroupOf;
    hide ShiftUsers;
    hide UserMetricOf;
    var user, share := shifts[i].user, RankShare(shifts, i);
    var metric := MetricFor(CandidateRows(shifts, OneHot(|shifts|, i)), k, d);
    SameUsers(shifts, OneHot(|shifts|, i));
    ShiftUserListed(shifts, shifts[i]);
    forall other
      ensures Through(metric, Weight())(other) == if other == user then 1.0 else 0.0
      ensures Through(metric, WeightedAuc())(other) == if other == user then share else 0.0
    {
      OneHotUser(shifts, i, other, k, d);
    }
    UsersDistinct(shifts);
    GaucOfOne(ShiftUsers(shifts), metric, user, share);
  }

  /** When a single user carries all the weight, GAUC is that user's AUC. */
  lemma {:induction false} GaucOfOne(users: seq<string>, metric: string -> UserMetric, user: string, share: real)
    requires Distinct(users) && user in users
    requires forall other :: Through(metric, Weight())(other) == if other == user then 1.0 else 0.0
    requires forall other :: Through(metric, WeightedAuc())(other) == if other == user then share else 0.0
    ensures GaucOf(Map(users, metric)) == share
  {
    hide Sum;
    SumMap(users, metric, Weight(), Through(metric, Weight()));
    SumMap(users, metric, WeightedAuc(), Through(metric, WeightedAuc()));
    SumIndicator(users, user, 1.0, Through(metric, Weight()));
    SumIndicator(users, user, share, Through(metric, WeightedAuc()));
  }

  /** A user without positives carries no weight; one with a single positive carries one. */
  lemma {:induction false} FewPositives(user: string, items: seq<Item>, k: nat, d: Discounts)
    ensures var m := UserMetricOf(user, items, k, d);
      && (LabelSum(Labels(items)) == 0 ==> Weight()(m) == 0.0 == WeightedAuc()(m))
      && (LabelSum(Labels(items)) == 1 && |items| >= 2 ==>
          Weight()(m) == 1.0 && WeightedAuc()(m) == Wins(items) / (|items| - 1) as real)
  {
    hide LabelSum;
    hide Wins;
    hide Ndcg;
  }

  lemma {:induction false} OneHotUser(shifts: seq<Shift>, i: nat, user: string, k: nat, d: Discounts)
    requires i < |shifts| && |GroupOf(shifts, shifts[i].user)| >= 2
    ensures var metric := MetricFor(CandidateRows(shifts, OneHot(|shifts|, i)), k, d);
      && Through(metric, Weight())(user) == (if user == shifts[i].user then 1.0 else 0.0)
      && Through(metric, WeightedAuc())(user) == (if user == shifts[i].user then RankShare(shifts, i) else 0.0)
  {
    hide Sum;
    hide MidRank;
    hide RowsOf;
    hide GroupOf;
    hide LabelSum;
    hide Wins;
    hide UserMetricOf;
    var labels := OneHot(|shifts|, i);
    var group := DuosOf(ZipDuos(shifts, labels), user);
    SameGroups(shifts, labels, user);
    OneHotPositives(shifts, i, user);
    FewPositives(user, Map(group, CandidateItem()), k, d);
    if user == shifts[i].user {
      OneHotDuos(shifts, i, PositiveDuo());
      OneHotWins(group, Duo(shifts[i], 1));
    }
  }

  // ----- The parent is a candidate with the scores exchanged -----

  function Swap(): Shift -> Shift { (s: Shift) => Shift(s.user, s.parent, s.candidate) }

  lemma {:induction false} Swapped(shifts: seq<Shift>, labels: seq<int>, user: string)
    requires |shifts| == |labels|
    ensures ParentRows(shifts, labels) == CandidateRows(Map(shifts, Swap()), labels)
    ensures GroupOf(Map(shifts, Swap()), user) == Map(GroupOf(shifts, user), Swap())
  {
    FilterMap(shifts, Swap(), KeyIs(ShiftUser(), user), KeyIs(ShiftUser(), user));
  }

  // ----- Equal for all labels, equal in order -----

  ghost predicate GaucBlind(shifts: seq<Shift>, k: nat, d: Discounts) {
    forall labels: seq<int> | |labels| == |shifts| && Binary(labels) ::
      Evaluate(CandidateRows(shifts, labels), k, d).gauc == Evaluate(ParentRows(shifts, labels), k, d).gauc
  }

  function ParentScore(): Shift -> real { (s: Shift) => s.parent }

  lemma {:induction false} SameRankOf(shifts: seq<Shift>, a: Shift, k: nat, d: Discounts)
    requires a in shifts && |GroupOf(shifts, a.user)| >= 2 && GaucBlind(shifts, k, d)
    ensures var group := GroupOf(shifts, a.user);
      MidRank(Map(group, CandidateScore()), a.candidate) == MidRank(Map(group, ParentScore()), a.parent)
  {
    hide MidRank;
    hide Evaluate;
    hide GroupOf;
    hide RankShare;
    var i :| 0 <= i < |shifts| && shifts[i] == a;
    var labels, swapped := OneHot(|shifts|, i), Map(shifts, Swap());
    Swapped(shifts, labels, a.user);
    OneHotGauc(shifts, i, k, d);
    OneHotGauc(swapped, i, k, d);
    SharesRank(shifts, i);
  }

  lemma {:induction false} SharesRank(shifts: seq<Shift>, i: nat)
    requires i < |shifts| && |GroupOf(shifts, shifts[i].user)| >= 2
    ensures var group := GroupOf(shifts, shifts[i].user);
      && |GroupOf(Map(shifts, Swap()), shifts[i].user)| == |group|
      && (RankShare(shifts, i) == RankShare(Map(shifts, Swap()), i) <==>
          MidRank(Map(group, CandidateScore()), shifts[i].candidate)
          == MidRank(Map(group, ParentScore()), shifts[i].parent))
  {
    hide MidRank;
    hide GroupOf;
    var group := GroupOf(shifts, shifts[i].user);
    Swapped(shifts, OneHot(|shifts|, i), shifts[i].user);
    MapMap(group, Swap(), CandidateScore(), ParentScore());
    var x := MidRank(Map(group, CandidateScore()), shifts[i].candidate);
    var y := MidRank(Map(group, ParentScore()), shifts[i].parent);
    DivisionOrder(x - 1.0, y - 1.0, (|group| - 1) as real);
  }

  lemma {:induction false} SameOrderOf(shifts: seq<Shift>, a: Shift, b: Shift, k: nat, d: Discounts)
    requires a in shifts && b in shifts && a.user == b.user && GaucBlind(shifts, k, d)
    ensures ParentOrder(a, b, 0.0) == CandidateOrder(a, b, 0.0)
  {
    hide MidRank;
    hide GaucBlind;
    var group := GroupOf(shifts, a.user);
    assert a in group && b in group;
    if |group| >= 2 {
      SameRankOf(shifts, a, k, d);
      SameRankOf(shifts, b, k, d);
      ScoresListed(group, a);
      ScoresListed(group, b);
      MidRankOrder(Map(group, CandidateScore()), a.candidate, b.candidate);
      MidRankOrder(Map(group, ParentScore()), a.parent, b.parent);
    }
  }

  lemma {:induction false} ScoresListed(group: seq<Shift>, a: Shift)
    requires a in group
    ensures a.candidate in Map(group, CandidateScore()) && a.parent in Map(group, ParentScore())
  {
    var i :| 0 <= i < |group| && group[i] == a;
    assert Map(group, CandidateScore())[i] == a.candidate && Map(group, ParentScore())[i] == a.parent;
  }

  /** The measure at tolerance 0 is zero or `None` exactly when GAUC cannot tell the two models
      apart under any labels; and then no metric can. */
  lemma {:induction false} OnlyReorderingMatters(shifts: seq<Shift>, k: nat, d: Discounts)
    ensures ChangedPairs(shifts, 0.0) == 0.0 <==> GaucBlind(shifts, k, d)
    ensures GaucBlind(shifts, k, d) <==> forall labels: seq<int> | |labels| == |shifts| && Binary(labels) ::
      Evaluate(CandidateRows(shifts, labels), k, d) == Evaluate(ParentRows(shifts, labels), k, d)
  {
    hide Evaluate;
    hide ChangedPairs;
    NoChangeIsSameOrder(shifts, 0.0);
    if GaucBlind(shifts, k, d) {
      forall a, b | a in shifts && b in shifts && a.user == b.user
        ensures ParentOrder(a, b, 0.0) == CandidateOrder(a, b, 0.0)
      {
        SameOrderOf(shifts, a, b, k, d);
      }
    }
    if ChangedPairs(shifts, 0.0) == 0.0 {
      forall labels: seq<int> | |labels| == |shifts| && Binary(labels)
        ensures Evaluate(CandidateRows(shifts, labels), k, d) == Evaluate(ParentRows(shifts, labels), k, d)
      {
        NoReorderingNoMovement(shifts, labels, k, d);
      }
    }
  }

  /** Any rescaling that keeps each user's order, such as a per-user shift or a strictly increasing
      map, leaves every metric unchanged. */
  lemma {:induction false} RescalingIsInvisible(shifts: seq<Shift>, labels: seq<int>, k: nat, d: Discounts)
    requires |shifts| == |labels| && Binary(labels)
    requires forall a, b | a in shifts && b in shifts && a.user == b.user ::
      a.parent < b.parent <==> a.candidate < b.candidate
    ensures Evaluate(CandidateRows(shifts, labels), k, d) == Evaluate(ParentRows(shifts, labels), k, d)
  {
    hide Evaluate;
    hide ChangedPairs;
    forall a, b | a in shifts && b in shifts && a.user == b.user
      ensures ParentOrder(a, b, 0.0) == CandidateOrder(a, b, 0.0)
    {
      assert b.parent < a.parent <==> b.candidate < a.candidate;
    }
    NoChangeIsSameOrder(shifts, 0.0);
    NoReorderingNoMovement(shifts, labels, k, d);
  }

  /** A term that is constant inside a user's list, however large, cannot move any metric. */
  lemma {:induction false} UserConstantIsInvisible(shifts: seq<Shift>, term: string -> real, labels: seq<int>, k: nat,
                                                    d: Discounts)
    requires |shifts| == |labels| && Binary(labels)
    requires forall s | s in shifts :: s.candidate == s.parent + term(s.user)
    ensures Evaluate(CandidateRows(shifts, labels), k, d) == Evaluate(ParentRows(shifts, labels), k, d)
  {
    RescalingIsInvisible(shifts, labels, k, d);
  }

  // ----- The default tolerance is not 0 -----

  /** Two rows both models regard as tied, within the tolerance. */
  ghost predicate Tied(a: Shift, b: Shift, tolerance: real) {
    ParentOrder(a, b, tolerance) == 0 == CandidateOrder(a, b, tolerance)
  }

  ghost predicate TiesAgree(shifts: seq<Shift>, tolerance: real) {
    forall a, b | a in shifts && b in shifts && a.user == b.user && Tied(a, b, tolerance) ::
      ParentOrder(a, b, 0.0) == CandidateOrder(a, b, 0.0)
  }

  /** With a positive tolerance a zero measure proves no movement exactly when the pairs it
      regarded as tied are themselves in the same order. */
  lemma {:induction false} ToleranceCondition(shifts: seq<Shift>, tolerance: real, k: nat, d: Discounts)
    requires tolerance >= 0.0 && ChangedPairs(shifts, tolerance) == 0.0
    ensures GaucBlind(shifts, k, d) <==> TiesAgree(shifts, tolerance)
  {
    hide GaucBlind;
    hide ChangedPairs;
    hide Evaluate;
    hide SameOrder;
    hide TiesAgree;
    OnlyReorderingMatters(shifts, k, d);
    NoChangeIsSameOrder(shifts, 0.0);
    NoChangeIsSameOrder(shifts, tolerance);
    SameOrderAtTolerance(shifts, tolerance);
  }

  lemma {:induction false} SameOrderAtTolerance(shifts: seq<Shift>, tolerance: real)
    requires tolerance >= 0.0 && SameOrder(shifts, tolerance)
    ensures SameOrder(shifts, 0.0) <==> TiesAgree(shifts, tolerance)
  {
    if TiesAgree(shifts, tolerance) {
      forall a, b | a in shifts && b in shifts && a.user == b.user
        ensures ParentOrder(a, b, 0.0) == CandidateOrder(a, b, 0.0)
      {
        assert ParentOrder(a, b, tolerance) == CandidateOrder(a, b, tolerance);
      }
    }
  }

  /** At any positive tolerance some reordering goes uncounted: two rows half a tolerance apart,
      exchanged, are no change to the measure and a change to GAUC. */
  lemma {:induction false} ToleranceHidesReordering(tolerance: real, k: nat, d: Discounts)
    requires tolerance > 0.0
    ensures var shifts := [Shift("u", tolerance / 2.0, 0.0), Shift("u", 0.0, tolerance / 2.0)];
      ChangedPairs(shifts, tolerance) == 0.0 && !GaucBlind(shifts, k, d)
  {
    hide GaucBlind;
    hide ChangedPairs;
    var a, b := Shift("u", tolerance / 2.0, 0.0), Shift("u", 0.0, tolerance / 2.0);
    var shifts := [a, b];
    assert SameOrder(shifts, tolerance);
    assert a in shifts && b in shifts && ParentOrder(a, b, 0.0) != CandidateOrder(a, b, 0.0);
    NoChangeIsSameOrder(shifts, tolerance);
    NoChangeIsSameOrder(shifts, 0.0);
    OnlyReorderingMatters(shifts, k, d);
  }
}
