/** no_op.py: the fraction of within-user pairs a candidate reorders, and the claim that it is
    the only thing the metrics respond to. */
module RankChange {
  import opened Reals
  import opened Results
  import opened Sums
  import opened Counting
  import opened Evaluation

  /** One row as both models score it. */
  datatype Shift = Shift(user: string, candidate: real, parent: real)

  function ShiftUser(): Shift -> string { (s: Shift) => s.user }

  function ZipShifts(candidate: seq<real>, parent: seq<real>, userIds: seq<string>): (r: seq<Shift>)
    requires |candidate| == |parent| == |userIds|
    ensures |r| == |userIds| && forall i | 0 <= i < |r| :: r[i] == Shift(userIds[i], candidate[i], parent[i])
  {
    seq(|userIds|, i requires 0 <= i < |userIds| => Shift(userIds[i], candidate[i], parent[i]))
  }

  /** `_sign`. */
  function Sign(value: real, tolerance: real): int {
    if value > tolerance then 1 else if value < -tolerance then -1 else 0
  }

  function ParentOrder(a: Shift, b: Shift, tolerance: real): int { Sign(a.parent - b.parent, tolerance) }

  function CandidateOrder(a: Shift, b: Shift, tolerance: real): int { Sign(a.candidate - b.candidate, tolerance) }

  /** 1 for a pair the two models order differently. */
  function Changed(tolerance: real): (Shift, Shift) -> real {
    (a: Shift, b: Shift) => if ParentOrder(a, b, tolerance) != CandidateOrder(a, b, tolerance) then 1.0 else 0.0
  }

  /** 1 for a pair at least one model has a preference on. */
  function Compared(tolerance: real): (Shift, Shift) -> real {
    (a: Shift, b: Shift) =>
      if ParentOrder(a, b, tolerance) == 0 && CandidateOrder(a, b, tolerance) == 0 then 0.0 else 1.0
  }

  function GroupOf(shifts: seq<Shift>, user: string): seq<Shift> { Filter(shifts, KeyIs(ShiftUser(), user)) }

  function ShiftUsers(shifts: seq<Shift>): seq<string> { FirstSeen(Map(shifts, ShiftUser())) }

  function InGroup(shifts: seq<Shift>, f: (Shift, Shift) -> real): string -> real {
    (user: string) => Triangle(GroupOf(shifts, user), f)
  }

  /** `f` summed over unordered pairs of rows of the same user. */
  function WithinUsers(shifts: seq<Shift>, f: (Shift, Shift) -> real): real {
    Sum(ShiftUsers(shifts), InGroup(shifts, f))
  }

  function ChangedPairs(shifts: seq<Shift>, tolerance: real): real { WithinUsers(shifts, Changed(tolerance)) }

  function ComparedPairs(shifts: seq<Shift>, tolerance: real): real { WithinUsers(shifts, Compared(tolerance)) }

  // ----- What is counted -----

  /** The pairs of rows of one user that some model puts more than the tolerance apart. */
  ghost function ComparedPlaces(scores: seq<real>, parentScores: seq<real>, userIds: seq<string>,
                                tolerance: real): set<(int, int)>
    requires |scores| == |parentScores| == |userIds|
  {
    set i, j | 0 <= i < j < |userIds| && userIds[i] == userIds[j]
               && (Abs(parentScores[i] - parentScores[j]) > tolerance || Abs(scores[i] - scores[j]) > tolerance) ::
      (i, j)
  }

  /** Above the tolerance, below its negative, or neither. */
  ghost predicate SameSide(gap: real, other: real, tolerance: real) {
    || (gap > tolerance && other > tolerance)
    || (gap <= tolerance && other <= tolerance && (gap < -tolerance <==> other < -tolerance))
  }

  /** The pairs of rows of one user whose gaps in the two models fall on different sides. */
  ghost function ChangedPlaces(scores: seq<real>, parentScores: seq<real>, userIds: seq<string>,
                               tolerance: real): set<(int, int)>
    requires |scores| == |parentScores| == |userIds|
  {
    set i, j | 0 <= i < j < |userIds| && userIds[i] == userIds[j]
               && !SameSide(parentScores[i] - parentScores[j], scores[i] - scores[j], tolerance) ::
      (i, j)
  }

  function IsCompared(tolerance: real): (Shift, Shift) -> bool {
    (a: Shift, b: Shift) => a.user == b.user && Compared(tolerance)(a, b) == 1.0
  }

  function IsChanged(tolerance: real): (Shift, Shift) -> bool {
    (a: Shift, b: Shift) => a.user == b.user && Changed(tolerance)(a, b) == 1.0
  }

  lemma {:induction false} ComparedIff(a: Shift, b: Shift, tolerance: real)
    ensures Compared(tolerance)(a, b) == 0.0 || Compared(tolerance)(a, b) == 1.0
    ensures IsCompared(tolerance)(a, b) <==>
      a.user == b.user && (Abs(a.parent - b.parent) > tolerance || Abs(a.candidate - b.candidate) > tolerance)
  {
  }

  lemma {:induction false} ChangedIff(a: Shift, b: Shift, tolerance: real)
    ensures Changed(tolerance)(a, b) == 0.0 || Changed(tolerance)(a, b) == 1.0
    ensures IsChanged(tolerance)(a, b) <==>
      a.user == b.user && !SameSide(a.parent - b.parent, a.candidate - b.candidate, tolerance)
  {
  }

  lemma {:induction false} WithinIsCouples(shifts: seq<Shift>, f: (Shift, Shift) -> real, p: (Shift, Shift) -> bool)
    requires forall a, b :: (f(a, b) == 0.0 || f(a, b) == 1.0) && (p(a, b) <==> a.user == b.user && f(a, b) == 1.0)
    ensures WithinUsers(shifts, f) == |Couples(shifts, p)| as real
  {
    hide Sum;
    hide Triangle;
    forall s | s in shifts ensures s.user in ShiftUsers(shifts) { ShiftUserListed(shifts, s); }
    UsersDistinct(shifts);
    GroupedPairs(shifts, ShiftUser(), ShiftUsers(shifts), f);
    assert Sum(ShiftUsers(shifts), InGroup(shifts, f)) == Sum(ShiftUsers(shifts), OfGroup(shifts, ShiftUser(), f)) by {
      SumExt(ShiftUsers(shifts), InGroup(shifts, f), OfGroup(shifts, ShiftUser(), f));
    }
    TriangleCounts(shifts, p, SameKey(ShiftUser(), f));
  }

  /** The two totals are numbers of index pairs. */
  lemma {:induction false} TotalsAreCounts(scores: seq<real>, parentScores: seq<real>, userIds: seq<string>,
                                           tolerance: real)
    requires |scores| == |parentScores| == |userIds|
    ensures var shifts := ZipShifts(scores, parentScores, userIds);
      && ComparedPairs(shifts, tolerance) == |ComparedPlaces(scores, parentScores, userIds, tolerance)| as real
      && ChangedPairs(shifts, tolerance) == |ChangedPlaces(scores, parentScores, userIds, tolerance)| as real
  {
    hide SameSide;
    hide Compared;
    hide Changed;
    hide WithinUsers;
    var shifts := ZipShifts(scores, parentScores, userIds);
    forall a, b
      ensures Compared(tolerance)(a, b) == 0.0 || Compared(tolerance)(a, b) == 1.0
      ensures Changed(tolerance)(a, b) == 0.0 || Changed(tolerance)(a, b) == 1.0
    {
      ComparedIff(a, b, tolerance);
      ChangedIff(a, b, tolerance);
    }
    WithinIsCouples(shifts, Compared(tolerance), IsCompared(tolerance));
    WithinIsCouples(shifts, Changed(tolerance), IsChanged(tolerance));
    CouplesArePlaces(scores, parentScores, userIds, tolerance);
  }

  lemma {:induction false} CouplesArePlaces(scores: seq<real>, parentScores: seq<real>, userIds: seq<string>,
                                            tolerance: real)
    requires |scores| == |parentScores| == |userIds|
    ensures var shifts := ZipShifts(scores, parentScores, userIds);
      && Couples(shifts, IsCompared(tolerance)) == ComparedPlaces(scores, parentScores, userIds, tolerance)
      && Couples(shifts, IsChanged(tolerance)) == ChangedPlaces(scores, parentScores, userIds, tolerance)
  {
    hide SameSide;
    hide IsCompared;
    hide IsChanged;
    hide Abs;
    var shifts := ZipShifts(scores, parentScores, userIds);
    forall a, b
      ensures IsCompared(tolerance)(a, b) <==>
        a.user == b.user && (Abs(a.parent - b.parent) > tolerance || Abs(a.candidate - b.candidate) > tolerance)
      ensures IsChanged(tolerance)(a, b) <==>
        a.user == b.user && !SameSide(a.parent - b.parent, a.candidate - b.candidate, tolerance)
    {
      ComparedIff(a, b, tolerance);
      ChangedIff(a, b, tolerance);
    }
  }

  // ----- The loops -----

  /** `places` lists, in order, where the first `upto` rows belong to `user`. */
  ghost predicate Locates(shifts: seq<Shift>, upto: nat, user: string, places: seq<nat>) {
    && upto <= |shifts|
    && (forall j | 0 <= j < |places| :: places[j] < upto)
    && Gather(shifts, places) == GroupOf(shifts[..upto], user)
  }

  lemma {:induction false} LocatesStep(shifts: seq<Shift>, index: nat, user: string, places: seq<nat>)
    requires index < |shifts| && Locates(shifts, index, user, places)
    ensures Locates(shifts, index + 1, user, if shifts[index].user == user then places + [index] else places)
  {
    hide GroupOf;
    GroupOfStep(shifts[..index], shifts[index], user);
    assert shifts[..index + 1] == shifts[..index] + [shifts[index]];
    if shifts[index].user == user {
      assert Gather(shifts, places + [index]) == Gather(shifts, places) + [shifts[index]];
    }
  }

  ghost predicate Indexed(shifts: seq<Shift>, upto: nat, order: seq<string>, groups: map<string, seq<nat>>) {
    && upto <= |shifts| && order == ShiftUsers(shifts[..upto])
    && (forall user :: user in groups <==> user in order)
    && (forall user | user in order :: Locates(shifts, upto, user, groups[user]))
  }

  /** `groups.setdefault(user, []).append(index)` over all rows. */
  method GroupIndices(shifts: seq<Shift>) returns (order: seq<string>, groups: map<string, seq<nat>>)
    ensures Indexed(shifts, |shifts|, order, groups)
  {
    hide Indexed;
    order, groups := [], map[];
    NothingIndexed(shifts);
    for index := 0 to |shifts|
      invariant Indexed(shifts, index, order, groups)
    {
      var user := shifts[index].user;
      IndexedStep(shifts, index, order, groups);
      if user !in groups {
        order, groups := order + [user], groups[user := []];
      }
      groups := groups[user := groups[user] + [index]];
    }
  }

  lemma {:induction false} NothingIndexed(shifts: seq<Shift>)
    ensures Indexed(shifts, 0, [], map[])
  {
  }

  lemma {:induction false} IndexedStep(shifts: seq<Shift>, index: nat, order: seq<string>, groups: map<string,
                                        seq<nat>>)
    requires index < |shifts| && Indexed(shifts, index, order, groups)
    ensures var user := shifts[index].user;
      var own := if user in groups then groups[user] else [];
      var ready := if user in groups then groups else groups[user := []];
      Indexed(shifts, index + 1, if user in groups then order else order + [user], ready[user := own + [index]])
  {
    hide GroupOf;
    hide ShiftUsers;
    hide Locates;
    var user := shifts[index].user;
    UsersStep(shifts[..index], shifts[index]);
    assert shifts[..index + 1] == shifts[..index] + [shifts[index]];
    if user !in groups { NowhereYet(shifts, index, user); }
    LocatesStep(shifts, index, user, if user in groups then groups[user] else []);
    forall other | other in order && other != user ensures Locates(shifts, index + 1, other, groups[other]) {
      LocatesStep(shifts, index, other, groups[other]);
    }
  }

  lemma {:induction false} NowhereYet(shifts: seq<Shift>, index: nat, user: string)
    requires index <= |shifts| && GroupOf(shifts[..index], user) == []
    ensures Locates(shifts, index, user, [])
  {
    hide GroupOf;
  }

  lemma {:induction false} GroupOfStep(shifts: seq<Shift>, s: Shift, user: string)
    ensures GroupOf(shifts + [s], user) == GroupOf(shifts, user) + if user == s.user then [s] else []
  {
    FilterAppend(shifts, [s], KeyIs(ShiftUser(), user));
  }

  lemma {:induction false} UsersStep(shifts: seq<Shift>, s: Shift)
    ensures var users := ShiftUsers(shifts);
      ShiftUsers(shifts + [s]) == if s.user in users then users else users + [s.user]
    ensures s.user !in ShiftUsers(shifts) ==> GroupOf(shifts, s.user) == []
  {
    hide FirstSeen;
    var users := Map(shifts, ShiftUser());
    assert Map(shifts + [s], ShiftUser()) == users + [s.user];
    FirstSeenAppend(users, s.user);
    if s.user !in ShiftUsers(shifts) {
      forall x | x in shifts ensures !KeyIs(ShiftUser(), s.user)(x) { ShiftUserListed(shifts, x); }
      FilterNone(shifts, KeyIs(ShiftUser(), s.user));
    }
  }

  lemma {:induction false} UsersDistinct(shifts: seq<Shift>)
    ensures Distinct(ShiftUsers(shifts))
  {
  }

  lemma {:induction false} ShiftUserListed(shifts: seq<Shift>, s: Shift)
    requires s in shifts
    ensures s.user in ShiftUsers(shifts)
  {
    var i :| 0 <= i < |shifts| && shifts[i] == s;
    assert Map(shifts, ShiftUser())[i] == s.user;
  }

  /** The two inner loops: all pairs of one group. */
  method CountGroup(group: seq<Shift>, tolerance: real) returns (changed: nat, total: nat)
    ensures changed as real == Triangle(group, Changed(tolerance))
    ensures total as real == Triangle(group, Compared(tolerance))
  {
    changed, total := 0, 0;
    for position := 0 to |group|
      invariant changed as real + Triangle(group[position..], Changed(tolerance)) == Triangle(group, Changed(tolerance))
      invariant total as real + Triangle(group[position..], Compared(tolerance)) == Triangle(group, Compared(tolerance))
    {
      var left := group[position];
      assert group[position..][1..] == group[position + 1..];
      for other := position + 1 to |group|
        invariant changed as real + Sum(group[other..], From(Changed(tolerance), left))
          + Triangle(group[position + 1..], Changed(tolerance)) == Triangle(group, Changed(tolerance))
        invariant total as real + Sum(group[other..], From(Compared(tolerance), left))
          + Triangle(group[position + 1..], Compared(tolerance)) == Triangle(group, Compared(tolerance))
      {
        assert group[other..][1..] == group[other + 1..];
        var parentOrder := Sign(left.parent - group[other].parent, tolerance);
        var candidateOrder := Sign(left.candidate - group[other].candidate, tolerance);
        if parentOrder == 0 && candidateOrder == 0 { continue; }
        total := total + 1;
        if parentOrder != candidateOrder { changed := changed + 1; }
      }
    }
  }

  /** `within_user_rank_change`. */
  method WithinUserRankChange(scores: seq<real>, parentScores: seq<real>, userIds: seq<string>, tolerance: real)
    returns (r: Result<Option<real>>)
    ensures !(|scores| == |parentScores| == |userIds|) ==> r == Err(Misaligned)
    ensures |scores| == |parentScores| == |userIds| ==>
      var shifts := ZipShifts(scores, parentScores, userIds);
      r == Ok(if ComparedPairs(shifts, tolerance) == 0.0 then None
              else Some(ChangedPairs(shifts, tolerance) / ComparedPairs(shifts, tolerance)))
    ensures |scores| == |parentScores| == |userIds| ==>
      var compared := |ComparedPlaces(scores, parentScores, userIds, tolerance)|;
      var changed := |ChangedPlaces(scores, parentScores, userIds, tolerance)|;
      r == Ok(if compared == 0 then None else Some(changed as real / compared as real))
  {
    if !(|scores| == |parentScores| == |userIds|) { return Err(Misaligned); }
    var shifts := ZipShifts(scores, parentScores, userIds);
    var changed, total := CountGroups(shifts, tolerance);
    TotalsAreCounts(scores, parentScores, userIds, tolerance);
    r := Ok(if total == 0 then None else Some(changed as real / total as real));
  }

  method CountGroups(shifts: seq<Shift>, tolerance: real) returns (changed: nat, total: nat)
    ensures changed as real == ChangedPairs(shifts, tolerance)
    ensures total as real == ComparedPairs(shifts, tolerance)
  {
    hide Sum;
    hide Triangle;
    hide ShiftUsers;
    var order, groups := GroupIndices(shifts);
    assert shifts[..|shifts|] == shifts;
    changed, total := 0, 0;
    PrefixSums(order, 0, InGroup(shifts, Changed(tolerance)));
    PrefixSums(order, 0, InGroup(shifts, Compared(tolerance)));
    for i := 0 to |order|
      invariant changed as real == Sum(order[..i], InGroup(shifts, Changed(tolerance)))
      invariant total as real == Sum(order[..i], InGroup(shifts, Compared(tolerance)))
    {
      var indices := groups[order[i]];
      PrefixSums(order, i + 1, InGroup(shifts, Changed(tolerance)));
      PrefixSums(order, i + 1, InGroup(shifts, Compared(tolerance)));
      if |indices| < 2 {
        ShortGroup(Gather(shifts, indices), Changed(tolerance));
        ShortGroup(Gather(shifts, indices), Compared(tolerance));
        continue;
      }
      var c, t := CountGroup(Gather(shifts, indices), tolerance);
      changed, total := changed + c, total + t;
    }
    assert order[..|order|] == order;
  }

  lemma {:induction false} ShortGroup(group: seq<Shift>, f: (Shift, Shift) -> real)
    requires |group| < 2
    ensures Triangle(group, f) == 0.0
  {
  }

  /** No pair is changed without being compared: zero or `None` means exactly that none changed. */
  lemma {:induction false} ZeroOrNone(shifts: seq<Shift>, tolerance: real)
    ensures 0.0 <= ChangedPairs(shifts, tolerance) <= ComparedPairs(shifts, tolerance)
    ensures ChangedPairs(shifts, tolerance) == 0.0 <==>
      ComparedPairs(shifts, tolerance) == 0.0
      || ChangedPairs(shifts, tolerance) / ComparedPairs(shifts, tolerance) == 0.0
  {
    hide Sum;
    hide Triangle;
    var changed, compared := InGroup(shifts, Changed(tolerance)), InGroup(shifts, Compared(tolerance));
    forall user | user in ShiftUsers(shifts) ensures 0.0 <= changed(user) <= compared(user) {
      TriangleZero(GroupOf(shifts, user), Changed(tolerance));
      TriangleMonotone(GroupOf(shifts, user), Changed(tolerance), Compared(tolerance));
    }
    SumNonNegative(ShiftUsers(shifts), changed);
    SumMonotone(ShiftUsers(shifts), changed, compared);
    if ComparedPairs(shifts, tolerance) != 0.0 {
      DivisionOrder(0.0, ChangedPairs(shifts, tolerance), ComparedPairs(shifts, tolerance));
    }
  }

  // ----- What no change means -----

  /** Both models put every two rows of a user in the same order, ties included. */
  ghost predicate SameOrder(shifts: seq<Shift>, tolerance: real) {
    forall a, b | a in shifts && b in shifts && a.user == b.user ::
      ParentOrder(a, b, tolerance) == CandidateOrder(a, b, tolerance)
  }

  lemma {:induction false} NoChangeIsSameOrder(shifts: seq<Shift>, tolerance: real)
    requires tolerance >= 0.0
    ensures ChangedPairs(shifts, tolerance) == 0.0 <==> SameOrder(shifts, tolerance)
  {
    hide Sum;
    hide Triangle;
    var users, changed := ShiftUsers(shifts), InGroup(shifts, Changed(tolerance));
    forall user
      ensures changed(user) >= 0.0 && (changed(user) == 0.0 <==> SameOrder(GroupOf(shifts, user), tolerance))
    {
      NoChangeInGroup(GroupOf(shifts, user), tolerance);
    }
    SumNonNegative(users, changed);
    if ChangedPairs(shifts, tolerance) == 0.0 {
      forall a, b | a in shifts && b in shifts && a.user == b.user
        ensures ParentOrder(a, b, tolerance) == CandidateOrder(a, b, tolerance)
      {
        ShiftUserListed(shifts, a);
        assert changed(a.user) == 0.0;
        assert a in GroupOf(shifts, a.user) && b in GroupOf(shifts, a.user);
      }
    }
    if SameOrder(shifts, tolerance) {
      forall user | user in users ensures changed(user) == 0.0 {
        assert SameOrder(GroupOf(shifts, user), tolerance);
      }
      SumConst(users, changed, 0.0);
    }
  }

  lemma {:induction false} NoChangeInGroup(group: seq<Shift>, tolerance: real)
    requires tolerance >= 0.0
    requires forall a, b | a in group && b in group :: a.user == b.user
    ensures Triangle(group, Changed(tolerance)) >= 0.0
    ensures Triangle(group, Changed(tolerance)) == 0.0 <==> SameOrder(group, tolerance)
  {
    TriangleZero(group, Changed(tolerance));
    if Triangle(group, Changed(tolerance)) == 0.0 {
      forall a, b | a in group && b in group && a.user == b.user
        ensures ParentOrder(a, b, tolerance) == CandidateOrder(a, b, tolerance)
      {
        var i :| 0 <= i < |group| && group[i] == a;
        var j :| 0 <= j < |group| && group[j] == b;
        if i < j {
          assert Changed(tolerance)(group[i], group[j]) == 0.0;
        } else if j < i {
          assert Changed(tolerance)(group[j], group[i]) == 0.0;
        }
      }
    }
  }
}
