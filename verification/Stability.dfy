/** stability.py: the Ladder release gate, one submission at a time and over whole runs. */
module Stability {
  import opened Reals
  import opened Results
  import opened Rounding
  import opened Sums
  import opened Counting
  import opened Ranks

  /** Seed scores with their standard error, whose square root is taken outside the model. */
  datatype Submission = Submission(scores: seq<real>, standardError: real)

  /** What `stdev / sqrt(n)` promises. */
  ghost predicate IsStandardError(s: Submission) {
    && s.standardError >= 0.0
    && (|s.scores| == 1 ==> s.standardError == 0.0)
    && (|s.scores| > 1 ==>
          s.standardError * s.standardError * (|s.scores| * (|s.scores| - 1)) as real == Scatter(s.scores))
  }

  function Larger(a: real, b: real): real { if b > a then b else a }

  /** `aggregate_seeds`: the significance threshold never falls below the floor. */
  function Eta(s: Submission, floor: real): real { Larger(2.0 * s.standardError, floor) }

  datatype Config = Config(precision: real, etaFloor: real, quantize: bool)

  datatype State = State(best: Option<real>, reported: Option<real>, queries: nat)

  const FRESH := State(None, None, 0)

  datatype Release = Release(accepted: bool, reported: real, mean: real, standardError: real, eta: real,
                             delta: Option<real>, queryIndex: nat)

  function Report(c: Config, mean: real): real
    requires c.precision > 0.0
  {
    if c.quantize then RoundHalfEven(mean / c.precision) as real * c.precision else mean
  }

  ghost predicate Consistent(c: Config, s: State) {
    && c.precision > 0.0
    && (s.best.Some? <==> s.reported.Some?)
    && (s.best.Some? ==> s.reported.value == Report(c, s.best.value))
  }

  /** Does the gate open? The first submission always passes. */
  predicate Accepts(c: Config, s: State, sub: Submission)
    requires sub.scores != []
  {
    s.best.None? || Mean(sub.scores) > s.best.value + Eta(sub, c.etaFloor)
  }

  function Submitted(c: Config, s: State, sub: Submission): State
    requires c.precision > 0.0
  {
    if sub.scores == [] then s
    else if Accepts(c, s, sub) then
      State(Some(Mean(sub.scores)), Some(Report(c, Mean(sub.scores))), s.queries + 1)
    else s.(queries := s.queries + 1)
  }

  class Ladder {
    const config: Config
    var bestTrue: Option<real>
    var bestReported: Option<real>
    var queries: nat

    ghost predicate Valid() reads this { Consistent(config, Current()) }

    function Current(): State reads this { State(bestTrue, bestReported, queries) }

    constructor (config: Config)
      requires config.precision > 0.0
      ensures Valid() && this.config == config && Current() == FRESH
    {
      this.config := config;
      bestTrue, bestReported, queries := None, None, 0;
    }

    /** `Ladder.__init__`, given `1 / sqrt(validation_rows)`. */
    static method Create(validationRows: int, precision: real, etaFloor: real, quantize: bool)
      returns (r: Result<Ladder>)
      requires validationRows > 0 ==> precision > 0.0 && precision * precision * validationRows as real == 1.0
      ensures r.Ok? <==> validationRows > 0
      ensures r.Err? ==> r.error == BadRows
      ensures r.Ok? ==> fresh(r.value) && r.value.Valid() && r.value.Current() == FRESH
      ensures r.Ok? ==> r.value.config == Config(precision, etaFloor, quantize)
    {
      if validationRows <= 0 { return Err(BadRows); }
      var ladder := new Ladder(Config(precision, etaFloor, quantize));
      r := Ok(ladder);
    }

    /** `Ladder.submit`: an empty submission is refused and leaves no trace. */
    method Submit(sub: Submission) returns (r: Result<Release>)
      requires Valid()
      modifies this
      ensures Valid() && Current() == Submitted(config, old(Current()), sub)
      ensures sub.scores == [] ==> r == Err(Empty)
      ensures sub.scores != [] ==>
        r == Ok(Release(Accepts(config, old(Current()), sub), Report(config, Current().best.value), Mean(sub.scores),
                        sub.standardError, Eta(sub, config.etaFloor),
                        if old(bestTrue).None? then None else Some(Mean(sub.scores) - old(bestTrue).value),
                        old(queries) + 1))
    {
      if |sub.scores| == 0 { return Err(Empty); }
      hide Mean;
      hide RoundHalfEven;
      var mean := Mean(sub.scores);
      var eta := if config.etaFloor > 2.0 * sub.standardError then config.etaFloor else 2.0 * sub.standardError;
      queries := queries + 1;
      var previous := bestTrue;
      var delta := if previous.None? then None else Some(mean - previous.value);
      var accepted := previous.None? || mean > previous.value + eta;
      if accepted {
        bestTrue := Some(mean);
        bestReported := Some(
          if config.quantize then RoundHalfEven(mean / config.precision) as real * config.precision else mean);
      }
      r := Ok(Release(accepted, bestReported.value, mean, sub.standardError, eta, delta, queries));
    }
  }

  // ----- Whole runs -----

  function Run(c: Config, subs: seq<Submission>): State
    requires c.precision > 0.0
  {
    if subs == [] then FRESH else Submitted(c, Run(c, subs[..|subs| - 1]), subs[|subs| - 1])
  }

  /** The submissions a run accepts. */
  function Accepted(c: Config, subs: seq<Submission>): seq<Submission>
    requires c.precision > 0.0
  {
    if subs == [] then [] else
      var init, last := subs[..|subs| - 1], subs[|subs| - 1];
      Accepted(c, init) + if last.scores != [] && Accepts(c, Run(c, init), last) then [last] else []
  }

  lemma {:induction false} RunStep(c: Config, subs: seq<Submission>, last: Submission)
    requires c.precision > 0.0
    ensures Run(c, subs + [last]) == Submitted(c, Run(c, subs), last)
    ensures Accepted(c, subs + [last]) ==
      Accepted(c, subs) + if last.scores != [] && Accepts(c, Run(c, subs), last) then [last] else []
  {
    assert (subs + [last])[..|subs|] == subs;
  }

  lemma {:induction false} RunConsistent(c: Config, subs: seq<Submission>)
    requires c.precision > 0.0
    ensures Consistent(c, Run(c, subs))
    ensures Run(c, subs).best.Some? <==> Accepted(c, subs) != []
  {
    if subs != [] { RunConsistent(c, subs[..|subs| - 1]); }
  }

  function IsScored(): Submission -> bool { (s: Submission) => s.scores != [] }

  ghost predicate Standing(c: Config, subs: seq<Submission>)
    requires c.precision > 0.0
  {
    var kept, state := Accepted(c, subs), Run(c, subs);
    && state.queries == |Where(subs, IsScored())|
    && (if kept == [] then state.best == None && Where(subs, IsScored()) == {}
        else kept[|kept| - 1].scores != [] && state.best == Some(Mean(kept[|kept| - 1].scores)))
  }

  /** Every submission with scores is counted, released or not; the best is the mean of the last one released,
      and the first with scores is. */
  lemma {:induction false} RunIs(c: Config, subs: seq<Submission>)
    requires c.precision > 0.0
    ensures Standing(c, subs)
  {
    if subs == [] {
      assert Where(subs, IsScored()) == {};
    } else {
      var init, last := subs[..|subs| - 1], subs[|subs| - 1];
      assert subs == init + [last];
      RunIs(c, init);
      RunIsStep(c, init, last);
    }
  }

  lemma {:induction false} RunIsStep(c: Config, init: seq<Submission>, last: Submission)
    requires c.precision > 0.0 && Standing(c, init)
    ensures Standing(c, init + [last])
  {
    hide Mean;
    hide Report;
    hide Where;
    hide Run;
    hide Accepted;
    hide Eta;
    RunStep(c, init, last);
    WhereStep(init, last, IsScored());
    assert Accepted(c, init) + [] == Accepted(c, init);
  }

  /** The true best never decreases from one point of a run to a later one, nor does the report. */
  lemma {:induction false} BestNeverDecreases(c: Config, subs: seq<Submission>, n: nat)
    requires c.precision > 0.0 && n <= |subs|
    requires forall s | s in subs :: IsStandardError(s)
    requires Run(c, subs[..n]).best.Some?
    ensures Run(c, subs).best.Some?
    ensures Run(c, subs[..n]).best.value <= Run(c, subs).best.value
    ensures Run(c, subs[..n]).reported.Some? && Run(c, subs).reported.Some?
    ensures Run(c, subs[..n]).reported.value <= Run(c, subs).reported.value
    decreases |subs|
  {
    RunConsistent(c, subs[..n]);
    RunConsistent(c, subs);
    if n < |subs| {
      var init, last := subs[..|subs| - 1], subs[|subs| - 1];
      assert init[..n] == subs[..n];
      assert last in subs;
      BestNeverDecreases(c, init, n);
    } else {
      assert subs[..n] == subs;
    }
    ReportMonotone(c, Run(c, subs[..n]).best.value, Run(c, subs).best.value);
  }

  lemma {:induction false} ReportMonotone(c: Config, x: real, y: real)
    requires c.precision > 0.0 && x <= y
    ensures Report(c, x) <= Report(c, y)
  {
    DivisionOrder(x, y, c.precision);
    RoundMonotone(x / c.precision, y / c.precision);
    MulMonotone(RoundHalfEven(x / c.precision) as real, RoundHalfEven(y / c.precision) as real, c.precision);
  }

  /** The report is the multiple of the precision nearest to the best, the even one of two. */
  ghost predicate IsReport(n: int, reported: real, best: real, precision: real)
    requires precision > 0.0
  {
    reported == n as real * precision && IsNearest(n, best / precision)
  }

  /** What is reported is within half a precision step of the truth, and is the truth unquantized. */
  lemma {:induction false} ReportError(c: Config, subs: seq<Submission>)
    requires c.precision > 0.0 && Run(c, subs).best.Some?
    ensures Run(c, subs).reported.Some?
    ensures var s := Run(c, subs);
      if c.quantize then Abs(s.reported.value - s.best.value) <= c.precision / 2.0 else s.reported == s.best
    ensures c.quantize ==> exists n: int ::
      IsReport(n, Run(c, subs).reported.value, Run(c, subs).best.value, c.precision)
  {
    RunConsistent(c, subs);
    var x, p := Run(c, subs).best.value, c.precision;
    RoundNearest(x / p, 0);
    ScaledGap(RoundHalfEven(x / p) as real, x, p);
    assert c.quantize ==> IsReport(RoundHalfEven(x / p), Run(c, subs).reported.value, x, p);
  }

  /** The gate after the first submission: the mean exceeds the best by more than the floor, and, with several
      seeds, the square of the excess exceeds four times their scatter over n (n - 1). */
  lemma {:induction false} AcceptsIff(c: Config, s: State, sub: Submission)
    requires sub.scores != [] && s.best.Some? && IsStandardError(sub)
    ensures var n, gap := |sub.scores|, Mean(sub.scores) - s.best.value;
      Accepts(c, s, sub) <==>
        (gap > c.etaFloor && gap > 0.0
         && (n > 1 ==> gap * gap * (n * (n - 1)) as real > 4.0 * Scatter(sub.scores)))
  {
    hide Mean;
    hide Scatter;
    var n, gap, se := |sub.scores|, Mean(sub.scores) - s.best.value, sub.standardError;
    if n > 1 && gap > 0.0 {
      var w := (n * (n - 1)) as real;
      ProductPositive(n as real, (n - 1) as real, w);
      SquareGap(gap, se, w);
    }
  }

  /** Comparing with twice a root is comparing squares. */
  lemma {:induction false} SquareGap(gap: real, se: real, w: real)
    requires gap > 0.0 && se >= 0.0 && w > 0.0
    ensures gap > 2.0 * se <==> gap * gap * w > 4.0 * (se * se * w)
  {
    var twice := 2.0 * se;
    assert twice * twice == 4.0 * (se * se);
    ProductOrder(twice * twice, gap * gap, w);
    assert twice * twice * w == 4.0 * (se * se * w);
    if gap > twice {
      SquareLess(gap, twice);
    } else if gap < twice {
      SquareLess(twice, gap);
    }
  }

  /** The mean times the number of scores is their sum. */
  lemma {:induction false} MeanTimesCount(scores: seq<real>)
    requires scores != []
    ensures Mean(scores) * |scores| as real == Sum(scores, Identity())
  {
    hide Sum;
    DivisionScale(Sum(scores, Identity()), |scores| as real);
  }

  /** Every past mean is at most the current best plus its own threshold: no real improvement was
      ever turned away. */
  lemma {:induction false} NothingBetterWasRefused(c: Config, subs: seq<Submission>, i: nat)
    requires c.precision > 0.0 && i < |subs| && subs[i].scores != []
    requires forall s | s in subs :: IsStandardError(s)
    ensures Run(c, subs).best.Some?
    ensures Mean(subs[i].scores) <= Run(c, subs).best.value + Eta(subs[i], c.etaFloor)
  {
    var before, after := Run(c, subs[..i]), Run(c, subs[..i + 1]);
    assert subs[..i + 1][..i] == subs[..i];
    assert subs[i] in subs;
    BestNeverDecreases(c, subs, i + 1);
  }

  /** The floors that `k` releases must have cleared: one for each after the first. */
  function Floors(k: nat, floor: real): real { if k <= 1 then 0.0 else Floors(k - 1, floor) + floor }

  lemma {:induction false} FloorsClosed(k: nat, floor: real, steps: real)
    requires k >= 1 && steps == (k - 1) as real
    ensures Floors(k, floor) == steps * floor
  {
    if k > 1 {
      FloorsClosed(k - 1, floor, steps - 1.0);
      Distribute(steps, 1.0, floor);
    } else {
      calc { steps * floor; == 0.0 * floor; == 0.0; }
    }
  }

  /** Each release after the first lifts the best by more than the floor. */
  lemma {:induction false} ReleasesLiftBest(c: Config, subs: seq<Submission>, lo: real)
    requires c.precision > 0.0 && Accepted(c, subs) != []
    requires forall s | s in subs && s.scores != [] :: lo <= Mean(s.scores)
    ensures Run(c, subs).best.Some?
    ensures Floors(|Accepted(c, subs)|, c.etaFloor) <= Run(c, subs).best.value - lo
  {
    hide Mean;
    var init, last := subs[..|subs| - 1], subs[|subs| - 1];
    RunConsistent(c, init);
    assert last in subs;
    if Accepted(c, init) != [] { ReleasesLiftBest(c, init, lo); }
  }

  /** With all means within [lo, hi], k releases need (k - 1) floors of room: the number of
      releases is bounded however many submissions are made. */
  lemma {:induction false} ReleaseBound(c: Config, subs: seq<Submission>, lo: real, hi: real)
    requires c.precision > 0.0 && Accepted(c, subs) != []
    requires forall s | s in subs && s.scores != [] :: lo <= Mean(s.scores) <= hi
    ensures (|Accepted(c, subs)| - 1) as real * c.etaFloor <= hi - lo
  {
    hide Mean;
    hide Floors;
    hide Run;
    hide Accepted;
    ReleasesLiftBest(c, subs, lo);
    BestWasSubmitted(c, subs, hi);
    FloorsClosed(|Accepted(c, subs)|, c.etaFloor, (|Accepted(c, subs)| - 1) as real);
  }

  lemma {:induction false} BestWasSubmitted(c: Config, subs: seq<Submission>, hi: real)
    requires c.precision > 0.0 && Run(c, subs).best.Some?
    requires forall s | s in subs && s.scores != [] :: Mean(s.scores) <= hi
    ensures Run(c, subs).best.value <= hi
  {
    if subs != [] {
      var init, last := subs[..|subs| - 1], subs[|subs| - 1];
      assert last in subs;
      if Run(c, init).best.Some? { BestWasSubmitted(c, init, hi); }
    }
  }

  /** Replaying only what was accepted accepts all of it and ends with the same best and report. */
  lemma {:induction false} ReplayAccepted(c: Config, subs: seq<Submission>)
    requires c.precision > 0.0
    ensures Accepted(c, Accepted(c, subs)) == Accepted(c, subs)
    ensures Run(c, Accepted(c, subs)).best == Run(c, subs).best
    ensures Run(c, Accepted(c, subs)).reported == Run(c, subs).reported
    ensures Run(c, Accepted(c, subs)).queries == |Accepted(c, subs)|
  {
    hide Mean;
    if subs != [] {
      var init, last := subs[..|subs| - 1], subs[|subs| - 1];
      ReplayAccepted(c, init);
      var kept := Accepted(c, init);
      assert subs == init + [last];
      assert kept + [] == kept;
      RunStep(c, init, last);
      if last.scores != [] && Accepts(c, Run(c, init), last) {
        RunStep(c, kept, last);
        assert Accepts(c, Run(c, kept), last);
        assert Accepted(c, subs) == kept + [last];
      }
    }
  }
}
