/** What the limits handed out in the review loop add up to: how far past the deadline of the action a run
    can end, that it can end that far, and when it ends in time. */
module ReviewDeadline {
  import opened Results
  import opened Rounding
  import opened SolutionVerifier
  import opened ReviewLoop

  /** Only passes and provider calls take time. */
  ghost predicate NoIdle(r: Round) {
    r.lagBefore == 0.0 && r.lagAfter == 0.0 && r.lagVerify == 0.0 && NoLag(r.calls)
  }

  ghost predicate AllNoIdle(rounds: seq<Round>) { forall i | 0 <= i < |rounds| :: NoIdle(rounds[i]) }

  /** Every pass and every provider call returned within the limit passed to it. */
  ghost predicate KeptLimits(trace: Trace) {
    (trace.pass.Some? ==> trace.pass.value.duration <= trace.pass.value.limit as real) && AllPrompt(trace.calls)
  }

  ghost predicate AllKeptLimits(traces: seq<Trace>) { forall i | 0 <= i < |traces| :: KeptLimits(traces[i]) }

  // ----- One round -----

  /** No pass and no review begins at or after the deadline, and neither is given more than its share. */
  ghost predicate BegunInTime(config: Config, round: Round, wall: int, deadline: real, trace: Trace) {
    && (trace.pass.Some? ==> trace.pass.value.start < deadline && trace.pass.value.limit <= wall)
    && (trace.review.Some? ==>
          && trace.review.value.start < deadline + round.lagVerify
          && 1 <= trace.review.value.limit <= config.verifyTimeout)
  }

  lemma {:induction false} RoundBeginsInTime(config: Config, round: Round, wall: int, deadline: real, trace: Trace)
    requires Clocked(config, round, wall, deadline, trace) && config.verifyTimeout >= 1
    ensures BegunInTime(config, round, wall, deadline, trace)
  {
    hide Log;
    hide Finished;
  }

  /** A limit of at least one whole second can reach past the deadline, but by less than a second. */
  lemma {:induction false} LimitReach(start: real, deadline: real, most: int)
    requires start < deadline
    ensures start + Least(most, Whole(deadline - start)) as real < deadline + 1.0
  {
  }

  /** The limit of a pass or a review is what it may have at most, or the whole seconds left, or one second. */
  lemma {:induction false} LimitIs(start: real, deadline: real, most: int)
    requires start < deadline
    ensures var limit, left := Least(most, Whole(deadline - start)), deadline - start;
      && limit <= most
      && (limit < most ==> if left < 1.0 then limit == 1 else limit as real <= left < limit as real + 1.0)
      && (limit == most ==> most as real <= left || most <= 1)
  {
  }

  /** It fits in the time left exactly when a second is left. */
  lemma {:induction false} LimitFits(start: real, deadline: real, most: int)
    requires start < deadline && most >= 1
    ensures Least(most, Whole(deadline - start)) as real <= deadline - start <==> deadline - start >= 1.0
  {
  }

  /** A round in which nothing else takes time ends less than two seconds past the deadline: one that the
      review's limit may exceed it by, and one that a call's limit may exceed the review's. */
  lemma {:induction false} RoundEndsInTime(config: Config, round: Round, wall: int, deadline: real, trace: Trace)
    requires Clocked(config, round, wall, deadline, trace) && WellTimed(round) && config.verifyTimeout >= 1
    requires NoIdle(round) && KeptLimits(trace) && trace.begun < deadline + 2.0
    ensures trace.ended < deadline + 2.0
    ensures trace.review.Some? ==> trace.review.value.start < deadline
  {
    hide Finished;
    hide Log;
    hide Whole;
    if trace.pass.Some? {
      LimitReach(PassStart(round, trace.begun), deadline, wall);
    }
    if trace.review.Some? {
      var review := trace.review.value;
      LimitReach(review.start, deadline, config.verifyTimeout);
      RoundBeginsInTime(config, round, wall, deadline, trace);
      CallsWithinDeadline(review.start, review.limit, round.calls);
    }
  }

  lemma {:induction false} RoundNeverEndsEarly(config: Config, round: Round, wall: int, deadline: real, trace: Trace)
    requires Clocked(config, round, wall, deadline, trace) && WellTimed(round)
    ensures trace.begun <= trace.ended
  {
    hide Finished;
    hide Log;
    if trace.review.Some? {
      var review := trace.review.value;
      CallsWithinDeadline(review.start, review.limit, round.calls);
    }
  }

  // ----- The run -----

  /** Whatever the clocks do, no pass or review of a run begins at or after its deadline, and time moves
      forward. */
  lemma {:induction false} RunBeginsInTime(config: Config, rounds: seq<Round>, sha: Digest, first: Order, started: real,
                                           committed: bool, retained: bool, outcome: Outcome, run: Run, finished: real)
    requires Scripted(config, rounds)
    requires RunOf(config, rounds, sha, first, started, committed, retained, outcome, run, finished)
    ensures forall i | 0 <= i < |run.traces| ::
      BegunInTime(config, rounds[i], run.orders[i].wall, started + first.wall as real, run.traces[i])
    ensures finished >= started
  {
    hide Clocked;
    hide BegunInTime;
    hide WellTimed;
    var deadline := started + first.wall as real;
    forall i | 0 <= i < |run.traces|
      ensures BegunInTime(config, rounds[i], run.orders[i].wall, deadline, run.traces[i])
    {
      RoundBeginsInTime(config, rounds[i], run.orders[i].wall, deadline, run.traces[i]);
    }
    TracesForward(config, rounds, run.orders, run.traces, started, deadline, |run.traces|);
    assert run.traces[..|run.traces|] == run.traces;
  }

  lemma {:induction false} TracesForward(config: Config, rounds: seq<Round>, orders: seq<Order>, traces: seq<Trace>,
                                         started: real, deadline: real, n: nat)
    requires Scripted(config, rounds) && Traced(config, rounds, orders, traces, started, deadline) && n <= |traces|
    ensures EndTime(traces[..n], started) >= started
  {
    hide Clocked;
    hide WellTimed;
    if n > 0 {
      TracesForward(config, rounds, orders, traces, started, deadline, n - 1);
      RoundNeverEndsEarly(config, rounds[n - 1], orders[n - 1].wall, deadline, traces[n - 1]);
    }
  }

  lemma {:induction false} TracesEndInTime(config: Config, rounds: seq<Round>, orders: seq<Order>, traces: seq<Trace>,
                                           started: real, deadline: real, n: nat)
    requires Scripted(config, rounds) && Traced(config, rounds, orders, traces, started, deadline) && n <= |traces|
    requires AllNoIdle(rounds) && AllKeptLimits(traces) && started <= deadline
    ensures EndTime(traces[..n], started) < deadline + 2.0
  {
    hide Clocked;
    hide WellTimed;
    hide NoIdle;
    hide KeptLimits;
    if n > 0 {
      TracesEndInTime(config, rounds, orders, traces, started, deadline, n - 1);
      RoundEndsInTime(config, rounds[n - 1], orders[n - 1].wall, deadline, traces[n - 1]);
    }
  }

  /** If every pass and every call returns within its limit and nothing else takes time, a run ends less
      than two seconds past its deadline. */
  lemma {:induction false} RunEndsInTime(config: Config, rounds: seq<Round>, sha: Digest, first: Order, started: real,
                                         committed: bool, retained: bool, outcome: Outcome, run: Run, finished: real)
    requires Scripted(config, rounds)
    requires RunOf(config, rounds, sha, first, started, committed, retained, outcome, run, finished)
    requires AllNoIdle(rounds) && AllKeptLimits(run.traces) && first.wall >= 0
    ensures finished < started + first.wall as real + 2.0
  {
    hide Traced;
    TracesEndInTime(config, rounds, run.orders, run.traces, started, started + first.wall as real, |run.traces|);
    assert run.traces[..|run.traces|] == run.traces;
  }

  // ----- Runs that meet the deadline -----

  ghost predicate WholeRound(r: Round) { NoIdle(r) && IsWhole(r.passTime) && WholeCalls(r.calls) }

  ghost predicate AllWhole(rounds: seq<Round>) { forall i | 0 <= i < |rounds| :: WholeRound(rounds[i]) }

  lemma {:induction false} RoundMeetsDeadline(config: Config, round: Round, wall: int, deadline: real, trace: Trace)
    requires Clocked(config, round, wall, deadline, trace) && WellTimed(round) && config.verifyTimeout >= 1
    requires WholeRound(round) && KeptLimits(trace)
    requires trace.begun <= deadline && IsWhole(deadline - trace.begun)
    ensures trace.ended <= deadline && IsWhole(deadline - trace.ended)
  {
    hide Finished;
    hide Log;
    hide Whole;
    hide IsWhole;
    if trace.pass.Some? {
      var left := deadline - trace.begun;
      WholeLimit(left, wall);
      WholeDifference(left, round.passTime);
    }
    if trace.review.Some? {
      var review := trace.review.value;
      var left := deadline - review.start;
      WholeLimit(left, config.verifyTimeout);
      RoundBeginsInTime(config, round, wall, deadline, trace);
      WholeCallsInTime(review.start, review.limit, round.calls);
      WholeDifference(left, trace.ended - review.start);
    }
  }

  lemma {:induction false} WholeLimit(left: real, most: int)
    requires IsWhole(left) && left > 0.0
    ensures Least(most, Whole(left)) as real <= left
  {
  }

  lemma {:induction false} WholeDifference(x: real, y: real)
    requires IsWhole(x) && IsWhole(y)
    ensures IsWhole(x - y)
  {
    WholeGap(x.Floor, y);
  }

  lemma {:induction false} TracesMeetDeadline(config: Config, rounds: seq<Round>, orders: seq<Order>,
                                               traces: seq<Trace>,
                                              started: real, deadline: real, n: nat)
    requires Scripted(config, rounds) && Traced(config, rounds, orders, traces, started, deadline) && n <= |traces|
    requires AllWhole(rounds) && AllKeptLimits(traces) && started <= deadline && IsWhole(deadline - started)
    ensures EndTime(traces[..n], started) <= deadline && IsWhole(deadline - EndTime(traces[..n], started))
  {
    hide Clocked;
    hide WellTimed;
    hide WholeRound;
    hide KeptLimits;
    hide IsWhole;
    if n > 0 {
      TracesMeetDeadline(config, rounds, orders, traces, started, deadline, n - 1);
      RoundMeetsDeadline(config, rounds[n - 1], orders[n - 1].wall, deadline, traces[n - 1]);
    }
  }

  /** With passes and calls of whole seconds, a run that keeps its limits meets its deadline. */
  lemma {:induction false} WholeSecondsMeetDeadline(config: Config, rounds: seq<Round>, sha: Digest, first: Order,
                                                    started: real, committed: bool, retained: bool, outcome: Outcome,
                                                    run: Run, finished: real)
    requires Scripted(config, rounds)
    requires RunOf(config, rounds, sha, first, started, committed, retained, outcome, run, finished)
    requires AllWhole(rounds) && AllKeptLimits(run.traces) && first.wall >= 0
    ensures finished <= started + first.wall as real
  {
    hide Traced;
    WholeIsInteger(started + first.wall as real - started, first.wall);
    TracesMeetDeadline(config, rounds, run.orders, run.traces, started, started + first.wall as real, |run.traces|);
    assert run.traces[..|run.traces|] == run.traces;
  }

  // ----- Runs that do not -----

  const ONE_ATTEMPT: Config := Config(1, 1, 1, 1, None)

  const ONE_SECOND: Order := Order(Initial, 1, None, 1)

  /** A pass that leaves a little of its one second, and a review whose first call leaves as little of the
      second it is given, and whose second call uses up its own. */
  function LateRound(gap: real): Round {
    Round(0.0, PassDone(1, 0, 0), 1.0 - gap, Some(Patch("")), true, 0.0, 0.0,
          [Call(0.0, 1.0 - gap, SolutionVerifier.Raised(false)), Call(0.0, 1.0, SolutionVerifier.Raised(false))], true)
  }

  /** The times of that round follow from its script. */
  lemma {:induction false} LateTimes(gap: real, begun: real, trace: Trace)
    requires 0.0 < gap < 1.0 && trace.begun == begun && trace.review.Some?
    requires Clocked(ONE_ATTEMPT, LateRound(gap), 1, begun + 1.0, trace)
    ensures KeptLimits(trace)
    ensures trace.ended == begun + 3.0 - 2.0 * gap
  {
  }

  /** Any run of that script gets as far as the review. */
  lemma {:induction false} LateReview(gap: real, sha: Digest, started: real, committed: bool, retained: bool,
                                      outcome: Outcome, run: Run, finished: real)
    requires 0.0 < gap < 1.0
    requires RunOf(ONE_ATTEMPT, [LateRound(gap)], sha, ONE_SECOND, started, committed, retained, outcome, run, finished)
    ensures |run.traces| == 1 && run.traces[0].review.Some? && run.traces[0].begun == started
    ensures Clocked(ONE_ATTEMPT, LateRound(gap), 1, started + 1.0, run.traces[0])
  {
  }

  /** The bound of two seconds is tight: for every shortfall there is a run of one attempt in which nothing
      else takes time, every limit is kept, and that ends later than two seconds less the shortfall past
      its deadline. */
  method LateRun(shortfall: real, sha: Digest, started: real) returns (rounds: seq<Round>, outcome: Outcome, run: Run,
                 finished: real)
    requires 0.0 < shortfall < 2.0
    ensures Scripted(ONE_ATTEMPT, rounds) && AllNoIdle(rounds) && AllKeptLimits(run.traces)
    ensures RunOf(ONE_ATTEMPT, rounds, sha, ONE_SECOND, started, true, true, outcome, run, finished)
    ensures finished > started + ONE_SECOND.wall as real + 2.0 - shortfall
  {
    var gap := shortfall / 4.0;
    rounds := [LateRound(gap)];
    outcome, run, finished := ProduceCandidate(ONE_ATTEMPT, rounds, sha, ONE_SECOND, started, true, true);
    LateReview(gap, sha, started, true, true, outcome, run, finished);
    LateTimes(gap, started, run.traces[0]);
  }
}
