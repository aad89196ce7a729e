/** trae_adapter.py, `_produce_candidate_with_lease`: the bounded loop of coding pass, captured diff
    and review. Everything outside the loop's own control (the coding agent, Git, the reviewing model's
    transport, the clock) is an arbitrary script. */
module ReviewLoop {
  import opened Results
  import opened Sums
  import opened ReviewDocument
  import opened SolutionVerifier

  datatype Patch = Patch(diff: string)

  type Digest = string -> string

  datatype PassReply =
    | PassDone(steps: nat, inputTokens: nat, outputTokens: nat)
    | PassFailed(inputTokens: nat, outputTokens: nat)

  /** What the world does in one round of the loop, and how long it takes over it. */
  datatype Round = Round(lagBefore: real, pass: PassReply, passTime: real, captured: Option<Patch>,
                         snapshotTaken: bool, lagAfter: real, lagVerify: real, calls: seq<Call>, evidenceKept: bool)

  datatype Config = Config(maxAttempts: nat, verifyTimeout: int, revisionSteps: int, revisionWall: int,
                           repairTokens: Option<int>)

  /** What one coding pass is asked to do. */
  datatype Prompt = Initial | Revision(attempt: nat, maximum: nat, required: seq<string>)

  datatype Order = Order(prompt: Prompt, steps: int, tokens: Option<int>, wall: int)

  /** One entry of `reviews`. */
  datatype Recorded =
    Recorded(attempt: nat, sha: string, review: Review, providerCalls: nat, inputTokens: nat, outputTokens: nat)

  datatype Stop =
    | TraeTimeout | PassError | CaptureError | NoChange | SnapshotError | ReviewError(failure: Failure)
    | EvidenceError | ReviewRejected | CommitError

  /** Sealed: the committed patch and the totals reported with it. Stopped: why, and the same totals.
      Crashed: an exception of another kind, which carries no totals. */
  datatype Outcome =
    | Sealed(patch: Patch, sha: string, steps: nat, inputTokens: nat, outputTokens: nat)
    | Stopped(stop: Stop, inputTokens: nat, outputTokens: nat)
    | Crashed

  predicate Done(r: Round) { r.pass.PassDone? }

  function PassInput(rounds: seq<Round>): nat {
    if rounds == [] then 0 else PassInput(rounds[..|rounds| - 1]) + rounds[|rounds| - 1].pass.inputTokens
  }

  function PassOutput(rounds: seq<Round>): nat {
    if rounds == [] then 0 else PassOutput(rounds[..|rounds| - 1]) + rounds[|rounds| - 1].pass.outputTokens
  }

  function StepsOf(r: Round): nat { if r.pass.PassDone? then r.pass.steps else 0 }

  function Steps(rounds: seq<Round>): nat {
    if rounds == [] then 0 else Steps(rounds[..|rounds| - 1]) + StepsOf(rounds[|rounds| - 1])
  }

  function ReviewInput(reviews: seq<Recorded>): nat {
    if reviews == [] then 0 else ReviewInput(reviews[..|reviews| - 1]) + reviews[|reviews| - 1].inputTokens
  }

  function ReviewOutput(reviews: seq<Recorded>): nat {
    if reviews == [] then 0 else ReviewOutput(reviews[..|reviews| - 1]) + reviews[|reviews| - 1].outputTokens
  }

  ghost predicate WellTimed(r: Round) {
    && |r.calls| == CALLS && NonNegativeTimes(r.calls)
    && r.lagBefore >= 0.0 && r.lagAfter >= 0.0 && r.lagVerify >= 0.0 && r.passTime >= 0.0
  }

  ghost predicate Scripted(config: Config, rounds: seq<Round>) {
    && config.maxAttempts >= 1 && config.verifyTimeout >= 1 && |rounds| == config.maxAttempts
    && forall i | 0 <= i < |rounds| :: WellTimed(rounds[i])
  }

  /** `max(1, int(seconds))`. */
  function Whole(seconds: real): int { AtLeastOne(seconds.Floor) }

  // ----- One round -----

  /** A round is recorded as a review, or halts the run. */
  datatype Result =
    | Reviewed(record: Recorded)
    | Halted(stop: Stop, inputTokens: nat, outputTokens: nat)
    | Raised

  /** What the round left in the logs: when it began and ended, the pass and the review, if they began,
      and the calls of the review. */
  datatype Trace =
    Trace(begun: real, ended: real, pass: Option<Timed>, review: Option<Timed>, calls: seq<Timed>)

  function PassStart(round: Round, begun: real): real { begun + round.lagBefore }

  function PassEnd(round: Round, begun: real): real { PassStart(round, begun) + round.passTime }

  /** When the loop reads the clock before the review. */
  function ReviewCheck(round: Round, begun: real): real { PassEnd(round, begun) + round.lagAfter }

  /** When the reviewing model's own clock starts. */
  function ReviewStart(round: Round, begun: real): real { ReviewCheck(round, begun) + round.lagVerify }

  /** The times in a trace are those of the script: a pass begins if time is left, with a limit of the
      whole seconds left, but at least one; likewise the review. */
  ghost predicate Clocked(config: Config, round: Round, wall: int, deadline: real, trace: Trace) {
    && |round.calls| == CALLS
    && (trace.pass.Some? <==> PassStart(round, trace.begun) < deadline)
    && (trace.pass.Some? ==> trace.pass.value == PassOf(round, wall, deadline, trace.begun))
    && (trace.review.Some? ==>
          && trace.pass.Some?
          && ReviewTimed(config, round, deadline, trace.begun, trace.review.value, trace.calls, trace.ended))
    && (trace.review.None? ==> trace.calls == [] && Unreviewed(round, trace))
  }

  function PassOf(round: Round, wall: int, deadline: real, begun: real): Timed {
    var start := PassStart(round, begun);
    Timed(start, Least(wall, Whole(deadline - start)), round.passTime)
  }

  ghost predicate ReviewTimed(config: Config, round: Round, deadline: real, begun: real, review: Timed,
                              log: seq<Timed>, ended: real)
    requires |round.calls| == CALLS
  {
    && ReviewCheck(round, begun) < deadline
    && review.start == ReviewStart(round, begun)
    && review.limit == Least(config.verifyTimeout, Whole(deadline - ReviewCheck(round, begun)))
    && log == Log(review.start, review.limit, round.calls)
    && ended == Finished(review.start, review.limit, round.calls) == review.start + review.duration
  }

  /** A round without a review ends where it stopped. */
  ghost predicate Unreviewed(round: Round, trace: Trace) {
    if trace.pass.None? then trace.ended == PassStart(round, trace.begun)
    else trace.ended == PassEnd(round, trace.begun) || trace.ended == ReviewCheck(round, trace.begun)
  }

  /** The round's calls made this verdict due. */
  ghost predicate Judged(verdict: Verdict, round: Round, trace: Trace) {
    trace.review.Some? && Justified(verdict, trace.review.value.start, trace.review.value.limit, round.calls)
  }

  /** The calls broke validation itself. */
  ghost predicate Broken(round: Round, trace: Trace) { Judged(Fault, round, trace) }

  /** The round captured a patch that is not the one just rejected. */
  ghost predicate Submitted(round: Round, previous: Option<string>, sha: Digest) {
    Done(round) && round.captured.Some? && previous != Some(sha(round.captured.value.diff))
  }

  /** The record is of the patch this round captured, with the review its calls made due and the
      tokens of the calls made. */
  ghost predicate Faithful(round: Round, trace: Trace, record: Recorded, sha: Digest) {
    && Submitted(round, None, sha) && round.snapshotTaken && round.evidenceKept
    && record.sha == sha(round.captured.value.diff)
    && Coherent(record.review) && Judged(SolutionVerifier.Reviewed(record.review), round, trace)
    && record.providerCalls == |trace.calls| <= |round.calls|
    && record.inputTokens == InputSum(round.calls[..record.providerCalls])
    && record.outputTokens == OutputSum(round.calls[..record.providerCalls])
  }

  /** Why a round stopped the run: the first step that failed, every earlier one having gone through. */
  ghost predicate Cause(round: Round, trace: Trace, previous: Option<string>, sha: Digest, deadline: real, stop: Stop) {
    match stop
    case TraeTimeout =>
      && trace.ended >= deadline && trace.review.None?
      && (trace.pass.Some? ==> Submitted(round, previous, sha) && round.snapshotTaken)
    case PassError => trace.pass.Some? && !Done(round)
    case CaptureError => trace.pass.Some? && Done(round) && round.captured.None?
    case NoChange =>
      trace.pass.Some? && Done(round) && round.captured.Some? && previous == Some(sha(round.captured.value.diff))
    case SnapshotError => trace.pass.Some? && Submitted(round, previous, sha) && !round.snapshotTaken
    case ReviewError(failure) =>
      && Submitted(round, previous, sha) && round.snapshotTaken && round.evidenceKept
      && Judged(Failed(failure), round, trace)
    case EvidenceError =>
      && Submitted(round, previous, sha) && round.snapshotTaken && !round.evidenceKept
      && trace.review.Some? && !Broken(round, trace)
    case ReviewRejected => false
    case CommitError => false
  }

  /** One turn of the loop: pass, capture, source snapshot, review, evidence. */
  method PlayRound(config: Config, round: Round, attempt: nat, previous: Option<string>, wall: int, sha: Digest,
                   deadline: real, clock: real)
    returns (result: Result, trace: Trace)
    requires WellTimed(round) && config.verifyTimeout >= 1
    ensures trace.begun == clock && Clocked(config, round, wall, deadline, trace)
    ensures trace.pass.None? ==> result == Halted(TraeTimeout, 0, 0)
    ensures |trace.calls| <= |round.calls|
    ensures result.Reviewed? ==> Faithful(round, trace, result.record, sha) && result.record.attempt == attempt
    ensures result.Reviewed? ==> previous != Some(result.record.sha)
    ensures result.Halted? ==> Cause(round, trace, previous, sha, deadline, result.stop)
    ensures result.Halted? ==> result.inputTokens == InputSum(round.calls[..|trace.calls|])
    ensures result.Halted? ==> result.outputTokens == OutputSum(round.calls[..|trace.calls|])
    ensures result.Raised? <==> Broken(round, trace)
  {
    hide Coherent;
    hide Finished;
    hide Made;
    hide Justified;
    assert InputSum(round.calls[..0]) == OutputSum(round.calls[..0]) == 0;
    hide InputSum;
    hide OutputSum;
    var now := clock + round.lagBefore;
    trace := Trace(clock, now, None, None, []);
    var remaining := deadline - now;
    if remaining <= 0.0 { return Halted(TraeTimeout, 0, 0), trace; }
    var limit := Least(wall, Whole(remaining));
    trace := trace.(pass := Some(Timed(now, limit, round.passTime)));
    now := now + round.passTime;
    trace := trace.(ended := now);
    if round.pass.PassFailed? { return Halted(PassError, 0, 0), trace; }
    if round.captured.None? { return Halted(CaptureError, 0, 0), trace; }
    var digest := sha(round.captured.value.diff);
    if previous == Some(digest) { return Halted(NoChange, 0, 0), trace; }
    if !round.snapshotTaken { return Halted(SnapshotError, 0, 0), trace; }
    now := now + round.lagAfter;
    trace := trace.(ended := now);
    remaining := deadline - now;
    if remaining <= 0.0 { return Halted(TraeTimeout, 0, 0), trace; }
    var timeout := Least(config.verifyTimeout, Whole(remaining));
    now := now + round.lagVerify;
    var verdict, input, output, log, ended := Verify(now, timeout, round.calls);
    trace := trace.(ended := ended, review := Some(Timed(now, timeout, ended - now)), calls := log);
    VerdictsDiffer(verdict, now, timeout, round.calls);
    match verdict
    case Fault => result := Result.Raised;
    case Failed(failure) =>
      result := Halted(if round.evidenceKept then ReviewError(failure) else EvidenceError, input, output);
    case BadTimeout => assert false;
    case Reviewed(review) =>
      if !round.evidenceKept { return Halted(EvidenceError, input, output), trace; }
      result := Result.Reviewed(Recorded(attempt, digest, review, |log|, input, output));
  }

  lemma {:induction false} VerdictsDiffer(verdict: Verdict, started: real, timeout: int, calls: seq<Call>)
    requires Justified(verdict, started, timeout, calls) && timeout >= 1
    ensures verdict != BadTimeout
    ensures verdict == Fault <==> Justified(Fault, started, timeout, calls)
  {
    if Justified(Fault, started, timeout, calls) { OneVerdict(verdict, Fault, started, timeout, calls); }
  }

  // ----- The run -----

  datatype Run = Run(orders: seq<Order>, reviews: seq<Recorded>, traces: seq<Trace>)

  /** The recorded rounds: each faithful, all rejected but possibly the last, no diff twice in a row. */
  ghost predicate History(rounds: seq<Round>, sha: Digest, run: Run) {
    && |run.reviews| <= |rounds| && |run.reviews| <= |run.traces|
    && (forall i | 0 <= i < |run.reviews| ::
          Faithful(rounds[i], run.traces[i], run.reviews[i], sha) && run.reviews[i].attempt == i + 1)
    && (forall i | 0 <= i < |run.reviews| - 1 :: !run.reviews[i].review.accepted)
    && (forall i | 0 < i < |run.reviews| :: run.reviews[i].sha != run.reviews[i - 1].sha)
  }

  /** The guards of `build_solution_revision_prompt` on the review it is built from. */
  predicate PromptGuards(review: Review, attempt: nat, maximum: nat) {
    !review.accepted && review.required != [] && 1 <= attempt < maximum
  }

  /** The first pass gets the caller's order; every later one revision limits and a prompt built from
      the review just before it, within its guards. */
  ghost predicate Ordered(config: Config, first: Order, reviews: seq<Recorded>, orders: seq<Order>) {
    && |reviews| <= |orders| <= |reviews| + 1
    && forall i | 0 <= i < |orders| :: OrderAt(config, first, reviews, i, orders[i])
  }

  ghost predicate OrderAt(config: Config, first: Order, reviews: seq<Recorded>, i: nat, order: Order)
    requires i <= |reviews|
  {
    if i == 0 then order == first
    else
      && order == RevisionOrder(config, i, reviews[i - 1].review)
      && PromptGuards(reviews[i - 1].review, i, config.maxAttempts)
  }

  function RevisionOrder(config: Config, attempt: nat, review: Review): Order {
    Order(Revision(attempt, config.maxAttempts, review.required), config.revisionSteps, config.repairTokens,
          config.revisionWall)
  }

  /** Rounds follow one another without a gap, each clocked; only the last may find no time for a pass. */
  ghost predicate Traced(config: Config, rounds: seq<Round>, orders: seq<Order>, traces: seq<Trace>, started: real,
                         deadline: real) {
    && |traces| <= |orders| && |traces| <= |rounds|
    && (forall i | 0 <= i < |traces| :: Clocked(config, rounds[i], orders[i].wall, deadline, traces[i]))
    && (forall i | 0 <= i < |traces| :: traces[i].begun == EndTime(traces[..i], started))
    && (forall i | 0 <= i < |traces| :: traces[i].pass.None? ==> i == |traces| - 1)
  }

  function EndTime(traces: seq<Trace>, started: real): real {
    if traces == [] then started else traces[|traces| - 1].ended
  }

  /** What every run keeps, however it ends. */
  ghost predicate Kept(config: Config, rounds: seq<Round>, sha: Digest, first: Order, started: real, run: Run) {
    && History(rounds, sha, run) && Ordered(config, first, run.reviews, run.orders)
    && Traced(config, rounds, run.orders, run.traces, started, started + first.wall as real)
  }

  ghost predicate AcceptedRun(run: Run) {
    run.reviews != [] && run.reviews[|run.reviews| - 1].review.accepted
  }

  /** The passes that ran: all orders but one refused for lack of time. */
  function Passes(run: Run): nat {
    if run.traces != [] && run.traces[|run.traces| - 1].pass.None? then |run.traces| - 1 else |run.traces|
  }

  /** The calls of a review that failed: those logged in a turn that left no record. */
  function Unrecorded(rounds: seq<Round>, run: Run): seq<Call> {
    var n := |run.reviews|;
    if n < |run.traces| && n < |rounds| && |run.traces[n].calls| <= |rounds[n].calls|
    then rounds[n].calls[..|run.traces[n].calls|] else []
  }

  /** The totals: every pass that ran, every recorded review, and the calls of a review that failed. */
  ghost predicate Totals(rounds: seq<Round>, run: Run, input: nat, output: nat) {
    && |run.reviews| <= Passes(run) <= |run.reviews| + 1 && Passes(run) <= |rounds|
    && input == PassInput(rounds[..Passes(run)]) + ReviewInput(run.reviews) + InputSum(Unrecorded(rounds, run))
    && output == PassOutput(rounds[..Passes(run)]) + ReviewOutput(run.reviews) + OutputSum(Unrecorded(rounds, run))
  }

  /** The digest the next capture must differ from. */
  function Previous(reviews: seq<Recorded>): Option<string> {
    if reviews == [] then None else Some(reviews[|reviews| - 1].sha)
  }

  /** The turn that left no record broke validation. */
  ghost predicate BrokenRun(rounds: seq<Round>, run: Run) {
    var n := |run.reviews|;
    n < |run.traces| && n < |rounds| && Broken(rounds[n], run.traces[n])
  }

  /** The turn that left no record stopped for this reason. */
  ghost predicate CauseOf(rounds: seq<Round>, sha: Digest, deadline: real, run: Run, stop: Stop) {
    var n := |run.reviews|;
    && n < |run.traces| && n < |rounds|
    && Cause(rounds[n], run.traces[n], Previous(run.reviews), sha, deadline, stop)
  }

  /** What the outcome reports of the run. */
  ghost predicate Reported(config: Config, rounds: seq<Round>, sha: Digest, deadline: real, run: Run,
                           outcome: Outcome) {
    var n := |run.reviews|;
    && (outcome == Crashed <==> BrokenRun(rounds, run))
    && match outcome
       case Crashed => true
       case Stopped(stop, input, output) =>
         && Totals(rounds, run, input, output)
         && (stop == ReviewRejected ==> n == config.maxAttempts && !AcceptedRun(run))
         && (stop == CommitError ==> AcceptedRun(run))
         && (AcceptedRun(run) || n == config.maxAttempts ==> stop in {ReviewRejected, CommitError, EvidenceError})
         && (!AcceptedRun(run) && n < config.maxAttempts ==> CauseOf(rounds, sha, deadline, run, stop))
       case Sealed(patch, digest, steps, input, output) =>
         && Totals(rounds, run, input, output)
         && AcceptedRun(run) && Passes(run) == n <= config.maxAttempts && n <= |rounds|
         && rounds[n - 1].captured == Some(patch) && digest == run.reviews[n - 1].sha
         && steps == Steps(rounds[..n])
  }

  /** Everything that is promised of a run. */
  ghost predicate RunOf(config: Config, rounds: seq<Round>, sha: Digest, first: Order, started: real, committed: bool,
                        retained: bool, outcome: Outcome, run: Run, finished: real) {
    && Kept(config, rounds, sha, first, started, run)
    && Reported(config, rounds, sha, started + first.wall as real, run, outcome)
    && (outcome.Sealed? <==> AcceptedRun(run) && committed && retained)
    && finished == EndTime(run.traces, started)
  }

  // ----- What a run's orders are -----

  /** What the source asks of pass `i` of a run: the caller's order for the first; afterwards the revision's
      step, token and wall limits, and a prompt numbered by the review it follows, asking for exactly the
      changes that review requires. */
  ghost predicate DueOrder(config: Config, first: Order, run: Run, i: nat)
    requires i < |run.orders| && i <= |run.reviews|
  {
    var order := run.orders[i];
    if i == 0 then order == first
    else
      && order.steps == config.revisionSteps && order.tokens == config.repairTokens && order.wall == config.revisionWall
      && order.prompt.Revision? && order.prompt.attempt == i && order.prompt.maximum == config.maxAttempts
      && order.prompt.required == run.reviews[i - 1].review.required != []
      && !run.reviews[i - 1].review.accepted && i < config.maxAttempts
  }

  /** Every pass of every run is asked for that, and given no more time than that. */
  lemma {:induction false} RunsAreOrdered(config: Config, rounds: seq<Round>, sha: Digest, first: Order, started: real,
                                          committed: bool, retained: bool, outcome: Outcome, run: Run, finished: real)
    requires RunOf(config, rounds, sha, first, started, committed, retained, outcome, run, finished)
    ensures |run.reviews| <= |run.orders| <= |run.reviews| + 1
    ensures forall i | 0 <= i < |run.orders| :: DueOrder(config, first, run, i)
    ensures forall i | 0 <= i < |run.traces| && run.traces[i].pass.Some? ::
      i < |run.orders| && run.traces[i].pass.value.limit <= if i == 0 then first.wall else config.revisionWall
  {
    hide History;
    hide Reported;
    hide Clocked;
    hide OrderAt;
    hide DueOrder;
    forall i | 0 <= i < |run.orders| ensures DueOrder(config, first, run, i) {
      OrderIsDue(config, first, run, i);
    }
    forall i | 0 <= i < |run.traces| && run.traces[i].pass.Some?
      ensures run.traces[i].pass.value.limit <= if i == 0 then first.wall else config.revisionWall
    {
      WallIsDue(config, first, run, i);
      CallsFit(config, rounds[i], run.orders[i].wall, started + first.wall as real, run.traces[i]);
    }
  }

  lemma {:induction false} OrderIsDue(config: Config, first: Order, run: Run, i: nat)
    requires i < |run.orders| && i <= |run.reviews| && OrderAt(config, first, run.reviews, i, run.orders[i])
    ensures DueOrder(config, first, run, i)
  {
  }

  lemma {:induction false} WallIsDue(config: Config, first: Order, run: Run, i: nat)
    requires i < |run.orders| && i <= |run.reviews| && DueOrder(config, first, run, i)
    ensures run.orders[i].wall == if i == 0 then first.wall else config.revisionWall
  {
  }

  lemma {:induction false} CallsFit(config: Config, round: Round, wall: int, deadline: real, trace: Trace)
    requires Clocked(config, round, wall, deadline, trace)
    ensures |trace.calls| <= |round.calls|
    ensures trace.pass.None? ==> trace.calls == [] && trace.review.None?
    ensures trace.pass.Some? ==> trace.pass.value.limit <= wall
  {
    hide Finished;
  }

  // ----- What a run reports of tokens and steps -----

  /** The input tokens of round `i`: its pass, and the answered calls of its review. */
  function InputAt(rounds: seq<Round>, traces: seq<Trace>): int -> real {
    (i: int) =>
      if 0 <= i < |rounds| && i < |traces| && traces[i].pass.Some?
      then rounds[i].pass.inputTokens as real + Sum(CallsMade(rounds[i], traces[i]), PaidInput())
      else 0.0
  }

  function OutputAt(rounds: seq<Round>, traces: seq<Trace>): int -> real {
    (i: int) =>
      if 0 <= i < |rounds| && i < |traces| && traces[i].pass.Some?
      then rounds[i].pass.outputTokens as real + Sum(CallsMade(rounds[i], traces[i]), PaidOutput())
      else 0.0
  }

  function CallsMade(round: Round, trace: Trace): seq<Call> {
    if |trace.calls| <= |round.calls| then round.calls[..|trace.calls|] else []
  }

  function PaidInput(): Call -> real {
    (c: Call) => if c.reply.Answered? && c.reply.inputTokens > 0 then c.reply.inputTokens as real else 0.0
  }

  function PaidOutput(): Call -> real {
    (c: Call) => if c.reply.Answered? && c.reply.outputTokens > 0 then c.reply.outputTokens as real else 0.0
  }

  function StepsAt(rounds: seq<Round>, traces: seq<Trace>): int -> real {
    (i: int) =>
      if 0 <= i < |rounds| && i < |traces| && traces[i].pass.Some? && rounds[i].pass.PassDone?
      then rounds[i].pass.steps as real else 0.0
  }

  lemma {:induction false} CallTokens(calls: seq<Call>)
    ensures InputSum(calls) as real == Sum(calls, PaidInput())
    ensures OutputSum(calls) as real == Sum(calls, PaidOutput())
  {
    if calls != [] {
      var n := |calls| - 1;
      CallTokens(calls[..n]);
      assert calls == calls[..n] + [calls[n]];
      SumAppend(calls[..n], [calls[n]], PaidInput());
      SumAppend(calls[..n], [calls[n]], PaidOutput());
      SumSingle([calls[n]], 0, PaidInput());
      SumSingle([calls[n]], 0, PaidOutput());
    }
  }

  /** Up to the recorded reviews, the counters hold what the rounds spent. */
  lemma {:induction false} RecordedTokens(rounds: seq<Round>, sha: Digest, run: Run, n: nat)
    requires History(rounds, sha, run) && n <= |run.reviews|
    requires forall i | 0 <= i < n :: run.traces[i].pass.Some?
    ensures (PassInput(rounds[..n]) + ReviewInput(run.reviews[..n])) as real ==
      Sum(Indices(n), InputAt(rounds, run.traces))
    ensures (PassOutput(rounds[..n]) + ReviewOutput(run.reviews[..n])) as real ==
      Sum(Indices(n), OutputAt(rounds, run.traces))
  {
    hide Sum;
    hide InputSum;
    hide OutputSum;
    hide Judged;
    if n == 0 {
      SumConst(Indices(0), InputAt(rounds, run.traces), 0.0);
      SumConst(Indices(0), OutputAt(rounds, run.traces), 0.0);
    } else {
      var m := n - 1;
      RecordedTokens(rounds, sha, run, m);
      SumsStep(rounds, m);
      ReviewStep(run.reviews[..m], run.reviews[m]);
      assert run.reviews[..n] == run.reviews[..m] + [run.reviews[m]];
      assert Faithful(rounds[m], run.traces[m], run.reviews[m], sha);
      CallTokens(rounds[m].calls[..|run.traces[m].calls|]);
      IndexStep(m, InputAt(rounds, run.traces));
      IndexStep(m, OutputAt(rounds, run.traces));
    }
  }

  lemma {:induction false} IndexStep(n: nat, f: int -> real)
    ensures Sum(Indices(n + 1), f) == Sum(Indices(n), f) + f(n)
  {
    assert Indices(n + 1) == Indices(n) + [n];
    SumAppend(Indices(n), [n], f);
    SumSingle([n], 0, f);
  }

  lemma {:induction false} StepTokens(rounds: seq<Round>, traces: seq<Trace>, n: nat)
    requires n <= |rounds| && n <= |traces| && forall i | 0 <= i < n :: traces[i].pass.Some?
    ensures Steps(rounds[..n]) as real == Sum(Indices(n), StepsAt(rounds, traces))
  {
    hide Sum;
    if n == 0 {
      SumConst(Indices(0), StepsAt(rounds, traces), 0.0);
    } else {
      StepTokens(rounds, traces, n - 1);
      SumsStep(rounds, n - 1);
      IndexStep(n - 1, StepsAt(rounds, traces));
    }
  }

  /** Nothing is lost and nothing is counted twice: however a run is stopped or sealed, it reports the tokens
      of every pass that ran, failed ones included, and of every answered call of every review, recorded or
      not; and a sealed run reports the steps of all its passes. */
  lemma {:induction false} TokensConserved(config: Config, rounds: seq<Round>, sha: Digest, first: Order, started: real,
                                           committed: bool, retained: bool, outcome: Outcome, run: Run, finished: real)
    requires RunOf(config, rounds, sha, first, started, committed, retained, outcome, run, finished)
    ensures !outcome.Crashed? ==>
      && outcome.inputTokens as real == Sum(Indices(|run.traces|), InputAt(rounds, run.traces))
      && outcome.outputTokens as real == Sum(Indices(|run.traces|), OutputAt(rounds, run.traces))
    ensures outcome.Sealed? ==> outcome.steps as real == Sum(Indices(|run.traces|), StepsAt(rounds, run.traces))
  {
    hide *;
    KeptParts(config, rounds, sha, first, started, committed, retained, outcome, run, finished);
    if !outcome.Crashed? {
      TracesFit(config, rounds, run.orders, run.traces, started, started + first.wall as real);
      LastTrace(rounds, sha, run, outcome.inputTokens, outcome.outputTokens);
      if outcome.Sealed? { SealedSteps(rounds, sha, run, outcome.steps); }
    }
  }

  lemma {:induction false} KeptParts(config: Config, rounds: seq<Round>, sha: Digest, first: Order, started: real,
                                     committed: bool, retained: bool, outcome: Outcome, run: Run, finished: real)
    requires RunOf(config, rounds, sha, first, started, committed, retained, outcome, run, finished)
    ensures History(rounds, sha, run)
    ensures Traced(config, rounds, run.orders, run.traces, started, started + first.wall as real)
    ensures |run.reviews| <= |run.traces| <= |run.orders| <= |run.reviews| + 1 && |run.traces| <= |rounds|
    ensures !outcome.Crashed? ==> Totals(rounds, run, outcome.inputTokens, outcome.outputTokens)
    ensures outcome.Sealed? ==> Passes(run) == |run.reviews| && outcome.steps == Steps(rounds[..|run.reviews|])
  {
    hide Faithful;
    hide Clocked;
    hide Totals;
    hide OrderAt;
    hide BrokenRun;
    hide CauseOf;
  }

  lemma {:induction false} TracesFit(config: Config, rounds: seq<Round>, orders: seq<Order>, traces: seq<Trace>,
                                     started: real, deadline: real)
    requires Traced(config, rounds, orders, traces, started, deadline)
    ensures |traces| <= |rounds|
    ensures forall i | 0 <= i < |traces| :: TraceFits(rounds[i], traces[i])
    ensures forall i | 0 <= i < |traces| :: traces[i].pass.None? ==> i == |traces| - 1
  {
    hide Clocked;
    forall i | 0 <= i < |traces| ensures TraceFits(rounds[i], traces[i]) {
      CallsFit(config, rounds[i], orders[i].wall, deadline, traces[i]);
    }
  }

  ghost predicate TraceFits(round: Round, trace: Trace) {
    |trace.calls| <= |round.calls| && (trace.pass.None? ==> trace.calls == [] && trace.review.None?)
  }

  lemma {:induction false} SealedSteps(rounds: seq<Round>, sha: Digest, run: Run, steps: nat)
    requires History(rounds, sha, run) && |run.traces| <= |rounds|
    requires forall i | 0 <= i < |run.traces| :: TraceFits(rounds[i], run.traces[i])
    requires forall i | 0 <= i < |run.traces| :: run.traces[i].pass.None? ==> i == |run.traces| - 1
    requires |run.traces| <= |run.reviews| + 1
    requires Passes(run) == |run.reviews| && steps == Steps(rounds[..|run.reviews|])
    ensures steps as real == Sum(Indices(|run.traces|), StepsAt(rounds, run.traces))
  {
    hide Sum;
    hide Steps;
    hide History;
    var n := |run.reviews|;
    PassesRan(rounds, sha, run);
    StepTokens(rounds, run.traces, n);
    if |run.traces| == n + 1 { IndexStep(n, StepsAt(rounds, run.traces)); }
  }

  lemma {:induction false} LastTrace(rounds: seq<Round>, sha: Digest, run: Run, input: nat, output: nat)
    requires History(rounds, sha, run) && |run.reviews| <= |run.traces| <= |run.reviews| + 1
    requires |run.traces| <= |rounds|
    requires forall i | 0 <= i < |run.traces| :: TraceFits(rounds[i], run.traces[i])
    requires Totals(rounds, run, input, output)
    ensures input as real == Sum(Indices(|run.traces|), InputAt(rounds, run.traces))
    ensures output as real == Sum(Indices(|run.traces|), OutputAt(rounds, run.traces))
  {
    hide *;
    var n := |run.reviews|;
    assert run.reviews[..n] == run.reviews;
    PassesRan(rounds, sha, run);
    RecordedTokens(rounds, sha, run, n);
    if |run.traces| == n {
      NoneUnrecorded(rounds, run, input, output);
    } else {
      OneUnrecorded(rounds, run, input, output);
      IndexStep(n, InputAt(rounds, run.traces));
      IndexStep(n, OutputAt(rounds, run.traces));
    }
  }

  lemma {:induction false} PassesRan(rounds: seq<Round>, sha: Digest, run: Run)
    requires History(rounds, sha, run) && |run.traces| <= |rounds|
    requires forall i | 0 <= i < |run.traces| :: TraceFits(rounds[i], run.traces[i])
    ensures forall i | 0 <= i < |run.reviews| :: run.traces[i].pass.Some?
  {
    hide Faithful;
    forall i | 0 <= i < |run.reviews| ensures run.traces[i].pass.Some? {
      WasReviewed(rounds[i], run.traces[i], run.reviews[i], sha);
    }
  }

  lemma {:induction false} WasReviewed(round: Round, trace: Trace, record: Recorded, sha: Digest)
    requires Faithful(round, trace, record, sha)
    ensures trace.review.Some?
  {
  }

  lemma {:induction false} NoneUnrecorded(rounds: seq<Round>, run: Run, input: nat, output: nat)
    requires |run.traces| == |run.reviews| && Totals(rounds, run, input, output)
    ensures input == PassInput(rounds[..|run.reviews|]) + ReviewInput(run.reviews)
    ensures output == PassOutput(rounds[..|run.reviews|]) + ReviewOutput(run.reviews)
  {
    hide PassInput;
    hide PassOutput;
    hide ReviewInput;
    hide ReviewOutput;
  }

  lemma {:induction false} OneUnrecorded(rounds: seq<Round>, run: Run, input: nat, output: nat)
    requires |run.traces| == |run.reviews| + 1 <= |rounds| && Totals(rounds, run, input, output)
    requires TraceFits(rounds[|run.reviews|], run.traces[|run.reviews|])
    ensures var n := |run.reviews|;
      && input as real == (PassInput(rounds[..n]) + ReviewInput(run.reviews)) as real + InputAt(rounds, run.traces)(n)
      && output as real ==
           (PassOutput(rounds[..n]) + ReviewOutput(run.reviews)) as real + OutputAt(rounds, run.traces)(n)
  {
    hide Sum;
    hide PassInput;
    hide PassOutput;
    hide Steps;
    hide ReviewInput;
    hide ReviewOutput;
    var n := |run.reviews|;
    assert Unrecorded(rounds, run) == CallsMade(rounds[n], run.traces[n]);
    CallTokens(CallsMade(rounds[n], run.traces[n]));
    hide InputSum;
    hide OutputSum;
    if run.traces[n].pass.Some? {
      SumsStep(rounds, n);
    } else {
      SumConst([], PaidInput(), 0.0);
      SumConst([], PaidOutput(), 0.0);
    }
  }

  // ----- The invariant of the loop -----

  /** The bookkeeping the loop carries into its next turn. */
  ghost predicate Standing(config: Config, rounds: seq<Round>, sha: Digest, first: Order, started: real, run: Run,
                           n: nat) {
    && n <= config.maxAttempts == |rounds| && |run.reviews| == |run.orders| == |run.traces| == n
    && Kept(config, rounds, sha, first, started, run)
    && (forall i | 0 <= i < n :: run.traces[i].pass.Some?)
  }

  lemma {:induction false} OrderAdded(config: Config, first: Order, reviews: seq<Recorded>, orders: seq<Order>,
                                       order: Order)
    requires Ordered(config, first, reviews, orders) && |orders| == |reviews|
    requires OrderAt(config, first, reviews, |orders|, order)
    ensures Ordered(config, first, reviews, orders + [order])
  {
    hide OrderAt;
    var next := orders + [order];
    assert forall i | 0 <= i < |orders| :: next[i] == orders[i];
  }

  function Opened(run: Run, order: Order, trace: Trace): Run {
    run.(orders := run.orders + [order], traces := run.traces + [trace])
  }

  lemma {:induction false} TraceAdded(config: Config, rounds: seq<Round>, orders: seq<Order>, traces: seq<Trace>,
                                      started: real, deadline: real, order: Order, trace: Trace)
    requires Traced(config, rounds, orders, traces, started, deadline) && |traces| == |orders| < |rounds|
    requires forall i | 0 <= i < |traces| :: traces[i].pass.Some?
    requires Clocked(config, rounds[|traces|], order.wall, deadline, trace)
    requires trace.begun == EndTime(traces, started)
    ensures Traced(config, rounds, orders + [order], traces + [trace], started, deadline)
  {
    hide Clocked;
    hide EndTime;
    var n, nextOrders, nextTraces := |traces|, orders + [order], traces + [trace];
    forall i | 0 <= i <= n
      ensures Clocked(config, rounds[i], nextOrders[i].wall, deadline, nextTraces[i])
      ensures nextTraces[i].begun == EndTime(nextTraces[..i], started)
    {
      assert nextTraces[..i] == traces[..i];
      assert traces[..n] == traces;
    }
  }

  /** Opening a turn: one more order, one more trace. */
  lemma {:induction false} TurnOpened(config: Config, rounds: seq<Round>, sha: Digest, first: Order, started: real,
                                       run: Run,
                                      n: nat, order: Order, trace: Trace)
    requires n < config.maxAttempts && Standing(config, rounds, sha, first, started, run, n)
    requires Clocked(config, rounds[n], order.wall, started + first.wall as real, trace)
    requires trace.begun == EndTime(run.traces, started)
    requires OrderAt(config, first, run.reviews, n, order)
    ensures var next := Opened(run, order, trace);
      && Kept(config, rounds, sha, first, started, next)
      && Passes(next) == (if trace.pass.Some? then n + 1 else n)
      && (trace.pass.Some? ==> forall i | 0 <= i <= n :: next.traces[i].pass.Some?)
  {
    hide Clocked;
    hide Faithful;
    hide Traced;
    hide Ordered;
    OrderAdded(config, first, run.reviews, run.orders, order);
    TraceAdded(config, rounds, run.orders, run.traces, started, started + first.wall as real, order, trace);
  }

  /** Where a run stands between turns: everything kept, every ordered pass ran, every review faithful. */
  lemma {:induction false} Settled(config: Config, rounds: seq<Round>, sha: Digest, first: Order, started: real,
                                    run: Run, n: nat)
    requires Standing(config, rounds, sha, first, started, run, n)
    ensures Kept(config, rounds, sha, first, started, run) && Passes(run) == n == |run.reviews| <= |rounds|
    ensures n > 0 ==> rounds[n - 1].captured.Some? && EndTime(run.traces, started) == run.traces[n - 1].ended
    ensures n > 0 && !run.reviews[n - 1].review.accepted ==> run.reviews[n - 1].review.required != []
    ensures Unrecorded(rounds, run) == [] && !BrokenRun(rounds, run)
  {
    hide Judged;
    if n > 0 { assert Faithful(rounds[n - 1], run.traces[n - 1], run.reviews[n - 1], sha); }
  }

  /** Closing it: the review of this round is recorded. */
  lemma {:induction false} TurnClosed(config: Config, rounds: seq<Round>, sha: Digest, first: Order, started: real,
                                       run: Run,
                                      n: nat, record: Recorded)
    requires n < config.maxAttempts == |rounds|
    requires Kept(config, rounds, sha, first, started, run)
    requires |run.reviews| == n && |run.orders| == |run.traces| == n + 1 && !AcceptedRun(run)
    requires forall i | 0 <= i <= n :: run.traces[i].pass.Some?
    requires Faithful(rounds[n], run.traces[n], record, sha) && record.attempt == n + 1
    requires n > 0 ==> run.reviews[n - 1].sha != record.sha
    ensures Standing(config, rounds, sha, first, started, run.(reviews := run.reviews + [record]), n + 1)
  {
    hide Clocked;
    hide History;
    hide Ordered;
    hide Traced;
    hide Faithful;
    hide AcceptedRun;
    var next := run.(reviews := run.reviews + [record]);
    HistoryAdded(rounds, sha, run, record);
    OrdersStay(config, first, run.reviews, run.orders, record);
    assert Kept(config, rounds, sha, first, started, next);
  }

  lemma {:induction false} HistoryAdded(rounds: seq<Round>, sha: Digest, run: Run, record: Recorded)
    requires History(rounds, sha, run) && |run.reviews| < |rounds| && |run.reviews| < |run.traces| && !AcceptedRun(run)
    requires Faithful(rounds[|run.reviews|], run.traces[|run.reviews|], record, sha)
    requires record.attempt == |run.reviews| + 1
    requires run.reviews != [] ==> run.reviews[|run.reviews| - 1].sha != record.sha
    ensures History(rounds, sha, run.(reviews := run.reviews + [record]))
  {
    hide Faithful;
    var next := run.reviews + [record];
    assert forall i | 0 <= i < |run.reviews| :: next[i] == run.reviews[i];
  }

  lemma {:induction false} OrdersStay(config: Config, first: Order, reviews: seq<Recorded>, orders: seq<Order>,
                                      record: Recorded)
    requires Ordered(config, first, reviews, orders) && |orders| == |reviews| + 1
    ensures Ordered(config, first, reviews + [record], orders)
  {
    hide RevisionOrder;
    hide PromptGuards;
    var next := reviews + [record];
    forall i | 0 <= i < |orders| ensures OrderAt(config, first, next, i, orders[i]) {
      assert OrderAt(config, first, reviews, i, orders[i]);
      if i > 0 { assert next[i - 1] == reviews[i - 1]; }
    }
  }

  lemma {:induction false} NothingYet(config: Config, rounds: seq<Round>, sha: Digest, first: Order, started: real)
    requires |rounds| == config.maxAttempts
    ensures Standing(config, rounds, sha, first, started, Run([], [], []), 0)
    ensures PassInput(rounds[..0]) == PassOutput(rounds[..0]) == Steps(rounds[..0]) == 0
    ensures ReviewInput([]) == ReviewOutput([]) == 0
  {
  }

  lemma {:induction false} SumsStep(rounds: seq<Round>, n: nat)
    requires n < |rounds|
    ensures PassInput(rounds[..n + 1]) == PassInput(rounds[..n]) + rounds[n].pass.inputTokens
    ensures PassOutput(rounds[..n + 1]) == PassOutput(rounds[..n]) + rounds[n].pass.outputTokens
    ensures Steps(rounds[..n + 1]) == Steps(rounds[..n]) + StepsOf(rounds[n])
  {
    assert rounds[..n + 1][..n] == rounds[..n];
  }

  lemma {:induction false} ReviewStep(reviews: seq<Recorded>, record: Recorded)
    ensures ReviewInput(reviews + [record]) == ReviewInput(reviews) + record.inputTokens
    ensures ReviewOutput(reviews + [record]) == ReviewOutput(reviews) + record.outputTokens
  {
    assert (reviews + [record])[..|reviews|] == reviews;
  }

  // ----- What is reported -----

  /** The tokens of the passes ordered so far and of the reviews recorded so far. */
  ghost predicate Counted(rounds: seq<Round>, reviews: seq<Recorded>, passes: nat, input: nat, output: nat) {
    && passes <= |rounds|
    && input == PassInput(rounds[..passes]) + ReviewInput(reviews)
    && output == PassOutput(rounds[..passes]) + ReviewOutput(reviews)
  }

  /** A round that halts the run adds the calls it made. */
  lemma {:induction false} HaltReported(config: Config, rounds: seq<Round>, sha: Digest, deadline: real, run: Run,
                                        input: nat, output: nat, halted: Result)
    requires |rounds| == config.maxAttempts && |run.reviews| < |rounds| && |run.traces| == |run.reviews| + 1
    requires !AcceptedRun(run) && halted.Halted? && !BrokenRun(rounds, run)
    requires CauseOf(rounds, sha, deadline, run, halted.stop)
    requires Counted(rounds, run.reviews, Passes(run), input, output)
    requires var n := |run.reviews|;
      && |run.traces[n].calls| <= |rounds[n].calls|
      && halted.inputTokens == InputSum(rounds[n].calls[..|run.traces[n].calls|])
      && halted.outputTokens == OutputSum(rounds[n].calls[..|run.traces[n].calls|])
    ensures Reported(config, rounds, sha, deadline, run,
                     Stopped(halted.stop, input + halted.inputTokens, output + halted.outputTokens))
  {
    hide CauseOf;
    hide Broken;
    hide InputSum;
    hide OutputSum;
    assert !CauseOf(rounds, sha, deadline, run, ReviewRejected) by { NoSuchCause(rounds, sha, deadline, run); }
    NoSuchCause(rounds, sha, deadline, run);
  }

  lemma {:induction false} NoSuchCause(rounds: seq<Round>, sha: Digest, deadline: real, run: Run)
    ensures !CauseOf(rounds, sha, deadline, run, ReviewRejected) && !CauseOf(rounds, sha, deadline, run, CommitError)
  {
  }

  /** Between turns the totals are those counted. */
  lemma {:induction false} CountedIsTotal(rounds: seq<Round>, run: Run, input: nat, output: nat)
    requires |run.reviews| == Passes(run) && Unrecorded(rounds, run) == []
    requires Counted(rounds, run.reviews, Passes(run), input, output)
    ensures Totals(rounds, run, input, output)
  {
  }

  /** A recorded review leaves the run standing, its totals counted, its diff at hand. */
  lemma {:induction false} TurnRecorded(config: Config, rounds: seq<Round>, sha: Digest, first: Order, started: real,
                                        run: Run, n: nat, record: Recorded, input: nat, output: nat)
    requires n < config.maxAttempts == |rounds|
    requires Kept(config, rounds, sha, first, started, run)
    requires |run.reviews| == n && |run.orders| == |run.traces| == n + 1 && !AcceptedRun(run)
    requires forall i | 0 <= i <= n :: run.traces[i].pass.Some?
    requires Faithful(rounds[n], run.traces[n], record, sha) && record.attempt == n + 1
    requires n > 0 ==> run.reviews[n - 1].sha != record.sha
    requires Counted(rounds, run.reviews, n + 1, input, output)
    ensures var next := run.(reviews := run.reviews + [record]);
      && Standing(config, rounds, sha, first, started, next, n + 1) && Kept(config, rounds, sha, first, started, next)
      && Counted(rounds, next.reviews, n + 1, input + record.inputTokens, output + record.outputTokens)
      && Totals(rounds, next, input + record.inputTokens, output + record.outputTokens)
      && Passes(next) == n + 1 && !BrokenRun(rounds, next) && rounds[n].captured.Some?
      && (!record.review.accepted ==> record.review.required != [])
  {
    hide *;
    var next := run.(reviews := run.reviews + [record]);
    TurnClosed(config, rounds, sha, first, started, run, n, record);
    Settled(config, rounds, sha, first, started, next, n + 1);
    ReviewCounted(rounds, run.reviews, n + 1, input, output, record);
    CountedIsTotal(rounds, next, input + record.inputTokens, output + record.outputTokens);
  }

  // ----- The loop -----

  /** The loop over review attempts. `stopped` is None when it was left with an accepted review. */
  method ReviewUntilSettled(config: Config, rounds: seq<Round>, sha: Digest, first: Order, started: real,
                            retained: bool)
    returns (stopped: Option<Outcome>, run: Run, staged: Option<Patch>, steps: nat, inputTokens: nat, outputTokens: nat)
    requires Scripted(config, rounds)
    ensures Kept(config, rounds, sha, first, started, run) && (stopped.None? <==> AcceptedRun(run))
    ensures stopped.Some? ==> !stopped.value.Sealed?
    ensures stopped.Some? ==> Reported(config, rounds, sha, started + first.wall as real, run, stopped.value)
    ensures stopped.None? ==> staged.Some? && run.reviews != []
    ensures stopped.None? ==>
      Reported(config, rounds, sha, started + first.wall as real, run,
               Sealed(staged.value, run.reviews[|run.reviews| - 1].sha, steps, inputTokens, outputTokens))
  {
    hide Standing;
    hide Kept;
    hide Clocked;
    hide Faithful;
    hide Cause;
    hide Broken;
    hide Counted;
    hide Totals;
    hide PassInput;
    hide PassOutput;
    hide Steps;
    hide ReviewInput;
    hide ReviewOutput;
    hide InputSum;
    hide OutputSum;
    hide RevisionOrder;
    hide StepsOf;
    hide BrokenRun;
    hide CauseOf;
    var deadline := started + first.wall as real;
    run, staged := Run([], [], []), None;
    steps, inputTokens, outputTokens := 0, 0, 0;
    var order, previous: Option<string> := first, None;
    NothingYet(config, rounds, sha, first, started);
    NothingCounted(rounds);
    for attempt := 1 to config.maxAttempts + 1
      invariant Standing(config, rounds, sha, first, started, run, attempt - 1)
      invariant |run.reviews| == |run.orders| == |run.traces| == attempt - 1 && !AcceptedRun(run)
      invariant Counted(rounds, run.reviews, attempt - 1, inputTokens, outputTokens)
      invariant steps == Steps(rounds[..attempt - 1])
      invariant attempt > config.maxAttempts ==> attempt == 1
      invariant OrderAt(config, first, run.reviews, attempt - 1, order)
      invariant previous == Previous(run.reviews)
    {
      var n, round := attempt - 1, rounds[attempt - 1];
      var clock := EndTime(run.traces, started);
      var result, trace := PlayRound(config, round, attempt, previous, order.wall, sha, deadline, clock);
      TurnOpened(config, rounds, sha, first, started, run, n, order, trace);
      run := Opened(run, order, trace);
      assert run.traces[n] == trace;
      HaltIs(rounds, sha, deadline, run, n, result);
      if trace.pass.None? {
        HaltReported(config, rounds, sha, deadline, run, inputTokens, outputTokens, result);
        stopped := Some(Stopped(TraeTimeout, inputTokens, outputTokens));
        return;
      }
      PassCounted(rounds, run.reviews, n, inputTokens, outputTokens);
      inputTokens := inputTokens + round.pass.inputTokens;
      outputTokens := outputTokens + round.pass.outputTokens;
      match result
      case Raised =>
        stopped := Some(Crashed);
        return;
      case Halted(stop, input, output) =>
        HaltReported(config, rounds, sha, deadline, run, inputTokens, outputTokens, result);
        stopped := Some(Stopped(stop, inputTokens + input, outputTokens + output));
        return;
      case Reviewed(record) =>
        TurnRecorded(config, rounds, sha, first, started, run, n, record, inputTokens, outputTokens);
        inputTokens := inputTokens + record.inputTokens;
        outputTokens := outputTokens + record.outputTokens;
        SumsStep(rounds, n);
        steps, staged := steps + StepsOf(round), round.captured;
        run := run.(reviews := run.reviews + [record]);
        if record.review.accepted { break; }
        if attempt == config.maxAttempts {
          stopped := Some(Stopped(if retained then ReviewRejected else EvidenceError, inputTokens, outputTokens));
          return;
        }
        previous := Some(record.sha);
        order := RevisionOrder(config, attempt, record.review);
    }
    assert AcceptedRun(run);
    stopped := None;
  }

  /** What a halted round says of the run it halts. */
  lemma {:induction false} HaltIs(rounds: seq<Round>, sha: Digest, deadline: real, run: Run, n: nat, result: Result)
    requires n == |run.reviews| < |run.traces| && n < |rounds|
    ensures BrokenRun(rounds, run) <==> Broken(rounds[n], run.traces[n])
    ensures result.Halted? && Cause(rounds[n], run.traces[n], Previous(run.reviews), sha, deadline, result.stop) ==>
      CauseOf(rounds, sha, deadline, run, result.stop)
  {
  }

  lemma {:induction false} NothingCounted(rounds: seq<Round>)
    ensures Counted(rounds, [], 0, 0, 0)
  {
  }

  lemma {:induction false} PassCounted(rounds: seq<Round>, reviews: seq<Recorded>, n: nat, input: nat, output: nat)
    requires n < |rounds| && Counted(rounds, reviews, n, input, output)
    ensures Counted(rounds, reviews, n + 1, input + rounds[n].pass.inputTokens, output + rounds[n].pass.outputTokens)
  {
    SumsStep(rounds, n);
  }

  lemma {:induction false} ReviewCounted(rounds: seq<Round>, reviews: seq<Recorded>, n: nat, input: nat, output: nat,
                                         record: Recorded)
    requires Counted(rounds, reviews, n, input, output)
    ensures Counted(rounds, reviews + [record], n, input + record.inputTokens, output + record.outputTokens)
  {
    ReviewStep(reviews, record);
  }

  /** `_produce_candidate_with_lease`, from the first clock reading to the returned candidate. */
  method ProduceCandidate(config: Config, rounds: seq<Round>, sha: Digest, first: Order, started: real,
                          committed: bool, retained: bool)
    returns (outcome: Outcome, run: Run, finished: real)
    requires Scripted(config, rounds)
    ensures RunOf(config, rounds, sha, first, started, committed, retained, outcome, run, finished)
  {
    hide Kept;
    hide Totals;
    hide BrokenRun;
    hide Steps;
    var stopped, reached, staged, steps, inputTokens, outputTokens :=
      ReviewUntilSettled(config, rounds, sha, first, started, retained);
    run, finished := reached, EndTime(reached.traces, started);
    if stopped.Some? { return stopped.value, run, finished; }
    if !committed { return Stopped(CommitError, inputTokens, outputTokens), run, finished; }
    if !retained { return Stopped(EvidenceError, inputTokens, outputTokens), run, finished; }
    outcome := Sealed(staged.value, run.reviews[|run.reviews| - 1].sha, steps, inputTokens, outputTokens);
  }
}
