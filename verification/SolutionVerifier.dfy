/** solution_verifier.py: the bounded review call, with its one retry and its own deadline. */
module SolutionVerifier {
  import opened Results
  import opened Rounding
  import opened ReviewDocument

  /** What the transport does: it raises, or answers with usage and a document (none if unreadable). */
  datatype Reply =
    | Raised(timedOut: bool)
    | Answered(inputTokens: int, outputTokens: int, document: Option<Document>)

  /** One transport call: the time that passes before the clock is read, and how long the call takes. */
  datatype Call = Call(lag: real, duration: real, reply: Reply)

  /** A timed step as the code saw it: when it began and the limit it was given. */
  datatype Timed = Timed(start: real, limit: int, duration: real)

  datatype Failure = ProviderTimeout | ProviderUnavailable | VerifierMalformed

  datatype Verdict =
    | Reviewed(review: Review)
    | Failed(failure: Failure)
    | Fault              // a TypeError nobody catches
    | BadTimeout         // ValueError: the timeout must be positive

  /** `_nonnegative_int`. */
  function Used(tokens: int): nat { if tokens > 0 then tokens else 0 }

  function InputOf(call: Call): nat { if call.reply.Answered? then Used(call.reply.inputTokens) else 0 }

  function OutputOf(call: Call): nat { if call.reply.Answered? then Used(call.reply.outputTokens) else 0 }

  function InputSum(calls: seq<Call>): nat {
    if calls == [] then 0 else InputSum(calls[..|calls| - 1]) + InputOf(calls[|calls| - 1])
  }

  function OutputSum(calls: seq<Call>): nat {
    if calls == [] then 0 else OutputSum(calls[..|calls| - 1]) + OutputOf(calls[|calls| - 1])
  }

  /** The call produced a document that validates. */
  predicate Readable(call: Call) {
    call.reply.Answered? && call.reply.document.Some? && Validate(call.reply.document.value).Valid?
  }

  function ReviewOf(call: Call): Review
    requires Readable(call)
  {
    Validate(call.reply.document.value).value
  }

  /** The call produced a document on which validation itself breaks. */
  predicate Faulty(call: Call) {
    call.reply.Answered? && call.reply.document.Some? && Validate(call.reply.document.value).TypeFault?
  }

  /** The call answered with nothing that validates: no document, or an invalid one. */
  predicate Rejected(call: Call) { call.reply.Answered? && !Readable(call) && !Faulty(call) }

  ghost predicate NonNegativeTimes(calls: seq<Call>) {
    forall i | 0 <= i < |calls| :: calls[i].lag >= 0.0 && calls[i].duration >= 0.0
  }

  function Least(a: int, b: int): int { if a < b then a else b }

  function AtLeastOne(n: int): int { if n < 1 then 1 else n }

  const CALLS: nat := 2

  // ----- What a script of calls amounts to -----

  function StartOf(started: real, calls: seq<Call>, i: nat): real
    requires i < |calls|
    decreases i, 0
  {
    (if i == 0 then started else EndOf(started, calls, i - 1)) + calls[i].lag
  }

  function EndOf(started: real, calls: seq<Call>, i: nat): real
    requires i < |calls|
    decreases i, 1
  {
    StartOf(started, calls, i) + calls[i].duration
  }

  function Deadline(started: real, timeout: int): real { started + timeout as real }

  /** The first call leaves the loop looking for another: it raised, or answered in time to no use. */
  predicate Retried(started: real, timeout: int, calls: seq<Call>)
    requires |calls| == CALLS
  {
    calls[0].reply.Raised? || (Rejected(calls[0]) && EndOf(started, calls, 0) <= Deadline(started, timeout))
  }

  /** How many calls are made: none without time for one, and a second only if the first is retried
      with time left. */
  function Made(started: real, timeout: int, calls: seq<Call>): (n: nat)
    requires |calls| == CALLS
    ensures n <= CALLS
  {
    if timeout < 1 || StartOf(started, calls, 0) >= Deadline(started, timeout) then 0
    else if Retried(started, timeout, calls) && StartOf(started, calls, 1) < Deadline(started, timeout) then CALLS
    else 1
  }

  /** The limit of a call that begins at `start`. */
  function LimitAt(started: real, timeout: int, start: real): int {
    AtLeastOne(Least(timeout, Ceiling(Deadline(started, timeout) - start)))
  }

  /** The calls made, as the code sees them. */
  function Log(started: real, timeout: int, calls: seq<Call>): (log: seq<Timed>)
    requires |calls| == CALLS
    ensures |log| == Made(started, timeout, calls)
  {
    seq(Made(started, timeout, calls), i requires 0 <= i < Made(started, timeout, calls) =>
      TimedCall(started, timeout, calls, i))
  }

  function TimedCall(started: real, timeout: int, calls: seq<Call>, i: nat): Timed
    requires i < |calls|
  {
    var start := StartOf(started, calls, i);
    Timed(start, LimitAt(started, timeout, start), calls[i].duration)
  }

  /** When it is over: at the end of the last call, or when no time is found to be left for another. */
  function Finished(started: real, timeout: int, calls: seq<Call>): real
    requires |calls| == CALLS
  {
    var n := Made(started, timeout, calls);
    if timeout < 1 then started
    else if n < CALLS && (n == 0 || Retried(started, timeout, calls)) then StartOf(started, calls, n)
    else EndOf(started, calls, n - 1)
  }

  /** Why a verdict is due. An answer after the deadline is not looked at. */
  ghost predicate Justified(verdict: Verdict, started: real, timeout: int, calls: seq<Call>) {
    && |calls| == CALLS
    && var n, deadline := Made(started, timeout, calls), Deadline(started, timeout);
    match verdict
    case BadTimeout => timeout < 1
    case Reviewed(review) =>
      n > 0 && EndOf(started, calls, n - 1) <= deadline && Readable(calls[n - 1]) && review == ReviewOf(calls[n - 1])
    case Fault => n > 0 && EndOf(started, calls, n - 1) <= deadline && Faulty(calls[n - 1])
    case Failed(VerifierMalformed) => n == CALLS && EndOf(started, calls, 1) <= deadline && Rejected(calls[1])
    case Failed(ProviderUnavailable) => n == CALLS && calls[1].reply == Raised(false)
    case Failed(ProviderTimeout) =>
      || (n == CALLS && calls[1].reply == Raised(true))
      || (n > 0 && calls[n - 1].reply.Answered? && EndOf(started, calls, n - 1) > deadline)
      || (timeout >= 1 && n < CALLS && (n > 0 ==> Retried(started, timeout, calls)))
  }

  /** The causes leave no choice: what the calls do decides the verdict. */
  lemma {:induction false} OneVerdict(v: Verdict, w: Verdict, started: real, timeout: int, calls: seq<Call>)
    requires Justified(v, started, timeout, calls) && Justified(w, started, timeout, calls)
    ensures v == w
  {
    hide Validate;
    hide StartOf;
    hide EndOf;
  }

  /** A first answer that comes in time with a well-formed, consistent review is the review: nothing is asked
      again, and what is returned says what the document says. */
  lemma {:induction false} FirstAnswerDecides(verdict: Verdict, started: real, timeout: int, calls: seq<Call>)
    requires Justified(verdict, started, timeout, calls) && NonNegativeTimes(calls)
    requires calls[0].reply.Answered? && calls[0].reply.document.Some?
    requires WellFormedReview(Normalize(calls[0].reply.document.value))
    requires timeout >= 1 && calls[0].lag < timeout as real && calls[0].lag + calls[0].duration <= timeout as real
    ensures Made(started, timeout, calls) == 1 && verdict.Reviewed?
    ensures Reads(verdict.review, Normalize(calls[0].reply.document.value))
  {
    hide Validate;
    hide WellFormedReview;
    hide Reads;
    ValidIff(calls[0].reply.document.value);
    var review := Validate(calls[0].reply.document.value).value;
    assert Readable(calls[0]) && !Retried(started, timeout, calls);
    OneVerdict(verdict, Reviewed(review), started, timeout, calls);
  }

  /** Whatever review is returned, the last call made answered with a well-formed document that says it. */
  lemma {:induction false} ReviewsAreRead(review: Review, started: real, timeout: int, calls: seq<Call>)
    requires Justified(Reviewed(review), started, timeout, calls)
    ensures 0 < Made(started, timeout, calls) <= |calls|
    ensures var reply := calls[Made(started, timeout, calls) - 1].reply;
      && reply.Answered? && reply.document.Some?
      && WellFormedReview(Normalize(reply.document.value)) && Reads(review, Normalize(reply.document.value))
  {
    hide Validate;
    hide WellFormedReview;
    hide Reads;
    hide Made;
    ValidIff(calls[Made(started, timeout, calls) - 1].reply.document.value);
  }

  /** A document that breaks validation, arriving in time as the last answer of the calls made, is not
      retried and not reported: it is the fault, and nothing else is. */
  lemma {:induction false} FaultIff(verdict: Verdict, started: real, timeout: int, calls: seq<Call>)
    requires Justified(verdict, started, timeout, calls)
    ensures verdict == Fault <==>
      (var n := Made(started, timeout, calls);
       n > 0 && EndOf(started, calls, n - 1) <= Deadline(started, timeout) && Faulty(calls[n - 1]))
  {
    hide Made;
    hide EndOf;
    hide Faulty;
    if Justified(Fault, started, timeout, calls) { OneVerdict(verdict, Fault, started, timeout, calls); }
  }

  /** There is such a document: whoever answers with it breaks the review, for any timeout. */
  lemma {:induction false} SomeAnswerFaults(verdict: Verdict, started: real, timeout: int, input: int, output: int)
    requires timeout >= 1
    requires var call := Call(0.0, 0.0, Answered(input, output, Some(FAULTY_REVIEW)));
      Justified(verdict, started, timeout, [call, call])
    ensures verdict == Fault
  {
    hide Validate;
    SomeDocumentFaults();
    var call := Call(0.0, 0.0, Answered(input, output, Some(FAULTY_REVIEW)));
    FaultIff(verdict, started, timeout, [call, call]);
  }

  // ----- Time -----

  ghost predicate NoLag(calls: seq<Call>) { forall i | 0 <= i < |calls| :: calls[i].lag == 0.0 }

  /** Every step kept the limit it was given. */
  ghost predicate AllPrompt(log: seq<Timed>) { forall i | 0 <= i < |log| :: log[i].duration <= log[i].limit as real }

  /** A call made before the deadline, with a limit that lets it run less than a second past it. */
  ghost predicate WithinDeadline(t: Timed, started: real, timeout: int) {
    && started <= t.start < Deadline(started, timeout) && 1 <= t.limit <= timeout
    && (t.duration <= t.limit as real ==> t.start + t.duration < Deadline(started, timeout) + 1.0)
  }

  lemma {:induction false} CallWithinDeadline(started: real, timeout: int, start: real, duration: real)
    requires started <= start < Deadline(started, timeout)
    ensures WithinDeadline(Timed(start, LimitAt(started, timeout, start), duration), started, timeout)
  {
  }

  /** No call begins at or after the deadline; calls that keep their limits end less than a second past it. */
  lemma {:induction false} CallsWithinDeadline(started: real, timeout: int, calls: seq<Call>)
    requires |calls| == CALLS && NonNegativeTimes(calls)
    ensures Finished(started, timeout, calls) >= started
    ensures forall i | 0 <= i < Made(started, timeout, calls) ::
      WithinDeadline(Log(started, timeout, calls)[i], started, timeout)
    ensures timeout >= 1 && NoLag(calls) && AllPrompt(Log(started, timeout, calls)) ==>
      Finished(started, timeout, calls) < Deadline(started, timeout) + 1.0
  {
    hide Retried;
    hide LimitAt;
    hide WithinDeadline;
    var n, log := Made(started, timeout, calls), Log(started, timeout, calls);
    CallOrder(started, calls);
    forall i | 0 <= i < n ensures WithinDeadline(log[i], started, timeout) {
      CallWithinDeadline(started, timeout, log[i].start, log[i].duration);
    }
    if timeout >= 1 && NoLag(calls) && AllPrompt(log) && n > 0 {
      assert log[n - 1].duration <= log[n - 1].limit as real;
      LateBySecond(log[n - 1], started, timeout);
    }
  }

  lemma {:induction false} CallOrder(started: real, calls: seq<Call>)
    requires |calls| == CALLS && NonNegativeTimes(calls)
    ensures started <= StartOf(started, calls, 0) <= EndOf(started, calls, 0)
    ensures EndOf(started, calls, 0) <= StartOf(started, calls, 1) <= EndOf(started, calls, 1)
    ensures NoLag(calls) ==> StartOf(started, calls, 0) == started
    ensures NoLag(calls) ==> StartOf(started, calls, 1) == EndOf(started, calls, 0)
  {
  }

  lemma {:induction false} LateBySecond(t: Timed, started: real, timeout: int)
    requires WithinDeadline(t, started, timeout) && t.duration <= t.limit as real
    ensures t.start + t.duration < Deadline(started, timeout) + 1.0
  {
  }

  /** A call's limit is the least whole number of seconds that covers the time left. */
  lemma {:induction false} CallLimitIs(started: real, timeout: int, start: real)
    requires started <= start < Deadline(started, timeout)
    ensures var left := Deadline(started, timeout) - start;
      left <= LimitAt(started, timeout, start) as real < left + 1.0
  {
    CeilingBounds(Deadline(started, timeout) - start);
  }

  /** A call's limit is no more than the time left exactly when a whole number of seconds is left. */
  lemma {:induction false} CallFits(started: real, timeout: int, start: real)
    requires started <= start < Deadline(started, timeout)
    ensures LimitAt(started, timeout, start) as real <= Deadline(started, timeout) - start <==>
      IsWhole(Deadline(started, timeout) - start)
  {
    var left := Deadline(started, timeout) - start;
    CeilingBounds(left);
    CeilingOfWhole(left);
    hide Ceiling;
    hide IsWhole;
    assert LimitAt(started, timeout, start) == Ceiling(left);
  }

  ghost predicate WholeCalls(calls: seq<Call>) {
    forall i | 0 <= i < |calls| :: calls[i].lag == 0.0 && IsWhole(calls[i].duration)
  }

  /** So with calls of whole seconds the deadline is met. */
  lemma {:induction false} WholeCallsInTime(started: real, timeout: int, calls: seq<Call>)
    requires |calls| == CALLS && NonNegativeTimes(calls) && WholeCalls(calls) && timeout >= 1
    requires AllPrompt(Log(started, timeout, calls))
    ensures Finished(started, timeout, calls) <= Deadline(started, timeout)
    ensures IsWhole(Finished(started, timeout, calls) - started)
  {
    hide Retried;
    hide LimitAt;
    var n, log := Made(started, timeout, calls), Log(started, timeout, calls);
    CallOrder(started, calls);
    if n > 0 {
      assert log[n - 1] == TimedCall(started, timeout, calls, n - 1);
      assert log[n - 1].duration <= log[n - 1].limit as real;
      var gone := StartOf(started, calls, n - 1) - started;
      assert IsWhole(gone);
      WholeGap(timeout, gone);
      assert timeout as real - gone == Deadline(started, timeout) - log[n - 1].start;
      CallFits(started, timeout, log[n - 1].start);
      WholeSum(gone, calls[n - 1].duration);
    }
  }

  lemma {:induction false} WholeGap(n: int, x: real)
    requires IsWhole(x)
    ensures IsWhole(n as real - x)
  {
    assert n as real - x == (n - x.Floor) as real;
  }

  lemma {:induction false} WholeSum(x: real, y: real)
    requires IsWhole(x) && IsWhole(y)
    ensures IsWhole(x + y)
  {
    assert x + y == (x.Floor + y.Floor) as real;
  }

  // ----- The loop -----

  /** The loop stands before call `index`, with every earlier call retried. */
  ghost predicate Reached(started: real, timeout: int, calls: seq<Call>, index: nat) {
    && |calls| == CALLS && index < CALLS && timeout >= 1
    && (index > 0 ==> StartOf(started, calls, 0) < Deadline(started, timeout) && Retried(started, timeout, calls))
  }

  lemma {:induction false} NoCalls(started: real, timeout: int, calls: seq<Call>)
    requires |calls| == CALLS && timeout < 1
    ensures Made(started, timeout, calls) == 0 && Finished(started, timeout, calls) == started
  {
  }

  lemma {:induction false} NoTimeLeft(started: real, timeout: int, calls: seq<Call>, index: nat)
    requires Reached(started, timeout, calls, index) && StartOf(started, calls, index) >= Deadline(started, timeout)
    ensures Made(started, timeout, calls) == index
    ensures Finished(started, timeout, calls) == StartOf(started, calls, index)
    ensures Justified(Failed(ProviderTimeout), started, timeout, calls)
  {
    hide Retried;
    hide StartOf;
  }

  lemma {:induction false} LastCall(started: real, timeout: int, calls: seq<Call>, index: nat)
    requires Reached(started, timeout, calls, index) && StartOf(started, calls, index) < Deadline(started, timeout)
    requires index == 0 ==> !Retried(started, timeout, calls)
    ensures Made(started, timeout, calls) == index + 1
    ensures Finished(started, timeout, calls) == EndOf(started, calls, index)
  {
    hide Retried;
    hide StartOf;
    hide EndOf;
  }

  lemma {:induction false} AnswerKind(call: Call)
    requires call.reply.Answered?
    ensures var d := call.reply.document;
      && (Readable(call) <==> d.Some? && Validate(d.value).Valid?)
      && (Readable(call) ==> ReviewOf(call) == Validate(d.value).value)
      && (Faulty(call) <==> d.Some? && Validate(d.value).TypeFault?)
      && (Rejected(call) <==> d.None? || Validate(d.value).Invalid?)
  {
  }

  lemma {:induction false} TokenStep(calls: seq<Call>, i: nat)
    requires i < |calls|
    ensures InputSum(calls[..i + 1]) == InputSum(calls[..i]) + InputOf(calls[i])
    ensures OutputSum(calls[..i + 1]) == OutputSum(calls[..i]) + OutputOf(calls[i])
  {
    assert calls[..i + 1][..i] == calls[..i];
  }

  /** `DeepSeekSolutionVerifier.verify`. `log` records the transport calls it made. */
  method Verify(started: real, timeout: int, calls: seq<Call>)
    returns (verdict: Verdict, inputTokens: nat, outputTokens: nat, log: seq<Timed>, finished: real)
    requires |calls| == CALLS && NonNegativeTimes(calls)
    ensures Justified(verdict, started, timeout, calls)
    ensures verdict.Reviewed? ==> Coherent(verdict.review)
    // every answered call is paid for, whatever the verdict
    ensures inputTokens == InputSum(calls[..Made(started, timeout, calls)])
    ensures outputTokens == OutputSum(calls[..Made(started, timeout, calls)])
    ensures log == Log(started, timeout, calls) && finished == Finished(started, timeout, calls)
  {
    hide Validate;
    hide Coherent;
    hide Ceiling;
    assert InputSum(calls[..0]) == OutputSum(calls[..0]) == 0;
    hide InputSum;
    hide OutputSum;
    hide Used;
    hide Readable;
    hide Faulty;
    hide Rejected;
    hide Made;
    hide Finished;
    inputTokens, outputTokens, log, finished := 0, 0, [], started;
    if timeout < 1 {
      NoCalls(started, timeout, calls);
      return BadTimeout, 0, 0, [], started;
    }
    var deadline := started + timeout as real;
    for index := 0 to CALLS
      invariant |log| == index && (forall i | 0 <= i < index :: log[i] == TimedCall(started, timeout, calls, i))
      invariant finished == if index == 0 then started else EndOf(started, calls, index - 1)
      invariant inputTokens == InputSum(calls[..index]) && outputTokens == OutputSum(calls[..index])
      invariant index > 0 ==> StartOf(started, calls, 0) < deadline && Retried(started, timeout, calls)
      invariant index == CALLS ==> StartOf(started, calls, 1) < deadline && Rejected(calls[1]) && finished <= deadline
    {
      var call := calls[index];
      finished := finished + call.lag;
      var remaining := deadline - finished;
      if remaining <= 0.0 {
        NoTimeLeft(started, timeout, calls, index);
        return Failed(ProviderTimeout), inputTokens, outputTokens, log, finished;
      }
      TokenStep(calls, index);
      if call.reply.Answered? { AnswerKind(call); }
      if index > 0 || !Retried(started, timeout, calls) { LastCall(started, timeout, calls, index); }
      var limit := AtLeastOne(Least(timeout, Ceiling(remaining)));
      log := log + [Timed(finished, limit, call.duration)];
      finished := finished + call.duration;
      match call.reply
      case Raised(timedOut) =>
        if index > 0 {
          verdict := Failed(if timedOut then ProviderTimeout else ProviderUnavailable);
          return;
        }
      case Answered(input, output, document) =>
        inputTokens := inputTokens + Used(input);
        outputTokens := outputTokens + Used(output);
        if finished > deadline { return Failed(ProviderTimeout), inputTokens, outputTokens, log, finished; }
        if document.Some? {
          match Validate(document.value)
          case Valid(review) =>
            ReviewsAreCoherent(document.value);
            return Reviewed(review), inputTokens, outputTokens, log, finished;
          case TypeFault =>
            return Fault, inputTokens, outputTokens, log, finished;
          case Invalid =>
        }
    }
    verdict := Failed(VerifierMalformed);
  }
}
