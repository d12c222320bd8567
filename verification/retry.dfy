/**
 * The retry policy of the bridge (server.mjs, `shouldRetryOpencodeError` and
 * `createAndPromptOpencodeWithRetry`) as a state machine over the sequence
 * of attempt outcomes. Sleeping between attempts is left out; each attempt
 * consumes its own outcome, so no session is reused.
 */
module Retry {
  import opened Wrappers
  import opened JsString
  import opened JsNumber
  import opened Translate
  import opened Upstream

  /** What one pass through the loop body yields: visible text with usage, or the error caught. */
  datatype Attempt = Answered(content: string, usage: Option<Tokens>) | Raised(error: BridgeError)

  /** How the loop ends: returning a result, or throwing the last error after some attempts. */
  datatype RunResult =
    | Completed(content: string, usage: Option<Tokens>, attempts: nat)
    | GaveUp(error: BridgeError, attempts: nat)

  /** `Number(error.status) || 0`. */
  function StatusNumber(e: BridgeError): int {
    if e.status.Some? then e.status.value else 0
  }

  /** `shouldRetryOpencodeError`: never on a timeout, otherwise on 408, 429 and every status from 500. */
  predicate ShouldRetry(e: BridgeError) {
    var status := StatusNumber(e);
    e.code != OpencodeTimeout && (status == 408 || status == 429 || status >= 500)
  }

  /** The loop's retry test apart from the attempt bound: empty text, or a retryable error. */
  predicate Retryable(e: BridgeError) {
    e.code == EmptyAssistantText || ShouldRetry(e)
  }

  /**
   * The body of one loop iteration: `createAndPromptOpencode` (validation,
   * then the upstream calls), then text extraction. Only visible text, that
   * is text that is non-empty after trimming, counts as an answer.
   */
  function AttemptResult(prepared: Result<MessageBody, BridgeError>, o: AttemptOutcome): (a: Attempt)
    ensures prepared.Failure? ==> a == Raised(prepared.error)
    ensures a.Answered? ==> o.Replied? && Trim(a.content) != ""
                            && a.content == ConcatTextParts(o.reply.parts) && a.usage == o.reply.tokens
    ensures prepared.Success? && o.Replied? && Trim(ConcatTextParts(o.reply.parts)) != ""
            ==> a == Answered(ConcatTextParts(o.reply.parts), o.reply.tokens)
    ensures prepared.Success? && o.Replied? && Trim(ExtractAssistantText(o.reply.parts)) == ""
            ==> a == Raised(EmptyTextError(o.reply))
    ensures prepared.Success? && !o.Replied? ==> a == Raised(OutcomeError(o))
  {
    match prepared
    case Failure(e) => Raised(e)
    case Success(_) =>
      match o
      case Replied(reply) =>
        var content := ExtractAssistantText(reply.parts);
        if content != "" && Trim(content) != "" then Answered(content, reply.tokens)
        else Raised(EmptyTextError(reply))
      case _ => Raised(OutcomeError(o))
  }

  /**
   * The loop from the attempt with 0-based index `k`: it returns at the first
   * answer, and stops at an error that is not retryable or that occurs on the
   * last permitted attempt, throwing that error unchanged.
   */
  function RunFrom(attempts: seq<Attempt>, maxAttempts: nat, k: nat): (r: RunResult)
    requires k < maxAttempts <= |attempts|
    ensures k < r.attempts <= maxAttempts
    ensures forall j :: k <= j < r.attempts - 1 ==> attempts[j].Raised? && Retryable(attempts[j].error)
    ensures r.Completed? ==> attempts[r.attempts - 1] == Answered(r.content, r.usage)
    ensures r.GaveUp? ==> attempts[r.attempts - 1] == Raised(r.error)
    ensures r.GaveUp? ==> r.attempts == maxAttempts || !Retryable(r.error)
    decreases maxAttempts - k
  {
    match attempts[k]
    case Answered(content, usage) => Completed(content, usage, k + 1)
    case Raised(e) =>
      if k + 1 < maxAttempts && Retryable(e) then RunFrom(attempts, maxAttempts, k + 1)
      else GaveUp(e, k + 1)
  }

  /** The loop's promise, stated without running it. */
  predicate IsRunOf(attempts: seq<Attempt>, maxAttempts: nat, r: RunResult)
    requires maxAttempts <= |attempts|
  {
    && 1 <= r.attempts <= maxAttempts
    && (forall j :: 0 <= j < r.attempts - 1 ==> attempts[j].Raised? && Retryable(attempts[j].error))
    && (r.Completed? ==> attempts[r.attempts - 1] == Answered(r.content, r.usage))
    && (r.GaveUp? ==> attempts[r.attempts - 1] == Raised(r.error))
    && (r.GaveUp? ==> r.attempts == maxAttempts || !Retryable(r.error))
  }

  /** The whole loop, from attempt 1. */
  function Run(attempts: seq<Attempt>, maxAttempts: nat): (r: RunResult)
    requires 1 <= maxAttempts <= |attempts|
    ensures IsRunOf(attempts, maxAttempts, r)
  {
    RunFrom(attempts, maxAttempts, 0)
  }

  /** The promise pins the result down: any result keeping it is the loop's result. */
  lemma RunIsUnique(attempts: seq<Attempt>, maxAttempts: nat, r: RunResult)
    requires 1 <= maxAttempts <= |attempts|
    requires IsRunOf(attempts, maxAttempts, r)
    ensures r == Run(attempts, maxAttempts)
  {
    var s := Run(attempts, maxAttempts);
    assert IsRunOf(attempts, maxAttempts, s);
  }

  /**
   * As written, the attempt bound is `Math.max(1, OPENCODE_RETRY_COUNT + 1)`
   * computed on whatever number the environment variable gives.
   */
  function AsWrittenAttemptLimit(retryCount: Num): (limit: Num)
    ensures retryCount.NaN? ==> !AtMost(1, limit)
  {
    Max(Finite(1.0), AddOne(retryCount))
  }

  /**
   * A non-numeric retry count gives a NaN bound, so the loop test
   * `attempt <= maxAttempts` already fails for attempt 1: no attempt is made
   * and the function throws its initial `lastError`, which is null.
   */
  lemma NaNRetryCountMakesNoAttempt()
    ensures AsWrittenAttemptLimit(StringToNumber("abc")).NaN?
    ensures !AtMost(1, AsWrittenAttemptLimit(StringToNumber("abc")))
  {
    assert !IsWhitespace('a') && !IsWhitespace('c');
    TrimTrimmed("abc");
    assert !IsDigit("abc"[0]);
  }

  /**
   * The attempt bound the loop evidently intends: at least one attempt, and
   * for a finite count exactly the attempts the as-written test admits.
   */
  function MaxAttempts(retryCount: Num): (n: nat)
    requires !retryCount.PosInf?
    ensures n >= 1
    ensures retryCount.Finite? ==>
              forall a: int :: 1 <= a ==> (AtMost(a, AsWrittenAttemptLimit(retryCount)) <==> a <= n)
  {
    if retryCount.Finite? then
      var r := retryCount.r;
      var n := if r.Floor + 1 >= 1 then r.Floor + 1 else 1;
      assert forall a: int :: 1 <= a ==> (AtMost(a, AsWrittenAttemptLimit(retryCount)) <==> a <= n) by {
        forall a: int | 1 <= a
          ensures AtMost(a, AsWrittenAttemptLimit(retryCount)) <==> a <= n
        {
          FloorBound(a, r);
        }
      }
      n
    else 1
  }

  lemma FloorBound(a: int, r: real)
    ensures (a as real <= r + 1.0) <==> a <= r.Floor + 1
  {
  }

  /** The per-attempt results of one request, validation included. */
  function AttemptsFor(prepared: Result<MessageBody, BridgeError>, outcomes: seq<AttemptOutcome>): (r: seq<Attempt>)
    ensures |r| == |outcomes|
    ensures forall i :: 0 <= i < |outcomes| ==> r[i] == AttemptResult(prepared, outcomes[i])
  {
    seq(|outcomes|, i requires 0 <= i < |outcomes| => AttemptResult(prepared, outcomes[i]))
  }

  /** `createAndPromptOpencodeWithRetry` with the corrected attempt bound. */
  function CreateAndPromptWithRetry(cfg: UpstreamConfig, retryCount: Num, req: ChatRequest,
                                    outcomes: seq<AttemptOutcome>): (r: RunResult)
    requires !retryCount.PosInf? && MaxAttempts(retryCount) <= |outcomes|
    ensures 1 <= r.attempts <= MaxAttempts(retryCount)
  {
    Run(AttemptsFor(PrepareMessage(cfg, req), outcomes), MaxAttempts(retryCount))
  }

  /** Upstream calls actually made: none when validation fails, one session per attempt otherwise. */
  function UpstreamAttempts(cfg: UpstreamConfig, req: ChatRequest, r: RunResult): nat {
    if PrepareMessage(cfg, req).Success? then r.attempts else 0
  }

  /** Timeouts, network failures and client errors stop the loop; 408, 429 and 5xx do not. */
  lemma RetryClassification(o: AttemptOutcome)
    requires !o.Replied?
    ensures o.TimedOut? ==> !Retryable(OutcomeError(o)) && StatusNumber(OutcomeError(o)) == 504
    ensures o.HttpFailure? ==>
              (Retryable(OutcomeError(o)) <==> o.httpStatus == 408 || o.httpStatus == 429 || o.httpStatus >= 500)
    ensures o.NetworkFailure? ==> !Retryable(OutcomeError(o))
  {
  }

  /** An empty answer is always retryable; the two validation errors never are. */
  lemma EmptyAndValidationClassification(reply: Reply)
    ensures Retryable(EmptyTextError(reply)) && StatusNumber(EmptyTextError(reply)) == 502
    ensures !Retryable(MessagesRequired()) && !Retryable(NoUsableText())
  {
  }

  /** A first attempt that fails with an error that is not retryable ends the loop at once. */
  lemma FirstErrorFinal(attempts: seq<Attempt>, maxAttempts: nat, e: BridgeError)
    requires 1 <= maxAttempts <= |attempts|
    requires attempts[0] == Raised(e) && !Retryable(e)
    ensures Run(attempts, maxAttempts) == GaveUp(e, 1)
  {
  }

  /** Retryable errors up to attempt n and an answer on attempt n: the loop returns that answer. */
  lemma AnswerAfterRetries(attempts: seq<Attempt>, maxAttempts: nat, n: nat)
    requires 1 <= n <= maxAttempts <= |attempts|
    requires forall j :: 0 <= j < n - 1 ==> attempts[j].Raised? && Retryable(attempts[j].error)
    requires attempts[n - 1].Answered?
    ensures Run(attempts, maxAttempts) == Completed(attempts[n - 1].content, attempts[n - 1].usage, n)
  {
    RunIsUnique(attempts, maxAttempts, Completed(attempts[n - 1].content, attempts[n - 1].usage, n));
  }

  /** A request that fails validation makes one attempt, no upstream call, and throws the 400 error. */
  lemma ValidationFailsOnce(cfg: UpstreamConfig, retryCount: Num, req: ChatRequest, outcomes: seq<AttemptOutcome>)
    requires !retryCount.PosInf? && MaxAttempts(retryCount) <= |outcomes|
    requires PrepareMessage(cfg, req).Failure?
    ensures CreateAndPromptWithRetry(cfg, retryCount, req, outcomes) == GaveUp(PrepareMessage(cfg, req).error, 1)
    ensures UpstreamAttempts(cfg, req, CreateAndPromptWithRetry(cfg, retryCount, req, outcomes)) == 0
    ensures StatusNumber(PrepareMessage(cfg, req).error) == 400
  {
    var prepared := PrepareMessage(cfg, req);
    var e := prepared.error;
    assert e == MessagesRequired() || e == NoUsableText();
    EmptyAndValidationClassification(Reply([], None, None));
    var atts := AttemptsFor(prepared, outcomes);
    assert atts[0] == Raised(e);
    FirstErrorFinal(atts, MaxAttempts(retryCount), e);
  }

  /** A timeout on the first attempt is thrown after exactly one attempt. */
  lemma TimeoutIsFinal(cfg: UpstreamConfig, retryCount: Num, req: ChatRequest, outcomes: seq<AttemptOutcome>)
    requires !retryCount.PosInf? && MaxAttempts(retryCount) <= |outcomes|
    requires PrepareMessage(cfg, req).Success? && outcomes[0].TimedOut?
    ensures CreateAndPromptWithRetry(cfg, retryCount, req, outcomes) == GaveUp(OutcomeError(outcomes[0]), 1)
  {
    var prepared := PrepareMessage(cfg, req);
    var atts := AttemptsFor(prepared, outcomes);
    assert atts[0] == Raised(OutcomeError(outcomes[0]));
    RetryClassification(outcomes[0]);
    FirstErrorFinal(atts, MaxAttempts(retryCount), OutcomeError(outcomes[0]));
  }

  /** An upstream status that is not retryable (a 400, say) is thrown after exactly one attempt. */
  lemma ClientErrorIsFinal(cfg: UpstreamConfig, retryCount: Num, req: ChatRequest, outcomes: seq<AttemptOutcome>)
    requires !retryCount.PosInf? && MaxAttempts(retryCount) <= |outcomes|
    requires PrepareMessage(cfg, req).Success? && outcomes[0].HttpFailure?
    requires outcomes[0].httpStatus != 408 && outcomes[0].httpStatus != 429 && outcomes[0].httpStatus < 500
    ensures CreateAndPromptWithRetry(cfg, retryCount, req, outcomes) == GaveUp(OutcomeError(outcomes[0]), 1)
    ensures StatusNumber(OutcomeError(outcomes[0])) == outcomes[0].httpStatus
  {
    var prepared := PrepareMessage(cfg, req);
    var atts := AttemptsFor(prepared, outcomes);
    assert atts[0] == Raised(OutcomeError(outcomes[0]));
    RetryClassification(outcomes[0]);
    FirstErrorFinal(atts, MaxAttempts(retryCount), OutcomeError(outcomes[0]));
  }

  /**
   * Server errors on the first n - 1 attempts and a visible answer on attempt
   * n (within the bound) complete with that answer after exactly n attempts.
   */
  lemma ServerErrorsThenAnswer(cfg: UpstreamConfig, retryCount: Num, req: ChatRequest,
                               outcomes: seq<AttemptOutcome>, n: nat)
    requires !retryCount.PosInf? && MaxAttempts(retryCount) <= |outcomes|
    requires 1 <= n <= MaxAttempts(retryCount)
    requires PrepareMessage(cfg, req).Success?
    requires forall j :: 0 <= j < n - 1 ==> outcomes[j].HttpFailure? && outcomes[j].httpStatus >= 500
    requires outcomes[n - 1].Replied? && Trim(ExtractAssistantText(outcomes[n - 1].reply.parts)) != ""
    ensures CreateAndPromptWithRetry(cfg, retryCount, req, outcomes)
            == Completed(ExtractAssistantText(outcomes[n - 1].reply.parts), outcomes[n - 1].reply.tokens, n)
    ensures UpstreamAttempts(cfg, req, CreateAndPromptWithRetry(cfg, retryCount, req, outcomes)) == n
  {
    var prepared := PrepareMessage(cfg, req);
    var atts := AttemptsFor(prepared, outcomes);
    var m := MaxAttempts(retryCount);
    forall j | 0 <= j < n - 1
      ensures atts[j].Raised? && Retryable(atts[j].error)
    {
      assert atts[j] == AttemptResult(prepared, outcomes[j]);
      RetryClassification(outcomes[j]);
    }
    var reply := outcomes[n - 1].reply;
    assert atts[n - 1] == Answered(ExtractAssistantText(reply.parts), reply.tokens);
    AnswerAfterRetries(atts, m, n);
  }

  /** When every attempt fails retryably, all attempts are made and the last error is thrown unchanged. */
  lemma ExhaustionThrowsLastError(attempts: seq<Attempt>, maxAttempts: nat)
    requires 1 <= maxAttempts <= |attempts|
    requires forall j :: 0 <= j < maxAttempts ==> attempts[j].Raised? && Retryable(attempts[j].error)
    ensures Run(attempts, maxAttempts) == GaveUp(attempts[maxAttempts - 1].error, maxAttempts)
  {
    var r := Run(attempts, maxAttempts);
  }

  /** An empty answer on any attempt but the last never ends the loop. */
  lemma EmptyAnswerIsRetried(attempts: seq<Attempt>, maxAttempts: nat, k: nat)
    requires 1 <= maxAttempts <= |attempts| && k + 1 < maxAttempts
    requires forall j :: 0 <= j < k ==> attempts[j].Raised? && Retryable(attempts[j].error)
    requires attempts[k].Raised? && attempts[k].error.code == EmptyAssistantText
    ensures Run(attempts, maxAttempts).attempts > k + 1
  {
    var r := Run(attempts, maxAttempts);
  }
}
