/**
 * The chat-completions endpoint of the bridge (server.mjs,
 * `requireBridgeAuth` and `handleChatCompletions`): authentication, body
 * parsing, the retried upstream call, and the reply. The upstream calls'
 * outcomes, the identifier's random part and the clock are parameters.
 */
module Bridge {
  import opened Wrappers
  import opened JsString
  import opened JsNumber
  import opened Upstream
  import opened Retry
  import opened Emit
  import opened Bearer

  /** The environment the endpoint reads: `BRIDGE_API_KEY`, `OPENAI_MODEL_ID`, the upstream defaults and the retry count. */
  datatype BridgeConfig = BridgeConfig(apiKey: string, modelId: string, upstream: UpstreamConfig, retryCount: Num)

  /**
   * The request body after `raw ? JSON.parse(raw) : {}`: a parse failure with
   * its message; the JSON `null`, from which reading `messages` throws a
   * `TypeError` whose message the engine chooses; or the parsed request (an
   * empty body, and any other value that is not an object, parse as a
   * request with no messages).
   */
  datatype Body = Unreadable(reason: string) | ParsedNull(typeError: string) | Parsed(req: ChatRequest)

  datatype HttpReply =
    | JsonCompletion(completion: Completion)
    | JsonError(envelope: ErrorEnvelope)
    | EventStreamReply(frames: seq<Frame>)

  /** The status written, the reply, and how many upstream sessions the request cost. */
  datatype Exchange = Exchange(status: int, reply: HttpReply, upstreamAttempts: nat)

  /** `requireBridgeAuth`: open when no key is configured, otherwise the bearer token must equal the key. */
  predicate BridgeAuthorized(apiKey: string, authorization: Option<string>) {
    apiKey == "" || BearerToken(authorization) == apiKey
  }

  function Unauthorized(): ErrorEnvelope {
    ErrorEnvelope(401, "Unauthorized", "invalid_request_error", NoDetails)
  }

  /** The `TypeError` of `reqBody.messages` on null: no status, no code, no payload. */
  function NullBodyError(typeError: string): BridgeError {
    BridgeError(typeError, None, NoCode, NoDetails)
  }

  function RetryCountOk(cfg: BridgeConfig, outcomes: seq<AttemptOutcome>): bool {
    !cfg.retryCount.PosInf? && MaxAttempts(cfg.retryCount) <= |outcomes|
  }

  /**
   * `handleChatCompletions`. Nothing reaches upstream before authentication
   * and parsing succeed; a stream is written only for a completed run; a
   * failed run is reported through the error envelope.
   */
  function HandleChatCompletions(cfg: BridgeConfig, authorization: Option<string>, body: Body,
                                 outcomes: seq<AttemptOutcome>, uuid: string, nowMs: int): (x: Exchange)
    requires RetryCountOk(cfg, outcomes)
    ensures !BridgeAuthorized(cfg.apiKey, authorization) ==> x == Exchange(401, JsonError(Unauthorized()), 0)
    ensures BridgeAuthorized(cfg.apiKey, authorization) && body.Unreadable? ==>
              x == Exchange(400, JsonError(ErrorEnvelope(400, body.reason, "invalid_request_error", NoDetails)), 0)
    ensures BridgeAuthorized(cfg.apiKey, authorization) && body.ParsedNull? ==>
              x == Exchange(500, JsonError(EnvelopeOf(NullBodyError(body.typeError))), 0)
    ensures x.reply.JsonError? ==> x.status == x.reply.envelope.status
                                   && (x.reply.envelope.kind == "server_error" <==> x.status >= 500)
    ensures !x.reply.JsonError? ==>
              && x.status == 200 && BridgeAuthorized(cfg.apiKey, authorization) && body.Parsed?
              && CreateAndPromptWithRetry(cfg.upstream, cfg.retryCount, body.req, outcomes).Completed?
    ensures x.reply.EventStreamReply? ==> body.Parsed? && body.req.stream
    ensures x.reply.JsonCompletion? ==> body.Parsed? && !body.req.stream
    ensures BridgeAuthorized(cfg.apiKey, authorization) && body.Parsed? ==>
              var r := CreateAndPromptWithRetry(cfg.upstream, cfg.retryCount, body.req, outcomes);
              && x.upstreamAttempts == UpstreamAttempts(cfg.upstream, body.req, r)
              && (r.GaveUp? ==> x.reply == JsonError(EnvelopeOf(r.error)))
              && (r.Completed? && body.req.stream ==>
                    x.reply == EventStreamReply(StreamFrames(body.req.model, cfg.modelId, r.content, uuid, nowMs)))
              && (r.Completed? && !body.req.stream ==>
                    x.reply == JsonCompletion(ToCompletion(body.req.model, cfg.modelId, r.content, r.usage, uuid, nowMs)))
  {
    if !BridgeAuthorized(cfg.apiKey, authorization) then Exchange(401, JsonError(Unauthorized()), 0)
    else match body
      case Unreadable(reason) =>
        Exchange(400, JsonError(ErrorEnvelope(400, reason, "invalid_request_error", NoDetails)), 0)
      case ParsedNull(typeError) =>
        var env := EnvelopeOf(NullBodyError(typeError));
        Exchange(env.status, JsonError(env), 0)
      case Parsed(req) =>
        var r := CreateAndPromptWithRetry(cfg.upstream, cfg.retryCount, req, outcomes);
        var spent := UpstreamAttempts(cfg.upstream, req, r);
        match r
        case GaveUp(e, _) =>
          var env := EnvelopeOf(e);
          Exchange(env.status, JsonError(env), spent)
        case Completed(content, usage, _) =>
          if req.stream then Exchange(200, EventStreamReply(StreamFrames(req.model, cfg.modelId, content, uuid, nowMs)), spent)
          else Exchange(200, JsonCompletion(ToCompletion(req.model, cfg.modelId, content, usage, uuid, nowMs)), spent)
  }

  /** With a key configured, a header "Bearer " + credentials passes exactly when the trimmed credentials equal the key. */
  lemma BearerCredentialsAuthorize(apiKey: string, credentials: string)
    requires apiKey != ""
    ensures BridgeAuthorized(apiKey, Some("Bearer " + credentials)) <==> Trim(credentials) == apiKey
  {
    BearerOfScheme(credentials);
  }

  /** With a key configured, a missing header or one without the exact "Bearer " prefix is refused. */
  lemma SchemeRequired(apiKey: string, authorization: Option<string>)
    requires apiKey != ""
    requires authorization.None? || !StartsWith(authorization.value, "Bearer ")
    ensures !BridgeAuthorized(apiKey, authorization)
  {
  }

  /** A configured key with surrounding whitespace can never be matched, since tokens are trimmed. */
  lemma UntrimmedKeyLocksOut(apiKey: string, authorization: Option<string>)
    requires apiKey != "" && !IsTrimmed(apiKey)
    ensures !BridgeAuthorized(apiKey, authorization)
  {
  }

  /**
   * The header the bridge sends upstream in bearer mode is accepted by a
   * bridge whose key is that password, when the password has no surrounding
   * whitespace.
   */
  lemma OwnBearerHeaderAccepted(password: string, username: string, base64: string -> string)
    requires password != "" && IsTrimmed(password)
    ensures BridgeAuthorized(password, AuthHeader("bearer", username, password, base64))
  {
    BearerOfScheme(password);
    TrimTrimmed(password);
  }

  /** An authorised empty body is a 400 "messages is required" and costs no upstream session. */
  lemma EmptyBodyRejected(cfg: BridgeConfig, authorization: Option<string>, outcomes: seq<AttemptOutcome>,
                          uuid: string, nowMs: int)
    requires RetryCountOk(cfg, outcomes)
    requires BridgeAuthorized(cfg.apiKey, authorization)
    ensures HandleChatCompletions(cfg, authorization, Parsed(ChatRequest(None, [], false)), outcomes, uuid, nowMs)
            == Exchange(400, JsonError(ErrorEnvelope(400, "messages is required", "invalid_request_error", NoDetails)), 0)
  {
    ValidationFailsOnce(cfg.upstream, cfg.retryCount, ChatRequest(None, [], false), outcomes);
  }

  /**
   * An authorised body of `null` is a 500 server error carrying the
   * `TypeError`'s message, not the 400 an empty body gets. The error has no
   * status, so it is not retried, and no upstream session is opened.
   */
  lemma NullBodyIsServerError(cfg: BridgeConfig, authorization: Option<string>, typeError: string,
                              outcomes: seq<AttemptOutcome>, uuid: string, nowMs: int)
    requires RetryCountOk(cfg, outcomes)
    requires BridgeAuthorized(cfg.apiKey, authorization) && typeError != ""
    ensures !Retryable(NullBodyError(typeError))
    ensures HandleChatCompletions(cfg, authorization, ParsedNull(typeError), outcomes, uuid, nowMs)
            == Exchange(500, JsonError(ErrorEnvelope(500, typeError, "server_error", NoDetails)), 0)
  {
  }

  /** A completed run carries visible text that came from one of the upstream replies. */
  lemma CompletedIsVisible(cfg: UpstreamConfig, retryCount: Num, req: ChatRequest, outcomes: seq<AttemptOutcome>)
    requires !retryCount.PosInf? && MaxAttempts(retryCount) <= |outcomes|
    ensures var r := CreateAndPromptWithRetry(cfg, retryCount, req, outcomes);
            r.Completed? ==> Trim(r.content) != "" && outcomes[r.attempts - 1].Replied?
                             && r.content == ConcatTextParts(outcomes[r.attempts - 1].reply.parts)
  {
    var r := CreateAndPromptWithRetry(cfg, retryCount, req, outcomes);
    if r.Completed? {
      var attempts := AttemptsFor(PrepareMessage(cfg, req), outcomes);
      assert attempts[r.attempts - 1] == AttemptResult(PrepareMessage(cfg, req), outcomes[r.attempts - 1]);
    }
  }

  /**
   * A streamed reply carries visible text: a client that concatenates the
   * deltas gets non-blank content, and the stream ends with `[DONE]`.
   */
  lemma StreamedReplyIsVisible(cfg: BridgeConfig, authorization: Option<string>, body: Body,
                               outcomes: seq<AttemptOutcome>, uuid: string, nowMs: int)
    requires RetryCountOk(cfg, outcomes)
    ensures var x := HandleChatCompletions(cfg, authorization, body, outcomes, uuid, nowMs);
            x.reply.EventStreamReply? ==>
              Trim(Reassemble(x.reply.frames)) != "" && x.reply.frames[|x.reply.frames| - 1] == Done
  {
    var x := HandleChatCompletions(cfg, authorization, body, outcomes, uuid, nowMs);
    if x.reply.EventStreamReply? {
      CompletedIsVisible(cfg.upstream, cfg.retryCount, body.req, outcomes);
      var r := CreateAndPromptWithRetry(cfg.upstream, cfg.retryCount, body.req, outcomes);
      StreamMatchesCompletion(body.req.model, cfg.modelId, r.content, r.usage, uuid, nowMs);
    }
  }
}
