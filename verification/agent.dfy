/**
 * Request admission and error replies of the host automation agent
 * (scripts/host-automation-agent.mjs, `requireAuth`, the method gate at the
 * top of `handleRequest`, and the server's catch handler).
 */
module Agent {
  import opened Wrappers
  import opened JsString
  import opened Bearer
  import opened Modes
  import opened HttpStatus

  /** A thrown error: message, `status` when set, and the `stderr` of a failed child process. */
  datatype AgentError = AgentError(message: string, status: Option<int>, stderr: Option<string>)

  /** The `{error: {message, type, details}}` reply and its status. */
  datatype AgentEnvelope = AgentEnvelope(status: int, message: string, kind: string, details: Option<string>)

  function BadRequest(message: string): AgentError {
    AgentError(message, Some(400), None)
  }

  /**
   * The catch handler: status from the error or 500, type from the status,
   * "Internal server error" for an empty message, and a non-empty stderr
   * as details.
   */
  function AgentEnvelopeOf(e: AgentError): (env: AgentEnvelope)
    ensures env.status != 0 && env.status == StatusOr(e.status, 500)
    ensures env.kind == "server_error" <==> env.status >= 500
    ensures env.message != "" && (e.message != "" ==> env.message == e.message)
    ensures env.details.Some? <==> e.stderr.Some? && e.stderr.value != ""
    ensures env.details.Some? ==> env.details == e.stderr
  {
    var status := StatusOr(e.status, 500);
    AgentEnvelope(status, if e.message != "" then e.message else "Internal server error", ErrorKind(status),
                  if e.stderr.Some? && e.stderr.value != "" then e.stderr else None)
  }

  /**
   * `requireAuth`: open without a configured token; otherwise either the
   * bearer token or the `token` query parameter must equal it.
   */
  predicate RequireAuth(token: string, authorization: Option<string>, queryToken: Option<string>) {
    token == "" || BearerToken(authorization) == token || queryToken.GetOr("") == token
  }

  datatype GateDecision = Admitted | Rejected(envelope: AgentEnvelope)

  function Unauthorized(): AgentEnvelope {
    AgentEnvelope(401, "Unauthorized", "invalid_request_error", None)
  }

  /**
   * Authentication, then the method gate: anything but GET is refused
   * with 405 unless it is a POST and the mode allows browser writes.
   */
  function Gate(token: string, mode: string, authorization: Option<string>, queryToken: Option<string>,
                verb: string): (g: GateDecision)
    ensures !RequireAuth(token, authorization, queryToken) ==> g == Rejected(Unauthorized())
    ensures g.Rejected? && RequireAuth(token, authorization, queryToken) ==>
              && g.envelope.status == 405 && g.envelope.kind == "invalid_request_error"
              && g.envelope.message == (if CanBrowserWrite(mode) then "Method not allowed"
                                        else "Only GET is enabled in read-only mode")
    ensures g.Admitted? ==> RequireAuth(token, authorization, queryToken)
  {
    if !RequireAuth(token, authorization, queryToken) then Rejected(Unauthorized())
    else if verb != "GET" && !(CanBrowserWrite(mode) && verb == "POST") then
      Rejected(AgentEnvelope(405, if CanBrowserWrite(mode) then "Method not allowed" else "Only GET is enabled in read-only mode",
                             "invalid_request_error", None))
    else Admitted
  }

  /** With a token configured, a request passes exactly when its bearer token or its query token equals it. */
  lemma RequireAuthIff(token: string, authorization: Option<string>, queryToken: Option<string>)
    requires token != ""
    ensures RequireAuth(token, authorization, queryToken) <==> BearerToken(authorization) == token || queryToken == Some(token)
  {
  }

  /** A header "Bearer " + credentials passes when the trimmed credentials are the token, whatever the query says. */
  lemma BearerCredentialsAdmit(token: string, credentials: string, queryToken: Option<string>)
    requires Trim(credentials) == token
    ensures RequireAuth(token, Some("Bearer " + credentials), queryToken)
  {
    BearerOfScheme(credentials);
  }

  /**
   * An authenticated request is admitted exactly when it is a GET, or a
   * POST in one of the three write modes.
   */
  lemma GateAdmitsIff(token: string, mode: string, authorization: Option<string>, queryToken: Option<string>,
                      verb: string)
    requires RequireAuth(token, authorization, queryToken)
    ensures Gate(token, mode, authorization, queryToken, verb).Admitted? <==>
              verb == "GET"
              || (verb == "POST" && (mode == "browser-write" || mode == "desktop-write" || mode == "system-write"))
  {
    CanBrowserWriteIff(mode);
  }

  /** Raising the mode never turns an admitted request away. */
  lemma GateMonotone(token: string, weaker: string, stronger: string, authorization: Option<string>,
                     queryToken: Option<string>, verb: string)
    requires Level(weaker) <= Level(stronger)
    ensures Gate(token, weaker, authorization, queryToken, verb).Admitted? ==>
              Gate(token, stronger, authorization, queryToken, verb).Admitted?
  {
  }

  /** In read-only mode, or under an unknown mode name, a POST is refused with the read-only message. */
  lemma ReadOnlyRefusesPost(token: string, mode: string, authorization: Option<string>, queryToken: Option<string>)
    requires RequireAuth(token, authorization, queryToken)
    requires mode !in Named[1..]
    ensures Gate(token, mode, authorization, queryToken, "POST")
            == Rejected(AgentEnvelope(405, "Only GET is enabled in read-only mode", "invalid_request_error", None))
  {
    assert Named[1..] == ["browser-write", "desktop-write", "system-write"];
  }
}
