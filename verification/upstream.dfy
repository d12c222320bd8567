/**
 * The bridge's side of one upstream attempt (server.mjs): request
 * validation and the send-message body built by `createAndPromptOpencode`,
 * the credential header of `opencodeHeaders`, the errors `opencodeFetch`
 * raises, and the decoding of a reply by `extractAssistantText` and
 * `summarizePartTypes`. The network calls themselves are abstract outcomes.
 */
module Upstream {
  import opened Wrappers
  import opened JsString
  import opened JsNumber
  import opened Translate
  import opened ModelResolve

  /** A part of a session message: string-valued `type` and `text`, `None` when absent or not a string. */
  datatype Part = NonObjectPart | Part(kind: Option<string>, text: Option<string>)

  /** `info.tokens` of a reply; counts that are absent or null are `None`. */
  datatype Tokens = Tokens(input: Option<int>, output: Option<int>)

  /** A send-message reply. A `parts` field that is missing or not an array is the empty list. */
  datatype Reply = Reply(parts: seq<Part>, tokens: Option<Tokens>, finish: Option<string>)

  /** The parsed chat-completion request body. A missing or non-array `messages` is the empty list. */
  datatype ChatRequest = ChatRequest(model: Option<string>, messages: seq<Message>, stream: bool)

  /** The send-message request body: one text part, and `model`, `agent`, `system` only when present. */
  datatype MessageBody = MessageBody(parts: seq<Part>, model: Option<ModelRef>, agent: Option<string>, system: Option<string>)

  /** The configuration one attempt reads. */
  datatype UpstreamConfig = UpstreamConfig(resolver: Resolver, defaultAgent: string, defaultSystem: string)

  datatype ErrorCode = NoCode | OpencodeTimeout | EmptyAssistantText

  /** The `payload` of an error: the raw upstream body, or the empty-text diagnostics. */
  datatype Details = NoDetails | UpstreamPayload(body: string) | EmptyTextDiagnostics(finish: Option<string>, partTypes: seq<string>)

  /** A thrown `Error`: message, `status` (absent when `None`), `code` and `payload`. */
  datatype BridgeError = BridgeError(message: string, status: Option<int>, code: ErrorCode, details: Details)

  /**
   * What the two upstream calls of one attempt (create session, then send
   * the message) come to: a reply, a deadline abort, a non-2xx response, or a
   * failure of `fetch` itself.
   */
  datatype AttemptOutcome =
    | Replied(reply: Reply)
    | TimedOut(timeoutMs: nat)
    | HttpFailure(httpStatus: nat, upstreamMessage: Option<string>, body: string)
    | NetworkFailure(reason: string)

  predicate IsTextPart(p: Part) {
    p.Part? && p.kind == Some("text") && p.text.Some?
  }

  /** `.filter(is text part).map(p => p.text)`. */
  function TextPartTexts(parts: seq<Part>): (r: seq<string>)
    ensures |r| <= |parts|
  {
    if parts == [] then []
    else (if IsTextPart(parts[0]) then [parts[0].text.value] else []) + TextPartTexts(parts[1..])
  }

  /** The reference reading: the texts of the text parts, concatenated in order. */
  function ConcatTextParts(parts: seq<Part>): string {
    if parts == [] then ""
    else (if IsTextPart(parts[0]) then parts[0].text.value else "") + ConcatTextParts(parts[1..])
  }

  lemma {:induction false} JoinEmptySeparator(xs: seq<string>)
    ensures |xs| > 0 ==> Join(xs, "") == xs[0] + Join(xs[1..], "")
  {
    if |xs| == 1 {
      assert xs[1..] == [];
    }
  }

  lemma {:induction false} TextPartTextsJoin(parts: seq<Part>)
    ensures Join(TextPartTexts(parts), "") == ConcatTextParts(parts)
    decreases |parts|
  {
    if parts != [] {
      TextPartTextsJoin(parts[1..]);
      var rest := TextPartTexts(parts[1..]);
      if IsTextPart(parts[0]) {
        JoinEmptySeparator([parts[0].text.value] + rest);
        assert ([parts[0].text.value] + rest)[1..] == rest;
      } else {
        assert TextPartTexts(parts) == rest;
      }
    }
  }

  /** `extractAssistantText`: the filtered texts are joined with the empty separator. */
  function ExtractAssistantText(parts: seq<Part>): (r: string)
    ensures r == ConcatTextParts(parts)
  {
    TextPartTextsJoin(parts);
    Join(TextPartTexts(parts), "")
  }

  /** Extraction distributes over concatenation of part lists: no separator, order kept. */
  lemma ExtractAppend(a: seq<Part>, b: seq<Part>)
    ensures ExtractAssistantText(a + b) == ExtractAssistantText(a) + ExtractAssistantText(b)
  {
    ConcatTextPartsAppend(a, b);
  }

  lemma {:induction false} ConcatTextPartsAppend(a: seq<Part>, b: seq<Part>)
    ensures ConcatTextParts(a + b) == ConcatTextParts(a) + ConcatTextParts(b)
    decreases |a|
  {
    if a == [] {
      assert a + b == b;
    } else {
      assert (a + b)[0] == a[0];
      assert (a + b)[1..] == a[1..] + b;
      ConcatTextPartsAppend(a[1..], b);
    }
  }

  /** Parts that are not text parts contribute nothing. */
  lemma {:induction false} ExtractIgnoresNonText(parts: seq<Part>)
    requires forall k :: 0 <= k < |parts| ==> !IsTextPart(parts[k])
    ensures ExtractAssistantText(parts) == ""
    decreases |parts|
  {
    if parts != [] {
      ExtractIgnoresNonText(parts[1..]);
    }
  }

  /** The type reported for one part: its non-empty type, or "unknown". */
  function PartType(p: Part): string {
    if p.Part? && p.kind.Some? && p.kind.value != "" then p.kind.value else "unknown"
  }

  function PartTypes(parts: seq<Part>): (r: seq<string>)
    ensures |r| == |parts|
    ensures forall i :: 0 <= i < |parts| ==> r[i] == PartType(parts[i])
  {
    if parts == [] then [] else [PartType(parts[0])] + PartTypes(parts[1..])
  }

  /** `summarizePartTypes`: one non-empty entry per part, in order; the final filter removes nothing. */
  function SummarizePartTypes(parts: seq<Part>): (r: seq<string>)
    ensures |r| == |parts|
    ensures forall i :: 0 <= i < |parts| ==> r[i] == PartType(parts[i]) && r[i] != ""
  {
    KeepNonEmptyIdentity(PartTypes(parts));
    KeepNonEmpty(PartTypes(parts))
  }

  /** `[DEFAULT_SYSTEM, system].filter(Boolean).join("\n\n")`, set only when either is non-empty. */
  function ComposeSystem(defaultSystem: string, system: string): (r: Option<string>)
    ensures r.Some? <==> (defaultSystem != "" || system != "")
    ensures defaultSystem != "" && system != "" ==> r == Some(defaultSystem + "\n\n" + system)
    ensures defaultSystem == "" && system != "" ==> r == Some(system)
    ensures defaultSystem != "" && system == "" ==> r == Some(defaultSystem)
  {
    if defaultSystem != "" || system != "" then
      var kept := KeepNonEmpty([defaultSystem, system]);
      assert [defaultSystem, system][1..] == [system];
      assert KeepNonEmpty([system]) == (if system == "" then [] else [system]);
      assert Join([defaultSystem, system], "\n\n") == defaultSystem + "\n\n" + Join([system], "\n\n");
      Some(Join(kept, "\n\n"))
    else None
  }

  function MessagesRequired(): BridgeError {
    BridgeError("messages is required", Some(400), NoCode, NoDetails)
  }

  function NoUsableText(): BridgeError {
    BridgeError("No usable text found in messages", Some(400), NoCode, NoDetails)
  }

  predicate HasPromptMessage(msgs: seq<Message>) {
    exists k :: 0 <= k < |msgs| && IsPromptMessage(msgs[k])
  }

  /**
   * The part of `createAndPromptOpencode` before any network call: reject an
   * empty message list, reject a prompt without visible text, and otherwise
   * build the send-message body.
   */
  function PrepareMessage(cfg: UpstreamConfig, req: ChatRequest): (r: Result<MessageBody, BridgeError>)
    ensures |req.messages| == 0 ==> r == Failure(MessagesRequired())
    ensures |req.messages| > 0 && !HasPromptMessage(req.messages) ==> r == Failure(NoUsableText())
    ensures r.Success? <==> |req.messages| > 0 && HasPromptMessage(req.messages)
    ensures r.Success? ==>
              var p := BuildPrompt(req.messages);
              && r.value.parts == [Part(Some("text"), Some(p.prompt))]
              && Trim(p.prompt) != ""
              && r.value.model == ResolveModel(cfg.resolver, req.model)
              && r.value.system == ComposeSystem(cfg.defaultSystem, p.system)
              && (r.value.agent.Some? <==> cfg.defaultAgent != "")
  {
    if |req.messages| == 0 then Failure(MessagesRequired())
    else
      var resolved := ResolveModel(cfg.resolver, req.model);
      var p := BuildPrompt(req.messages);
      if Trim(p.prompt) == "" then Failure(NoUsableText())
      else
        var agent := if cfg.defaultAgent != "" then Some(cfg.defaultAgent) else None;
        Success(MessageBody([Part(Some("text"), Some(p.prompt))], resolved, agent, ComposeSystem(cfg.defaultSystem, p.system)))
  }

  /** JSON's insignificant whitespace: space, tab, line feed and carriage return. */
  predicate IsJsonSpace(c: char) {
    c == ' ' || c == '\t' || c == '\n' || c == '\r'
  }

  function JsonTrimStart(s: string): (r: string)
    ensures |r| <= |s| && r == s[|s| - |r|..]
    ensures r == [] || !IsJsonSpace(r[0])
    ensures |s| > 0 && !IsJsonSpace(s[0]) ==> r == s
  {
    if |s| > 0 && IsJsonSpace(s[0]) then JsonTrimStart(s[1..]) else s
  }

  function JsonTrimEnd(s: string): (r: string)
    ensures |r| <= |s| && r == s[..|r|]
    ensures r == [] || !IsJsonSpace(r[|r| - 1])
    ensures forall k :: |r| <= k < |s| ==> IsJsonSpace(s[k])
  {
    if |s| > 0 && IsJsonSpace(s[|s| - 1]) then JsonTrimEnd(s[..|s| - 1]) else s
  }

  /** The text `JSON.parse` reads a value from: JSON whitespace dropped at both ends. */
  function JsonTrim(s: string): (r: string)
    ensures r == [] || (!IsJsonSpace(r[0]) && !IsJsonSpace(r[|r| - 1]))
  {
    JsonTrimStart(JsonTrimEnd(s))
  }

  /** An exponent part of a JSON number: `e` or `E`, an optional sign, then digits. */
  predicate IsJsonExponent(v: string) {
    && |v| >= 2 && (v[0] == 'e' || v[0] == 'E')
    && var w := if v[1] == '+' || v[1] == '-' then v[2..] else v[1..];
       w != [] && AllDigits(w)
  }

  /** One or more zero digits, then an optional exponent. */
  predicate ZeroDigitsThenExponent(v: string) {
    && |v| > 0 && v[0] == '0'
    && (v[1..] == [] || IsJsonExponent(v[1..]) || ZeroDigitsThenExponent(v[1..]))
  }

  /** A JSON number literal whose value is zero: `-0`, `0.000`, `0e7` and the like. */
  predicate IsZeroJsonNumber(t: string) {
    var u := if |t| > 0 && t[0] == '-' then t[1..] else t;
    && |u| > 0 && u[0] == '0'
    && var v := u[1..];
       v == [] || IsJsonExponent(v) || (v[0] == '.' && ZeroDigitsThenExponent(v[1..]))
  }

  /**
   * `parseResponseBody(text)` is falsy: the empty text gives null, and so do
   * the JSON texts of null, false, the empty string and zero. Any other text
   * parses to a truthy value, or fails to parse and is kept as the text.
   */
  predicate PayloadFalsy(body: string) {
    var t := JsonTrim(body);
    body == "" || t == "null" || t == "false" || t == "\"\"" || IsZeroJsonNumber(t)
  }

  /**
   * The error `opencodeFetch` throws for an outcome that is not a reply. The
   * payload is kept as `details` only when it is truthy, as `error.payload ||
   * undefined` does.
   */
  function OutcomeError(o: AttemptOutcome): (e: BridgeError)
    requires !o.Replied?
    ensures o.HttpFailure? ==> (e.details == NoDetails <==> PayloadFalsy(o.body))
    ensures o.HttpFailure? && !PayloadFalsy(o.body) ==> e.details == UpstreamPayload(o.body)
    ensures !o.HttpFailure? ==> e.details == NoDetails
  {
    match o
    case TimedOut(ms) =>
      BridgeError("opencode timeout after " + Decimal(ms) + "ms", Some(504), OpencodeTimeout, NoDetails)
    case HttpFailure(status, upstreamMessage, body) =>
      var message := if upstreamMessage.Some? && upstreamMessage.value != "" then upstreamMessage.value
                     else "opencode error " + Decimal(status);
      BridgeError(message, Some(status), NoCode, if PayloadFalsy(body) then NoDetails else UpstreamPayload(body))
    case NetworkFailure(reason) =>
      BridgeError(reason, None, NoCode, NoDetails)
  }

  predicate AllJsonSpace(s: string) {
    forall k :: 0 <= k < |s| ==> IsJsonSpace(s[k])
  }

  lemma {:induction false} JsonTrimEndPadded(x: string, trail: string)
    requires |x| > 0 && !IsJsonSpace(x[|x| - 1]) && AllJsonSpace(trail)
    ensures JsonTrimEnd(x + trail) == x
    decreases |trail|
  {
    if trail != [] {
      var y := x + trail;
      assert y[..|y| - 1] == x + trail[..|trail| - 1];
      assert IsJsonSpace(y[|y| - 1]) by { assert y[|y| - 1] == trail[|trail| - 1]; }
      JsonTrimEndPadded(x, trail[..|trail| - 1]);
    } else {
      assert x + trail == x;
    }
  }

  lemma {:induction false} JsonTrimStartPadded(lead: string, y: string)
    requires |y| > 0 && !IsJsonSpace(y[0]) && AllJsonSpace(lead)
    ensures JsonTrimStart(lead + y) == y
    decreases |lead|
  {
    if lead != [] {
      assert (lead + y)[1..] == lead[1..] + y;
      assert IsJsonSpace((lead + y)[0]) by { assert (lead + y)[0] == lead[0]; }
      JsonTrimStartPadded(lead[1..], y);
    } else {
      assert lead + y == y;
    }
  }

  /** JSON whitespace around a value is what `JsonTrim` removes, and nothing more. */
  lemma JsonTrimPadded(lead: string, t: string, trail: string)
    requires |t| > 0 && !IsJsonSpace(t[0]) && !IsJsonSpace(t[|t| - 1])
    requires AllJsonSpace(lead) && AllJsonSpace(trail)
    ensures JsonTrim(lead + t + trail) == t
  {
    JsonTrimEndPadded(lead + t, trail);
    JsonTrimStartPadded(lead, t);
  }

  lemma {:induction false} ZeroDigitsEndInDigit(v: string)
    requires ZeroDigitsThenExponent(v)
    ensures IsDigit(v[|v| - 1])
    decreases |v|
  {
    var rest := v[1..];
    if rest == [] {
    } else if IsJsonExponent(rest) {
      assert v[|v| - 1] == rest[|rest| - 1];
    } else {
      ZeroDigitsEndInDigit(rest);
      assert v[|v| - 1] == rest[|rest| - 1];
    }
  }

  /** A zero number literal ends in a digit, so surrounding whitespace cannot eat into it. */
  lemma ZeroNumberEndsInDigit(t: string)
    requires IsZeroJsonNumber(t)
    ensures |t| > 0 && IsDigit(t[|t| - 1])
  {
    var u := if t[0] == '-' then t[1..] else t;
    var v := u[1..];
    assert t[|t| - 1] == u[|u| - 1];
    if v != [] {
      assert u[|u| - 1] == v[|v| - 1];
      if !IsJsonExponent(v) {
        ZeroDigitsEndInDigit(v[1..]);
        assert v[|v| - 1] == v[1..][|v[1..]| - 1];
      }
    }
  }

  /**
   * An error body whose JSON value is falsy (`null`, `false`, `""` or a zero
   * number, with any JSON whitespace around it) carries no details.
   */
  lemma FalsyPayloadDropped(status: nat, message: Option<string>, lead: string, value: string, trail: string)
    requires value == "null" || value == "false" || value == "\"\"" || IsZeroJsonNumber(value)
    requires AllJsonSpace(lead) && AllJsonSpace(trail)
    ensures OutcomeError(HttpFailure(status, message, lead + value + trail)).details == NoDetails
  {
    if IsZeroJsonNumber(value) {
      ZeroNumberEndsInDigit(value);
    }
    JsonTrimPadded(lead, value, trail);
  }

  /** Zero in any of JSON's spellings is recognised; text that is not a JSON number is not. */
  lemma ZeroNumberForms()
    ensures IsZeroJsonNumber("0") && IsZeroJsonNumber("-0.00e+5")
    ensures !IsZeroJsonNumber("00") && !IsZeroJsonNumber("0.") && !IsZeroJsonNumber("0e")
  {
    var v := "-0.00e+5"[1..][1..];
    assert v == ".00e+5" && v[1..] == "00e+5" && v[1..][1..] == "0e+5" && v[1..][1..][1..] == "e+5";
    assert IsJsonExponent("e+5") by { assert "e+5"[2..] == "5"; }
    assert "00"[1..] == "0" && "0."[1..] == "." && "0e"[1..] == "e";
  }

  /** An error body holding a JSON object, or any text starting with `{`, is passed on as details. */
  lemma ObjectPayloadKept(status: nat, message: Option<string>, body: string)
    requires |body| > 0 && body[0] == '{'
    ensures OutcomeError(HttpFailure(status, message, body)).details == UpstreamPayload(body)
  {
    var a := JsonTrimEnd(body);
    assert |a| > 0 && a[0] == '{';
    assert JsonTrim(body) == a;
  }

  /** The error raised when a reply carries no visible assistant text. */
  function EmptyTextError(reply: Reply): BridgeError {
    var finish := if reply.finish.Some? && reply.finish.value != "" then reply.finish else None;
    BridgeError("Model returned no assistant text", Some(502), EmptyAssistantText,
                EmptyTextDiagnostics(finish, SummarizePartTypes(reply.parts)))
  }

  /**
   * The credential header of `opencodeHeaders`: none without a password,
   * `Bearer <password>` or `Basic <base64(user:password)>` by mode, none for
   * any other mode. `base64` stands for the encoding, which is not modelled.
   */
  function AuthHeader(mode: string, username: string, password: string, base64: string -> string): (r: Option<string>)
    ensures r.Some? <==> password != "" && (mode == "bearer" || mode == "basic")
    ensures r.Some? && mode == "bearer" ==> r.value == "Bearer " + password
    ensures r.Some? && mode == "basic" ==> r.value == "Basic " + base64(username + ":" + password)
  {
    if password == "" then None
    else if mode == "bearer" then Some("Bearer " + password)
    else if mode == "basic" then Some("Basic " + base64(username + ":" + password))
    else None
  }
}
