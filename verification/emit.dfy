/**
 * Shaping a successful answer as a chat-completion object or as an event
 * stream, and a failure as an error object (server.mjs, `toOpenAICompletion`,
 * `writeOpenAIStream` and the catch block of `handleChatCompletions`).
 * The identifier's random part and the clock are parameters; JSON
 * serialisation is a parameter of the wire-level stream.
 */
module Emit {
  import opened Wrappers
  import opened JsString
  import opened Upstream
  import opened HttpStatus

  datatype Choice = Choice(index: nat, role: string, content: string, finishReason: string)
  datatype Usage = Usage(promptTokens: int, completionTokens: int, totalTokens: int)
  datatype Completion = Completion(id: string, objectKind: string, created: int, model: string,
                                   choices: seq<Choice>, usage: Usage)

  datatype Delta = RoleDelta(role: string) | ContentDelta(content: string) | EmptyDelta

  /** One event of the stream: a chunk object, or the terminal `[DONE]` sentinel. */
  datatype Frame =
    | Chunk(id: string, objectKind: string, created: int, model: string, delta: Delta, finishReason: Option<string>)
    | Done

  /** The `{error: {message, type, details}}` reply and its status. */
  datatype ErrorEnvelope = ErrorEnvelope(status: int, message: string, kind: string, details: Details)

  /** `reqBody.model || OPENAI_MODEL_ID`. */
  function ResponseModel(requested: Option<string>, defaultModel: string): (m: string)
    ensures requested.Some? && requested.value != "" ==> m == requested.value
    ensures requested.None? || requested.value == "" ==> m == defaultModel
  {
    if requested.Some? && requested.value != "" then requested.value else defaultModel
  }

  /** `Math.floor(Date.now() / 1000)`: whole seconds of a millisecond clock. */
  function Seconds(nowMs: int): (s: int)
    ensures s * 1000 <= nowMs < s * 1000 + 1000
  {
    nowMs / 1000
  }

  function CompletionId(uuid: string): string {
    "chatcmpl-" + uuid
  }

  /** `usage?.field ?? 0`. */
  function TokenCount(count: Option<int>): int {
    count.GetOr(0)
  }

  /**
   * `toOpenAICompletion`: one assistant choice with the whole answer and
   * finish reason "stop"; usage copied from upstream, 0 when absent, with the
   * total equal to the sum.
   */
  function ToCompletion(requested: Option<string>, defaultModel: string, content: string,
                        usage: Option<Tokens>, uuid: string, nowMs: int): (c: Completion)
    ensures StartsWith(c.id, "chatcmpl-") && c.id[9..] == uuid
    ensures c.objectKind == "chat.completion"
    ensures c.created * 1000 <= nowMs < c.created * 1000 + 1000
    ensures c.model == ResponseModel(requested, defaultModel)
    ensures c.choices == [Choice(0, "assistant", content, "stop")]
    ensures c.usage.promptTokens == (if usage.Some? && usage.value.input.Some? then usage.value.input.value else 0)
    ensures c.usage.completionTokens == (if usage.Some? && usage.value.output.Some? then usage.value.output.value else 0)
    ensures c.usage.totalTokens == c.usage.promptTokens + c.usage.completionTokens
  {
    var input := if usage.Some? then TokenCount(usage.value.input) else 0;
    var output := if usage.Some? then TokenCount(usage.value.output) else 0;
    Completion(CompletionId(uuid), "chat.completion", Seconds(nowMs), ResponseModel(requested, defaultModel),
               [Choice(0, "assistant", content, "stop")], Usage(input, output, input + output))
  }

  /**
   * `writeOpenAIStream` as the list of events it writes: a role chunk, a
   * content chunk only for non-empty content, a stop chunk, then `[DONE]`;
   * every chunk carries the same id, timestamp and model.
   */
  function StreamFrames(requested: Option<string>, defaultModel: string, content: string,
                        uuid: string, nowMs: int): (fs: seq<Frame>)
    ensures |fs| == (if content == "" then 3 else 4)
    ensures fs[|fs| - 1] == Done
    ensures forall i :: 0 <= i < |fs| - 1 ==>
              && fs[i].Chunk? && fs[i].id == CompletionId(uuid) && fs[i].objectKind == "chat.completion.chunk"
              && fs[i].created == Seconds(nowMs) && fs[i].model == ResponseModel(requested, defaultModel)
    ensures fs[0].delta == RoleDelta("assistant") && fs[0].finishReason.None?
    ensures content != "" ==> fs[1].delta == ContentDelta(content) && fs[1].finishReason.None?
    ensures fs[|fs| - 2].delta == EmptyDelta && fs[|fs| - 2].finishReason == Some("stop")
  {
    var id := CompletionId(uuid);
    var created := Seconds(nowMs);
    var model := ResponseModel(requested, defaultModel);
    var opening := [Chunk(id, "chat.completion.chunk", created, model, RoleDelta("assistant"), None)];
    var body := if content != "" then [Chunk(id, "chat.completion.chunk", created, model, ContentDelta(content), None)] else [];
    opening + body + [Chunk(id, "chat.completion.chunk", created, model, EmptyDelta, Some("stop")), Done]
  }

  /** What a client reading the stream accumulates: the content deltas, concatenated in order. */
  function Reassemble(fs: seq<Frame>): string {
    if fs == [] then ""
    else (if fs[0].Chunk? && fs[0].delta.ContentDelta? then fs[0].delta.content else "") + Reassemble(fs[1..])
  }

  /** The finish reasons the client sees, one per chunk, in order. */
  function FinishReasons(fs: seq<Frame>): seq<Option<string>> {
    if fs == [] then []
    else (if fs[0].Chunk? then [fs[0].finishReason] else []) + FinishReasons(fs[1..])
  }

  /**
   * Streaming delivers the same answer as the single object: a client that
   * concatenates the deltas gets the whole content, sees "stop" exactly once,
   * on the last chunk, and sees the model and id the object would carry.
   */
  lemma StreamMatchesCompletion(requested: Option<string>, defaultModel: string, content: string,
                                usage: Option<Tokens>, uuid: string, nowMs: int)
    ensures var fs := StreamFrames(requested, defaultModel, content, uuid, nowMs);
            var c := ToCompletion(requested, defaultModel, content, usage, uuid, nowMs);
            && Reassemble(fs) == c.choices[0].content
            && FinishReasons(fs) == (if content == "" then [None, Some("stop")] else [None, None, Some("stop")])
            && fs[0].model == c.model && fs[0].id == c.id && fs[0].created == c.created
  {
    var fs := StreamFrames(requested, defaultModel, content, uuid, nowMs);
    if content == "" {
      assert Reassemble(fs[2..]) == "" && FinishReasons(fs[2..]) == [] by {
        assert fs[2..][1..] == [];
      }
      assert fs[1..][1..] == fs[2..];
      assert Reassemble(fs[1..]) == Reassemble(fs[2..]);
      assert FinishReasons(fs[1..]) == [Some("stop")] + FinishReasons(fs[2..]);
    } else {
      assert Reassemble(fs[3..]) == "" && FinishReasons(fs[3..]) == [] by {
        assert fs[3..][1..] == [];
      }
      assert fs[2..][1..] == fs[3..];
      assert fs[1..][1..] == fs[2..];
      assert Reassemble(fs[1..]) == content + Reassemble(fs[2..]);
      assert FinishReasons(fs[1..]) == [None] + FinishReasons(fs[2..]);
    }
  }

  /** The event-stream encoding of a list of payloads: each as a `data:` line ended by a blank line. */
  function EventStream(payloads: seq<string>): string {
    if payloads == [] then "" else "data: " + payloads[0] + "\n\n" + EventStream(payloads[1..])
  }

  /** The events a reader recovers from blocks separated by blank lines: the `data: ` fields. */
  function DataFields(blocks: seq<string>): seq<string> {
    if blocks == [] then []
    else (if StartsWith(blocks[0], "data: ") then [blocks[0][6..]] else []) + DataFields(blocks[1..])
  }

  /**
   * A reading of the event-stream format of the HTML Living Standard
   * (section 9.2, server-sent events) for single-line events: split at blank
   * lines, keep the data fields.
   */
  function ParseEventStream(s: string): seq<string> {
    DataFields(Split(s, "\n\n"))
  }

  function DataBlocks(payloads: seq<string>): (r: seq<string>)
    ensures |r| == |payloads|
    ensures forall i :: 0 <= i < |payloads| ==> r[i] == "data: " + payloads[i]
  {
    if payloads == [] then [] else ["data: " + payloads[0]] + DataBlocks(payloads[1..])
  }

  lemma {:induction false} EventStreamIsTerminated(payloads: seq<string>)
    ensures EventStream(payloads) == TerminateAll(DataBlocks(payloads), "\n\n")
    decreases |payloads|
  {
    if payloads != [] {
      EventStreamIsTerminated(payloads[1..]);
      assert DataBlocks(payloads)[1..] == DataBlocks(payloads[1..]);
    }
  }

  lemma {:induction false} DataFieldsOfBlocks(payloads: seq<string>)
    ensures DataFields(DataBlocks(payloads) + [""]) == payloads
    decreases |payloads|
  {
    if payloads == [] {
      assert !StartsWith("", "data: ");
    } else {
      var b := DataBlocks(payloads);
      assert (b + [""])[0] == "data: " + payloads[0];
      assert (b + [""])[1..] == DataBlocks(payloads[1..]) + [""];
      assert ("data: " + payloads[0])[..6] == "data: ";
      assert ("data: " + payloads[0])[6..] == payloads[0];
      DataFieldsOfBlocks(payloads[1..]);
    }
  }

  /** Payloads without line breaks are read back from the encoded stream exactly, in order. */
  lemma EventStreamRoundTrip(payloads: seq<string>)
    requires forall i :: 0 <= i < |payloads| ==> '\n' !in payloads[i]
    ensures ParseEventStream(EventStream(payloads)) == payloads
  {
    var blocks := DataBlocks(payloads) + [""];
    assert EventStream(payloads) == Join(blocks, "\n\n") by {
      EventStreamIsTerminated(payloads);
      ConcatWithTerminator(DataBlocks(payloads), "\n\n");
    }
    assert Split(Join(blocks, "\n\n"), "\n\n") == blocks by {
      BlocksSingleLine(payloads);
      SplitJoin(blocks, "\n\n");
    }
    DataFieldsOfBlocks(payloads);
  }

  lemma BlocksSingleLine(payloads: seq<string>)
    requires forall i :: 0 <= i < |payloads| ==> '\n' !in payloads[i]
    ensures forall k :: 0 <= k < |payloads| + 1 ==> "\n\n"[0] !in (DataBlocks(payloads) + [""])[k]
  {
    var blocks := DataBlocks(payloads) + [""];
    forall k | 0 <= k < |blocks| ensures '\n' !in blocks[k] {
      if k < |payloads| {
        assert blocks[k] == "data: " + payloads[k];
      }
    }
  }

  /** The text written for one event; chunks go through the JSON serialiser. */
  function FramePayload(f: Frame, serialize: Frame -> string): string {
    if f.Done? then "[DONE]" else serialize(f)
  }

  function FramePayloads(fs: seq<Frame>, serialize: Frame -> string): (r: seq<string>)
    ensures |r| == |fs|
    ensures forall i :: 0 <= i < |fs| ==> r[i] == FramePayload(fs[i], serialize)
  {
    if fs == [] then [] else [FramePayload(fs[0], serialize)] + FramePayloads(fs[1..], serialize)
  }

  /**
   * The bytes of the streamed reply. When the serialiser never emits a raw
   * line break (JSON text escapes them), a reader recovers one event per
   * frame, ending with the `[DONE]` sentinel.
   */
  lemma StreamWireRoundTrip(requested: Option<string>, defaultModel: string, content: string,
                            uuid: string, nowMs: int, serialize: Frame -> string)
    requires forall f :: '\n' !in serialize(f)
    ensures var fs := StreamFrames(requested, defaultModel, content, uuid, nowMs);
            var events := ParseEventStream(EventStream(FramePayloads(fs, serialize)));
            && events == FramePayloads(fs, serialize)
            && events[|events| - 1] == "[DONE]"
  {
    var fs := StreamFrames(requested, defaultModel, content, uuid, nowMs);
    var ps := FramePayloads(fs, serialize);
    forall i | 0 <= i < |ps| ensures '\n' !in ps[i] {
      assert ps[i] == FramePayload(fs[i], serialize);
    }
    EventStreamRoundTrip(ps);
  }

  /**
   * The catch block of `handleChatCompletions`: status from the error,
   * 500 when it has none; the type follows the status; the message defaults
   * to "Internal error"; the payload becomes `details`.
   */
  function EnvelopeOf(e: BridgeError): (env: ErrorEnvelope)
    ensures env.status != 0
    ensures env.status == StatusOr(e.status, 500)
    ensures env.kind == "server_error" <==> env.status >= 500
    ensures env.message != ""
    ensures e.message != "" ==> env.message == e.message
    ensures env.details == e.details
  {
    var status := StatusOr(e.status, 500);
    ErrorEnvelope(status, if e.message != "" then e.message else "Internal error", ErrorKind(status), e.details)
  }

  /**
   * The error taxonomy as the caller sees it: a timeout is a 504 server error,
   * an upstream status is mirrored, a failure without status is a 500, empty
   * text is a 502 carrying its diagnostics, and validation is a 400 client error.
   */
  lemma EnvelopeTaxonomy(o: AttemptOutcome, reply: Reply)
    requires !o.Replied?
    ensures o.TimedOut? ==> EnvelopeOf(OutcomeError(o)).status == 504
                            && EnvelopeOf(OutcomeError(o)).kind == "server_error"
    ensures o.HttpFailure? && o.httpStatus != 0 ==>
              EnvelopeOf(OutcomeError(o)).status == o.httpStatus
              && (EnvelopeOf(OutcomeError(o)).kind == "server_error" <==> o.httpStatus >= 500)
    ensures o.NetworkFailure? ==> EnvelopeOf(OutcomeError(o)).status == 500
                                  && EnvelopeOf(OutcomeError(o)).kind == "server_error"
    ensures EnvelopeOf(EmptyTextError(reply)).status == 502
            && EnvelopeOf(EmptyTextError(reply)).details.EmptyTextDiagnostics?
    ensures EnvelopeOf(MessagesRequired()).status == 400
            && EnvelopeOf(MessagesRequired()).kind == "invalid_request_error"
    ensures EnvelopeOf(NoUsableText()).status == 400
            && EnvelopeOf(NoUsableText()).kind == "invalid_request_error"
  {
  }
}
