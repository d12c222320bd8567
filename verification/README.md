# A verified model of the OpenClaw–opencode completion bridge

This project models two programs in Dafny.

The first is the completion bridge in `server.mjs`. It accepts OpenAI-style
`/v1/chat/completions` requests and answers them by asking an opencode
server. The model covers every decision the bridge makes:

- checking the caller's bearer token;
- turning chat messages into one prompt plus system text;
- resolving the requested model to a provider and model pair;
- validating the request and composing the send-message body;
- the credential header sent upstream;
- classifying upstream failures and the retry loop over attempts;
- extracting the assistant text from the reply;
- shaping the JSON completion or the Server-Sent Events stream;
- the error envelope.

The second is the set of pure helpers in `scripts/host-automation-agent.mjs`:
token admission, the permission-mode lattice and the method gate, the
AppleScript string encoder, the CSV splitter, the `|||` tab-line parser,
browser choice and index validation for `selectBrowserTab`, and the error
envelope of its request handler.

Everything is pure functions over immutable datatypes. Each upstream call,
each osascript run, the clock and the UUID source become parameters, so an
attempt is an abstract `AttemptOutcome` and a script run is a `ScriptOutcome`.
JavaScript behaviour the code relies on is modelled explicitly:

- `String.prototype.split` keeps every piece. `split("/")` followed by a
  rest-join gives `{a, "b/c"}` for `"a/b/c"`.
- `trim` removes a fixed whitespace set.
- `toUpperCase` is ASCII upper-casing.
- `Number(...)` yields NaN, infinities and finite values (`JsNumber.Num`),
  and comparisons with NaN are false. Finite values are exact reals, not
  rounded doubles. Digit text, with an optional sign, reads as its value,
  or as an infinity once that value passes the largest double, and so does
  the word `Infinity`.

Module layout (one file each):

- `wrappers`, `js_string`, `js_number`: Option/Result and the JavaScript
  string and number behaviour.
- `translate`, `model_resolve`, `upstream`, `retry`, `http_status`, `bearer`,
  `emit`, `bridge`: the bridge.
- `modes`, `agent`, `applescript`, `csv`, `tabs`, `browser`: the host agent.

## Model

| member | source | states |
|---|---|---|
| JsString.Trim | server.mjs:79 | the result has no leading or trailing whitespace and is no longer than the input |
| JsString.TrimIsSlice | server.mjs:79 | the trimmed string is a contiguous slice of the input with only whitespace cut from both ends |
| JsString.TrimIdempotent | scripts/host-automation-agent.mjs:167 | trimming twice equals trimming once |
| JsString.TrimEmptyIff | server.mjs:326 | a string trims to empty exactly when it consists of whitespace only |
| JsString.IndexOf | server.mjs:218-219 | the first occurrence of the separator: it occurs there and at no earlier index, and None means it does not occur |
| JsString.Split | server.mjs:219 | split always yields at least one piece and no piece contains the separator |
| JsString.JoinSplit | server.mjs:219-221 | joining the pieces of a split with the same separator rebuilds the original string |
| JsString.SplitJoin | scripts/host-automation-agent.mjs:164-170 | splitting a join gives the items back when no item holds the separator's first character |
| JsString.SplitJoinOneChar | scripts/host-automation-agent.mjs:167 | for a one-character separator, splitting a join gives the items back whenever no item contains the separator |
| JsString.SplitAtFirst | server.mjs:219 | when the first occurrence of the separator is the one after `a`, splitting `a + sep + b` yields `a` followed by the pieces of `b` |
| JsString.SplitOneCharAppend | scripts/host-automation-agent.mjs:167 | splitting on one character distributes over text joined at that character: the pieces of the left part, then those of the right |
| JsString.KeepNonEmpty | scripts/host-automation-agent.mjs:169 | `filter(Boolean)` keeps only non-empty items drawn from the input, never more of them |
| JsString.KeepNonEmptyAppend | scripts/host-automation-agent.mjs:169 | filtering a concatenation filters each part and keeps their order |
| JsString.KeepNonEmptySingle | scripts/host-automation-agent.mjs:169 | a single item survives the filter exactly when it is non-empty |
| JsString.TrimEach | scripts/host-automation-agent.mjs:168 | mapping `trim` keeps the length and leaves every item trimmed |
| JsString.TrimEachAppend | scripts/host-automation-agent.mjs:168 | mapping `trim` over a concatenation maps each part |
| JsString.ToUpperAscii | server.mjs:204 | upper-casing keeps the length and maps each character independently |
| JsNumber.Decimal | scripts/host-automation-agent.mjs:519-520 | the decimal text of a natural number is non-empty, all digits, and has no leading zero |
| JsNumber.StringToNumber | scripts/host-automation-agent.mjs:503-504 | after trimming: blank text reads as 0; an optional `+` or `-` followed by a run of digits reads as the signed integer value, or as the infinity of that sign once the value passes the largest double; `Infinity` after an optional sign reads as that infinity; anything else is NaN; a finite result is always an integer |
| JsNumber.UnsignedToNumber | scripts/host-automation-agent.mjs:503-504 | the unsigned part: `Infinity` or digits past the largest double give Infinity, other digits their value, everything else NaN; never negative |
| JsNumber.Negate | scripts/host-automation-agent.mjs:503-504 | the minus sign swaps the infinities, keeps NaN, and negates a finite value while keeping it an integer exactly when it was one |
| JsNumber.SignedDecimalRoundTrip | scripts/host-automation-agent.mjs:503-504 | `+` followed by the decimal text of n reads as n, and `-` followed by it reads as -n, for n up to 2^53 - 1 |
| JsNumber.InfinityText | scripts/host-automation-agent.mjs:503-504 | the text `Infinity` reads as Infinity |
| JsNumber.SignedInfinityText | scripts/host-automation-agent.mjs:503-504 | `+Infinity` reads as Infinity and `-Infinity` as -Infinity |
| JsNumber.DecimalRoundTrip | scripts/host-automation-agent.mjs:503-504 | `Number` of the decimal text of n is exactly n for every n up to 2^53 - 1 |
| JsNumber.DecimalOverflow | scripts/host-automation-agent.mjs:503-504 | the decimal text of a value past the largest double reads as Infinity |
| JsNumber.Max | server.mjs:365 | `Math.max` is NaN exactly when either argument is NaN, and otherwise is one of its arguments and at least as large as both |
| Translate.TextFromContent | server.mjs:177-189 | string content is returned unchanged, other non-array content gives "", and array content gives "" exactly when no text or input_text segment has text |
| Translate.SegmentListRecoverable | server.mjs:180-188 | when segment texts hold no newline, splitting the extracted text on newlines recovers exactly the non-empty segment texts, in order |
| Translate.SegmentTextsAppend | server.mjs:180-187 | segment extraction distributes over concatenation of segment lists, so order is kept |
| Translate.PromptBlocksAppend | server.mjs:195-206 | prompt blocks of two message lists are the blocks of each, in order |
| Translate.SystemTextsAppend | server.mjs:195-202 | system texts of two message lists are the texts of each, in order |
| Translate.PromptBlocksEmptyIff | server.mjs:195-206 | there are no prompt blocks exactly when no message is a non-system message with text |
| Translate.AllPromptMessagesKept | server.mjs:204-205 | when every message is a non-system message with text, each yields exactly one `ROLE:\ntext` block at its own position |
| Translate.PromptUsableIff | server.mjs:208-209 | the joined prompt has visible text exactly when some non-system message has non-empty text |
| Translate.BuildPrompt | server.mjs:191-212 | the system text is trimmed, and the prompt has visible text iff some non-system message has text |
| Translate.BuildPromptFromMessages | server.mjs:191-212 | the two-list loop of `buildPromptFromMessages` computes the same prompt and system text as the functional definition |
| Translate.ConciseExample | server.mjs:191-212 | a system instruction plus one user turn gives prompt `USER:\nHi` and system `Be concise` |
| Translate.CapitalisedSystemRoleIsPrompt | server.mjs:200-205 | role `System` is not the system role: it becomes a `SYSTEM:` prompt block |
| ModelResolve.SplitModelIdIsFirstSplit | server.mjs:218-229 | the split-then-rest-join rule equals cutting at the first separator with a non-empty provider |
| ModelResolve.ResolveModel | server.mjs:214-236 | strict precedence: map hit, then the first `/` cut, then the first `:` cut, then the default pair only when both halves are set, else none |
| ModelResolve.SplitRebuilds | server.mjs:219-221 | a resolved pair has a separator-free non-empty provider, and provider, separator and model rebuild the requested name |
| ModelResolve.ResolveMapHitExample | server.mjs:215 | a mapped name resolves to its mapped pair |
| ModelResolve.ResolveSlash | server.mjs:218-222 | any name without a map entry of the form provider `/` model, with a non-empty provider free of `/`, resolves to that provider and model, whatever the model holds (`foo/bar` gives foo and bar) |
| ModelResolve.ResolveRestJoinExample | server.mjs:219-221 | `a/b/c` resolves to provider a, model `b/c` |
| ModelResolve.ResolveTrailingSlash | server.mjs:219-221 | a provider followed by a trailing `/` resolves to that provider with an empty model |
| ModelResolve.ResolveLeadingSlashExample | server.mjs:218-233 | `/x` has an empty provider, so it falls back to the default pair |
| Upstream.ExtractAssistantText | server.mjs:238-244 | the assistant text is the in-order concatenation of the texts of the text parts |
| Upstream.ExtractAppend | server.mjs:238-244 | extraction distributes over concatenation of part lists |
| Upstream.ExtractIgnoresNonText | server.mjs:241 | parts that are not string-text `text` parts contribute nothing |
| Upstream.TextPartTextsJoin | server.mjs:240-243 | filter, map and `join("")` equal the recursive concatenation |
| Upstream.SummarizePartTypes | server.mjs:246-251 | one non-empty entry per part, each the part's type or `unknown` |
| Upstream.ComposeSystem | server.mjs:345 | the system field is present iff either text is non-empty, and holds the non-empty ones joined by a blank line |
| Upstream.PrepareMessage | server.mjs:316-345 | an empty message list fails with "messages is required", a prompt without visible text fails with "No usable text", and otherwise the body carries the prompt, the resolved model, the composed system and the agent only when configured |
| Upstream.OutcomeError | server.mjs:164-172 | a non-2xx response keeps its body as details exactly when the parsed body is truthy: no details for an empty body or the JSON texts of null, false, `""` and zero |
| Upstream.JsonTrimPadded | server.mjs:112-122 | `JSON.parse` sees through JSON whitespace around a value and through nothing else |
| Upstream.FalsyPayloadDropped | server.mjs:164-172 | an error body holding `null`, `false`, `""` or a zero number, with any JSON whitespace around it, carries no details |
| Upstream.ZeroNumberForms | server.mjs:112-122 | `0` and `-0.00e+5` are zero numbers, while `00`, `0.` and `0e` are not JSON numbers and stay text |
| Upstream.ObjectPayloadKept | server.mjs:164-172 | an error body starting with `{` is carried as details |
| Upstream.AuthHeader | server.mjs:87-98 | a header is sent iff a password is set and the mode is bearer or basic, with the `Bearer` or `Basic` form for that mode |
| Retry.AttemptResult | server.mjs:369-388 | a validation failure is raised unchanged; a reply with visible text answers with that text and the reply's token usage; a reply without visible text raises the 502 empty-text error; a timeout, HTTP or network failure is raised as its own error; and an answer is only ever visible text from a reply |
| Retry.RunFrom | server.mjs:368-401 | the loop ends within the attempt bound, every earlier attempt was a retryable failure, and it returns the answer or throws the last error, giving up early only on a non-retryable one |
| Retry.Run | server.mjs:364-402 | the run satisfies the loop's characterisation (`IsRunOf`) |
| Retry.RunIsUnique | server.mjs:364-402 | the characterisation has exactly one solution, so it pins the loop's behaviour down |
| Retry.AsWrittenAttemptLimit | server.mjs:365 | a NaN retry count makes the bound admit no attempt at all |
| Retry.NaNRetryCountMakesNoAttempt | server.mjs:365-368 | a retry count of "abc" gives a NaN bound that fails the test for attempt 1 |
| Retry.MaxAttempts | server.mjs:365-368 | the corrected bound is at least one and, for any finite count, admits exactly the attempts the as-written test admits |
| Retry.AttemptsFor | server.mjs:368-370 | each attempt's result depends only on validation and that attempt's own outcome |
| Retry.CreateAndPromptWithRetry | server.mjs:364-402 | between 1 and the attempt bound attempts are made; the bound is the corrected `Retry.MaxAttempts`, and the bound as written is under Findings |
| Retry.RetryClassification | server.mjs:358-362 | a timeout (504) and a network failure are final; an HTTP failure is retried iff its status is 408, 429 or at least 500 |
| Retry.EmptyAndValidationClassification | server.mjs:380-390 | the 502 empty-text error is always retryable and the two 400 validation errors never are |
| Retry.FirstErrorFinal | server.mjs:390-391 | a non-retryable first error ends the loop after one attempt with that error |
| Retry.AnswerAfterRetries | server.mjs:372-378 | the first answer after retryable failures is returned with its attempt number |
| Retry.ValidationFailsOnce | server.mjs:317-330 | a request failing validation makes one attempt, no upstream call, and gives up with status 400 |
| Retry.TimeoutIsFinal | server.mjs:358-362 | an upstream timeout is never retried |
| Retry.ClientErrorIsFinal | server.mjs:358-362 | a client-error status other than 408 and 429 is never retried and keeps its status |
| Retry.ServerErrorsThenAnswer | server.mjs:364-402 | server errors followed by a visible answer complete with that answer after exactly that many attempts |
| Retry.ExhaustionThrowsLastError | server.mjs:390-401 | when every attempt fails retryably, the last error is thrown after the maximum number of attempts |
| Retry.EmptyAnswerIsRetried | server.mjs:380-390 | an empty answer before the last attempt always leads to another attempt |
| HttpStatus.StatusOr | server.mjs:423 | a non-zero status is kept, and a missing or zero one becomes the fallback |
| HttpStatus.ErrorKind | server.mjs:427 | the type is server_error iff the status is at least 500, else invalid_request_error |
| Bearer.BearerToken | server.mjs:78-79 | the token is trimmed, and non-empty only for a header that starts with `Bearer ` |
| Bearer.BearerOfScheme | server.mjs:79 | the token of `Bearer ` plus credentials is the trimmed credentials |
| Bearer.LowerCaseSchemeCarriesNothing | server.mjs:79 | the scheme match is case-sensitive, so `bearer x` yields no token |
| Emit.ResponseModel | server.mjs:259 | the reported model is the requested one when non-empty, else the configured id |
| Emit.Seconds | server.mjs:254 | created is the floor of milliseconds divided by 1000 |
| Emit.ToCompletion | server.mjs:253-276 | id is `chatcmpl-` plus the uuid, one stop choice with the content, and usage counts default to 0 with total their sum |
| Emit.StreamFrames | server.mjs:278-314 | role frame, a content frame iff content is non-empty, stop frame, then done; all chunks share id, created time and model |
| Emit.StreamMatchesCompletion | server.mjs:253-314 | the stream's deltas reassemble the completion's content and agree with it on id, model and created time, with one stop reason at the end |
| Emit.DataBlocks | server.mjs:291-312 | each payload becomes one `data: ` block, in order |
| Emit.EventStreamRoundTrip | server.mjs:291-312 | for single-line payloads, reading the data fields of the event stream gives the payloads back |
| Emit.StreamWireRoundTrip | server.mjs:278-314 | the written stream parses back to the frame payloads, ending in `[DONE]` |
| Emit.FramePayloads | server.mjs:291-312 | one payload per frame, in order |
| Emit.EnvelopeOf | server.mjs:422-430 | status defaults to 500, type follows the status, the message is never empty, and the error's details are carried; an error holds details only for a truthy payload (`Upstream.OutcomeError`) |
| Emit.EnvelopeTaxonomy | server.mjs:422-430 | timeouts give 504 server_error, HTTP failures keep their status and type, network failures give 500, and empty text gives 502 with its diagnostics |
| Bridge.HandleChatCompletions | server.mjs:404-432 | 401 without authorisation, 400 for an unreadable body, 500 server_error for a body of `null`, an event stream only for a completed streaming request, and otherwise the completion or the error envelope with its status, the retry loop running under the corrected bound `Retry.MaxAttempts` (the bound as written is under Findings) |
| Bridge.BearerCredentialsAuthorize | server.mjs:76-85 | with a key set, `Bearer c` is accepted iff the trimmed c equals the key |
| Bridge.SchemeRequired | server.mjs:78-80 | with a key set, a missing header or one without the `Bearer ` scheme is refused |
| Bridge.UntrimmedKeyLocksOut | server.mjs:79-80 | a key with surrounding whitespace can never be matched |
| Bridge.OwnBearerHeaderAccepted | server.mjs:76-98 | the bearer header the bridge sends upstream would pass its own check when the key equals the password |
| Bridge.NullBodyIsServerError | server.mjs:407-431 | a body of `null` parses, then reading `messages` throws a `TypeError` with no status. It is not retried, opens no upstream session, and is answered with 500 server_error carrying the `TypeError`'s message |
| Bridge.EmptyBodyRejected | server.mjs:407-413 | an empty body is `{}` and is refused with 400 "messages is required" and no upstream call |
| Bridge.CompletedIsVisible | server.mjs:371-378 | a completed run carries visible text taken from the reply of its last attempt |
| Bridge.StreamedReplyIsVisible | server.mjs:415-419 | a streamed reply always reassembles to visible text and ends with the done marker |
| Modes.Level | scripts/host-automation-agent.mjs:51-59 | levels are at most 3 and an unknown name counts as 0 |
| Modes.LevelIsPosition | scripts/host-automation-agent.mjs:52-57 | the levels follow the order read-only, browser-write, desktop-write, system-write |
| Modes.CanBrowserWriteIff | scripts/host-automation-agent.mjs:61-63 | browser writes are allowed exactly in the three write modes |
| Modes.ModeAtLeastReflexive | scripts/host-automation-agent.mjs:51-59 | every mode is at least itself |
| Modes.ModeAtLeastTransitive | scripts/host-automation-agent.mjs:51-59 | the order is transitive |
| Modes.ModeAtLeastTotal | scripts/host-automation-agent.mjs:51-59 | any two modes are comparable |
| Modes.ModeAtLeastMonotone | scripts/host-automation-agent.mjs:51-59 | raising the configured mode never withdraws a permission |
| Modes.UnknownNames | scripts/host-automation-agent.mjs:58 | an unknown target is always met, and an unknown mode behaves as read-only |
| Agent.AgentEnvelopeOf | scripts/host-automation-agent.mjs:688-698 | status defaults to 500, type follows the status, the message defaults to "Internal server error", and details are present iff stderr is non-empty |
| Agent.Gate | scripts/host-automation-agent.mjs:580-591 | unauthorised requests get 401; refused methods get 405 with the message chosen by whether browser writes are allowed |
| Agent.RequireAuthIff | scripts/host-automation-agent.mjs:30-45 | with a token set, a request passes iff its bearer token or its query token equals it |
| Agent.BearerCredentialsAdmit | scripts/host-automation-agent.mjs:32-34 | `Bearer ` plus credentials that trim to the token is admitted |
| Agent.GateAdmitsIff | scripts/host-automation-agent.mjs:584-591 | an authorised request passes the gate iff it is a GET, or a POST in a write mode |
| Agent.GateMonotone | scripts/host-automation-agent.mjs:584 | a request admitted in a weaker mode is admitted in a stronger one |
| Agent.ReadOnlyRefusesPost | scripts/host-automation-agent.mjs:584-591 | outside the write modes a POST gets 405 "Only GET is enabled in read-only mode" |
| AppleScript.ReplaceAll | scripts/host-automation-agent.mjs:66-70 | after replacing every c by a text without c, no c remains |
| AppleScript.AppleScriptString | scripts/host-automation-agent.mjs:65-71 | the literal is quoted at both ends and contains no carriage return or line feed |
| AppleScript.EscapeIsPerChar | scripts/host-automation-agent.mjs:66-70 | the four global replacements, backslash first, equal escaping each character on its own |
| AppleScript.EscapeAppend | scripts/host-automation-agent.mjs:66-70 | escaping distributes over concatenation |
| AppleScript.AppleScriptRoundTrip | scripts/host-automation-agent.mjs:65-71 | decoding the escapes of the literal recovers the input exactly |
| AppleScript.AppleScriptStringInjective | scripts/host-automation-agent.mjs:65-71 | different inputs give different literals |
| Csv.ParseCsvLine | scripts/host-automation-agent.mjs:164-170 | empty input gives no items, and every item is non-empty, trimmed and free of commas |
| Csv.CsvRoundTrip | scripts/host-automation-agent.mjs:164-170 | a comma-join of trimmed, non-empty, comma-free names parses back to the names |
| Csv.CsvReadsAppleScriptList | scripts/host-automation-agent.mjs:184-190 | a list printed with `, ` between items, as AppleScript prints one, parses back to the names |
| Csv.ParseSplitFields | scripts/host-automation-agent.mjs:164-170 | the early return for empty input agrees with the pipeline: the one empty field of `"".split(",")` is filtered away |
| Csv.CsvConcat | scripts/host-automation-agent.mjs:164-170 | parsing two texts joined by a comma gives the items of the first followed by those of the second |
| Tabs.SplitLines | scripts/host-automation-agent.mjs:334 | splitting on LF or CRLF gives the LF pieces, each equal to its piece once trimmed |
| Tabs.TabLines | scripts/host-automation-agent.mjs:334-336 | the kept lines are non-empty and trimmed |
| Tabs.ParseTabLine | scripts/host-automation-agent.mjs:337-344 | title and url are non-empty when present, and a line without `|||` has a NaN tab index and neither field |
| Tabs.ParseTabList | scripts/host-automation-agent.mjs:333-345 | one record per kept line, in order |
| Tabs.NoEarlyOccurrence | scripts/host-automation-agent.mjs:337 | a field without `|||` that does not end in `|` has no separator starting inside it when `|||` follows it |
| Tabs.SplitRenderedLine | scripts/host-automation-agent.mjs:321-337 | a printed line whose title holds no `|||` and does not end in `|`, and whose url holds no `|||`, splits back into window, tab, title and url |
| Tabs.ParseRenderedLine | scripts/host-automation-agent.mjs:321-344 | a line printed by the AppleScript for a tab with safe-integer indices parses to its indices, with empty title or url as null |
| Tabs.TitleEndingInBarMisread | scripts/host-automation-agent.mjs:321-344 | a title ending in `|` is not read back: `a|` with url `u` comes back as title `a` and url `|u` |
| Tabs.TabLinesOfRendered | scripts/host-automation-agent.mjs:321-336 | when no title or url holds a line feed and no url ends in whitespace, the printed tab list yields exactly its printed lines, the trailing blank line dropped |
| Tabs.TabListRoundTrip | scripts/host-automation-agent.mjs:314-345 | a printed tab list parses to one record per tab, in order, with the expected fields |
| Browser.PickBrowserApp | scripts/host-automation-agent.mjs:224-227 | a non-empty preferred app is used, else Google Chrome |
| Browser.ToNumber | scripts/host-automation-agent.mjs:503-504 | `Number` of null is 0, of undefined or an object is NaN, and of text is what `JsNumber.StringToNumber` reads: signed integers, signed `Infinity` and blank text, with fractions, exponents and hex left out |
| Browser.WindowNumber | scripts/host-automation-agent.mjs:503 | a missing or null window index defaults to 1 |
| Browser.Count | scripts/host-automation-agent.mjs:505-514 | a validated index is a whole number of at least 1 |
| Browser.PlanSelectTab | scripts/host-automation-agent.mjs:501-539 | the window index is checked first, then the tab index, each failing with its own 400 message, and a plan names the app and its browser family |
| Browser.PlanSelectTabIff | scripts/host-automation-agent.mjs:501-539 | a selection is planned iff both indices are positive integers and the app is in the Chrome family or is Safari |
| Browser.SelectBrowserTab | scripts/host-automation-agent.mjs:501-548 | validation failures come before any script, success needs a completed script, and the echo carries the validated app and indices |
| Browser.ValidationPrecedesScript | scripts/host-automation-agent.mjs:505-514 | an invalid request fails with 400 whatever the script would do |
| Browser.WindowDefaultsToOne | scripts/host-automation-agent.mjs:502-503 | without a window index, Chrome is asked for window 1 |
| Browser.AcceptedSelection | scripts/host-automation-agent.mjs:541-547 | an accepted request echoes exactly the validated indices |
| Browser.SafariSelection | scripts/host-automation-agent.mjs:530-547 | a Safari selection echoes Safari and the given indices |
| Browser.DecimalText | scripts/host-automation-agent.mjs:503-504 | numeric text of a safe integer is read as its number, for both indices |
| Browser.DecimalStringIndex | scripts/host-automation-agent.mjs:503-514 | safe-integer indices given as decimal strings are accepted as their numbers |
| Browser.PlusSignedIndex | scripts/host-automation-agent.mjs:503-514 | a window index sent as `"+2"` (a `+` before the decimal text) selects that window |
| Browser.MinusSignedIndexRefused | scripts/host-automation-agent.mjs:503-509 | a window index sent as `"-3"` (a `-` before the decimal text) is refused with 400 "windowIndex must be a positive integer" |
| Browser.OverlongIndexRefused | scripts/host-automation-agent.mjs:503-509 | a window index whose digits pass the largest double reads as Infinity and is refused with 400 "windowIndex must be a positive integer" |
| Browser.BadTabIndexRefused | scripts/host-automation-agent.mjs:510-514 | a missing, null or fractional tab index is refused with 400 |
| Browser.ScriptFailureEnvelope | scripts/host-automation-agent.mjs:688-698 | a failed script gives 500 with stderr as details, and a non-macOS host gives 501 |

## Left out

- Sockets, HTTP routing, `json`/`sse` header writing and `readBody`, including its size limits. They are I/O; an unreadable body is the `Unreadable` case of `Bridge.Body`, and a body of `null` is its `ParsedNull` case, carrying the engine's `TypeError` message as a parameter.
- `opencodeFetch`'s `fetch`, `AbortController` timers and `res.text()`. Each attempt's two upstream calls are one abstract `AttemptOutcome`.
- `sleep` between retries, `randomUUID` and `Date.now`. The delay does not change any result; the uuid and the clock are parameters.
- `JSON.parse`, `JSON.stringify`, `parseResponseBody` and the startup parsing of the model map. These are foreign calls: the request arrives already parsed, frame serialisation is a parameter, and the map is a given finite map. Of `parseResponseBody`'s result only its truthiness is modelled (`Upstream.PayloadFalsy`), because that decides whether an error carries details.
- Upstream.OutcomeError: a JSON number that is not written as zero but underflows to zero, such as `1e-400`, parses to a falsy 0 and so carries no details; the model recognises only literals written as zero and keeps such a body as details.
- Prototype keys such as `toString` in the model map and in the level table. The map and the level table are plain finite maps without inherited keys.
- Non-string `role`, `type`, `text` or `model` values. These are not modelled: the fields are `Option<string>`.
- Base64 in the Basic credential header. It is a parameter of `Upstream.AuthHeader`.
- `Number` of strings in hexadecimal, octal, binary, exponent or fractional syntax, and of arrays. `JsNumber.StringToNumber` reads signed decimal digits and signed `Infinity` (after trimming) and gives NaN otherwise.
- Retry.MaxAttempts: a retry count of +Infinity, which `OPENCODE_RETRY_COUNT=Infinity` gives, is excluded, because the loop of `createAndPromptWithRetry` would then run without bound on an always-failing upstream.
- `toUpperCase` on non-ASCII letters. Only ASCII letters are mapped.
- The health, models, screenshot and system-info endpoints, `getFrontmostWindow`, `listVisibleApps`, `openBrowserUrl`, `activateBrowser`, `reloadBrowser` and `normalizeUrl`. They are routing glue or shell out to osascript; only the tab-line parsing of `listBrowserTabs` is modelled.
- The AppleScript programs themselves, `execFile` and `osascript`. They are external processes; a script run is a `ScriptOutcome`.
- Browser app names that are not strings. `appName` is `Option<string>`.
- The lower-casing of `HOST_AUTOMATION_MODE` and `OPENCODE_AUTH_MODE` at startup. The modes are taken as already lower-cased strings.
- Tabs.TabListRoundTrip: requires that no title or url holds `|||` or a line feed, that no title ends in `|`, that no url ends in whitespace, and that both indices are at most 2^53 - 1. The `|||` split cuts such a title or url in the wrong place (`Tabs.TitleEndingInBarMisread`), the line trim eats a url's trailing whitespace, and larger indices would be rounded by `Number`.
- JsString.SplitJoin: for separators longer than one character, items free of the separator itself are not enough: `["a|", "b"]` joined by `||` splits as `["a", "|b"]`. The lemma therefore asks that no item hold the separator's first character; `JsString.SplitJoinOneChar` and `Tabs.SplitRenderedLine` cover the cases the code meets.
- JsNumber.StringToNumber: `-0` reads as 0, since negative zero is not a separate value here; every comparison the code makes treats the two alike. Rounding to the nearest double is not modelled. A digit string whose value lies between 2^53 and the largest double keeps its exact value instead of the rounded one, so round trips are stated for values up to 2^53 - 1 only; overflow to Infinity is modelled.
- Emit.EventStreamRoundTrip: covers single-line payloads only. `JSON.stringify` never emits a raw newline, so this is every payload the bridge writes.
- The byte relay in `deploy/openclaw-addon/scripts/local-http-proxy.mjs`. It is socket plumbing without decision logic.

## Findings

| source | as written | input that shows it | evidently intended | confidence | as-written member | corrected member |
|---|---|---|---|---|---|---|
| server.mjs:365-401 | `Math.max(1, OPENCODE_RETRY_COUNT + 1)` on `Number(env)`. A non-numeric value gives NaN, so `attempt <= maxAttempts` is false for attempt 1. No attempt is made and `throw lastError` throws `null`, and reading `error.status` in the handler then fails. | `OPENCODE_RETRY_COUNT=abc` | at least one attempt, with a non-numeric count treated like no retries | not executed | Retry.AsWrittenAttemptLimit, Retry.NaNRetryCountMakesNoAttempt | Retry.MaxAttempts |
