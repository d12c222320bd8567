/**
 * Translation of chat-completion request messages into the single prompt
 * and system text sent upstream (server.mjs, `textFromOpenAIContent` and
 * `buildPromptFromMessages`).
 */
module Translate {
  import opened Wrappers
  import opened JsString

  /**
   * One element of an array-valued `content`. `kind` and `text` are the
   * string-valued `type` and `text` properties; absent or non-string values
   * are `None`.
   */
  datatype Segment = NonObjectSegment | Segment(kind: Option<string>, text: Option<string>)

  /** A message `content`: a string, an array of segments, or anything else. */
  datatype Content = TextContent(s: string) | SegmentList(items: seq<Segment>) | OtherContent

  /** One element of `messages`; `NonObjectMessage` is null or a primitive. */
  datatype Message = NonObjectMessage | Message(role: Option<string>, content: Content)

  /** The prompt and the system text produced from a message list. */
  datatype Prompt = Prompt(prompt: string, system: string)

  /** The text a segment contributes: only `text` and `input_text` segments count. */
  function SegmentText(seg: Segment): string {
    match seg
    case NonObjectSegment => ""
    case Segment(kind, text) =>
      if kind == Some("text") || kind == Some("input_text") then text.GetOr("") else ""
  }

  /** The non-empty segment texts, in order. */
  function SegmentTexts(items: seq<Segment>): (r: seq<string>)
    ensures |r| <= |items|
    ensures forall k :: 0 <= k < |r| ==> r[k] != ""
  {
    if items == [] then []
    else
      var t := SegmentText(items[0]);
      (if t == "" then [] else [t]) + SegmentTexts(items[1..])
  }

  lemma {:induction false} SegmentTextsAppend(a: seq<Segment>, b: seq<Segment>)
    ensures SegmentTexts(a + b) == SegmentTexts(a) + SegmentTexts(b)
    decreases |a|
  {
    if a == [] {
      assert a + b == b;
    } else {
      assert (a + b)[0] == a[0];
      assert (a + b)[1..] == a[1..] + b;
      SegmentTextsAppend(a[1..], b);
    }
  }

  /** No segment text survives exactly when every segment contributes the empty string. */
  lemma {:induction false} SegmentTextsEmptyIff(items: seq<Segment>)
    ensures SegmentTexts(items) == [] <==> forall k :: 0 <= k < |items| ==> SegmentText(items[k]) == ""
    decreases |items|
  {
    if items != [] {
      SegmentTextsEmptyIff(items[1..]);
      assert forall k :: 1 <= k < |items| ==> items[k] == items[1..][k - 1];
    }
  }

  /**
   * `textFromOpenAIContent`: a string is returned unchanged, an array gives its
   * non-empty text segments joined by a newline, and anything else gives "".
   */
  function TextFromContent(c: Content): (r: string)
    ensures c.TextContent? ==> r == c.s
    ensures c.OtherContent? ==> r == ""
    ensures c.SegmentList? ==>
              (r == "" <==> forall k :: 0 <= k < |c.items| ==> SegmentText(c.items[k]) == "")
  {
    match c
    case TextContent(s) => s
    case SegmentList(items) =>
      var texts := SegmentTexts(items);
      SegmentTextsEmptyIff(items);
      JoinEmptyIff(texts, "\n");
      Join(texts, "\n")
    case OtherContent => ""
  }

  /**
   * When no segment text holds a newline, splitting the extracted text on
   * newlines gives back exactly the non-empty segment texts, in order.
   */
  lemma SegmentListRecoverable(items: seq<Segment>)
    requires forall k :: 0 <= k < |items| ==> '\n' !in SegmentText(items[k])
    requires SegmentTexts(items) != []
    ensures Split(TextFromContent(SegmentList(items)), "\n") == SegmentTexts(items)
  {
    SegmentTextsNoNewline(items);
    SplitJoin(SegmentTexts(items), "\n");
  }

  lemma {:induction false} SegmentTextsNoNewline(items: seq<Segment>)
    requires forall k :: 0 <= k < |items| ==> '\n' !in SegmentText(items[k])
    ensures forall k :: 0 <= k < |SegmentTexts(items)| ==> '\n' !in SegmentTexts(items)[k]
    decreases |items|
  {
    if items != [] {
      SegmentTextsNoNewline(items[1..]);
    }
  }

  /** `String(msg.role || "user")`. */
  function RoleOf(m: Message): string
    requires m.Message?
  {
    if m.role.None? || m.role.value == "" then "user" else m.role.value
  }

  /** A message that is an object with non-empty extracted text; all others are skipped. */
  predicate Contributes(m: Message) {
    m.Message? && TextFromContent(m.content) != ""
  }

  predicate IsSystemMessage(m: Message) {
    Contributes(m) && RoleOf(m) == "system"
  }

  predicate IsPromptMessage(m: Message) {
    Contributes(m) && RoleOf(m) != "system"
  }

  /** The prompt block of a message: upper-cased role, a colon, a newline, the text. */
  function Block(m: Message): (b: string)
    requires m.Message?
  {
    ToUpperAscii(RoleOf(m)) + ":\n" + TextFromContent(m.content)
  }

  /** The blocks of the prompt messages, in order. */
  function PromptBlocks(msgs: seq<Message>): (r: seq<string>)
    ensures forall k :: 0 <= k < |r| ==> ':' in r[k]
  {
    if msgs == [] then []
    else
      var m := msgs[0];
      if IsPromptMessage(m) then
        var b := Block(m);
        assert b[|ToUpperAscii(RoleOf(m))|] == ':';
        [b] + PromptBlocks(msgs[1..])
      else PromptBlocks(msgs[1..])
  }

  /** The texts of the system messages, in order. */
  function SystemTexts(msgs: seq<Message>): seq<string> {
    if msgs == [] then []
    else
      var m := msgs[0];
      (if IsSystemMessage(m) then [TextFromContent(m.content)] else []) + SystemTexts(msgs[1..])
  }

  lemma {:induction false} PromptBlocksAppend(a: seq<Message>, b: seq<Message>)
    ensures PromptBlocks(a + b) == PromptBlocks(a) + PromptBlocks(b)
    decreases |a|
  {
    if a == [] {
      assert a + b == b;
    } else {
      assert (a + b)[0] == a[0];
      assert (a + b)[1..] == a[1..] + b;
      PromptBlocksAppend(a[1..], b);
    }
  }

  lemma {:induction false} SystemTextsAppend(a: seq<Message>, b: seq<Message>)
    ensures SystemTexts(a + b) == SystemTexts(a) + SystemTexts(b)
    decreases |a|
  {
    if a == [] {
      assert a + b == b;
    } else {
      var m := a[0];
      var head := if IsSystemMessage(m) then [TextFromContent(m.content)] else [];
      assert (a + b)[0] == m;
      assert (a + b)[1..] == a[1..] + b;
      assert SystemTexts(a + b) == head + SystemTexts(a[1..] + b);
      SystemTextsAppend(a[1..], b);
      SeqAssoc(head, SystemTexts(a[1..]), SystemTexts(b));
    }
  }

  /** Prompt blocks exist exactly when some message is a prompt message. */
  lemma {:induction false} PromptBlocksEmptyIff(msgs: seq<Message>)
    ensures PromptBlocks(msgs) == [] <==> forall k :: 0 <= k < |msgs| ==> !IsPromptMessage(msgs[k])
    decreases |msgs|
  {
    if msgs != [] {
      PromptBlocksEmptyIff(msgs[1..]);
      assert forall k :: 1 <= k < |msgs| ==> msgs[k] == msgs[1..][k - 1];
    }
  }

  /** When every message is a prompt message, each one yields exactly one block, in order. */
  lemma {:induction false} AllPromptMessagesKept(msgs: seq<Message>)
    requires forall k :: 0 <= k < |msgs| ==> IsPromptMessage(msgs[k])
    ensures |PromptBlocks(msgs)| == |msgs|
    ensures forall k :: 0 <= k < |msgs| ==> msgs[k].Message? && PromptBlocks(msgs)[k] == Block(msgs[k])
    decreases |msgs|
  {
    if msgs != [] {
      assert forall k :: 0 <= k < |msgs[1..]| ==> msgs[1..][k] == msgs[k + 1];
      AllPromptMessagesKept(msgs[1..]);
      assert PromptBlocks(msgs) == [Block(msgs[0])] + PromptBlocks(msgs[1..]);
    }
  }

  /** The joined prompt has visible text exactly when there is at least one prompt block. */
  lemma PromptUsableIff(msgs: seq<Message>)
    ensures Trim(Join(PromptBlocks(msgs), "\n\n")) != ""
            <==> exists k :: 0 <= k < |msgs| && IsPromptMessage(msgs[k])
  {
    var blocks := PromptBlocks(msgs);
    PromptBlocksEmptyIff(msgs);
    if blocks != [] {
      JoinStartsWithFirst(blocks, "\n\n");
      var k :| 0 <= k < |blocks[0]| && blocks[0][k] == ':';
      TrimKeepsPrefixWitness(Join(blocks, "\n\n"), blocks[0], k);
    }
  }

  /**
   * `buildPromptFromMessages` as a definition: prompt blocks joined by a blank
   * line, system texts joined by a blank line and trimmed. The prompt has
   * visible text exactly when some non-system message has non-empty text.
   */
  function BuildPrompt(msgs: seq<Message>): (p: Prompt)
    ensures IsTrimmed(p.system)
    ensures Trim(p.prompt) != "" <==> exists k :: 0 <= k < |msgs| && IsPromptMessage(msgs[k])
  {
    PromptUsableIff(msgs);
    var blocks := PromptBlocks(msgs);
    Prompt(Join(blocks, "\n\n"), Trim(Join(SystemTexts(msgs), "\n\n")))
  }

  /** The loop of `buildPromptFromMessages`, which pushes each kept message to one of two lists. */
  method BuildPromptFromMessages(messages: seq<Message>) returns (p: Prompt)
    ensures p == BuildPrompt(messages)
  {
    var lines: seq<string> := [];
    var systemLines: seq<string> := [];
    for i := 0 to |messages|
      invariant lines == PromptBlocks(messages[..i])
      invariant systemLines == SystemTexts(messages[..i])
    {
      var msg := messages[i];
      assert messages[..i + 1] == messages[..i] + [msg];
      PromptBlocksAppend(messages[..i], [msg]);
      SystemTextsAppend(messages[..i], [msg]);
      if !msg.Message? {
        continue;
      }
      var role := RoleOf(msg);
      var text := TextFromContent(msg.content);
      if text == "" {
        continue;
      }
      if role == "system" {
        systemLines := systemLines + [text];
        continue;
      }
      var upper := ToUpperAscii(role);
      lines := lines + [upper + ":\n" + text];
    }
    assert messages[..|messages|] == messages;
    p := Prompt(Join(lines, "\n\n"), Trim(Join(systemLines, "\n\n")));
  }

  /** The worked example: a system instruction and one user turn. */
  lemma ConciseExample()
    ensures BuildPrompt([Message(Some("system"), TextContent("Be concise")),
                         Message(Some("user"), TextContent("Hi"))])
            == Prompt("USER:\nHi", "Be concise")
  {
    var sys := Message(Some("system"), TextContent("Be concise"));
    var user := Message(Some("user"), TextContent("Hi"));
    var msgs := [sys, user];
    assert msgs[1..] == [user];
    assert ToUpperAscii("user") == "USER";
    assert IsSystemMessage(sys) && !IsPromptMessage(sys);
    assert IsPromptMessage(user) && !IsSystemMessage(user);
    assert Block(user) == "USER:\nHi";
    assert PromptBlocks([user]) == [Block(user)] + PromptBlocks([]);
    assert PromptBlocks(msgs) == ["USER:\nHi"];
    assert SystemTexts([user]) == [];
    assert SystemTexts(msgs) == ["Be concise"];
    assert Join(["Be concise"], "\n\n") == "Be concise";
    TrimTrimmed("Be concise");
  }

  /**
   * Only the exact role "system" is routed to the system text: a message whose
   * role is "System" becomes a "SYSTEM:" prompt block.
   */
  lemma CapitalisedSystemRoleIsPrompt()
    ensures BuildPrompt([Message(Some("System"), TextContent("x"))]) == Prompt("SYSTEM:\nx", "")
  {
    var m := Message(Some("System"), TextContent("x"));
    assert [m][1..] == [];
    assert ToUpperAscii("System") == "SYSTEM";
    assert IsPromptMessage(m) && !IsSystemMessage(m);
    assert Block(m) == "SYSTEM:\nx";
    assert PromptBlocks([m]) == [Block(m)] + PromptBlocks([]);
    assert PromptBlocks([m]) == ["SYSTEM:\nx"];
    assert SystemTexts([m]) == [];
  }
}
