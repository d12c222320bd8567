/**
 * `appleScriptString` (scripts/host-automation-agent.mjs): a value is put
 * into an AppleScript source line as a double-quoted literal after four
 * replace-all passes: backslash first, then double quote, carriage return
 * and line feed. The decoder below reads such a literal the way AppleScript
 * does, which shows the encoding loses nothing.
 */
module AppleScript {
  import opened Wrappers

  /** `s.replace(/c/g, rep)` for a single character `c`. */
  function ReplaceAll(s: string, c: char, rep: string): (r: string)
    ensures c !in rep ==> c !in r
    decreases |s|
  {
    if s == [] then [] else (if s[0] == c then rep else [s[0]]) + ReplaceAll(s[1..], c, rep)
  }

  /** The four passes, in the order `appleScriptString` applies them. */
  function Escape(s: string): string {
    ReplaceAll(ReplaceAll(ReplaceAll(ReplaceAll(s, '\\', "\\\\"), '"', "\\\""), '\r', "\\r"), '\n', "\\n")
  }

  /** The double-quoted literal handed to osascript. */
  function AppleScriptString(s: string): (r: string)
    ensures |r| >= 2 && r[0] == '"' && r[|r| - 1] == '"'
    ensures '\r' !in r && '\n' !in r
  {
    EscapeIsPerChar(s);
    "\"" + Escape(s) + "\""
  }

  /** What each character becomes, taken on its own. */
  function EscapeChar(c: char): (r: string)
    ensures '\r' !in r && '\n' !in r && |r| >= 1
  {
    if c == '\\' then "\\\\"
    else if c == '"' then "\\\""
    else if c == '\r' then "\\r"
    else if c == '\n' then "\\n"
    else [c]
  }

  /** The reference encoding: every character escaped independently. */
  function EscapeEach(s: string): (r: string)
    ensures '\r' !in r && '\n' !in r
  {
    if s == [] then [] else EscapeChar(s[0]) + EscapeEach(s[1..])
  }

  lemma {:induction false} ReplaceAllAppend(a: string, b: string, c: char, rep: string)
    ensures ReplaceAll(a + b, c, rep) == ReplaceAll(a, c, rep) + ReplaceAll(b, c, rep)
    decreases |a|
  {
    if a == [] {
      assert a + b == b;
    } else {
      assert (a + b)[0] == a[0];
      assert (a + b)[1..] == a[1..] + b;
      ReplaceAllAppend(a[1..], b, c, rep);
    }
  }

  lemma {:induction false} ReplaceAllAbsent(s: string, c: char, rep: string)
    requires c !in s
    ensures ReplaceAll(s, c, rep) == s
    decreases |s|
  {
    if s != [] {
      ReplaceAllAbsent(s[1..], c, rep);
    }
  }

  lemma ReplaceAllSingle(x: char, c: char, rep: string)
    ensures ReplaceAll([x], c, rep) == if x == c then rep else [x]
  {
    assert [x][1..] == [];
  }

  lemma EscapeAppend(a: string, b: string)
    ensures Escape(a + b) == Escape(a) + Escape(b)
  {
    var a1, b1 := ReplaceAll(a, '\\', "\\\\"), ReplaceAll(b, '\\', "\\\\");
    ReplaceAllAppend(a, b, '\\', "\\\\");
    var a2, b2 := ReplaceAll(a1, '"', "\\\""), ReplaceAll(b1, '"', "\\\"");
    ReplaceAllAppend(a1, b1, '"', "\\\"");
    var a3, b3 := ReplaceAll(a2, '\r', "\\r"), ReplaceAll(b2, '\r', "\\r");
    ReplaceAllAppend(a2, b2, '\r', "\\r");
    ReplaceAllAppend(a3, b3, '\n', "\\n");
  }

  /** Backslash goes first, so a backslash introduced by a later pass is never doubled. */
  lemma EscapeSingle(c: char)
    ensures Escape([c]) == EscapeChar(c)
  {
    ReplaceAllSingle(c, '\\', "\\\\");
    var s1 := ReplaceAll([c], '\\', "\\\\");
    if c == '\\' {
      ReplaceAllAbsent(s1, '"', "\\\"");
      ReplaceAllAbsent(s1, '\r', "\\r");
      ReplaceAllAbsent(s1, '\n', "\\n");
    } else {
      ReplaceAllSingle(c, '"', "\\\"");
      var s2 := ReplaceAll(s1, '"', "\\\"");
      if c == '"' {
        ReplaceAllAbsent(s2, '\r', "\\r");
        ReplaceAllAbsent(s2, '\n', "\\n");
      } else {
        ReplaceAllSingle(c, '\r', "\\r");
        var s3 := ReplaceAll(s2, '\r', "\\r");
        if c == '\r' {
          ReplaceAllAbsent(s3, '\n', "\\n");
        } else {
          ReplaceAllSingle(c, '\n', "\\n");
        }
      }
    }
  }

  /** The sequential passes escape each character independently. */
  lemma {:induction false} EscapeIsPerChar(s: string)
    ensures Escape(s) == EscapeEach(s)
    decreases |s|
  {
    if s != [] {
      assert s == [s[0]] + s[1..];
      EscapeAppend([s[0]], s[1..]);
      EscapeSingle(s[0]);
      EscapeIsPerChar(s[1..]);
    }
  }

  /** The character an AppleScript escape sequence `\e` stands for. */
  function EscapedChar(e: char): Option<char> {
    if e == 'n' then Some('\n')
    else if e == 'r' then Some('\r')
    else if e == 't' then Some('\t')
    else if e == '\\' then Some('\\')
    else if e == '"' then Some('"')
    else None
  }

  function Prepend(c: char, r: Option<string>): Option<string> {
    if r.Some? then Some([c] + r.value) else None
  }

  /** Reads the inside of a literal: an unescaped quote or a bad escape is an error. */
  function Unescape(t: string): Option<string>
    decreases |t|
  {
    if t == [] then Some([])
    else if t[0] == '"' then None
    else if t[0] != '\\' then Prepend(t[0], Unescape(t[1..]))
    else if |t| < 2 then None
    else match EscapedChar(t[1])
      case None => None
      case Some(c) => Prepend(c, Unescape(t[2..]))
  }

  /** Reads a whole double-quoted literal. */
  function ParseLiteral(lit: string): Option<string> {
    if |lit| >= 2 && lit[0] == '"' && lit[|lit| - 1] == '"' then Unescape(lit[1..|lit| - 1]) else None
  }

  lemma UnescapeStep(c: char, rest: string)
    ensures Unescape(EscapeChar(c) + rest) == Prepend(c, Unescape(rest))
  {
    var t := EscapeChar(c) + rest;
    if c == '\\' || c == '"' || c == '\r' || c == '\n' {
      assert |EscapeChar(c)| == 2 && t[0] == '\\';
      assert t[2..] == rest;
    } else {
      assert t[0] == c && t[1..] == rest;
    }
  }

  lemma {:induction false} UnescapeEscapeEach(s: string)
    ensures Unescape(EscapeEach(s)) == Some(s)
    decreases |s|
  {
    if s != [] {
      UnescapeStep(s[0], EscapeEach(s[1..]));
      UnescapeEscapeEach(s[1..]);
      assert [s[0]] + s[1..] == s;
    }
  }

  /** Reading the literal back gives exactly the value that was encoded. */
  lemma AppleScriptRoundTrip(s: string)
    ensures ParseLiteral(AppleScriptString(s)) == Some(s)
  {
    var lit := AppleScriptString(s);
    assert lit[1..|lit| - 1] == Escape(s);
    EscapeIsPerChar(s);
    UnescapeEscapeEach(s);
  }

  /** Distinct values give distinct literals. */
  lemma AppleScriptStringInjective(a: string, b: string)
    requires AppleScriptString(a) == AppleScriptString(b)
    ensures a == b
  {
    AppleScriptRoundTrip(a);
    AppleScriptRoundTrip(b);
  }
}
