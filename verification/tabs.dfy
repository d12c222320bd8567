/**
 * The tab list of `listBrowserTabs` (scripts/host-automation-agent.mjs):
 * the AppleScript prints one line per tab, `window|||tab|||title|||url`,
 * and the agent reads the lines back into records. The script itself is
 * not modelled; `RenderTabList` stands for what it prints.
 */
module Tabs {
  import opened Wrappers
  import opened JsString
  import opened JsNumber

  /** One tab: `Number(...)` of the two indices and `field || null` for title and url. */
  datatype TabRecord = TabRecord(windowIndex: Num, tabIndex: Num, title: Option<string>, url: Option<string>)

  /** A carriage return just before a line feed belongs to the `/\r?\n/` separator. */
  function DropCarriageReturn(p: string): string {
    if |p| > 0 && p[|p| - 1] == '\r' then p[..|p| - 1] else p
  }

  lemma DropCarriageReturnTrim(p: string)
    ensures Trim(DropCarriageReturn(p)) == Trim(p)
  {
    if |p| > 0 && p[|p| - 1] == '\r' {
      TrimDropTrailingWhitespace(p);
    }
  }

  /** Every piece but the last loses the carriage return before its line feed. */
  function DropCarriageReturns(pieces: seq<string>): (r: seq<string>)
    ensures |r| == |pieces|
    ensures forall k :: 0 <= k < |pieces| ==>
              r[k] == if k < |pieces| - 1 then DropCarriageReturn(pieces[k]) else pieces[k]
  {
    seq(|pieces|, k requires 0 <= k < |pieces| => if k < |pieces| - 1 then DropCarriageReturn(pieces[k]) else pieces[k])
  }

  lemma DropCarriageReturnsTrim(pieces: seq<string>)
    ensures forall k :: 0 <= k < |pieces| ==> Trim(DropCarriageReturns(pieces)[k]) == Trim(pieces[k])
  {
    forall k | 0 <= k < |pieces| ensures Trim(DropCarriageReturns(pieces)[k]) == Trim(pieces[k]) {
      DropCarriageReturnTrim(pieces[k]);
    }
  }

  /**
   * `raw.split(/\r?\n/)`: the pieces between line feeds, each but the last
   * without the carriage return that preceded its line feed. After trimming,
   * the lines are those of a split at line feeds alone.
   */
  function SplitLines(raw: string): (lines: seq<string>)
    ensures |lines| == |Split(raw, "\n")|
    ensures forall k :: 0 <= k < |lines| ==> Trim(lines[k]) == Trim(Split(raw, "\n")[k])
  {
    DropCarriageReturnsTrim(Split(raw, "\n"));
    DropCarriageReturns(Split(raw, "\n"))
  }

  /** `.map((line) => line.trim()).filter(Boolean)`: the non-blank lines, trimmed, in order. */
  function TabLines(raw: string): (lines: seq<string>)
    ensures forall k :: 0 <= k < |lines| ==> lines[k] != "" && IsTrimmed(lines[k])
  {
    var trimmed := TrimEach(SplitLines(raw));
    KeepTrimmed(trimmed);
    KeepNonEmpty(trimmed)
  }

  lemma KeepTrimmed(xs: seq<string>)
    requires forall k :: 0 <= k < |xs| ==> IsTrimmed(xs[k])
    ensures forall k :: 0 <= k < |KeepNonEmpty(xs)| ==> IsTrimmed(KeepNonEmpty(xs)[k])
  {
    forall k | 0 <= k < |KeepNonEmpty(xs)| ensures IsTrimmed(KeepNonEmpty(xs)[k]) {
      var j :| 0 <= j < |xs| && xs[j] == KeepNonEmpty(xs)[k];
    }
  }

  /** `fields[i] || null`: a missing or empty field is null. */
  function Field(fields: seq<string>, i: nat): (r: Option<string>)
    ensures r.Some? ==> r.value != "" && i < |fields| && r.value == fields[i]
    ensures r.None? ==> i >= |fields| || fields[i] == ""
  {
    if i < |fields| && fields[i] != "" then Some(fields[i]) else None
  }

  /**
   * One line: `const [windowIndex, tabIndex, title, url] = line.split("|||")`.
   * A missing index reads as `Number(undefined)`, which is NaN; fields past
   * the fourth are ignored.
   */
  function ParseTabLine(line: string): (r: TabRecord)
    ensures r.title.Some? ==> r.title.value != "" && !Contains(r.title.value, "|||")
    ensures r.url.Some? ==> r.url.value != "" && !Contains(r.url.value, "|||")
    ensures !Contains(line, "|||") ==> r.tabIndex == NaN && r.title.None? && r.url.None?
  {
    var fields := Split(line, "|||");
    NoSeparatorOnePiece(line, "|||");
    TabRecord(StringToNumber(fields[0]), if |fields| > 1 then StringToNumber(fields[1]) else NaN,
              Field(fields, 2), Field(fields, 3))
  }

  lemma NoSeparatorOnePiece(s: string, sep: string)
    requires |sep| > 0
    ensures !Contains(s, sep) ==> Split(s, sep) == [s]
  {
  }

  /** The records, one per non-blank line, in order. */
  function ParseTabList(raw: string): (tabs: seq<TabRecord>)
    ensures |tabs| == |TabLines(raw)|
    ensures forall k :: 0 <= k < |tabs| ==> tabs[k] == ParseTabLine(TabLines(raw)[k])
  {
    ParseLines(TabLines(raw))
  }

  function ParseLines(lines: seq<string>): (tabs: seq<TabRecord>)
    ensures |tabs| == |lines|
    ensures forall k :: 0 <= k < |lines| ==> tabs[k] == ParseTabLine(lines[k])
  {
    seq(|lines|, k requires 0 <= k < |lines| => ParseTabLine(lines[k]))
  }

  /** A tab as the browser reports it. */
  datatype TabRow = TabRow(window: nat, tab: nat, title: string, url: string)

  /** `windowIndex & "|||" & tabIndex & "|||" & tabTitle & "|||" & tabUrl`. */
  function RenderLine(row: TabRow): string {
    Join([Decimal(row.window), Decimal(row.tab), row.title, row.url], "|||")
  }

  function RenderLines(rows: seq<TabRow>): (lines: seq<string>)
    ensures |lines| == |rows|
    ensures forall k :: 0 <= k < |rows| ==> lines[k] == RenderLine(rows[k])
  {
    seq(|rows|, k requires 0 <= k < |rows| => RenderLine(rows[k]))
  }

  /** The script's output: every line followed by a line feed. */
  function RenderTabList(rows: seq<TabRow>): string {
    TerminateAll(RenderLines(rows), "\n")
  }

  /**
   * A row whose line survives the line reading: title and url hold no line
   * feed, and the url does not end in whitespace (the line is trimmed).
   */
  predicate OneLine(row: TabRow) {
    && '\n' !in row.title && '\n' !in row.url
    && (row.url == "" || !IsWhitespace(row.url[|row.url| - 1]))
  }

  /** A field the `|||` split hands back whole when a separator follows it. */
  predicate SeparableField(s: string) {
    !Contains(s, "|||") && (s == "" || s[|s| - 1] != '|')
  }

  /**
   * A row the line format carries faithfully: it stays one line, neither
   * title nor url holds `|||`, the title does not end in `|` (which would
   * pull the separator's first bar into the title's place), and both
   * indices are safe integers.
   */
  predicate Renderable(row: TabRow) {
    && OneLine(row)
    && SeparableField(row.title) && !Contains(row.url, "|||")
    && row.window <= MaxSafeInteger && row.tab <= MaxSafeInteger
  }

  function NonEmpty(s: string): Option<string> {
    if s == "" then None else Some(s)
  }

  /** What the agent should report for a row. */
  function Expected(row: TabRow): TabRecord {
    TabRecord(Finite(row.window as real), Finite(row.tab as real), NonEmpty(row.title), NonEmpty(row.url))
  }

  lemma DigitsHaveNo(s: string, c: char)
    requires AllDigits(s) && !IsDigit(c)
    ensures c !in s
  {
  }

  lemma RenderLineShape(row: TabRow)
    ensures RenderLine(row) == Decimal(row.window) + "|||" + (Decimal(row.tab) + "|||" + (row.title + "|||" + row.url))
  {
    var fs := [Decimal(row.window), Decimal(row.tab), row.title, row.url];
    assert fs[1..] == [Decimal(row.tab), row.title, row.url];
    assert fs[1..][1..] == [row.title, row.url];
    assert fs[1..][1..][1..] == [row.url];
    assert Join([row.title, row.url], "|||") == row.title + "|||" + row.url;
    assert Join(fs[1..], "|||") == Decimal(row.tab) + "|||" + (row.title + "|||" + row.url);
  }

  /** A rendered line is non-empty, trimmed, one line, and does not end with a carriage return. */
  lemma RenderLineFacts(row: TabRow)
    requires OneLine(row)
    ensures var line := RenderLine(row);
            && line != "" && IsTrimmed(line) && '\n' !in line && line[|line| - 1] != '\r'
  {
    RenderLineShape(row);
    var w := Decimal(row.window);
    var line := RenderLine(row);
    DigitsHaveNo(w, '\n');
    DigitsHaveNo(Decimal(row.tab), '\n');
    assert line[0] == w[0];
    assert IsDigit(w[0]);
    if row.url == "" {
      assert line[|line| - 1] == '|';
    } else {
      assert line[|line| - 1] == row.url[|row.url| - 1];
    }
  }

  /** A field that can be followed by `|||` has no occurrence of it before that separator. */
  lemma NoEarlyOccurrence(a: string, b: string)
    requires SeparableField(a)
    ensures forall j :: 0 <= j < |a| ==> !OccursAt(a + "|||" + b, "|||", j)
  {
    var s := a + "|||" + b;
    forall j | 0 <= j < |a| ensures !OccursAt(s, "|||", j) {
      if j + 3 <= |a| {
        assert s[j..j + 3] == a[j..j + 3];
        assert !OccursAt(a, "|||", j);
      } else {
        assert s[|a| - 1] == a[|a| - 1] != '|';
        assert s[j..j + 3][|a| - 1 - j] != '|';
      }
    }
  }

  /** Decimal text is a separable field: it holds no `|` at all. */
  lemma DecimalSeparable(n: nat)
    ensures SeparableField(Decimal(n))
  {
    DigitsHaveNo(Decimal(n), '|');
    NoHeadNoOccurrence(Decimal(n), "|||");
  }

  /** Splitting at `|||` after a separable field yields that field first. */
  lemma SplitAfterField(a: string, b: string)
    requires SeparableField(a)
    ensures Split(a + "|||" + b, "|||") == [a] + Split(b, "|||")
  {
    NoEarlyOccurrence(a, b);
    SplitAtFirst(a, b, "|||");
  }

  /** A rendered line splits back into its four fields. */
  lemma SplitRenderedLine(row: TabRow)
    requires SeparableField(row.title) && !Contains(row.url, "|||")
    ensures Split(RenderLine(row), "|||") == [Decimal(row.window), Decimal(row.tab), row.title, row.url]
  {
    var w, t := Decimal(row.window), Decimal(row.tab);
    var last := row.title + "|||" + row.url;
    var rest := t + "|||" + last;
    RenderLineShape(row);
    DecimalSeparable(row.window);
    DecimalSeparable(row.tab);
    SplitAfterField(w, rest);
    SplitAfterField(t, last);
    SplitAfterField(row.title, row.url);
    NoSeparatorOnePiece(row.url, "|||");
  }

  /** A rendered line parses to the row's record. */
  lemma ParseRenderedLine(row: TabRow)
    requires Renderable(row)
    ensures ParseTabLine(RenderLine(row)) == Expected(row)
  {
    var fields := Split(RenderLine(row), "|||");
    SplitRenderedLine(row);
    assert fields[0] == Decimal(row.window) && fields[1] == Decimal(row.tab);
    assert Field(fields, 2) == NonEmpty(row.title) && Field(fields, 3) == NonEmpty(row.url);
    DecimalRoundTrip(row.window);
    DecimalRoundTrip(row.tab);
  }

  /**
   * A title ending in `|` does not come back: the line `1|||2|||a||||u`
   * reads as title `a` and url `|u`.
   */
  lemma TitleEndingInBarMisread()
    ensures ParseTabLine(RenderLine(TabRow(1, 2, "a|", "u"))) != Expected(TabRow(1, 2, "a|", "u"))
  {
    var row := TabRow(1, 2, "a|", "u");
    var w, t := Decimal(1), Decimal(2);
    var last := "a" + "|||" + "|u";
    RenderLineShape(row);
    assert row.title + "|||" + row.url == last;
    DecimalSeparable(1);
    DecimalSeparable(2);
    SplitAfterField(w, t + "|||" + last);
    SplitAfterField(t, last);
    SplitAfterField("a", "|u");
    assert !Contains("|u", "|||");
    NoSeparatorOnePiece("|u", "|||");
    assert Split(RenderLine(row), "|||")[2] == "a";
  }

  /** The script's output splits into the rendered lines and one empty tail. */
  lemma SplitRendered(rows: seq<TabRow>)
    requires forall k :: 0 <= k < |rows| ==> OneLine(rows[k])
    ensures SplitLines(RenderTabList(rows)) == RenderLines(rows) + [""]
  {
    var lines := RenderLines(rows);
    var pieces := lines + [""];
    ConcatWithTerminator(lines, "\n");
    forall k | 0 <= k < |pieces| ensures "\n"[0] !in pieces[k] && (k < |lines| ==> DropCarriageReturn(pieces[k]) == pieces[k]) {
      if k < |lines| {
        RenderLineFacts(rows[k]);
      }
    }
    SplitJoin(pieces, "\n");
  }

  /** The non-blank lines of the script's output are exactly the rendered lines. */
  lemma TabLinesOfRendered(rows: seq<TabRow>)
    requires forall k :: 0 <= k < |rows| ==> OneLine(rows[k])
    ensures TabLines(RenderTabList(rows)) == RenderLines(rows)
  {
    RenderedLinesTrimmed(rows);
    SplitRendered(rows);
    TabLinesOfTerminated(RenderTabList(rows), RenderLines(rows));
  }

  /** Output whose lines are non-empty and trimmed, each ended by a line feed, has exactly those lines. */
  lemma TabLinesOfTerminated(raw: string, lines: seq<string>)
    requires SplitLines(raw) == lines + [""]
    requires forall k :: 0 <= k < |lines| ==> lines[k] != "" && IsTrimmed(lines[k])
    ensures TabLines(raw) == lines
  {
    assert TrimEach(lines + [""]) == lines + [""] by {
      assert forall k :: 0 <= k < |lines + [""]| ==> IsTrimmed((lines + [""])[k]);
      TrimEachTrimmed(lines + [""]);
    }
    assert KeepNonEmpty(lines + [""]) == lines by {
      KeepNonEmptyDropsEmpty(lines);
      KeepNonEmptyIdentity(lines);
    }
  }

  lemma RenderedLinesTrimmed(rows: seq<TabRow>)
    requires forall k :: 0 <= k < |rows| ==> OneLine(rows[k])
    ensures forall k :: 0 <= k < |rows| ==> RenderLines(rows)[k] != "" && IsTrimmed(RenderLines(rows)[k])
  {
    forall k | 0 <= k < |rows| ensures RenderLine(rows[k]) != "" && IsTrimmed(RenderLine(rows[k])) {
      RenderLineFacts(rows[k]);
    }
  }

  /**
   * Reading back what the script prints gives one record per tab, in
   * order, with the indices as numbers and empty title or url as null.
   */
  lemma TabListRoundTrip(rows: seq<TabRow>)
    requires forall k :: 0 <= k < |rows| ==> Renderable(rows[k])
    ensures |ParseTabList(RenderTabList(rows))| == |rows|
    ensures forall k :: 0 <= k < |rows| ==> ParseTabList(RenderTabList(rows))[k] == Expected(rows[k])
  {
    TabLinesOfRendered(rows);
    forall k | 0 <= k < |rows| ensures ParseTabLine(RenderLine(rows[k])) == Expected(rows[k]) {
      ParseRenderedLine(rows[k]);
    }
  }
}
