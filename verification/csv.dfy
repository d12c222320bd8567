/**
 * `parseCsvLine` (scripts/host-automation-agent.mjs): the comma-separated
 * list AppleScript prints for a list of names, read back as items.
 */
module Csv {
  import opened JsString

  /** `raw ? raw.split(",").map(trim).filter(Boolean) : []`. */
  function ParseCsvLine(raw: string): (items: seq<string>)
    ensures raw == "" ==> items == []
    ensures forall k :: 0 <= k < |items| ==> items[k] != "" && IsTrimmed(items[k]) && ',' !in items[k]
  {
    if raw == "" then []
    else
      TrimmedFields(raw);
      KeepNonEmpty(TrimEach(Split(raw, ",")))
  }

  /** The empty line needs no special case: its one field is empty and filtered out. */
  lemma ParseSplitFields(raw: string)
    ensures ParseCsvLine(raw) == KeepNonEmpty(TrimEach(Split(raw, ",")))
  {
    if raw == "" {
      assert Split(raw, ",") == [""];
      assert Trim("") == "";
      assert TrimEach([""]) == [""];
      KeepNonEmptySingle("");
    }
  }

  /**
   * Parsing two lines joined by a comma gives the items of the first, then
   * those of the second: the reading works field by field.
   */
  lemma CsvConcat(a: string, b: string)
    ensures ParseCsvLine(a + "," + b) == ParseCsvLine(a) + ParseCsvLine(b)
  {
    ParseSplitFields(a);
    ParseSplitFields(b);
    ParseSplitFields(a + "," + b);
    assert "," == [','];
    SplitOneCharAppend(a, ',', b);
    TrimEachAppend(Split(a, ","), Split(b, ","));
    KeepNonEmptyAppend(TrimEach(Split(a, ",")), TrimEach(Split(b, ",")));
  }

  /** Every trimmed comma-separated field is free of commas. */
  lemma TrimmedFields(raw: string)
    ensures forall k :: 0 <= k < |TrimEach(Split(raw, ","))| ==>
              IsTrimmed(TrimEach(Split(raw, ","))[k]) && ',' !in TrimEach(Split(raw, ","))[k]
  {
    var pieces := Split(raw, ",");
    forall k | 0 <= k < |pieces| ensures ',' !in Trim(pieces[k]) {
      ContainsChar(pieces[k], ',');
      if ',' in Trim(pieces[k]) {
        TrimChars(pieces[k], ',');
      }
    }
  }

  /**
   * Printing a list of non-empty trimmed names without commas as
   * `a,b,c` and parsing it gives the list back, in order.
   */
  lemma CsvRoundTrip(names: seq<string>)
    requires forall k :: 0 <= k < |names| ==> names[k] != "" && IsTrimmed(names[k]) && ',' !in names[k]
    ensures ParseCsvLine(Join(names, ",")) == names
  {
    JoinEmptyIff(names, ",");
    if names != [] {
      SplitCommaJoin(names);
      TrimEachTrimmed(names);
      KeepNonEmptyIdentity(names);
    }
  }

  lemma SplitCommaJoin(names: seq<string>)
    requires |names| > 0
    requires forall k :: 0 <= k < |names| ==> ',' !in names[k]
    ensures Split(Join(names, ","), ",") == names
  {
    assert forall k :: 0 <= k < |names| ==> ","[0] !in names[k];
    SplitJoin(names, ",");
  }

  /** Every name after the first with a leading space: the fields of a list printed with ", ". */
  function Spaced(names: seq<string>): (r: seq<string>)
    requires |names| > 0
    ensures |r| == |names| && r[0] == names[0]
    ensures forall k :: 1 <= k < |names| ==> r[k] == " " + names[k]
  {
    [names[0]] + seq(|names| - 1, k requires 0 <= k < |names| - 1 => " " + names[k + 1])
  }

  function PrefixSpace(ys: seq<string>): (r: seq<string>)
    ensures |r| == |ys|
    ensures forall k :: 0 <= k < |ys| ==> r[k] == " " + ys[k]
  {
    seq(|ys|, k requires 0 <= k < |ys| => " " + ys[k])
  }

  lemma {:induction false} JoinPrefixSpace(ys: seq<string>)
    requires |ys| > 0
    ensures Join(PrefixSpace(ys), ",") == " " + Join(ys, ", ")
    decreases |ys|
  {
    if |ys| > 1 {
      JoinPrefixSpace(ys[1..]);
      assert PrefixSpace(ys)[1..] == PrefixSpace(ys[1..]);
    }
  }

  lemma CommaSpace(head: string, tail: string)
    ensures head + "," + (" " + tail) == head + ", " + tail
  {
    assert "," + " " == ", ";
  }

  lemma JoinSpaced(names: seq<string>)
    requires |names| > 0
    ensures Join(names, ", ") == Join(Spaced(names), ",")
  {
    var fields := Spaced(names);
    if |names| == 1 {
      assert fields == names;
    } else {
      var rest := names[1..];
      assert fields[1..] == PrefixSpace(rest);
      JoinPrefixSpace(rest);
      CommaSpace(names[0], Join(rest, ", "));
    }
  }

  lemma TrimLeadingSpace(n: string)
    requires n != "" && IsTrimmed(n)
    ensures Trim(" " + n) == n
  {
    assert (" " + n)[1..] == n;
    TrimTrimmed(n);
  }

  /**
   * AppleScript prints a list of names separated by ", "; the space after
   * each comma is trimmed away, so that output parses to the same names.
   */
  lemma CsvReadsAppleScriptList(names: seq<string>)
    requires forall k :: 0 <= k < |names| ==> names[k] != "" && IsTrimmed(names[k]) && ',' !in names[k]
    ensures ParseCsvLine(Join(names, ", ")) == names
  {
    if names != [] {
      JoinSpaced(names);
      var fields := Spaced(names);
      JoinStartsWithFirst(fields, ",");
      SpacedFields(names);
      SplitCommaJoin(fields);
      ParsesToFields(Join(names, ", "), fields);
      KeepNonEmptyIdentity(names);
    }
  }

  /** The ", "-separated fields carry no comma and trim back to the names. */
  lemma SpacedFields(names: seq<string>)
    requires |names| > 0
    requires forall k :: 0 <= k < |names| ==> names[k] != "" && IsTrimmed(names[k]) && ',' !in names[k]
    ensures forall k :: 0 <= k < |names| ==> ',' !in Spaced(names)[k]
    ensures TrimEach(Spaced(names)) == names
  {
    var fields := Spaced(names);
    forall k | 0 <= k < |names| ensures ',' !in fields[k] && Trim(fields[k]) == names[k] {
      if k == 0 {
        TrimTrimmed(names[0]);
      } else {
        TrimLeadingSpace(names[k]);
      }
    }
  }

  /** The parse of a non-empty line is the non-empty trimmed fields of its comma split. */
  lemma ParsesToFields(raw: string, fields: seq<string>)
    requires raw != "" && Split(raw, ",") == fields
    ensures ParseCsvLine(raw) == KeepNonEmpty(TrimEach(fields))
  {
  }
}
