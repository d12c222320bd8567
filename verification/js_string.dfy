/**
 * The JavaScript string operations the bridge and the host agent rely on:
 * `trim`, ASCII `toUpperCase`, `startsWith`, `indexOf`/`includes`,
 * `split` with a string separator, and `Array.prototype.join`.
 * Strings are `seq<char>` whose elements are Unicode scalar values; the
 * UTF-16 view (two code units for characters outside the Basic Multilingual
 * Plane, lone surrogates) is not part of this model.
 */
module JsString {
  import opened Wrappers

  /** The characters `String.prototype.trim` removes: ECMAScript WhiteSpace and LineTerminator. */
  predicate IsWhitespace(c: char) {
    || c == '\t' || c == '\n' || c == '\U{000B}' || c == '\U{000C}' || c == '\r' || c == ' '
    || c == '\U{00A0}' || c == '\U{1680}' || ('\U{2000}' <= c <= '\U{200A}')
    || c == '\U{2028}' || c == '\U{2029}' || c == '\U{202F}' || c == '\U{205F}'
    || c == '\U{3000}' || c == '\U{FEFF}'
  }

  predicate AllWhitespace(s: string) {
    forall i :: 0 <= i < |s| ==> IsWhitespace(s[i])
  }

  /** No whitespace at either end: the strings `trim` leaves unchanged. */
  predicate IsTrimmed(s: string) {
    s == [] || (!IsWhitespace(s[0]) && !IsWhitespace(s[|s| - 1]))
  }

  /** Drops leading whitespace; the result is the longest whitespace-free-headed suffix. */
  function TrimStart(s: string): (r: string)
    ensures |r| <= |s| && r == s[|s| - |r|..]
    ensures AllWhitespace(s[..|s| - |r|])
    ensures r == [] || !IsWhitespace(r[0])
  {
    if |s| > 0 && IsWhitespace(s[0]) then
      var r := TrimStart(s[1..]);
      assert s[..|s| - |r|] == [s[0]] + s[1..][..|s[1..]| - |r|];
      r
    else s
  }

  /** Drops trailing whitespace. */
  function TrimEnd(s: string): (r: string)
    ensures |r| <= |s| && r == s[..|r|]
    ensures AllWhitespace(s[|r|..])
    ensures r == [] || !IsWhitespace(r[|r| - 1])
  {
    if |s| > 0 && IsWhitespace(s[|s| - 1]) then
      var r := TrimEnd(s[..|s| - 1]);
      assert s[|r|..] == s[..|s| - 1][|r|..] + [s[|s| - 1]];
      r
    else s
  }

  /** `String.prototype.trim`. */
  function Trim(s: string): (r: string)
    ensures IsTrimmed(r)
    ensures |r| <= |s|
  {
    TrimStart(TrimEnd(s))
  }

  /** Trim removes only whitespace: the result is a slice of the input flanked by whitespace. */
  lemma TrimIsSlice(s: string) returns (i: nat)
    ensures i + |Trim(s)| <= |s|
    ensures Trim(s) == s[i..i + |Trim(s)|]
    ensures AllWhitespace(s[..i]) && AllWhitespace(s[i + |Trim(s)|..])
  {
    var a := TrimEnd(s);
    var r := TrimStart(a);
    i := |a| - |r|;
    assert a == s[..|a|] && r == a[i..];
    assert s[..i] == a[..i];
    assert s[i..i + |r|] == r;
  }

  /** A trimmed string is a fixed point of `trim`. */
  lemma TrimTrimmed(s: string)
    requires IsTrimmed(s)
    ensures Trim(s) == s
  {
  }

  /** `trim` is idempotent. */
  lemma TrimIdempotent(s: string)
    ensures Trim(Trim(s)) == Trim(s)
  {
    TrimTrimmed(Trim(s));
  }

  /** `s.trim()` is empty exactly when every character of `s` is whitespace. */
  lemma TrimEmptyIff(s: string)
    ensures Trim(s) == [] <==> AllWhitespace(s)
  {
    var i := TrimIsSlice(s);
    var t := Trim(s);
    if t == [] {
      forall k | 0 <= k < |s| ensures IsWhitespace(s[k]) {
        if k < i {
          assert s[k] == s[..i][k];
        } else {
          assert s[k] == s[i + |t|..][k - i];
        }
      }
    } else {
      assert t[0] == s[i];
    }
  }

  /** A string holding one non-whitespace character does not trim to empty. */
  lemma TrimNonEmptyWitness(s: string, k: nat)
    requires k < |s| && !IsWhitespace(s[k])
    ensures Trim(s) != []
  {
    TrimEmptyIff(s);
  }

  /** The character removed or kept by trim never comes from nowhere. */
  lemma TrimChars(s: string, c: char)
    requires c in Trim(s)
    ensures c in s
  {
    TrimCharsStart(TrimEnd(s), c);
    TrimCharsEnd(s, c);
  }

  lemma {:induction false} TrimCharsStart(s: string, c: char)
    requires c in TrimStart(s)
    ensures c in s
  {
    if |s| > 0 && IsWhitespace(s[0]) {
      TrimCharsStart(s[1..], c);
    }
  }

  lemma {:induction false} TrimCharsEnd(s: string, c: char)
    requires c in TrimEnd(s)
    ensures c in s
  {
    if |s| > 0 && IsWhitespace(s[|s| - 1]) {
      TrimCharsEnd(s[..|s| - 1], c);
    }
  }

  /** ASCII-only `toUpperCase`. */
  function UpperChar(c: char): char {
    if 'a' <= c <= 'z' then (c as int - 32) as char else c
  }

  function ToUpperAscii(s: string): (r: string)
    ensures |r| == |s|
    ensures forall i :: 0 <= i < |s| ==> r[i] == UpperChar(s[i])
  {
    if s == [] then [] else [UpperChar(s[0])] + ToUpperAscii(s[1..])
  }

  predicate StartsWith(s: string, prefix: string) {
    |prefix| <= |s| && s[..|prefix|] == prefix
  }

  /** `sep` occurs in `s` starting at index `i`. */
  predicate OccursAt(s: string, sep: string, i: int) {
    0 <= i && i + |sep| <= |s| && s[i..i + |sep|] == sep
  }

  /** `String.prototype.includes`. */
  predicate Contains(s: string, sep: string) {
    exists i :: 0 <= i <= |s| && OccursAt(s, sep, i)
  }

  /** `String.prototype.indexOf`: the first occurrence of `sep`, or none. */
  function IndexOf(s: string, sep: string): (r: Option<nat>)
    ensures r.Some? ==> OccursAt(s, sep, r.value)
    ensures r.Some? ==> forall j :: 0 <= j < r.value ==> !OccursAt(s, sep, j)
    ensures r.None? ==> !Contains(s, sep)
    decreases |s|
  {
    if |s| < |sep| then None
    else if s[..|sep|] == sep then Some(0)
    else
      var tail := IndexOf(s[1..], sep);
      forall j | 1 <= j ensures OccursAt(s, sep, j) <==> OccursAt(s[1..], sep, j - 1) {
        OccursShift(s, sep, j);
      }
      match tail
      case None => None
      case Some(k) => Some(k + 1)
  }

  /** Dropping the first character moves every occurrence one place left. */
  lemma OccursShift(s: string, sep: string, j: int)
    requires 1 <= j && |s| > 0
    ensures OccursAt(s, sep, j) <==> OccursAt(s[1..], sep, j - 1)
  {
    if j + |sep| <= |s| {
      var x, y := s[j..j + |sep|], s[1..][j - 1..j - 1 + |sep|];
      forall t | 0 <= t < |sep| ensures x[t] == y[t] {
        assert x[t] == s[j + t] == y[t];
      }
      assert x == y;
    }
  }

  /** An occurrence of `sep` needs the first character of `sep` at its start. */
  lemma OccurrenceHead(s: string, sep: string, i: int)
    requires |sep| > 0 && 0 <= i < |s| && s[i] != sep[0]
    ensures !OccursAt(s, sep, i)
  {
    if i + |sep| <= |s| {
      assert s[i..i + |sep|][0] == s[i];
    }
  }

  /** A string without the first character of `sep` does not contain `sep`. */
  lemma NoHeadNoOccurrence(s: string, sep: string)
    requires |sep| > 0 && sep[0] !in s
    ensures !Contains(s, sep)
  {
    forall i | 0 <= i <= |s| ensures !OccursAt(s, sep, i) {
      if i < |s| {
        OccurrenceHead(s, sep, i);
      }
    }
  }

  /** `String.prototype.split(sep)` for a non-empty string separator. */
  function Split(s: string, sep: string): (r: seq<string>)
    requires |sep| > 0
    ensures |r| >= 1
    ensures forall k :: 0 <= k < |r| ==> !Contains(r[k], sep)
    decreases |s|
  {
    match IndexOf(s, sep)
    case None => [s]
    case Some(i) =>
      BeforeFirst(s, sep, i);
      [s[..i]] + Split(s[i + |sep|..], sep)
  }

  /** The text before the first occurrence of `sep` does not contain `sep`. */
  lemma BeforeFirst(s: string, sep: string, i: nat)
    requires |sep| > 0 && IndexOf(s, sep) == Some(i)
    ensures !Contains(s[..i], sep)
  {
    var head := s[..i];
    forall j | 0 <= j <= |head| ensures !OccursAt(head, sep, j) {
      if j + |sep| <= |head| {
        assert s[j..j + |sep|] == head[j..j + |sep|];
        assert !OccursAt(s, sep, j);
      }
    }
  }

  /** `Array.prototype.join(sep)`. */
  function Join(xs: seq<string>, sep: string): string {
    if |xs| == 0 then ""
    else if |xs| == 1 then xs[0]
    else xs[0] + sep + Join(xs[1..], sep)
  }

  /** Joining the pieces of a split with the same separator gives back the input. */
  lemma {:induction false} JoinSplit(s: string, sep: string)
    requires |sep| > 0
    ensures Join(Split(s, sep), sep) == s
    decreases |s|
  {
    var found := IndexOf(s, sep);
    if found.Some? {
      var i := found.value;
      var rest := s[i + |sep|..];
      var tail := Split(rest, sep);
      JoinSplit(rest, sep);
      var pieces := [s[..i]] + tail;
      assert Split(s, sep) == pieces;
      assert pieces[1..] == tail;
      assert Join(pieces, sep) == s[..i] + sep + Join(tail, sep);
      assert s == s[..i] + sep + rest;
    }
  }

  /**
   * Splitting a join gives back the pieces when no piece holds the first
   * character of the separator.
   */
  lemma {:induction false} SplitJoin(xs: seq<string>, sep: string)
    requires |sep| > 0 && |xs| > 0
    requires forall k :: 0 <= k < |xs| ==> sep[0] !in xs[k]
    ensures Split(Join(xs, sep), sep) == xs
    decreases |xs|
  {
    var x := xs[0];
    if |xs| == 1 {
      NoHeadNoOccurrence(x, sep);
    } else {
      var rest := Join(xs[1..], sep);
      var s := x + sep + rest;
      assert OccursAt(s, sep, |x|) by {
        assert s[|x|..|x| + |sep|] == sep;
      }
      forall j | 0 <= j < |x| ensures !OccursAt(s, sep, j) {
        assert s[j] == x[j];
        OccurrenceHead(s, sep, j);
      }
      assert IndexOf(s, sep) == Some(|x|);
      assert s[..|x|] == x;
      assert s[|x| + |sep|..] == rest;
      SplitJoin(xs[1..], sep);
    }
  }

  /**
   * When the first occurrence of `sep` in `a + sep + b` is the one after `a`,
   * split yields `a` followed by the pieces of `b`.
   */
  lemma SplitAtFirst(a: string, b: string, sep: string)
    requires |sep| > 0
    requires forall j :: 0 <= j < |a| ==> !OccursAt(a + sep + b, sep, j)
    ensures Split(a + sep + b, sep) == [a] + Split(b, sep)
  {
    var s := a + sep + b;
    assert OccursAt(s, sep, |a|) by {
      assert s[|a|..|a| + |sep|] == sep;
    }
    assert IndexOf(s, sep) == Some(|a|);
    assert s[..|a|] == a;
    assert s[|a| + |sep|..] == b;
  }

  /**
   * Splitting a join with a one-character separator gives back the pieces
   * when no piece contains the separator.
   */
  lemma SplitJoinOneChar(xs: seq<string>, sep: string)
    requires |sep| == 1 && |xs| > 0
    requires forall k :: 0 <= k < |xs| ==> !Contains(xs[k], sep)
    ensures Split(Join(xs, sep), sep) == xs
  {
    assert sep == [sep[0]];
    forall k | 0 <= k < |xs| ensures sep[0] !in xs[k] {
      ContainsChar(xs[k], sep[0]);
    }
    SplitJoin(xs, sep);
  }

  /** A one-character separator occurs exactly where its character stands. */
  lemma OccursOneChar(s: string, c: char, j: int)
    ensures OccursAt(s, [c], j) <==> 0 <= j < |s| && s[j] == c
  {
    if 0 <= j < |s| {
      assert s[j..j + 1] == [s[j]];
    }
  }

  /** A prefix free of `c` holds no occurrence of `[c]`, whatever follows it. */
  lemma OneCharFreePrefix(a: string, c: char, rest: string)
    requires c !in a
    ensures forall j :: 0 <= j < |a| ==> !OccursAt(a + rest, [c], j)
  {
    forall j | 0 <= j < |a| ensures !OccursAt(a + rest, [c], j) {
      OccursOneChar(a + rest, c, j);
      assert (a + rest)[j] == a[j];
    }
  }

  /** The text before the first occurrence of a one-character separator is free of it. */
  lemma FirstOneChar(a: string, c: char, i: nat)
    requires IndexOf(a, [c]) == Some(i)
    ensures i < |a| && a[i] == c && c !in a[..i]
  {
    OccursOneChar(a, c, i);
    forall j | 0 <= j < i ensures a[..i][j] != c {
      OccursOneChar(a, c, j);
    }
  }

  /**
   * Splitting on a one-character separator distributes over a join at that
   * separator: `(a + c + b).split(c)` is `a.split(c)` followed by `b.split(c)`.
   */
  lemma {:induction false} SplitOneCharAppend(a: string, c: char, b: string)
    ensures Split(a + [c] + b, [c]) == Split(a, [c]) + Split(b, [c])
    decreases |a|
  {
    var found := IndexOf(a, [c]);
    if found.None? {
      SplitOneCharNoneStep(a, c, b);
    } else {
      var head := a[..found.value];
      var rest := SplitOneCharStep(a, c, b, found.value);
      var whole, left, right := Split(rest + [c] + b, [c]), Split(rest, [c]), Split(b, [c]);
      SplitOneCharAppend(rest, c, b);
      SeqAssoc([head], left, right);
    }
  }

  lemma SeqAssoc<T>(x: seq<T>, y: seq<T>, z: seq<T>)
    ensures x + (y + z) == (x + y) + z
  {
  }

  /** The last piece: `a` holds no separator. */
  lemma SplitOneCharNoneStep(a: string, c: char, b: string)
    requires IndexOf(a, [c]).None?
    ensures Split(a + [c] + b, [c]) == [a] + Split(b, [c])
    ensures Split(a, [c]) == [a]
  {
    ContainsChar(a, c);
    OneCharFreePrefix(a, c, [c] + b);
    assert a + ([c] + b) == a + [c] + b;
    SplitAtFirst(a, b, [c]);
  }

  /** One step: the piece before the first separator of `a` is split off both sides alike. */
  lemma SplitOneCharStep(a: string, c: char, b: string, i: nat) returns (rest: string)
    requires IndexOf(a, [c]) == Some(i)
    ensures |rest| < |a|
    ensures Split(a, [c]) == [a[..i]] + Split(rest, [c])
    ensures Split(a + [c] + b, [c]) == [a[..i]] + Split(rest + [c] + b, [c])
  {
    FirstOneChar(a, c, i);
    var head := a[..i];
    rest := a[i + 1..];
    var tail := rest + [c] + b;
    assert a == head + [c] + rest;
    SeqAssoc(head + [c], rest, [c]);
    SeqAssoc(head + [c], rest + [c], b);
    OneCharFreePrefix(head, c, [c] + tail);
    assert head + ([c] + tail) == head + [c] + tail;
    SplitAtFirst(head, tail, [c]);
  }

  /** Appending a separator to every piece is joining with one more, empty, piece. */
  lemma {:induction false} ConcatWithTerminator(xs: seq<string>, sep: string)
    ensures Join(xs + [""], sep) == TerminateAll(xs, sep)
    decreases |xs|
  {
    if |xs| == 0 {
    } else if |xs| == 1 {
      assert xs + [""] == [xs[0], ""];
      assert Join([""], sep) == "";
    } else {
      ConcatWithTerminator(xs[1..], sep);
      assert (xs + [""])[1..] == xs[1..] + [""];
    }
  }

  /** Every piece followed by the separator, concatenated. */
  function TerminateAll(xs: seq<string>, sep: string): string {
    if |xs| == 0 then "" else xs[0] + sep + TerminateAll(xs[1..], sep)
  }

  /**
   * The first-occurrence reading of split-with-rest-join: the head of
   * `s.split(sep)` is the text before the first separator and the rest,
   * rejoined, is everything after it.
   */
  lemma SplitHeadRest(s: string, sep: string, i: nat)
    requires |sep| > 0 && IndexOf(s, sep) == Some(i)
    ensures |Split(s, sep)| >= 2
    ensures Split(s, sep)[0] == s[..i]
    ensures Join(Split(s, sep)[1..], sep) == s[i + |sep|..]
  {
    var tail := Split(s[i + |sep|..], sep);
    assert Split(s, sep) == [s[..i]] + tail;
    assert Split(s, sep)[1..] == tail;
    JoinSplit(s[i + |sep|..], sep);
  }

  /** A join starts with its first piece. */
  lemma JoinStartsWithFirst(xs: seq<string>, sep: string)
    requires |xs| > 0
    ensures StartsWith(Join(xs, sep), xs[0])
  {
  }

  /** A string holding a non-whitespace character keeps something after trim. */
  lemma TrimKeepsPrefixWitness(s: string, prefix: string, k: nat)
    requires StartsWith(s, prefix) && k < |prefix| && !IsWhitespace(prefix[k])
    ensures Trim(s) != []
  {
    assert s[k] == prefix[k];
    TrimNonEmptyWitness(s, k);
  }

  /** A join of non-empty pieces is empty exactly when there are no pieces. */
  lemma JoinEmptyIff(xs: seq<string>, sep: string)
    requires forall k :: 0 <= k < |xs| ==> xs[k] != ""
    ensures Join(xs, sep) == "" <==> xs == []
  {
    if xs != [] {
      JoinStartsWithFirst(xs, sep);
    }
  }

  /** `.filter(Boolean)` on an array of strings: the non-empty ones, in order. */
  function KeepNonEmpty(xs: seq<string>): (r: seq<string>)
    ensures |r| <= |xs|
    ensures forall k :: 0 <= k < |r| ==> r[k] != "" && r[k] in xs
  {
    if xs == [] then []
    else
      var rest := KeepNonEmpty(xs[1..]);
      assert forall k :: 0 <= k < |rest| ==> rest[k] in xs;
      (if xs[0] == "" then [] else [xs[0]]) + rest
  }

  /** Filtering a concatenation filters each part. */
  lemma {:induction false} KeepNonEmptyAppend(a: seq<string>, b: seq<string>)
    ensures KeepNonEmpty(a + b) == KeepNonEmpty(a) + KeepNonEmpty(b)
    decreases |a|
  {
    if a == [] {
      assert a + b == b;
    } else {
      var head := if a[0] == "" then [] else [a[0]];
      assert (a + b)[0] == a[0] && (a + b)[1..] == a[1..] + b;
      assert KeepNonEmpty(a + b) == head + KeepNonEmpty(a[1..] + b);
      KeepNonEmptyAppend(a[1..], b);
      SeqAssoc(head, KeepNonEmpty(a[1..]), KeepNonEmpty(b));
    }
  }

  /** One string survives the filter exactly when it is non-empty. */
  lemma KeepNonEmptySingle(x: string)
    ensures KeepNonEmpty([x]) == if x == "" then [] else [x]
  {
    assert [x][1..] == [];
  }

  /** Filtering keeps a list of non-empty strings whole. */
  lemma {:induction false} KeepNonEmptyIdentity(xs: seq<string>)
    requires forall k :: 0 <= k < |xs| ==> xs[k] != ""
    ensures KeepNonEmpty(xs) == xs
    decreases |xs|
  {
    if xs != [] {
      KeepNonEmptyIdentity(xs[1..]);
    }
  }

  /** `.filter(Boolean)` ignores a trailing empty string. */
  lemma {:induction false} KeepNonEmptyDropsEmpty(xs: seq<string>)
    ensures KeepNonEmpty(xs + [""]) == KeepNonEmpty(xs)
    decreases |xs|
  {
    if xs == [] {
      assert KeepNonEmpty([""][1..]) == [];
    } else {
      assert (xs + [""])[1..] == xs[1..] + [""];
      KeepNonEmptyDropsEmpty(xs[1..]);
    }
  }

  /** `.map((item) => item.trim())`. */
  function TrimEach(xs: seq<string>): (r: seq<string>)
    ensures |r| == |xs|
    ensures forall k :: 0 <= k < |xs| ==> r[k] == Trim(xs[k])
    ensures forall k :: 0 <= k < |xs| ==> IsTrimmed(r[k])
  {
    if xs == [] then [] else [Trim(xs[0])] + TrimEach(xs[1..])
  }

  /** Trimming each item of a concatenation trims each part. */
  lemma {:induction false} TrimEachAppend(a: seq<string>, b: seq<string>)
    ensures TrimEach(a + b) == TrimEach(a) + TrimEach(b)
    decreases |a|
  {
    if a == [] {
      assert a + b == b;
    } else {
      assert (a + b)[1..] == a[1..] + b;
      TrimEachAppend(a[1..], b);
    }
  }

  /** A one-character separator occurs in a string exactly when the character does. */
  lemma ContainsChar(s: string, c: char)
    ensures Contains(s, [c]) <==> c in s
  {
    if c in s {
      var i :| 0 <= i < |s| && s[i] == c;
      assert s[i..i + 1] == [c];
      assert OccursAt(s, [c], i);
    } else {
      NoHeadNoOccurrence(s, [c]);
    }
  }

  /** Dropping a trailing whitespace character does not change what `trim` keeps. */
  lemma TrimDropTrailingWhitespace(s: string)
    requires |s| > 0 && IsWhitespace(s[|s| - 1])
    ensures Trim(s[..|s| - 1]) == Trim(s)
  {
  }

  /** Trimming each of a list of trimmed strings changes nothing. */
  lemma TrimEachTrimmed(xs: seq<string>)
    requires forall k :: 0 <= k < |xs| ==> IsTrimmed(xs[k])
    ensures TrimEach(xs) == xs
  {
    forall k | 0 <= k < |xs| ensures Trim(xs[k]) == xs[k] {
      TrimTrimmed(xs[k]);
    }
  }
}
