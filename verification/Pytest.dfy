/** The regular expressions of the pytest parser, written out (src/core/domain/signature.py:40-52, 143). */
module Pytest {
  import opened Wrappers
  import opened Scanning
  import Text

  predicate NotNewline(c: char) {
    c != '\n'
  }

  /** The separator stands here, with something before it and something after it. */
  predicate Splits(word: string, separator: string, i: int) {
    1 <= i && i + |separator| < |word| && word[i..i + |separator|] == separator
  }

  predicate Inside(word: string, separator: string) {
    exists i :: 1 <= i < |word| && Splits(word, separator, i)
  }

  // --- does the run look green? -----------------------------------------------------

  /** Case folding, on ASCII text. */
  function Lower(c: char): char {
    if 65 <= c as int <= 90 then (c as int + 32) as char else c
  }

  function LowerAll(s: string): (r: string)
    ensures |r| == |s| && forall i :: 0 <= i < |s| ==> r[i] == Lower(s[i])
  {
    seq(|s|, i requires 0 <= i < |s| => Lower(s[i]))
  }

  /** The word stands at this position, between word boundaries. */
  predicate WordAt(text: string, word: string, k: nat) {
    && k + |word| <= |text| && text[k..k + |word|] == word
    && (k == 0 || !IsWord(text[k - 1])) && (k + |word| == |text| || !IsWord(text[k + |word|]))
  }

  predicate HasWord(text: string, word: string) {
    exists k: nat :: k <= |text| && WordAt(text, word, k)
  }

  predicate LooksGreen(text: string) {
    HasWord(text, "passed") && !HasWord(LowerAll(text), "failed") && !HasWord(LowerAll(text), "error")
  }

  // --- the short summary --------------------------------------------------------------

  /** What follows the white space at the start, if there is any. */
  function AfterSpace(s: string): Option<string> {
    var n := Span(s, Text.IsSpace);
    if n == 0 then None else Some(s[n..])
  }

  /** An exception name, then an optional colon and message up to the end of the line. */
  function NameAndMessage(s: string): Option<(string, string)> {
    var k := Span(s, IsWordOrDot);
    if !IsExceptionName(s[..k]) then None
    else if k == |s| || s[k] != ':' then Some((s[..k], ""))
    else
      var rest := s[k + 1..];
      var message := rest[Span(rest, Text.IsSpace)..];
      Some((s[..k], message[..Span(message, NotNewline)]))
  }

  /** The optional ` - Exception: message` after a node id. */
  function SummaryTail(s: string): Option<(string, string)> {
    var dash := AfterSpace(s);
    if dash.None? || dash.value == "" || dash.value[0] != '-' then None
    else
      var name := AfterSpace(dash.value[1..]);
      if name.None? then None else NameAndMessage(name.value)
  }

  datatype Summary = Summary(nodeId: string, failure: Option<(string, string)>)

  function SummaryAfter(rest: string): Option<Summary> {
    var id := AfterSpace(rest);
    if id.None? then None
    else
      var n := Span(id.value, NotSpace);
      if Inside(id.value[..n], "::") then Some(Summary(id.value[..n], SummaryTail(id.value[n..]))) else None
  }

  /** A `FAILED` or `ERROR` line, matched at its start. */
  function MatchSummary(s: string): Option<Summary> {
    if StartsWith(s, "FAILED") then SummaryAfter(s[6..])
    else if StartsWith(s, "ERROR") then SummaryAfter(s[5..])
    else None
  }

  /** The first one, given whether the text starts a line. */
  function FirstSummary(s: string, lineStart: bool): Option<Summary> {
    if s == "" then None
    else if lineStart && MatchSummary(s).Some? then MatchSummary(s)
    else FirstSummary(s[1..], s[0] == '\n')
  }

  // --- the E lines ----------------------------------------------------------------------

  datatype Failure = Failure(exc: string, message: string)

  /** What the line holds after its `E` and white space: the failure, and how much text it takes. */
  function MatchFailure(s: string): (r: Option<(Failure, nat)>)
    ensures r.Some? ==> 0 < r.value.1 <= |s|
  {
    var k := Span(s, IsWordOrDot);
    if !IsExceptionName(s[..k]) then None
    else if k == |s| || s[k] == '\n' then Some((Failure(s[..k], ""), k))
    else if s[k] != ':' then None
    else
      var rest := s[k + 1..];
      var n := Span(rest, Text.IsSpace);
      var m := Span(rest[n..], NotNewline);
      Some((Failure(s[..k], rest[n..][..m]), k + 1 + n + m))
  }

  function MatchErrorLine(s: string): (r: Option<(Failure, nat)>)
    ensures r.Some? ==> 0 < r.value.1 <= |s|
  {
    if s == "" || s[0] != 'E' then None
    else
      var n := Span(s[1..], Text.IsSpace);
      var m := MatchFailure(s[1 + n..]);
      if n == 0 || m.None? then None else Some((m.value.0, 1 + n + m.value.1))
  }

  /** All of them, left to right, without overlaps. */
  function ErrorLines(s: string, lineStart: bool): seq<Failure>
    decreases |s|
  {
    if s == "" then []
    else
      var m := MatchErrorLine(s);
      if lineStart && m.Some? then
        [m.value.0] + ErrorLines(s[m.value.1..], s[m.value.1 - 1] == '\n')
      else ErrorLines(s[1..], s[0] == '\n')
  }

  // --- node ids and frames anywhere -------------------------------------------------------

  /** The first word that holds `.py::`. */
  function FirstNodeId(s: string): Option<string>
    decreases |s|
  {
    if s == "" then None
    else
      var n := Span(s, NotSpace);
      if n == 0 then FirstNodeId(s[1..])
      else if Inside(s[..n], ".py::") then Some(s[..n])
      else FirstNodeId(s[n..])
  }

  /** How many digits the text ends in. */
  function TrailingDigits(s: string): (n: nat)
    ensures n <= |s|
  {
    if s == "" || !Text.IsDigit(s[|s| - 1]) then 0 else 1 + TrailingDigits(s[..|s| - 1])
  }

  /** A `path.py:12: in name` line, matched at its start: the path and the name. */
  function MatchPytestFrame(s: string): Option<(string, string)> {
    var n := Span(s, NotSpace);
    if n == 0 || s[n - 1] != ':' || !StartsWith(s[n..], " in ") then None
    else
      var place := s[..n - 1];
      var d := TrailingDigits(place);
      var path := place[..|place| - d];
      var func := s[n + 4..];
      var f := Span(func, NotSpace);
      if d == 0 || f == 0 || |path| < 5 || !Text.EndsWith(path, ".py:") then None
      else Some((path[..|path| - 1], func[..f]))
  }

  function FirstPytestFrame(s: string, lineStart: bool): Option<(string, string)> {
    if s == "" then None
    else if lineStart && MatchPytestFrame(s).Some? then MatchPytestFrame(s)
    else FirstPytestFrame(s[1..], s[0] == '\n')
  }

  // --- exception names ----------------------------------------------------------------------

  lemma {:induction false} ErrorLinesAreNamed(s: string, lineStart: bool)
    ensures forall f :: f in ErrorLines(s, lineStart) ==> IsExceptionName(f.exc)
    decreases |s|
  {
    hide IsExceptionName, Text.IsSpace, IsWordOrDot, Span;
    if s != "" {
      var m := MatchErrorLine(s);
      if lineStart && m.Some? {
        ErrorLinesAreNamed(s[m.value.1..], s[m.value.1 - 1] == '\n');
      } else {
        ErrorLinesAreNamed(s[1..], s[0] == '\n');
      }
    }
  }

  lemma {:induction false} SummaryHasAnId(s: string, lineStart: bool)
    ensures FirstSummary(s, lineStart).Some? ==> FirstSummary(s, lineStart).value.nodeId != ""
  {
    hide Text.IsSpace, Span, StartsWith, SummaryTail;
    if s != "" {
      SummaryHasAnId(s[1..], s[0] == '\n');
    }
  }

  lemma SummaryTailIsNamed(s: string)
    ensures SummaryTail(s).Some? ==> IsExceptionName(SummaryTail(s).value.0)
  {
    hide IsExceptionName, AfterSpace;
  }

  lemma MatchedSummaryIsNamed(s: string)
    ensures var m := MatchSummary(s); m.Some? && m.value.failure.Some? ==> IsExceptionName(m.value.failure.value.0)
  {
    hide IsExceptionName, SummaryTail, AfterSpace, StartsWith, Inside;
    forall t ensures SummaryTail(t).Some? ==> IsExceptionName(SummaryTail(t).value.0) {
      SummaryTailIsNamed(t);
    }
  }

  lemma {:induction false} SummaryIsNamed(s: string, lineStart: bool)
    ensures var found := FirstSummary(s, lineStart);
      found.Some? && found.value.failure.Some? ==> IsExceptionName(found.value.failure.value.0)
  {
    hide IsExceptionName, MatchSummary;
    if s != "" {
      MatchedSummaryIsNamed(s);
      SummaryIsNamed(s[1..], s[0] == '\n');
    }
  }
}
