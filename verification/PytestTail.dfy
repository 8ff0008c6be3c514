/** Printing the end of a pytest run and parsing it back. */
module PytestTail {
  import opened Wrappers
  import opened Domain
  import opened Scanning
  import opened Pytest
  import opened Signatures
  import Text

  /** The words that open a row the parser looks at. */
  datatype Head = EHead | FailedHead | ErrorHead

  function HeadText(h: Head): string {
    match h
    case EHead => "E"
    case FailedHead => "FAILED"
    case ErrorHead => "ERROR"
  }

  /** What is printed. White space may hold line breaks where the patterns let it: a failure can stand on the
      row below its `E`, and a message on the row below its colon. The tail of a summary is whatever pytest
      still found room for. */
  datatype Line =
    | Plain(text: string)
    | Bare(head: Head, pad: string)
    | Failed(pad: string, exc: string, message: Option<(string, string)>)
    | Short(collecting: bool, nodeId: string, tail: string)

  function Word(collecting: bool): string {
    if collecting then "ERROR" else "FAILED"
  }

  function Details(exc: string, message: Option<(string, string)>): string {
    if message.None? then exc else exc + (":" + (message.value.0 + message.value.1))
  }

  function Show(l: Line): string {
    match l
    case Plain(text) => text
    case Bare(head, pad) => HeadText(head) + pad
    case Failed(pad, exc, message) => "E" + (pad + Details(exc, message))
    case Short(collecting, nodeId, tail) => Word(collecting) + (" " + (nodeId + tail))
  }

  function Print(lines: seq<Line>): string {
    if lines == [] then "" else Show(lines[0]) + ("\n" + Print(lines[1..]))
  }

  function Named(l: Line): Failure
    requires l.Failed?
  {
    Failure(l.exc, if l.message.None? then "" else l.message.value.1)
  }

  function Failures(lines: seq<Line>): seq<Failure> {
    if lines == [] then []
    else (if lines[0].Failed? then [Named(lines[0])] else []) + Failures(lines[1..])
  }

  function Shorts(lines: seq<Line>): (r: seq<Line>)
    ensures forall i :: 0 <= i < |r| ==> r[i].Short?
  {
    if lines == [] then [] else (if lines[0].Short? then [lines[0]] else []) + Shorts(lines[1..])
  }

  /** The exception name a summary's tail still shows; empty when it shows none. */
  function TailName(tail: string): string {
    var found := SummaryTail(tail);
    if found.Some? then found.value.0 else ""
  }

  // --- what may be printed ------------------------------------------------------------

  predicate OneRow(s: string) {
    forall i :: 0 <= i < |s| ==> s[i] != '\n'
  }

  /** A content that names no exception: its first word is no name, or goes on neither to a colon nor to the end. */
  predicate NamesNothing(s: string) {
    var k := Span(s, IsWordOrDot);
    !IsExceptionName(s[..k]) || (k < |s| && s[k] != ':' && s[k] != '\n')
  }

  /** What stands after the head and its white space matches nothing: no exception after an `E`, no node id after
      the other two. */
  predicate QuietContent(h: Head, s: string) {
    && s != "" && !Text.IsSpace(s[0])
    && if h.EHead? then NamesNothing(s) else !Inside(s[..Span(s, NotSpace)], "::")
  }

  predicate QuietAfter(h: Head, after: string) {
    after != "" && (!Text.IsSpace(after[0]) || QuietContent(h, Text.LStrip(after)))
  }

  /** The row does not open with this head, or settles on itself that the head matches nothing. */
  predicate QuietFor(h: Head, row: string) {
    StartsWith(row, HeadText(h)) ==> QuietAfter(h, row[|HeadText(h)|..])
  }

  predicate NoSummaryAt(s: string) {
    !StartsWith(s, "FAILED") && !StartsWith(s, "ERROR")
  }

  /** If a row starts after this character, it does not open like a summary. */
  predicate NoSummaryBelow(s: string, i: nat)
    requires i < |s|
  {
    s[i] == '\n' ==> NoSummaryAt(s[i + 1..])
  }

  predicate NoSummaryWithin(s: string) {
    forall i :: 0 <= i < |s| ==> NoSummaryBelow(s, i)
  }

  /** The tail decides on its own what it names, or shows nothing and no dash opens the row below. */
  predicate Settled(tail: string, next: Option<string>) {
    var a := Text.LStrip(tail);
    if a == "" then next.None? || (Text.LStrip(next.value) != "" && Text.LStrip(next.value)[0] != '-')
    else a[0] == '-' ==> |a| > 1 && (!Text.IsSpace(a[1]) || Text.LStrip(a[1..]) != "")
  }

  /** The white space after the colon, then a message of one row that does not start with more of it. */
  predicate ProperMessage(message: Option<(string, string)>) {
    message.Some? ==>
      && Text.Blank(message.value.0) && OneRow(message.value.1) && message.value.1 != "" && !Text.IsSpace(message.value.1[0])
  }

  /** The line can stand above the next one (or above the end of the text). */
  predicate Printable(l: Line, next: Option<string>) {
    match l
    case Plain(text) => OneRow(text) && QuietFor(EHead, text) && QuietFor(FailedHead, text) && QuietFor(ErrorHead, text)
    case Bare(head, pad) =>
      OneRow(pad) && Text.Blank(pad) && (next.None? || QuietContent(head, Text.LStrip(next.value)))
    case Failed(pad, exc, message) =>
      pad != "" && Text.Blank(pad) && IsExceptionName(exc) && ProperMessage(message) && NoSummaryWithin(Show(l))
    case Short(_, nodeId, tail) =>
      && nodeId != "" && (forall i :: 0 <= i < |nodeId| ==> NotSpace(nodeId[i])) && Inside(nodeId, "::")
      && OneRow(tail) && (tail == "" || Text.IsSpace(tail[0])) && Settled(tail, next)
  }

  function Next(lines: seq<Line>, i: nat): Option<string> {
    if i + 1 < |lines| then Some(Show(lines[i + 1])) else None
  }

  predicate AllPrintable(lines: seq<Line>) {
    forall i :: 0 <= i < |lines| ==> Printable(lines[i], Next(lines, i))
  }

  // --- scanning one row ---------------------------------------------------------------

  /** Away from the start of a line nothing is matched before the next one. */
  lemma {:induction false} RestOfRow(row: string, rest: string)
    requires OneRow(row)
    ensures ErrorLines(row + ("\n" + rest), false) == ErrorLines(rest, true)
    ensures FirstSummary(row + ("\n" + rest), false) == FirstSummary(rest, true)
  {
    hide MatchErrorLine, MatchSummary;
    var s := row + ("\n" + rest);
    if row == "" {
      assert s[0] == '\n' && s[1..] == rest;
    } else {
      RestOfRow(row[1..], rest);
      assert s[0] == row[0] && s[1..] == row[1..] + ("\n" + rest);
    }
  }

  lemma NoErrorHere(row: string, rest: string)
    requires OneRow(row) && MatchErrorLine(row + ("\n" + rest)).None?
    ensures ErrorLines(row + ("\n" + rest), true) == ErrorLines(rest, true)
  {
    hide MatchErrorLine, OneRow;
    RestOfRow(row, rest);
    assert row + ("\n" + rest) != "";
  }

  lemma NoSummaryHere(row: string, rest: string)
    requires OneRow(row) && MatchSummary(row + ("\n" + rest)).None?
    ensures FirstSummary(row + ("\n" + rest), true) == FirstSummary(rest, true)
  {
    hide MatchSummary, OneRow;
    RestOfRow(row, rest);
    assert row + ("\n" + rest) != "";
  }

  /** A stretch of rows none of which opens like a summary, at its start if that starts a row. */
  lemma {:induction false} SkipRows(b: string, rest: string, lineStart: bool)
    requires NoSummaryWithin(b) && (lineStart ==> NoSummaryAt(b))
    ensures FirstSummary(b + ("\n" + rest), lineStart) == FirstSummary(rest, true)
  {
    var s := b + ("\n" + rest);
    if lineStart {
      StartsWithinRow(b, rest, "FAILED");
      StartsWithinRow(b, rest, "ERROR");
    }
    hide NoSummaryAt, SummaryAfter, StartsWith;
    if b == "" {
      assert s[0] == '\n' && s[1..] == rest;
    } else {
      assert s[0] == b[0] && s[1..] == b[1..] + ("\n" + rest);
      forall i | 0 <= i < |b| - 1 ensures NoSummaryBelow(b[1..], i) {
        assert NoSummaryBelow(b, i + 1) && b[1..][i + 1..] == b[i + 2..];
      }
      assert NoSummaryBelow(b, 0);
      SkipRows(b[1..], rest, b[0] == '\n');
    }
  }

  // --- a line of each kind ------------------------------------------------------------

  lemma NewlineIsSpace()
    ensures Text.IsSpace('\n') && !IsWordOrDot('\n') && !IsWordOrDot(':') && Text.IsSpace(' ') && !Text.IsSpace(':')
  {
  }

  lemma NamesStartNoSpace(exc: string)
    requires IsExceptionName(exc)
    ensures exc != "" && !Text.IsSpace(exc[0]) && exc[0] != ':'
  {
  }

  lemma NameSpan(exc: string, rest: string)
    requires IsExceptionName(exc) && rest != "" && !IsWordOrDot(rest[0])
    ensures Span(exc + rest, IsWordOrDot) == |exc| && (exc + rest)[..|exc|] == exc && (exc + rest)[|exc|..] == rest
  {
    assert forall i :: 0 <= i < |exc| ==> IsWordOrDot(exc[i]);
    hide Span, IsWordOrDot, IsExceptionName;
    SpanStops(exc, rest, IsWordOrDot);
  }

  lemma BareReadsBack(exc: string, rest: string)
    requires IsExceptionName(exc)
    ensures MatchFailure(exc + ("\n" + rest)) == Some((Failure(exc, ""), |exc|))
  {
    hide IsExceptionName, Span, Text.IsSpace, IsWordOrDot;
    NewlineIsSpace();
    var t := exc + ("\n" + rest);
    NameSpan(exc, "\n" + rest);
    assert t[|exc|] == '\n';
  }

  lemma MessageSpan(gap: string, message: string, rest: string)
    requires Text.Blank(gap) && message != "" && !Text.IsSpace(message[0]) && OneRow(message)
    ensures var after := gap + (message + ("\n" + rest));
      && Span(after, Text.IsSpace) == |gap| && after[|gap|..] == message + ("\n" + rest)
      && Span(after[|gap|..], NotNewline) == |message| && after[|gap|..][..|message|] == message
  {
    hide Text.IsSpace, Span;
    SpanStops(gap, message + ("\n" + rest), Text.IsSpace);
    StartsAndRest(gap, message + ("\n" + rest));
    SpanStops(message, "\n" + rest, NotNewline);
    StartsAndRest(message, "\n" + rest);
  }

  lemma MessageReadsBack(exc: string, gap: string, message: string, rest: string)
    requires IsExceptionName(exc) && Text.Blank(gap) && message != "" && !Text.IsSpace(message[0]) && OneRow(message)
    ensures MatchFailure(exc + (":" + (gap + (message + ("\n" + rest)))))
         == Some((Failure(exc, message), |exc| + 1 + |gap| + |message|))
  {
    hide IsExceptionName, Span, Text.IsSpace, IsWordOrDot, OneRow, Text.Blank;
    NewlineIsSpace();
    var after := gap + (message + ("\n" + rest));
    var t := exc + (":" + after);
    NameSpan(exc, ":" + after);
    MessageSpan(gap, message, rest);
    assert t[|exc|] == ':' && t[|exc| + 1..] == after;
  }

  lemma DetailsReadBack(exc: string, message: Option<(string, string)>, rest: string)
    requires IsExceptionName(exc) && ProperMessage(message)
    ensures MatchFailure(Details(exc, message) + ("\n" + rest)) ==
            Some((Failure(exc, if message.None? then "" else message.value.1), |Details(exc, message)|))
  {
    hide IsExceptionName, Text.IsSpace, OneRow, Text.Blank, MatchFailure;
    if message.None? {
      BareReadsBack(exc, rest);
    } else {
      var (gap, text) := message.value;
      MessageReadsBack(exc, gap, text, rest);
      DetailsRegroup(exc, gap, text, "\n" + rest);
    }
  }

  lemma DetailsRegroup(exc: string, gap: string, text: string, end: string)
    ensures (exc + (":" + (gap + text))) + end == exc + (":" + (gap + (text + end)))
  {
    Text.Regroup(gap, text, end);
    Text.Regroup(":", gap + text, end);
    Text.Regroup(exc, ":" + (gap + text), end);
  }

  lemma FailedParts(l: Line, next: Option<string>)
    requires l.Failed? && Printable(l, next)
    ensures l.pad != "" && Text.Blank(l.pad) && IsExceptionName(l.exc) && ProperMessage(l.message) && NoSummaryWithin(Show(l))
  {
  }

  lemma FailedReadsBack(l: Line, rest: string)
    requires l.Failed? && l.pad != "" && Text.Blank(l.pad) && IsExceptionName(l.exc) && ProperMessage(l.message)
    ensures MatchErrorLine(Show(l) + ("\n" + rest)) == Some((Named(l), |Show(l)|))
  {
    hide Text.IsSpace, IsExceptionName, Span, MatchFailure, OneRow, Text.Blank, Details, ProperMessage;
    NamesStartNoSpace(l.exc);
    DetailsStart(l.exc, l.message);
    DetailsReadBack(l.exc, l.message, rest);
    var d := Details(l.exc, l.message);
    AfterPad(l.pad, d + ("\n" + rest));
    FailedRegroups(l.pad, d, "\n" + rest);
  }

  lemma DetailsStart(exc: string, message: Option<(string, string)>)
    requires exc != ""
    ensures Details(exc, message) != "" && Details(exc, message)[0] == exc[0]
  {
  }

  lemma AfterPad(pad: string, after: string)
    requires pad != "" && Text.Blank(pad) && after != "" && !Text.IsSpace(after[0])
    ensures var s := "E" + (pad + after);
      s[0] == 'E' && Span(s[1..], Text.IsSpace) == |pad| && s[1 + |pad|..] == after
  {
    hide Text.IsSpace, Span;
    SpanStops(pad, after, Text.IsSpace);
    var s := "E" + (pad + after);
    assert s[1..] == pad + after;
  }

  lemma FailedRegroups(pad: string, d: string, end: string)
    ensures ("E" + (pad + d)) + end == "E" + (pad + (d + end))
  {
    Text.Regroup(pad, d, end);
    Text.Regroup("E", pad + d, end);
  }

  /** A failure's text does not end in a line break. */
  lemma FailedEnds(l: Line)
    requires l.Failed? && IsExceptionName(l.exc) && ProperMessage(l.message)
    ensures Show(l) != "" && Show(l)[|Show(l)| - 1] != '\n'
  {
    NewlineIsSpace();
    assert IsWordOrDot(l.exc[|l.exc| - 1]);
    hide Text.IsSpace, IsWordOrDot, Text.Blank;
    var d := Details(l.exc, l.message);
    assert d[|d| - 1] != '\n';
    assert Show(l)[|Show(l)| - 1] == d[|d| - 1];
  }

  lemma FailedIsNoSummary(l: Line)
    requires l.Failed? && l.pad != "" && Text.Blank(l.pad)
    ensures NoSummaryAt(Show(l))
  {
    var s := Show(l);
    assert s[0] == 'E' && s[1] == l.pad[0] && Text.IsSpace(l.pad[0]) && !Text.IsSpace('R');
    hide Text.IsSpace, StartsWith;
    DiffersAt(s, "FAILED", 0);
    DiffersAt(s, "ERROR", 1);
  }

  lemma AfterMatch(s: string, n: nat, f: Failure, rest: string)
    requires 0 < n <= |s| && MatchErrorLine(s) == Some((f, n)) && s[n..] == "\n" + rest && s[n - 1] != '\n'
    ensures ErrorLines(s, true) == [f] + ErrorLines(rest, true)
  {
    hide MatchErrorLine, OneRow;
    EmptyIsOneRow();
    RestOfRow("", rest);
    assert "" + ("\n" + rest) == "\n" + rest;
  }

  lemma EmptyIsOneRow()
    ensures OneRow("")
  {
  }

  lemma AfterFailed(l: Line, next: Option<string>, rest: string)
    requires l.Failed? && Printable(l, next)
    ensures ErrorLines(Show(l) + ("\n" + rest), true) == [Named(l)] + ErrorLines(rest, true)
    ensures FirstSummary(Show(l) + ("\n" + rest), true) == FirstSummary(rest, true)
  {
    hide MatchErrorLine, FirstSummary, ErrorLines, Printable, Show, Text.Blank, IsExceptionName, ProperMessage, NoSummaryWithin, NoSummaryAt;
    FailedParts(l, next);
    FailedReadsBack(l, rest);
    FailedEnds(l);
    FailedIsNoSummary(l);
    var row, s := Show(l), Show(l) + ("\n" + rest);
    assert s[|row| - 1] == row[|row| - 1];
    StartsAndRest(row, "\n" + rest);
    AfterMatch(s, |row|, Named(l), rest);
    SkipRows(row, rest, true);
  }

  lemma StartsWithinRow(row: string, rest: string, word: string)
    requires OneRow(word) && !StartsWith(row, word)
    ensures !StartsWith(row + ("\n" + rest), word)
  {
    var s := row + ("\n" + rest);
    if |word| <= |row| {
      assert s[..|word|] == row[..|word|];
    } else {
      assert s[|row|] == '\n' && word[|row|] != '\n';
      DiffersAt(s, word, |row|);
    }
  }

  // --- heads that match nothing -----------------------------------------------------------

  lemma NothingNamed(c: string, rest: string)
    requires NamesNothing(c)
    ensures MatchFailure(c + ("\n" + rest)).None?
  {
    NewlineIsSpace();
    hide Text.IsSpace, IsWordOrDot, IsExceptionName, Span;
    var k := Span(c, IsWordOrDot);
    SpanThrough(c, "\n" + rest, IsWordOrDot);
    var t := c + ("\n" + rest);
    assert t[..k] == c[..k];
    assert k < |c| ==> t[k] == c[k];
  }

  lemma NoIdHere(c: string, rest: string)
    requires !Inside(c[..Span(c, NotSpace)], "::")
    ensures var t := c + ("\n" + rest); !Inside(t[..Span(t, NotSpace)], "::")
  {
    NewlineIsSpace();
    hide Text.IsSpace, Span, Inside;
    SpanThrough(c, "\n" + rest, NotSpace);
    var t := c + ("\n" + rest);
    assert t[..Span(c, NotSpace)] == c[..Span(c, NotSpace)];
  }

  /** Whatever white space is in between, line breaks included, a quiet content makes its head match nothing. */
  lemma QuietMatch(h: Head, gap: string, c: string, rest: string)
    requires gap != "" && Text.Blank(gap) && QuietContent(h, c)
    ensures var after := gap + (c + ("\n" + rest));
      if h.EHead? then MatchErrorLine("E" + after).None? else SummaryAfter(after).None?
  {
    hide Text.IsSpace, Span, NamesNothing, Inside, MatchFailure, SummaryTail, Text.Blank;
    var t := c + ("\n" + rest);
    if h.EHead? {
      AfterPad(gap, t);
      NothingNamed(c, rest);
    } else {
      GapSpan(gap, t);
      NoIdHere(c, rest);
    }
  }

  lemma GapSpan(gap: string, after: string)
    requires Text.Blank(gap) && after != "" && !Text.IsSpace(after[0])
    ensures Span(gap + after, Text.IsSpace) == |gap| && (gap + after)[|gap|..] == after
  {
    hide Text.IsSpace, Span;
    SpanStops(gap, after, Text.IsSpace);
    StartsAndRest(gap, after);
  }

  /** Nor does a head with nothing but white space up to the end of the text. */
  lemma NothingLeft(gap: string)
    requires Text.Blank(gap)
    ensures MatchErrorLine("E" + gap).None? && SummaryAfter(gap).None?
  {
    hide Text.IsSpace;
    SpanAll(gap, Text.IsSpace);
    assert ("E" + gap)[1..] == gap && gap[|gap|..] == "";
  }

  lemma {:induction false} StripSplits(s: string) returns (pad: string)
    ensures s == pad + Text.LStrip(s) && Text.Blank(pad) && (s != "" && Text.IsSpace(s[0]) ==> pad != "")
    ensures Text.LStrip(s) != "" ==> !Text.IsSpace(Text.LStrip(s)[0])
  {
    hide Text.IsSpace;
    pad := s[..|s| - |Text.LStrip(s)|];
  }

  lemma QuietAfterHead(h: Head, after: string, rest: string)
    requires QuietAfter(h, after)
    ensures if h.EHead? then MatchErrorLine("E" + (after + ("\n" + rest))).None? else SummaryAfter(after + ("\n" + rest)).None?
  {
    if Text.IsSpace(after[0]) {
      hide Text.IsSpace, Text.LStrip, QuietContent, MatchErrorLine, SummaryAfter, Text.Blank;
      var pad := StripSplits(after);
      QuietMatch(h, pad, Text.LStrip(after), rest);
      Text.Regroup(pad, Text.LStrip(after), "\n" + rest);
    } else {
      hide Text.IsSpace, MatchFailure, QuietContent;
      var t := after + ("\n" + rest);
      assert t[0] == after[0] && ("E" + t)[1..] == t;
    }
  }

  lemma HeadWords()
    ensures HeadText(EHead) == "E" && HeadText(FailedHead) == "FAILED" && HeadText(ErrorHead) == "ERROR"
    ensures OneRow("E") && OneRow("FAILED") && OneRow("ERROR")
  {
  }

  /** A row that is quiet for a head keeps that head from matching there. */
  lemma QuietRow(h: Head, row: string, rest: string)
    requires QuietFor(h, row)
    ensures var s := row + ("\n" + rest); var word := HeadText(h);
      StartsWith(s, word) ==>
        if h.EHead? then MatchErrorLine(s).None? else SummaryAfter(s[|word|..]).None?
  {
    HeadWords();
    var s, word := row + ("\n" + rest), HeadText(h);
    hide HeadText, QuietAfter, MatchErrorLine, SummaryAfter, OneRow;
    if StartsWith(row, word) {
      var after := row[|word|..];
      assert row == word + after;
      QuietAfterHead(h, after, rest);
      Text.Regroup(word, after, "\n" + rest);
      StartsAndRest(word, after + ("\n" + rest));
    } else {
      StartsWithinRow(row, rest, word);
    }
  }

  lemma NoErrorWithoutE(s: string)
    requires !StartsWith(s, "E")
    ensures MatchErrorLine(s).None?
  {
    if s != "" {
      assert s[..1] == [s[0]];
    }
  }

  lemma AfterPlain(text: string, next: Option<string>, rest: string)
    requires Printable(Plain(text), next)
    ensures ErrorLines(text + ("\n" + rest), true) == ErrorLines(rest, true)
    ensures FirstSummary(text + ("\n" + rest), true) == FirstSummary(rest, true)
  {
    HeadWords();
    var s := text + ("\n" + rest);
    hide QuietFor, OneRow, StartsWith, ErrorLines, FirstSummary, MatchErrorLine, SummaryAfter, HeadText;
    QuietRow(EHead, text, rest);
    QuietRow(FailedHead, text, rest);
    QuietRow(ErrorHead, text, rest);
    if !StartsWith(s, "E") {
      NoErrorWithoutE(s);
    }
    NoErrorHere(text, rest);
    NoSummaryHere(text, rest);
  }

  /** The text below a line, given its next row. */
  predicate Below(rest: string, next: Option<string>, more: string) {
    rest == if next.None? then "" else next.value + ("\n" + more)
  }

  lemma BareMatchesNothing(h: Head, pad: string, next: Option<string>, more: string, rest: string)
    requires Text.Blank(pad) && (next.None? || QuietContent(h, Text.LStrip(next.value))) && Below(rest, next, more)
    ensures var after := pad + ("\n" + rest);
      if h.EHead? then MatchErrorLine("E" + after).None? else SummaryAfter(after).None?
  {
    NewlineIsSpace();
    hide Text.IsSpace, Text.LStrip, QuietContent, MatchErrorLine, SummaryAfter;
    if next.None? {
      assert pad + ("\n" + rest) == pad + "\n";
      NothingLeft(pad + "\n");
    } else {
      var row := next.value;
      var indent := StripSplits(row);
      var c := Text.LStrip(row);
      QuietMatch(h, pad + "\n" + indent, c, more);
      BareRegroups(pad, indent, c, "\n" + more);
    }
  }

  lemma BareRegroups(pad: string, indent: string, c: string, end: string)
    ensures pad + ("\n" + ((indent + c) + end)) == (pad + "\n" + indent) + (c + end)
  {
    Text.Regroup(indent, c, end);
    Text.Regroup("\n", indent, c + end);
    Text.Regroup(pad, "\n" + indent, c + end);
    Text.Regroup(pad, "\n", indent);
  }

  lemma BareShows(h: Head, pad: string, rest: string)
    ensures Show(Bare(h, pad)) + ("\n" + rest) == HeadText(h) + (pad + ("\n" + rest))
    ensures OneRow(pad) ==> OneRow(Show(Bare(h, pad)))
  {
    Text.Regroup(HeadText(h), pad, "\n" + rest);
  }

  /** Where a bare head stands, the other heads do not. */
  lemma BareIsItself(h: Head, after: string)
    requires after != "" && Text.IsSpace(after[0])
    ensures var s := HeadText(h) + after;
      && (h.EHead? ==> NoSummaryAt(s))
      && (!h.EHead? ==> MatchErrorLine(s).None? && MatchSummary(s) == SummaryAfter(after))
  {
    var s := HeadText(h) + after;
    if h.EHead? {
      assert s[0] == 'E' && s[1] == after[0] && !Text.IsSpace('R');
      hide Text.IsSpace, StartsWith;
      DiffersAt(s, "FAILED", 0);
      DiffersAt(s, "ERROR", 1);
    } else {
      hide SummaryAfter;
      assert HeadText(h) == Word(h.ErrorHead?);
      ShortMatches(h.ErrorHead?, after);
    }
  }

  lemma NoSummaryMatch(s: string)
    requires NoSummaryAt(s)
    ensures MatchSummary(s).None?
  {
  }

  lemma AfterBare(l: Line, next: Option<string>, more: string, rest: string)
    requires l.Bare? && Printable(l, next) && Below(rest, next, more)
    ensures ErrorLines(Show(l) + ("\n" + rest), true) == ErrorLines(rest, true)
    ensures FirstSummary(Show(l) + ("\n" + rest), true) == FirstSummary(rest, true)
  {
    NewlineIsSpace();
    var after := l.pad + ("\n" + rest);
    assert Text.IsSpace(after[0]);
    hide Text.IsSpace, Text.LStrip, QuietContent, MatchErrorLine, MatchSummary, SummaryAfter, Text.Blank, OneRow, HeadText, Show,
      ErrorLines, FirstSummary, NoSummaryAt;
    BareMatchesNothing(l.head, l.pad, next, more, rest);
    BareShows(l.head, l.pad, rest);
    BareIsItself(l.head, after);
    if l.head.EHead? {
      HeadWords();
      NoSummaryMatch(HeadText(l.head) + after);
    }
    NoErrorHere(Show(l), rest);
    NoSummaryHere(Show(l), rest);
  }

  // --- summaries --------------------------------------------------------------------------

  /** What follows the word of a summary line. */
  function AfterWord(l: Line, rest: string): string
    requires l.Short?
  {
    " " + (l.nodeId + (l.tail + ("\n" + rest)))
  }

  lemma ShortRegroups(l: Line, rest: string)
    requires l.Short?
    ensures Show(l) + ("\n" + rest) == Word(l.collecting) + AfterWord(l, rest)
  {
    var word, end := Word(l.collecting), "\n" + rest;
    hide Word;
    Text.Regroup(l.nodeId, l.tail, end);
    Text.Regroup(" ", l.nodeId + l.tail, end);
    Text.Regroup(word, " " + (l.nodeId + l.tail), end);
  }

  lemma ShortSummaryAfter(l: Line, rest: string)
    requires l.Short? && l.nodeId != "" && (forall i :: 0 <= i < |l.nodeId| ==> NotSpace(l.nodeId[i]))
    requires Inside(l.nodeId, "::") && (l.tail == "" || Text.IsSpace(l.tail[0]))
    ensures SummaryAfter(AfterWord(l, rest)) == Some(Summary(l.nodeId, SummaryTail(l.tail + ("\n" + rest))))
  {
    NewlineIsSpace();
    hide Text.IsSpace, Span, SummaryTail, Inside;
    var end := l.tail + ("\n" + rest);
    assert NotSpace(l.nodeId[0]);
    SpanStops(" ", l.nodeId + end, Text.IsSpace);
    StartsAndRest(" ", l.nodeId + end);
    SpanStops(l.nodeId, end, NotSpace);
    StartsAndRest(l.nodeId, end);
  }

  lemma NamePrefix(c: string, rest: string)
    requires c != ""
    ensures var a, b := NameAndMessage(c), NameAndMessage(c + ("\n" + rest));
      (a.Some? <==> b.Some?) && (a.Some? ==> a.value.0 == b.value.0)
  {
    NewlineIsSpace();
    hide Text.IsSpace, IsWordOrDot, IsExceptionName, Span;
    var k := Span(c, IsWordOrDot);
    SpanThrough(c, "\n" + rest, IsWordOrDot);
    assert (c + ("\n" + rest))[..k] == c[..k];
  }

  /** What a tail names once white space has led to this content. */
  function DashName(a: string): string {
    if a == "" || a[0] != '-' then ""
    else
      var name := AfterSpace(a[1..]);
      if name.None? then "" else
      var found := NameAndMessage(name.value);
      if found.Some? then found.value.0 else ""
  }

  lemma TailNameIs(gap: string, a: string)
    requires gap != "" && Text.Blank(gap) && (a == "" || !Text.IsSpace(a[0]))
    ensures TailName(gap + a) == DashName(a)
  {
    hide Text.IsSpace, Span, NameAndMessage, Text.Blank;
    if a == "" {
      assert gap + a == gap;
      SpacesSpan(gap);
    } else {
      GapSpan(gap, a);
    }
  }

  lemma SpacesSpan(gap: string)
    requires Text.Blank(gap)
    ensures Span(gap, Text.IsSpace) == |gap|
  {
    hide Text.IsSpace;
    SpanAll(gap, Text.IsSpace);
  }

  lemma DashNamePrefix(a: string, rest: string)
    requires a != "" && (a[0] == '-' ==> |a| > 1 && (!Text.IsSpace(a[1]) || Text.LStrip(a[1..]) != ""))
    ensures DashName(a + ("\n" + rest)) == DashName(a)
  {
    var end := "\n" + rest;
    assert (a + end)[0] == a[0];
    if a[0] == '-' {
      assert (a + end)[1..] == a[1..] + end && (a[1..] + end)[0] == a[1];
      if Text.IsSpace(a[1]) {
        hide Text.IsSpace, Text.LStrip, Span, NameAndMessage, Text.Blank;
        var gap := StripSplits(a[1..]);
        var c := Text.LStrip(a[1..]);
        GapSpan(gap, c);
        GapSpan(gap, c + end);
        Text.Regroup(gap, c, end);
        NamePrefix(c, rest);
      }
    }
  }

  lemma TailNothing()
    ensures TailName("") == ""
  {
  }

  /** What a settled tail names does not depend on what stands below it. */
  lemma SettledName(tail: string, next: Option<string>, more: string, rest: string)
    requires (tail == "" || Text.IsSpace(tail[0])) && Settled(tail, next) && Below(rest, next, more)
    ensures TailName(tail + ("\n" + rest)) == TailName(tail)
  {
    NewlineIsSpace();
    hide Text.IsSpace, Text.LStrip, TailName, DashName;
    var a, end := Text.LStrip(tail), "\n" + rest;
    var gap := StripSplits(tail);
    if a == "" {
      assert gap == tail;
      BlankTail(tail, next, more, rest);
      if tail == "" {
        TailNothing();
      } else {
        TailNameIs(tail, "");
        assert tail + "" == tail;
        DashNothing();
      }
    } else {
      TailNameIs(gap, a);
      Text.Regroup(gap, a, end);
      TailNameIs(gap, a + end);
      DashNamePrefix(a, rest);
    }
  }

  lemma DashNothing()
    ensures DashName("") == ""
  {
  }

  lemma NoDash(a: string)
    requires a != "" && a[0] != '-'
    ensures DashName(a) == ""
  {
  }

  lemma BlankTail(tail: string, next: Option<string>, more: string, rest: string)
    requires Text.Blank(tail) && Below(rest, next, more)
    requires next.None? || (Text.LStrip(next.value) != "" && Text.LStrip(next.value)[0] != '-')
    ensures TailName(tail + ("\n" + rest)) == ""
  {
    NewlineIsSpace();
    hide Text.IsSpace, Text.LStrip, TailName, DashName;
    if next.None? {
      var gap := tail + "\n";
      assert tail + ("\n" + rest) == gap + "";
      TailNameIs(gap, "");
      DashNothing();
    } else {
      var row := next.value;
      var indent := StripSplits(row);
      var c := Text.LStrip(row);
      var gap := tail + "\n" + indent;
      BareRegroups(tail, indent, c, "\n" + more);
      TailNameIs(gap, c + ("\n" + more));
      NoDash(c + ("\n" + more));
    }
  }

  function SummaryName(found: Option<Summary>): string {
    if found.Some? && found.value.failure.Some? then found.value.failure.value.0 else ""
  }

  lemma ShortParts(l: Line, next: Option<string>)
    requires l.Short? && Printable(l, next)
    ensures l.nodeId != "" && (forall i :: 0 <= i < |l.nodeId| ==> NotSpace(l.nodeId[i])) && Inside(l.nodeId, "::")
    ensures OneRow(l.tail) && (l.tail == "" || Text.IsSpace(l.tail[0])) && Settled(l.tail, next)
  {
  }

  lemma AfterShort(l: Line, next: Option<string>, more: string, rest: string)
    requires l.Short? && Printable(l, next) && Below(rest, next, more)
    ensures ErrorLines(Show(l) + ("\n" + rest), true) == ErrorLines(rest, true)
    ensures var found := FirstSummary(Show(l) + ("\n" + rest), true);
      found.Some? && found.value.nodeId == l.nodeId && SummaryName(found) == TailName(l.tail)
  {
    hide Show, AfterWord, SummaryAfter, SummaryTail, MatchErrorLine, MatchSummary, Printable, OneRow, ErrorLines, Inside, Settled,
      NotSpace, Text.IsSpace;
    ShortParts(l, next);
    ShortRegroups(l, rest);
    ShortSummaryAfter(l, rest);
    ShortMatches(l.collecting, AfterWord(l, rest));
    ShortIsOneRow(l);
    NoErrorHere(Show(l), rest);
    SettledName(l.tail, next, more, rest);
  }

  lemma ShortMatches(collecting: bool, after: string)
    ensures MatchSummary(Word(collecting) + after) == SummaryAfter(after)
    ensures MatchErrorLine(Word(collecting) + after).None? && Word(collecting) + after != ""
  {
    var word := Word(collecting);
    var s := word + after;
    StartsAndRest(word, after);
    hide SummaryAfter;
    if collecting {
      DiffersAt(s, "FAILED", 0);
    }
    assert s[0] == word[0] && s[1..][0] == word[1] && !Text.IsSpace('R') && !Text.IsSpace('A');
  }

  lemma ShortIsOneRow(l: Line)
    requires l.Short? && OneRow(l.tail) && forall i :: 0 <= i < |l.nodeId| ==> NotSpace(l.nodeId[i])
    ensures OneRow(Show(l))
  {
    NewlineIsSpace();
    hide Text.IsSpace;
    forall i | 0 <= i < |l.nodeId| ensures l.nodeId[i] != '\n' {
      assert NotSpace(l.nodeId[i]);
    }
  }

  // --- whole outputs -------------------------------------------------------------------

  lemma PrintableTail(lines: seq<Line>)
    requires AllPrintable(lines) && lines != []
    ensures Printable(lines[0], Next(lines, 0)) && AllPrintable(lines[1..])
  {
    hide Printable, Show;
    forall i | 0 <= i < |lines| - 1 ensures Printable(lines[1..][i], Next(lines[1..], i)) {
      assert lines[1..][i] == lines[i + 1] && Next(lines[1..], i) == Next(lines, i + 1);
    }
  }

  lemma PrintBelow(lines: seq<Line>)
    requires lines != []
    ensures Below(Print(lines[1..]), Next(lines, 0), if |lines| > 1 then Print(lines[2..]) else "")
  {
    hide Show;
    if |lines| > 1 {
      assert lines[1..][1..] == lines[2..] && lines[1..][0] == lines[1];
    }
  }

  lemma AfterLine(l: Line, next: Option<string>, more: string, rest: string)
    requires Printable(l, next) && Below(rest, next, more)
    ensures var s := Show(l) + ("\n" + rest); var found := FirstSummary(s, true);
      && ErrorLines(s, true) == (if l.Failed? then [Named(l)] else []) + ErrorLines(rest, true)
      && (if l.Short? then found.Some? && found.value.nodeId == l.nodeId && SummaryName(found) == TailName(l.tail)
          else found == FirstSummary(rest, true))
  {
    hide Printable, ErrorLines, FirstSummary, TailName, SummaryName, Below;
    match l {
      case Plain(text) => AfterPlain(text, next, rest); PlainShows(l); hide Show;
      case Bare(_, _) => hide Show; AfterBare(l, next, more, rest);
      case Failed(_, _, _) => hide Show; AfterFailed(l, next, rest);
      case Short(_, _, _) => hide Show; AfterShort(l, next, more, rest);
    }
  }

  lemma PlainShows(l: Line)
    requires l.Plain?
    ensures Show(l) == l.text
  {
  }

  /** The scanners find exactly the printed failures, in order, and the first printed summary with the name its
      tail shows. */
  lemma {:induction false} PrintedLines(lines: seq<Line>)
    requires AllPrintable(lines)
    ensures ErrorLines(Print(lines), true) == Failures(lines)
    ensures var found := FirstSummary(Print(lines), true);
      && (found.Some? <==> Shorts(lines) != [])
      && (found.Some? ==> found.value.nodeId == Shorts(lines)[0].nodeId && SummaryName(found) == TailName(Shorts(lines)[0].tail))
  {
    hide Show, Printable, AllPrintable, TailName, SummaryName, Named, Below, Next;
    if lines != [] {
      var rest := Print(lines[1..]);
      PrintableTail(lines);
      PrintBelow(lines);
      PrintedLines(lines[1..]);
      hide ErrorLines, FirstSummary;
      AfterLine(lines[0], Next(lines, 0), if |lines| > 1 then Print(lines[2..]) else "", rest);
    } else {
      NothingPrinted();
    }
  }

  lemma NothingPrinted()
    ensures ErrorLines("", true) == [] && FirstSummary("", true).None?
  {
  }

  // --- not green --------------------------------------------------------------------------

  lemma LowerSlice(text: string, i: nat, j: nat, word: string)
    requires i <= j <= |text| && text[i..j] == word
    ensures LowerAll(text)[i..j] == LowerAll(word)
  {
    hide Lower;
  }

  lemma LowerWords()
    ensures LowerAll("FAILED") == "failed" && LowerAll("ERROR") == "error"
    ensures Lower(' ') == ' ' && Lower('\n') == '\n' && !IsWord(' ') && !IsWord('\n')
    ensures !Text.IsSpace('F') && !Text.IsSpace('E')
  {
  }

  /** A word between a row's start and a space, in any text. */
  lemma WordBetween(before: string, word: string, after: string)
    requires before == "" || before[|before| - 1] == '\n'
    requires after != "" && after[0] == ' '
    ensures WordAt(LowerAll(before + (word + after)), LowerAll(word), |before|)
  {
    hide IsWord, Lower, Text.IsSpace;
    LowerWords();
    var text := before + (word + after);
    var k := |before|;
    assert text[k..k + |word|] == word;
    LowerSlice(text, k, k + |word|, word);
    assert text[k + |word|] == after[0];
    assert k > 0 ==> text[k - 1] == before[k - 1];
  }

  lemma WordOccurs(before: string, collecting: bool, after: string)
    requires before == "" || before[|before| - 1] == '\n'
    requires after != "" && after[0] == ' '
    ensures var text := before + (Word(collecting) + after);
      HasWord(LowerAll(text), if collecting then "error" else "failed") && !Text.Blank(text)
  {
    hide LowerAll, WordAt, Text.IsSpace;
    LowerWords();
    WordBetween(before, Word(collecting), after);
    assert (before + (Word(collecting) + after))[|before|] == if collecting then 'E' else 'F';
  }

  /** A printed summary shows that the run did not go green. */
  lemma {:induction false} SummariesAreNotGreen(before: string, lines: seq<Line>)
    requires AllPrintable(lines) && Shorts(lines) != []
    requires before == "" || before[|before| - 1] == '\n'
    ensures !LooksGreen(before + Print(lines)) && !Text.Blank(before + Print(lines))
    decreases |lines|
  {
    hide Printable, AllPrintable, Text.Blank, HasWord;
    PrintableTail(lines);
    var l, rest := lines[0], Print(lines[1..]);
    if l.Short? {
      hide Show, Word;
      ShortRegroups(l, rest);
      WordOccurs(before, l.collecting, AfterWord(l, rest));
    } else {
      hide Show;
      Text.Regroup(before, Show(l), "\n" + rest);
      Text.Regroup(before + Show(l), "\n", rest);
      SummariesAreNotGreen(before + Show(l) + "\n", lines[1..]);
    }
  }

  // --- what is parsed -----------------------------------------------------------------------

  /** The exception a printed run is blamed on: that of the last E line that names one; without such a line, what
      the first summary still shows. */
  function Blamed(lines: seq<Line>): string
    requires Shorts(lines) != []
  {
    var failures := Failures(lines);
    if failures != [] then failures[|failures| - 1].exc else TailName(Shorts(lines)[0].tail)
  }

  /** Parsing a printed pytest run with a summary: the location is the first summary's node id, however much of
      the summary was cut off, and the exception is the one the run is blamed on. */
  lemma PytestReadsBack(lines: seq<Line>, workspaceRoot: string)
    requires AllPrintable(lines) && Shorts(lines) != []
    ensures var parsed := FromPytestOutput(Print(lines), workspaceRoot);
      && parsed.Some? && parsed.value.kind == Test
      && parsed.value.location == Shorts(lines)[0].nodeId && parsed.value.excType == Blamed(lines)
      && var failures := Failures(lines);
         failures != [] && failures[|failures| - 1].message != "" ==>
           parsed.value.message == failures[|failures| - 1].message
  {
    hide AllPrintable, ErrorLines, FirstSummary, LooksGreen, Text.Strip, Text.Blank, Print, FirstNodeId, FirstPytestFrame,
      Failures, Shorts, TailName;
    PrintedLines(lines);
    SummariesAreNotGreen("", lines);
    assert "" + Print(lines) == Print(lines);
    Text.StripIsEmptyExactlyWhenBlank(Print(lines));
    SummaryHasAnId(Print(lines), true);
  }

  lemma BlamedIsAName(lines: seq<Line>, workspaceRoot: string)
    requires AllPrintable(lines) && Shorts(lines) != []
    ensures NoPipe(FromPytestOutput(Print(lines), workspaceRoot).GetOr(Signature(Test, "", "", "")).excType)
  {
    hide AllPrintable, Print, FromPytestOutput, Shorts, NoPipe;
    PytestReadsBack(lines, workspaceRoot);
    ParsersAreUsable(Print(lines), Test, workspaceRoot);
  }

  /** Two printed runs are the same error exactly when their first failing tests are the same and so are the
      exceptions they are blamed on. So where the summaries are cut matters exactly when no E line names an
      exception and the cut falls inside the name. */
  lemma SameFailureMatchesExactlyWhen(lines: seq<Line>, lines': seq<Line>, workspaceRoot: string)
    requires AllPrintable(lines) && AllPrintable(lines') && Shorts(lines) != [] && Shorts(lines') != []
    ensures var a, b := FromPytestOutput(Print(lines), workspaceRoot), FromPytestOutput(Print(lines'), workspaceRoot);
      && a.Some? && b.Some?
      && (Matches(a.value, b) <==>
            Shorts(lines)[0].nodeId == Shorts(lines')[0].nodeId && Blamed(lines) == Blamed(lines'))
  {
    hide AllPrintable, Print, FromPytestOutput, Shorts, Blamed, Matches, NoPipe;
    PytestReadsBack(lines, workspaceRoot);
    PytestReadsBack(lines', workspaceRoot);
    BlamedIsAName(lines, workspaceRoot);
    BlamedIsAName(lines', workspaceRoot);
    MatchesIsIdentity(FromPytestOutput(Print(lines), workspaceRoot).value, FromPytestOutput(Print(lines'), workspaceRoot).value);
  }

  /** A tail that shows a name shows it whole up to the cut: what is read is the longest run of name characters. */
  lemma TailNames(name: string, more: string)
    requires IsExceptionName(name) && (more == "" || !IsWordOrDot(more[0]))
    ensures TailName(" - " + (name + more)) == name
  {
    hide IsExceptionName, Text.IsSpace, Span, IsWordOrDot, TailName;
    NewlineIsSpace();
    NamesStartNoSpace(name);
    var a := "- " + (name + more);
    assert " - " + (name + more) == " " + a;
    DashIsNoSpace();
    TailNameIs(" ", a);
    assert a[1..] == " " + (name + more);
    GapSpan(" ", name + more);
    NameHead(name, more);
  }

  /** Where no E line names an exception, a summary cut inside its name makes the same failing test another error. */
  lemma CutInsideTheName(lines: seq<Line>, lines': seq<Line>, name: string, more: string, kept: nat, workspaceRoot: string)
    requires AllPrintable(lines) && AllPrintable(lines') && Shorts(lines) != [] && Shorts(lines') != []
    requires Failures(lines) == [] && Failures(lines') == []
    requires IsExceptionName(name) && (more == "" || !IsWordOrDot(more[0]))
    requires 0 < kept < |name| && name[..kept] + "..." != name
    requires Shorts(lines)[0].tail == " - " + (name + more) && Shorts(lines')[0].tail == " - " + (name[..kept] + "...")
    ensures var a, b := FromPytestOutput(Print(lines), workspaceRoot), FromPytestOutput(Print(lines'), workspaceRoot);
      && a.Some? && a.value.excType == name
      && b.Some? && b.value.excType == name[..kept] + "..." && !Matches(a.value, b)
  {
    hide AllPrintable, Print, FromPytestOutput, Shorts, Failures, TailName, IsExceptionName, IsWordOrDot, Matches;
    var cut := name[..kept] + "...";
    CutIsAName(name, kept);
    TailNames(name, more);
    TailNames(cut, "");
    assert cut + "" == cut;
    PytestReadsBack(lines, workspaceRoot);
    PytestReadsBack(lines', workspaceRoot);
    SameFailureMatchesExactlyWhen(lines, lines', workspaceRoot);
  }

  lemma CutIsAName(name: string, kept: nat)
    requires IsExceptionName(name) && 0 < kept < |name|
    ensures IsExceptionName(name[..kept] + "...")
  {
    var cut := name[..kept] + "...";
    forall i | 0 <= i < |cut| ensures IsWordOrDot(cut[i]) {
      assert i < kept ==> cut[i] == name[i];
    }
  }

  /** A message that a summary still shows is read up to the end of its row. */
  lemma SummaryMessageReadsBack(name: string, gap: string, message: string, rest: string)
    requires IsExceptionName(name) && Text.Blank(gap) && OneRow(message) && message != "" && !Text.IsSpace(message[0])
    ensures SummaryTail(" - " + (name + (":" + (gap + (message + ("\n" + rest)))))) == Some((name, message))
  {
    hide IsExceptionName, Text.IsSpace, Span, IsWordOrDot, OneRow, Text.Blank, NameAndMessage;
    NewlineIsSpace();
    NamesStartNoSpace(name);
    DashIsNoSpace();
    var after := gap + (message + ("\n" + rest));
    var shown := name + (":" + after);
    MessageAfterName(name, gap, message, rest);
    var a := "- " + shown;
    assert " - " + shown == " " + a && a[1..] == " " + shown;
    OneSpace();
    GapSpan(" ", a);
    GapSpan(" ", shown);
  }

  lemma OneSpace()
    ensures Text.Blank(" ")
  {
  }

  lemma MessageAfterName(name: string, gap: string, message: string, rest: string)
    requires IsExceptionName(name) && Text.Blank(gap) && OneRow(message) && message != "" && !Text.IsSpace(message[0])
    ensures NameAndMessage(name + (":" + (gap + (message + ("\n" + rest))))) == Some((name, message))
  {
    hide IsExceptionName, Text.IsSpace, Span, IsWordOrDot, OneRow, Text.Blank;
    NewlineIsSpace();
    var after := gap + (message + ("\n" + rest));
    var t := name + (":" + after);
    NameSpan(name, ":" + after);
    MessageSpan(gap, message, rest);
    assert t[|name|] == ':' && t[|name| + 1..] == after;
  }

  lemma DashIsNoSpace()
    ensures !Text.IsSpace('-') && Text.IsSpace(' ')
  {
  }

  lemma NameHead(name: string, more: string)
    requires IsExceptionName(name) && (more == "" || !IsWordOrDot(more[0]))
    ensures NameAndMessage(name + more).Some? && NameAndMessage(name + more).value.0 == name
  {
    assert forall i :: 0 <= i < |name| ==> IsWordOrDot(name[i]);
    hide Span, IsWordOrDot, IsExceptionName, Text.IsSpace;
    if more == "" {
      assert name + more == name;
      SpanAll(name, IsWordOrDot);
    } else {
      SpanStops(name, more, IsWordOrDot);
    }
    assert (name + more)[..|name|] == name;
  }
}
