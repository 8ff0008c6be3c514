/** Printing a traceback and parsing it back. */
module Traceback {
  import opened Wrappers
  import opened Domain
  import opened Paths
  import opened Scanning
  import opened Signatures
  import Text

  /** One printed frame; `body` is whatever follows its line: source text, markers, or nothing. */
  datatype Entry = Entry(path: string, line: nat, func: string, body: string)

  function RenderTail(func: string): string {
    if func == "" then "" else FuncMark + func
  }

  function RenderFrameLine(e: Entry): string {
    FileOpen + (e.path + (LineMark + (Text.Decimal(e.line) + RenderTail(e.func))))
  }

  function RenderEntry(e: Entry): string {
    "  " + RenderFrameLine(e) + "\n" + e.body
  }

  function RenderEntries(entries: seq<Entry>): string {
    if entries == [] then "" else RenderEntry(entries[0]) + RenderEntries(entries[1..])
  }

  function ExceptionLine(exc: string, message: string): string {
    if message == "" then exc else exc + ": " + message
  }

  /** A traceback as CPython prints it: heading, frames outermost first, exception line. */
  function Render(heading: string, entries: seq<Entry>, exc: string, message: string): string {
    heading + RenderEntries(entries) + ExceptionLine(exc, message) + "\n"
  }

  function Frames(entries: seq<Entry>): seq<Frame> {
    if entries == [] then [] else [Frame(entries[0].path, entries[0].func)] + Frames(entries[1..])
  }

  // --- what may be printed ----------------------------------------------------------

  predicate NoFrameInside(s: string) {
    forall i :: 0 <= i < |s| ==> !StartsWith(s[i..], FileOpen)
  }

  predicate EndsLine(s: string) {
    s == "" || s[|s| - 1] == '\n'
  }

  /** Whole lines, none of which opens a frame. */
  predicate WholeLines(s: string) {
    EndsLine(s) && NoFrameInside(s)
  }

  predicate EntryOk(e: Entry) {
    && e.path != "" && (forall i :: 0 <= i < |e.path| ==> NotQuote(e.path[i]))
    && (forall i :: 0 <= i < |e.func| ==> NotSpace(e.func[i]))
    && WholeLines(e.body)
  }

  predicate Printable(heading: string, entries: seq<Entry>, exc: string, message: string) {
    && WholeLines(heading)
    && (forall i :: 0 <= i < |entries| ==> EntryOk(entries[i]))
    && IsExceptionName(exc) && Gate(exc) && !StartsWith(exc, "Traceback")
    && OneLine(message) && NoFrameInside(message)
  }

  // --- scanning over text without frames -------------------------------------------------

  lemma {:induction false} Skip(a: string, s: string)
    requires forall i :: 0 <= i < |a| ==> !StartsWith((a + s)[i..], FileOpen)
    ensures FindFrames(a + s) == FindFrames(s)
  {
    if a == "" {
      assert a + s == s;
    } else {
      var t := a + s;
      assert t[0..] == t;
      assert t[1..] == a[1..] + s;
      forall i | 0 <= i < |a[1..]| ensures !StartsWith((a[1..] + s)[i..], FileOpen) {
        assert (a[1..] + s)[i..] == t[i + 1..];
      }
      Skip(a[1..], s);
      assert MatchFrame(t).None?;
    }
  }

  /** Whole lines hide no frame opening, not even one that reaches into the text after them. */
  lemma SkipLines(a: string, s: string)
    requires WholeLines(a)
    ensures FindFrames(a + s) == FindFrames(s)
  {
    var t := a + s;
    forall i | 0 <= i < |a| ensures !StartsWith(t[i..], FileOpen) {
      assert !StartsWith(a[i..], FileOpen);
      if i + 6 <= |a| {
        assert t[i..][..6] == a[i..][..6];
      } else {
        assert t[i..][|a| - 1 - i] == '\n';
      }
    }
    Skip(a, s);
  }

  // --- one frame --------------------------------------------------------------------------

  lemma NoTail(rest: string)
    ensures MatchTail("" + ("\n" + rest)) == ("", 0)
  {
    hide Span;
    DiffersAt("" + ("\n" + rest), FuncMark, 0);
  }

  lemma NamedTail(func: string, rest: string)
    requires func != "" && forall i :: 0 <= i < |func| ==> NotSpace(func[i])
    ensures MatchTail(FuncMark + (func + ("\n" + rest))) == (func, |FuncMark| + |func|)
  {
    NewlineStops();
    hide Span, NotSpace, StartsWith, Text.IsSpace;
    StartsAndRest(FuncMark, func + ("\n" + rest));
    SpanStops(func, "\n" + rest, NotSpace);
    StartsAndRest(func, "\n" + rest);
  }

  lemma NewlineStops()
    ensures !NotSpace('\n') && !Text.IsDigit('\n') && !Text.IsDigit(FuncMark[0])
  {
  }

  lemma TailReadsBack(func: string, rest: string)
    requires forall i :: 0 <= i < |func| ==> NotSpace(func[i])
    ensures MatchTail(RenderTail(func) + ("\n" + rest)) == (func, |RenderTail(func)|)
    ensures var after := RenderTail(func) + ("\n" + rest); after != "" && !Text.IsDigit(after[0])
  {
    NewlineStops();
    hide MatchTail, NotSpace, Text.IsDigit;
    if func == "" {
      NoTail(rest);
    } else {
      NamedTail(func, rest);
      Text.Regroup(FuncMark, func, "\n" + rest);
    }
  }

  lemma QuoteStops(s: string)
    ensures LineMark + s != "" && !NotQuote((LineMark + s)[0])
  {
  }

  lemma MatchesPiecewise(path: string, number: string, after: string)
    requires path != "" && number != ""
    requires forall i :: 0 <= i < |path| ==> NotQuote(path[i])
    requires forall i :: 0 <= i < |number| ==> Text.IsDigit(number[i])
    requires after != "" && !Text.IsDigit(after[0])
    ensures var (func, n) := MatchTail(after);
      MatchFrame(FileOpen + (path + (LineMark + (number + after))))
      == Some((Frame(path, func), |FileOpen| + |path| + |LineMark| + |number| + n))
  {
    hide StartsWith, MatchTail, Text.IsDigit, NotQuote, Span, FileOpen, LineMark;
    var s3 := number + after;
    var s2 := LineMark + s3;
    QuoteStops(s3);
    SpanStops(path, s2, NotQuote);
    SpanStops(number, after, Text.IsDigit);
    StartsAndRest(FileOpen, path + s2);
    StartsAndRest(path, s2);
    StartsAndRest(LineMark, s3);
    StartsAndRest(number, after);
  }

  lemma FrameReadsBack(e: Entry, rest: string)
    requires EntryOk(e)
    ensures MatchFrame(RenderFrameLine(e) + ("\n" + rest)) == Some((Frame(e.path, e.func), |RenderFrameLine(e)|))
  {
    hide MatchFrame, MatchTail, RenderTail, Text.IsDigit, Text.Decimal, LineMark, FileOpen;
    var end, tail, number := "\n" + rest, RenderTail(e.func), Text.Decimal(e.line);
    TailReadsBack(e.func, rest);
    MatchesPiecewise(e.path, number, tail + end);
    FrameLineRegroups(e.path, LineMark, number, tail, end);
  }

  lemma FrameLineRegroups(path: string, sep: string, number: string, tail: string, end: string)
    ensures FileOpen + (path + (sep + (number + tail))) + end == FileOpen + (path + (sep + (number + (tail + end))))
  {
    Text.Regroup(number, tail, end);
    Text.Regroup(sep, number + tail, end);
    Text.Regroup(path, sep + (number + tail), end);
    Text.Regroup(FileOpen, path + (sep + (number + tail)), end);
  }

  // --- all frames --------------------------------------------------------------------------

  lemma SkipIndent(s: string)
    ensures FindFrames("  " + s) == FindFrames(s)
  {
    var t := "  " + s;
    forall i | 0 <= i < 2 ensures !StartsWith(t[i..], FileOpen) {
      assert t[i..][0] == ' ';
    }
    Skip("  ", s);
  }

  lemma NewlineThenBody(body: string)
    requires WholeLines(body)
    ensures WholeLines("\n" + body)
  {
    var a := "\n" + body;
    forall i | 0 <= i < |a| ensures !StartsWith(a[i..], FileOpen) {
      if i == 0 {
        assert a[i..][0] == '\n';
      } else {
        assert a[i..] == body[i - 1..];
      }
    }
  }

  lemma BodyOk(e: Entry)
    requires EntryOk(e)
    ensures WholeLines(e.body)
  {
  }

  lemma EntryRegroups(line: string, body: string, rest: string)
    ensures ("  " + line + "\n" + body) + rest == "  " + (line + (("\n" + body) + rest))
    ensures ("\n" + body) + rest == "\n" + (body + rest)
  {
    Text.Regroup("\n", body, rest);
    Text.Regroup(line, "\n" + body, rest);
    Text.Regroup(line, "\n", body);
    Text.Regroup("  ", line + ("\n" + body), rest);
    Text.Regroup("  ", line, "\n" + body);
    Text.Regroup("  " + line, "\n", body);
  }

  lemma FrameFound(line: string, after: string, frame: Frame)
    requires line != "" && MatchFrame(line + after) == Some((frame, |line|))
    ensures FindFrames(line + after) == [frame] + FindFrames(after)
  {
    hide MatchFrame;
    assert (line + after)[|line|..] == after;
  }

  lemma LineIsNotEmpty(e: Entry)
    ensures RenderFrameLine(e) != ""
  {
  }

  lemma EntryReadsBack(e: Entry, rest: string)
    requires EntryOk(e)
    ensures FindFrames(RenderEntry(e) + rest) == [Frame(e.path, e.func)] + FindFrames(rest)
  {
    hide MatchFrame, FindFrames, WholeLines, StartsWith, EntryOk, RenderFrameLine;
    var line := RenderFrameLine(e);
    BodyOk(e);
    FrameReadsBack(e, e.body + rest);
    EntryRegroups(line, e.body, rest);
    SkipIndent(line + (("\n" + e.body) + rest));
    LineIsNotEmpty(e);
    FrameFound(line, ("\n" + e.body) + rest, Frame(e.path, e.func));
    NewlineThenBody(e.body);
    SkipLines("\n" + e.body, rest);
  }

  lemma {:induction false} EntriesReadBack(entries: seq<Entry>, rest: string)
    requires forall i :: 0 <= i < |entries| ==> EntryOk(entries[i])
    ensures FindFrames(RenderEntries(entries) + rest) == Frames(entries) + FindFrames(rest)
  {
    hide EntryOk, RenderEntry, FindFrames;
    if entries == [] {
      assert RenderEntries(entries) + rest == rest;
      assert Frames(entries) + FindFrames(rest) == FindFrames(rest);
    } else {
      var later := RenderEntries(entries[1..]) + rest;
      EntriesReadBack(entries[1..], rest);
      assert RenderEntries(entries) + rest == RenderEntry(entries[0]) + later;
      EntryReadsBack(entries[0], later);
      var first := [Frame(entries[0].path, entries[0].func)];
      assert first + (Frames(entries[1..]) + FindFrames(rest)) == (first + Frames(entries[1..])) + FindFrames(rest);
    }
  }

  // --- the exception line ---------------------------------------------------------------------

  lemma LinesOfOne(b: string)
    requires b != "" && OneLine(b)
    ensures Lines(b) == [b]
  {
    SpanAll(b, NotBreak);
  }

  /** Where the lines after the first one start, when there is a break. */
  function SecondLine(s: string): nat
    requires Span(s, NotBreak) < |s|
  {
    var k := Span(s, NotBreak);
    k + if s[k] == '\r' && k + 1 < |s| && s[k + 1] == '\n' then 2 else 1
  }

  lemma LinesStep(s: string)
    requires Span(s, NotBreak) < |s|
    ensures 0 < SecondLine(s) <= |s|
    ensures Lines(s) == [s[..Span(s, NotBreak)]] + Lines(s[SecondLine(s)..])
  {
    hide NotBreak, IsBreak, Span;
  }

  lemma BreakWithin(a: string, b: string)
    ensures var s := a + "\n" + b; Span(s, NotBreak) < |s| && SecondLine(s) <= |a| + 1
  {
    var s := a + "\n" + b;
    assert s[|a|] == '\n' && !NotBreak('\n');
    hide NotBreak;
    assert Span(s, NotBreak) <= |a|;
  }

  lemma DropInto(a: string, b: string, n: nat)
    requires n <= |a| + 1
    ensures (a + "\n" + b)[n..] == if n <= |a| then a[n..] + "\n" + b else b
  {
  }

  /** What follows the last line feed is the last line. */
  lemma {:induction false} LastLine(a: string, b: string)
    requires b != "" && OneLine(b)
    ensures var lines := Lines(a + "\n" + b); lines != [] && lines[|lines| - 1] == b
    decreases |a|
  {
    hide Span, Lines, SecondLine, NotBreak, OneLine;
    var s := a + "\n" + b;
    BreakWithin(a, b);
    LinesStep(s);
    var n := SecondLine(s);
    DropInto(a, b, n);
    if n <= |a| {
      LastLine(a[n..], b);
    } else {
      LinesOfOne(b);
    }
  }

  lemma LStripStops(a: string, r: string)
    requires r != "" && !Text.IsSpace(r[0])
    ensures |Text.LStrip(a + r)| >= |r|
  {
    hide Text.IsSpace, Text.LStrip;
    assert (a + r)[|a|] == r[0];
  }

  /** Stripping a text keeps its last line, minus trailing blanks. */
  lemma RStripLine(line: string)
    requires line != "" && !Text.IsSpace(line[0])
    ensures Text.RStrip(line) != "" && Text.RStrip(line)[0] == line[0]
    ensures Text.RStrip(line + "\n") == Text.RStrip(line)
  {
    var r := Text.RStrip(line);
    assert Text.IsSpace('\n') && !Text.IsSpace(line[0]);
    hide Text.IsSpace;
    assert (line + "\n")[..|line|] == line;
  }

  lemma StripFromTheLeft(before: string, line: string)
    requires line != "" && !Text.IsSpace(line[0])
    ensures Text.Strip(before + line + "\n") == Text.LStrip(before + Text.RStrip(line))
    ensures Text.RStrip(line) != "" && |Text.LStrip(before + Text.RStrip(line))| >= |Text.RStrip(line)|
  {
    hide Text.LStrip, Text.RStrip, Text.IsSpace;
    RStripLine(line);
    Text.RStripAfter(before, line + "\n");
    Text.Regroup(before, line, "\n");
    LStripStops(before, Text.RStrip(line));
  }

  lemma LastLineOfStripped(before: string, line: string)
    requires EndsLine(before) && line != "" && OneLine(line) && !Text.IsSpace(line[0])
    ensures var stripped := Text.Strip(before + line + "\n");
      stripped != "" && Lines(stripped) != [] && Lines(stripped)[|Lines(stripped)| - 1] == Text.RStrip(line)
  {
    hide EndsLine, OneLine, Text.LStrip, Lines, Text.RStrip, Text.Strip, Text.IsSpace, IsBreak;
    StripFromTheLeft(before, line);
    var r := Text.RStrip(line);
    var k := DropIntoFirst(before, r);
    StrippedRow(line);
    LastLineAfterDrop(before, k, r);
  }

  /** Stripping on the left stops inside the first part. */
  lemma DropIntoFirst(before: string, r: string) returns (k: nat)
    requires |Text.LStrip(before + r)| >= |r|
    ensures k <= |before| && Text.LStrip(before + r) == before[k..] + r
  {
    hide Text.LStrip;
    k := |before| + |r| - |Text.LStrip(before + r)|;
  }

  lemma StrippedRow(line: string)
    requires OneLine(line)
    ensures OneLine(Text.RStrip(line))
  {
    hide IsBreak, Text.RStrip;
  }

  lemma LastLineAfterDrop(before: string, k: nat, r: string)
    requires EndsLine(before) && k <= |before| && r != "" && OneLine(r)
    ensures var lines := Lines(before[k..] + r); lines != [] && lines[|lines| - 1] == r
  {
    hide Lines, OneLine, EndsLine;
    if k == |before| {
      assert before[k..] + r == r;
      LinesOfOne(r);
    } else {
      LinesEnd(before);
      var kept := before[k..|before| - 1];
      assert before[k..] == kept + "\n";
      LastLine(kept, r);
    }
  }

  lemma LinesEnd(s: string)
    requires EndsLine(s) && s != ""
    ensures s[|s| - 1] == '\n'
  {
  }

  lemma WordsAreNotSpace(c: char)
    requires IsWordOrDot(c)
    ensures !Text.IsSpace(c) && c != ' ' && c != ':' && c != '\"' && c != '\t'
  {
  }

  lemma NothingToStrip(c: string)
    requires c != "" && !Text.IsSpace(c[0]) && !Text.IsSpace(c[|c| - 1])
    ensures Text.Strip(c) == c && Text.RStrip(c) == c
  {
    hide Text.IsSpace;
  }

  lemma NameIsNotSpace(exc: string)
    requires IsExceptionName(exc)
    ensures exc != "" && !Text.IsSpace(exc[0]) && !Text.IsSpace(exc[|exc| - 1])
  {
    WordsAreNotSpace(exc[0]);
    WordsAreNotSpace(exc[|exc| - 1]);
    hide IsWordOrDot, IsWord, Text.IsSpace;
  }

  /** The stripped exception line is the name, then nothing or a colon. */
  lemma StrippedExceptionLine(exc: string, message: string) returns (rest: string)
    requires IsExceptionName(exc)
    ensures Text.RStrip(ExceptionLine(exc, message)) == exc + rest && (rest == "" || rest[0] == ':')
    ensures exc + rest != "" && Text.Strip(exc + rest) == exc + rest
    ensures rest == if message == "" then "" else Text.RStrip(": " + message)
  {
    hide IsExceptionName, Text.IsSpace, Text.RStrip, Text.LStrip, Text.Strip;
    NameIsNotSpace(exc);
    if message == "" {
      rest := "";
      assert exc + rest == exc;
    } else {
      var tail := ": " + message;
      ColonIsNotSpace();
      RStripLine(tail);
      Text.RStripAfter(exc, tail);
      assert ExceptionLine(exc, message) == exc + tail;
      rest := Text.RStrip(tail);
    }
    NothingToStrip(exc + rest);
  }

  lemma ColonIsNotSpace()
    ensures !Text.IsSpace(':')
  {
  }

  lemma NameIsNotSkipped(exc: string, rest: string)
    requires IsExceptionName(exc) && !StartsWith(exc, "Traceback") && (rest == "" || rest[0] == ':')
    ensures var c := exc + rest;
      !StartsWith(c, FileOpen) && !StartsWith(c, "Traceback") && !StartsWith(c, "    ") && !StartsWith(c, "\t")
  {
    var c := exc + rest;
    WordsAreNotSpace(exc[0]);
    if |exc| > 4 {
      assert c[4] == exc[4];
      WordsAreNotSpace(exc[4]);
    }
    hide IsWordOrDot;
    assert c[0] == exc[0];
    assert |exc| < |c| ==> c[|exc|] == ':';
    forall p | StartsWith(c, p) ensures forall i :: 0 <= i < |p| ==> c[i] == p[i] {
      assert c[..|p|] == p;
    }
    assert FileOpen[4] == ' ' && "    "[0] == ' ' && "\t"[0] == '\t';
    assert |exc| >= 9 ==> exc[..9] == c[..9];
  }

  lemma NameReadsBack(exc: string, rest: string)
    requires IsExceptionName(exc) && (rest == "" || rest[0] == ':')
    ensures MatchException(exc + rest) == Some((exc, if rest == "" then "" else Text.LStrip(rest[1..])))
  {
    var c := exc + rest;
    assert !IsWordOrDot(':');
    hide IsWordOrDot, IsWord, Text.LStrip;
    assert c[..|exc|] == exc;
    if rest == "" {
      assert c == exc;
      SpanAll(exc, IsWordOrDot);
    } else {
      SpanStops(exc, rest, IsWordOrDot);
      assert c[|exc|] == ':' && c[|exc| + 1..] == rest[1..];
    }
  }

  lemma ExceptionReadsBack(exc: string, rest: string)
    requires IsExceptionName(exc) && Gate(exc) && !StartsWith(exc, "Traceback") && (rest == "" || rest[0] == ':')
    requires exc + rest != "" && Text.Strip(exc + rest) == exc + rest
    ensures ExceptionOf(exc + rest) == Some((exc, Text.Strip(if rest == "" then "" else Text.LStrip(rest[1..]))))
  {
    hide StartsWith, Text.Strip, Gate, MatchException, IsExceptionName;
    NameIsNotSkipped(exc, rest);
    NameReadsBack(exc, rest);
  }

  /** The message is read back without the white space around it. */
  lemma MessageReadsBack(message: string)
    ensures var rest := if message == "" then "" else Text.RStrip(": " + message);
      Text.Strip(if rest == "" then "" else Text.LStrip(rest[1..])) == Text.Strip(message)
  {
    hide Text.IsSpace, Text.RStrip, Text.LStrip, Text.Strip, Text.Blank, Text.Trimmed;
    if message != "" {
      var a, b := Text.StripParts(message);
      var c := Text.Strip(message);
      AfterColon(a, c, b);
      SpaceIsBlank("");
      Text.StripIs("", c, "");
      assert "" + c + "" == c;
    }
  }

  lemma AfterColon(a: string, c: string, b: string)
    requires Text.Blank(a) && Text.Blank(b) && Text.Trimmed(c)
    ensures var rest := Text.RStrip(": " + (a + c + b)); rest != "" && Text.LStrip(rest[1..]) == c
  {
    hide *;
    SpaceIsBlank(a);
    ColonRegroups(a, c, b);
    if c == "" {
      BlankConcat(" " + a, b);
      BlankAfterColon((" " + a) + b);
    } else {
      TextAfterColon(" " + a, c, b);
    }
  }

  lemma ColonRegroups(a: string, c: string, b: string)
    ensures ": " + (a + c + b) == ":" + ((" " + a) + c) + b
    ensures c == "" ==> ": " + (a + c + b) == ":" + ((" " + a) + b)
  {
    assert ": " == ":" + " ";
    Text.Regroup(":", " ", a + c + b);
    Text.Regroup(" ", a + c, b);
    Text.Regroup(" ", a, c);
    Text.Regroup(":", (" " + a) + c, b);
    if c == "" {
      assert (" " + a) + c == " " + a;
      Text.Regroup(":", " " + a, b);
    }
  }

  lemma BlankAfterColon(blank: string)
    requires Text.Blank(blank)
    ensures var rest := Text.RStrip(":" + blank); rest != "" && Text.LStrip(rest[1..]) == ""
  {
    hide Text.IsSpace, Text.RStrip, Text.LStrip, Text.Blank;
    ColonIsNotSpace();
    Text.RStripIs(":", blank);
    SpaceIsBlank(blank);
    Text.LStripIs("", "");
    assert ":"[1..] == "" && "" + "" == "";
  }

  lemma TextAfterColon(lead: string, c: string, b: string)
    requires Text.Blank(lead) && Text.Blank(b) && c != "" && Text.Trimmed(c)
    ensures var rest := Text.RStrip(":" + (lead + c) + b); rest != "" && Text.LStrip(rest[1..]) == c
  {
    hide Text.IsSpace, Text.RStrip, Text.LStrip, Text.Blank;
    var rest := ":" + (lead + c);
    assert rest[|rest| - 1] == c[|c| - 1];
    Text.RStripIs(rest, b);
    assert rest[1..] == lead + c;
    Text.LStripIs(lead, c);
  }

  lemma BlankConcat(a: string, b: string)
    requires Text.Blank(a) && Text.Blank(b)
    ensures Text.Blank(a + b)
  {
  }

  lemma SpaceIsBlank(a: string)
    ensures Text.Blank("") && (Text.Blank(a) ==> Text.Blank(" " + a))
  {
  }

  lemma NoFrameInExceptionLine(exc: string, message: string)
    requires IsExceptionName(exc) && NoFrameInside(message)
    ensures WholeLines(ExceptionLine(exc, message) + "\n")
  {
    var s := ExceptionLine(exc, message) + "\n";
    forall i | 0 <= i < |s| ensures !StartsWith(s[i..], FileOpen) {
      if i + 6 <= |s| {
        if i < |exc| {
          WordsAreNotSpace(exc[i]);
          if i + 4 < |exc| {
            WordsAreNotSpace(exc[i + 4]);
            assert s[i..][4] == exc[i + 4];
          } else if i + 4 == |exc| {
            assert s[i..][4] == s[|exc|];
          } else {
            assert s[i..][|exc| - i] == s[|exc|];
          }
        } else if i < |exc| + 2 {
          assert s[i..][0] == s[i];
        } else if i < |exc| + 2 + |message| {
          var j := i - |exc| - 2;
          assert !StartsWith(message[j..], FileOpen);
          if j + 6 <= |message| {
            assert s[i..][..6] == message[j..][..6];
          } else {
            assert s[i..][|message| - j] == '\n';
          }
        }
      }
    }
  }

  // --- the round trip ---------------------------------------------------------------------------

  lemma NoFrameAtTheEnd(exc: string, message: string)
    requires IsExceptionName(exc) && NoFrameInside(message)
    ensures FindFrames(ExceptionLine(exc, message) + "\n") == []
  {
    var last := ExceptionLine(exc, message) + "\n";
    NoFrameInExceptionLine(exc, message);
    NothingInNothing();
    hide IsExceptionName, NoFrameInside, WholeLines, FindFrames, ExceptionLine;
    SkipLines(last, "");
    assert last + "" == last;
  }

  lemma RenderedFrames(heading: string, entries: seq<Entry>, exc: string, message: string)
    requires Printable(heading, entries, exc, message)
    ensures FindFrames(Render(heading, entries, exc, message)) == Frames(entries)
  {
    hide EntryOk, IsExceptionName, Gate, StartsWith, NoFrameInside, OneLine, WholeLines, FindFrames, RenderEntries, ExceptionLine;
    var line := ExceptionLine(exc, message);
    NoFrameAtTheEnd(exc, message);
    EntriesReadBack(entries, line + "\n");
    SkipLines(heading, RenderEntries(entries) + (line + "\n"));
    Text.Regroup(heading + RenderEntries(entries), line, "\n");
    Text.Regroup(heading, RenderEntries(entries), line + "\n");
    assert Frames(entries) + [] == Frames(entries);
  }

  lemma NothingInNothing()
    ensures FindFrames("") == []
  {
  }

  lemma {:induction false} EntriesAreWholeLines(entries: seq<Entry>)
    requires forall i :: 0 <= i < |entries| ==> EntryOk(entries[i])
    ensures EndsLine(RenderEntries(entries))
  {
    hide RenderFrameLine;
    if entries != [] {
      EntriesAreWholeLines(entries[1..]);
      assert WholeLines(entries[0].body) by { BodyOk(entries[0]); }
    }
  }

  lemma RenderedException(heading: string, entries: seq<Entry>, exc: string, message: string)
    requires Printable(heading, entries, exc, message)
    ensures var text := Render(heading, entries, exc, message);
      Text.Strip(text) != "" && ParseException(text) == (exc, Text.Strip(message))
  {
    var before, line := heading + RenderEntries(entries), ExceptionLine(exc, message);
    PrintableParts(heading, entries, exc, message);
    hide *;
    LineIsOne(exc, message);
    var last := ExceptionLineReadsBack(exc, message);
    LastLineOfStripped(before, line);
    LastLineDecides(before + line + "\n", last);
  }

  lemma ExceptionLineReadsBack(exc: string, message: string) returns (last: string)
    requires IsExceptionName(exc) && Gate(exc) && !StartsWith(exc, "Traceback")
    ensures last == Text.RStrip(ExceptionLine(exc, message)) == Text.Strip(last) && last != ""
    ensures ExceptionOf(last) == Some((exc, Text.Strip(message)))
  {
    hide *;
    var rest := StrippedExceptionLine(exc, message);
    ExceptionReadsBack(exc, rest);
    MessageReadsBack(message);
    last := exc + rest;
  }

  lemma PrintableParts(heading: string, entries: seq<Entry>, exc: string, message: string)
    requires Printable(heading, entries, exc, message)
    ensures EndsLine(heading + RenderEntries(entries))
    ensures IsExceptionName(exc) && Gate(exc) && !StartsWith(exc, "Traceback") && OneLine(message)
    ensures Render(heading, entries, exc, message) == heading + RenderEntries(entries) + ExceptionLine(exc, message) + "\n"
  {
    hide EntryOk, IsExceptionName, Gate, StartsWith, NoFrameInside, OneLine, RenderEntries, ExceptionLine;
    EntriesAreWholeLines(entries);
  }

  lemma LastLineDecides(text: string, last: string)
    requires var stripped := Text.Strip(text);
      stripped != "" && Lines(stripped) != [] && Lines(stripped)[|Lines(stripped)| - 1] == last
    requires ExceptionOf(last).Some?
    ensures ParseException(text) == ExceptionOf(last).value
  {
    hide Text.Strip, Lines, ExceptionOf;
  }

  lemma LineIsOne(exc: string, message: string)
    requires IsExceptionName(exc) && OneLine(message)
    ensures OneLine(ExceptionLine(exc, message)) && ExceptionLine(exc, message) != ""
    ensures !Text.IsSpace(ExceptionLine(exc, message)[0])
  {
    var s := ExceptionLine(exc, message);
    assert !IsBreak(':') && !IsBreak(' ');
    WordsAreNotSpace(exc[0]);
    forall i | 0 <= i < |s| ensures !IsBreak(s[i]) {
      if i < |exc| {
        assert IsWordOrDot(exc[i]);
      } else if i >= |exc| + 2 {
        assert s[i] == message[i - |exc| - 2];
      }
    }
  }

  /** Parsing a printed traceback gives back the exception name and the innermost workspace frame's label. */
  lemma TracebackReadsBack(heading: string, entries: seq<Entry>, exc: string, message: string, workspaceRoot: string)
    requires Printable(heading, entries, exc, message)
    ensures var parsed := FromCrashText(Render(heading, entries, exc, message), workspaceRoot);
      && parsed.Some? && parsed.value.kind == Crash && parsed.value.excType == exc
      && parsed.value.message == Text.Strip(message)
      && parsed.value.location == Location(Frames(entries), workspaceRoot)
  {
    RenderedFrames(heading, entries, exc, message);
    RenderedException(heading, entries, exc, message);
    hide Location, Render, Printable, ParseException, Text.Strip, FindFrames;
  }

  /** Line numbers, source text, headings and messages do not matter: the same frames and exception match. */
  lemma JitterStillMatches(heading: string, entries: seq<Entry>, message: string,
                           heading': string, entries': seq<Entry>, message': string, exc: string, workspaceRoot: string)
    requires Printable(heading, entries, exc, message) && Printable(heading', entries', exc, message')
    requires Frames(entries) == Frames(entries')
    ensures var a, b := FromCrashText(Render(heading, entries, exc, message), workspaceRoot),
                        FromCrashText(Render(heading', entries', exc, message'), workspaceRoot);
      a.Some? && b.Some? && Matches(a.value, b)
  {
    TracebackReadsBack(heading, entries, exc, message, workspaceRoot);
    TracebackReadsBack(heading', entries', exc, message', workspaceRoot);
    hide FromCrashText, Render, Printable, Location;
  }

  // --- the same crash seen under another mount ------------------------------------------------------

  lemma {:induction false} FramesAt(entries: seq<Entry>, i: nat)
    requires i < |entries|
    ensures |Frames(entries)| == |entries| && Frames(entries)[i] == Frame(entries[i].path, entries[i].func)
  {
    if i > 0 {
      FramesAt(entries[1..], i - 1);
    } else if |entries| > 1 {
      FramesAt(entries[1..], 0);
    }
  }

  lemma LabelsOfOneFunction(rel: string, rel': string, func: string)
    ensures FrameLabel(rel, func) == FrameLabel(rel', func) <==> rel == rel'
  {
    if func != "" && FrameLabel(rel, func) == FrameLabel(rel', func) {
      var a, b := rel + ":" + func, rel' + ":" + func;
      assert |rel| == |rel'| && a[..|rel|] == rel && b[..|rel'|] == rel';
    }
  }

  lemma LabelsAgreeExactlyAtTheRoot(inside: Frame, outside: Frame, workspaceRoot: string)
    requires InWorkspace(inside, workspaceRoot) && Resolved(inside.path).names != Resolved(workspaceRoot).names
    requires outside.func == inside.func && Name(PurePath(outside.path)) == Name(Resolved(inside.path))
    ensures WorkspaceLabel(inside, workspaceRoot) == OutsideLabel(outside)
       <==> |Resolved(inside.path).names| == |Resolved(workspaceRoot).names| + 1
  {
    hide Resolved, ToRel, PurePath, IsInside, FrameLabel, Name;
    RelIsNameExactlyAtTheRoot(inside.path, workspaceRoot);
    LabelsOfOneFunction(ToRel(inside.path, workspaceRoot), Name(PurePath(outside.path)), inside.func);
  }

  /** A crash whose deepest frame lies in the workspace, reported again from a tree mounted elsewhere (so that no
      frame is inside), is recognised as the same error exactly when the file sits directly at the root. */
  lemma RemountedMatchesExactlyAtTheRoot(heading: string, entries: seq<Entry>, message: string,
                                         heading': string, entries': seq<Entry>, message': string,
                                         exc: string, workspaceRoot: string)
    requires Printable(heading, entries, exc, message) && Printable(heading', entries', exc, message')
    requires entries != [] && entries' != []
    requires var f, f' := Frames(entries), Frames(entries');
      && |f| == |entries| && |f'| == |entries'|
      && InWorkspace(f[|f| - 1], workspaceRoot)
      && Resolved(f[|f| - 1].path).names != Resolved(workspaceRoot).names
      && (forall j :: 0 <= j < |f'| ==> !InWorkspace(f'[j], workspaceRoot))
      && f'[|f'| - 1].func == f[|f| - 1].func
      && Name(PurePath(f'[|f'| - 1].path)) == Name(Resolved(f[|f| - 1].path))
    ensures var a, b := FromCrashText(Render(heading, entries, exc, message), workspaceRoot),
                        FromCrashText(Render(heading', entries', exc, message'), workspaceRoot);
      && a.Some? && b.Some?
      && (Matches(a.value, b)
          <==> |Resolved(Frames(entries)[|entries| - 1].path).names| == |Resolved(workspaceRoot).names| + 1)
  {
    var f, f' := Frames(entries), Frames(entries');
    TracebackReadsBack(heading, entries, exc, message, workspaceRoot);
    TracebackReadsBack(heading', entries', exc, message', workspaceRoot);
    ExceptionNamesHaveNoPipe(exc);
    hide FromCrashText, Render, Printable, Location, InWorkspace, Resolved, PurePath, WorkspaceLabels, Frames, NoPipe, Matches;
    LocationIsInnermost(f, workspaceRoot, |f| - 1);
    LocationIsInnermost(f', workspaceRoot, 0);
    LabelsAgreeExactlyAtTheRoot(f[|f| - 1], f'[|f'| - 1], workspaceRoot);
    MatchesIsIdentity(FromCrashText(Render(heading, entries, exc, message), workspaceRoot).value,
                      FromCrashText(Render(heading', entries', exc, message'), workspaceRoot).value);
  }
}
