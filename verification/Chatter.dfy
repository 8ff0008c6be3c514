/** Which lines are taken for exceptions, and what a program prints after its traceback. */
module Chatter {
  import opened Wrappers
  import opened Scanning
  import opened Signatures
  import opened Traceback
  import Text

  // --- one line -----------------------------------------------------------------------

  const Endings: set<string> := {"Error", "Exception", "Exit", "Interrupt", "Warning", "Iteration"}

  /** Dotted, or ending like an exception's name. */
  predicate ErrorLike(word: string) {
    '.' in word || exists ending :: ending in Endings && Text.EndsWith(word, ending)
  }

  lemma GateIsErrorLike(word: string)
    ensures Gate(word) <==> ErrorLike(word)
  {
    hide Text.EndsWith;
  }

  lemma OpeningsAreNoNames(word: string, rest: string)
    requires IsExceptionName(word)
    ensures !StartsWith(word + rest, "    ") && !StartsWith(word + rest, "\t")
  {
    assert (word + rest)[0] == word[0] && IsWordOrDot(word[0]);
    WordsAreNotSpace(word[0]);
    hide IsWordOrDot, StartsWith;
    DiffersAt(word + rest, "    ", 0);
    DiffersAt(word + rest, "\t", 0);
  }

  lemma FileIsNotTaken(word: string, rest: string)
    requires IsExceptionName(word) && StartsWith(word + rest, FileOpen) && (rest == "" || !IsWordOrDot(rest[0]))
    ensures rest != "" && rest[0] != ':'
  {
    var s := word + rest;
    assert s[4] == FileOpen[4] == ' ';
    WordsEndBeforeSpace(word, rest, 4);
    assert s[..4] == FileOpen[..4];
    if |word| < 4 {
      assert s[|word|] == rest[0] == FileOpen[|word|];
      assert FileOpen[..4] == "File";
    }
  }

  lemma WordsEndBeforeSpace(word: string, rest: string, i: nat)
    requires IsExceptionName(word) && i < |word + rest| && (word + rest)[i] == ' '
    ensures |word| <= i
  {
    if i < |word| {
      assert (word + rest)[i] == word[i] && IsWordOrDot(word[i]);
      WordsAreNotSpace(word[i]);
    }
  }

  lemma NameMatchesExactlyWhen(word: string, rest: string)
    requires IsExceptionName(word) && (rest == "" || !IsWordOrDot(rest[0]))
    ensures MatchException(word + rest).Some? <==> rest == "" || rest[0] == ':'
    ensures MatchException(word + rest).Some? ==> MatchException(word + rest).value.0 == word
  {
    var c := word + rest;
    hide IsWordOrDot, IsWord, Text.LStrip;
    assert c[..|word|] == word;
    if rest == "" {
      assert c == word;
      SpanAll(word, IsWordOrDot);
    } else {
      SpanStops(word, rest, IsWordOrDot);
      assert c[|word|] == rest[0];
    }
  }

  /** A line that opens with a word is taken for an exception exactly when the word goes on to a colon or to the end,
      is dotted or ends like an exception's name, and the line is no traceback heading. */
  lemma TakenExactlyWhen(line: string, word: string, rest: string)
    requires Text.Strip(line) == word + rest && IsExceptionName(word) && (rest == "" || !IsWordOrDot(rest[0]))
    ensures ExceptionOf(line).Some? <==>
            (rest == "" || rest[0] == ':') && ErrorLike(word) && !StartsWith(word + rest, "Traceback")
    ensures ExceptionOf(line).Some? ==> ExceptionOf(line).value.0 == word
  {
    assert word + rest != "";
    if StartsWith(word + rest, FileOpen) {
      FileIsNotTaken(word, rest);
    }
    hide IsWordOrDot, IsExceptionName, MatchException, Gate, ErrorLike, Text.Strip, StartsWith;
    GateIsErrorLike(word);
    OpeningsAreNoNames(word, rest);
    NameMatchesExactlyWhen(word, rest);
  }

  /** So is no line that opens with anything else. */
  lemma OthersAreNotTaken(line: string)
    requires Text.Strip(line) == "" || !IsWord(Text.Strip(line)[0]) || Text.IsDigit(Text.Strip(line)[0])
    ensures ExceptionOf(line).None?
  {
    var c := Text.Strip(line);
    hide IsWord, Text.IsDigit, Text.Strip, Gate, StartsWith;
    if c != "" {
      var k := Span(c, IsWordOrDot);
      assert k > 0 ==> c[..k][0] == c[0];
    }
  }

  // --- lines after the traceback -------------------------------------------------------

  /** The lines of two texts, the first of which ends a line, are those of both. */
  lemma {:induction false} LinesConcat(x: string, y: string)
    requires EndsLine(x)
    ensures Lines(x + y) == Lines(x) + Lines(y)
    decreases |x|
  {
    hide Span, NotBreak, Lines;
    if x == "" {
      assert x + y == y;
      NoLines();
    } else {
      BreakInside(x);
      var n := SecondLine(x);
      BreakStays(x, y);
      LinesStep(x);
      LinesStep(x + y);
      assert (x + y)[n..] == x[n..] + y && (x + y)[..Span(x, NotBreak)] == x[..Span(x, NotBreak)];
      LinesConcat(x[n..], y);
      Text.Regroup([x[..Span(x, NotBreak)]], Lines(x[n..]), Lines(y));
    }
  }

  lemma NoLines()
    ensures Lines("") == []
  {
  }

  lemma BreakInside(x: string)
    requires EndsLine(x) && x != ""
    ensures Span(x, NotBreak) < |x|
  {
    assert x[|x| - 1] == '\n' && !NotBreak('\n');
    hide NotBreak;
  }

  lemma SpanStays(x: string, y: string)
    requires Span(x, NotBreak) < |x|
    ensures Span(x + y, NotBreak) == Span(x, NotBreak)
  {
    hide NotBreak, Span;
    var k := Span(x, NotBreak);
    var b := x[k..] + y;
    assert forall i :: 0 <= i < k ==> x[..k][i] == x[i];
    assert b[0] == x[k];
    SpanStops(x[..k], b, NotBreak);
    assert x + y == x[..k] + b;
  }

  lemma BreakStays(x: string, y: string)
    requires EndsLine(x) && x != "" && Span(x, NotBreak) < |x|
    ensures Span(x + y, NotBreak) == Span(x, NotBreak)
    ensures SecondLine(x + y) == SecondLine(x) <= |x| && EndsLine(x[SecondLine(x)..])
  {
    SpanStays(x, y);
    hide NotBreak, Span;
    var k := Span(x, NotBreak);
    assert (x + y)[k] == x[k];
    assert k + 1 < |x| ==> (x + y)[k + 1] == x[k + 1];
  }

  /** A row between two stretches of whole lines is a line of its own. */
  lemma RowIsALine(a: string, row: string, b: string)
    requires EndsLine(a) && row != "" && OneLine(row)
    ensures Lines(a + row + "\n" + b) == Lines(a) + [row] + Lines(b)
  {
    hide Lines, IsBreak, OneLine;
    LinesConcat(a, row + "\n" + b);
    LinesConcat(row + "\n", b);
    RowAlone(row);
    assert a + row + "\n" + b == a + (row + "\n" + b);
    Text.Regroup(Lines(a), [row], Lines(b));
  }

  lemma RowAlone(row: string)
    requires row != "" && OneLine(row)
    ensures Lines(row + "\n") == [row]
  {
    var s := row + "\n";
    assert !NotBreak('\n') && forall i :: 0 <= i < |row| ==> NotBreak(row[i]);
    hide NotBreak, IsBreak;
    SpanStops(row, "\n", NotBreak);
    assert s[|row|] == '\n' && s[|row| + 1..] == "" && s[..|row|] == row;
    NoLines();
  }

  /** Not one of these lines is taken for an exception. */
  predicate Quiet(lines: seq<string>) {
    forall i :: 0 <= i < |lines| ==> ExceptionOf(lines[i]).None?
  }

  lemma {:induction false} QuietIsSkipped(lines: seq<string>, chatter: seq<string>)
    requires Quiet(chatter)
    ensures LastException(lines + chatter) == LastException(lines)
  {
    hide ExceptionOf;
    if chatter == [] {
      assert lines + chatter == lines;
    } else {
      var init := chatter[..|chatter| - 1];
      assert (lines + chatter)[..|lines + chatter| - 1] == lines + init;
      QuietIsSkipped(lines, init);
    }
  }

  // --- whole texts ----------------------------------------------------------------------

  lemma StripIgnoresBlankEnd(s: string, blank: string)
    requires Text.Blank(blank)
    ensures Text.Strip(s + blank) == Text.Strip(s)
  {
    hide *;
    var a, b := Text.StripParts(s);
    var c := Text.Strip(s);
    BlankConcat(b, blank);
    Text.Regroup(a + c, b, blank);
    Text.StripIs(a, c, b + blank);
  }

  lemma StrippedWithChatter(before: string, line: string, chatter: string) returns (k: nat)
    requires line != "" && !Text.IsSpace(line[0]) && !Text.Blank(chatter)
    ensures k <= |before|
    ensures Text.Strip(before + line + "\n" + chatter) == before[k..] + line + "\n" + Text.RStrip(chatter)
  {
    hide *;
    RStripOfText(chatter);
    Text.RStripAfter(before + line + "\n", chatter);
    var r := line + "\n" + Text.RStrip(chatter);
    ChatterRegroups(before, line, Text.RStrip(chatter));
    StartOfRow(line, "\n" + Text.RStrip(chatter));
    Text.Regroup(line, "\n", Text.RStrip(chatter));
    LStripStops(before, r);
    k := DropIntoFirst(before, r);
    ChatterRegroups(before[k..], line, Text.RStrip(chatter));
    StripIsBoth(before + line + "\n" + chatter);
  }

  lemma StripIsBoth(s: string)
    ensures Text.Strip(s) == Text.LStrip(Text.RStrip(s))
  {
  }

  lemma StartOfRow(line: string, rest: string)
    requires line != ""
    ensures line + rest != "" && (line + rest)[0] == line[0]
  {
  }

  lemma ChatterRegroups(before: string, line: string, end: string)
    ensures before + line + "\n" + end == before + (line + "\n" + end)
  {
    Text.Regroup(before, line, "\n");
    Text.Regroup(before, line + "\n", end);
  }

  lemma RStripOfText(s: string)
    requires !Text.Blank(s)
    ensures Text.RStrip(s) != ""
  {
    hide Text.IsSpace;
  }

  lemma EndsLineFrom(s: string, k: nat)
    requires EndsLine(s) && k <= |s|
    ensures EndsLine(s[k..])
  {
  }

  lemma LineTaken(exc: string, message: string)
    requires IsExceptionName(exc) && Gate(exc) && !StartsWith(exc, "Traceback")
    ensures ExceptionOf(ExceptionLine(exc, message)) == Some((exc, Text.Strip(message)))
  {
    hide IsExceptionName, Gate, StartsWith, Text.Strip, Text.RStrip, ExceptionLine, MatchException, Text.LStrip;
    var rest := StrippedExceptionLine(exc, message);
    ExceptionReadsBack(exc, rest);
    MessageReadsBack(message);
    LineStripped(exc, message, rest);
  }

  lemma LineStripped(exc: string, message: string, rest: string)
    requires IsExceptionName(exc) && Text.RStrip(ExceptionLine(exc, message)) == exc + rest
    requires Text.Strip(exc + rest) == exc + rest
    ensures Text.Strip(ExceptionLine(exc, message)) == exc + rest
  {
    NameIsNotSpace(exc);
    hide Text.IsSpace, Text.RStrip, ExceptionLine, IsExceptionName, Text.LStrip;
    assert (exc + rest)[0] == exc[0];
    Text.LStripIs("", exc + rest);
    assert "" + (exc + rest) == exc + rest;
  }

  lemma ExceptionOfChatter(heading: string, entries: seq<Entry>, exc: string, message: string, chatter: string)
    requires Printable(heading, entries, exc, message)
    requires !Text.Blank(chatter) && Quiet(Lines(Text.RStrip(chatter)))
    ensures var text := Render(heading, entries, exc, message) + chatter;
      Text.Strip(text) != "" && ParseException(text) == (exc, Text.Strip(message))
  {
    hide EntryOk, IsExceptionName, Gate, StartsWith, NoFrameInside, OneLine, Text.Strip, Text.RStrip, ExceptionOf, Lines, Quiet,
      RenderEntries, ExceptionLine, Text.LStrip, Text.Blank, Text.IsSpace;
    var before, line := heading + RenderEntries(entries), ExceptionLine(exc, message);
    EntriesAreWholeLines(entries);
    assert EndsLine(before);
    hide EndsLine;
    LineIsOne(exc, message);
    LineTaken(exc, message);
    var k := StrippedWithChatter(before, line, chatter);
    EndsLineFrom(before, k);
    var end := Text.RStrip(chatter);
    RowIsALine(before[k..], line, end);
    QuietIsSkipped(Lines(before[k..]) + [line], Lines(end));
    LastTaken(Lines(before[k..]), line);
  }

  lemma LastTaken(lines: seq<string>, line: string)
    requires ExceptionOf(line).Some?
    ensures LastException(lines + [line]) == ExceptionOf(line)
  {
  }

  /** Whatever the program prints after its traceback, as long as it opens no frame and none of its lines is taken for
      an exception, the crash is read as if it had printed nothing. */
  lemma ChatterIsSkipped(heading: string, entries: seq<Entry>, exc: string, message: string, chatter: string, workspaceRoot: string)
    requires Printable(heading, entries, exc, message) && WholeLines(chatter) && Quiet(Lines(Text.RStrip(chatter)))
    ensures FromCrashText(Render(heading, entries, exc, message) + chatter, workspaceRoot)
         == FromCrashText(Render(heading, entries, exc, message), workspaceRoot)
  {
    hide Printable, Render, Location, FindFrames, ParseException, Text.Strip, WholeLines, Quiet, Lines, Text.RStrip, Text.Blank;
    var text := Render(heading, entries, exc, message);
    FramesWithChatter(heading, entries, exc, message, chatter);
    RenderedFrames(heading, entries, exc, message);
    RenderedException(heading, entries, exc, message);
    if Text.Blank(chatter) {
      StripIgnoresBlankEnd(text, chatter);
      SameException(text, text + chatter);
    } else {
      ExceptionOfChatter(heading, entries, exc, message, chatter);
    }
  }

  lemma SameException(a: string, b: string)
    requires Text.Strip(a) == Text.Strip(b)
    ensures ParseException(a) == ParseException(b)
  {
    hide Text.Strip;
  }

  lemma FramesWithChatter(heading: string, entries: seq<Entry>, exc: string, message: string, chatter: string)
    requires Printable(heading, entries, exc, message) && WholeLines(chatter)
    ensures FindFrames(Render(heading, entries, exc, message) + chatter) == Frames(entries)
  {
    hide EntryOk, IsExceptionName, Gate, StartsWith, NoFrameInside, OneLine, WholeLines, FindFrames, RenderEntries, ExceptionLine;
    var last := ExceptionLine(exc, message) + "\n";
    assert WholeLines(heading) && forall i :: 0 <= i < |entries| ==> EntryOk(entries[i]);
    NoFrameInExceptionLine(exc, message);
    NothingInNothing();
    SkipLines(chatter, "");
    assert chatter + "" == chatter;
    SkipLines(last, chatter);
    EntriesReadBack(entries, last + chatter);
    SkipLines(heading, RenderEntries(entries) + (last + chatter));
    RenderRegroups(heading, RenderEntries(entries), ExceptionLine(exc, message), chatter);
    assert Frames(entries) + [] == Frames(entries);
  }

  lemma RenderRegroups(heading: string, frames: string, line: string, chatter: string)
    ensures heading + frames + line + "\n" + chatter == heading + (frames + ((line + "\n") + chatter))
  {
    Text.Regroup(heading + frames, line, "\n");
    Text.Regroup(heading + frames, line + "\n", chatter);
    Text.Regroup(heading, frames, (line + "\n") + chatter);
  }
}
