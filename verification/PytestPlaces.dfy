/** Pytest outputs without a summary: green runs, and where a failure without one is located. */
module PytestPlaces {
  import opened Wrappers
  import opened Paths
  import opened Scanning
  import opened Pytest
  import opened Signatures
  import opened PytestTail
  import Text

  // --- green runs ---------------------------------------------------------------------

  predicate Holds(s: string, part: string) {
    exists i :: 0 <= i <= |s| && OccursAt(s, part, i)
  }

  predicate OccursAt(s: string, part: string, i: nat)
    requires i <= |s|
  {
    StartsWith(s[i..], part)
  }

  /** Wherever the part occurs, a letter, digit or underscore stands right before or right after it. */
  predicate OnlyWithin(s: string, part: string) {
    forall i :: 0 <= i <= |s| && OccursAt(s, part, i) ==>
      (i > 0 && IsWord(s[i - 1])) || (i + |part| < |s| && IsWord(s[i + |part|]))
  }

  lemma NoWordWithout(s: string, word: string)
    requires OnlyWithin(s, word)
    ensures !HasWord(s, word)
  {
    hide IsWord;
    forall k: nat | k <= |s| ensures !WordAt(s, word, k) {
      if k + |word| <= |s| && s[k..k + |word|] == word {
        assert s[k..][..|word|] == s[k..k + |word|];
        assert OccursAt(s, word, k);
      }
    }
  }

  /** A run that says `passed` as a word of its own, and `failed` or `error`, in capitals or not, only as parts of longer
      words, such as `xfailed` or `errors`, shows no error at all. */
  lemma GreenRunsShowNothing(text: string, k: nat, workspaceRoot: string)
    requires k + 6 <= |text| && text[k..k + 6] == "passed"
    requires (k == 0 || !IsWord(text[k - 1])) && (k + 6 == |text| || !IsWord(text[k + 6]))
    requires OnlyWithin(LowerAll(text), "failed") && OnlyWithin(LowerAll(text), "error")
    ensures FromPytestOutput(text, workspaceRoot).None?
  {
    hide OnlyWithin, StartsWith, Text.Strip, FirstSummary, ErrorLines, FirstNodeId, FirstPytestFrame, LowerAll, IsWord;
    NoWordWithout(LowerAll(text), "failed");
    NoWordWithout(LowerAll(text), "error");
    assert WordAt(text, "passed", k);
    hide HasWord, WordAt;
    assert HasWord(text, "passed") by { WordIsThere(text, "passed", k); }
  }

  lemma WordIsThere(text: string, word: string, k: nat)
    requires k <= |text| && WordAt(text, word, k)
    ensures HasWord(text, word)
  {
  }

  // --- node ids -----------------------------------------------------------------------

  lemma InsideOccurs(word: string, part: string)
    requires Inside(word, part)
    ensures Holds(word, part)
  {
    var i :| 1 <= i < |word| && Splits(word, part, i);
    assert word[i..][..|part|] == word[i..i + |part|];
    assert OccursAt(word, part, i);
  }

  lemma HoldsInPart(s: string, part: string, i: nat, j: nat)
    requires i <= j <= |s| && Holds(s[i..j], part)
    ensures Holds(s, part)
  {
    var k :| 0 <= k <= |s[i..j]| && OccursAt(s[i..j], part, k);
    assert s[i..j][k..][..|part|] == s[i + k..][..|part|];
    assert OccursAt(s, part, i + k);
  }

  /** The first word with `.py::` inside is found behind any text that does not hold it. */
  lemma {:induction false} FirstNodeIdReadsBack(before: string, id: string, after: string)
    requires before == "" || Text.IsSpace(before[|before| - 1])
    requires !Holds(before, ".py::")
    requires id != "" && (forall i :: 0 <= i < |id| ==> NotSpace(id[i])) && Inside(id, ".py::")
    requires after == "" || Text.IsSpace(after[0])
    ensures FirstNodeId(before + (id + after)) == Some(id)
    decreases |before|
  {
    hide Holds, Inside, Text.IsSpace, Span;
    var s := before + (id + after);
    if before == "" {
      assert s == id + after;
      WordSpan(id, after);
    } else {
      var n := Span(s, NotSpace);
      WordEndsWithin(before, id + after);
      assert s[..n] == before[0..n];
      var m := if n == 0 then 1 else n;
      assert s[m..] == before[m..] + (id + after) && before[m..|before|] == before[m..];
      if Holds(before[m..], ".py::") {
        HoldsInPart(before, ".py::", m, |before|);
      }
      if n > 0 && Inside(s[..n], ".py::") {
        InsideOccurs(s[..n], ".py::");
        HoldsInPart(before, ".py::", 0, n);
      }
      FirstNodeIdReadsBack(before[m..], id, after);
    }
  }

  lemma WordSpan(word: string, after: string)
    requires forall i :: 0 <= i < |word| ==> NotSpace(word[i])
    requires after == "" || Text.IsSpace(after[0])
    ensures Span(word + after, NotSpace) == |word| && (word + after)[..|word|] == word && (word + after)[|word|..] == after
  {
    hide Text.IsSpace, Span;
    if after == "" {
      assert word + after == word;
      SpanAll(word, NotSpace);
    } else {
      SpanStops(word, after, NotSpace);
    }
  }

  lemma WordEndsWithin(before: string, rest: string)
    requires before != "" && Text.IsSpace(before[|before| - 1])
    ensures Span(before + rest, NotSpace) < |before|
  {
    assert (before + rest)[|before| - 1] == before[|before| - 1] && !NotSpace(before[|before| - 1]);
    hide Text.IsSpace;
  }

  lemma {:induction false} NoNodeIdWithout(s: string)
    requires !Holds(s, ".py::")
    ensures FirstNodeId(s).None?
    decreases |s|
  {
    hide Holds, Inside, Text.IsSpace, Span;
    if s != "" {
      var n := Span(s, NotSpace);
      var m := if n == 0 then 1 else n;
      if Holds(s[m..], ".py::") {
        assert s[m..|s|] == s[m..];
        HoldsInPart(s, ".py::", m, |s|);
      }
      if n > 0 && Inside(s[..n], ".py::") {
        InsideOccurs(s[..n], ".py::");
        assert s[0..n] == s[..n];
        HoldsInPart(s, ".py::", 0, n);
      }
      NoNodeIdWithout(s[m..]);
    }
  }

  // --- frames ---------------------------------------------------------------------------

  /** A frame as `--tb=short` prints it. */
  function FrameRow(path: string, line: nat, func: string): string {
    (path + (":" + (Text.Decimal(line) + ":"))) + (" in " + func)
  }

  lemma {:induction false} DigitsCount(a: string, digits: string)
    requires a != "" && !Text.IsDigit(a[|a| - 1]) && forall i :: 0 <= i < |digits| ==> Text.IsDigit(digits[i])
    ensures TrailingDigits(a + digits) == |digits|
  {
    hide Text.IsDigit;
    var s := a + digits;
    if digits == "" {
      assert s == a;
    } else {
      var init := digits[..|digits| - 1];
      assert s[..|s| - 1] == a + init && s[|s| - 1] == digits[|digits| - 1];
      DigitsCount(a, init);
    }
  }

  lemma DigitsAreNoSpace(digits: string)
    requires forall i :: 0 <= i < |digits| ==> Text.IsDigit(digits[i])
    ensures forall i :: 0 <= i < |digits| ==> NotSpace(digits[i])
  {
  }

  lemma FrameSigns()
    ensures NotSpace(':') && !Text.IsDigit(':') && !NotSpace(' ') && Text.IsSpace('\n')
  {
  }

  lemma PlaceIsOneWord(path: string, digits: string)
    requires forall i :: 0 <= i < |path| ==> NotSpace(path[i])
    requires forall i :: 0 <= i < |digits| ==> Text.IsDigit(digits[i])
    ensures var place := path + (":" + (digits + ":")); forall i :: 0 <= i < |place| ==> NotSpace(place[i])
  {
    FrameSigns();
    DigitsAreNoSpace(digits);
    hide Text.IsSpace, Text.IsDigit, NotSpace;
    var place := path + (":" + (digits + ":"));
    forall i | 0 <= i < |place| ensures NotSpace(place[i]) {
      assert i == |path| || i == |place| - 1 ==> place[i] == ':';
      assert |path| < i < |place| - 1 ==> place[i] == digits[i - |path| - 1];
    }
  }

  lemma FrameReadsBack(path: string, line: nat, func: string, after: string)
    requires |path| >= 4 && Text.EndsWith(path, ".py") && forall i :: 0 <= i < |path| ==> NotSpace(path[i])
    requires func != "" && forall i :: 0 <= i < |func| ==> NotSpace(func[i])
    requires after == "" || Text.IsSpace(after[0])
    ensures MatchPytestFrame(FrameRow(path, line, func) + after) == Some((path, func))
  {
    var digits := Text.Decimal(line);
    var place := path + (":" + (digits + ":"));
    FrameSigns();
    hide Text.IsSpace, Text.IsDigit, NotSpace, Span, Text.Decimal, Text.EndsWith, TrailingDigits, StartsWith, MatchPytestFrame;
    PlaceIsOneWord(path, digits);
    PathBefore(path, digits);
    FrameRegroups(place, func, after);
    FrameMatches(place, digits, path, func, after);
  }

  lemma FrameMatches(place: string, digits: string, path: string, func: string, after: string)
    requires (forall i :: 0 <= i < |place| ==> NotSpace(place[i])) && place != "" && place[|place| - 1] == ':'
    requires TrailingDigits(place[..|place| - 1]) == |digits| > 0 && |path| >= 4
    requires place[..|place| - 1][..|place| - 1 - |digits|] == path + ":" && Text.EndsWith(path + ":", ".py:")
    requires func != "" && forall i :: 0 <= i < |func| ==> NotSpace(func[i])
    requires after == "" || Text.IsSpace(after[0])
    ensures MatchPytestFrame(place + (" in " + (func + after))) == Some((path, func))
  {
    FrameSigns();
    hide Text.IsSpace, Text.IsDigit, NotSpace, Span, Text.EndsWith, TrailingDigits, StartsWith;
    var tail := " in " + (func + after);
    var s := place + tail;
    assert tail[0] == ' ';
    SpaceIsSpace();
    WordSpan(place, tail);
    StartsAndRest(" in ", func + after);
    WordSpan(func, after);
    assert s[|place| - 1] == place[|place| - 1] && s[..|place| - 1] == place[..|place| - 1];
    assert s[|place| + 4..] == func + after;
    assert (path + ":")[..|path|] == path;
  }

  lemma SpaceIsSpace()
    ensures Text.IsSpace(' ')
  {
  }

  lemma FrameRegroups(place: string, func: string, after: string)
    ensures (place + (" in " + func)) + after == place + (" in " + (func + after))
  {
    Text.Regroup(" in ", func, after);
    Text.Regroup(place, " in " + func, after);
  }

  lemma PathBefore(path: string, digits: string)
    requires Text.EndsWith(path, ".py") && digits != "" && forall i :: 0 <= i < |digits| ==> Text.IsDigit(digits[i])
    ensures var word := path + (":" + (digits + ":")); var place := word[..|word| - 1]; var d := TrailingDigits(place);
      && word[|word| - 1] == ':' && d == |digits| && place[..|place| - d] == path + ":"
      && Text.EndsWith(path + ":", ".py:") && (path + ":")[..|path|] == path
  {
    FrameSigns();
    hide Text.IsDigit, TrailingDigits;
    var word := path + (":" + (digits + ":"));
    assert word[..|word| - 1] == (path + ":") + digits;
    DigitsCount(path + ":", digits);
    assert (path + ":")[|path| - 3..] == path[|path| - 3..] + ":";
  }

  lemma FramesHoldIn(row: string, rest: string)
    requires OneRow(row) && MatchPytestFrame(row + ("\n" + rest)).Some?
    ensures Holds(row, ": in ")
  {
    var s := row + ("\n" + rest);
    FrameSigns();
    var n := Span(s, NotSpace);
    hide Text.IsSpace, Text.IsDigit, Text.EndsWith, TrailingDigits, Span;
    assert n <= |row| by { assert !NotSpace(s[|row|]); }
    InBeforeBreak(s[n..], |row| - n);
    assert row[n - 1..][..5] == [s[n - 1]] + s[n..][..4] == ":" + " in ";
    assert OccursAt(row, ": in ", n - 1);
  }

  lemma InBeforeBreak(s: string, k: nat)
    requires StartsWith(s, " in ") && k < |s| && s[k] == '\n'
    ensures k >= 4
  {
    assert forall i :: 0 <= i < 4 ==> s[i] == s[..4][i] == " in "[i];
  }

  lemma {:induction false} SkipRow(row: string, rest: string)
    requires OneRow(row)
    ensures FirstPytestFrame(row + ("\n" + rest), false) == FirstPytestFrame(rest, true)
  {
    hide MatchPytestFrame;
    var s := row + ("\n" + rest);
    if row == "" {
      assert s[0] == '\n' && s[1..] == rest;
    } else {
      assert s[0] == row[0] && s[1..] == row[1..] + ("\n" + rest);
      SkipRow(row[1..], rest);
    }
  }

  function Rows(rows: seq<string>): string {
    if rows == [] then "" else rows[0] + ("\n" + Rows(rows[1..]))
  }

  predicate FramelessRow(row: string) {
    OneRow(row) && !Holds(row, ": in ")
  }

  /** The first frame is found below any rows that hold none. */
  lemma {:induction false} FirstFrameReadsBack(rows: seq<string>, path: string, line: nat, func: string, after: string)
    requires forall i :: 0 <= i < |rows| ==> FramelessRow(rows[i])
    requires |path| >= 4 && Text.EndsWith(path, ".py") && forall i :: 0 <= i < |path| ==> NotSpace(path[i])
    requires func != "" && forall i :: 0 <= i < |func| ==> NotSpace(func[i])
    requires after == "" || Text.IsSpace(after[0])
    ensures FirstPytestFrame(Rows(rows) + (FrameRow(path, line, func) + after), true) == Some((path, func))
  {
    hide MatchPytestFrame, Holds, FrameRow, OneRow, Text.EndsWith, Text.IsSpace;
    var row := FrameRow(path, line, func) + after;
    if rows == [] {
      FrameReadsBack(path, line, func, after);
      assert Rows(rows) + row == row;
      NoFrameInNothing();
    } else {
      var first, later := rows[0], Rows(rows[1..]) + row;
      assert FramelessRow(first);
      if MatchPytestFrame(first + ("\n" + later)).Some? {
        FramesHoldIn(first, later);
      }
      SkipRow(first, later);
      RowRegroups(first, Rows(rows[1..]), row);
      NotFirst(first, later);
      FirstFrameReadsBack(rows[1..], path, line, func, after);
    }
  }

  lemma NoFrameInNothing()
    ensures MatchPytestFrame("").None?
  {
  }

  lemma RowRegroups(first: string, rows: string, row: string)
    ensures (first + ("\n" + rows)) + row == first + ("\n" + (rows + row))
  {
    Text.Regroup("\n", rows, row);
    Text.Regroup(first, "\n" + rows, row);
  }

  lemma NotFirst(row: string, rest: string)
    requires MatchPytestFrame(row + ("\n" + rest)).None?
    ensures FirstPytestFrame(row + ("\n" + rest), true) == FirstPytestFrame(row + ("\n" + rest), false)
  {
    hide MatchPytestFrame;
  }

  // --- what is parsed ----------------------------------------------------------------------

  /** A failing run without a summary is located at the first test id it names. */
  lemma LocatedAtTheFirstNodeId(text: string, before: string, id: string, after: string, workspaceRoot: string)
    requires text == before + (id + after) && FirstSummary(text, true).None? && !LooksGreen(text)
    requires before == "" || Text.IsSpace(before[|before| - 1])
    requires !Holds(before, ".py::")
    requires id != "" && (forall i :: 0 <= i < |id| ==> NotSpace(id[i])) && Inside(id, ".py::")
    requires after == "" || Text.IsSpace(after[0])
    ensures var parsed := FromPytestOutput(text, workspaceRoot); parsed.Some? && parsed.value.location == id
  {
    hide FirstSummary, ErrorLines, LooksGreen, Text.Strip, Text.Blank, FirstNodeId, FirstPytestFrame, Holds, Inside, ToRel,
      Text.IsSpace;
    FirstNodeIdReadsBack(before, id, after);
    NotBlankInside(before, id, after);
    Text.StripIsEmptyExactlyWhenBlank(text);
  }

  lemma NotBlankInside(before: string, word: string, after: string)
    requires word != "" && NotSpace(word[0])
    ensures !Text.Blank(before + (word + after))
  {
    assert (before + (word + after))[|before|] == word[0];
    hide Text.IsSpace;
  }

  /** If it names none, at its first frame, by the file's path below the workspace and the function. */
  lemma LocatedAtTheFirstFrame(text: string, rows: seq<string>, path: string, line: nat, func: string, after: string,
                               workspaceRoot: string)
    requires text == Rows(rows) + (FrameRow(path, line, func) + after) && FirstSummary(text, true).None? && !LooksGreen(text)
    requires !Holds(text, ".py::") && forall i :: 0 <= i < |rows| ==> FramelessRow(rows[i])
    requires |path| >= 4 && Text.EndsWith(path, ".py") && forall i :: 0 <= i < |path| ==> NotSpace(path[i])
    requires func != "" && forall i :: 0 <= i < |func| ==> NotSpace(func[i])
    requires after == "" || Text.IsSpace(after[0])
    ensures var parsed := FromPytestOutput(text, workspaceRoot);
      parsed.Some? && parsed.value.location == ToRel(path, workspaceRoot) + ":" + func
  {
    hide FirstSummary, ErrorLines, LooksGreen, Text.Strip, Text.Blank, FirstNodeId, FirstPytestFrame, Holds, Inside, ToRel,
      FrameRow, Rows, Text.IsSpace, Text.EndsWith, FramelessRow;
    FirstFrameReadsBack(rows, path, line, func, after);
    NoNodeIdWithout(text);
    FrameIsNotBlank(rows, path, line, func, after);
    Text.StripIsEmptyExactlyWhenBlank(text);
  }

  lemma FrameIsNotBlank(rows: seq<string>, path: string, line: nat, func: string, after: string)
    requires path != "" && NotSpace(path[0])
    ensures !Text.Blank(Rows(rows) + (FrameRow(path, line, func) + after))
  {
    var s := Rows(rows) + (FrameRow(path, line, func) + after);
    assert s[|Rows(rows)|] == path[0];
    hide Text.IsSpace, Rows, FrameRow;
  }
}
