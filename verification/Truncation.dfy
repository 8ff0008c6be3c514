/** One plain assertion failure, printed at two widths, and what the pipeline makes of it. */
module Truncation {
  import opened Wrappers
  import opened Domain
  import opened HealingState
  import opened Nodes
  import opened Machine
  import opened Effects
  import opened Reachability
  import opened Scanning
  import opened Signatures
  import opened Instances
  import opened PytestTail
  import Leftovers
  import Text

  const Assertion := "assert 1 == 2"
  const AssertRow := "E" + ("   " + Assertion)
  const WholeTail := " - " + Assertion
  const CutTail := " - " + "asser..."

  /** What pytest prints of a failed `assert 1 == 2`, with this much of the summary. */
  function Printed(tail: string): seq<Line> {
    [Plain(AssertRow), Short(false, TestId, tail)]
  }

  lemma OneRowOf(a: string, b: string)
    requires OneRow(a) && OneRow(b)
    ensures OneRow(a + b)
  {
  }

  /** A row that reads `E`, white space and a content that names nothing. */
  lemma QuietErrorRow(pad: string, content: string)
    requires pad != "" && Text.Blank(pad) && OneRow(pad)
    requires content != "" && !Text.IsSpace(content[0]) && NamesNothing(content) && OneRow(content)
    ensures Printable(Plain("E" + (pad + content)), None)
  {
    var after := pad + content;
    var row := "E" + after;
    assert Text.IsSpace(pad[0]);
    hide NamesNothing, Text.IsSpace, Text.LStrip, OneRow, StartsWith, Text.Blank;
    EmptyIsOneRow();
    HeadWords();
    OneRowOf(pad, content);
    OneRowOf("E", after);
    Text.LStripIs(pad, content);
    assert row[1..] == after;
    BareIsItself(EHead, after);
  }

  lemma SettledDash(shown: string)
    requires shown != "" && !Text.IsSpace(shown[0]) && OneRow(shown)
    ensures var tail := " - " + shown; OneRow(tail) && Text.IsSpace(tail[0]) && Settled(tail, None)
  {
    var a := "- " + shown;
    DashIsNoSpace();
    assert OneRow(" - ");
    hide Text.IsSpace, Text.LStrip, OneRow;
    OneRowOf(" - ", shown);
    Text.LStripIs(" ", a);
    assert " " + a == " - " + shown;
    Text.LStripIs(" ", shown);
    assert a[1..] == " " + shown;
  }

  lemma AssertionTexts()
    ensures Assertion != "" && !Text.IsSpace(Assertion[0]) && OneRow(Assertion) && OneRow("asser...") && !Text.IsSpace('a')
    ensures IsExceptionName("assert") && !IsWordOrDot(' ')
    ensures OneRow("   ") && Text.Blank("   ")
  {
  }

  lemma AssertionNamesNothing()
    ensures NamesNothing(Assertion)
  {
    hide IsExceptionName, Span, IsWordOrDot;
    AssertionTexts();
    assert forall i :: 0 <= i < |"assert"| ==> IsWordOrDot("assert"[i]) by { NamesAreWords("assert"); }
    SpanStops("assert", " 1 == 2", IsWordOrDot);
    assert "assert" + " 1 == 2" == Assertion;
  }

  lemma NamesAreWords(name: string)
    requires IsExceptionName(name)
    ensures forall i :: 0 <= i < |name| ==> IsWordOrDot(name[i])
  {
  }

  lemma AssertRowIsPrintable(next: Option<string>)
    ensures Printable(Plain(AssertRow), next)
  {
    hide Text.IsSpace, NamesNothing, OneRow, QuietFor, Text.Blank, Assertion;
    AssertionTexts();
    AssertionNamesNothing();
    QuietErrorRow("   ", Assertion);
  }

  lemma TailIsPrintable(tail: string)
    requires tail in {WholeTail, CutTail}
    ensures Printable(Short(false, TestId, tail), None)
  {
    hide Text.IsSpace, OneRow, Settled, Printable, Assertion;
    AssertionTexts();
    SettledDash(if tail == WholeTail then Assertion else "asser...");
    SummaryIsPrintable(tail, None);
  }

  lemma PrintedIsPrintable(tail: string)
    requires tail in {WholeTail, CutTail}
    ensures AllPrintable(Printed(tail)) && Shorts(Printed(tail)) == [Short(false, TestId, tail)] && Failures(Printed(tail)) == []
  {
    hide Printable, TestId, AssertRow, WholeTail, CutTail;
    var lines := Printed(tail);
    var rest := [lines[1]];
    assert lines[1..] == rest && rest[1..] == [];
    AssertRowIsPrintable(Next(lines, 0));
    TailIsPrintable(tail);
    assert Next(lines, 1).None?;
    assert Shorts(rest) == [lines[1]] + Shorts(rest[1..]);
    assert Failures(rest) == [] + Failures(rest[1..]);
  }

  lemma PrintedTail(tail: string, root: string)
    requires tail in {WholeTail, CutTail}
    ensures var lines := Printed(tail);
      && AllPrintable(lines) && Shorts(lines) != [] && Shorts(lines)[0].tail == tail && Failures(lines) == []
      && FromPytestOutput(Print(lines), root).Some? && FromPytestOutput(Print(lines), root).value.location == TestId
  {
    hide Printed, FromPytestOutput, Print, AllPrintable, Shorts, Failures, TestId, WholeTail, CutTail;
    PrintedIsPrintable(tail);
    PytestReadsBack(Printed(tail), root);
  }

  lemma CutTexts()
    ensures IsExceptionName("assert") && !IsWordOrDot(" 1 == 2"[0]) && "asser..." != "assert"
    ensures "assert"[..5] + "..." == "asser..."
    ensures WholeTail == " - " + ("assert" + " 1 == 2") && CutTail == " - " + "asser..."
  {
    assert "assert" + " 1 == 2" == Assertion;
  }

  /** The whole summary names `assert`, the cut one `asser...`: the same failure of the same test is two errors. */
  lemma CutAssertDiffers(root: string)
    ensures var whole, cut := FromPytestOutput(Print(Printed(WholeTail)), root), FromPytestOutput(Print(Printed(CutTail)), root);
      && whole.Some? && whole.value.excType == "assert" && whole.value.location == TestId
      && cut.Some? && cut.value.excType == "asser..." && cut.value.location == TestId
      && !Matches(cut.value, whole)
  {
    hide Printed, FromPytestOutput, Print, AllPrintable, Shorts, Failures, TestId, Matches, WholeTail, CutTail, IsExceptionName,
      IsWordOrDot;
    CutTexts();
    PrintedTail(WholeTail, root);
    PrintedTail(CutTail, root);
    CutInsideTheName(Printed(WholeTail), Printed(CutTail), "assert", " 1 == 2", 5, root);
    MatchesBothWays(FromPytestOutput(Print(Printed(WholeTail)), root).value, FromPytestOutput(Print(Printed(CutTail)), root).value);
  }

  lemma MatchesBothWays(a: Signature, b: Signature)
    ensures Matches(a, Some(b)) <==> Matches(b, Some(a))
  {
  }

  // --- what the pipeline makes of it ------------------------------------------------------

  function CutOutput(): string {
    Print(Printed(CutTail))
  }

  /** A failing test entered with its whole output; no attempt changes any file, and the sandbox's narrower terminal
      cuts the summary of the same failure. */
  function Narrow(): Env {
    var env := Sample(true, SandboxResult(Verdict.Failed, Some(1), CutOutput()), 1, 1);
    env.(request := env.request.(trigger := Trigger(Test, None, Some(FailingTest(TestId, Print(Printed(WholeTail)))))),
         parse := ParseError)
  }

  lemma NarrowFix()
    ensures var m := Run(Narrow(), 2); var s := m.state;
      && m.pc == Validate && s.patch == Some(Patch("")) && !s.regressionDetected && s.cycleIndex == 0
      && s.keys.workspacePath == "/w" && s.keys.regressionCmd == [] && s.keys.entryKind == Test && s.keys.cycleBudget == 1
      && s.signature == FromPytestOutput(Print(Printed(WholeTail)), "/w")
      && m.world.work == Narrow().request.initial && m.world.commits == []
  {
    var env := Narrow();
    hide Run, Step, CutOutput, Print, Printed, FromPytestOutput, FromCrashText;
    assert Run(env, 0) == Start(env) by { Leftovers.RunStart(env); }
    RunStep(env, 0);
    RunStep(env, 1);
  }

  lemma NarrowValidation()
    ensures var m := Run(Narrow(), 3); var s := m.state;
      && m.pc == Immunize && s.cycleIndex == 0 && s.keys.entryKind == Test && s.keys.cycleBudget == 1
      && s.sandboxResult == Some(SandboxResult(Verdict.Failed, Some(1), CutOutput()))
      && m.world.work == Narrow().request.initial && m.world.commits == []
  {
    var env := Narrow();
    hide Run, Step, Narrow, Print, Printed, FromPytestOutput, FromCrashText, Matches, SameFlags;
    NarrowFix();
    CutAssertDiffers("/w");
    RunStep(env, 2);
    RedGoesOn(env, Run(env, 2));
  }

  lemma RedGoesOn(env: Env, m: Machine)
    requires env == Narrow() && m.pc == Validate && m.state.keys.workspacePath == "/w" && m.state.keys.entryKind == Test
    requires !m.state.regressionDetected
    requires var cut := FromPytestOutput(CutOutput(), "/w"); cut.Some? && !Matches(cut.value, m.state.signature)
    ensures var s := Step(env, m).state;
      Step(env, m).pc == Immunize && s.sandboxResult == Some(SandboxResult(Verdict.Failed, Some(1), CutOutput()))
  {
    hide CutOutput, Print, Printed, FromPytestOutput, FromCrashText, Matches;
  }

  /** The session ends resolved, with a commit for a failure that the test still shows: nothing was changed, only the
      terminal was narrower. */
  lemma NarrowTerminalCommits()
    ensures var m := Run(Narrow(), 5); var w := m.world;
      && m.pc == End && m.state.isResolved && !Green(m.state.sandboxResult)
      && |w.commits| == 1 && w.commits[0].tree == w.head == Narrow().request.initial
  {
    var env := Narrow();
    hide Run, Step, Narrow, CutOutput, NewEntry, NewEvidence, Message, ImmunizeOutcome, SameFlags, NoAttempt;
    NarrowValidation();
    Leftovers.TestEntriesSkip(env, Run(env, 3).state, Run(env, 3).world);
    RunStep(env, 3);
    RunStep(env, 4);
  }
}
