/** The machine with the modelled error parser: what the theorems assume of a parser is true of it. */
module Instances {
  import opened Wrappers
  import opened Domain
  import opened HealingState
  import opened Nodes
  import opened Machine
  import opened Ledger
  import opened Budgets
  import opened WorstCase
  import opened WorstCalls
  import Theorems
  import Recurrence
  import opened Scanning
  import opened Signatures
  import Traceback
  import Pytest
  import PytestTail
  import Text

  /** The environment's parser is parse_error. */
  ghost predicate ParsesErrors(env: Env) {
    forall text, kind, root :: env.parse(text, kind, root) == ParseError(text, kind, root)
  }

  lemma ModelledParserIsUsable(env: Env)
    requires ParsesErrors(env)
    ensures ParserUsable(env)
  {
    hide Usable, ParseError;
    forall text, kind, root | env.parse(text, kind, root).Some?
      ensures Usable(env.parse(text, kind, root).value, kind)
    {
      ParsersAreUsable(text, kind, root);
    }
  }

  // --- two errors that are told apart ----------------------------------------------------

  function PytestLines(exc: string): seq<PytestTail.Line> {
    [PytestTail.Failed(" ", exc, None), PytestTail.Short(false, TestId, "")]
  }

  /** A minimal report of an exception, as the program or as pytest prints it. */
  function Report(kind: ErrorKind, exc: string): string {
    match kind
    case Crash => Traceback.Render("", [], exc, "")
    case Test => PytestTail.Print(PytestLines(exc))
  }

  lemma CrashReportReadsBack(exc: string, root: string)
    requires IsExceptionName(exc) && Gate(exc) && !StartsWith(exc, "Traceback")
    ensures var s := FromCrashText(Report(Crash, exc), root); s.Some? && s.value.kind == Crash && s.value.excType == exc
  {
    assert Traceback.Printable("", [], exc, "");
    hide FromCrashText, Traceback.Render, Traceback.Printable;
    Traceback.TracebackReadsBack("", [], exc, "", root);
  }

  lemma PytestLinesArePrintable(exc: string)
    requires IsExceptionName(exc)
    ensures var lines := PytestLines(exc);
      PytestTail.AllPrintable(lines) && PytestTail.Shorts(lines) != [] && PytestTail.Blamed(lines) == exc
  {
    hide IsExceptionName, PytestTail.Printable;
    var lines := PytestLines(exc);
    var rest := [lines[1]];
    assert lines[1..] == rest && rest[1..] == [];
    assert PytestTail.Failures(rest) == [] + PytestTail.Failures(rest[1..]) == [];
    assert PytestTail.Failures(lines) == [Pytest.Failure(exc, "")] + PytestTail.Failures(rest);
    assert PytestTail.Next(lines, 1).None?;
    NameIsPrintable(exc, PytestTail.Next(lines, 0));
    SummaryIsPrintable("", None);
  }

  lemma NameIsPrintable(exc: string, next: Option<string>)
    requires IsExceptionName(exc)
    ensures PytestTail.Printable(PytestTail.Failed(" ", exc, None), next)
  {
    var l := PytestTail.Failed(" ", exc, None);
    forall i | 0 <= i < |PytestTail.Show(l)| ensures PytestTail.NoSummaryBelow(PytestTail.Show(l), i) {
      assert i >= 2 ==> IsWordOrDot(exc[i - 2]);
    }
  }

  const TestId := "t.py::t"

  lemma TestIdIsProper()
    ensures forall i :: 0 <= i < |TestId| ==> NotSpace(TestId[i])
    ensures Pytest.Inside(TestId, "::") && TestId != ""
  {
    assert Pytest.Splits(TestId, "::", 4) by { assert TestId[4..6] == "::"; }
    hide Pytest.Splits;
    assert NotSpace('t') && NotSpace('.') && NotSpace('p') && NotSpace('y') && NotSpace(':');
    hide NotSpace;
    forall i | 0 <= i < |TestId| ensures NotSpace(TestId[i]) {
      assert TestId[i] in {'t', '.', 'p', 'y', ':'};
    }
  }

  lemma SummaryIsPrintable(tail: string, next: Option<string>)
    requires PytestTail.OneRow(tail) && (tail == "" || Text.IsSpace(tail[0])) && PytestTail.Settled(tail, next)
    ensures PytestTail.Printable(PytestTail.Short(false, TestId, tail), next)
  {
    hide NotSpace, PytestTail.Settled, PytestTail.OneRow, Pytest.Inside, Text.IsSpace, TestId;
    TestIdIsProper();
  }

  lemma PytestReportReadsBack(exc: string, root: string)
    requires IsExceptionName(exc)
    ensures var s := FromPytestOutput(Report(Test, exc), root); s.Some? && s.value.kind == Test && s.value.excType == exc
  {
    hide IsExceptionName, PytestTail.AllPrintable, PytestTail.Print, PytestTail.Shorts, PytestTail.Blamed,
      FromPytestOutput, PytestLines;
    PytestLinesArePrintable(exc);
    PytestTail.PytestReadsBack(PytestLines(exc), root);
  }

  lemma ReportReadsBack(kind: ErrorKind, exc: string, root: string)
    requires IsExceptionName(exc) && Gate(exc) && !StartsWith(exc, "Traceback")
    ensures var s := ParseError(Report(kind, exc), kind, root); s.Some? && s.value.kind == kind && s.value.excType == exc
  {
    hide IsExceptionName, Gate, StartsWith, Report, FromCrashText, FromPytestOutput;
    match kind {
      case Crash => CrashReportReadsBack(exc, root);
      case Test => PytestReportReadsBack(exc, root);
    }
  }

  lemma TwoNames(exc: string)
    requires exc == "AError" || exc == "BError"
    ensures IsExceptionName(exc) && Gate(exc) && !StartsWith(exc, "Traceback") && NoPipe(exc)
  {
    assert exc[|exc| - 5..] == "Error";
    ExceptionNamesHaveNoPipe(exc);
  }

  /** Reports of differently named exceptions are different errors, and neither is confused with a third. */
  lemma ReportsDiffer(kind: ErrorKind, exc: string, other: Option<Signature>, root: string)
    requires exc == "AError" || exc == "BError"
    requires other.Some? ==> NoPipe(other.value.excType) && other.value.excType != exc
    ensures var s := ParseError(Report(kind, exc), kind, root);
      s.Some? && s.value.excType == exc && NoPipe(exc) && !Matches(s.value, other)
  {
    hide IsExceptionName, Gate, StartsWith, NoPipe, ParseError, Report, Matches;
    TwoNames(exc);
    ReportReadsBack(kind, exc, root);
    if other.Some? {
      MatchesIsIdentity(ParseError(Report(kind, exc), kind, root).value, other.value);
    } else {
      NothingMatches(ParseError(Report(kind, exc), kind, root).value);
    }
  }

  lemma NothingMatches(s: Signature)
    ensures !Matches(s, None)
  {
  }

  lemma NothingToRead(kind: ErrorKind, root: string)
    ensures ParseError("", kind, root).None?
  {
    assert Text.Strip("") == "";
  }

  function ReportedOutputs(kind: ErrorKind, first: string, second: string): Outputs {
    Outputs(Report(kind, first), Report(kind, second), "")
  }

  lemma ParsedIsParseError(env: Env, text: string)
    requires ParsesErrors(env)
    ensures Parsed(env, text) == ParseError(text, EntryKeys(env).entryKind, EntryKeys(env).workspacePath)
  {
    hide EntryKeys;
  }

  lemma ReportsAreDistinct(env: Env, first: string, second: string)
    requires ParsesErrors(env) && {first, second} == {"AError", "BError"}
    requires var entry := Parsed(env, EntryOutput(env.request.trigger));
      entry.Some? ==> NoPipe(entry.value.excType) && entry.value.excType != second
    ensures Distinct(env, ReportedOutputs(EntryKeys(env).entryKind, first, second))
  {
    assert first != second && first in {"AError", "BError"} && second in {"AError", "BError"};
    hide NoPipe, ParseError, Report, EntryKeys, EntryOutput, Parsed, ParsesErrors, Matches;
    var kind, root := EntryKeys(env).entryKind, EntryKeys(env).workspacePath;
    ParsedIsParseError(env, "");
    NothingToRead(kind, root);
    ParsedIsParseError(env, Report(kind, first));
    ParsedIsParseError(env, Report(kind, second));
    ReportsDiffer(kind, first, None, root);
    ReportsDiffer(kind, second, ParseError(Report(kind, first), kind, root), root);
    ReportsDiffer(kind, second, Parsed(env, EntryOutput(env.request.trigger)), root);
  }

  /** A name of the two that the error the run starts from does not have. */
  lemma SpareName(env: Env) returns (first: string, second: string)
    requires ParsesErrors(env)
    ensures {first, second} == {"AError", "BError"}
    ensures var entry := Parsed(env, EntryOutput(env.request.trigger));
      entry.Some? ==> NoPipe(entry.value.excType) && entry.value.excType != second
  {
    hide NoPipe, ParseError, EntryKeys, EntryOutput, Parsed, ParsesErrors;
    var text := EntryOutput(env.request.trigger);
    ParsedIsParseError(env, text);
    ParsersAreUsable(text, EntryKeys(env).entryKind, EntryKeys(env).workspacePath);
    var entry := Parsed(env, text);
    var a, b := "AError", "BError";
    assert a[0] != b[0];
    if entry.Some? && entry.value.excType == a {
      first, second := a, b;
    } else {
      first, second := b, a;
    }
  }

  /** With the modelled parser nothing is left to assume: for every entry, crash or test, a limit on node
      executions is safe exactly when it reaches 1 + M(3N + 1), or 3N + 2 without a workspace. */
  lemma NodeLimitForModelledParser(env: Env, limit: nat)
    requires ParsesErrors(env)
    ensures (forall other | SameSetting(env, other) :: Run(other, limit).pc == End) <==> LongestRun(EntryKeys(env)) <= limit
  {
    hide ParsesErrors, EntryKeys, EntryOutput, Parsed, NoPipe, Run, LongestRun, SameSetting, Distinct;
    var first, second := SpareName(env);
    ReportsAreDistinct(env, first, second);
    NodeLimitIsSafeExactlyWhen(env, ReportedOutputs(EntryKeys(env).entryKind, first, second), limit);
  }

  /** LangGraph's own limit of 25 is too low for the default budgets: with a workspace some run is still under way. */
  lemma DefaultLimitIsTooLow(env: Env)
    requires ParsesErrors(env) && EntryKeys(env).workspacePath != ""
    requires EntryKeys(env).maxRetries == 3 && EntryKeys(env).cycleBudget == 5
    ensures exists other :: SameSetting(env, other) && Run(other, 25).pc != End
  {
    hide ParsesErrors, EntryKeys, Run, Bound, SameSetting;
    Theorems.BoundAgainstComment(EntryKeys(env));
    NodeLimitForModelledParser(env, 25);
  }

  /** `is_resolved` is a promise of a green tree exactly where nothing can be healed at all. */
  lemma ResolvedForModelledParser(env: Env)
    requires ParsesErrors(env)
    ensures (forall other, n: nat | SameSetting(env, other) :: ResolvedMeansGreen(Run(other, n)))
       <==> EntryKeys(env).workspacePath == ""
  {
    hide ParsesErrors, EntryKeys, EntryOutput, Parsed, NoPipe, Run, SameSetting, Distinct, ResolvedMeansGreen;
    var first, second := SpareName(env);
    ReportsAreDistinct(env, first, second);
    ResolvedMeansGreenExactlyWhen(env, ReportedOutputs(EntryKeys(env).entryKind, first, second));
  }

  /** An error healed earlier, though not just before, can be healed again exactly when there are cycles enough. */
  lemma RecurrenceForModelledParser(env: Env)
    requires ParsesErrors(env) && EntryKeys(env).workspacePath != ""
    ensures (exists other, n: nat :: SameSetting(env, other) && Recurrence.HasRecurrence(Run(other, n)))
       <==> Recurrence.RoomToRecur(env)
  {
    hide ParsesErrors, EntryKeys, EntryOutput, Parsed, NoPipe, Run, SameSetting, Distinct, ParserUsable,
      Recurrence.HasRecurrence, Recurrence.RoomToRecur;
    ModelledParserIsUsable(env);
    var first, second := SpareName(env);
    ReportsAreDistinct(env, first, second);
    Recurrence.ErrorsRecurExactlyWhen(env, ReportedOutputs(EntryKeys(env).entryKind, first, second));
  }

  /** Likewise the call budgets: every crash entry with protected tests has a sandbox that exhausts all four. */
  lemma CallBudgetsForModelledParser(env: Env) returns (worst: Env)
    requires ParsesErrors(env) && Guarded(EntryKeys(env))
    ensures var keys := EntryKeys(env); var last := Run(worst, Bound(keys));
      && SameSetting(env, worst) && last.pc == End
      && |last.world.fixerCalls| == Cycles(keys) * Retries(keys)
      && last.world.sandboxCalls == Theorems.SandboxBudget(keys)
      && last.world.testerCalls == Cycles(keys) == last.world.reporterCalls
  {
    hide ParsesErrors, EntryKeys, EntryOutput, Parsed, NoPipe, Run, Bound, SameSetting, Distinct, Guarded, Costly, Cycles, Retries;
    var first, second := SpareName(env);
    ReportsAreDistinct(env, first, second);
    var o := ReportedOutputs(EntryKeys(env).entryKind, first, second);
    CallBudgetsAreAttained(env, o);
    worst := Costly(env, o);
  }
}
