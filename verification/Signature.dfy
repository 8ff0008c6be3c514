/** From failure text to error signature (src/core/domain/signature.py). */
module Signatures {
  import opened Wrappers
  import opened Domain
  import opened Paths
  import opened Scanning
  import opened Pytest
  import Text

  function Lines(s: string): seq<string>
    decreases |s|
  {
    if s == "" then []
    else
      var k := Span(s, NotBreak);
      if k == |s| then [s]
      else
        var skip := if s[k] == '\r' && k + 1 < |s| && s[k + 1] == '\n' then 2 else 1;
        [s[..k]] + Lines(s[k + skip..])
  }

  // --- the exception line ----------------------------------------------------------------

  /** Match a stripped line against name, optional colon and message. */
  function MatchException(line: string): Option<(string, string)> {
    var k := Span(line, IsWordOrDot);
    if !IsExceptionName(line[..k]) then None
    else if k == |line| then Some((line, ""))
    else if line[k] == ':' then Some((line[..k], Text.LStrip(line[k + 1..])))
    else None
  }

  /** Only dotted or error-like names are taken for exception types. */
  predicate Gate(exc: string) {
    || '.' in exc
    || Text.EndsWith(exc, "Error") || Text.EndsWith(exc, "Exception") || Text.EndsWith(exc, "Exit")
    || Text.EndsWith(exc, "Interrupt") || Text.EndsWith(exc, "Warning") || Text.EndsWith(exc, "Iteration")
  }

  const FileOpen := "File \""
  const LineMark := "\", line "
  const FuncMark := ", in "

  function ExceptionOf(line: string): Option<(string, string)> {
    var candidate := Text.Strip(line);
    if candidate == "" || StartsWith(candidate, FileOpen) || StartsWith(candidate, "Traceback")
       || StartsWith(candidate, "    ") || StartsWith(candidate, "\t")
    then None
    else
      var m := MatchException(candidate);
      if m.Some? && Gate(m.value.0) then Some((m.value.0, Text.Strip(m.value.1))) else None
  }

  /** The exception of the last line that has one. */
  function LastException(lines: seq<string>): Option<(string, string)> {
    if lines == [] then None
    else
      var last := ExceptionOf(lines[|lines| - 1]);
      if last.Some? then last else LastException(lines[..|lines| - 1])
  }

  lemma {:induction false} LastExceptionIsAName(lines: seq<string>)
    ensures LastException(lines).Some? ==> IsExceptionName(LastException(lines).value.0)
  {
    hide Text.Strip, Gate, IsExceptionName, StartsWith;
    if lines != [] {
      LastExceptionIsAName(lines[..|lines| - 1]);
      var candidate := Text.Strip(lines[|lines| - 1]);
      assert candidate[..|candidate|] == candidate;
    }
  }

  function ParseException(text: string): (string, string) {
    var stripped := Text.Strip(text);
    var lines := Lines(stripped);
    var found := LastException(lines);
    if found.Some? then found.value
    else if stripped != "" && lines != [] then ("", Text.Strip(lines[|lines| - 1]))
    else ("", "")
  }

  /** The scan as the program does it: bottom up, stopping at the first line that parses. */
  method ParseExceptionLine(text: string) returns (exc: string, message: string)
    ensures (exc, message) == ParseException(text)
  {
    hide ExceptionOf, Lines, Text.Strip;
    var lines := Lines(Text.Strip(text));
    var i := |lines|;
    assert lines[..i] == lines;
    while i > 0
      invariant 0 <= i <= |lines|
      invariant LastException(lines) == LastException(lines[..i])
    {
      i := i - 1;
      assert lines[..i + 1][..i] == lines[..i];
      var found := ExceptionOf(lines[i]);
      if found.Some? {
        return found.value.0, found.value.1;
      }
    }
    exc := "";
    message := if Text.Strip(text) != "" && lines != [] then Text.Strip(lines[|lines| - 1]) else "";
  }

  // --- traceback frames --------------------------------------------------------------------

  datatype Frame = Frame(path: string, func: string)

  /** The optional `, in name` tail: the name, and how much text it takes. */
  function MatchTail(s: string): (r: (string, nat))
    ensures r.1 <= |s|
  {
    if !StartsWith(s, FuncMark) then ("", 0)
    else
      var s1 := s[|FuncMark|..];
      var n := Span(s1, NotSpace);
      if n == 0 then ("", 0) else (s1[..n], |FuncMark| + n)
  }

  /** Match one frame at the start of the text: its groups, and how much text it takes. */
  function MatchFrame(s: string): (r: Option<(Frame, nat)>)
    ensures r.Some? ==> 0 < r.value.1 <= |s|
  {
    if !StartsWith(s, FileOpen) then None
    else
      var s1 := s[|FileOpen|..];
      var n := Span(s1, NotQuote);
      var s2 := s1[n..];
      if n == 0 || !StartsWith(s2, LineMark) then None
      else
        var s3 := s2[|LineMark|..];
        var digits := Span(s3, Text.IsDigit);
        var tail := MatchTail(s3[digits..]);
        if digits == 0 then None
        else Some((Frame(s1[..n], tail.0), |FileOpen| + n + |LineMark| + digits + tail.1))
  }

  /** All frames, left to right, without overlaps. */
  function FindFrames(s: string): seq<Frame>
    decreases |s|
  {
    if s == "" then []
    else
      var m := MatchFrame(s);
      if m.Some? then [m.value.0] + FindFrames(s[m.value.1..]) else FindFrames(s[1..])
  }

  function FrameLabel(rel: string, func: string): string {
    if func != "" then rel + ":" + func else rel
  }

  predicate InWorkspace(f: Frame, workspaceRoot: string) {
    workspaceRoot != "" && IsInside(f.path, Resolved(workspaceRoot))
  }

  function WorkspaceLabel(f: Frame, workspaceRoot: string): string {
    FrameLabel(ToRel(f.path, workspaceRoot), f.func)
  }

  /** The label of a frame none of whose traceback lies in the workspace: its bare file name. */
  function OutsideLabel(f: Frame): string {
    FrameLabel(Name(PurePath(f.path)), f.func)
  }

  function WorkspaceLabels(frames: seq<Frame>, workspaceRoot: string): seq<string> {
    if frames == [] then []
    else
      var last := frames[|frames| - 1];
      WorkspaceLabels(frames[..|frames| - 1], workspaceRoot)
      + (if InWorkspace(last, workspaceRoot) then [WorkspaceLabel(last, workspaceRoot)] else [])
  }

  function Location(frames: seq<Frame>, workspaceRoot: string): string {
    var inside := WorkspaceLabels(frames, workspaceRoot);
    if inside != [] then inside[|inside| - 1]
    else if frames != [] then OutsideLabel(frames[|frames| - 1])
    else ""
  }

  /** Collect the in-workspace labels in order and take the last one. */
  method InnermostWorkspaceFrame(text: string, workspaceRoot: string) returns (location: string)
    ensures location == Location(FindFrames(text), workspaceRoot)
  {
    hide InWorkspace, WorkspaceLabel, OutsideLabel, FindFrames;
    var frames := FindFrames(text);
    if frames == [] {
      return "";
    }
    var inside := [];
    for i := 0 to |frames|
      invariant inside == WorkspaceLabels(frames[..i], workspaceRoot)
    {
      assert frames[..i + 1][..i] == frames[..i];
      if InWorkspace(frames[i], workspaceRoot) {
        inside := inside + [WorkspaceLabel(frames[i], workspaceRoot)];
      }
    }
    assert frames[..|frames|] == frames;
    if inside != [] {
      return inside[|inside| - 1];
    }
    location := OutsideLabel(frames[|frames| - 1]);
  }

  /** The location is the deepest in-workspace frame's label, or the deepest frame's if there is none inside. */
  lemma {:induction false} LocationIsInnermost(frames: seq<Frame>, workspaceRoot: string, k: nat)
    requires k < |frames| && forall j :: k < j < |frames| ==> !InWorkspace(frames[j], workspaceRoot)
    ensures InWorkspace(frames[k], workspaceRoot) ==>
      && WorkspaceLabels(frames, workspaceRoot) != []
      && Location(frames, workspaceRoot) == WorkspaceLabel(frames[k], workspaceRoot)
    ensures k == 0 && !InWorkspace(frames[0], workspaceRoot) ==>
      WorkspaceLabels(frames, workspaceRoot) == [] && Location(frames, workspaceRoot) == OutsideLabel(frames[|frames| - 1])
  {
    hide InWorkspace, WorkspaceLabel, OutsideLabel;
    if k < |frames| - 1 {
      LocationIsInnermost(frames[..|frames| - 1], workspaceRoot, k);
    } else if k == 0 {
      assert frames[..0] == [];
    }
  }

  // --- the parsers ----------------------------------------------------------------------------

  function FromCrashText(text: string, workspaceRoot: string): Option<Signature> {
    if Text.Strip(text) == "" then None
    else
      var (exc, message) := ParseException(text);
      var location := Location(FindFrames(text), workspaceRoot);
      if exc == "" && location == "" then None else Some(Signature(Crash, exc, location, message))
  }

  /** The last E line's failure, unless there is none; then the summary's. */
  function PytestFailure(summary: Option<Summary>, errors: seq<Failure>): (string, string) {
    var (exc, message) := if summary.Some? then summary.value.failure.GetOr(("", "")) else ("", "");
    if errors == [] then (exc, message)
    else
      var last := errors[|errors| - 1];
      (last.exc, if last.message != "" then last.message else message)
  }

  function PytestLocation(text: string, summary: Option<Summary>, workspaceRoot: string): string {
    var node, frame := FirstNodeId(text), FirstPytestFrame(text, true);
    if summary.Some? then summary.value.nodeId
    else if node.Some? then node.value
    else if frame.Some? then ToRel(frame.value.0, workspaceRoot) + ":" + frame.value.1
    else ""
  }

  function FromPytestOutput(text: string, workspaceRoot: string): Option<Signature> {
    if Text.Strip(text) == "" || LooksGreen(text) then None
    else
      var summary := FirstSummary(text, true);
      var (exc, message) := PytestFailure(summary, ErrorLines(text, true));
      var location := PytestLocation(text, summary, workspaceRoot);
      if exc == "" && location == "" then None else Some(Signature(Test, exc, location, message))
  }

  /** The parser as the program writes it: the fields start empty and each pattern that matches improves them. */
  method ParsePytestOutput(text: string, workspaceRoot: string) returns (signature: Option<Signature>)
    ensures signature == FromPytestOutput(text, workspaceRoot)
  {
    hide FirstSummary, ErrorLines, FirstNodeId, FirstPytestFrame, LooksGreen, Text.Strip, ToRel;
    if Text.Strip(text) == "" || LooksGreen(text) {
      return None;
    }
    var exc, message, location := "", "", "";
    var summary := FirstSummary(text, true);
    if summary.Some? {
      SummaryHasAnId(text, true);
      location := summary.value.nodeId;
      var failure := summary.value.failure.GetOr(("", ""));
      exc, message := failure.0, failure.1;
    }
    var errors := ErrorLines(text, true);
    if errors != [] {
      ErrorLinesAreNamed(text, true);
      var last := errors[|errors| - 1];
      exc := if last.exc != "" then last.exc else exc;
      message := if last.message != "" then last.message else message;
    }
    if location == "" {
      var node := FirstNodeId(text);
      if node.Some? {
        location := node.value;
      } else {
        var frame := FirstPytestFrame(text, true);
        if frame.Some? {
          location := ToRel(frame.value.0, workspaceRoot) + ":" + frame.value.1;
        }
      }
    }
    if exc == "" && location == "" {
      return None;
    }
    return Some(Signature(Test, exc, location, message));
  }

  function ParseError(text: string, kind: ErrorKind, workspaceRoot: string): Option<Signature> {
    match kind
    case Crash => FromCrashText(text, workspaceRoot)
    case Test => FromPytestOutput(text, workspaceRoot)
  }

  // --- fingerprints -----------------------------------------------------------------------------

  predicate NoPipe(s: string) {
    forall i :: 0 <= i < |s| ==> s[i] != '|'
  }

  lemma ExceptionNamesHaveNoPipe(exc: string)
    requires exc == "" || IsExceptionName(exc)
    ensures NoPipe(exc)
  {
    forall i | 0 <= i < |exc| ensures exc[i] != '|' {
      assert IsWordOrDot(exc[i]);
    }
  }

  lemma ParsedExceptionIsAName(text: string)
    ensures ParseException(text).0 == "" || IsExceptionName(ParseException(text).0)
  {
    hide Text.Strip, Lines, IsExceptionName, LastException;
    LastExceptionIsAName(Lines(Text.Strip(text)));
  }

  lemma PytestFailureIsAName(text: string)
    ensures var exc := PytestFailure(FirstSummary(text, true), ErrorLines(text, true)).0; exc == "" || IsExceptionName(exc)
  {
    hide FirstSummary, ErrorLines, IsExceptionName;
    SummaryIsNamed(text, true);
    ErrorLinesAreNamed(text, true);
  }

  /** Every parser returns a usable signature of the kind asked for, whose exception name holds no separator. */
  lemma ParsersAreUsable(text: string, kind: ErrorKind, workspaceRoot: string)
    ensures var s := ParseError(text, kind, workspaceRoot);
      s.Some? ==> Usable(s.value, kind) && NoPipe(s.value.excType)
  {
    hide ParseException, Location, FindFrames, Text.Strip, IsExceptionName, NoPipe, PytestFailure, PytestLocation,
      FirstSummary, ErrorLines, LooksGreen;
    var s := ParseError(text, kind, workspaceRoot);
    if s.Some? {
      ParsedExceptionIsAName(text);
      PytestFailureIsAName(text);
      ExceptionNamesHaveNoPipe(s.value.excType);
    }
  }

  /** The joined fields decode uniquely: two parsed errors match exactly when kind, exception type and location
      are the same, whatever their messages. */
  lemma MatchesIsIdentity(a: Signature, b: Signature)
    requires NoPipe(a.excType) && NoPipe(b.excType)
    ensures Matches(a, Some(b)) <==> a.kind == b.kind && a.excType == b.excType && a.location == b.location
  {
    if Matches(a, Some(b)) {
      var ra, rb := RawFingerprint(a), RawFingerprint(b);
      assert ra[0] == KindText(a.kind)[0] && rb[0] == KindText(b.kind)[0];
      assert a.kind == b.kind;
      var k := |KindText(a.kind)| + 1;
      assert ra[k..] == a.excType + "|" + a.location && rb[k..] == b.excType + "|" + b.location;
      FirstPipe(a.excType, a.location, b.excType, b.location);
    }
  }

  lemma {:induction false} PipePosition(a: string, x: string)
    requires NoPipe(a)
    ensures Span(a + "|" + x, NotPipe) == |a|
  {
    var s := a + "|" + x;
    if a != "" {
      PipePosition(a[1..], x);
      assert s[1..] == a[1..] + "|" + x;
    }
  }

  lemma FirstPipe(a: string, x: string, b: string, y: string)
    requires NoPipe(a) && NoPipe(b) && a + "|" + x == b + "|" + y
    ensures a == b && x == y
  {
    PipePosition(a, x);
    PipePosition(b, y);
    var s, t := a + "|" + x, b + "|" + y;
    assert s[..|a|] == a && t[..|b|] == b;
    assert s[|a| + 1..] == x && t[|b| + 1..] == y;
  }

  /** With separators in exception names, different errors could share a fingerprint. */
  lemma PipesWouldCollide()
    ensures Matches(Signature(Crash, "a|b", "c", ""), Some(Signature(Crash, "a", "b|c", "")))
  {
  }
}
