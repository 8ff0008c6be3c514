/** What each node does to the state and to the world (src/orchestrator/nodes.py), as functions.
    The class in Session.dfy performs the same steps in place and is proved against these. */
module Nodes {
  import opened Wrappers
  import opened Domain
  import opened HealingState
  import Text

  // --- the world outside the state --------------------------------------------

  /** A tree: the project's files, and apart from them the session regression file. */
  datatype Workspace = Workspace(files: map<string, string>, session: Option<string>)

  datatype FixOutcome = Raised | NoPatch | Produced(patch: Patch)

  /** The Corrector's answer to one call: what it did to the tree, whatever it then reported. */
  datatype FixAnswer = FixAnswer(edit: Workspace -> Workspace, outcome: FixOutcome)

  datatype Settings = Settings(maxRetries: int, cycleBudget: int)

  datatype Request = Request(
    trigger: Trigger,
    workspacePath: string,
    reproduceCmd: seq<string>,
    regressionCmd: seq<string>,
    testPath: string,
    maxRetries: Option<int>,
    cycleBudget: Option<int>,
    initial: Workspace)

  /** Everything the run does not decide: the request, and each port's answer to its k-th call. */
  datatype Env = Env(
    request: Request,
    settings: Settings,
    fixer: nat -> FixAnswer,
    sandbox: nat -> SandboxResult,
    tester: nat -> Option<string>,
    reporter: nat -> Option<string>,
    reset: nat -> bool,
    reportPath: string,
    parse: (string, ErrorKind, string) -> Option<Signature>,
    related: (string, Workspace) -> seq<string>,
    firstTest: string -> string,
    defaultTestPath: string,
    sessionHeader: string,
    smokeSource: string)

  /** What one failed attempt tells the next Corrector call. */
  datatype AttemptNote = AttemptNote(reason: FailureReason, outputTail: Option<string>)

  datatype FixContext = FixContext(
    incidentId: string,
    failureOutput: string,
    reproduceCmd: Command,
    reproducer: Option<string>,
    previousAttempts: seq<AttemptNote>,
    fixDiff: string)

  datatype SandboxRun = SandboxRun(command: Command, tree: Workspace, result: SandboxResult)

  datatype CommitMessage = Composed(text: string) | FallbackMessage(incidentId: string, signature: Option<Signature>)

  datatype Commit = Commit(sha: string, message: CommitMessage, tree: Workspace)

  /** The history of one commit: which Corrector call it records, the test kept with it and the
      sandbox runs made since that call. */
  datatype Evidence = Evidence(attempt: nat, patch: Option<Patch>, test: Option<string>, runs: seq<SandboxRun>)

  datatype World = World(
    work: Workspace,
    head: Workspace,
    commits: seq<Commit>,
    evidence: seq<Evidence>,
    resets: nat,
    fixerCalls: seq<FixContext>,
    sandboxCalls: nat,
    attemptRuns: seq<SandboxRun>,
    testerCalls: nat,
    reporterCalls: nat)

  type Situation = (State, World)

  // --- constants --------------------------------------------------------------

  const RetryTailBudget: nat := 1200

  function Sha(index: nat): string {
    "sha_" + Text.Padded(index)
  }

  // --- the session regression file ----------------------------------------------

  function EnsureSessionFile(workspacePath: string, header: string, w: Workspace): Workspace {
    if workspacePath == "" || w.session.Some? then w else w.(session := Some(header))
  }

  function AppendedText(existing: string, source: string): string {
    var sep := if existing == "" || Text.EndsWith(existing, "\n\n") then "" else "\n\n";
    existing + sep + Text.RStrip(source) + "\n"
  }

  function AppendTest(workspacePath: string, w: Workspace, source: string): Workspace {
    if workspacePath == "" then w
    else w.(session := Some(AppendedText(w.session.GetOr(""), source)))
  }

  function NodeId(env: Env, keys: SessionKeys, source: string): string {
    keys.testPath + "::" + env.firstTest(source)
  }

  // --- pure helpers ---------------------------------------------------------------

  function CycleAttempts(attempts: seq<FailedAttempt>, cycle: nat): seq<FailedAttempt> {
    if attempts == [] then []
    else
      var rest := CycleAttempts(attempts[..|attempts| - 1], cycle);
      var last := attempts[|attempts| - 1];
      if last.cycleIndex == cycle then rest + [last] else rest
  }

  function Describe(a: FailedAttempt): AttemptNote {
    var tail :=
      if a.sandboxResult.Some? && Text.Strip(a.sandboxResult.value.logsTail) != "" then
        var logs := a.sandboxResult.value.logsTail;
        Some(if |logs| > RetryTailBudget then logs[|logs| - RetryTailBudget..] else logs)
      else None;
    AttemptNote(a.reason, tail)
  }

  function DescribeAll(attempts: seq<FailedAttempt>): (notes: seq<AttemptNote>)
    ensures |notes| == |attempts|
  {
    seq(|attempts|, i requires 0 <= i < |attempts| => Describe(attempts[i]))
  }

  function BuildContext(s: State): FixContext {
    FixContext(s.incidentId, s.failureOutput, s.keys.reproduceCmd, s.keys.reproducer,
               DescribeAll(CycleAttempts(s.failedAttempts, s.cycleIndex)),
               if s.patch.Some? then s.patch.value.diffText else "")
  }

  function Summarise(s: State): FailureReason {
    if s.patch.None? then NoFix
    else if s.regressionDetected then Regression
    else if s.sandboxResult.Some? && s.sandboxResult.value.verdict != Passed then
      SandboxVerdict(s.sandboxResult.value.verdict, s.sandboxResult.value.exitCode)
    else UnknownFailure
  }

  /** The chained error left over after the current one was healed, if any. */
  function Residual(s: State): Option<Signature> {
    if Green(s.sandboxResult) then None
    else if s.postSignature.Some? && !Matches(s.postSignature.value, s.signature) then s.postSignature
    else None
  }

  function RelatedTestsCommand(env: Env, keys: SessionKeys, patch: Option<Patch>, tree: Workspace): Option<Command> {
    if patch.None? || patch.value.diffText == "" then None
    else
      var related := env.related(patch.value.diffText, tree);
      if related == [] then None else Some(RelatedTests(keys.reproduceCmd, related))
  }

  /** The protected tests a green fix must keep green, if there are any. */
  function GateCommand(env: Env, keys: SessionKeys, patch: Option<Patch>, tree: Workspace): Option<Command> {
    if keys.regressionCmd != [] then Some(Given(keys.regressionCmd))
    else RelatedTestsCommand(env, keys, patch, tree)
  }

  predicate GateHolds(result: SandboxResult) {
    result.verdict == Passed || result.exitCode == Some(5)
  }

  // --- port calls -----------------------------------------------------------------

  function SandboxAnswer(env: Env, w: World): SandboxResult {
    env.sandbox(w.sandboxCalls)
  }

  function RunSandbox(env: Env, w: World, command: Command): World {
    w.(sandboxCalls := w.sandboxCalls + 1,
       attemptRuns := w.attemptRuns + [SandboxRun(command, w.work, SandboxAnswer(env, w))])
  }

  // --- the nodes --------------------------------------------------------------------

  function InitialWorld(env: Env): World {
    World(env.request.initial, env.request.initial, [], [], 0, [], 0, [], 0, 0)
  }

  function EntryKeys(env: Env): SessionKeys {
    var r := env.request;
    var kind := r.trigger.kind;
    SessionKeys(
      r.workspacePath,
      kind,
      if r.reproduceCmd != [] then Given(r.reproduceCmd) else if kind == Test then DefaultTests else MainProgram,
      r.regressionCmd,
      if r.testPath != "" then r.testPath else env.defaultTestPath,
      r.maxRetries.GetOr(env.settings.maxRetries),
      r.cycleBudget.GetOr(env.settings.cycleBudget),
      if kind == Test && r.trigger.failingTest.Some? then Some(r.trigger.failingTest.value.nodeId) else None)
  }

  function EntryOutput(t: Trigger): string {
    if t.crashReport.Some? then t.crashReport.value.stackTrace
    else if t.failingTest.Some? then t.failingTest.value.lastFailureOutput
    else ""
  }

  function EntryIncident(t: Trigger): string {
    if t.crashReport.Some? then t.crashReport.value.incidentId
    else if t.failingTest.Some? then t.failingTest.value.nodeId
    else "unknown"
  }

  /** The tree the first fix starts from: a crash entry has created the session file. */
  function EntryTree(env: Env): Workspace {
    if env.request.trigger.kind == Crash
    then EnsureSessionFile(env.request.workspacePath, env.sessionHeader, env.request.initial)
    else env.request.initial
  }

  function BootstrapNode(env: Env, s: State, w: World): Situation {
    var keys := EntryKeys(env);
    var output := EntryOutput(env.request.trigger);
    var incident := EntryIncident(env.request.trigger);
    var tree :=
      if keys.entryKind == Crash then EnsureSessionFile(keys.workspacePath, env.sessionHeader, w.work)
      else w.work;
    (s.(keys := keys,
        incidentId := incident,
        signature := env.parse(output, keys.entryKind, keys.workspacePath),
        failureOutput := output,
        attemptCount := 0,
        cycleIndex := 0,
        isResolved := false,
        logs := s.logs + [BootstrapEntry(keys.entryKind, incident)]),
     w.(work := tree))
  }

  function FixNode(env: Env, s: State, w: World): Situation {
    var answer := env.fixer(|w.fixerCalls|);
    var w' := w.(work := answer.edit(w.work), fixerCalls := w.fixerCalls + [BuildContext(s)], attemptRuns := []);
    match answer.outcome
    case Raised => (s.(patch := None, logs := s.logs + [FixError]), w')
    case NoPatch => (s.(patch := None, logs := s.logs + [FixNoPatch]), w')
    case Produced(p) => (s.(patch := Some(p), logs := s.logs + [FixPatch(|p.diffText|)]), w')
  }

  function ValidateNode(env: Env, s: State, w: World): Situation {
    if s.keys.workspacePath == "" then
      (s.(sandboxResult := Some(SandboxResult(InfrastructureError, None, "missing workspace_path")),
          postSignature := None, postOutput := "", logs := s.logs + [ValidateInvalidState]), w)
    else
      var result := SandboxAnswer(env, w);
      var w1 := RunSandbox(env, w, s.keys.reproduceCmd);
      var gate := GateCommand(env, s.keys, s.patch, w.work);
      if result.verdict == Passed && gate.Some? && !GateHolds(SandboxAnswer(env, w1)) then
        (s.(sandboxResult := Some(SandboxAnswer(env, w1)), postSignature := None, postOutput := "",
            regressionDetected := true,
            logs := s.logs + [ValidateRegression(SandboxAnswer(env, w1).verdict)]),
         RunSandbox(env, w1, gate.value))
      else
        (s.(sandboxResult := Some(result),
            postSignature := if result.verdict == Passed then None
                             else env.parse(result.logsTail, s.keys.entryKind, s.keys.workspacePath),
            postOutput := result.logsTail, regressionDetected := false,
            logs := s.logs + [ValidateVerdict(result.verdict)]),
         if result.verdict == Passed && gate.Some? then RunSandbox(env, w1, gate.value) else w1)
  }

  /** Append a test and, when gated, keep it only if it passes in the sandbox. */
  function GateAndKeep(env: Env, s: State, w: World, source: string, gated: bool): (World, Option<RegressionTest>) {
    var nodeId := NodeId(env, s.keys, source);
    var w1 := w.(work := AppendTest(s.keys.workspacePath, w.work, source));
    var kept := Some(RegressionTest(s.keys.testPath, nodeId, source));
    if !gated then (w1, kept)
    else
      var w2 := RunSandbox(env, w1, OneTest(nodeId));
      if SandboxAnswer(env, w1).verdict == Passed then (w2, kept) else (w2.(work := w.work), None)
  }

  /** Gating touches only the session file and the sandbox log; a rejected draft leaves the tree as it was. */
  lemma GateAndKeepFrame(env: Env, s: State, w: World, source: string, gated: bool)
    ensures var (w', kept) := GateAndKeep(env, s, w, source, gated);
      && w' == w.(work := w'.work, sandboxCalls := w'.sandboxCalls, attemptRuns := w'.attemptRuns)
      && w'.work.files == w.work.files
      && (kept.None? ==> w'.work == w.work)
  {
  }

  /** What immunisation leaves: the world, the test it kept and the log entry. */
  datatype Immunity = Immunity(world: World, test: Option<RegressionTest>, entry: LogEntry)

  function SmokeFallback(env: Env, s: State, w: World): Immunity {
    if Green(s.sandboxResult) then
      var (w', kept) := GateAndKeep(env, s, w, env.smokeSource, true);
      Immunity(w', kept, if kept.Some? then ImmunizeSmoke(kept.value.nodeId) else ImmunizeNoTest)
    else Immunity(w, None, ImmunizeNoTest)
  }

  function TargetedOrSmoke(env: Env, s: State, w: World): Immunity {
    var draft := env.tester(w.testerCalls);
    var w1 := w.(testerCalls := w.testerCalls + 1);
    if draft.None? then SmokeFallback(env, s, w1)
    else
      var (w2, kept) := GateAndKeep(env, s, w1, draft.value, Green(s.sandboxResult));
      if kept.Some? then Immunity(w2, kept, ImmunizeTargeted(kept.value.nodeId)) else SmokeFallback(env, s, w2)
  }

  function ImmunizeOutcome(env: Env, s: State, w: World): Immunity {
    if s.keys.entryKind != Crash then Immunity(w, None, ImmunizeSkipped) else TargetedOrSmoke(env, s, w)
  }

  function ImmunizeNode(env: Env, s: State, w: World): Situation {
    var o := ImmunizeOutcome(env, s, w);
    (s.(regressionTest := o.test, logs := s.logs + [o.entry]), o.world)
  }

  /** Immunisation changes nothing of the world but the session file, the sandbox log and its call counts. */
  predicate SameButTests(before: World, after: World) {
    && after == before.(work := after.work, sandboxCalls := after.sandboxCalls,
                        attemptRuns := after.attemptRuns, testerCalls := after.testerCalls)
    && after.work.files == before.work.files
  }

  lemma SmokeFallbackFrame(env: Env, s: State, w: World)
    ensures SameButTests(w, SmokeFallback(env, s, w).world)
  {
    GateAndKeepFrame(env, s, w, env.smokeSource, true);
  }

  lemma TargetedOrSmokeFrame(env: Env, s: State, w: World)
    ensures SameButTests(w, TargetedOrSmoke(env, s, w).world)
  {
    var draft := env.tester(w.testerCalls);
    var w1 := w.(testerCalls := w.testerCalls + 1);
    if draft.None? {
      SmokeFallbackFrame(env, s, w1);
    } else {
      GateAndKeepFrame(env, s, w1, draft.value, Green(s.sandboxResult));
      SmokeFallbackFrame(env, s, GateAndKeep(env, s, w1, draft.value, Green(s.sandboxResult)).0);
    }
  }

  lemma ImmunizeFrame(env: Env, s: State, w: World)
    ensures SameButTests(w, ImmunizeOutcome(env, s, w).world)
  {
    if s.keys.entryKind == Crash {
      TargetedOrSmokeFrame(env, s, w);
    }
  }

  function Healed(s: State): Signature {
    s.signature.GetOr(Signature(s.keys.entryKind, "", "", ""))
  }

  /** A chained error is left and the budget allows healing it. */
  predicate ChainGoesOn(s: State) {
    Residual(s).Some? && s.cycleIndex + 1 < s.keys.cycleBudget
  }

  function Message(env: Env, s: State, w: World): CommitMessage {
    var text := env.reporter(w.reporterCalls);
    if text.Some? then Composed(text.value) else FallbackMessage(s.incidentId, s.signature)
  }

  function NewCommit(env: Env, s: State, w: World): Commit {
    Commit(Sha(|w.commits|), Message(env, s, w), w.work)
  }

  function Source(test: Option<RegressionTest>): Option<string> {
    if test.Some? then Some(test.value.source) else None
  }

  function NewEvidence(s: State, w: World): Evidence {
    Evidence(Max(0, |w.fixerCalls| - 1), s.patch, Source(s.regressionTest), w.attemptRuns)
  }

  function NewEntry(s: State, w: World): ResolvedError {
    ResolvedError(Healed(s), Sha(|w.commits|),
                  if s.regressionTest.Some? then Some(s.regressionTest.value.path) else None)
  }

  function ReportCommitNode(env: Env, s: State, w: World): Situation {
    var w' := w.(reporterCalls := w.reporterCalls + 1,
                 head := w.work,
                 commits := w.commits + [NewCommit(env, s, w)],
                 evidence := w.evidence + [NewEvidence(s, w)]);
    var s1 := s.(resolvedErrors := s.resolvedErrors + [NewEntry(s, w)],
                 isResolved := true,
                 logs := s.logs + [ReportCommitSha(Sha(|w.commits|))]);
    if ChainGoesOn(s) then
      (s1.(shouldContinue := true, signature := Residual(s), failureOutput := s.postOutput,
           incidentId := s.incidentId + "-chain" + Text.Decimal(s.cycleIndex + 1),
           cycleIndex := s.cycleIndex + 1, attemptCount := 0, patch := None, sandboxResult := None,
           regressionTest := None, postSignature := None, postOutput := ""), w')
    else (s1.(shouldContinue := false), w')
  }

  function NewRecord(s: State): FailedAttempt {
    FailedAttempt(s.attemptCount, s.cycleIndex, s.patch, s.sandboxResult, Summarise(s))
  }

  /** The tree after a rollback's reset, which may fail. */
  function ResetTree(env: Env, s: State, w: World): Workspace {
    if s.keys.workspacePath != "" && env.reset(w.resets) then w.head else w.work
  }

  function RollbackNode(env: Env, s: State, w: World): Situation {
    (s.(failedAttempts := s.failedAttempts + [NewRecord(s)],
        attemptCount := s.attemptCount + 1,
        failureOutput := if s.postOutput != "" then s.postOutput else s.failureOutput,
        patch := None, sandboxResult := None, postSignature := None, postOutput := "",
        regressionDetected := false,
        logs := s.logs + [RollbackAttempt(s.attemptCount, Summarise(s))]),
     w.(resets := if s.keys.workspacePath == "" then w.resets else w.resets + 1, work := ResetTree(env, s, w)))
  }

  function PostMortemNode(env: Env, s: State, w: World): Situation {
    (s.(postMortemPath := Some(env.reportPath), isResolved := false,
        logs := s.logs + [PostMortemReport(env.reportPath)]),
     w.(reporterCalls := w.reporterCalls + 1))
  }
}
