# A verified model of the self-healing pipeline

The pipeline repairs a failing program without supervision. Seven graph nodes (bootstrap, fix, validate,
immunize, report_commit, rollback, post_mortem) share one state; they drive a git tree, a session test file and a
sandbox through two nested loops: the retries of one error, and a chain of different errors. The one signal that
steers both loops is an error fingerprint parsed out of terminal text.

The project models the whole machine, the fingerprint parser, and four supporting algorithms with real loops
(telemetry aggregation, the chat tail, related-test selection, focus files), and proves what holds of **every** run,
whatever the Corrector, the sandbox, the Tester, the Reporter and git's resets answer.

`N` is `max(1, max_retries)` and `M` is `max(1, error_cycle_budget)`: the routers always grant the first attempt and
the first cycle, and a caller may put any integer into the initial state.

## How it is built

* `Nodes.dfy` describes each node as a function from (state, world) to (state, world). The world holds the working
  tree, HEAD, the commits and every port call made so far. `Env` holds what the run does not decide: the request, the
  settings and each port's answer to its k-th call. The Corrector is an arbitrary change of the tree *together with* an
  outcome, so it may leave partial edits and then raise or report no patch.
* `Machine.dfy` steps along the graph's edges; `Run(env, n)` is the run after at most `n` node executions.
* `Session.dfy` and `Git.dfy` are the program's own form: objects whose fields the nodes change in place, each node
  inside its telemetry span, and a driver that follows the built graph's tables. Every method is proved equal to its
  function, and `Drive` is proved to stop in exactly a state of `Run`, so all theorems about `Run` are theorems about the
  object. The session file, its snapshot and its restoration are part of the git object's working tree.
* `Effects.dfy` says field by field what each step changes and leaves alone; the invariants are proved from it.
* `NodeContracts.dfy`, `History.dfy`, `Ledger.dfy`, `Budgets.dfy`, `Trees.dfy`, `Commits.dfy`, `Endings.dfy`,
  `Feedback.dfy` and `Provenance.dfy` each hold one invariant and its step lemmas; `Invariants.dfy` puts them together.
  `Theorems.dfy`, `Validation.dfy`, `SessionFile.dfy`, `Leftovers.dfy`, `Reachability.dfy`, `WorstCase.dfy`,
  `WorstCalls.dfy`, `Recurrence.dfy` and `Instances.dfy` state the results.
* `Scanning.dfy`, `Paths.dfy`, `Pytest.dfy` and `Signature.dfy` are the error parsers; `Traceback.dfy`, `PytestTail.dfy`
  and `PytestPlaces.dfy` print what they parse and prove the round trips. `Blame.dfy` says which frame a crash is blamed
  on and when two crashes are the same error, `Chatter.dfy` what a program may print after its traceback, and
  `Truncation.dfy` follows one failure printed at two widths through parser and machine.
* `Telemetry.dfy`, `Reports.dfy`, `Tracing.dfy`, `Trajectory.dfy`, `Related.dfy`, `Focus.dfy`, with `Text.dfy` and
  `Lists.dfy` underneath, are the supporting algorithms.

## Where the code and its own words differ

* `scripts/run_swebench.py:282` bounds a run by `cycles * (3 * retries + 4) + 2`, 67 for the defaults. The exact bound is
  `1 + M(3N + 1)`, 51 for the defaults; it is attained, so a node limit is safe exactly when it reaches it. The limit of
  150 set there is enough for the defaults, and not for the largest settings allowed (3051).
* `scripts/heal_and_pr.py:271`, `src/main.py:211` and `scripts/run_benchmark.py:503` set no limit, so LangGraph's 25
  applies; with a workspace and the default budgets some run is still under way there
  (`Instances.DefaultLimitIsTooLow`).
* `is_resolved` does not mean green: a run also ends resolved when its M-th commit still leaves another error. The
  longest run is one (`WorstCase.BoundIsAttained`). It means green for every agent and sandbox if and only if no
  workspace path is given (`Instances.ResolvedForModelledParser`), and then no run is ever resolved
  (`WorstCase.NeverResolved`).
* The E line is preferred over the summary so that terminal width does not change the error. A plain `assert` has no E
  line that names an exception, and there a summary cut inside its name makes the same failing test another error
  (`Truncation.CutAssertDiffers`: `assert` and `asser...`). Two printed runs are the same error if and only if their
  first failing tests and the exceptions they are blamed on agree (`PytestTail.SameFailureMatchesExactlyWhen`). A session
  can so end resolved, with a commit, though nothing was changed and the test still fails
  (`Truncation.NarrowTerminalCommits`).
* Only neighbouring ledger entries are promised to differ, and no more is true: an error healed two cycles before can be
  healed again exactly when there are cycles enough (`Instances.RecurrenceForModelledParser`).
* A crash seen again from a tree mounted elsewhere is recognised as the same error exactly when the file sits directly
  at the workspace root, because the fallback label keeps only the file name.
* The label of a frame joins file and function with a colon, so a file named `a:b` and function `b` of a file `a` are
  taken for the same place (`Blame.ColonsAreConfused`); `Blame.LabelsDecodeExactlyWhen` says exactly which files can be confused.
* The chat tail is documented as always preserving the final turn; it does exactly when that turn's chunk is at most
  2048 characters. Otherwise the turn is cut to its *first* 2048 characters. The constant is named in bytes and counts
  characters.
* The skipped directories of the related-test scan are looked for in the workspace's own path as well, so a workspace
  below a directory named `build` or `dist` never has related tests.
* A rollback before the first commit also cleans away the untracked, still empty session file, so the header is then
  missing for the rest of the run (`SessionFile.RollbackLosesTheHeader`).
* A trigger may carry a crash report although its type is a test failure; bootstrap then takes the crash report's
  text, reads it with the pytest parser and still points the Corrector at the failing test
  (`Feedback.FirstCallOfATestEntry`).
* A failed `git reset` is survived, but its attempt's edit then stays and is committed with the next accepted one
  (`Leftovers.FailedResetLeaks`).

## Model

| member | source | states |
|---|---|---|
| Theorems.EveryRunEnds | src/orchestrator/routers.py:89-100 | For every port behaviour the run is at END after 1 + M(3N + 1) node executions and never makes more. |
| WorstCase.BoundIsAttained | src/orchestrator/nodes.py:407-434 | For every request, settings and parser that tells two texts apart and reads nothing from a third, with a workspace path, there is a sandbox and a Corrector that make the run exactly that long, with END not reached one execution earlier; that run ends resolved on a red tree. |
| WorstCase.NodeLimitIsSafeExactlyWhen | scripts/run_swebench.py:279-285 | A limit on node executions is safe for all agents and sandboxes if and only if it reaches the longest run, 1 + M(3N + 1), or 3N + 2 without a workspace path; with one, for a parser that tells two texts apart and reads nothing from a third. |
| WorstCase.NoWorkspaceRuns | src/orchestrator/nodes.py:174-185 | Without a workspace path every run is over after 3N + 2 node executions, and a Corrector that always claims a patch needs them all. |
| Instances.NodeLimitForModelledParser | scripts/run_swebench.py:279-285 | With the modelled parser nothing is assumed: for every entry, crash or test, a limit on node executions is safe if and only if it reaches the longest run. |
| Instances.DefaultLimitIsTooLow | scripts/heal_and_pr.py:269-272 | With a workspace and the default budgets some run is still under way after the 25 node executions that apply where no limit is set. |
| Theorems.BoundAgainstComment | scripts/run_swebench.py:281-284 | The commented figure exceeds the exact bound by 3M + 1; the defaults give 51, between LangGraph's 25 and the 150 set; the largest settings give 3051. |
| Theorems.KeysFollowTheRequest | src/orchestrator/nodes.py:68-110 | At every node after bootstrap workspace, kind, commands, test path, budgets and reproducer are those of the request, else the settings' or the entry kind's defaults. |
| Theorems.CallersBudgetsPrevail | src/orchestrator/nodes.py:112-132 | A caller that gives both budgets runs the very same session under any settings. |
| Theorems.UnfinishedRunsAreLong | src/orchestrator/graph.py:106-154 | Every step of an unfinished run executes one node. |
| Budgets.RemainingDecreases | src/orchestrator/nodes.py:407-434 | A lexicographic count of what is left (cycles, attempts, position in the attempt) shrinks with every node execution and never goes below zero. |
| Pipeline.Session.Drive | src/orchestrator/graph.py:95-154 | The driver follows the built graph's tables and stops, within the bound, in exactly the state, tree and trace of the specified run, or where an exception escapes a node; either way the sink holds exactly the log of the nodes gone through. |
| Pipeline.Session.TracedNode | src/observability/span.py:31-54 | A node's span is recorded exactly once, after everything recorded inside it, whether the node returns or an exception escapes, with that exception's type. |
| Pipeline.RunAndReport | scripts/run_swebench.py:272-319 | A session run and reported on from a fresh sink: the report's node path is the run's, and its last entry tells whether the session is resolved. |
| Pipeline.Session.ExecuteNode | src/orchestrator/graph.py:95-103 | Executing a node in place and following its edge is one step of the specified machine. |
| Pipeline.Session.BootstrapNode | src/orchestrator/nodes.py:68-132 | Sets the session keys once, budgets taken from the caller's state before the settings, and creates the session file for a crash entry only. |
| Pipeline.Session.FixNode | src/orchestrator/nodes.py:138-157 | Applies whatever the Corrector did to the tree, also when it raised or returned no patch; only a produced patch is recorded. |
| Pipeline.Session.ValidateNode | src/orchestrator/nodes.py:163-236 | Runs the reproduction, and on green the protected tests; exit code 5 of the gate is not a regression; no workspace is an infrastructure failure. |
| Pipeline.Session.ImmunizeNode | src/orchestrator/nodes.py:259-308 | Targeted test first, gated on a green tree; smoke fallback on a green tree only; nothing on a test entry. |
| Pipeline.Session.GateAndKeep | src/orchestrator/nodes.py:311-340 | A rejected draft leaves the tree exactly as before, including the absence of the file. |
| Pipeline.Session.ReportCommitNode | src/orchestrator/nodes.py:372-434 | Commits, extends the ledger, and either points the state at the residual error with clean scratch fields or finishes. |
| Pipeline.Session.ComposeMessage | src/orchestrator/nodes.py:381-391 | One Reporter call; its failure gives the fallback message. |
| Pipeline.Session.RollbackNode | src/orchestrator/nodes.py:440-473 | Resets the tree, survives a failing reset, and records the attempt with its reason. |
| Pipeline.Session.PostMortemNode | src/orchestrator/nodes.py:479-504 | Asks the Reporter once and marks the session unresolved. |
| Pipeline.Session.CurrentCycleAttempts | src/orchestrator/nodes.py:531-534 | The loop picks the current cycle's attempts, in order. |
| Pipeline.Session.RunTests | src/orchestrator/nodes.py:187 | One sandbox call on the working tree as it is. |
| Pipeline.Session.constructor | scripts/heal_and_pr.py:257-262 | A run starts with empty histories, no scratch fields and a clean checkout. |
| GitPort.Git.Commit | src/infrastructure/git_ops/in_memory_git.py:27-39 | HEAD becomes the working tree; the sha numbers the commits. |
| GitPort.Git.ResetHard | src/infrastructure/git_ops/git_adapter.py:88-95 | The working tree, untracked files included, becomes HEAD, unless git fails; resets are counted. |
| GitPort.Git.EnsureSessionFile | src/orchestrator/nodes.py:595-613 | Creates the header-only file once and never overwrites one. |
| GitPort.Git.ReadSessionText | src/orchestrator/nodes.py:616-624 | A snapshot that tells an absent file from an empty one. |
| GitPort.Git.RestoreSessionText | src/orchestrator/nodes.py:627-640 | Puts back the snapshot, removing the file if there was none. |
| GitPort.Git.AppendRegressionTest | src/orchestrator/nodes.py:643-660 | Appends the right-stripped source after a blank line, or after nothing when the file is empty or ends in one. |
| Graph.BuildGraph | src/orchestrator/graph.py:94-154 | The builder calls leave exactly the documented nodes under their canonical names, edges and routing tables. |
| Graph.NextFollowsTheGraph | src/orchestrator/graph.py:106-154 | No router returns a decision its node's table lacks, and the specified step is the table lookup the driver makes. |
| Effects.StepHasEffect | src/orchestrator/nodes.py:112-504 | For each node, which fields of state and world its step changes, to what, and that all others stay. |
| Reachability.EdgesAreExactlyTheRuns | src/orchestrator/graph.py:106-154 | Some run goes from one node straight to another if and only if the edge is drawn: no hidden edge is ever taken, and each drawn one is taken by a run from its start. |
| Theorems.NoFailedEditLeaks | src/orchestrator/nodes.py:440-473 | If resets succeed, the tree equals HEAD at every later fix entry (at the first one up to the fresh session file); HEAD and every commit are the replay of the accepted attempts alone, in order. |
| Theorems.RejectedAttemptsDoNotMatter | src/orchestrator/nodes.py:138-157 | Two runs that accepted the same edits and tests have the same HEAD and the same commit trees, whatever was attempted and rolled back in between; where bootstrap creates a session file, provided the first accepted attempt still saw it in both or in neither. |
| Theorems.RejectedAttemptsDoNotMatterToTestEntries | src/orchestrator/nodes.py:99-103 | For test entries, where bootstrap creates no session file, the accepted edits alone decide the committed trees, with no proviso. |
| Theorems.RejectedAttemptsDoNotTouchFiles | src/orchestrator/nodes.py:440-473 | Without that proviso, for a Corrector whose file edits do not depend on the session file: the committed project files are the same, also when one run commits its first try and the other a later one. |
| Leftovers.FixEntryIsCleanExactlyWhen | src/orchestrator/nodes.py:442-447 | At every later fix entry of every run the tree equals HEAD if and only if a commit came just before, or a rollback whose reset succeeded or had nothing to undo. |
| Leftovers.FailedResetsPileUp | src/orchestrator/nodes.py:442-447 | Resets or not, the tree at a fix entry is HEAD with exactly the edits of the current error's latest attempts whose resets failed, and the next commit has them all under the accepted edit. |
| Leftovers.FailedResetLeaks | src/orchestrator/nodes.py:445-447 | A run in which an attempt that produced nothing gets its edit committed, because its reset failed. |
| Leftovers.PiledStep | src/orchestrator/nodes.py:138-473 | Every step keeps the account of the edits that failed resets left. |
| Trees.TreeStep | src/infrastructure/git_ops/git_adapter.py:67-73 | At each node the working tree is HEAD plus exactly the current attempt's edit and kept test. |
| Trees.ReplayedStep | src/orchestrator/nodes.py:396-398 | Every step keeps HEAD and all commits equal to the replay of the accepted attempts. |
| Trees.ImmunizeTree | src/orchestrator/nodes.py:278-308 | Whatever is drafted and rejected, immunisation adds to the tree exactly the test it reports, or nothing. |
| Nodes.GateAndKeepFrame | src/orchestrator/nodes.py:325-340 | Gating touches the session file and the sandbox only, and a rejected draft restores the prior text. |
| Nodes.ImmunizeFrame | src/orchestrator/nodes.py:259-308 | Immunisation changes no project file, HEAD, commit or call of another port. |
| SessionFile.SessionFileIsTheSuite | src/orchestrator/nodes.py:595-660 | After every commit of a crash or test entry the file is what it held at first (the text it already had, or the fresh header, or nothing if a rollback cleaned the header away before the first commit) followed by the kept tests in ledger order, one blank line apart. |
| SessionFile.RollbackLosesTheHeader | src/orchestrator/nodes.py:442-447 | A run that bootstrap gave the header commits a session file without it: its first attempt was rolled back. |
| SessionFile.AppendAddsBlock | src/orchestrator/nodes.py:652-655 | Whatever the file held at first, the separator rule turns appending into adding one block to the suite. |
| SessionFile.GeneratedTextsAreProper | src/orchestrator/nodes.py:355-366 | For every session id and command the header is set off from the first test by a blank line, and the smoke test is not blank. |
| SessionFile.SmokeRunsTheCommand | src/orchestrator/nodes.py:347-352 | The smoke test runs the reproduction command, main.py by default, under its own interpreter: in place of the one the command names, or in front of the whole command. |
| Theorems.LogFollowsTheTrace | src/orchestrator/nodes.py:295-308 | One log entry per node execution, from that node; the smoke test is written at most once, right before the green commit that ends the run. |
| Theorems.CorrectorSeesCurrentAttempts | src/orchestrator/nodes.py:512-534 | At every fix entry the cycle filter is the last attempt_count records, so the Corrector sees exactly attempt_count < N previous attempts; finished cycles have fewer than N. |
| Theorems.FixEntry | src/orchestrator/nodes.py:449-473 | At every fix entry no evidence of an earlier attempt is left, both budgets allow the attempt and the history is numbered without gaps. |
| Theorems.RecordsStrictlyIncrease | src/orchestrator/nodes.py:449-456 | Failed attempts are strictly increasing in (cycle_index, attempt_index). |
| History.CycleIsGapFree | src/orchestrator/nodes.py:531-534 | Within each cycle the records are numbered 0, 1, 2, ... without gaps. |
| History.CycleAttemptsAreTheTail | src/orchestrator/nodes.py:531-534 | Filtering by cycle is taking a suffix when the cycle's records are the last ones. |
| Feedback.CorrectorIsToldTheCurrentError | src/orchestrator/nodes.py:461-466 | At every fix entry the failure text handed to the Corrector shows the error under repair or nothing readable, never a different error, through retries, regressions and chain advances. |
| Feedback.FedStep | src/orchestrator/nodes.py:415-430 | Every step keeps that, in particular replacing the text by an attempt's output and pointing the state at a chained error. |
| Feedback.FirstCallOfATestEntry | src/orchestrator/nodes.py:82-90 | The first Corrector call of a test entry names the failing test, bears the crash report's incident id if there is one, and shows the test's own output if and only if there is no crash report or its text is the same. |
| Feedback.FirstCallOfACrashEntry | src/orchestrator/nodes.py:82-106 | The first Corrector call of a crash entry bears the report's incident id and shows its stack trace, the error under repair is what the crash parser reads from that trace, and no test is named. |
| Feedback.CorrectorIsTold | src/orchestrator/nodes.py:512-544 | At every fix entry the Corrector is told of the current error and, in order, of each failed attempt at it: note i has the reason of the i-th such record and, exactly when its output is not blank, that output's last 1200 characters. |
| Feedback.EveryCallIsTold | src/orchestrator/nodes.py:138-157 | Every call the Corrector ever received, received exactly this from the state at its own fix entry. |
| Feedback.NotesCarryTheTail | src/orchestrator/nodes.py:537-544 | A failed attempt is described by its reason and, exactly when its output is not blank, by that output's last 1200 characters. |
| Theorems.FailuresAreExplained | src/orchestrator/nodes.py:547-559 | "unknown failure" is never recorded, and each recorded reason fits its patch and result. |
| Validation.FailureReasonTellsWhy | src/orchestrator/nodes.py:547-559 | Each rolled-back attempt is recorded as no fix exactly when its Corrector call produced no patch, as a regression exactly when its reproduction went green and a protected test broke, and otherwise with its reproduction's verdict and exit code. |
| Theorems.LedgerIsAlignedAndChained | src/orchestrator/nodes.py:400-430 | error_cycle_index = resolved errors = commits; entry i carries sha i, shas are distinct, and consecutive entries are different errors even after an unparseable first one. |
| Provenance.LedgerIsReadFromTheRuns | src/orchestrator/nodes.py:399-430 | The first ledger entry is what the entry's output showed (or the empty fallback), and each later one what the reproduction of the commit before it showed. |
| Recurrence.AlternatingRunRepeats | src/orchestrator/nodes.py:562-575 | Comparing with the current error only lets an error come back: some run's ledger has M entries and holds the error of cycle i again in cycle i + 2. |
| Recurrence.ErrorsRecurExactlyWhen | src/orchestrator/nodes.py:562-575 | Some run in a setting with a workspace heals one error twice if and only if M is at least 4, or is 3 and the entry's error could be parsed. |
| Instances.RecurrenceForModelledParser | src/orchestrator/nodes.py:562-575 | The same for the modelled parser, with nothing assumed of it. |
| Ledger.ChainGrowsStep | src/orchestrator/nodes.py:562-575 | Every step keeps the ledger chained and the current error different from the last healed one. |
| Domain.UsableNeverMatchesFallback | src/orchestrator/nodes.py:399-404 | The fallback signature recorded for an unparseable error never matches a parsed one. |
| Text.PaddedReadsBack | src/infrastructure/git_ops/in_memory_git.py:36 | A zero-padded commit number has at least eight digits, no zero more than it needs, and reads back as the number. |
| Theorems.EveryCommitIsJustified | src/orchestrator/nodes.py:187-236 | Each commit holds the files its own Corrector call's reproduction ran on. If that run was green, the tests the caller gave, or else the related ones, were run next on the same tree and passed or had exit code 5, and a kept test's own first test was run last, on the very tree committed, and passed. If not, it showed a parsed error other than the healed one. |
| Validation.ValidationDecides | src/orchestrator/nodes.py:174-236 | Every validation of every run makes exactly these sandbox runs (the reproduction; after a green one the given tests, else the tests related to a non-empty change) and goes on to immunisation or rollback in exactly these cases. |
| Commits.JustifiedStep | src/orchestrator/routers.py:36-70 | Every step keeps all commits justified by the sandbox runs made since their own Corrector call. |
| Commits.EvidencedStep | src/orchestrator/nodes.py:187-236 | The patch, verdict and post-fix signature in the state always belong to the latest Corrector call. |
| NodeContracts.ControlStep | src/orchestrator/routers.py:36-70 | What the scratch fields hold at each node is preserved by every step; in particular a committing state has a patch, no regression, and progress. |
| NodeContracts.QuietStep | src/orchestrator/nodes.py:138-308 | fix, validate, immunize and post_mortem change neither history, ledger, HEAD, commits nor counters. |
| Theorems.DecisionCopiesAgree | src/orchestrator/nodes.py:562-575 | At report_commit the recomputed residual is null if and only if the verdict is PASSED, and otherwise is the signature the router saw. |
| Theorems.CopiesAgreeEverywhere | src/orchestrator/nodes.py:562-575 | The router's same-or-different decision and the one recomputed at the commit agree on every state there could be, reachable or not. |
| Theorems.EndingsCharacterised | src/orchestrator/nodes.py:407-434 | A run ends resolved iff it leaves through FINISH, iff its last validation was green or it made M commits; unresolved iff a post-mortem was written; a green commit is the last one. |
| WorstCase.ResolvedMeansGreenExactlyWhen | src/orchestrator/nodes.py:407-434 | Ending resolved implies a green last validation for every agent and sandbox if and only if there is no workspace path; with one, for a parser that tells two texts apart and reads nothing from a third. |
| Instances.ResolvedForModelledParser | src/orchestrator/nodes.py:407-434 | The same for the modelled parser, with nothing assumed. |
| Theorems.CallBudgets | src/orchestrator/nodes.py:150 | Over a finished run: fix executions = rollbacks + commits; Corrector calls at most MN, sandbox runs at most M(2N - 1) + 3, Tester and Reporter calls at most M each. |
| Theorems.SandboxBudgetAgainstTwoPerAttempt | src/orchestrator/nodes.py:187-205 | The sandbox budget against two runs per attempt and two more: never above it, equal for a single cycle only, 28 for the defaults. |
| WorstCalls.CallBudgetsAreAttained | src/orchestrator/nodes.py:195-219 | One and the same run exhausts all four budgets, for every crash entry with protected tests whose parser tells two texts apart and reads nothing from a third. |
| Instances.CallBudgetsForModelledParser | src/orchestrator/nodes.py:281-299 | With the modelled parser nothing is assumed of it. |
| Budgets.SandboxBoundedStep | src/orchestrator/nodes.py:187-334 | Every step keeps the sandbox runs within two per failed attempt, one per commit and the node's own slack. |
| Budgets.ConservedStep | src/orchestrator/nodes.py:440-473 | Every Corrector call is in flight, rolled back or committed, at every point of the run. |
| Budgets.CallsBoundedStep | src/orchestrator/nodes.py:187-205 | The bounds on failed attempts and on each port's calls are kept by every step. |
| Budgets.ImmunizeCalls | src/orchestrator/nodes.py:281-299 | Immunisation calls the Tester at most once and the sandbox at most twice, and never on a red tree. |
| Invariants.InvAlways | src/core/domain/state.py:41-102 | All invariants together hold of every prefix of every run. |
| Invariants.ParsedInvAlways | src/orchestrator/nodes.py:221-236 | With usable parser answers, the ledger is chained and every commit justified in every prefix of every run. |
| Signatures.ParseExceptionLine | src/core/domain/signature.py:194-213 | The bottom-up scan with its early exit returns the last line that has an exception, or the last line as message. |
| Signatures.ParsePytestOutput | src/core/domain/signature.py:135-181 | Improving the fields pattern by pattern gives the last E line's failure over the summary's, and the summary's node id over any other. |
| Signatures.InnermostWorkspaceFrame | src/core/domain/signature.py:216-235 | The label-collecting loop returns the specified location of the text's frames. |
| Signatures.LocationIsInnermost | src/core/domain/signature.py:226-235 | That location is the deepest in-workspace frame's label, and the deepest frame's only when none is inside. |
| Signatures.ParsersAreUsable | src/core/domain/signature.py:111-188 | For every text, both parsers return signatures of the kind asked for, with an exception or a location, and no exception name holds the separator. |
| Pytest.ErrorLinesAreNamed | src/core/domain/signature.py:48-50 | Every E line the scanner finds, across line ends and without overlaps, names an exception. |
| Pytest.SummaryIsNamed | src/core/domain/signature.py:42-46 | A summary's exception, if it shows one, is a name. |
| Signatures.MatchesIsIdentity | src/core/domain/signature.py:95-100 | For such names `matches` is equality of kind, exception type and location: the joined string decodes uniquely and the message is ignored. |
| Signatures.PipesWouldCollide | src/core/domain/signature.py:95 | Without that property two different errors would share a fingerprint. |
| Instances.ModelledParserIsUsable | src/core/domain/signature.py:184-188 | The modelled parser meets what the ledger and commit theorems assume of a parser, for crashes and for tests. |
| Traceback.TracebackReadsBack | src/core/domain/signature.py:111-132 | Parsing any printed traceback gives back the exception name, the trimmed message and the location of its frames. |
| Blame.CrashIsBlamed | src/core/domain/signature.py:216-240 | That location is the file below the workspace of the deepest frame inside it, or the bare file name of the deepest frame when none is inside, and after a colon the function where the frame shows one. |
| Blame.SomeFrameIsBlamed | src/core/domain/signature.py:226-235 | For any frames and any workspace there is such a frame. |
| Blame.SameCrashExactlyWhen | src/core/domain/signature.py:83-100 | Two printed crashes are the same error if and only if exception, blamed file and blamed function agree, unless one file's name goes on from the other's with a colon. |
| Blame.LabelsDecodeExactlyWhen | src/core/domain/signature.py:238-240 | Labels tell every two functions of two files apart if and only if neither file's name goes on from the other's with a colon. |
| Chatter.TakenExactlyWhen | src/core/domain/signature.py:200-212 | A line that opens with a word is taken for an exception if and only if the word goes on to a colon or to the end, is dotted or ends like an exception's name, and the line is no traceback heading. |
| Chatter.ChatterIsSkipped | src/core/domain/signature.py:194-199 | Whatever is printed after a traceback, as long as it opens no frame and none of its lines is taken for an exception, changes nothing about the parsed signature. |
| Traceback.RenderedFrames | src/core/domain/signature.py:38 | The frame pattern finds exactly the printed frames, in order, whatever the source lines hold. |
| Traceback.RenderedException | src/core/domain/signature.py:194-213 | The exception line is found under stripping, line splitting and the gate. |
| Traceback.JitterStillMatches | src/core/domain/signature.py:83-100 | Renderings that differ only in line numbers, source text, heading or message are the same error. |
| Traceback.RemountedMatchesExactlyAtTheRoot | src/core/domain/signature.py:226-235 | The same crash seen under another mount is recognised if and only if the file sits directly at the root. |
| PytestTail.PytestReadsBack | src/core/domain/signature.py:150-163 | Parsing any printed pytest run with a summary: the location is the first summary's node id however much of the line was cut off; the exception is that of the last E line that names one, with its message where it has one, and, if none does, the name the first summary still shows. |
| PytestTail.SummaryMessageReadsBack | src/core/domain/signature.py:42-46 | A message the summary still shows is read up to the end of its row. |
| PytestPlaces.GreenRunsShowNothing | src/core/domain/signature.py:141-144 | Output that holds `passed` as a word, and `failed` and `error`, in capitals or not, only inside longer words (`xfailed`), gives no signature. |
| PytestPlaces.LocatedAtTheFirstNodeId | src/core/domain/signature.py:165-168 | A failing run without a summary is located at the first test id it names. |
| PytestPlaces.LocatedAtTheFirstFrame | src/core/domain/signature.py:169-172 | If it names none, at its first frame: the file's path below the workspace and the function. |
| PytestTail.PrintedLines | src/core/domain/signature.py:42-50 | The scanners find exactly the printed E-line failures, in order, and the first printed summary, among blank E rows, E rows that name nothing, collection errors and messages that go on in the row below. |
| PytestTail.SummariesAreNotGreen | src/core/domain/signature.py:143-144 | A run that prints a summary is never taken for a green one, whatever passed. |
| PytestTail.SameFailureMatchesExactlyWhen | src/core/domain/signature.py:156-163 | Two printed runs with summaries are the same error if and only if the first failing test is the same and so is the exception they are blamed on; where summaries were cut matters only when no E line names an exception. |
| PytestTail.CutInsideTheName | src/core/domain/signature.py:150-163 | Without a naming E line, a summary cut anywhere inside its name never matches the whole one of the same test. |
| Truncation.CutAssertDiffers | src/core/domain/signature.py:156-163 | One test's failed `assert 1 == 2`, printed with the summary tails ` - assert 1 == 2` and ` - asser...`, is two errors. |
| Truncation.NarrowTerminalCommits | src/orchestrator/routers.py:36-70 | Entered with the whole output and validated on a narrower terminal, a session that changes no file ends resolved, with one commit of the initial tree, on a red tree. |
| Paths.RelativePathRebuilds | src/core/domain/signature.py:256-275 | When a path is inside the root, root components followed by the relative path's components rebuild it. |
| Paths.RelativeFile | src/core/domain/signature.py:256-275 | For printed absolute paths: a file inside the root gives the rest of its path, and one outside its bare name. |
| Paths.AbsoluteReadsBack | src/core/domain/signature.py:256-257 | One leading slash, or three, is the root; exactly two are a root of their own; the names read back. |
| Paths.BackslashesSeparate | src/core/domain/signature.py:256-257 | Backslashes separate components as slashes do. |
| Paths.RelIsNameExactlyAtTheRoot | src/core/domain/signature.py:267-275 | The relative path is the bare file name if and only if the file sits directly at the root. |
| Reports.InMemoryTelemetry.Record | src/observability/sinks.py:46-49 | Appends one span. |
| Reports.InMemoryTelemetry.Aggregate | src/observability/sinks.py:57-106 | The in-place bucket loops compute the specified report of three snapshots that are successive prefixes of the log, whatever other threads record meanwhile. |
| Reports.ReportConserves | src/observability/sinks.py:69-106 | Name counts add up to the first snapshot, never exceed span_count and equal it iff nothing was recorded meanwhile; integer token totals are the sums over agents; the cost total is within (k + 1) half units of 1e-6. |
| Reports.AverageMatchesTotal | src/observability/sinks.py:90-94 | Each row describes exactly its name's spans: count, failures, total and maximum up to rounding; average times count misses the total by at most (count + 1) half units of 1e-4. |
| Reports.ReportBills | src/observability/sinks.py:69-106 | Total duration and total bill are those of all spans and all completions; an agent has a row if and only if it has a completion, and it bills exactly its own: calls, each kind of tokens, and cost up to rounding. |
| Reports.ReportIgnoresOrder | src/observability/sinks.py:57-106 | Permuting the spans changes nothing but node_path. |
| Reports.HalfEvenIsNearest | src/observability/sinks.py:92-96 | Rounding picks a nearest value, the even one on ties. |
| Telemetry.NameBucketHoldsItsSpans | src/observability/sinks.py:70-77 | A name has a bucket iff a span carries it, and count, errors, total and maximum are those of exactly these spans. |
| Telemetry.TotalIsTheDuration | src/observability/sinks.py:70 | The unrounded total is the duration of all spans. |
| Telemetry.AgentBucketHoldsItsSpans | src/observability/sinks.py:78-89 | An agent's bucket bills exactly its own completions; one without an agent counts for `unknown`. |
| Telemetry.BillAddsUp | src/observability/sinks.py:78-89 | Each figure of a bill is the plain sum of its own span attribute. |
| Telemetry.TotalBillsCompletions | src/observability/sinks.py:78-89 | The total bucket bills exactly the completions. |
| Telemetry.SumsConserve | src/observability/sinks.py:69-89 | Before rounding, name counts add up to the number of spans and agents' buckets, cost included, to the total. |
| Telemetry.SumIgnoresOrder | src/observability/sinks.py:69-89 | The buckets depend only on the multiset of spans. |
| Tracing.SpanScope.Close | src/observability/span.py:41-54 | Closing the scope records its one span, with the type of the exception the block was left by, if any. |
| Tracing.PathOfExecutions | src/observability/sinks.py:97-101 | The node path of any run's log lists exactly the executed nodes, whatever other spans are interleaved. |
| Tracing.NamesAreRegistered | src/orchestrator/graph.py:53-103 | Spans are named as the graph registers its nodes. |
| Tracing.NodePathIsTheRun | src/observability/sinks.py:97-101 | The reported path is exactly the nodes the run went through, a walk of the drawn graph from bootstrap, and no other node sequence reports the same path. |
| Tracing.NodePathTellsTheEnding | src/orchestrator/nodes.py:499-504 | A finished run is resolved if and only if its path ends in `report_commit`, and unresolved if and only if it ends in `post_mortem`. |
| Trajectory.FormatTrajectoryTail | src/agents/swe_agent_dev.py:503-530 | The newest-first loop with its budget and break joins the specified pieces oldest first. |
| Trajectory.TailIsTheFittingSuffix | src/agents/swe_agent_dev.py:513-530 | The pieces are the longest suffix of the chat that fits, whole and in order, after at most one older message cut to exactly what is left. |
| Trajectory.NewestIsWholeExactlyWhen | src/agents/swe_agent_dev.py:505-512 | The final turn is shown whole iff its chunk fits 2048 characters, and is otherwise cut to its first 2048. |
| Trajectory.WholeMessagesAreRead | src/agents/swe_agent_dev.py:513-530 | Every message within the budget can be read in the text: its role in brackets, then its trimmed content. |
| Trajectory.OlderMessageIsCut | src/agents/swe_agent_dev.py:521-526 | Where not every message fits, the text opens with the start of the next older one, as far as the budget goes, and the mark that it was cut. |
| Trajectory.LengthIsBounded | src/agents/swe_agent_dev.py:54-56 | The text never exceeds 2577 characters. |
| Trajectory.LengthIsAttained | src/agents/swe_agent_dev.py:513-530 | 513 empty messages reach exactly 2577. |
| Related.ChangedSourceFiles | src/orchestrator/regression.py:36-43 | The loop returns the first-occurrence deduplication of the diff's source targets. |
| Related.TargetReadsBack | src/orchestrator/regression.py:28 | A `diff --git` header line gives back its second path, whatever follows. |
| Related.ChangedFilesAreTheSourceTargets | src/orchestrator/regression.py:36-43 | These are exactly the non-test `.py` targets, each once, in order of first mention. |
| Related.SelectRelatedTests | src/orchestrator/regression.py:69-95 | The result is strictly sorted and holds exactly the scanned test files outside the skipped directories that match by name or by import. |
| Related.SelectedExactlyWhen | src/orchestrator/regression.py:76-95 | For changed Python files a scanned file is selected if and only if it is a test by its name, lies in no skipped directory, and is a namesake of a changed file or imports one. |
| Related.TestNamesAre | src/orchestrator/regression.py:29 | A file is a test by its name if and only if it is test_x.py, x_test.py, x_tests.py or unittest_x.py for a non-empty x. |
| Related.SourceFilesAre | src/orchestrator/regression.py:36-43 | A path is a source file if and only if its last part is a Python file and no test, wherever it lies. |
| Related.DotsAtTheEnds | src/orchestrator/regression.py:76 | A dot at the start or end of a file name separates no suffix from its stem. |
| Related.NamesakesAreSelected | src/orchestrator/regression.py:79-88 | The namesake tests `test_x.py` and `x_test.py` of every changed `x.py` are selected wherever they are scanned, readable or not. |
| Related.SelectionIgnoresOrder | src/orchestrator/regression.py:76-95 | Scan order, repeated entries and the order or repetition of changed files do not matter. |
| Related.SelectionDistributes | src/orchestrator/regression.py:76-95 | Selecting for two lists together selects what either selects. |
| Related.WorkspacePathMatters | src/orchestrator/regression.py:82-84 | A workspace below a skipped directory never has related tests; any other workspace path changes nothing. |
| Focus.CollectFocusPaths | src/agents/_focus.py:58-95 | The seen-and-break loop returns the first max(1, budget) of the deduplicated valid candidates. |
| Focus.FocusIsTheFirstValidPaths | src/agents/_focus.py:43-95 | No duplicates, never the reproducer test, only what some candidate is located as a file in the workspace; such a file is left out only when the budget is used up by files that candidates name earlier. |
| Focus.ModuleHints | src/agents/_focus.py:62-70 | Each missing module is looked for as a file, as a package and as its top package's file, in this order, before any frame. |
| Focus.InnermostFrameFirst | src/agents/_focus.py:58-70 | Frames are tried innermost first, after every module hint. |

## Left out

* What an exception that escapes a node (from a commit, a sandbox run, the post-mortem's persistence, or an unexpected
  one from the Corrector or the Tester) leaves in the tree: the run ends there, its telemetry is described, its state
  is not. The theorems about runs are about runs without one.
* File-system errors (`OSError`) around the session file, and carriage returns in it.
* Sandbox runs are taken not to change tracked files or the session file; gitignored files and skip-worktree bits do
  not exist in the model, and the checkout starts clean.
* The session test file is the one at `regression_test_path`; an empty path with a non-empty workspace does not occur
  because bootstrap always sets one.
* Docker, GitPython, subprocess, GitHub, litellm and mini-swe-agent calls are the answers in `Env`.
* SHA-256: `matches` compares the hashed string itself, which is what the 16 characters stand for when they do not collide.
* `_normalize_message`: signatures carry the raw message. It is not part of the fingerprint.
* `ast.parse`, `repr`, directory walking and the patterns that pick paths and modules out of an output for the focus
  files are inputs. The parsers' patterns and the diff header's are written out, with `\w`, `\d` and case folding on ASCII.
* Paths are POSIX paths; a file name that ends in a line break is not told apart from one that does not.
* Prompts, Markdown, log wording, commit message wording and the sandbox image: failure reasons, log entries, command lines and
  fallback messages are datatypes. The ledger's test path is kept, its file name convention is an input.
* Session id generation, settings loading, command-line scripts, benchmark reports, cost estimation and instance
  selection.
* Floating point: durations and costs are reals, rounded half to even.
* JSONL and fan-out telemetry sinks; a sink that raises inside `span`.
* The related tests and the first test name that the machine uses are arbitrary functions there, so its theorems hold
  for every selection, the one modelled in `Related.dfy` included.
* How LangGraph counts its own start step against its recursion limit: the limit theorems count node executions.
- WorstCase.BoundIsAttained: needs two parsed error texts that differ from each other and one that parses to nothing, and a non-empty workspace path; Instances.NodeLimitForModelledParser shows that the modelled parser always has them, and WorstCase.NoWorkspaceRuns gives the bound without a workspace.
- WorstCalls.CallBudgetsAreAttained: is about crash entries with protected tests, the only ones that can make every kind of sandbox run; without them the budgets are upper bounds.
- SessionFile.SessionFileIsTheSuite: is about runs whose resets succeed, whose Corrector leaves the session file alone and whose drafted tests are not blank; other writers of the file are not described.
- PytestTail.PytestReadsBack: is about outputs whose last row ends in a line break and whose summaries do not go on in the row below them.
