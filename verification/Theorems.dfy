/** What holds of every run, whatever the Corrector, the sandbox, the Tester and the Reporter answer. */
module Theorems {
  import opened Wrappers
  import opened Domain
  import opened HealingState
  import opened Nodes
  import opened Graph
  import opened Routers
  import opened Machine
  import opened NodeContracts
  import opened History
  import opened Ledger
  import opened Budgets
  import opened Trees
  import opened Commits
  import opened Endings
  import opened Invariants
  import Text

  // --- termination ----------------------------------------------------------------

  lemma {:induction false} UnfinishedRunsAreLong(env: Env, n: nat)
    ensures Run(env, n).pc != End ==> |Run(env, n).trace| == n
  {
    hide BootstrapNode, FixNode, ValidateNode, ImmunizeNode, ReportCommitNode, RollbackNode, PostMortemNode;
    if n > 0 {
      UnfinishedRunsAreLong(env, n - 1);
    }
  }

  /** Every run is over after 1 + M(3N + 1) node executions, and never makes more. */
  lemma EveryRunEnds(env: Env, n: nat)
    ensures n >= Bound(EntryKeys(env)) ==> Run(env, n).pc == End
    ensures |Run(env, n).trace| <= Bound(EntryKeys(env))
  {
    InvAlways(env, n);
    UnfinishedRunsAreLong(env, n);
    var m := Run(env, n);
    if m.pc != End {
      RemainingDecreases(env, m);
    }
    hide Run, Step, Remaining, EntryKeys, Bound, Control, CallsBounded;
  }

  /** The bound against the figure in the runner's comment, and its value for the default budgets. */
  lemma BoundAgainstComment(keys: SessionKeys)
    ensures Bound(keys) + 3 * Cycles(keys) + 1 == Cycles(keys) * (3 * Retries(keys) + 4) + 2
    ensures keys.maxRetries == 3 && keys.cycleBudget == 5 ==> 25 < Bound(keys) == 51 < 150
    ensures keys.maxRetries == 20 && keys.cycleBudget == 50 ==> Bound(keys) == 3051
  {
    var m, n := Cycles(keys), Retries(keys);
    assert m * (3 * n + 4) == m * (3 * n + 1) + m * 3;
  }

  // --- the session's keys ------------------------------------------------------------

  /** At every node after bootstrap the session goes by the request: its commands, or the entry kind's default; and
      its budgets, or the settings' where it gives none. */
  lemma KeysFollowTheRequest(env: Env, n: nat)
    requires Run(env, n).pc != Bootstrap
    ensures var keys, r := Run(env, n).state.keys, env.request;
      && keys.workspacePath == r.workspacePath && keys.entryKind == r.trigger.kind && keys.regressionCmd == r.regressionCmd
      && keys.maxRetries == (if r.maxRetries.Some? then r.maxRetries.value else env.settings.maxRetries)
      && keys.cycleBudget == (if r.cycleBudget.Some? then r.cycleBudget.value else env.settings.cycleBudget)
      && (r.reproduceCmd != [] ==> keys.reproduceCmd == Given(r.reproduceCmd))
      && (r.reproduceCmd == [] ==> keys.reproduceCmd == if r.trigger.kind == Test then DefaultTests else MainProgram)
      && (r.testPath != "" ==> keys.testPath == r.testPath) && (r.testPath == "" ==> keys.testPath == env.defaultTestPath)
      && (keys.reproducer.Some? <==> r.trigger.kind == Test && r.trigger.failingTest.Some?)
      && (keys.reproducer.Some? ==> keys.reproducer.value == r.trigger.failingTest.value.nodeId)
  {
    InvAlways(env, n);
    InvGivesControl(env, Run(env, n));
    hide Run, Inv;
  }

  lemma SameStepUnder(env: Env, env': Env, m: Machine)
    requires env' == env.(settings := env'.settings) && EntryKeys(env') == EntryKeys(env) && m.pc != End
    ensures Step(env', m) == Step(env, m)
  {
    hide EntryKeys, After, AppendTest, Matches;
  }

  /** A caller that gives both budgets runs the same session under any settings. */
  lemma {:induction false} CallersBudgetsPrevail(env: Env, settings: Settings, n: nat)
    requires env.request.maxRetries.Some? && env.request.cycleBudget.Some?
    ensures Run(env.(settings := settings), n) == Run(env, n)
  {
    hide Step, EntryKeys;
    if n == 0 {
      SameStartUnder(env, settings);
    } else {
      CallersBudgetsPrevail(env, settings, n - 1);
      SameKeysUnder(env, settings);
      if Run(env, n - 1).pc != End {
        SameStepUnder(env, env.(settings := settings), Run(env, n - 1));
      }
    }
  }

  lemma SameStartUnder(env: Env, settings: Settings)
    ensures Run(env.(settings := settings), 0) == Run(env, 0)
  {
  }

  lemma SameKeysUnder(env: Env, settings: Settings)
    requires env.request.maxRetries.Some? && env.request.cycleBudget.Some?
    ensures EntryKeys(env.(settings := settings)) == EntryKeys(env)
  {
  }

  // --- the tree --------------------------------------------------------------------

  /** No failed edit leaks: at every fix entry the working tree is HEAD (plus, before anything happened, the
      fresh session file), and HEAD and every commit are made of the accepted attempts alone, in order. */
  lemma NoFailedEditLeaks(env: Env, n: nat)
    requires ResetsWork(env)
    ensures var m := Run(env, n); var w := m.world;
      && (m.pc == Fix ==> w.work.files == w.head.files && (w.fixerCalls != [] ==> w.work == w.head))
      && (m.pc == End ==> w.work == w.head)
      && w.head == Replay(env, w.evidence)
      && CommitsReplay(env, w.commits, w.evidence)
      && (forall i :: 0 <= i < |w.evidence| ==> w.evidence[i].attempt < |w.fixerCalls|)
      && (forall i :: 0 < i < |w.evidence| ==> w.evidence[i - 1].attempt < w.evidence[i].attempt)
  {
    hide Run, Replay, CommitsReplay, Inv, ResetsWork, WithTest;
    TreesAlways(env, n);
    var m := Run(env, n);
    if m.pc == Fix && m.world.fixerCalls == [] {
      ReplayOfNothing(env);
    }
  }

  lemma ReplayOfNothing(env: Env)
    ensures Replay(env, []) == env.request.initial
  {
  }

  /** The two histories accepted the same edits and kept the same tests, whatever failed in between. */
  ghost predicate SameAccepted(env: Env, env': Env, accepted: seq<Evidence>, accepted': seq<Evidence>) {
    && |accepted| == |accepted'|
    && forall i :: 0 <= i < |accepted| ==> SameAttempt(env, env', accepted[i], accepted'[i])
  }

  ghost predicate SameAttempt(env: Env, env': Env, e: Evidence, e': Evidence) {
    env.fixer(e.attempt).edit == env'.fixer(e'.attempt).edit && e.test == e'.test
  }

  /** Bootstrap made no session file, or the first accepted attempt saw the fresh one in both runs or in neither. */
  predicate SameStart(env: Env, accepted: seq<Evidence>, accepted': seq<Evidence>) {
    EntryTree(env) == env.request.initial
    || (accepted != [] && accepted' != [] ==> (accepted[0].attempt == 0 <==> accepted'[0].attempt == 0))
  }

  lemma {:induction false} ReplaysAgree(env: Env, env': Env, accepted: seq<Evidence>, accepted': seq<Evidence>)
    requires env.request == env'.request && EntryTree(env) == EntryTree(env') && EntryKeys(env) == EntryKeys(env')
    requires SameAccepted(env, env', accepted, accepted') && SameStart(env, accepted, accepted')
    requires InOrder(accepted) && InOrder(accepted')
    ensures Replay(env, accepted) == Replay(env', accepted')
  {
    hide EntryTree, EntryKeys, WithTest;
    if accepted != [] {
      var k := |accepted| - 1;
      assert SameAttempt(env, env', accepted[k], accepted'[k]);
      ReplaysAgree(env, env', accepted[..k], accepted'[..k]);
    }
  }

  /** A rolled-back attempt contributes nothing: two runs of the same request that accepted the same edits and
      tests have the same HEAD and the same commit trees, however many attempts either made, what those did to
      the tree, and whether they raised, produced nothing or failed validation. Only where bootstrap created a
      session file does it matter whether the first accepted attempt still saw it. */
  lemma RejectedAttemptsDoNotMatter(env: Env, n: nat, env': Env, n': nat, i: nat)
    requires ResetsWork(env) && ResetsWork(env')
    requires env.request == env'.request && EntryTree(env) == EntryTree(env') && EntryKeys(env) == EntryKeys(env')
    requires SameAccepted(env, env', Run(env, n).world.evidence, Run(env', n').world.evidence)
    requires SameStart(env, Run(env, n).world.evidence, Run(env', n').world.evidence)
    ensures var w, w' := Run(env, n).world, Run(env', n').world;
      && w.head == w'.head && |w.commits| == |w'.commits|
      && (i < |w.commits| ==> w.commits[i].tree == w'.commits[i].tree)
  {
    hide Run, Replay, EntryTree, EntryKeys, ResetsWork, SameAttempt;
    NoFailedEditLeaks(env, n);
    NoFailedEditLeaks(env', n');
    var w, w' := Run(env, n).world, Run(env', n').world;
    ReplaysAgree(env, env', w.evidence, w'.evidence);
    if i < |w.commits| {
      assert SameAccepted(env, env', w.evidence[..i + 1], w'.evidence[..i + 1]);
      ReplaysAgree(env, env', w.evidence[..i + 1], w'.evidence[..i + 1]);
    }
  }

  /** A test entry has no session file to see, so there the first attempt's fate does not matter at all. */
  lemma TestEntriesStartAlike(env: Env, accepted: seq<Evidence>, accepted': seq<Evidence>)
    requires env.request.trigger.kind == Test
    ensures SameStart(env, accepted, accepted')
  {
  }

  /** So for test entries the accepted edits alone decide the committed trees, with no condition left. */
  lemma RejectedAttemptsDoNotMatterToTestEntries(env: Env, n: nat, env': Env, n': nat, i: nat)
    requires ResetsWork(env) && ResetsWork(env') && env.request == env'.request && env.request.trigger.kind == Test
    requires env.settings == env'.settings && env.defaultTestPath == env'.defaultTestPath
    requires SameAccepted(env, env', Run(env, n).world.evidence, Run(env', n').world.evidence)
    ensures var w, w' := Run(env, n).world, Run(env', n').world;
      && w.head == w'.head && |w.commits| == |w'.commits|
      && (i < |w.commits| ==> w.commits[i].tree == w'.commits[i].tree)
  {
    hide Run, ResetsWork, SameAccepted;
    TestEntriesStartAlike(env, Run(env, n).world.evidence, Run(env', n').world.evidence);
    RejectedAttemptsDoNotMatter(env, n, env', n', i);
  }

  // --- the project files alone ---------------------------------------------------------

  /** What the edit does to the project files does not depend on the session file. */
  ghost predicate IgnoresSession(edit: Workspace -> Workspace) {
    forall w: Workspace, w': Workspace :: w.files == w'.files ==> edit(w).files == edit(w').files
  }

  ghost predicate EditsIgnoreSession(env: Env) {
    forall k: nat :: IgnoresSession(env.fixer(k).edit)
  }

  lemma {:induction false} ReplaysAgreeOnFiles(env: Env, env': Env, accepted: seq<Evidence>, accepted': seq<Evidence>)
    requires env.request == env'.request && EditsIgnoreSession(env)
    requires SameAccepted(env, env', accepted, accepted') && InOrder(accepted) && InOrder(accepted')
    ensures Replay(env, accepted).files == Replay(env', accepted').files
  {
    if accepted != [] {
      var k := |accepted| - 1;
      var e, e' := accepted[k], accepted'[k];
      assert SameAttempt(env, env', e, e') && IgnoresSession(env.fixer(e.attempt).edit);
      hide SameAttempt, EditsIgnoreSession, IgnoresSession, WithTest, EntryTree;
      ReplaysAgreeOnFiles(env, env', accepted[..k], accepted'[..k]);
      var before := if e.attempt == 0 then EntryTree(env) else Replay(env, accepted[..k]);
      var before' := if e'.attempt == 0 then EntryTree(env') else Replay(env', accepted'[..k]);
      EntryTreeKeepsFiles(env);
      EntryTreeKeepsFiles(env');
      SameFilesIn(env, env', e, e', before, before');
      WithTestKeepsFiles(EntryKeys(env), env.fixer(e.attempt).edit(before), e.test);
      WithTestKeepsFiles(EntryKeys(env'), env'.fixer(e'.attempt).edit(before'), e'.test);
    }
  }

  lemma SameFilesIn(env: Env, env': Env, e: Evidence, e': Evidence, w: Workspace, w': Workspace)
    requires SameAttempt(env, env', e, e') && IgnoresSession(env.fixer(e.attempt).edit) && w.files == w'.files
    ensures env.fixer(e.attempt).edit(w).files == env'.fixer(e'.attempt).edit(w').files
  {
  }

  lemma EntryTreeKeepsFiles(env: Env)
    ensures EntryTree(env).files == env.request.initial.files
  {
  }

  lemma WithTestKeepsFiles(keys: SessionKeys, tree: Workspace, test: Option<string>)
    ensures WithTest(keys, tree, test).files == tree.files
  {
  }

  /** With a Corrector that does not look at the session file, the committed project files are those of the
      accepted edits in every case: also when one run commits its first try and the other only a later one. */
  lemma RejectedAttemptsDoNotTouchFiles(env: Env, n: nat, env': Env, n': nat, i: nat)
    requires ResetsWork(env) && ResetsWork(env') && env.request == env'.request && EditsIgnoreSession(env)
    requires SameAccepted(env, env', Run(env, n).world.evidence, Run(env', n').world.evidence)
    ensures var w, w' := Run(env, n).world, Run(env', n').world;
      && w.head.files == w'.head.files && |w.commits| == |w'.commits|
      && (i < |w.commits| ==> w.commits[i].tree.files == w'.commits[i].tree.files)
  {
    hide Run, Replay, ResetsWork, SameAttempt, EditsIgnoreSession;
    NoFailedEditLeaks(env, n);
    NoFailedEditLeaks(env', n');
    var w, w' := Run(env, n).world, Run(env', n').world;
    ReplaysAgreeOnFiles(env, env', w.evidence, w'.evidence);
    if i < |w.commits| {
      assert SameAccepted(env, env', w.evidence[..i + 1], w'.evidence[..i + 1]);
      ReplaysAgreeOnFiles(env, env', w.evidence[..i + 1], w'.evidence[..i + 1]);
    }
  }

  // --- history ---------------------------------------------------------------------

  /** Nothing an attempt left behind is visible to the next one, and both budgets still allow it. */
  lemma FixEntry(env: Env, n: nat)
    requires Run(env, n).pc == Fix
    ensures var s := Run(env, n).state; Clean(s) && InBudget(s) && Numbered(s.failedAttempts) && Recorded(s)
  {
    hide Run, Numbered, Recorded, Clean, InBudget, Remaining, CallsBounded, Conserved, Logged, Walked, Ended, Evidenced,
      Counted, GreenIsLast, Explained;
    InvAlways(env, n);
  }

  /** At every fix entry the record is in order, finished cycles stayed below their retries, and the
      Corrector is shown exactly the `attempt_count` failures of the current error, in order. */
  lemma CorrectorSeesCurrentAttempts(env: Env, n: nat)
    requires Run(env, n).pc == Fix
    ensures var s := Run(env, n).state;
      && Numbered(s.failedAttempts)
      && s.attemptCount <= |s.failedAttempts|
      && CycleAttempts(s.failedAttempts, s.cycleIndex) == s.failedAttempts[|s.failedAttempts| - s.attemptCount..]
      && |BuildContext(s).previousAttempts| == s.attemptCount < Retries(s.keys)
      && (forall cycle: nat :: cycle < s.cycleIndex ==> |CycleAttempts(s.failedAttempts, cycle)| < Retries(s.keys))
  {
    hide Run, Numbered, Recorded, Clean, CycleAttempts, Retries, Cycles;
    FixEntry(env, n);
    RecordedCycles(Run(env, n).state);
  }

  /** Numbering is strict: an earlier record has a smaller (cycle, attempt) pair. */
  lemma {:induction false} RecordsStrictlyIncrease(attempts: seq<FailedAttempt>, i: nat, j: nat)
    requires Numbered(attempts) && i < j < |attempts|
    ensures || attempts[i].cycleIndex < attempts[j].cycleIndex
            || (attempts[i].cycleIndex == attempts[j].cycleIndex && attempts[i].attemptIndex < attempts[j].attemptIndex)
  {
    assert Continues(attempts, j);
    if i < j - 1 {
      RecordsStrictlyIncrease(attempts, i, j - 1);
    }
  }

  /** No failure is ever recorded as unknown, and each reason fits its record. */
  lemma FailuresAreExplained(env: Env, n: nat)
    ensures Explained(Run(env, n).state.failedAttempts)
    ensures Run(env, n).pc == Rollback ==> Summarise(Run(env, n).state) != UnknownFailure
  {
    InvAlways(env, n);
    hide Run;
  }

  // --- the ledger --------------------------------------------------------------------

  lemma ShasDiffer(i: nat, j: nat)
    requires Sha(i) == Sha(j)
    ensures i == j
  {
    hide Text.Padded;
    assert Sha(i)[4..] == Text.Padded(i) && Sha(j)[4..] == Text.Padded(j);
    Text.PaddedIsInjective(i, j);
  }

  /** At every fix entry the cycle index counts the healed errors and the commits; the ledger carries the
      commits' distinct shas, and neighbouring entries are different errors, even after an unparseable one. */
  lemma LedgerIsAlignedAndChained(env: Env, n: nat)
    requires ParserUsable(env)
    ensures var m := Run(env, n); var resolved, commits := m.state.resolvedErrors, m.world.commits;
      && |resolved| == |commits|
      && (m.pc != End ==> m.state.cycleIndex == |commits|)
      && (forall i :: 0 <= i < |commits| ==> resolved[i].commitSha == commits[i].sha)
      && (forall i, j :: 0 <= i < j < |commits| ==> commits[i].sha != commits[j].sha)
      && (forall i :: 0 < i < |resolved| ==> !Matches(resolved[i].signature, Some(resolved[i - 1].signature)))
  {
    hide Run, Control, KeysFixed, Tidy, Explained, Conserved, CallsBounded, Remaining, Walked, Logged, Evidenced, Ended,
      GreenIsLast, AllJustified, PostParsed, ParserUsable, Matches, Sha;
    ParsedInvAlways(env, n);
    InvAlways(env, n);
    var commits := Run(env, n).world.commits;
    forall i, j | 0 <= i < j < |commits|
      ensures commits[i].sha != commits[j].sha
    {
      if Sha(i) == Sha(j) {
        ShasDiffer(i, j);
      }
    }
  }

  // --- commit safety -------------------------------------------------------------------

  /** Every commit of every run is justified by the sandbox runs made since its own Corrector call. */
  lemma EveryCommitIsJustified(env: Env, n: nat, i: nat)
    requires ParserUsable(env) && i < |Run(env, n).world.commits|
    ensures var m := Run(env, n);
      && |m.world.evidence| == |m.state.resolvedErrors| == |m.world.commits|
      && Justified(env, m.world.evidence[i], m.world.commits[i].tree, m.state.resolvedErrors[i].signature)
  {
    ParsedInvAlways(env, n);
    hide Run, Justified;
  }

  /** The two copies of the same-or-different decision agree on every state there could be: without a regression the
      router goes on exactly when the validation was green or a chained error is left, and then that is the one it saw. */
  lemma CopiesAgreeEverywhere(s: State)
    requires !s.regressionDetected
    ensures RouteAfterValidate(s) == ToImmunize <==> Green(s.sandboxResult) || Residual(s).Some?
    ensures Residual(s).Some? ==> Residual(s) == s.postSignature && !Green(s.sandboxResult)
  {
    hide Matches;
  }

  /** In every state about to commit there is a patch, no regression, and progress; both copies of the
      same-or-different decision agree there, so a residual error is left exactly when the tree is red. */
  lemma DecisionCopiesAgree(env: Env, n: nat)
    requires Run(env, n).pc == ReportCommit
    ensures var s := Run(env, n).state;
      && s.patch.Some? && !s.regressionDetected && s.sandboxResult.Some?
      && (Residual(s).None? <==> Green(s.sandboxResult))
      && (Residual(s).Some? ==> Residual(s) == s.postSignature)
  {
    InvAlways(env, n);
    hide Run;
  }

  // --- endings ----------------------------------------------------------------------------

  /** A finished run is resolved exactly when it left through FINISH, which is exactly when its last
      validation was green or it made M commits; a green commit is always the last one. */
  lemma EndingsCharacterised(env: Env, n: nat)
    requires Run(env, n).pc == End
    ensures var m := Run(env, n); var s, commits := m.state, m.world.commits;
      && m.trace != []
      && (s.isResolved <==> m.trace[|m.trace| - 1] == ReportCommit)
      && (s.isResolved <==> Green(s.sandboxResult) || |commits| == Cycles(EntryKeys(env)))
      && (!s.isResolved <==> m.trace[|m.trace| - 1] == PostMortem)
      && (!s.isResolved <==> s.postMortemPath.Some?)
      && (s.isResolved && !Green(s.sandboxResult) ==> |commits| == Cycles(EntryKeys(env)))
      && GreenIsLast(m)
  {
    InvAlways(env, n);
    hide Run, EntryKeys, GreenIsLast;
  }

  /** One log entry per node execution, from the node that ran; a smoke test is written at most once in a run,
      and only for the green commit that ends it. */
  lemma LogFollowsTheTrace(env: Env, n: nat, i: nat, j: nat)
    requires i < |Run(env, n).state.logs| && j < |Run(env, n).state.logs|
    ensures var m := Run(env, n); var logs := m.state.logs;
      && |logs| == |m.trace| && LoggedBy(logs[i]) == m.trace[i]
      && (logs[i].ImmunizeSmoke? && logs[j].ImmunizeSmoke? ==> i == j)
      && (logs[i].ImmunizeSmoke? && m.pc == End ==>
            i == |logs| - 2 && m.trace[i + 1] == ReportCommit && m.state.isResolved)
      && (logs[i].ImmunizeSmoke? && m.pc != End ==> m.pc == ReportCommit && Green(m.state.sandboxResult))
  {
    InvAlways(env, n);
    var m := Run(env, n);
    assert Logged(m) && Ended(env, m) && Walked(m);
    hide Run, Inv, Logged, LoggedBy, Ended, Walked, Green;
    LogOf(env, m, i, j);
  }

  lemma LogOf(env: Env, m: Machine, i: nat, j: nat)
    requires Logged(m) && Ended(env, m) && Walked(m)
    requires i < |m.state.logs| && j < |m.state.logs|
    ensures var logs := m.state.logs;
      && |logs| == |m.trace| && LoggedBy(logs[i]) == m.trace[i]
      && (logs[i].ImmunizeSmoke? && logs[j].ImmunizeSmoke? ==> i == j)
      && (logs[i].ImmunizeSmoke? && m.pc == End ==>
            i == |logs| - 2 && m.trace[i + 1] == ReportCommit && m.state.isResolved)
      && (logs[i].ImmunizeSmoke? && m.pc != End ==> m.pc == ReportCommit && Green(m.state.sandboxResult))
  {
    hide Green, GreenCommit, EntryKeys, Walked, Cycles, Retries;
    if m.state.logs[i].ImmunizeSmoke? && m.pc == End {
      AfterImmunize(m, i);
    }
  }

  lemma AfterImmunize(m: Machine, i: nat)
    requires Walked(m) && i + 1 < |m.trace| && m.trace[i] == Immunize
    ensures m.trace[i + 1] == ReportCommit
  {
    var path := m.trace + [m.pc];
    assert Edge(path[i], path[i + 1]);
  }

  // --- budgets -----------------------------------------------------------------------------

  /** Sandbox runs of the costliest run: two per attempt, but one for a commit that leaves another error, and
      four for the green attempt that ends the run. */
  function SandboxBudget(keys: SessionKeys): int {
    Cycles(keys) * (2 * Retries(keys) - 1) + 3
  }

  lemma ProductStep(a: int, b: int)
    ensures (a + 1) * b == a * b + b
    ensures a * (b - 1) == a * b - a
    ensures a * (2 * b - 1) == 2 * (a * b) - a
  {
  }

  lemma ProductMonotone(a: int, b: int, n: nat)
    requires a <= b
    ensures a * n <= b * n
  {
    assert (b - a) * n >= 0;
  }

  lemma FixerBudget(cycle: nat, retries: nat, cycles: nat, failed: nat, attempts: nat, commits: nat)
    requires cycle < cycles && 1 <= retries && failed <= cycle * (retries - 1) + attempts
    requires (commits == cycle + 1 && attempts < retries) || (commits == cycle && attempts == retries)
    ensures failed + commits <= cycles * retries
    ensures 2 * failed + commits + (if commits == cycle + 1 then 3 else 0) <= cycles * (2 * retries - 1) + 3
  {
    ProductStep(cycle, retries);
    ProductStep(cycle + 1, retries);
    ProductMonotone(cycle + 1, cycles, retries);
    ProductMonotone(cycle + 1, cycles, 2 * retries - 1);
  }

  lemma CallsAtTheEnd(env: Env, m: Machine)
    requires m.pc == End && Conserved(m) && CallsBounded(env, m) && Ended(env, m)
    ensures var w, keys := m.world, EntryKeys(env);
      && |w.fixerCalls| <= Cycles(keys) * Retries(keys)
      && w.sandboxCalls <= SandboxBudget(keys)
      && w.testerCalls <= Cycles(keys)
      && w.reporterCalls <= Cycles(keys)
  {
    hide EntryKeys, Retries, Cycles, GreenCommit;
    var s, keys := m.state, EntryKeys(env);
    FixerBudget(s.cycleIndex, Retries(keys), Cycles(keys), |s.failedAttempts|, s.attemptCount, |m.world.commits|);
  }

  /** Calls to each port over a finished run, and where every Corrector call went. */
  lemma CallBudgets(env: Env, n: nat)
    requires Run(env, n).pc == End
    ensures var m := Run(env, n); var w, keys := m.world, EntryKeys(env);
      && multiset(m.trace)[Fix] == |w.fixerCalls| == multiset(m.trace)[Rollback] + multiset(m.trace)[ReportCommit]
      && |w.fixerCalls| <= Cycles(keys) * Retries(keys)
      && w.sandboxCalls <= SandboxBudget(keys)
      && w.testerCalls <= Cycles(keys)
      && w.reporterCalls <= Cycles(keys)
  {
    InvAlways(env, n);
    var m := Run(env, n);
    assert Conserved(m) && CallsBounded(env, m) && Ended(env, m);
    hide Run, Inv, CallsBounded, Ended, EntryKeys;
    CallsAtTheEnd(env, m);
  }

  /** The exact sandbox budget against two runs per attempt and two more: equal for a single cycle only. */
  lemma SandboxBudgetAgainstTwoPerAttempt(keys: SessionKeys)
    ensures SandboxBudget(keys) == 2 * (Cycles(keys) * Retries(keys)) - Cycles(keys) + 3
    ensures SandboxBudget(keys) <= 2 * (Cycles(keys) * Retries(keys)) + 2
    ensures SandboxBudget(keys) == 2 * (Cycles(keys) * Retries(keys)) + 2 <==> Cycles(keys) == 1
    ensures keys.maxRetries == 3 && keys.cycleBudget == 5 ==> SandboxBudget(keys) == 28
  {
    ProductStep(Cycles(keys), Retries(keys));
  }
}
