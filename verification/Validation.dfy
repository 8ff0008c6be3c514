/** What a validation runs and decides, and why an attempt is said to have failed, over every run. */
module Validation {
  import opened Wrappers
  import opened Domain
  import opened HealingState
  import opened Nodes
  import opened Graph
  import opened Machine
  import opened Effects
  import opened NodeContracts
  import opened Commits
  import opened Endings
  import opened Invariants
  import opened Reachability

  /** The related tests of a change that is not empty. */
  function RelatedTo(env: Env, patch: Option<Patch>, tree: Workspace): seq<string> {
    if patch.Some? && patch.value.diffText != "" then env.related(patch.value.diffText, tree) else []
  }

  /** A red reproduction is all that is run; the attempt goes on exactly when its output shows an error other than the
      one under repair. */
  predicate DecidedOnRed(env: Env, m: Machine, m': Machine) {
    var s, w, s', first := m.state, m.world, m'.state, env.sandbox(m.world.sandboxCalls);
    var shown := env.parse(first.logsTail, s.keys.entryKind, s.keys.workspacePath);
    && m'.world.attemptRuns == [SandboxRun(s.keys.reproduceCmd, w.work, first)]
    && s'.sandboxResult == Some(first) && s'.postSignature == shown && s'.postOutput == first.logsTail
    && !s'.regressionDetected
    && m'.pc == if shown.Some? && !Matches(shown.value, s.signature) then Immunize else Rollback
  }

  /** After a green reproduction this command was run on the same tree; the attempt goes on exactly when it passed or
      ended with exit code 5, and is otherwise rolled back as a regression. */
  predicate DecidedByGate(env: Env, m: Machine, m': Machine, command: Command) {
    var s, w, s' := m.state, m.world, m'.state;
    var first, second := env.sandbox(w.sandboxCalls), env.sandbox(w.sandboxCalls + 1);
    && m'.world.attemptRuns == [SandboxRun(s.keys.reproduceCmd, w.work, first), SandboxRun(command, w.work, second)]
    && if second.verdict == Passed || second.exitCode == Some(5)
       then m'.pc == Immunize && !s'.regressionDetected && s'.sandboxResult == Some(first)
       else m'.pc == Rollback && s'.regressionDetected && s'.sandboxResult == Some(second)
  }

  /** Nothing else to protect: a green reproduction is all that is run, and the attempt goes on. */
  predicate DecidedOnGreen(env: Env, m: Machine, m': Machine) {
    var s, w, first := m.state, m.world, env.sandbox(m.world.sandboxCalls);
    && m'.world.attemptRuns == [SandboxRun(s.keys.reproduceCmd, w.work, first)]
    && m'.pc == Immunize && !m'.state.regressionDetected && m'.state.sandboxResult == Some(first)
  }

  /** The tests to protect are those the caller gave and otherwise those related to the change. */
  predicate Decided(env: Env, m: Machine, m': Machine) {
    var s, w := m.state, m.world;
    var related := RelatedTo(env, s.patch, w.work);
    if s.keys.workspacePath == "" then
      && m'.pc == Rollback && m'.world == w && !m'.state.regressionDetected
      && m'.state.sandboxResult.Some? && m'.state.sandboxResult.value.verdict == InfrastructureError
      && m'.state.sandboxResult.value.exitCode.None?
    else if env.sandbox(w.sandboxCalls).verdict != Passed then DecidedOnRed(env, m, m')
    else if s.keys.regressionCmd != [] then DecidedByGate(env, m, m', Given(s.keys.regressionCmd))
    else if related != [] then DecidedByGate(env, m, m', RelatedTests(s.keys.reproduceCmd, related))
    else DecidedOnGreen(env, m, m')
  }

  lemma StepDecides(env: Env, m: Machine)
    requires m.pc == Validate && m.world.attemptRuns == [] && !m.state.regressionDetected
    ensures Decided(env, m, Step(env, m))
  {
    hide Matches, GateCommand, RelatedTo;
    WhatIsProtected(env, m.state.keys, m.state.patch, m.world.work);
  }

  lemma WhatIsProtected(env: Env, keys: SessionKeys, patch: Option<Patch>, tree: Workspace)
    ensures GateCommand(env, keys, patch, tree) ==
      if keys.regressionCmd != [] then Some(Given(keys.regressionCmd))
      else if RelatedTo(env, patch, tree) != [] then Some(RelatedTests(keys.reproduceCmd, RelatedTo(env, patch, tree)))
      else None
  {
  }

  lemma BeforeValidation(env: Env, n: nat)
    requires Run(env, n).pc == Validate
    ensures var m := Run(env, n);
      && m.world.attemptRuns == [] && !m.state.regressionDetected && m.world.fixerCalls != [] && m.state.patch.Some?
      && env.fixer(|m.world.fixerCalls| - 1).outcome == Produced(m.state.patch.value)
      && m.state.keys == EntryKeys(env)
  {
    hide Run, Inv, EntryKeys, Validated, TestPassed, InBudget;
    InvAlways(env, n);
    InvGivesControl(env, Run(env, n));
    InvGivesEvidence(env, Run(env, n));
  }

  /** Every validation of every run makes exactly these sandbox runs and decides exactly so. */
  lemma ValidationDecides(env: Env, n: nat)
    requires Run(env, n).pc == Validate
    ensures Decided(env, Run(env, n), Run(env, n + 1))
  {
    BeforeValidation(env, n);
    hide Run, Decided, Step, Effect;
    RunStep(env, n);
    StepDecides(env, Run(env, n));
  }

  // --- why an attempt failed -----------------------------------------------------------------

  /** The reason fits what happened: no patch came from the Corrector; or the reproduction went green and a protected
      test broke; or the reproduction did not go green, and then the reason is its verdict and exit code. */
  predicate TellsWhy(reason: FailureReason, outcome: FixOutcome, workspacePath: string, runs: seq<SandboxRun>) {
    if !outcome.Produced? then reason == NoFix
    else if workspacePath == "" then reason == SandboxVerdict(InfrastructureError, None)
    else
      && runs != []
      && var result := runs[0].result;
         if result.verdict == Passed then
           && reason == Regression && |runs| == 2
           && runs[1].result.verdict != Passed && runs[1].result.exitCode != Some(5)
         else reason == SandboxVerdict(result.verdict, result.exitCode)
  }

  lemma OnlyFixOrValidate(source: Node, target: Node)
    requires Edge(source, target) && target == Rollback
    ensures source == Fix || source == Validate
  {
  }

  lemma ReasonAfterFix(env: Env, m: Machine, m': Machine)
    requires m.pc == Fix && Effect(env, m, m') && m'.pc == Rollback && Control(env, m)
    ensures m'.world.fixerCalls != []
      && TellsWhy(Summarise(m'.state), env.fixer(|m'.world.fixerCalls| - 1).outcome, m'.state.keys.workspacePath,
                  m'.world.attemptRuns)
  {
    hide SameHistory, SameFlags;
  }

  lemma ReasonAfterValidation(env: Env, m: Machine, m': Machine)
    requires m.pc == Validate && Decided(env, m, m') && m'.pc == Rollback && m.state.patch.Some?
    requires m'.state.patch == m.state.patch && m'.state.keys == m.state.keys && m'.world.fixerCalls == m.world.fixerCalls
    requires m.world.fixerCalls != [] && env.fixer(|m.world.fixerCalls| - 1).outcome.Produced?
    ensures TellsWhy(Summarise(m'.state), env.fixer(|m'.world.fixerCalls| - 1).outcome, m'.state.keys.workspacePath,
                     m'.world.attemptRuns)
  {
    hide RelatedTo, Matches;
  }

  lemma BeforeRollback(env: Env, n: nat)
    requires Run(env, n).pc == Rollback
    ensures n > 0 && Run(env, n - 1).pc in {Fix, Validate}
  {
    assert n > 0;
    var m := Run(env, n - 1);
    assert m.pc != End && Run(env, n) == Step(env, m);
    hide Run, Step;
    StepFollowsAnEdge(env, m);
    OnlyFixOrValidate(m.pc, Run(env, n).pc);
  }

  /** A state about to be rolled back holds the reason that its own Corrector call and sandbox runs show. */
  lemma RollbackShowsWhy(env: Env, n: nat)
    requires Run(env, n).pc == Rollback
    ensures var m := Run(env, n);
      && m.world.fixerCalls != []
      && TellsWhy(Summarise(m.state), env.fixer(|m.world.fixerCalls| - 1).outcome, m.state.keys.workspacePath,
                  m.world.attemptRuns)
  {
    hide Run, Inv, Step, TellsWhy, Decided, Control, KeysFixed, SameFlags, Summarise, EntryKeys;
    BeforeRollback(env, n);
    var m, m' := Run(env, n - 1), Run(env, n);
    RunStep(env, n - 1);
    if m.pc == Fix {
      InvAlways(env, n - 1);
      InvGivesControl(env, m);
      ReasonAfterFix(env, m, m');
    } else {
      BeforeValidation(env, n - 1);
      ValidationDecides(env, n - 1);
      ReasonAfterValidation(env, m, m');
    }
  }

  /** Each rolled-back attempt is recorded with that reason. */
  lemma FailureReasonTellsWhy(env: Env, n: nat)
    requires Run(env, n).pc == Rollback
    ensures var w := Run(env, n).world; var records := Run(env, n + 1).state.failedAttempts;
      && w.fixerCalls != [] && records != []
      && TellsWhy(records[|records| - 1].reason, env.fixer(|w.fixerCalls| - 1).outcome, EntryKeys(env).workspacePath,
                  w.attemptRuns)
  {
    hide Run, Inv, Step, TellsWhy, Control, SameFlags, NoAttempt, Summarise, EntryKeys;
    RollbackShowsWhy(env, n);
    InvAlways(env, n);
    InvGivesControl(env, Run(env, n));
    RunStep(env, n);
  }
}
