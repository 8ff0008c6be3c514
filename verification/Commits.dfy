/** Why each commit was allowed: the evidence behind it, over every run. */
module Commits {
  import opened Wrappers
  import opened Domain
  import opened HealingState
  import opened Nodes
  import opened Machine
  import opened Effects
  import opened NodeContracts
  import opened Graph
  import opened Ledger

  /** This command ran second, on the tree of the first run, and passed or found no tests to run (exit code 5). */
  predicate HeldNext(runs: seq<SandboxRun>, command: Command)
    requires runs != []
  {
    && |runs| >= 2 && runs[1].command == command && runs[1].tree == runs[0].tree
    && (runs[1].result.verdict == Passed || runs[1].result.exitCode == Some(5))
  }

  /** Protected tests were run and held: those the caller gave, or else those related to a change that is not empty. */
  predicate GatePassed(env: Env, keys: SessionKeys, patch: Option<Patch>, runs: seq<SandboxRun>)
    requires runs != []
  {
    && (keys.regressionCmd != [] ==> HeldNext(runs, Given(keys.regressionCmd)))
    && (keys.regressionCmd == [] && patch.Some? && patch.value.diffText != "" ==>
          var related := env.related(patch.value.diffText, runs[0].tree);
          related != [] ==> HeldNext(runs, RelatedTests(keys.reproduceCmd, related)))
  }

  /** The runs made since the last Corrector call, its patch and the state's verdict belong together. */
  predicate Validated(env: Env, s: State, w: World) {
    && s.patch.Some? && s.sandboxResult.Some? && w.fixerCalls != [] && w.attemptRuns != []
    && env.fixer(|w.fixerCalls| - 1).outcome == Produced(s.patch.value)
    && w.attemptRuns[0] == SandboxRun(s.keys.reproduceCmd, w.attemptRuns[0].tree, s.sandboxResult.value)
    && w.attemptRuns[0].tree.files == w.work.files
    && (if Green(s.sandboxResult) then GatePassed(env, s.keys, s.patch, w.attemptRuns)
        else s.postSignature == env.parse(s.sandboxResult.value.logsTail, s.keys.entryKind, s.keys.workspacePath))
  }

  /** The last run was of this source's first test, in the session file, on exactly this tree, and passed. */
  predicate TestRan(env: Env, keys: SessionKeys, source: string, tree: Workspace, runs: seq<SandboxRun>) {
    && runs != []
    && runs[|runs| - 1].command == OneTest(keys.testPath + "::" + env.firstTest(source))
    && runs[|runs| - 1].tree == tree && runs[|runs| - 1].result.verdict == Passed
  }

  /** A kept test is recorded under its own id, and on a green tree it was run. */
  predicate TestPassed(env: Env, s: State, w: World) {
    s.regressionTest.Some? ==>
      var test := s.regressionTest.value;
      && test == RegressionTest(s.keys.testPath, s.keys.testPath + "::" + env.firstTest(test.source), test.source)
      && (Green(s.sandboxResult) ==> TestRan(env, s.keys, test.source, w.work, w.attemptRuns))
  }

  predicate Evidenced(env: Env, m: Machine) {
    match m.pc
    case Validate =>
      && m.state.patch.Some? && m.world.attemptRuns == [] && m.world.fixerCalls != []
      && env.fixer(|m.world.fixerCalls| - 1).outcome == Produced(m.state.patch.value)
    case Immunize => Validated(env, m.state, m.world)
    case ReportCommit => Validated(env, m.state, m.world) && TestPassed(env, m.state, m.world)
    case _ => true
  }

  /** The commit records the patch of Corrector call `attempt`; the tree committed holds exactly the files its
      reproduction ran on; and that run was green, with the protected tests holding and any kept test passing
      on the very tree committed, or it showed an error other than the healed one. */
  predicate Justified(env: Env, e: Evidence, tree: Workspace, healed: Signature) {
    var keys := EntryKeys(env);
    && e.patch.Some? && env.fixer(e.attempt).outcome == Produced(e.patch.value)
    && e.runs != [] && e.runs[0].command == keys.reproduceCmd && e.runs[0].tree.files == tree.files
    && var result := e.runs[0].result;
       if result.verdict == Passed then
         && GatePassed(env, keys, e.patch, e.runs)
         && (e.test.Some? ==> TestRan(env, keys, e.test.value, tree, e.runs))
       else
         var shown := env.parse(result.logsTail, keys.entryKind, keys.workspacePath);
         shown.Some? && !Matches(shown.value, Some(healed))
  }

  predicate AllJustified(env: Env, m: Machine) {
    && |m.world.evidence| == |m.world.commits| == |m.state.resolvedErrors|
    && forall i :: 0 <= i < |m.world.commits| ==>
         Justified(env, m.world.evidence[i], m.world.commits[i].tree, m.state.resolvedErrors[i].signature)
  }

  lemma ImmunizeRuns(env: Env, s: State, w: World)
    ensures var o := ImmunizeOutcome(env, s, w);
      && w.attemptRuns <= o.world.attemptRuns
      && TestPassed(env, s.(regressionTest := o.test), o.world)
  {
    hide AppendTest;
  }

  lemma EvidencedValidate(env: Env, m: Machine)
    requires m.pc == Validate && Evidenced(env, m)
    ensures Evidenced(env, After(m, ValidateNode(env, m.state, m.world)))
  {
    hide Matches;
  }

  lemma EvidencedImmunize(env: Env, m: Machine)
    requires m.pc == Immunize && Validated(env, m.state, m.world)
    ensures var m' := Step(env, m);
      m'.pc == ReportCommit && Validated(env, m'.state, m'.world) && TestPassed(env, m'.state, m'.world)
  {
    hide Step, SameFlags, NoAttempt, ImmunizeOutcome, GateCommand, TestPassed, Green;
    StepHasEffect(env, m);
    ImmunizeRuns(env, m.state, m.world);
    TestOfOutcome(env, m);
  }

  lemma EvidencedFix(env: Env, m: Machine)
    requires m.pc == Fix
    ensures Evidenced(env, Step(env, m))
  {
    hide Step, SameFlags, SameHistory, Validated, TestPassed;
    StepHasEffect(env, m);
  }

  lemma EvidencedStep(env: Env, m: Machine)
    requires m.pc != End && Evidenced(env, m)
    ensures Evidenced(env, Step(env, m))
  {
    match m.pc {
      case Validate => hide ValidateNode, After, Evidenced; EvidencedValidate(env, m);
      case Immunize => hide Step, Validated, TestPassed; EvidencedImmunize(env, m);
      case Fix => hide Step, Evidenced; EvidencedFix(env, m);
      case _ => hide Execute, Validated, TestPassed; NothingToShow(m);
    }
  }

  /** No other node leads on to a validation, an immunisation or a commit. */
  lemma NothingToShow(m: Machine)
    requires m.pc in {Bootstrap, ReportCommit, Rollback, PostMortem}
    ensures forall s :: Next(m.pc, s) !in {Validate, Immunize, ReportCommit}
  {
  }

  lemma TestOfOutcome(env: Env, m: Machine)
    requires m.pc == Immunize
    ensures TestPassed(env, Step(env, m).state, Step(env, m).world)
  {
    hide Step, TestPassed, ImmunizeOutcome, SameFlags, SameCalls;
    StepHasEffect(env, m);
    ImmunizeRuns(env, m.state, m.world);
    SameTest(env, m.state.(regressionTest := ImmunizeOutcome(env, m.state, m.world).test), Step(env, m).state, Step(env, m).world);
  }

  lemma SameTest(env: Env, s: State, s': State, w: World)
    requires s.sandboxResult == s'.sandboxResult && s.regressionTest == s'.regressionTest && s.keys == s'.keys
    ensures TestPassed(env, s, w) <==> TestPassed(env, s', w)
  {
  }

  /** The commit about to be made is justified by the evidence recorded with it. */
  lemma NewCommitIsJustified(env: Env, m: Machine)
    requires m.pc == ReportCommit && Evidenced(env, m) && Control(env, m) && KeysFixed(env, m)
    requires PostParsed(env, m.state)
    ensures Justified(env, NewEvidence(m.state, m.world), m.world.work, Healed(m.state))
  {
    hide GatePassed, GateCommand, Matches, EntryKeys, Green;
    if m.state.postSignature.Some? && m.state.signature.None? {
      UsableNeverMatchesFallback(m.state.postSignature.value, m.state.keys.entryKind);
    }
    assert Green(m.state.sandboxResult) <==> m.state.sandboxResult.value.verdict == Passed by { GreenMeansPassed(m.state.sandboxResult); }
  }

  lemma GreenMeansPassed(result: Option<SandboxResult>)
    ensures Green(result) <==> result.Some? && result.value.verdict == Passed
  {
  }

  lemma JustifiedReportCommit(env: Env, m: Machine)
    requires m.pc == ReportCommit && Evidenced(env, m) && Control(env, m) && KeysFixed(env, m)
    requires AllJustified(env, m) && PostParsed(env, m.state)
    ensures AllJustified(env, Step(env, m))
  {
    hide Step, Justified, Evidenced, Control, KeysFixed, PostParsed, NewEvidence, Healed, Message, Sha, ChainGoesOn,
      SameAttempt, SameFlags, SameCalls, NoAttempt;
    StepHasEffect(env, m);
    NewCommitIsJustified(env, m);
  }

  lemma JustifiedStep(env: Env, m: Machine)
    requires m.pc != End && Evidenced(env, m) && Control(env, m) && KeysFixed(env, m)
    requires AllJustified(env, m) && PostParsed(env, m.state)
    ensures AllJustified(env, Step(env, m))
  {
    if m.pc == ReportCommit {
      JustifiedReportCommit(env, m);
    } else {
      hide Step, Justified, Evidenced, Control, KeysFixed, PostParsed, SameAttempt, SameFlags, SameCalls, NoAttempt,
        ImmunizeOutcome, NewRecord, ResetTree;
      StepHasEffect(env, m);
    }
  }
}
