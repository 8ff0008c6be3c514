/** What one step changes and what it leaves alone, field by field, for the proofs that need no node's body. */
module Effects {
  import opened Wrappers
  import opened Domain
  import opened HealingState
  import opened Nodes
  import opened Machine

  /** What the run has to show for itself: only rollback, commit and bootstrap may change it. */
  predicate SameHistory(m: Machine, m': Machine) {
    var s, s', w, w' := m.state, m'.state, m.world, m'.world;
    && s'.keys == s.keys && s'.signature == s.signature
    && s'.attemptCount == s.attemptCount && s'.cycleIndex == s.cycleIndex
    && s'.failedAttempts == s.failedAttempts && s'.resolvedErrors == s.resolvedErrors
    && w'.head == w.head && w'.commits == w.commits && w'.evidence == w.evidence
  }

  /** The evidence of the current attempt. */
  predicate SameAttempt(s: State, s': State) {
    && s'.patch == s.patch && s'.sandboxResult == s.sandboxResult && s'.postSignature == s.postSignature
    && s'.postOutput == s.postOutput && s'.regressionDetected == s.regressionDetected
    && s'.failureOutput == s.failureOutput
  }

  predicate NoAttempt(s: State) {
    s.patch.None? && s.sandboxResult.None? && s.postSignature.None? && s.postOutput == ""
  }

  predicate SameFlags(s: State, s': State) {
    s'.isResolved == s.isResolved && s'.postMortemPath == s.postMortemPath && s'.shouldContinue == s.shouldContinue
  }

  predicate SameCalls(w: World, w': World) {
    && w'.fixerCalls == w.fixerCalls && w'.sandboxCalls == w.sandboxCalls && w'.attemptRuns == w.attemptRuns
    && w'.testerCalls == w.testerCalls && w'.reporterCalls == w.reporterCalls && w'.resets == w.resets
  }

  predicate BootstrapEffect(env: Env, m: Machine, m': Machine) {
    var s, s', w, w' := m.state, m'.state, m.world, m'.world;
    && m'.pc == Fix && s'.keys == EntryKeys(env)
    && s'.failureOutput == EntryOutput(env.request.trigger)
    && s'.signature == env.parse(s'.failureOutput, s'.keys.entryKind, s'.keys.workspacePath)
    && s'.attemptCount == 0 && s'.cycleIndex == 0
    && s'.failedAttempts == s.failedAttempts && s'.resolvedErrors == s.resolvedErrors
    && s' == s.(keys := s'.keys, incidentId := s'.incidentId, signature := s'.signature, failureOutput := s'.failureOutput,
                attemptCount := 0, cycleIndex := 0, isResolved := false, logs := s'.logs)
    && w' == w.(work := w'.work)
    && (w == InitialWorld(env) ==> w'.work == EntryTree(env))
  }

  predicate FixEffect(env: Env, m: Machine, m': Machine) {
    var s, s', w, w' := m.state, m'.state, m.world, m'.world;
    var answer := env.fixer(|w.fixerCalls|);
    && SameHistory(m, m') && SameFlags(s, s')
    && m'.pc == (if answer.outcome.Produced? then Validate else Rollback)
    && s'.patch == (if answer.outcome.Produced? then Some(answer.outcome.patch) else None)
    && SameAttempt(s.(patch := s'.patch), s') && s'.regressionTest == s.regressionTest
    && w'.work == answer.edit(w.work) && |w'.fixerCalls| == |w.fixerCalls| + 1 && w'.attemptRuns == []
    && SameCalls(w.(fixerCalls := w'.fixerCalls, attemptRuns := []), w')
  }

  predicate ValidateEffect(env: Env, m: Machine, m': Machine) {
    var s, s', w, w' := m.state, m'.state, m.world, m'.world;
    && SameHistory(m, m') && SameFlags(s, s')
    && m'.pc in {Immunize, Rollback}
    && s'.patch == s.patch && s'.failureOutput == s.failureOutput && s'.regressionTest == s.regressionTest
    && w'.work == w.work && SameCalls(w.(sandboxCalls := w'.sandboxCalls, attemptRuns := w'.attemptRuns), w')
    && w.sandboxCalls <= w'.sandboxCalls <= w.sandboxCalls + 2
    && (s'.postSignature.Some? ==>
          s'.postSignature == env.parse(s'.postOutput, s'.keys.entryKind, s'.keys.workspacePath))
    && (s'.sandboxResult.Some? && !Green(s'.sandboxResult) && !s'.regressionDetected ==>
          w'.sandboxCalls <= w.sandboxCalls + 1)
    && s'.sandboxResult.Some?
  }

  predicate ImmunizeEffect(env: Env, m: Machine, m': Machine) {
    var s, s', w, w' := m.state, m'.state, m.world, m'.world;
    var o := ImmunizeOutcome(env, s, w);
    && SameHistory(m, m') && SameFlags(s, s') && SameAttempt(s, s')
    && m'.pc == ReportCommit
    && s'.regressionTest == o.test && w' == o.world && w'.work.files == w.work.files
    && SameCalls(w.(sandboxCalls := w'.sandboxCalls, attemptRuns := w'.attemptRuns, testerCalls := w'.testerCalls), w')
  }

  predicate CommitEffect(env: Env, m: Machine, m': Machine) {
    var s, s', w, w' := m.state, m'.state, m.world, m'.world;
    && m'.pc == (if ChainGoesOn(s) then Fix else End)
    && s'.keys == s.keys && s'.failedAttempts == s.failedAttempts
    && s'.resolvedErrors == s.resolvedErrors + [NewEntry(s, w)]
    && w'.commits == w.commits + [NewCommit(env, s, w)] && w'.evidence == w.evidence + [NewEvidence(s, w)]
    && w'.head == w'.work == w.work
    && SameCalls(w.(reporterCalls := w.reporterCalls + 1), w')
    && s'.isResolved && s'.postMortemPath == s.postMortemPath && s'.regressionDetected == s.regressionDetected
    && s'.shouldContinue == ChainGoesOn(s)
    && (if ChainGoesOn(s) then
          && s'.signature == Residual(s) && s'.failureOutput == s.postOutput
          && s'.cycleIndex == s.cycleIndex + 1 < s.keys.cycleBudget && s'.attemptCount == 0 && NoAttempt(s')
        else
          && s'.signature == s.signature && s'.cycleIndex == s.cycleIndex && s'.attemptCount == s.attemptCount
          && SameAttempt(s, s'))
  }

  predicate RollbackEffect(env: Env, m: Machine, m': Machine) {
    var s, s', w, w' := m.state, m'.state, m.world, m'.world;
    && m'.pc == (if s.attemptCount + 1 < s.keys.maxRetries then Fix else PostMortem)
    && s'.keys == s.keys && s'.signature == s.signature && SameFlags(s, s')
    && s'.failedAttempts == s.failedAttempts + [NewRecord(s)] && s'.resolvedErrors == s.resolvedErrors
    && s'.attemptCount == s.attemptCount + 1 && s'.cycleIndex == s.cycleIndex
    && s'.failureOutput == (if s.postOutput != "" then s.postOutput else s.failureOutput)
    && NoAttempt(s') && !s'.regressionDetected && s'.regressionTest == s.regressionTest
    && w'.head == w.head && w'.commits == w.commits && w'.evidence == w.evidence
    && w'.work == ResetTree(env, s, w) && SameCalls(w.(resets := w'.resets), w')
  }

  predicate PostMortemEffect(m: Machine, m': Machine) {
    var s, s', w, w' := m.state, m'.state, m.world, m'.world;
    && SameHistory(m, m') && SameAttempt(s, s') && s'.regressionTest == s.regressionTest
    && m'.pc == End && !s'.isResolved && s'.postMortemPath.Some? && s'.shouldContinue == s.shouldContinue
    && w'.work == w.work && SameCalls(w.(reporterCalls := w.reporterCalls + 1), w')
  }

  /** The step's effect, by node. */
  predicate Effect(env: Env, m: Machine, m': Machine)
    requires m.pc != End
  {
    && m'.trace == m.trace + [m.pc]
    && match m.pc
       case Bootstrap => BootstrapEffect(env, m, m')
       case Fix => FixEffect(env, m, m')
       case Validate => ValidateEffect(env, m, m')
       case Immunize => ImmunizeEffect(env, m, m')
       case ReportCommit => CommitEffect(env, m, m')
       case Rollback => RollbackEffect(env, m, m')
       case PostMortem => PostMortemEffect(m, m')
  }

  lemma BootstrapHas(env: Env, m: Machine)
    requires m.pc == Bootstrap
    ensures BootstrapEffect(env, m, After(m, BootstrapNode(env, m.state, m.world)))
  {
    hide EntryOutput, EntryIncident;
  }

  lemma FixHas(env: Env, m: Machine)
    requires m.pc == Fix
    ensures FixEffect(env, m, After(m, FixNode(env, m.state, m.world)))
  {
    hide BuildContext;
  }

  lemma ValidateHas(env: Env, m: Machine)
    requires m.pc == Validate
    ensures ValidateEffect(env, m, After(m, ValidateNode(env, m.state, m.world)))
  {
    hide GateCommand, Matches;
  }

  lemma ImmunizeHas(env: Env, m: Machine)
    requires m.pc == Immunize
    ensures ImmunizeEffect(env, m, After(m, ImmunizeNode(env, m.state, m.world)))
  {
    hide ImmunizeOutcome;
    ImmunizeFrame(env, m.state, m.world);
  }

  lemma CommitHas(env: Env, m: Machine)
    requires m.pc == ReportCommit
    ensures CommitEffect(env, m, After(m, ReportCommitNode(env, m.state, m.world)))
  {
    hide Residual, NewEntry, NewCommit, NewEvidence, Sha;
  }

  lemma RollbackHas(env: Env, m: Machine)
    requires m.pc == Rollback
    ensures RollbackEffect(env, m, After(m, RollbackNode(env, m.state, m.world)))
  {
    hide NewRecord, Summarise, ResetTree;
  }

  lemma PostMortemHas(env: Env, m: Machine)
    requires m.pc == PostMortem
    ensures PostMortemEffect(m, After(m, PostMortemNode(env, m.state, m.world)))
  {
  }

  /** Every step has its node's effect. */
  lemma StepHasEffect(env: Env, m: Machine)
    requires m.pc != End
    ensures Effect(env, m, Step(env, m))
  {
    hide After, BootstrapNode, FixNode, ValidateNode, ImmunizeNode, ReportCommitNode, RollbackNode, PostMortemNode,
      BootstrapEffect, FixEffect, ValidateEffect, ImmunizeEffect, CommitEffect, RollbackEffect, PostMortemEffect;
    AfterTraces(m, Execute(env, m));
    match m.pc {
      case Bootstrap => BootstrapHas(env, m);
      case Fix => FixHas(env, m);
      case Validate => ValidateHas(env, m);
      case Immunize => ImmunizeHas(env, m);
      case ReportCommit => CommitHas(env, m);
      case Rollback => RollbackHas(env, m);
      case PostMortem => PostMortemHas(env, m);
    }
  }

  lemma AfterTraces(m: Machine, result: Situation)
    requires m.pc != End
    ensures After(m, result).trace == m.trace + [m.pc]
  {
  }
}
