/** What the scratch fields hold at each node, over every run: the invariant behind commit safety,
    the retry decision and the endings. */
module NodeContracts {
  import opened Wrappers
  import opened Domain
  import opened HealingState
  import opened Nodes
  import opened Machine
  import opened Effects

  /** No evidence of an earlier attempt is left. */
  predicate Clean(s: State) {
    s.patch.None? && s.sandboxResult.None? && s.postSignature.None? && s.postOutput == "" && !s.regressionDetected
  }

  /** The last validation went green, or showed an error other than the current one. */
  predicate Progress(s: State) {
    && !s.regressionDetected && s.sandboxResult.Some?
    && (if Green(s.sandboxResult) then s.postSignature.None?
        else s.postSignature.Some? && !Matches(s.postSignature.value, s.signature))
  }

  predicate InBudget(s: State) {
    s.attemptCount < Retries(s.keys) && s.cycleIndex < Cycles(s.keys)
  }

  predicate Control(env: Env, m: Machine) {
    var s := m.state;
    match m.pc
    case Bootstrap => m == Start(env)
    case Fix => Clean(s) && InBudget(s)
    case Validate => Clean(s.(patch := None)) && s.patch.Some? && InBudget(s)
    case Immunize | ReportCommit => s.patch.Some? && Progress(s) && InBudget(s)
    case Rollback =>
      && InBudget(s)
      && (s.patch.None? ==> Clean(s))
      && (s.patch.Some? ==> s.sandboxResult.Some? && !Green(s.sandboxResult))
    case PostMortem => Clean(s) && s.attemptCount == Retries(s.keys) && s.cycleIndex < Cycles(s.keys)
    case End => true
  }

  /** Session-level keys never change once bootstrap has run. */
  predicate KeysFixed(env: Env, m: Machine) {
    m.pc != Bootstrap ==> m.state.keys == EntryKeys(env)
  }

  lemma ControlBootstrap(env: Env, m: Machine)
    requires m.pc == Bootstrap && Control(env, m) && KeysFixed(env, m)
    ensures var m' := After(m, BootstrapNode(env, m.state, m.world)); Control(env, m') && KeysFixed(env, m')
  {
  }

  lemma ControlFix(env: Env, m: Machine)
    requires m.pc == Fix && Control(env, m) && KeysFixed(env, m)
    ensures var m' := After(m, FixNode(env, m.state, m.world)); Control(env, m') && KeysFixed(env, m')
  {
  }

  lemma ControlValidate(env: Env, m: Machine)
    requires m.pc == Validate && Control(env, m) && KeysFixed(env, m)
    ensures var m' := After(m, ValidateNode(env, m.state, m.world)); Control(env, m') && KeysFixed(env, m')
  {
    hide GateCommand, RunSandbox, Matches, EntryKeys;
  }

  lemma ControlImmunize(env: Env, m: Machine)
    requires m.pc == Immunize && Control(env, m) && KeysFixed(env, m)
    ensures var m' := After(m, ImmunizeNode(env, m.state, m.world)); Control(env, m') && KeysFixed(env, m')
  {
    ImmunizeFrame(env, m.state, m.world);
  }

  lemma ControlReportCommit(env: Env, m: Machine)
    requires m.pc == ReportCommit && Control(env, m) && KeysFixed(env, m)
    ensures var m' := After(m, ReportCommitNode(env, m.state, m.world)); Control(env, m') && KeysFixed(env, m')
  {
  }

  lemma ControlRollback(env: Env, m: Machine)
    requires m.pc == Rollback && Control(env, m) && KeysFixed(env, m)
    ensures var m' := After(m, RollbackNode(env, m.state, m.world)); Control(env, m') && KeysFixed(env, m')
  {
  }

  lemma ControlPostMortem(env: Env, m: Machine)
    requires m.pc == PostMortem && Control(env, m) && KeysFixed(env, m)
    ensures var m' := After(m, PostMortemNode(env, m.state, m.world)); Control(env, m') && KeysFixed(env, m')
  {
  }

  lemma ControlStep(env: Env, m: Machine)
    requires m.pc != End && Control(env, m) && KeysFixed(env, m)
    ensures var m' := Step(env, m); Control(env, m') && KeysFixed(env, m')
  {
    match m.pc {
      case Bootstrap => ControlBootstrap(env, m);
      case Fix => ControlFix(env, m);
      case Validate => ControlValidate(env, m);
      case Immunize => ControlImmunize(env, m);
      case ReportCommit => ControlReportCommit(env, m);
      case Rollback => ControlRollback(env, m);
      case PostMortem => ControlPostMortem(env, m);
    }
  }

  lemma QuietStep(env: Env, m: Machine)
    requires m.pc in {Fix, Validate, Immunize, PostMortem}
    ensures SameHistory(m, Step(env, m))
  {
    hide Step;
    StepHasEffect(env, m);
    hide SameHistory, SameAttempt, SameFlags, SameCalls;
  }
}
