/** The path a run takes, what it logs and how it ends. */
module Endings {
  import opened Wrappers
  import opened Domain
  import opened HealingState
  import opened Nodes
  import opened Graph
  import opened Routers
  import opened Machine
  import opened Effects
  import opened NodeContracts
  import opened Ledger

  // --- the path ---------------------------------------------------------------------

  predicate Walk(path: seq<Node>) {
    && path != [] && path[0] == Bootstrap
    && forall i :: 0 <= i < |path| - 1 ==> Edge(path[i], path[i + 1])
  }

  /** The executed nodes followed by the pending one form a walk of the drawn graph. */
  predicate Walked(m: Machine) {
    Walk(m.trace + [m.pc])
  }

  lemma StepFollowsAnEdge(env: Env, m: Machine)
    requires m.pc != End
    ensures Step(env, m).trace == m.trace + [m.pc] && Edge(m.pc, Step(env, m).pc)
  {
    hide Execute;
  }

  lemma WalkedStep(env: Env, m: Machine)
    requires m.pc != End && Walked(m)
    ensures Walked(Step(env, m))
  {
    hide Step;
    StepFollowsAnEdge(env, m);
    var m' := Step(env, m);
    var path, path' := m.trace + [m.pc], m'.trace + [m'.pc];
    forall i | 0 <= i < |path'| - 1 ensures Edge(path'[i], path'[i + 1]) {
      if i < |path| - 1 {
        assert path'[i] == path[i] && path'[i + 1] == path[i + 1];
      } else {
        assert path'[i] == m.pc;
      }
    }
  }

  // --- the log accumulator ------------------------------------------------------------

  function LoggedBy(entry: LogEntry): Node {
    match entry
    case BootstrapEntry(_, _) => Bootstrap
    case FixError | FixNoPatch | FixPatch(_) => Fix
    case ValidateInvalidState | ValidateRegression(_) | ValidateVerdict(_) => Validate
    case ImmunizeSkipped | ImmunizeTargeted(_) | ImmunizeSmoke(_) | ImmunizeNoTest => Immunize
    case ReportCommitSha(_) => ReportCommit
    case RollbackAttempt(_, _) => Rollback
    case PostMortemReport(_) => PostMortem
  }

  /** One entry per node execution, from that node; a smoke test is logged at most once, right before the
      commit that ends the run. */
  predicate Logged(m: Machine) {
    var logs := m.state.logs;
    && |logs| == |m.trace|
    && (forall i :: 0 <= i < |logs| ==> LoggedBy(logs[i]) == m.trace[i])
    && (forall i :: 0 <= i < |logs| && logs[i].ImmunizeSmoke? ==>
          || (m.pc == ReportCommit && Green(m.state.sandboxResult) && i == |logs| - 1)
          || (m.pc == End && i == |logs| - 2))
  }

  lemma ImmunizeEntry(env: Env, s: State, w: World)
    ensures var entry := ImmunizeOutcome(env, s, w).entry;
      LoggedBy(entry) == Immunize && (entry.ImmunizeSmoke? ==> Green(s.sandboxResult))
  {
    hide AppendTest, RunSandbox;
  }

  /** What a node's entry has to satisfy. */
  predicate OwnEntry(m: Machine, result: Situation) {
    && |result.0.logs| == |m.state.logs| + 1 && m.state.logs <= result.0.logs
    && var entry := result.0.logs[|m.state.logs|];
       LoggedBy(entry) == m.pc && (entry.ImmunizeSmoke? ==> Green(result.0.sandboxResult))
  }

  lemma OwnBootstrap(env: Env, m: Machine)
    requires m.pc == Bootstrap
    ensures OwnEntry(m, BootstrapNode(env, m.state, m.world))
  {
  }

  lemma OwnFix(env: Env, m: Machine)
    requires m.pc == Fix
    ensures OwnEntry(m, FixNode(env, m.state, m.world))
  {
    hide BuildContext, Green;
  }

  lemma OwnValidate(env: Env, m: Machine)
    requires m.pc == Validate
    ensures OwnEntry(m, ValidateNode(env, m.state, m.world))
  {
    hide GateCommand, RunSandbox, Green;
  }

  lemma OwnImmunize(env: Env, m: Machine)
    requires m.pc == Immunize
    ensures OwnEntry(m, ImmunizeNode(env, m.state, m.world))
  {
    hide ImmunizeOutcome, LoggedBy;
    ImmunizeEntry(env, m.state, m.world);
  }

  lemma OwnReportCommit(env: Env, m: Machine)
    requires m.pc == ReportCommit
    ensures OwnEntry(m, ReportCommitNode(env, m.state, m.world))
  {
    hide Sha, NewEntry, NewCommit, NewEvidence, ChainGoesOn, Residual, Green;
  }

  lemma OwnRollback(env: Env, m: Machine)
    requires m.pc == Rollback
    ensures OwnEntry(m, RollbackNode(env, m.state, m.world))
  {
    hide NewRecord, Summarise, ResetTree, Green;
  }

  lemma OwnPostMortem(env: Env, m: Machine)
    requires m.pc == PostMortem
    ensures OwnEntry(m, PostMortemNode(env, m.state, m.world))
  {
    hide Green;
  }

  /** Each node logs exactly one entry, of its own kinds. */
  lemma ExecuteLogs(env: Env, m: Machine)
    requires m.pc != End
    ensures OwnEntry(m, Execute(env, m))
  {
    hide BootstrapNode, FixNode, ValidateNode, ImmunizeNode, ReportCommitNode, RollbackNode, PostMortemNode, OwnEntry;
    match m.pc {
      case Bootstrap => OwnBootstrap(env, m);
      case Fix => OwnFix(env, m);
      case Validate => OwnValidate(env, m);
      case Immunize => OwnImmunize(env, m);
      case ReportCommit => OwnReportCommit(env, m);
      case Rollback => OwnRollback(env, m);
      case PostMortem => OwnPostMortem(env, m);
    }
  }

  lemma LoggedAfter(m: Machine, result: Situation)
    requires m.pc != End && Logged(m) && OwnEntry(m, result)
    requires m.pc == ReportCommit && Green(m.state.sandboxResult) ==> !result.0.shouldContinue
    ensures Logged(After(m, result))
  {
    hide Green, RouteAfterFix, RouteAfterValidate, RouteAfterRollback;
  }

  lemma GreenCommitsEnd(env: Env, m: Machine)
    requires m.pc == ReportCommit && Green(m.state.sandboxResult)
    ensures !Execute(env, m).0.shouldContinue
  {
    hide NewEntry, NewCommit, NewEvidence, Sha;
  }

  lemma LoggedStep(env: Env, m: Machine)
    requires m.pc != End && Logged(m)
    ensures Logged(Step(env, m))
  {
    hide Logged, After, Execute, OwnEntry, Green;
    ExecuteLogs(env, m);
    if m.pc == ReportCommit && Green(m.state.sandboxResult) {
      GreenCommitsEnd(env, m);
    }
    LoggedAfter(m, Execute(env, m));
  }

  // --- the two endings ----------------------------------------------------------------

  predicate GreenCommit(e: Evidence) {
    e.runs != [] && e.runs[0].result.verdict == Passed
  }

  /** A run that is over went through FINISH or through the post-mortem, and the final state tells which. */
  predicate Ended(env: Env, m: Machine) {
    var s, w, keys := m.state, m.world, EntryKeys(env);
    if m.pc != End then s.postMortemPath.None?
    else if m.trace == [] then false
    else if m.trace[|m.trace| - 1] == ReportCommit then
      && s.isResolved && s.postMortemPath.None?
      && 1 <= |w.evidence| == |w.commits| <= Cycles(keys)
      && |w.commits| == s.cycleIndex + 1 && s.attemptCount < Retries(keys)
      && (Green(s.sandboxResult) || |w.commits| == Cycles(keys))
      && (Green(s.sandboxResult) <==> GreenCommit(w.evidence[|w.evidence| - 1]))
    else
      && m.trace[|m.trace| - 1] == PostMortem
      && !s.isResolved && s.postMortemPath.Some? && s.sandboxResult.None?
      && |w.commits| == s.cycleIndex < Cycles(keys) && s.attemptCount == Retries(keys)
  }

  /** A commit made on a green tree ends the run: every earlier commit was made on a red one. */
  predicate GreenIsLast(m: Machine) {
    forall i :: 0 <= i < |m.world.evidence| && GreenCommit(m.world.evidence[i]) ==>
      m.pc == End && i == |m.world.evidence| - 1
  }

  lemma NewEvidenceIsGreen(env: Env, m: Machine)
    requires m.pc == ReportCommit
    requires m.world.attemptRuns != [] && m.state.sandboxResult == Some(m.world.attemptRuns[0].result)
    ensures GreenCommit(NewEvidence(m.state, m.world)) <==> Green(m.state.sandboxResult)
  {
  }

  lemma EndedReportCommit(env: Env, m: Machine)
    requires m.pc == ReportCommit && Control(env, m) && KeysFixed(env, m) && Counted(m) && Ended(env, m)
    requires m.world.attemptRuns != [] && m.state.sandboxResult == Some(m.world.attemptRuns[0].result)
    requires GreenIsLast(m)
    ensures Ended(env, Step(env, m)) && GreenIsLast(Step(env, m))
  {
    hide Step, EntryKeys, Matches, NewEvidence, NewCommit, NewEntry, GreenCommit, SameFlags, SameCalls, NoAttempt;
    StepHasEffect(env, m);
    NewEvidenceIsGreen(env, m);
  }

  lemma EndedStep(env: Env, m: Machine)
    requires m.pc != End && Control(env, m) && KeysFixed(env, m) && Ended(env, m) && GreenIsLast(m) && Counted(m)
    requires m.pc == ReportCommit ==>
      m.world.attemptRuns != [] && m.state.sandboxResult == Some(m.world.attemptRuns[0].result)
    ensures Ended(env, Step(env, m)) && GreenIsLast(Step(env, m))
  {
    if m.pc == ReportCommit {
      hide Step, Ended, GreenIsLast, Control, KeysFixed, Counted;
      EndedReportCommit(env, m);
    } else {
      hide Step, EntryKeys, Matches, GreenCommit, SameCalls, NewRecord, ResetTree, ImmunizeOutcome;
      StepHasEffect(env, m);
    }
  }
}
