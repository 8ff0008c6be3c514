/** The bound on a run's length is attained, so a node limit is safe exactly when it reaches the bound. */
module WorstCase {
  import opened Wrappers
  import opened Domain
  import opened HealingState
  import opened Nodes
  import opened Machine
  import opened Effects
  import opened NodeContracts
  import opened Budgets
  import opened Invariants
  import Theorems

  /** Outputs of three failing runs: two different errors and one nothing can be read from. */
  datatype Outputs = Outputs(first: string, second: string, quiet: string)

  function Parsed(env: Env, text: string): Option<Signature> {
    env.parse(text, EntryKeys(env).entryKind, EntryKeys(env).workspacePath)
  }

  predicate Distinct(env: Env, o: Outputs) {
    && Parsed(env, o.first).Some? && Parsed(env, o.second).Some? && Parsed(env, o.quiet).None?
    && !Matches(Parsed(env, o.second).value, Parsed(env, o.first))
    && !Matches(Parsed(env, o.second).value, Parsed(env, EntryOutput(env.request.trigger)))
  }

  /** The error that surfaces at the end of each cycle alternates. */
  function Surfacing(o: Outputs, cycle: nat): string {
    if cycle % 2 == 0 then o.second else o.first
  }

  /** The cycle and attempt that the k-th sandbox call belongs to when every attempt makes one call. */
  function Position(call: nat, retries: nat): (p: (nat, nat))
    requires retries > 0
    ensures p.1 < retries
  {
    if call == 0 then (0, 0)
    else
      var (cycle, attempt) := Position(call - 1, retries);
      if attempt + 1 < retries then (cycle, attempt + 1) else (cycle + 1, 0)
  }

  /** The sandbox reports nothing readable until an error's last retry, and then another error. */
  function Script(o: Outputs, retries: nat, call: nat): SandboxResult
    requires retries > 0
  {
    var (cycle, attempt) := Position(call, retries);
    SandboxResult(Failed, Some(1), if attempt == retries - 1 then Surfacing(o, cycle) else o.quiet)
  }

  /** The same request and parser, with a Corrector that always claims a patch and never changes a file. */
  function Adversary(env: Env, o: Outputs): Env {
    var retries: nat := Retries(EntryKeys(env));
    env.(fixer := (_: nat) => FixAnswer((w: Workspace) => w, Produced(Patch(""))),
         sandbox := (call: nat) => Script(o, retries, call))
  }

  /** Same request, same settings, same parser: only the agents and the sandbox may answer differently. */
  ghost predicate SameSetting(env: Env, other: Env) {
    && other.request == env.request && other.settings == env.settings
    && other.parse == env.parse && other.defaultTestPath == env.defaultTestPath
  }

  ghost predicate Adversarial(env: Env, o: Outputs) {
    && (forall k: nat :: env.fixer(k).outcome == Produced(Patch("")))
    && (forall k: nat :: env.sandbox(k) == Script(o, Retries(EntryKeys(env)), k))
  }

  lemma AdversaryIsAdversarial(env: Env, o: Outputs)
    ensures var env' := Adversary(env, o);
      && Adversarial(env', o)
      && SameSetting(env, env') && EntryKeys(env') == EntryKeys(env)
      && (Distinct(env, o) ==> Distinct(env', o))
  {
    var env' := Adversary(env, o);
    assert EntryKeys(env') == EntryKeys(env);
    hide EntryKeys, Retries, Script;
  }

  // --- the adversarial run --------------------------------------------------------------

  function Expected(env: Env, o: Outputs, cycle: nat): Option<Signature> {
    if cycle == 0 then Parsed(env, EntryOutput(env.request.trigger))
    else Parsed(env, Surfacing(o, cycle - 1))
  }

  /** The run has wasted nothing so far, and is where the script takes it. */
  predicate OnScript(env: Env, o: Outputs, m: Machine) {
    var s, w, retries := m.state, m.world, Retries(EntryKeys(env));
    && |m.trace| + Remaining(env, m) == Bound(EntryKeys(env))
    && (m.pc == Bootstrap ==> w.sandboxCalls == 0)
    && (m.pc != Bootstrap && m.pc != End ==> s.signature == Expected(env, o, s.cycleIndex))
    && (m.pc in {Fix, Validate} ==> Position(w.sandboxCalls, retries) == (s.cycleIndex, s.attemptCount))
    && (m.pc in {Immunize, ReportCommit, Rollback} ==>
          w.sandboxCalls > 0 && Position(w.sandboxCalls - 1, retries) == (s.cycleIndex, s.attemptCount))
    && (m.pc == Rollback ==> s.attemptCount < retries - 1)
    && (m.pc in {Immunize, ReportCommit} ==>
          && s.attemptCount == retries - 1 && !Green(s.sandboxResult)
          && s.postSignature == Parsed(env, Surfacing(o, s.cycleIndex)))
    && (m.pc == End ==> s.isResolved && s.sandboxResult.Some? && !Green(s.sandboxResult))
    && m.pc != PostMortem
  }

  lemma SurfacingDiffers(env: Env, o: Outputs, cycle: nat)
    requires Distinct(env, o)
    ensures Parsed(env, Surfacing(o, cycle)).Some?
    ensures !Matches(Parsed(env, Surfacing(o, cycle)).value, Expected(env, o, cycle))
  {
  }

  lemma FailingValidation(env: Env, o: Outputs, s: State, w: World)
    requires Adversarial(env, o) && Distinct(env, o) && s.keys == EntryKeys(env) && s.keys.workspacePath != ""
    requires !s.regressionDetected
    requires Position(w.sandboxCalls, Retries(EntryKeys(env))) == (s.cycleIndex, s.attemptCount)
    ensures var (s', w') := ValidateNode(env, s, w);
      && w'.sandboxCalls == w.sandboxCalls + 1 && s'.sandboxResult.Some? && !Green(s'.sandboxResult) && !s'.regressionDetected
      && s'.postSignature == (if s.attemptCount == Retries(EntryKeys(env)) - 1
                              then Parsed(env, Surfacing(o, s.cycleIndex)) else None)
  {
    var result := env.sandbox(w.sandboxCalls);
    assert result.verdict == Failed;
    hide EntryKeys, Retries, Position, GateCommand;
  }

  lemma ScriptValidate(env: Env, o: Outputs, m: Machine)
    requires Adversarial(env, o) && Distinct(env, o) && m.pc == Validate && OnScript(env, o, m)
    requires Control(env, m) && KeysFixed(env, m) && EntryKeys(env).workspacePath != ""
    ensures OnScript(env, o, Step(env, m))
  {
    hide ValidateNode, Adversarial, Distinct, Surfacing, Matches, EntryKeys, Bound, LaterCycles, Retries, Position, Parsed,
      Expected, Cycles;
    FailingValidation(env, o, m.state, m.world);
    SurfacingDiffers(env, o, m.state.cycleIndex);
    QuietStep(env, m);
  }

  lemma NextPosition(call: nat, retries: nat)
    requires retries > 0
    ensures var (cycle, attempt) := Position(call, retries);
      Position(call + 1, retries) == if attempt + 1 < retries then (cycle, attempt + 1) else (cycle + 1, 0)
  {
  }

  lemma ScriptReportCommit(env: Env, o: Outputs, m: Machine)
    requires Distinct(env, o) && m.pc == ReportCommit && OnScript(env, o, m)
    requires Control(env, m) && KeysFixed(env, m)
    ensures OnScript(env, o, Step(env, m))
  {
    hide Step, Bound, LaterCycles, Surfacing, Distinct, Matches, EntryKeys, Retries, Position, NewCommit, NewEntry, NewEvidence,
      Parsed, EntryOutput, Clean;
    var keys, s := EntryKeys(env), m.state;
    StepHasEffect(env, m);
    SurfacingDiffers(env, o, s.cycleIndex);
    NextPosition(m.world.sandboxCalls - 1, Retries(keys));
    LaterCyclesDecrease(keys, s.cycleIndex);
    if s.cycleIndex + 1 >= keys.cycleBudget {
      NoLaterCycles(keys, s.cycleIndex);
    }
  }

  lemma NoLaterCycles(keys: SessionKeys, cycle: nat)
    requires cycle < Cycles(keys) && cycle + 1 >= keys.cycleBudget
    ensures LaterCycles(keys, cycle) == 0
  {
  }

  lemma ScriptRollback(env: Env, o: Outputs, m: Machine)
    requires m.pc == Rollback && OnScript(env, o, m) && Control(env, m) && KeysFixed(env, m)
    ensures OnScript(env, o, Step(env, m))
  {
    hide Step, Bound, LaterCycles, Surfacing, Matches, EntryKeys, Position, NewRecord, ResetTree, Expected, Parsed, EntryOutput,
      Green, Clean;
    StepHasEffect(env, m);
    NextPosition(m.world.sandboxCalls - 1, Retries(EntryKeys(env)));
  }

  lemma ScriptBootstrap(env: Env, o: Outputs, m: Machine)
    requires m.pc == Bootstrap && OnScript(env, o, m) && Control(env, m)
    ensures OnScript(env, o, Step(env, m))
  {
    hide Step, EntryKeys, LaterCycles, Retries, Bound, Green, Surfacing, EntryOutput;
    StepHasEffect(env, m);
    LaterCyclesDecrease(EntryKeys(env), 0);
  }

  lemma ScriptQuiet(env: Env, o: Outputs, m: Machine)
    requires Adversarial(env, o) && m.pc in {Fix, Immunize} && OnScript(env, o, m)
    requires KeysFixed(env, m)
    ensures OnScript(env, o, Step(env, m))
  {
    hide Step, Bound, LaterCycles, EntryKeys, Adversarial, Expected, Surfacing, Parsed, Position, Retries, Green, ImmunizeOutcome;
    TheFixerClaims(env, o, |m.world.fixerCalls|);
    ImmunizeCalls(env, m.state, m.world);
    StepHasEffect(env, m);
  }

  lemma ScriptStep(env: Env, o: Outputs, m: Machine)
    requires Adversarial(env, o) && Distinct(env, o) && m.pc != End && OnScript(env, o, m)
    requires Control(env, m) && KeysFixed(env, m) && EntryKeys(env).workspacePath != ""
    ensures OnScript(env, o, Step(env, m))
  {
    assert m.pc != PostMortem;
    hide OnScript, Step, Distinct, Adversarial, Control, KeysFixed;
    match m.pc {
      case Bootstrap => ScriptBootstrap(env, o, m);
      case Validate => ScriptValidate(env, o, m);
      case ReportCommit => ScriptReportCommit(env, o, m);
      case Rollback => ScriptRollback(env, o, m);
      case _ => ScriptQuiet(env, o, m);
    }
  }

  lemma TheFixerClaims(env: Env, o: Outputs, k: nat)
    requires Adversarial(env, o)
    ensures env.fixer(k).outcome == Produced(Patch(""))
  {
  }

  lemma {:induction false} ScriptAlways(env: Env, o: Outputs, n: nat)
    requires Adversarial(env, o) && Distinct(env, o) && EntryKeys(env).workspacePath != ""
    ensures OnScript(env, o, Run(env, n))
  {
    hide OnScript, Inv, Step, Control, KeysFixed, Adversarial, Distinct, EntryKeys;
    if n == 0 {
      ScriptStart(env, o);
    } else {
      ScriptAlways(env, o, n - 1);
      InvAlways(env, n - 1);
      var m := Run(env, n - 1);
      if m.pc != End {
        InvGivesControl(env, m);
        ScriptStep(env, o, m);
      }
    }
  }

  lemma ScriptStart(env: Env, o: Outputs)
    ensures OnScript(env, o, Start(env))
  {
    hide EntryKeys, Bound;
  }

  // --- what follows ------------------------------------------------------------------------

  lemma {:induction false} TraceAtMost(env: Env, n: nat)
    ensures |Run(env, n).trace| <= n
  {
    hide BootstrapNode, FixNode, ValidateNode, ImmunizeNode, ReportCommitNode, RollbackNode, PostMortemNode;
    if n > 0 {
      TraceAtMost(env, n - 1);
    }
  }

  lemma AdversarialRunIsLong(env: Env, o: Outputs)
    requires Adversarial(env, o) && Distinct(env, o) && EntryKeys(env).workspacePath != ""
    ensures var bound := Bound(EntryKeys(env)); var last := Run(env, bound);
      && last.pc == End && |last.trace| == bound && Run(env, bound - 1).pc != End
      && last.state.isResolved && last.state.sandboxResult.Some? && !Green(last.state.sandboxResult)
  {
    hide Run, EntryKeys, Bound, Distinct, Adversarial, Position, Expected, Retries, Green, Parsed;
    var bound := Bound(EntryKeys(env));
    ScriptAlways(env, o, bound);
    ScriptAlways(env, o, bound - 1);
    Theorems.EveryRunEnds(env, bound);
    TraceAtMost(env, bound - 1);
  }

  /** Some sandbox makes the run as long as the bound allows, with no node execution to spare; and although its
      last validation was red, that run ends resolved. */
  lemma BoundIsAttained(env: Env, o: Outputs)
    requires EntryKeys(env).workspacePath != "" && Distinct(env, o)
    ensures var env', bound := Adversary(env, o), Bound(EntryKeys(env)); var last := Run(env', bound);
      && SameSetting(env, env')
      && last.pc == End && |last.trace| == bound && Run(env', bound - 1).pc != End
      && last.state.isResolved && last.state.sandboxResult.Some? && !Green(last.state.sandboxResult)
  {
    hide Run, Bound, Adversarial, Adversary, Distinct, EntryKeys, Green;
    AdversaryIsAdversarial(env, o);
    AdversarialRunIsLong(Adversary(env, o), o);
  }

  // --- no workspace --------------------------------------------------------------------

  /** The longest run: without a workspace every validation fails alike, so the first error's retries are all. */
  function LongestRun(keys: SessionKeys): nat {
    if keys.workspacePath == "" then 3 * Retries(keys) + 2 else Bound(keys)
  }

  /** Node executions left to a run that never gets past its first error. */
  function Left(env: Env, m: Machine): int {
    var retries := Retries(EntryKeys(env));
    var attempts := retries - m.state.attemptCount;
    match m.pc
    case Bootstrap => 3 * retries + 2
    case Fix => 3 * attempts + 1
    case Validate => 3 * attempts
    case Rollback => 3 * attempts - 1
    case PostMortem => 1
    case _ => 0
  }

  predicate Stuck(env: Env, m: Machine, claims: bool) {
    && m.pc != Immunize && m.pc != ReportCommit
    && 0 <= Left(env, m) && (m.pc != End ==> Left(env, m) > 0) && |m.trace| + Left(env, m) <= 3 * Retries(EntryKeys(env)) + 2
    && (claims ==> |m.trace| + Left(env, m) == 3 * Retries(EntryKeys(env)) + 2)
  }

  ghost predicate AlwaysClaims(env: Env) {
    forall k: nat :: env.fixer(k).outcome == Produced(Patch(""))
  }

  lemma NoWorkspaceValidation(env: Env, m: Machine)
    requires m.pc == Validate && Control(env, m) && m.state.keys.workspacePath == ""
    ensures Step(env, m).pc == Rollback
  {
    hide Matches;
  }

  lemma KeepsAttempt(env: Env, m: Machine)
    requires m.pc in {Fix, Validate, PostMortem}
    ensures Step(env, m).state.attemptCount == m.state.attemptCount
  {
    hide Step;
    QuietStep(env, m);
  }

  lemma StuckStep(env: Env, m: Machine, claims: bool)
    requires m.pc != End && Stuck(env, m, claims) && Control(env, m) && KeysFixed(env, m)
    requires EntryKeys(env).workspacePath == "" && (claims ==> AlwaysClaims(env))
    ensures Stuck(env, Step(env, m), claims)
  {
    hide Step, EntryKeys, AlwaysClaims, NewRecord, ResetTree, SameFlags, SameCalls, NoAttempt, SameHistory, Clean;
    if m.pc == Validate {
      NoWorkspaceValidation(env, m);
    }
    ControlStep(env, m);
    StepHasEffect(env, m);
    if m.pc == Fix || m.pc == Validate {
      KeepsAttempt(env, m);
    }
    if claims {
      Claims(env, |m.world.fixerCalls|);
    }
  }

  lemma Claims(env: Env, k: nat)
    requires AlwaysClaims(env)
    ensures env.fixer(k).outcome == Produced(Patch(""))
  {
  }

  lemma {:induction false} StuckAlways(env: Env, n: nat, claims: bool)
    requires EntryKeys(env).workspacePath == "" && (claims ==> AlwaysClaims(env))
    ensures Stuck(env, Run(env, n), claims)
  {
    hide Stuck, Inv, Step, Control, KeysFixed, AlwaysClaims, EntryKeys;
    if n == 0 {
      StuckStart(env, claims);
    } else {
      StuckAlways(env, n - 1, claims);
      InvAlways(env, n - 1);
      if Run(env, n - 1).pc != End {
        InvGivesControl(env, Run(env, n - 1));
        StuckStep(env, Run(env, n - 1), claims);
      }
    }
  }

  lemma StuckStart(env: Env, claims: bool)
    ensures Stuck(env, Start(env), claims)
  {
    hide EntryKeys;
  }

  /** A run without a workspace is over after 3N + 2 node executions, and a Corrector that always claims a patch
      needs them all. */
  lemma NoWorkspaceRuns(env: Env, n: nat)
    requires EntryKeys(env).workspacePath == ""
    ensures n >= LongestRun(EntryKeys(env)) ==> Run(env, n).pc == End
    ensures AlwaysClaims(env) && n < LongestRun(EntryKeys(env)) ==> Run(env, n).pc != End
  {
    hide Run, EntryKeys, AlwaysClaims, Retries;
    StuckAlways(env, n, false);
    Theorems.UnfinishedRunsAreLong(env, n);
    TraceAtMost(env, n);
    if AlwaysClaims(env) {
      StuckAlways(env, n, true);
    }
  }

  // --- safe limits -----------------------------------------------------------------------

  lemma SafeLimit(env: Env, other: Env, limit: nat)
    requires SameSetting(env, other) && LongestRun(EntryKeys(env)) <= limit
    ensures Run(other, limit).pc == End
  {
    assert EntryKeys(other) == EntryKeys(env);
    hide EntryKeys, Run, Bound;
    if EntryKeys(env).workspacePath == "" {
      NoWorkspaceRuns(other, limit);
    } else {
      Theorems.EveryRunEnds(other, limit);
    }
  }

  /** Every limit below the longest run is exceeded by some run in the same setting. */
  lemma UnsafeLimit(env: Env, o: Outputs, limit: nat) returns (worst: Env)
    requires EntryKeys(env).workspacePath != "" ==> Distinct(env, o)
    requires limit < LongestRun(EntryKeys(env))
    ensures SameSetting(env, worst) && Run(worst, limit).pc != End
  {
    worst := Adversary(env, o);
    AdversaryIsAdversarial(env, o);
    AdversaryClaims(env, o);
    hide EntryKeys, Bound, Distinct, Adversary, Run, Adversarial, AlwaysClaims, SameSetting;
    if EntryKeys(env).workspacePath == "" {
      NoWorkspaceRuns(worst, limit);
    } else {
      BoundIsAttained(env, o);
      if Run(worst, limit).pc == End {
        EndsStay(worst, limit, Bound(EntryKeys(env)) - 1);
      }
    }
  }

  lemma AdversaryClaims(env: Env, o: Outputs)
    ensures AlwaysClaims(Adversary(env, o))
  {
  }

  /** A limit on node executions is safe for every agent and sandbox exactly when it reaches the longest run. */
  lemma NodeLimitIsSafeExactlyWhen(env: Env, o: Outputs, limit: nat)
    requires EntryKeys(env).workspacePath != "" ==> Distinct(env, o)
    ensures (forall other | SameSetting(env, other) :: Run(other, limit).pc == End) <==> LongestRun(EntryKeys(env)) <= limit
  {
    hide EntryKeys, LongestRun, Distinct, SameSetting, Run;
    if LongestRun(EntryKeys(env)) <= limit {
      forall other | SameSetting(env, other) ensures Run(other, limit).pc == End {
        SafeLimit(env, other, limit);
      }
    } else {
      var worst := UnsafeLimit(env, o, limit);
      assert SameSetting(env, worst) && Run(worst, limit).pc != End;
    }
  }

  // --- resolved and red ------------------------------------------------------------------

  /** Whenever the run ends resolved, its last validation was green. */
  predicate ResolvedMeansGreen(m: Machine) {
    m.pc == End && m.state.isResolved ==> Green(m.state.sandboxResult)
  }

  lemma {:induction false} NeverResolved(env: Env, n: nat)
    requires EntryKeys(env).workspacePath == ""
    ensures !Run(env, n).state.isResolved
  {
    hide Step, EntryKeys, Left, SameAttempt, SameCalls, NoAttempt;
    if n > 0 {
      NeverResolved(env, n - 1);
      StuckAlways(env, n - 1, false);
      if Run(env, n - 1).pc != End {
        StepHasEffect(env, Run(env, n - 1));
      }
    }
  }

  /** `is_resolved` means green for every agent and sandbox exactly when there is no workspace, and then no run is
      ever resolved. With one, some sandbox ends the session resolved on a red tree. */
  lemma ResolvedMeansGreenExactlyWhen(env: Env, o: Outputs)
    requires EntryKeys(env).workspacePath != "" ==> Distinct(env, o)
    ensures (forall other, n: nat | SameSetting(env, other) :: ResolvedMeansGreen(Run(other, n)))
       <==> EntryKeys(env).workspacePath == ""
  {
    hide EntryKeys, Distinct, SameSetting, Run, Adversary, Green;
    if EntryKeys(env).workspacePath == "" {
      forall other, n: nat | SameSetting(env, other) ensures ResolvedMeansGreen(Run(other, n)) {
        SameKeys(env, other);
        NeverResolved(other, n);
      }
    } else {
      BoundIsAttained(env, o);
      assert !ResolvedMeansGreen(Run(Adversary(env, o), Bound(EntryKeys(env))));
    }
  }

  lemma SameKeys(env: Env, other: Env)
    requires SameSetting(env, other)
    ensures EntryKeys(other) == EntryKeys(env)
  {
  }

  lemma {:induction false} EndsStay(env: Env, n: nat, later: nat)
    requires n <= later && Run(env, n).pc == End
    ensures Run(env, later).pc == End
  {
    hide Step;
    if n < later {
      EndsStay(env, n, later - 1);
    }
  }
}
