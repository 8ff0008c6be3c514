/** The call budgets are attained, all four in one run: every attempt but a cycle's last fixes the error and breaks
    a protected test, the last one uncovers another error, and the very last heals everything, whereupon the
    drafted test fails and the smoke test is written. */
module WorstCalls {
  import opened Wrappers
  import opened Domain
  import opened HealingState
  import opened Nodes
  import opened Machine
  import opened Effects
  import opened NodeContracts
  import opened Ledger
  import opened Budgets
  import opened Invariants
  import opened WorstCase
  import Theorems

  /** What a sandbox call is for in the costly run. */
  datatype Slot = Try(cycle: nat, attempt: nat) | GateRun(cycle: nat, attempt: nat) | Draft | Smoke

  function NextSlot(slot: Slot, cycles: nat, retries: nat): Slot {
    match slot
    case Try(c, a) => if a + 1 < retries || c + 1 >= cycles then GateRun(c, a) else Try(c + 1, 0)
    case GateRun(c, a) => if a + 1 < retries then Try(c, a + 1) else Draft
    case Draft | Smoke => Smoke
  }

  function SlotOf(call: nat, cycles: nat, retries: nat): Slot {
    if call == 0 then Try(0, 0) else NextSlot(SlotOf(call - 1, cycles, retries), cycles, retries)
  }

  function Answer(o: Outputs, slot: Slot, cycles: nat, retries: nat): SandboxResult {
    match slot
    case Try(c, a) =>
      if a + 1 < retries || c + 1 >= cycles then SandboxResult(Passed, Some(0), "")
      else SandboxResult(Failed, Some(1), Surfacing(o, c))
    case GateRun(_, a) => if a + 1 < retries then SandboxResult(Failed, Some(1), "") else SandboxResult(Passed, Some(0), "")
    case Draft => SandboxResult(Failed, Some(1), "")
    case Smoke => SandboxResult(Passed, Some(0), "")
  }

  function Costly(env: Env, o: Outputs): Env {
    var cycles: nat, retries: nat := Cycles(EntryKeys(env)), Retries(EntryKeys(env));
    env.(fixer := (_: nat) => FixAnswer((w: Workspace) => w, Produced(Patch(""))),
         sandbox := (call: nat) => Answer(o, SlotOf(call, cycles, retries), cycles, retries),
         tester := (_: nat) => Some("draft"))
  }

  ghost predicate Costs(env: Env, o: Outputs) {
    var cycles: nat, retries: nat := Cycles(EntryKeys(env)), Retries(EntryKeys(env));
    && (forall k: nat :: env.fixer(k).outcome == Produced(Patch("")))
    && (forall k: nat :: env.sandbox(k) == Answer(o, SlotOf(k, cycles, retries), cycles, retries))
    && (forall k: nat :: env.tester(k).Some?)
  }

  predicate Guarded(keys: SessionKeys) {
    keys.entryKind == Crash && keys.workspacePath != "" && keys.regressionCmd != []
  }

  lemma CostlyCosts(env: Env, o: Outputs)
    ensures var env' := Costly(env, o);
      Costs(env', o) && SameSetting(env, env') && EntryKeys(env') == EntryKeys(env) && (Distinct(env, o) ==> Distinct(env', o))
  {
    var env' := Costly(env, o);
    assert EntryKeys(env') == EntryKeys(env);
    hide EntryKeys, Retries, Cycles, Answer, SlotOf;
  }

  lemma Answers(env: Env, o: Outputs, k: nat)
    requires Costs(env, o)
    ensures var cycles: nat, retries: nat := Cycles(EntryKeys(env)), Retries(EntryKeys(env));
      && env.fixer(k).outcome == Produced(Patch("")) && env.tester(k).Some?
      && env.sandbox(k) == Answer(o, SlotOf(k, cycles, retries), cycles, retries)
      && SlotOf(k + 1, cycles, retries) == NextSlot(SlotOf(k, cycles, retries), cycles, retries)
  {
    hide EntryKeys, Retries, Cycles, Answer;
  }

  // --- the costly run -------------------------------------------------------------------

  /** Where the run stands: which calls it has made and what the next sandbox call is for. */
  predicate OnCosts(env: Env, o: Outputs, m: Machine) {
    var s, w := m.state, m.world;
    var cycles: nat, retries: nat := Cycles(EntryKeys(env)), Retries(EntryKeys(env));
    var c, a, last, slot := s.cycleIndex, s.attemptCount, s.cycleIndex + 1 >= cycles, SlotOf(w.sandboxCalls, cycles, retries);
    var settled := 2 * |s.failedAttempts| + |w.commits|;
    && (m.pc != Bootstrap && m.pc != End ==>
          && s.signature == Expected(env, o, c) && |s.failedAttempts| == c * (retries - 1) + a
          && w.testerCalls == |w.commits| + (if m.pc == ReportCommit then 1 else 0))
    && match m.pc
       case Bootstrap => w.sandboxCalls == 0 && w.testerCalls == 0
       case Fix | Validate => slot == Try(c, a) && w.sandboxCalls == settled
       case Rollback => a + 1 < retries && slot == Try(c, a + 1) && w.sandboxCalls == settled + 2
       case Immunize =>
         && a + 1 == retries && (Green(s.sandboxResult) <==> last)
         && (!last ==> s.postSignature == Parsed(env, Surfacing(o, c)))
         && slot == (if last then Draft else Try(c + 1, 0))
         && w.sandboxCalls == settled + if last then 2 else 1
       case ReportCommit =>
         && a + 1 == retries && (Green(s.sandboxResult) <==> last)
         && (!last ==> s.postSignature == Parsed(env, Surfacing(o, c)) && slot == Try(c + 1, 0))
         && w.sandboxCalls == settled + if last then 4 else 1
       case End =>
         && s.isResolved && w.testerCalls == |w.commits| == cycles
         && |s.failedAttempts| == cycles * (retries - 1) && w.sandboxCalls == settled + 3
       case PostMortem => false
  }

  /** The three outcomes of a validation in the costly run. */
  lemma CostlyValidation(env: Env, o: Outputs, s: State, w: World)
    requires Costs(env, o) && s.keys == EntryKeys(env) && Guarded(s.keys) && !s.regressionDetected
    requires s.attemptCount < Retries(s.keys)
    requires SlotOf(w.sandboxCalls, Cycles(s.keys), Retries(s.keys)) == Try(s.cycleIndex, s.attemptCount)
    ensures var (s', w') := ValidateNode(env, s, w);
      var cycles: nat, retries: nat := Cycles(s.keys), Retries(s.keys);
      var c, a, slot := s.cycleIndex, s.attemptCount, SlotOf(w'.sandboxCalls, cycles, retries);
      if a + 1 < retries then
        s'.regressionDetected && slot == Try(c, a + 1) && w'.sandboxCalls == w.sandboxCalls + 2
      else if c + 1 < cycles then
        && !s'.regressionDetected && s'.sandboxResult.Some? && !Green(s'.sandboxResult)
        && s'.postSignature == Parsed(env, Surfacing(o, c))
        && slot == Try(c + 1, 0) && w'.sandboxCalls == w.sandboxCalls + 1
      else
        !s'.regressionDetected && Green(s'.sandboxResult) && slot == Draft && w'.sandboxCalls == w.sandboxCalls + 2
  {
    hide EntryKeys, Retries, Cycles, SlotOf, Surfacing;
    Answers(env, o, w.sandboxCalls);
    Answers(env, o, w.sandboxCalls + 1);
  }

  lemma CostsValidate(env: Env, o: Outputs, m: Machine)
    requires Costs(env, o) && Distinct(env, o) && m.pc == Validate && OnCosts(env, o, m)
    requires Control(env, m) && KeysFixed(env, m) && Guarded(EntryKeys(env))
    ensures OnCosts(env, o, Step(env, m))
  {
    hide ValidateNode, Costs, Distinct, Guarded, Surfacing, Matches, EntryKeys, Retries, Cycles, SlotOf, Parsed, Expected,
      ValidateEffect;
    CostlyValidation(env, o, m.state, m.world);
    SurfacingDiffers(env, o, m.state.cycleIndex);
    QuietStep(env, m);
    ValidateKeeps(env, m);
  }

  lemma ValidateKeeps(env: Env, m: Machine)
    requires m.pc == Validate
    ensures Step(env, m).world.testerCalls == m.world.testerCalls
  {
    hide Step;
    StepHasEffect(env, m);
  }

  /** Immunisation of the costly run: a draft is kept on a red tree; on a green one it fails and the smoke test is tried. */
  lemma CostlyImmunity(env: Env, o: Outputs, s: State, w: World)
    requires Costs(env, o) && s.keys == EntryKeys(env) && Guarded(s.keys)
    requires Green(s.sandboxResult) ==> SlotOf(w.sandboxCalls, Cycles(s.keys), Retries(s.keys)) == Draft
    ensures var w' := ImmunizeOutcome(env, s, w).world;
      w'.testerCalls == w.testerCalls + 1 && w'.sandboxCalls == w.sandboxCalls + if Green(s.sandboxResult) then 2 else 0
  {
    hide EntryKeys, Retries, Cycles, SlotOf, AppendTest;
    Answers(env, o, w.sandboxCalls);
    Answers(env, o, w.testerCalls);
  }

  lemma CostsImmunize(env: Env, o: Outputs, m: Machine)
    requires Costs(env, o) && m.pc == Immunize && OnCosts(env, o, m)
    requires KeysFixed(env, m) && Guarded(EntryKeys(env))
    ensures OnCosts(env, o, Step(env, m))
  {
    hide Step, Costs, Guarded, Surfacing, EntryKeys, Retries, Cycles, SlotOf, Parsed, Expected, ImmunizeOutcome;
    CostlyImmunity(env, o, m.state, m.world);
    StepHasEffect(env, m);
  }

  lemma CostsReportCommit(env: Env, o: Outputs, m: Machine)
    requires Distinct(env, o) && m.pc == ReportCommit && OnCosts(env, o, m)
    requires Control(env, m) && KeysFixed(env, m) && Counted(m)
    ensures OnCosts(env, o, Step(env, m))
  {
    hide Step, Distinct, Surfacing, Matches, EntryKeys, Retries, SlotOf, Parsed, EntryOutput, NewCommit, NewEntry,
      NewEvidence, Clean;
    SurfacingDiffers(env, o, m.state.cycleIndex);
    StepHasEffect(env, m);
    OneLess(m.state.cycleIndex + 1, Retries(EntryKeys(env)) - 1);
  }

  lemma CostsRollback(env: Env, o: Outputs, m: Machine)
    requires m.pc == Rollback && OnCosts(env, o, m) && KeysFixed(env, m)
    ensures OnCosts(env, o, Step(env, m))
  {
    hide Step, Surfacing, EntryKeys, Cycles, SlotOf, Parsed, Expected, NewRecord, ResetTree, Green;
    StepHasEffect(env, m);
  }

  lemma CostsEntry(env: Env, o: Outputs, m: Machine)
    requires m.pc in {Bootstrap, Fix} && OnCosts(env, o, m) && Costs(env, o)
    requires m.pc == Bootstrap ==> m == Start(env)
    ensures OnCosts(env, o, Step(env, m))
  {
    hide Step, Costs, Surfacing, EntryKeys, Retries, Cycles, EntryOutput, Green;
    Answers(env, o, |m.world.fixerCalls|);
    StepHasEffect(env, m);
  }

  lemma CostsStep(env: Env, o: Outputs, m: Machine)
    requires Costs(env, o) && Distinct(env, o) && m.pc != End && OnCosts(env, o, m)
    requires Control(env, m) && KeysFixed(env, m) && Counted(m) && Guarded(EntryKeys(env))
    ensures OnCosts(env, o, Step(env, m))
  {
    assert m.pc != PostMortem;
    hide OnCosts, Step, Distinct, Costs, KeysFixed, Guarded, Counted, EntryKeys;
    match m.pc {
      case Validate => CostsValidate(env, o, m);
      case Immunize => CostsImmunize(env, o, m);
      case ReportCommit => CostsReportCommit(env, o, m);
      case Rollback => CostsRollback(env, o, m);
      case _ => CostsEntry(env, o, m);
    }
  }

  lemma CostsStart(env: Env, o: Outputs)
    ensures OnCosts(env, o, Start(env))
  {
    hide EntryKeys;
  }

  lemma InvCounts(env: Env, m: Machine)
    requires Inv(env, m)
    ensures Counted(m) && Conserved(m) && WritersBounded(m)
    ensures m.pc == End && m.state.isResolved ==> m.trace != [] && m.trace[|m.trace| - 1] == ReportCommit
  {
    hide Control, KeysFixed, EntryKeys, Remaining, Bound, Counted, Conserved, WritersBounded;
  }

  lemma {:induction false} CostsAlways(env: Env, o: Outputs, n: nat)
    requires Costs(env, o) && Distinct(env, o) && Guarded(EntryKeys(env))
    ensures OnCosts(env, o, Run(env, n))
  {
    hide OnCosts, Inv, Step, Control, KeysFixed, Counted, Costs, Distinct, EntryKeys, Guarded, Conserved, WritersBounded;
    if n == 0 {
      CostsStart(env, o);
    } else {
      CostsAlways(env, o, n - 1);
      InvAlways(env, n - 1);
      var m := Run(env, n - 1);
      if m.pc != End {
        InvGivesControl(env, m);
        InvCounts(env, m);
        CostsStep(env, o, m);
      }
    }
  }

  /** All four call budgets are exact: one and the same run makes MN Corrector calls, M(2N - 1) + 3 sandbox runs
      and M calls each of the Tester and the Reporter. */
  lemma CallBudgetsAreAttained(env: Env, o: Outputs)
    requires Distinct(env, o) && Guarded(EntryKeys(env))
    ensures var env', keys := Costly(env, o), EntryKeys(env); var last := Run(env', Bound(keys));
      && SameSetting(env, env') && last.pc == End
      && |last.world.fixerCalls| == Cycles(keys) * Retries(keys)
      && last.world.sandboxCalls == Theorems.SandboxBudget(keys)
      && last.world.testerCalls == Cycles(keys) == last.world.reporterCalls
  {
    hide Run, EntryKeys, Bound, Distinct, Costs, Costly, Guarded, Inv, Counted, SameSetting, Cycles, Retries, SlotOf, Expected,
      Parsed, Surfacing;
    var env', keys := Costly(env, o), EntryKeys(env);
    var n := Bound(keys);
    CostlyCosts(env, o);
    CostsAlways(env', o, n);
    Theorems.EveryRunEnds(env', n);
    InvAlways(env', n);
    InvCounts(env', Run(env', n));
    Theorems.ProductStep(Cycles(keys), Retries(keys));
  }
}
