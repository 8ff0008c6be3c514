/** How often each node and each port runs, over every run. */
module Budgets {
  import opened Domain
  import opened HealingState
  import opened Nodes
  import opened Machine
  import opened Effects
  import opened NodeContracts

  // --- conservation -------------------------------------------------------------

  /** A Corrector call whose outcome is not settled yet. */
  function InFlight(pc: Node): nat {
    if pc in {Validate, Immunize, ReportCommit, Rollback} then 1 else 0
  }

  /** Node executions against their effects: every fix is one Corrector call, every rollback one record,
      every commit one commit; and every Corrector call ends in a rollback or a commit. */
  predicate Conserved(m: Machine) {
    var s, w := m.state, m.world;
    && multiset(m.trace)[Fix] == |w.fixerCalls|
    && multiset(m.trace)[Rollback] == |s.failedAttempts|
    && multiset(m.trace)[ReportCommit] == |w.commits|
    && |w.fixerCalls| == |s.failedAttempts| + |w.commits| + InFlight(m.pc)
  }

  lemma ConservedStep(env: Env, m: Machine)
    requires m.pc != End && Conserved(m)
    ensures Conserved(Step(env, m))
  {
    hide Step, NewRecord, NewCommit, NewEvidence, NewEntry, ChainGoesOn, SameAttempt, SameFlags, NoAttempt;
    StepHasEffect(env, m);
  }

  // --- port calls -----------------------------------------------------------------

  /** Sandbox runs beyond two for each failed attempt and one for each commit: an attempt under way has made one
      or two, a green one up to four with its gated tests, and only the green commit that ends a run keeps more. */
  function SandboxSlack(m: Machine): nat {
    var green := Green(m.state.sandboxResult);
    match m.pc
    case Immunize => if green then 2 else 1
    case ReportCommit => if green then 4 else 1
    case Rollback => 2
    case End => if green && m.trace != [] && m.trace[|m.trace| - 1] == ReportCommit then 3 else 0
    case _ => 0
  }

  predicate SandboxBounded(m: Machine) {
    m.world.sandboxCalls <= 2 * |m.state.failedAttempts| + |m.world.commits| + SandboxSlack(m)
  }

  /** Failed attempts, in terms of the cycle and attempt reached. */
  predicate FailuresBounded(env: Env, s: State) {
    |s.failedAttempts| <= s.cycleIndex * (Retries(EntryKeys(env)) - 1) + s.attemptCount
  }

  /** Calls of the Tester and the Reporter, in terms of the commits made. */
  predicate WritersBounded(m: Machine) {
    var w := m.world;
    && w.testerCalls <= |w.commits| + (if m.pc == ReportCommit then 1 else 0)
    && w.reporterCalls == |w.commits| + multiset(m.trace)[PostMortem]
    && multiset(m.trace)[PostMortem] == (if m.pc == End && m.trace != [] && m.trace[|m.trace| - 1] == PostMortem then 1 else 0)
  }

  predicate CallsBounded(env: Env, m: Machine) {
    FailuresBounded(env, m.state) && WritersBounded(m) && SandboxBounded(m)
  }

  lemma ImmunizeCalls(env: Env, s: State, w: World)
    ensures var w' := ImmunizeOutcome(env, s, w).world;
      && w'.testerCalls <= w.testerCalls + 1
      && w.sandboxCalls <= w'.sandboxCalls <= w.sandboxCalls + (if Green(s.sandboxResult) then 2 else 0)
  {
  }

  lemma SandboxBoundedStep(env: Env, m: Machine)
    requires m.pc != End && SandboxBounded(m) && Control(env, m) && KeysFixed(env, m)
    ensures SandboxBounded(Step(env, m))
  {
    hide Step, KeysFixed, NewRecord, NewCommit, NewEvidence, NewEntry, SameFlags, Matches, ImmunizeOutcome;
    StepHasEffect(env, m);
    ControlStep(env, m);
    ImmunizeCalls(env, m.state, m.world);
  }

  lemma FailuresBoundedStep(env: Env, m: Machine)
    requires m.pc != End && FailuresBounded(env, m.state) && Control(env, m) && KeysFixed(env, m)
    ensures FailuresBounded(env, Step(env, m).state)
  {
    hide Step, EntryKeys, Retries, NewRecord, NewCommit, NewEvidence, NewEntry, SameAttempt, SameFlags, SameCalls,
      ImmunizeOutcome, Residual, NoAttempt;
    StepHasEffect(env, m);
    OneLess(m.state.cycleIndex + 1, Retries(EntryKeys(env)) - 1);
  }

  lemma WritersBoundedStep(env: Env, m: Machine)
    requires m.pc != End && WritersBounded(m)
    ensures WritersBounded(Step(env, m))
  {
    hide Step, NewRecord, NewCommit, NewEvidence, NewEntry, SameAttempt, SameFlags, ImmunizeOutcome, ChainGoesOn, NoAttempt;
    StepHasEffect(env, m);
    ImmunizeCalls(env, m.state, m.world);
  }

  lemma CallsBoundedStep(env: Env, m: Machine)
    requires m.pc != End && CallsBounded(env, m) && Control(env, m) && KeysFixed(env, m)
    ensures CallsBounded(env, Step(env, m))
  {
    hide Step, FailuresBounded, WritersBounded, SandboxBounded, KeysFixed, Control;
    FailuresBoundedStep(env, m);
    WritersBoundedStep(env, m);
    SandboxBoundedStep(env, m);
  }

  // --- length of a run --------------------------------------------------------------

  /** The exact worst case: one bootstrap, and 3N + 1 node executions for each of M errors. */
  function Bound(keys: SessionKeys): (b: nat)
    ensures b == 1 + Cycles(keys) * (3 * Retries(keys) + 1) >= 5
  {
    var m, n := Cycles(keys), Retries(keys);
    assert m * (3 * n + 1) == (m - 1) * (3 * n + 1) + (3 * n + 1) && (m - 1) * (3 * n + 1) >= 0;
    1 + m * (3 * n + 1)
  }

  /** Node executions the cycles after the current one can still take. */
  function LaterCycles(keys: SessionKeys, cycle: nat): int {
    (Cycles(keys) - 1 - cycle) * (3 * Retries(keys) + 1)
  }

  /** Node executions that can still follow, in the worst case. */
  function Remaining(env: Env, m: Machine): int {
    var keys, s := EntryKeys(env), m.state;
    var later := LaterCycles(keys, s.cycleIndex);
    var attempts := Retries(keys) - s.attemptCount;
    match m.pc
    case Bootstrap => Bound(keys)
    case Fix => later + 3 * attempts + 1
    case Validate => later + 3 * attempts
    case Immunize => later + 2
    case ReportCommit => later + 1
    case Rollback => later + 3 * attempts - 1
    case PostMortem => 1
    case End => 0
  }

  lemma LaterCyclesDecrease(keys: SessionKeys, cycle: nat)
    ensures LaterCycles(keys, cycle) == LaterCycles(keys, cycle + 1) + 3 * Retries(keys) + 1
    ensures cycle < Cycles(keys) ==> LaterCycles(keys, cycle) >= 0
    ensures LaterCycles(keys, 0) == Bound(keys) - 1 - (3 * Retries(keys) + 1)
  {
    var m, visits := Cycles(keys), 3 * Retries(keys) + 1;
    OneLess(m - 1 - cycle, visits);
    OneLess(m, visits);
    if cycle < m {
      assert (m - 1 - cycle) * visits >= 0;
    }
  }

  lemma OneLess(a: int, b: int)
    ensures a * b == (a - 1) * b + b
  {
  }

  /** Every node execution uses up at least one of the remaining ones. */
  lemma RemainingDecreases(env: Env, m: Machine)
    requires m.pc != End && Control(env, m) && KeysFixed(env, m)
    ensures 0 <= Remaining(env, Step(env, m)) < Remaining(env, m)
  {
    hide Step, EntryKeys, LaterCycles, Bound, SameAttempt, SameFlags, SameCalls, NoAttempt, NewRecord, NewCommit, NewEvidence,
      NewEntry, Matches, ImmunizeOutcome, Clean, Progress, Residual;
    LaterCyclesDecrease(EntryKeys(env), m.state.cycleIndex);
    LaterCyclesDecrease(EntryKeys(env), m.state.cycleIndex + 1);
    ControlStep(env, m);
    StepHasEffect(env, m);
  }
}
