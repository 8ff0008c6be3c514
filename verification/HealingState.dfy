/** The state threaded through the graph (src/core/domain/state.py).
    An absent optional key is None, an absent flag is false and an absent accumulator is empty:
    that is how every reader's `.get` treats it. */
module HealingState {
  import opened Wrappers
  import opened Domain

  datatype Node = Bootstrap | Fix | Validate | Immunize | ReportCommit | Rollback | PostMortem | End

  /** The command lines the nodes hand to the sandbox, by how they are built. */
  datatype Command =
    | Given(argv: seq<string>)
    | DefaultTests
    | MainProgram
    | RelatedTests(reproduce: Command, tests: seq<string>)
    | OneTest(nodeId: string)

  /** Session-level keys, set once by bootstrap and stable for the whole run. */
  datatype SessionKeys = SessionKeys(
    workspacePath: string,
    entryKind: ErrorKind,
    reproduceCmd: Command,
    regressionCmd: seq<string>,
    testPath: string,
    maxRetries: int,
    cycleBudget: int,
    reproducer: Option<string>)

  /** One entry of the `logs` accumulator, by the branch that emits it. */
  datatype LogEntry =
    | BootstrapEntry(kind: ErrorKind, incidentId: string)
    | FixError | FixNoPatch | FixPatch(bytes: nat)
    | ValidateInvalidState | ValidateRegression(gate: Verdict) | ValidateVerdict(verdict: Verdict)
    | ImmunizeSkipped | ImmunizeTargeted(nodeId: string) | ImmunizeSmoke(nodeId: string) | ImmunizeNoTest
    | ReportCommitSha(sha: string)
    | RollbackAttempt(index: nat, reason: FailureReason)
    | PostMortemReport(path: string)

  datatype State = State(
    keys: SessionKeys,
    // current error, reset when the chain advances
    incidentId: string,
    signature: Option<Signature>,
    failureOutput: string,
    // per-iteration artefacts
    patch: Option<Patch>,
    sandboxResult: Option<SandboxResult>,
    regressionTest: Option<RegressionTest>,
    postSignature: Option<Signature>,
    postOutput: string,
    regressionDetected: bool,
    shouldContinue: bool,
    // retry and chain bookkeeping
    attemptCount: nat,
    cycleIndex: nat,
    // accumulators (reducer: concatenation)
    failedAttempts: seq<FailedAttempt>,
    resolvedErrors: seq<ResolvedError>,
    logs: seq<LogEntry>,
    // terminal flags
    isResolved: bool,
    postMortemPath: Option<string>)

  /** The session-level keys and the history a caller starts a run with: everything unset. */
  const Blank := State(SessionKeys("", Crash, DefaultTests, [], "", 0, 0, None), "", None, "",
                       None, None, None, None, "", false, false, 0, 0, [], [], [], false, None)

  predicate Green(result: Option<SandboxResult>) {
    result.Some? && result.value.verdict == Passed
  }

  /** Attempts one error really gets: the router always grants the first one. */
  function Retries(keys: SessionKeys): (n: nat)
    ensures n >= 1
  {
    Max(1, keys.maxRetries)
  }

  /** Errors one session really heals at most. */
  function Cycles(keys: SessionKeys): (m: nat)
    ensures m >= 1
  {
    Max(1, keys.cycleBudget)
  }
}
