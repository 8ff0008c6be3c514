/** Value objects exchanged between the nodes (src/core/domain). */
module Domain {
  import opened Wrappers

  datatype ErrorKind = Crash | Test

  datatype Signature = Signature(kind: ErrorKind, excType: string, location: string, message: string)

  function KindText(kind: ErrorKind): string {
    match kind
    case Crash => "crash"
    case Test => "test"
  }

  /** The string that is hashed into the fingerprint; the message is deliberately not part of it. */
  function RawFingerprint(s: Signature): string {
    KindText(s.kind) + "|" + s.excType + "|" + s.location
  }

  /** Same underlying error: equal fingerprints, the hash being taken as collision-free. */
  predicate Matches(s: Signature, other: Option<Signature>) {
    other.Some? && RawFingerprint(s) == RawFingerprint(other.value)
  }

  /** What every parser guarantees of a signature it returns. */
  predicate Usable(s: Signature, kind: ErrorKind) {
    s.kind == kind && (s.excType != "" || s.location != "")
  }

  datatype Verdict = Passed | Failed | Timeout | InfrastructureError

  datatype SandboxResult = SandboxResult(verdict: Verdict, exitCode: Option<int>, logsTail: string)

  datatype Patch = Patch(diffText: string)

  datatype RegressionTest = RegressionTest(path: string, nodeId: string, source: string)

  /** The reasons _summarise_failure can give, before they are rendered as text. */
  datatype FailureReason = NoFix | Regression | SandboxVerdict(verdict: Verdict, exitCode: Option<int>) | UnknownFailure

  datatype FailedAttempt = FailedAttempt(attemptIndex: nat, cycleIndex: nat, patch: Option<Patch>,
                                         sandboxResult: Option<SandboxResult>, reason: FailureReason)

  datatype ResolvedError = ResolvedError(signature: Signature, commitSha: string, testPath: Option<string>)

  datatype CrashReport = CrashReport(incidentId: string, stackTrace: string)
  datatype FailingTest = FailingTest(nodeId: string, lastFailureOutput: string)
  datatype Trigger = Trigger(kind: ErrorKind, crashReport: Option<CrashReport>, failingTest: Option<FailingTest>)

  datatype RoutingDecision = ToFix | ToValidation | ToImmunize | ToRollback | ToPostMortem | Finish

  /** A fallback signature (no exception, no location) never matches one a parser returned. */
  lemma UsableNeverMatchesFallback(s: Signature, kind: ErrorKind)
    requires Usable(s, kind)
    ensures !Matches(s, Some(Signature(kind, "", "", "")))
  {
    assert |RawFingerprint(s)| > |RawFingerprint(Signature(kind, "", "", ""))|;
  }
}
