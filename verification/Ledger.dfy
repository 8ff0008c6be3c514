/** The ledger of healed errors over every run. */
module Ledger {
  import opened Wrappers
  import opened Domain
  import opened HealingState
  import opened Nodes
  import opened Machine
  import opened Effects
  import opened NodeContracts

  /** What every parser promises; the modelled ones are proved to in Signature.dfy. */
  ghost predicate ParserUsable(env: Env) {
    forall text, kind, root :: env.parse(text, kind, root).Some? ==> Usable(env.parse(text, kind, root).value, kind)
  }

  /** One ledger entry per commit, carrying that commit's sha. */
  predicate Aligned(m: Machine) {
    && |m.state.resolvedErrors| == |m.world.commits| == |m.world.evidence|
    && (forall i :: 0 <= i < |m.world.commits| ==>
          m.state.resolvedErrors[i].commitSha == m.world.commits[i].sha == Sha(i))
  }

  /** Each healed error differs from the one healed just before it. */
  predicate Chained(resolved: seq<ResolvedError>) {
    forall i :: 0 < i < |resolved| ==> !Matches(resolved[i].signature, Some(resolved[i - 1].signature))
  }

  predicate Counted(m: Machine) {
    Aligned(m) && (m.pc != End ==> m.state.cycleIndex == |m.world.commits|)
  }

  /** The ledger is chained, and the error under repair continues it. */
  predicate ChainGrows(m: Machine) {
    var s := m.state;
    && Chained(s.resolvedErrors)
    && (m.pc != End && s.resolvedErrors != [] ==>
          s.signature.Some? && !Matches(s.signature.value, Some(s.resolvedErrors[|s.resolvedErrors| - 1].signature)))
  }

  /** A validated post-fix signature comes from the parser. */
  predicate PostParsed(env: Env, s: State) {
    s.postSignature.Some? ==> Usable(s.postSignature.value, s.keys.entryKind)
  }

  lemma ParsedIsUsable(env: Env, text: string, kind: ErrorKind, root: string)
    requires ParserUsable(env)
    ensures env.parse(text, kind, root).Some? ==> Usable(env.parse(text, kind, root).value, kind)
  {
  }

  lemma PostParsedStep(env: Env, m: Machine)
    requires m.pc != End && PostParsed(env, m.state) && ParserUsable(env)
    requires m.pc == Bootstrap ==> m == Start(env)
    ensures PostParsed(env, Step(env, m).state)
  {
    hide Step, Usable, ParserUsable, SameCalls, SameFlags, ChainGoesOn;
    var s' := Step(env, m).state;
    StepHasEffect(env, m);
    ParsedIsUsable(env, s'.postOutput, s'.keys.entryKind, s'.keys.workspacePath);
  }

  lemma CountedStep(env: Env, m: Machine)
    requires m.pc != End && Counted(m) && Control(env, m)
    ensures Counted(Step(env, m))
  {
    hide Step, Sha, Message, Healed, Matches, ChainGoesOn, SameAttempt, SameCalls, SameFlags, NoAttempt;
    StepHasEffect(env, m);
  }

  lemma ChainGrowsStep(env: Env, m: Machine)
    requires m.pc != End && ChainGrows(m) && Control(env, m) && PostParsed(env, m.state)
    ensures ChainGrows(Step(env, m))
  {
    hide Step, Sha, Matches, SameAttempt, SameCalls, SameFlags, NoAttempt, NewCommit, NewEvidence;
    StepHasEffect(env, m);
    if m.pc == ReportCommit && m.state.postSignature.Some? && m.state.signature.None? {
      UsableNeverMatchesFallback(m.state.postSignature.value, m.state.keys.entryKind);
    }
  }
}
