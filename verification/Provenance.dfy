/** Where the healed errors come from, over every run: the ledger is read from the entry and from the committed
    attempts' own reproductions. */
module Provenance {
  import opened Wrappers
  import opened Domain
  import opened HealingState
  import opened Nodes
  import opened Machine
  import opened Effects
  import opened NodeContracts
  import opened Commits
  import opened Invariants

  /** The error under repair after this many commits: what the entry showed, and later what the reproduction of the
      latest committed attempt showed. */
  function ErrorShown(env: Env, evidence: seq<Evidence>, commits: nat): Option<Signature>
    requires commits <= |evidence|
  {
    var keys := EntryKeys(env);
    if commits == 0 then env.parse(EntryOutput(env.request.trigger), keys.entryKind, keys.workspacePath)
    else
      var runs := evidence[commits - 1].runs;
      if runs == [] then None else env.parse(runs[0].result.logsTail, keys.entryKind, keys.workspacePath)
  }

  function OrFallback(env: Env, s: Option<Signature>): Signature {
    s.GetOr(Signature(EntryKeys(env).entryKind, "", "", ""))
  }

  predicate TracedEntry(env: Env, evidence: seq<Evidence>, resolved: seq<ResolvedError>, i: nat)
    requires i < |resolved| && i <= |evidence|
  {
    && resolved[i].signature == OrFallback(env, ErrorShown(env, evidence, i))
    && (i > 0 ==> ErrorShown(env, evidence, i).Some?)
  }

  predicate Traced(env: Env, m: Machine) {
    var s, evidence := m.state, m.world.evidence;
    && |s.resolvedErrors| == |evidence|
    && (m.pc !in {Bootstrap, End} ==>
          s.signature == ErrorShown(env, evidence, |evidence|) && (evidence != [] ==> s.signature.Some?))
    && forall i :: 0 <= i < |evidence| ==> TracedEntry(env, evidence, s.resolvedErrors, i)
  }

  lemma TracedCommit(env: Env, m: Machine)
    requires m.pc == ReportCommit && Traced(env, m) && KeysFixed(env, m) && Validated(env, m.state, m.world)
    ensures Traced(env, Step(env, m))
  {
    hide Step, EntryKeys, EntryOutput, Matches, SameAttempt, SameCalls, NoAttempt, NewCommit, GatePassed;
    StepHasEffect(env, m);
    var s, w, s', w' := m.state, m.world, Step(env, m).state, Step(env, m).world;
    var k := |w.evidence|;
    assert w'.evidence[k].runs == w.attemptRuns;
    assert TracedEntry(env, w'.evidence, s'.resolvedErrors, k);
    forall i | 0 <= i < k ensures TracedEntry(env, w'.evidence, s'.resolvedErrors, i) {
      assert TracedEntry(env, w.evidence, s.resolvedErrors, i);
    }
  }

  lemma TracedElsewhere(env: Env, m: Machine)
    requires m.pc != End && m.pc != ReportCommit && Traced(env, m)
    requires m.pc == Bootstrap ==> m == Start(env)
    ensures Traced(env, Step(env, m))
  {
    hide Step, EntryKeys, EntryOutput, SameAttempt, SameCalls, SameFlags, NoAttempt, TracedEntry, NewRecord, ImmunizeOutcome;
    StepHasEffect(env, m);
    ImmunizeFrame(env, m.state, m.world);
  }

  lemma {:induction false} TracedAlways(env: Env, n: nat)
    ensures Traced(env, Run(env, n))
  {
    hide Traced, Step, Inv, Control, KeysFixed, Evidenced, Validated;
    if n == 0 {
      NothingToTrace(env);
    } else {
      TracedAlways(env, n - 1);
      InvAlways(env, n - 1);
      var m := Run(env, n - 1);
      InvGivesControl(env, m);
      InvGivesEvidence(env, m);
      if m.pc == ReportCommit {
        EvidenceIsValidated(env, m);
        TracedCommit(env, m);
      } else if m.pc != End {
        if m.pc == Bootstrap {
          StartsAtBootstrap(env, m);
        }
        TracedElsewhere(env, m);
      }
    }
  }

  lemma NothingToTrace(env: Env)
    ensures Traced(env, Start(env))
  {
  }

  lemma EvidenceIsValidated(env: Env, m: Machine)
    requires m.pc == ReportCommit && Evidenced(env, m)
    ensures Validated(env, m.state, m.world)
  {
  }

  lemma StartsAtBootstrap(env: Env, m: Machine)
    requires m.pc == Bootstrap && Control(env, m)
    ensures m == Start(env)
  {
  }

  /** The i-th ledger entry is the error the entry's output showed, or the one that the reproduction of commit i - 1
      showed, and the latter could always be read; an unreadable entry stands in the ledger as the empty fallback. So
      each commit but the first was made for the error that the one before it left. */
  lemma LedgerIsReadFromTheRuns(env: Env, n: nat, i: nat)
    requires i < |Run(env, n).state.resolvedErrors|
    ensures var resolved, evidence := Run(env, n).state.resolvedErrors, Run(env, n).world.evidence;
      && |resolved| == |evidence|
      && (i == 0 ==> resolved[0].signature == OrFallback(env, ErrorShown(env, evidence, 0)))
      && (i > 0 ==> evidence[i - 1].runs != [] && ErrorShown(env, evidence, i) == Some(resolved[i].signature))
  {
    TracedAlways(env, n);
    hide Run;
    assert TracedEntry(env, Run(env, n).world.evidence, Run(env, n).state.resolvedErrors, i);
  }
}
