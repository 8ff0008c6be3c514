/** Errors that come back: the ledger tells neighbours apart and nothing more, and exactly when that shows. */
module Recurrence {
  import opened Wrappers
  import opened Domain
  import opened HealingState
  import opened Nodes
  import opened Machine
  import opened Effects
  import opened NodeContracts
  import opened Ledger
  import opened Budgets
  import opened Endings
  import opened Invariants
  import opened Provenance
  import opened WorstCase
  import Theorems

  /** The two entries are the same error, and not neighbours. */
  predicate Recurs(resolved: seq<ResolvedError>, i: nat, j: nat) {
    i + 1 < j < |resolved| && Matches(resolved[j].signature, Some(resolved[i].signature))
  }

  ghost predicate HasRecurrence(m: Machine) {
    exists i: nat, j: nat :: Recurs(m.state.resolvedErrors, i, j)
  }

  function EntrySignature(env: Env): Option<Signature> {
    Parsed(env, EntryOutput(env.request.trigger))
  }

  // --- the alternating run --------------------------------------------------------------

  predicate OnLedger(env: Env, o: Outputs, m: Machine) {
    forall i :: 0 <= i < |m.state.resolvedErrors| ==>
      m.state.resolvedErrors[i].signature == OrFallback(env, Expected(env, o, i))
  }

  lemma OnLedgerStep(env: Env, o: Outputs, m: Machine)
    requires m.pc != End && OnLedger(env, o, m) && OnScript(env, o, m) && Counted(m) && KeysFixed(env, m)
    ensures OnLedger(env, o, Step(env, m))
  {
    assert m.pc == ReportCommit ==>
      && m.state.signature == Expected(env, o, m.state.cycleIndex) && m.state.keys == EntryKeys(env)
      && |m.state.resolvedErrors| == m.state.cycleIndex;
    hide Step, OnScript, Counted, KeysFixed, EntryKeys, Expected, SameAttempt, SameCalls, SameFlags, NoAttempt, ChainGoesOn,
      NewCommit, NewEvidence;
    StepHasEffect(env, m);
  }

  lemma {:induction false} OnLedgerAlways(env: Env, o: Outputs, n: nat)
    requires Adversarial(env, o) && Distinct(env, o) && EntryKeys(env).workspacePath != ""
    ensures OnLedger(env, o, Run(env, n))
  {
    hide OnLedger, OnScript, Step, Counted, Control, KeysFixed, Adversarial, Distinct, EntryKeys;
    if n == 0 {
      NoEntriesYet(env, o);
    } else {
      OnLedgerAlways(env, o, n - 1);
      ScriptAlways(env, o, n - 1);
      LedgerFacts(env, n - 1);
      if Run(env, n - 1).pc != End {
        OnLedgerStep(env, o, Run(env, n - 1));
      }
    }
  }

  lemma NoEntriesYet(env: Env, o: Outputs)
    ensures OnLedger(env, o, Start(env))
  {
  }

  lemma LedgerFacts(env: Env, n: nat)
    ensures var m := Run(env, n);
      && KeysFixed(env, m) && Counted(m) && |m.state.resolvedErrors| <= Cycles(EntryKeys(env))
      && Control(env, m)
  {
    InvAlways(env, n);
    var m := Run(env, n);
    assert Ended(env, m) && Counted(m) && Control(env, m) && KeysFixed(env, m);
    hide Run, Inv, EntryKeys, Cycles, Retries, Clean, Progress, Green, GreenCommit;
  }

  /** The alternating run heals M errors, and the one healed in cycle i comes back in cycle i + 2. */
  lemma AlternatingRunRepeats(env: Env, o: Outputs, i: nat)
    requires EntryKeys(env).workspacePath != "" && Distinct(env, o) && i + 2 < Cycles(EntryKeys(env))
    requires i == 0 ==> Parsed(env, o.first) == EntrySignature(env)
    ensures var m := Run(Adversary(env, o), Bound(EntryKeys(env)));
      && |m.state.resolvedErrors| == Cycles(EntryKeys(env)) && Recurs(m.state.resolvedErrors, i, i + 2)
  {
    hide Adversarial, Adversary, EntryKeys, Cycles, Bound, Distinct, Run, Green, Parsed;
    AdversaryIsAdversarial(env, o);
    BoundIsAttained(env, o);
    var env' := Adversary(env, o);
    ParsedAlike(env, env', o);
    var last := Bound(EntryKeys(env));
    LedgerFacts(env', last);
    Theorems.EndingsCharacterised(env', last);
    OnLedgerAlways(env', o, last);
    ExpectedAgain(env', o, i);
  }

  lemma ParsedAlike(env: Env, env': Env, o: Outputs)
    requires SameSetting(env, env') && EntryKeys(env') == EntryKeys(env)
    ensures EntrySignature(env') == EntrySignature(env) && Parsed(env', o.first) == Parsed(env, o.first)
  {
  }

  lemma ExpectedAgain(env: Env, o: Outputs, i: nat)
    requires Distinct(env, o) && (i == 0 ==> Parsed(env, o.first) == EntrySignature(env))
    ensures Expected(env, o, i + 2).Some? && Expected(env, o, i) == Expected(env, o, i + 2)
  {
    hide EntryKeys, EntryOutput, Matches;
    assert i > 0 ==> (i + 1) % 2 == (i - 1) % 2;
  }

  // --- no run can do so with fewer cycles ---------------------------------------------------

  /** Enough cycles for an error to come back after another one: three, and a fourth if the first error is one
      that was never parsed. */
  predicate RoomToRecur(env: Env) {
    var cycles := Cycles(EntryKeys(env));
    cycles >= 4 || (cycles == 3 && EntrySignature(env).Some?)
  }

  lemma ShownIsUsable(env: Env, evidence: seq<Evidence>, i: nat)
    requires ParserUsable(env) && i <= |evidence| && ErrorShown(env, evidence, i).Some?
    ensures Usable(ErrorShown(env, evidence, i).value, EntryKeys(env).entryKind)
  {
    hide EntryKeys, EntryOutput, Usable;
  }

  lemma RecurringNeedsRoom(env: Env, n: nat)
    requires ParserUsable(env) && HasRecurrence(Run(env, n))
    ensures RoomToRecur(env)
  {
    hide EntryKeys, EntryOutput, Run, Cycles, Matches, Usable, ParserUsable, KeysFixed, Counted, Control;
    var resolved, evidence := Run(env, n).state.resolvedErrors, Run(env, n).world.evidence;
    var i: nat, j: nat :| Recurs(resolved, i, j);
    LedgerFacts(env, n);
    LedgerIsReadFromTheRuns(env, n, i);
    LedgerIsReadFromTheRuns(env, n, j);
    ShownIsUsable(env, evidence, j);
    if EntrySignature(env).None? && i == 0 {
      UsableNeverMatchesFallback(resolved[j].signature, EntryKeys(env).entryKind);
    }
  }

  /** In a setting with a workspace some run's ledger holds one error twice, though never side by side, exactly
      when there are cycles enough. */
  lemma ErrorsRecurExactlyWhen(env: Env, o: Outputs)
    requires ParserUsable(env) && EntryKeys(env).workspacePath != "" && Distinct(env, o)
    ensures (exists other, n: nat :: SameSetting(env, other) && HasRecurrence(Run(other, n))) <==> RoomToRecur(env)
  {
    hide EntryKeys, Run, Cycles, SameSetting, Adversary, ParserUsable, Distinct, EntryOutput, Parsed, HasRecurrence;
    if exists other, n: nat :: SameSetting(env, other) && HasRecurrence(Run(other, n)) {
      var other, n: nat :| SameSetting(env, other) && HasRecurrence(Run(other, n));
      SettingDecides(env, other);
      RecurringNeedsRoom(other, n);
    }
    if RoomToRecur(env) {
      var i := if EntrySignature(env).Some? then 0 else 1;
      var o' := if i == 0 then o.(first := EntryOutput(env.request.trigger)) else o;
      EntryAsFirst(env, o);
      AlternatingRunRepeats(env, o', i);
      BoundIsAttained(env, o');
      RecursThere(Run(Adversary(env, o'), Bound(EntryKeys(env))), i);
    }
  }

  lemma RecursThere(m: Machine, i: nat)
    requires Recurs(m.state.resolvedErrors, i, i + 2)
    ensures HasRecurrence(m)
  {
  }

  lemma SettingDecides(env: Env, other: Env)
    requires SameSetting(env, other) && ParserUsable(env)
    ensures ParserUsable(other) && (RoomToRecur(other) <==> RoomToRecur(env))
  {
    SameKeys(env, other);
    hide EntryKeys;
  }

  /** The entry's own output can play the part of the first text. */
  lemma EntryAsFirst(env: Env, o: Outputs)
    requires Distinct(env, o)
    ensures EntrySignature(env).Some? ==> Distinct(env, o.(first := EntryOutput(env.request.trigger)))
  {
  }
}
