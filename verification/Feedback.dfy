/** The failure text handed to the Corrector, over every run. */
module Feedback {
  import opened Wrappers
  import opened Domain
  import opened HealingState
  import opened Nodes
  import opened Machine
  import opened Effects
  import opened NodeContracts
  import opened Invariants
  import opened History
  import Theorems
  import Text

  function Read(env: Env, s: State, text: string): Option<Signature> {
    env.parse(text, s.keys.entryKind, s.keys.workspacePath)
  }

  /** A text that shows no error, or the one under repair. */
  predicate ShowsCurrent(env: Env, s: State, text: string) {
    Read(env, s, text).Some? ==> Matches(Read(env, s, text).value, s.signature)
  }

  /** The current text never shows another error; nor does a rolled-back attempt's output; and the output an
      error was chained from is what its signature was read from. */
  predicate Fed(env: Env, m: Machine) {
    var s := m.state;
    match m.pc
    case Bootstrap | End => true
    case Rollback => ShowsCurrent(env, s, s.failureOutput) && (s.postOutput != "" ==> ShowsCurrent(env, s, s.postOutput))
    case Immunize | ReportCommit =>
      ShowsCurrent(env, s, s.failureOutput) && (s.postSignature.Some? ==> s.postSignature == Read(env, s, s.postOutput))
    case _ => ShowsCurrent(env, s, s.failureOutput)
  }

  lemma FedStep(env: Env, m: Machine)
    requires m.pc != End && Fed(env, m) && Control(env, m) && KeysFixed(env, m)
    ensures Fed(env, Step(env, m))
  {
    hide Step, SameFlags, SameCalls, NewCommit, NewEntry, NewEvidence, NewRecord, ImmunizeOutcome, ResetTree, EntryKeys;
    StepHasEffect(env, m);
    ControlStep(env, m);
    if m.pc == Validate {
      ValidationShows(env, m);
    }
  }

  /** A validation that is about to be rolled back left no text, or one that shows no other error. */
  lemma ValidationShows(env: Env, m: Machine)
    requires m.pc == Validate && Control(env, m)
    ensures var m' := Step(env, m);
      m'.pc == Rollback && m'.state.postOutput != "" ==> ShowsCurrent(env, m'.state, m'.state.postOutput)
  {
    hide GateCommand, RunSandbox, Matches;
  }

  lemma {:induction false} FedAlways(env: Env, n: nat)
    ensures Fed(env, Run(env, n))
  {
    hide Step, Fed, Inv, Control;
    if n == 0 {
      FedStart(env);
    } else {
      FedAlways(env, n - 1);
      InvAlways(env, n - 1);
      var m := Run(env, n - 1);
      if m.pc != End {
        InvGivesControl(env, m);
        FedStep(env, m);
      }
    }
  }

  lemma FedStart(env: Env)
    ensures Fed(env, Start(env))
  {
  }

  /** The text the Corrector is handed shows the error under repair, or nothing the parser can read; it never
      shows a different error, however often the text was replaced by an attempt's output. */
  lemma CorrectorIsToldTheCurrentError(env: Env, n: nat)
    requires Run(env, n).pc == Fix
    ensures var s := Run(env, n).state; ShowsCurrent(env, s, BuildContext(s).failureOutput)
  {
    FedAlways(env, n);
    hide Run, ShowsCurrent, CycleAttempts, DescribeAll;
  }

  // --- the first call ---------------------------------------------------------------------

  /** Where every run starts: the first call is made on this state. */
  lemma FirstCall(env: Env)
    ensures var s := Run(env, 1).state;
      && Run(env, 1).pc == Fix && s.keys == EntryKeys(env) && Run(env, 2).world.fixerCalls == [BuildContext(s)]
      && s.incidentId == EntryIncident(env.request.trigger) && s.failureOutput == EntryOutput(env.request.trigger)
      && s.signature == Read(env, s, s.failureOutput)
  {
    assert Run(env, 0) == Start(env);
    assert Run(env, 1) == Step(env, Run(env, 0));
    BootstrapNames(env);
    FirstFix(env, Run(env, 1));
    hide Step, EntryKeys, EntryOutput, EntryIncident, BuildContext;
    StepHasEffect(env, Run(env, 0));
  }

  lemma BootstrapNames(env: Env)
    ensures Step(env, Start(env)).state.incidentId == EntryIncident(env.request.trigger)
  {
    hide EntryKeys, EntryOutput, EntryIncident;
  }

  /** What the first Corrector call of a test entry is about: the failing test, and its own output exactly when the
      trigger carries no crash report (or one with the same text). A crash report's text takes precedence, and is
      still read by the pytest parser. */
  lemma FirstCallOfATestEntry(env: Env)
    requires env.request.trigger.kind == Test && env.request.trigger.failingTest.Some?
    ensures var t, s := env.request.trigger, Run(env, 1).state; var first := BuildContext(s);
      && Run(env, 1).pc == Fix && Run(env, 2).world.fixerCalls == [first]
      && s.keys.entryKind == Test && s.signature == Read(env, s, first.failureOutput)
      && first.reproducer == Some(t.failingTest.value.nodeId)
      && first.incidentId == (if t.crashReport.Some? then t.crashReport.value.incidentId else t.failingTest.value.nodeId)
      && (t.crashReport.Some? ==> first.failureOutput == t.crashReport.value.stackTrace)
      && (first.failureOutput == t.failingTest.value.lastFailureOutput <==>
            t.crashReport.None? || t.crashReport.value.stackTrace == t.failingTest.value.lastFailureOutput)
  {
    hide Run, DescribeAll, CycleAttempts;
    FirstCall(env);
  }

  /** The first Corrector call of a crash entry is about the report's incident and shows its stack trace; the error
      under repair is what the crash parser reads from that trace in the workspace, and no test is named. */
  lemma FirstCallOfACrashEntry(env: Env)
    requires env.request.trigger.kind == Crash && env.request.trigger.crashReport.Some?
    ensures var report, s := env.request.trigger.crashReport.value, Run(env, 1).state; var first := BuildContext(s);
      && Run(env, 1).pc == Fix && Run(env, 2).world.fixerCalls == [first]
      && first.incidentId == report.incidentId && first.failureOutput == report.stackTrace && first.reproducer.None?
      && s.signature == env.parse(report.stackTrace, Crash, env.request.workspacePath)
  {
    hide Run, DescribeAll, CycleAttempts;
    FirstCall(env);
  }

  lemma FirstFix(env: Env, m: Machine)
    requires m.pc == Fix
    ensures Step(env, m).world.fixerCalls == m.world.fixerCalls + [BuildContext(m.state)]
  {
    hide BuildContext;
  }

  // --- every call ----------------------------------------------------------------------------

  /** The note gives the record's reason and, exactly when its output is not blank, that output's last 1200 characters. */
  predicate Tells(note: AttemptNote, a: FailedAttempt) {
    && note.reason == a.reason
    && (note.outputTail.None? <==> a.sandboxResult.None? || Text.Blank(a.sandboxResult.value.logsTail))
    && (note.outputTail.Some? ==>
          var logs, tail := a.sandboxResult.value.logsTail, note.outputTail.value;
          |tail| == (if |logs| < 1200 then |logs| else 1200) && logs[|logs| - |tail|..] == tail)
  }

  /** The call is about the state's error, with one note for each failed attempt at it, in order, and no change to go
      on from. */
  predicate IsTold(call: FixContext, s: State) {
    && call.incidentId == s.incidentId && call.failureOutput == s.failureOutput && call.fixDiff == ""
    && call.reproduceCmd == s.keys.reproduceCmd && call.reproducer == s.keys.reproducer
    && |call.previousAttempts| == s.attemptCount <= |s.failedAttempts|
    && forall i :: 0 <= i < s.attemptCount ==>
         Tells(call.previousAttempts[i], s.failedAttempts[|s.failedAttempts| - s.attemptCount + i])
  }

  /** What the Corrector is told of a failed attempt: why it failed and, unless its output was blank, the last
      1200 characters of that output. */
  lemma NotesCarryTheTail(a: FailedAttempt)
    ensures Tells(Describe(a), a)
  {
    hide Text.Strip, Text.Blank;
    if a.sandboxResult.Some? {
      Text.StripIsEmptyExactlyWhenBlank(a.sandboxResult.value.logsTail);
    }
  }

  lemma AllNotesTell(attempts: seq<FailedAttempt>, i: nat)
    requires i < |attempts|
    ensures Tells(DescribeAll(attempts)[i], attempts[i])
  {
    NotesCarryTheTail(attempts[i]);
    hide Tells, Describe;
  }

  lemma ContextTells(s: State)
    requires Clean(s) && s.attemptCount <= |s.failedAttempts|
    requires CycleAttempts(s.failedAttempts, s.cycleIndex) == s.failedAttempts[|s.failedAttempts| - s.attemptCount..]
    ensures IsTold(BuildContext(s), s)
  {
    hide CycleAttempts, DescribeAll, Tells;
    var own := s.failedAttempts[|s.failedAttempts| - s.attemptCount..];
    forall i | 0 <= i < s.attemptCount ensures Tells(DescribeAll(own)[i], own[i]) {
      AllNotesTell(own, i);
    }
  }

  /** At every fix entry the Corrector is told exactly that. */
  lemma CorrectorIsTold(env: Env, n: nat)
    requires Run(env, n).pc == Fix
    ensures IsTold(BuildContext(Run(env, n).state), Run(env, n).state)
  {
    hide Run, IsTold, BuildContext, CycleAttempts, Clean, InBudget, Numbered, Recorded, Retries;
    Theorems.FixEntry(env, n);
    Theorems.CorrectorSeesCurrentAttempts(env, n);
    ContextTells(Run(env, n).state);
  }

  /** Whatever call k received, it received it at a fix entry, from the state the run then was in: calls are kept as
      they were made. */
  lemma {:induction false} EveryCallIsTold(env: Env, n: nat, k: nat) returns (entry: nat)
    requires k < |Run(env, n).world.fixerCalls|
    ensures entry < n && Run(env, entry).pc == Fix && |Run(env, entry).world.fixerCalls| == k
    ensures IsTold(Run(env, n).world.fixerCalls[k], Run(env, entry).state)
  {
    hide Step, IsTold, BuildContext;
    NothingAtFirst(env);
    assert n > 0;
    var m := Run(env, n - 1);
    if m.pc != End {
      OneCallAtMost(env, m);
    }
    if k < |m.world.fixerCalls| {
      entry := EveryCallIsTold(env, n - 1, k);
    } else {
      entry := n - 1;
      CorrectorIsTold(env, entry);
    }
  }

  lemma NothingAtFirst(env: Env)
    ensures Run(env, 0).world.fixerCalls == []
  {
  }

  lemma OneCallAtMost(env: Env, m: Machine)
    requires m.pc != End
    ensures Step(env, m).world.fixerCalls ==
            if m.pc == Fix then m.world.fixerCalls + [BuildContext(m.state)] else m.world.fixerCalls
  {
    if m.pc == Fix {
      FirstFix(env, m);
    } else {
      hide Step, BuildContext, SameHistory, SameFlags, SameAttempt, NoAttempt;
      StepHasEffect(env, m);
      ImmunizeFrame(env, m.state, m.world);
    }
  }
}
