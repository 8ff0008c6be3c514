/** Bookkeeping of failed attempts over every run. */
module History {
  import opened Domain
  import opened HealingState
  import opened Nodes
  import opened Machine
  import opened Effects
  import opened NodeContracts

  /** A record continues its predecessor's cycle by one, or opens a later cycle at zero. */
  predicate Continues(attempts: seq<FailedAttempt>, i: nat)
    requires i < |attempts|
  {
    if i > 0 && attempts[i - 1].cycleIndex == attempts[i].cycleIndex
    then attempts[i].attemptIndex == attempts[i - 1].attemptIndex + 1
    else attempts[i].attemptIndex == 0 && (i > 0 ==> attempts[i - 1].cycleIndex < attempts[i].cycleIndex)
  }

  predicate Numbered(attempts: seq<FailedAttempt>) {
    forall i :: 0 <= i < |attempts| ==> Continues(attempts, i)
  }

  lemma NumberedPrefix(attempts: seq<FailedAttempt>, n: nat)
    requires Numbered(attempts) && n <= |attempts|
    ensures Numbered(attempts[..n])
  {
    forall i | 0 <= i < n ensures Continues(attempts[..n], i) {
      assert Continues(attempts, i);
    }
  }

  lemma NumberedSnoc(attempts: seq<FailedAttempt>, a: FailedAttempt)
    requires Numbered(attempts) && Continues(attempts + [a], |attempts|)
    ensures Numbered(attempts + [a])
  {
    forall i | 0 <= i < |attempts| ensures Continues(attempts + [a], i) {
      assert Continues(attempts, i);
    }
  }

  /** The last `attempt_count` records are the current cycle's, numbered from zero; the others belong to
      earlier cycles, none of which used up its retries. */
  predicate Recorded(s: State) {
    var n := |s.failedAttempts| - s.attemptCount;
    && 0 <= n
    && (forall i :: n <= i < |s.failedAttempts| ==>
          s.failedAttempts[i].cycleIndex == s.cycleIndex && s.failedAttempts[i].attemptIndex == i - n)
    && (forall i :: 0 <= i < n ==>
          s.failedAttempts[i].cycleIndex < s.cycleIndex && s.failedAttempts[i].attemptIndex + 1 < Retries(s.keys))
  }

  predicate Tidy(m: Machine) {
    m.pc != Bootstrap ==> Numbered(m.state.failedAttempts) && Recorded(m.state)
  }

  lemma TidyStep(env: Env, m: Machine)
    requires m.pc != End && Tidy(m) && Control(env, m)
    ensures Tidy(Step(env, m))
  {
    hide Step, Numbered, Summarise, SameAttempt, SameFlags, SameCalls, NoAttempt, NewCommit, NewEntry, NewEvidence,
      ImmunizeOutcome, ResetTree, Residual;
    StepHasEffect(env, m);
    if m.pc == Rollback {
      TidyRecord(m.state);
    } else if m.pc == Bootstrap {
      NothingIsNumbered();
    }
  }

  lemma NothingIsNumbered()
    ensures Numbered([])
  {
  }

  /** The record of the current attempt continues the numbering. */
  lemma TidyRecord(s: State)
    requires Numbered(s.failedAttempts) && Recorded(s)
    ensures Numbered(s.failedAttempts + [NewRecord(s)])
  {
    hide Numbered, Summarise;
    NumberedSnoc(s.failedAttempts, NewRecord(s));
  }

  /** Every record says why its attempt failed, and the reason fits what the record holds. */
  predicate Explained(attempts: seq<FailedAttempt>) {
    forall i :: 0 <= i < |attempts| ==>
      match attempts[i].reason
      case NoFix => attempts[i].patch.None?
      case Regression => attempts[i].patch.Some? && attempts[i].sandboxResult.Some? && !Green(attempts[i].sandboxResult)
      case SandboxVerdict(v, code) =>
        attempts[i].patch.Some? && v != Passed && attempts[i].sandboxResult.Some?
        && attempts[i].sandboxResult.value.verdict == v && attempts[i].sandboxResult.value.exitCode == code
      case UnknownFailure => false
  }

  lemma ExplainedStep(env: Env, m: Machine)
    requires m.pc != End && Explained(m.state.failedAttempts) && Control(env, m)
    ensures Explained(Step(env, m).state.failedAttempts)
  {
    hide Step, SameAttempt, SameFlags, SameCalls, NoAttempt, NewCommit, NewEntry, NewEvidence, ImmunizeOutcome, ResetTree;
    StepHasEffect(env, m);
  }

  // --- what the Corrector is shown ----------------------------------------------------

  lemma {:induction false} CycleAttemptsAreTheTail(attempts: seq<FailedAttempt>, cycle: nat, n: nat)
    requires n <= |attempts|
    requires forall i :: 0 <= i < n ==> attempts[i].cycleIndex != cycle
    requires forall i :: n <= i < |attempts| ==> attempts[i].cycleIndex == cycle
    ensures CycleAttempts(attempts, cycle) == attempts[n..]
  {
    if attempts != [] {
      var init, last := attempts[..|attempts| - 1], attempts[|attempts| - 1];
      if n < |attempts| {
        CycleAttemptsAreTheTail(init, cycle, n);
        assert init[n..] + [last] == attempts[n..];
      } else {
        CycleAttemptsAreTheTail(init, cycle, n - 1);
      }
    }
  }

  /** Within one cycle the records are numbered 0, 1, 2, ... without gaps, however long ago the cycle was. */
  lemma {:induction false} CycleIsGapFree(attempts: seq<FailedAttempt>, cycle: nat)
    requires Numbered(attempts)
    ensures var own := CycleAttempts(attempts, cycle);
      && (forall j :: 0 <= j < |own| ==> own[j].attemptIndex == j && own[j].cycleIndex == cycle)
      && (attempts != [] && attempts[|attempts| - 1].cycleIndex < cycle ==> own == [])
      && (attempts != [] && attempts[|attempts| - 1].cycleIndex == cycle ==>
            own != [] && own[|own| - 1] == attempts[|attempts| - 1])
  {
    if attempts != [] {
      var init := attempts[..|attempts| - 1];
      NumberedPrefix(attempts, |attempts| - 1);
      CycleIsGapFree(init, cycle);
      var k := |attempts| - 1;
      assert k > 0 ==> init[|init| - 1] == attempts[k - 1];
      assert Continues(attempts, k);
    }
  }

  lemma {:induction false} CycleAttemptsAreRecorded(attempts: seq<FailedAttempt>, cycle: nat, j: nat)
    requires j < |CycleAttempts(attempts, cycle)|
    ensures CycleAttempts(attempts, cycle)[j] in attempts
  {
    var init := attempts[..|attempts| - 1];
    if j < |CycleAttempts(init, cycle)| {
      CycleAttemptsAreRecorded(init, cycle, j);
    }
  }

  /** The record at a fix entry, read back through the filter that builds the Corrector's context. */
  lemma RecordedCycles(s: State)
    requires Numbered(s.failedAttempts) && Recorded(s)
    ensures s.attemptCount <= |s.failedAttempts|
    ensures CycleAttempts(s.failedAttempts, s.cycleIndex) == s.failedAttempts[|s.failedAttempts| - s.attemptCount..]
    ensures forall cycle: nat :: cycle < s.cycleIndex ==> |CycleAttempts(s.failedAttempts, cycle)| < Retries(s.keys)
  {
    CycleAttemptsAreTheTail(s.failedAttempts, s.cycleIndex, |s.failedAttempts| - s.attemptCount);
    forall cycle: nat | cycle < s.cycleIndex
      ensures |CycleAttempts(s.failedAttempts, cycle)| < Retries(s.keys)
    {
      var own := CycleAttempts(s.failedAttempts, cycle);
      CycleIsGapFree(s.failedAttempts, cycle);
      hide Numbered, Retries, CycleAttempts;
      if own != [] {
        CycleAttemptsAreRecorded(s.failedAttempts, cycle, |own| - 1);
      }
    }
  }
}
