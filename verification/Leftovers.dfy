/** What failed resets leave in the tree, and where it ends up, over every run. */
module Leftovers {
  import opened Wrappers
  import opened Domain
  import opened HealingState
  import opened Nodes
  import opened Machine
  import opened Effects
  import opened NodeContracts
  import opened Invariants
  import opened Trees
  import opened Reachability

  /** How many of the current error's latest rollbacks failed to reset, back to the last one that did. */
  function Unreset(env: Env, resets: nat, attempts: nat): nat {
    if attempts == 0 || resets == 0 || env.reset(resets - 1) then 0 else 1 + Unreset(env, resets - 1, attempts - 1)
  }

  /** `count` Corrector edits in a row, starting with call `from`, on top of a tree. */
  function Redo(env: Env, base: Workspace, from: nat, count: nat): Workspace {
    if count == 0 then base else env.fixer(from + count - 1).edit(Redo(env, base, from, count - 1))
  }

  /** The latest `count` Corrector edits on top of HEAD, or of the entry tree when there were no others. */
  function Pile(env: Env, w: World, count: nat): Workspace
    requires count <= |w.fixerCalls|
  {
    Redo(env, if count == |w.fixerCalls| then EntryTree(env) else w.head, |w.fixerCalls| - count, count)
  }

  predicate Piled(env: Env, m: Machine) {
    var s, w := m.state, m.world;
    var left := Unreset(env, w.resets, s.attemptCount);
    match m.pc
    case Bootstrap => m == Start(env)
    case Fix => left <= |w.fixerCalls| && w.work == Pile(env, w, left)
    case Validate | Immunize | Rollback => left < |w.fixerCalls| && w.work == Pile(env, w, left + 1)
    case ReportCommit =>
      left < |w.fixerCalls| && w.work == WithTest(s.keys, Pile(env, w, left + 1), Source(s.regressionTest))
    case _ => true
  }

  lemma PiledFix(env: Env, m: Machine)
    requires m.pc == Fix && Piled(env, m)
    ensures Piled(env, Step(env, m))
  {
    hide Step, EntryTree, SameAttempt, SameFlags, Unreset;
    StepHasEffect(env, m);
    var w, w' := m.world, Step(env, m).world;
    var left := Unreset(env, w.resets, m.state.attemptCount);
    assert |w'.fixerCalls| - (left + 1) == |w.fixerCalls| - left;
    assert |w'.fixerCalls| - (left + 1) + (left + 1) - 1 == |w.fixerCalls|;
  }

  lemma PiledRollback(env: Env, m: Machine)
    requires m.pc == Rollback && Piled(env, m) && m.state.keys.workspacePath != ""
    ensures Piled(env, Step(env, m))
  {
    hide Step, Redo, EntryTree, SameAttempt, SameFlags, NewRecord;
    StepHasEffect(env, m);
    RollbackCounts(env, m);
    NoRedo(env, m.world.head, |m.world.fixerCalls|);
  }

  lemma NoRedo(env: Env, base: Workspace, from: nat)
    ensures Redo(env, base, from, 0) == base
  {
  }

  lemma RollbackCounts(env: Env, m: Machine)
    requires m.pc == Rollback && m.state.keys.workspacePath != ""
    ensures Step(env, m).world.resets == m.world.resets + 1
  {
  }

  lemma NothingPiled(env: Env, w: World, resets: nat)
    requires w.work == if w.fixerCalls == [] then EntryTree(env) else w.head
    ensures Unreset(env, resets, 0) == 0 && w.work == Pile(env, w, 0)
  {
    hide EntryTree;
  }

  lemma PiledEntry(env: Env, m: Machine)
    requires m.pc in {Bootstrap, ReportCommit} && Piled(env, m)
    ensures Piled(env, Step(env, m))
  {
    hide Step, EntryTree, SameAttempt, SameFlags, NoAttempt, NewEntry, NewEvidence, NewCommit, WithTest, EntryKeys, Redo,
      Pile, Unreset, Residual;
    StepHasEffect(env, m);
    NothingPiled(env, Step(env, m).world, Step(env, m).world.resets);
  }

  lemma PiledQuiet(env: Env, m: Machine)
    requires m.pc in {Validate, Immunize, PostMortem} && Piled(env, m)
    ensures Piled(env, Step(env, m))
  {
    hide Step, EntryTree, SameAttempt, SameFlags, ImmunizeOutcome, WithTest, Redo, Unreset;
    StepHasEffect(env, m);
    ImmunizeTree(env, m.state, m.world);
  }

  lemma PiledStep(env: Env, m: Machine)
    requires m.pc != End && Piled(env, m)
    requires KeysFixed(env, m) && EntryKeys(env).workspacePath != ""
    ensures Piled(env, Step(env, m))
  {
    hide Step, Piled, EntryKeys;
    match m.pc {
      case Fix => PiledFix(env, m);
      case Rollback => PiledRollback(env, m);
      case Bootstrap | ReportCommit => PiledEntry(env, m);
      case _ => PiledQuiet(env, m);
    }
  }

  lemma {:induction false} PiledAlways(env: Env, n: nat)
    requires EntryKeys(env).workspacePath != ""
    ensures Piled(env, Run(env, n))
  {
    hide Step, Inv, Control, KeysFixed, EntryKeys, Piled;
    if n == 0 {
      PiledStart(env);
    } else {
      PiledAlways(env, n - 1);
      InvAlways(env, n - 1);
      var m := Run(env, n - 1);
      if m.pc != End {
        InvGivesControl(env, m);
        PiledStep(env, m);
      }
    }
  }

  lemma PiledStart(env: Env)
    ensures Piled(env, Start(env))
  {
  }

  /** Resets or not: the tree a Corrector call starts from is HEAD with exactly the edits of the current error's
      latest attempts whose resets failed, and what is committed next has them all, under the accepted edit. */
  lemma FailedResetsPileUp(env: Env, n: nat)
    requires EntryKeys(env).workspacePath != ""
    ensures var m, w := Run(env, n), Run(env, n).world;
      var left := Unreset(env, w.resets, m.state.attemptCount);
      && (m.pc == Fix ==> left <= |w.fixerCalls| && w.work == Pile(env, w, left))
      && (m.pc == ReportCommit ==>
            && left < |w.fixerCalls|
            && Run(env, n + 1).world.head == WithTest(m.state.keys, Pile(env, w, left + 1), Source(m.state.regressionTest)))
  {
    hide Run, Step, Unreset, Pile, WithTest, EntryKeys, NewEntry, NewEvidence, NewCommit, SameAttempt, SameFlags, NoAttempt;
    PiledAlways(env, n);
    if Run(env, n).pc == ReportCommit {
      RunStep(env, n);
    }
  }

  /** A later attempt starts from HEAD exactly when a commit came just before it, or a rollback whose reset
      succeeded or had nothing to undo. */
  lemma FixEntryIsCleanExactlyWhen(env: Env, n: nat)
    requires Run(env, n + 1).pc == Fix
    ensures var m, m' := Run(env, n), Run(env, n + 1);
      && m.pc in {Bootstrap, ReportCommit, Rollback}
      && (m.pc == ReportCommit ==> m'.world.work == m'.world.head)
      && (m.pc == Rollback ==>
            (m'.world.work == m'.world.head <==>
              (m.state.keys.workspacePath != "" && env.reset(m.world.resets)) || m.world.work == m.world.head))
  {
    assert Run(env, n).pc != End;
    hide Run, Step, NewRecord, NewEntry, NewEvidence, NewCommit, SameAttempt, SameFlags, SameCalls, NoAttempt, ImmunizeOutcome;
    RunStep(env, n);
  }

  // --- a leak ---------------------------------------------------------------------------

  /** The first attempt adds a file and gives up, its reset fails, and the second attempt changes nothing. */
  function Leaky(): Env {
    Sample(true, GreenRun, 2, 1).(
      fixer := (k: nat) =>
        if k == 0 then FixAnswer((w: Workspace) => w.(files := w.files["leak" := "x"]), NoPatch)
        else FixAnswer((w: Workspace) => w, Produced(Patch(""))),
      reset := (_: nat) => false)
  }

  lemma LeakyRetry()
    ensures var m := Run(Leaky(), 3);
      && m.pc == Fix && |m.world.fixerCalls| == 1 && m.world.work.files == map["leak" := "x"]
      && m.world.evidence == [] && m.world.commits == [] && !m.state.regressionDetected
      && m.state.keys.workspacePath != "" && m.state.keys.regressionCmd == [] && m.state.keys.entryKind == Test
  {
    var env := Leaky();
    hide Run, Step, NewRecord;
    assert Run(env, 0) == Start(env) by { RunStart(env); }
    RunStep(env, 0);
    RunStep(env, 1);
    RunStep(env, 2);
  }

  lemma RunStart(env: Env)
    ensures Run(env, 0) == Start(env)
  {
  }

  lemma LeakyValidation()
    ensures var m := Run(Leaky(), 5);
      && m.pc == Immunize && |m.world.fixerCalls| == 2 && m.world.work.files == map["leak" := "x"]
      && m.state.keys.entryKind == Test && m.world.evidence == [] && m.world.commits == []
  {
    var env := Leaky();
    hide Run, ValidateNode;
    LeakyRetry();
    RunStep(env, 3);
    RunStep(env, 4);
    GreenGoesOn(env, Run(env, 4));
  }

  /** A green validation without protected tests leads on to immunisation. */
  lemma GreenGoesOn(env: Env, m: Machine)
    requires m.pc == Validate && env == Leaky() && m.state.keys.workspacePath != "" && m.state.keys.regressionCmd == []
    ensures Step(env, m).pc == Immunize
  {
  }

  /** With a failing reset, an attempt that produced nothing gets its edit into a commit whose accepted attempt
      made no edit at all: the resets are needed for what holds of the committed tree. */
  lemma FailedResetLeaks()
    ensures var w := Run(Leaky(), 7).world;
      && |w.commits| == 1 && w.commits[0].tree.files == map["leak" := "x"]
      && |w.evidence| == 1 && w.evidence[0].attempt == 1 && w.evidence[0].test.None?
      && Replay(Leaky(), w.evidence).files == map[]
  {
    var env := Leaky();
    hide Run, Step, NewEntry, Message, Leaky, ImmunizeOutcome, ChainGoesOn, SameFlags, SameAttempt, NoAttempt, Replay;
    LeakyValidation();
    TestEntriesSkip(env, Run(env, 5).state, Run(env, 5).world);
    RunStep(env, 5);
    RunStep(env, 6);
    var e := NewEvidence(Run(env, 6).state, Run(env, 6).world);
    assert Run(env, 7).world.evidence == [e];
    LeakyReplay(e);
  }

  lemma TestEntriesSkip(env: Env, s: State, w: World)
    requires s.keys.entryKind == Test
    ensures ImmunizeOutcome(env, s, w) == Immunity(w, None, ImmunizeSkipped)
  {
  }

  lemma LeakyReplay(e: Evidence)
    requires e.attempt == 1 && e.test.None?
    ensures Replay(Leaky(), [e]).files == map[]
  {
    var env := Leaky();
    assert [e][..0] == [];
    assert Replay(env, []) == env.request.initial;
  }
}
