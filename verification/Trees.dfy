/** What the git tree contains, over every run whose resets succeed. */
module Trees {
  import opened Wrappers
  import opened HealingState
  import opened Nodes
  import opened Machine
  import opened Effects
  import opened NodeContracts
  import opened Budgets

  ghost predicate ResetsWork(env: Env) {
    env.request.workspacePath != "" && forall k: nat :: env.reset(k)
  }

  /** The tree with the test kept for it, if any. */
  function WithTest(keys: SessionKeys, tree: Workspace, test: Option<string>): Workspace {
    if test.None? then tree else AppendTest(keys.workspacePath, tree, test.value)
  }

  /** The repository as the accepted attempts alone would make it: each one's edit and kept test, in order,
      starting from the initial checkout. The very first Corrector call also sees the fresh session file. */
  function Replay(env: Env, accepted: seq<Evidence>): Workspace {
    if accepted == [] then env.request.initial
    else
      var last := accepted[|accepted| - 1];
      var before := if last.attempt == 0 then EntryTree(env) else Replay(env, accepted[..|accepted| - 1]);
      WithTest(EntryKeys(env), env.fixer(last.attempt).edit(before), last.test)
  }

  predicate InOrder(accepted: seq<Evidence>) {
    forall i :: 0 < i < |accepted| ==> accepted[i - 1].attempt < accepted[i].attempt
  }

  /** The tree the unsettled Corrector call started from. */
  function Before(env: Env, w: World): Workspace {
    if |w.fixerCalls| <= 1 then EntryTree(env) else w.head
  }

  predicate Tree(env: Env, m: Machine) {
    var w := m.world;
    match m.pc
    case Bootstrap => w == InitialWorld(env)
    case Fix => w.work == if w.fixerCalls == [] then EntryTree(env) else w.head
    case Validate | Immunize =>
      && w.fixerCalls != []
      && w.work == env.fixer(|w.fixerCalls| - 1).edit(Before(env, w))
    case ReportCommit =>
      && w.fixerCalls != []
      && w.work == WithTest(m.state.keys, env.fixer(|w.fixerCalls| - 1).edit(Before(env, w)), Source(m.state.regressionTest))
    case Rollback => w.fixerCalls != []
    case PostMortem | End => w.work == w.head
  }

  predicate CommitsReplay(env: Env, commits: seq<Commit>, accepted: seq<Evidence>) {
    && |commits| == |accepted|
    && forall i :: 0 <= i < |commits| ==> commits[i].tree == Replay(env, accepted[..i + 1])
  }

  lemma CommitsReplaySnoc(env: Env, commits: seq<Commit>, accepted: seq<Evidence>, c: Commit, e: Evidence)
    requires CommitsReplay(env, commits, accepted) && c.tree == Replay(env, accepted + [e])
    ensures CommitsReplay(env, commits + [c], accepted + [e])
  {
    hide Replay;
    forall i | 0 <= i <= |commits|
      ensures (commits + [c])[i].tree == Replay(env, (accepted + [e])[..i + 1])
    {
      if i < |commits| {
        assert (accepted + [e])[..i + 1] == accepted[..i + 1];
      } else {
        assert (accepted + [e])[..i + 1] == accepted + [e];
      }
    }
  }

  /** HEAD and every commit are the replay of the attempts accepted so far. */
  predicate Replayed(env: Env, m: Machine) {
    var w := m.world;
    && w.head == Replay(env, w.evidence) && (w.fixerCalls == [] ==> w.evidence == [])
    && CommitsReplay(env, w.commits, w.evidence)
    && (forall i :: 0 <= i < |w.evidence| ==> w.evidence[i].attempt < |w.fixerCalls| - InFlight(m.pc))
    && (forall i :: 0 < i < |w.evidence| ==> w.evidence[i - 1].attempt < w.evidence[i].attempt)
  }

  lemma GateAndKeepTree(env: Env, s: State, w: World, source: string, gated: bool)
    ensures var (w', kept) := GateAndKeep(env, s, w, source, gated);
      w'.work == WithTest(s.keys, w.work, Source(kept)) && (kept.Some? ==> kept.value.source == source)
  {
  }

  /** Immunisation appends exactly the test it reports, or nothing. */
  lemma ImmunizeTree(env: Env, s: State, w: World)
    ensures var o := ImmunizeOutcome(env, s, w); o.world.work == WithTest(s.keys, w.work, Source(o.test))
  {
    var draft := env.tester(w.testerCalls);
    var w1 := w.(testerCalls := w.testerCalls + 1);
    GateAndKeepTree(env, s, w1, env.smokeSource, true);
    if draft.Some? {
      var (w2, kept) := GateAndKeep(env, s, w1, draft.value, Green(s.sandboxResult));
      GateAndKeepTree(env, s, w1, draft.value, Green(s.sandboxResult));
      GateAndKeepTree(env, s, w2, env.smokeSource, true);
    }
    hide GateAndKeep, AppendTest;
  }

  lemma TreeStep(env: Env, m: Machine)
    requires m.pc != End && ResetsWork(env) && Tree(env, m) && KeysFixed(env, m)
    ensures Tree(env, Step(env, m))
  {
    hide Step, WithTest, EntryTree, SameAttempt, SameFlags, NoAttempt, ImmunizeOutcome, ChainGoesOn, NewRecord, NewEntry,
      NewEvidence, Message;
    StepHasEffect(env, m);
    ImmunizeTree(env, m.state, m.world);
  }

  lemma ReplaySnoc(env: Env, accepted: seq<Evidence>, e: Evidence)
    ensures Replay(env, accepted + [e]) ==
            WithTest(EntryKeys(env),
                     env.fixer(e.attempt).edit(if e.attempt == 0 then EntryTree(env) else Replay(env, accepted)), e.test)
  {
    hide WithTest, EntryTree, EntryKeys;
    assert (accepted + [e])[..|accepted|] == accepted;
  }

  /** The tree about to be committed is the replay with the attempt under way accepted. */
  lemma CommitIsReplay(env: Env, m: Machine)
    requires m.pc == ReportCommit && Tree(env, m) && KeysFixed(env, m) && Replayed(env, m)
    ensures var e := NewEvidence(m.state, m.world);
      m.world.work == Replay(env, m.world.evidence + [e]) && e.attempt == |m.world.fixerCalls| - 1 >= 0
  {
    hide WithTest, EntryTree, EntryKeys, Replay, CommitsReplay, Source;
    ReplaySnoc(env, m.world.evidence, NewEvidence(m.state, m.world));
  }

  lemma ReplayedReportCommit(env: Env, m: Machine)
    requires m.pc == ReportCommit && Tree(env, m) && KeysFixed(env, m) && Replayed(env, m)
    ensures Replayed(env, Step(env, m))
  {
    hide Step, Tree, KeysFixed, Replay, CommitsReplay, SameAttempt, SameFlags, NoAttempt, ChainGoesOn, NewEntry, NewEvidence,
      Message, Sha;
    StepHasEffect(env, m);
    CommitIsReplay(env, m);
    CommitsReplaySnoc(env, m.world.commits, m.world.evidence, NewCommit(env, m.state, m.world), NewEvidence(m.state, m.world));
  }

  lemma ReplayedStep(env: Env, m: Machine)
    requires m.pc != End && Tree(env, m) && KeysFixed(env, m) && Replayed(env, m)
    ensures Replayed(env, Step(env, m))
  {
    if m.pc == ReportCommit {
      hide Step, Replayed;
      ReplayedReportCommit(env, m);
    } else {
      hide Step, Replay, CommitsReplay, EntryTree, SameAttempt, SameFlags, NoAttempt, ImmunizeOutcome, NewRecord, ResetTree;
      StepHasEffect(env, m);
    }
  }
}
