/** The pipeline itself: nodes that change the state, the git tree and the session file in place, driven along
    the graph's edges. Each is proved against its function in Nodes.dfy, so what is proved of
    Machine.Run holds of the object that Drive leaves. */
module Pipeline {
  import opened Wrappers
  import opened Domain
  import opened HealingState
  import opened Nodes
  import opened GitPort
  import opened Graph
  import opened Telemetry
  import opened Reports
  import opened Tracing
  import Machine
  import Budgets
  import Invariants
  import Theorems
  import Text

  class Session {
    const env: Env
    const git: Git
    const sink: InMemoryTelemetry
    const around: nat -> Happening
    var state: State
    var fixerCalls: seq<FixContext>
    var sandboxCalls: nat
    var testerCalls: nat
    var reporterCalls: nat
    var attemptRuns: seq<SandboxRun>
    var evidence: seq<Evidence>

    constructor (env: Env, sink: InMemoryTelemetry, around: nat -> Happening)
      ensures this.env == env && fresh(git) && this.sink == sink && this.around == around
      ensures state == Blank && World() == InitialWorld(env)
    {
      this.env, this.sink, this.around := env, sink, around;
      git := new Git(env.request.initial);
      state := Blank;
      fixerCalls, sandboxCalls, testerCalls, reporterCalls, attemptRuns, evidence := [], 0, 0, 0, [], [];
    }

    /** The object's fields as the value the specification speaks of. */
    function World(): World
      reads this, git
    {
      Nodes.World(git.work, git.head, git.commits, evidence, git.resets, fixerCalls, sandboxCalls, attemptRuns,
                  testerCalls, reporterCalls)
    }

    method RunTests(command: Command) returns (result: SandboxResult)
      modifies this`sandboxCalls, this`attemptRuns
      ensures result == SandboxAnswer(env, old(World())) && World() == RunSandbox(env, old(World()), command)
    {
      result := env.sandbox(sandboxCalls);
      attemptRuns := attemptRuns + [SandboxRun(command, git.work, result)];
      sandboxCalls := sandboxCalls + 1;
    }

    method BootstrapNode()
      modifies this`state, git`work
      ensures (state, World()) == Nodes.BootstrapNode(env, old(state), old(World()))
    {
      var keys := EntryKeys(env);
      if keys.entryKind == Crash {
        git.EnsureSessionFile(keys.workspacePath, env.sessionHeader);
      }
      var output := EntryOutput(env.request.trigger);
      var incident := EntryIncident(env.request.trigger);
      state := state.(
        keys := keys,
        incidentId := incident,
        signature := env.parse(output, keys.entryKind, keys.workspacePath),
        failureOutput := output,
        attemptCount := 0,
        cycleIndex := 0,
        isResolved := false,
        logs := state.logs + [BootstrapEntry(keys.entryKind, incident)]);
    }

    /** The attempts of the current cycle, picked out of the whole history. */
    method CurrentCycleAttempts() returns (attempts: seq<FailedAttempt>)
      ensures attempts == CycleAttempts(state.failedAttempts, state.cycleIndex)
    {
      attempts := [];
      var all := state.failedAttempts;
      for i := 0 to |all|
        invariant attempts == CycleAttempts(all[..i], state.cycleIndex)
      {
        assert all[..i + 1][..i] == all[..i];
        if all[i].cycleIndex == state.cycleIndex {
          attempts := attempts + [all[i]];
        }
      }
      assert all[..|all|] == all;
    }

    method FixNode()
      modifies this`state, this`fixerCalls, this`attemptRuns, git`work
      ensures (state, World()) == Nodes.FixNode(env, old(state), old(World()))
    {
      var previous := CurrentCycleAttempts();
      var context := FixContext(state.incidentId, state.failureOutput, state.keys.reproduceCmd, state.keys.reproducer,
                                DescribeAll(previous), if state.patch.Some? then state.patch.value.diffText else "");
      var answer := env.fixer(|fixerCalls|);
      fixerCalls := fixerCalls + [context];
      attemptRuns := [];
      git.work := answer.edit(git.work);
      match answer.outcome {
        case Raised => state := state.(patch := None, logs := state.logs + [FixError]);
        case NoPatch => state := state.(patch := None, logs := state.logs + [FixNoPatch]);
        case Produced(p) => state := state.(patch := Some(p), logs := state.logs + [FixPatch(|p.diffText|)]);
      }
    }

    method ValidateNode()
      modifies this`state, this`sandboxCalls, this`attemptRuns
      ensures (state, World()) == Nodes.ValidateNode(env, old(state), old(World()))
    {
      if state.keys.workspacePath == "" {
        state := state.(
          sandboxResult := Some(SandboxResult(InfrastructureError, None, "missing workspace_path")),
          postSignature := None, postOutput := "", logs := state.logs + [ValidateInvalidState]);
        return;
      }
      var result := RunTests(state.keys.reproduceCmd);
      if result.verdict == Passed {
        var gate := GateCommand(env, state.keys, state.patch, git.work);
        if gate.Some? {
          var gateResult := RunTests(gate.value);
          if gateResult.verdict != Passed && gateResult.exitCode != Some(5) {
            state := state.(
              sandboxResult := Some(gateResult), postSignature := None, postOutput := "", regressionDetected := true,
              logs := state.logs + [ValidateRegression(gateResult.verdict)]);
            return;
          }
        }
      }
      state := state.(
        sandboxResult := Some(result),
        postSignature := if result.verdict == Passed then None
                         else env.parse(result.logsTail, state.keys.entryKind, state.keys.workspacePath),
        postOutput := result.logsTail,
        regressionDetected := false,
        logs := state.logs + [ValidateVerdict(result.verdict)]);
    }

    method GateAndKeep(source: string, gated: bool) returns (kept: Option<RegressionTest>)
      modifies this`sandboxCalls, this`attemptRuns, git`work
      ensures (World(), kept) == Nodes.GateAndKeep(env, state, old(World()), source, gated)
      ensures kept.None? ==> git.work == old(git.work)
    {
      var path := state.keys.workspacePath;
      var before := git.ReadSessionText(path);
      git.AppendRegressionTest(path, source);
      var nodeId := NodeId(env, state.keys, source);
      if gated {
        var result := RunTests(OneTest(nodeId));
        if result.verdict != Passed {
          git.RestoreSessionText(path, before);
          return None;
        }
      }
      kept := Some(RegressionTest(state.keys.testPath, nodeId, source));
    }

    method ImmunizeNode()
      modifies this`state, this`testerCalls, this`sandboxCalls, this`attemptRuns, git`work
      ensures (state, World()) == Nodes.ImmunizeNode(env, old(state), old(World()))
    {
      if state.keys.entryKind != Crash {
        state := state.(regressionTest := None, logs := state.logs + [ImmunizeSkipped]);
        return;
      }
      var green := Green(state.sandboxResult);
      var draft := env.tester(testerCalls);
      testerCalls := testerCalls + 1;
      if draft.Some? {
        var kept := GateAndKeep(draft.value, green);
        if kept.Some? {
          state := state.(regressionTest := kept, logs := state.logs + [ImmunizeTargeted(kept.value.nodeId)]);
          return;
        }
      }
      if green {
        var kept := GateAndKeep(env.smokeSource, true);
        if kept.Some? {
          state := state.(regressionTest := kept, logs := state.logs + [ImmunizeSmoke(kept.value.nodeId)]);
          return;
        }
      }
      state := state.(regressionTest := None, logs := state.logs + [ImmunizeNoTest]);
    }

    /** The Reporter's message, or the fallback when it fails. */
    method ComposeMessage() returns (message: CommitMessage)
      modifies this`reporterCalls
      ensures message == Message(env, state, old(World()))
      ensures World() == old(World()).(reporterCalls := old(reporterCalls) + 1)
    {
      var text := env.reporter(reporterCalls);
      reporterCalls := reporterCalls + 1;
      message := if text.Some? then Composed(text.value) else FallbackMessage(state.incidentId, state.signature);
    }

    method ReportCommitNode()
      modifies this`state, this`reporterCalls, this`evidence, git`head, git`commits
      ensures (state, World()) == Nodes.ReportCommitNode(env, old(state), old(World()))
    {
      hide Residual, Healed, Sha, Message;
      var message := ComposeMessage();
      var sha := git.Commit(message);
      var test, path := None, None;
      if state.regressionTest.Some? {
        test, path := Some(state.regressionTest.value.source), Some(state.regressionTest.value.path);
      }
      evidence := evidence + [Evidence(Max(0, |fixerCalls| - 1), state.patch, test, attemptRuns)];
      var residual := Residual(state);
      state := state.(
        resolvedErrors := state.resolvedErrors + [ResolvedError(Healed(state), sha, path)],
        isResolved := true,
        logs := state.logs + [ReportCommitSha(sha)]);
      if residual.Some? && state.cycleIndex + 1 < state.keys.cycleBudget {
        state := state.(
          shouldContinue := true,
          signature := residual,
          failureOutput := state.postOutput,
          incidentId := state.incidentId + "-chain" + Text.Decimal(state.cycleIndex + 1),
          cycleIndex := state.cycleIndex + 1,
          attemptCount := 0,
          patch := None, sandboxResult := None, regressionTest := None, postSignature := None, postOutput := "");
      } else {
        state := state.(shouldContinue := false);
      }
    }

    method RollbackNode()
      modifies this`state, git`work, git`resets
      ensures (state, World()) == Nodes.RollbackNode(env, old(state), old(World()))
    {
      if state.keys.workspacePath != "" {
        git.ResetHard(env.reset(git.resets));
      }
      var reason := Summarise(state);
      var record := FailedAttempt(state.attemptCount, state.cycleIndex, state.patch, state.sandboxResult, reason);
      state := state.(
        failedAttempts := state.failedAttempts + [record],
        attemptCount := state.attemptCount + 1,
        failureOutput := if state.postOutput != "" then state.postOutput else state.failureOutput,
        patch := None, sandboxResult := None, postSignature := None, postOutput := "", regressionDetected := false,
        logs := state.logs + [RollbackAttempt(state.attemptCount, reason)]);
    }

    method PostMortemNode()
      modifies this`state, this`reporterCalls
      ensures (state, World()) == Nodes.PostMortemNode(env, old(state), old(World()))
    {
      reporterCalls := reporterCalls + 1;
      state := state.(postMortemPath := Some(env.reportPath), isResolved := false,
                      logs := state.logs + [PostMortemReport(env.reportPath)]);
    }

    method ExecuteNode(node: Node, ghost trace: seq<Node>)
      requires node != End
      modifies this, git
      ensures Machine.Machine(Next(node, state), state, World(), trace + [node])
           == Machine.Step(env, old(Machine.Machine(node, state, World(), trace)))
    {
      match node {
        case Bootstrap => BootstrapNode();
        case Fix => FixNode();
        case Validate => ValidateNode();
        case Immunize => ImmunizeNode();
        case ReportCommit => ReportCommitNode();
        case Rollback => RollbackNode();
        case PostMortem => PostMortemNode();
      }
    }

    /** One node inside its span scope: the span is recorded whether the node returns or an exception escapes
        it. In the second case nothing is promised of the state and the tree. */
    method TracedNode(node: Node, ghost trace: seq<Node>, k: nat) returns (error: Option<string>)
      requires node != End
      modifies this, git, sink
      ensures sink.spans == old(sink.spans) + SpansOf(node, around(k))
      ensures error == around(k).escape
      ensures error.None? ==>
        Machine.Machine(Next(node, state), state, World(), trace + [node])
        == Machine.Step(env, old(Machine.Machine(node, state, World(), trace)))
    {
      hide Machine.Step, NodeName, Next;
      var scope := new SpanScope(sink, NodePrefix + NodeName(node));
      var happening := around(k);
      sink.RecordAll(happening.inside);
      error := happening.escape;
      if error.None? {
        ExecuteNode(node, trace);
      }
      scope.Close(happening.duration, error);
    }

    /** Build the graph and follow it to its end, or until an exception escapes a node. Without one the session
        ends where the specification's run does; in both cases the telemetry is exactly the log of the nodes
        gone through. */
    method Drive() returns (trace: seq<Node>, error: Option<string>)
      requires state == Blank && World() == InitialWorld(env)
      modifies this, git, sink
      ensures error.None? ==> Machine.Machine(End, state, World(), trace) == Machine.Run(env, |trace|)
      ensures error.Some? ==> Machine.Run(env, |trace|).pc != End
      ensures Machine.Run(env, |trace|).trace == trace && |trace| <= Budgets.Bound(EntryKeys(env))
      ensures sink.spans == old(sink.spans) + Emitted(Visited(env, |trace|, error.Some?), around)
    {
      hide Machine.Step, Machine.Run, Budgets.Remaining, Next, Emitted, SpansOf, NodeName, Budgets.Bound, EntryKeys;
      var graph := BuildGraph();
      var node := graph.entry.value;
      trace, error := [], None;
      EmittedNothing(around);
      Entry(env);
      while node != End
        invariant graph.edges == FixedEdges && graph.conditional == Tables
        invariant Machine.Machine(node, state, World(), trace) == Machine.Run(env, |trace|)
        invariant error.None? && Executed(trace) && sink.spans == old(sink.spans) + Emitted(trace, around)
        decreases Budgets.Remaining(env, Machine.Machine(node, state, World(), trace))
      {
        Invariants.StepFromHere(env, |trace|);
        Theorems.EveryRunEnds(env, |trace|);
        EmittedStep(trace, node, around);
        Text.Regroup(old(sink.spans), Emitted(trace, around), SpansOf(node, around(|trace|)));
        error := TracedNode(node, trace, |trace|);
        if error.Some? {
          return;
        }
        NextFollowsTheGraph(node, state);
        trace := trace + [node];
        node := if node in graph.edges then graph.edges[node] else graph.conditional[node][Route(node, state)];
      }
      Theorems.EveryRunEnds(env, |trace|);
    }

    static lemma Entry(env: Env)
      ensures Machine.Run(env, 0) == Machine.Machine(Bootstrap, Blank, InitialWorld(env), [])
    {
    }
  }

  /** Run a session with a fresh sink and report on it, as the runners do. The report's node path is the run's,
      with no assumption on how the log came about but that ports name their spans unlike nodes; and a session
      that ended tells through the path whether it is resolved. */
  method RunAndReport(env: Env, around: nat -> Happening, early: seq<Span>, late: seq<Span>)
    returns (report: Report, resolved: bool, trace: seq<Node>, error: Option<string>)
    requires AlwaysOrdinary(around) && forall i :: 0 <= i < |early| ==> !(NodePrefix <= early[i].name)
    ensures Machine.Run(env, |trace|).trace == trace && |trace| <= Budgets.Bound(EntryKeys(env))
    ensures error.None? ==> Machine.Run(env, |trace|).pc == End && resolved == Machine.Run(env, |trace|).state.isResolved
    ensures report.nodePath == Names(Visited(env, |trace|, error.Some?))
    ensures error.None? ==>
      (report.nodePath != [] && (resolved <==> report.nodePath[|report.nodePath| - 1] == "report_commit"))
  {
    hide Machine.Run, Machine.Step, Sum, NodePath, NodeName, Names, Visited, Emitted, AlwaysOrdinary, Budgets.Bound, EntryKeys;
    var sink := new InMemoryTelemetry();
    var session := new Session(env, sink, around);
    trace, error := session.Drive();
    resolved := session.state.isResolved;
    ghost var log := Emitted(Visited(env, |trace|, error.Some?), around);
    assert [] + log == log;
    report := sink.Aggregate(early, late);
    NodePathIsTheRun(env, |trace|, error.Some?, around, early, late, []);
    if error.None? {
      NodePathTellsTheEnding(env, |trace|);
      WholeVisit(env, |trace|);
    }
  }

  lemma WholeVisit(env: Env, n: nat)
    ensures Visited(env, n, false) == Machine.Run(env, n).trace
  {
  }
}
