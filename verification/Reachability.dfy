/** Every drawn edge is taken by some run, and no other step ever is. */
module Reachability {
  import opened Wrappers
  import opened Domain
  import opened HealingState
  import opened Nodes
  import opened Graph
  import opened Machine
  import opened Effects
  import opened Endings

  /** The run executes `source` after n node executions and goes on to `target`. */
  predicate Taken(env: Env, n: nat, source: Node, target: Node) {
    Run(env, n).pc == source && Run(env, n + 1).pc == target
  }

  function ReadE(text: string, kind: ErrorKind, root: string): Option<Signature> {
    if text == "E" then Some(Signature(kind, "E", "", "")) else None
  }

  /** A test entry whose Corrector always or never claims a patch, and whose sandbox always reports the same. */
  function Sample(claims: bool, result: SandboxResult, retries: int, cycles: int): Env {
    Env(Request(Trigger(Test, None, Some(FailingTest("t.py::t", ""))), "/w", [], [], "", None, None, Workspace(map[], None)),
        Settings(retries, cycles),
        (_: nat) => FixAnswer((w: Workspace) => w, if claims then Produced(Patch("")) else NoPatch),
        (_: nat) => result, (_: nat) => None, (_: nat) => None, (_: nat) => true, "", ReadE,
        (_: string, _: Workspace) => [], (s: string) => s, "", "", "")
  }

  const GreenRun := SandboxResult(Passed, Some(0), "")
  const Mute := SandboxResult(Failed, Some(1), "")
  const OtherError := SandboxResult(Failed, Some(1), "E")

  /** One unfinished step of a run, with its effect. */
  lemma RunStep(env: Env, n: nat)
    requires Run(env, n).pc != End
    ensures Run(env, n + 1) == Step(env, Run(env, n)) && Effect(env, Run(env, n), Run(env, n + 1))
  {
    hide Step, Effect;
    StepHasEffect(env, Run(env, n));
  }

  lemma SampleStart(claims: bool, result: SandboxResult, retries: int, cycles: int)
    ensures var m := Run(Sample(claims, result, retries, cycles), 0); m.pc == Bootstrap && m == Start(Sample(claims, result, retries, cycles))
  {
  }

  /** After bootstrap: nothing tried yet, no readable error. */
  predicate Fresh(m: Machine, retries: int, cycles: int) {
    var s := m.state;
    && s.keys.workspacePath == "/w" && s.keys.maxRetries == retries && s.keys.cycleBudget == cycles
    && s.keys.regressionCmd == [] && s.keys.entryKind == Test
    && s.signature.None? && s.attemptCount == 0 && s.cycleIndex == 0 && !s.regressionDetected
  }

  lemma SampleFix(claims: bool, result: SandboxResult, retries: int, cycles: int)
    ensures var env := Sample(claims, result, retries, cycles);
      && Taken(env, 0, Bootstrap, Fix)
      && Taken(env, 1, Fix, if claims then Validate else Rollback)
      && Fresh(Run(env, 2), retries, cycles)
      && (claims ==> Run(env, 2).state.patch == Some(Patch("")))
  {
    var env := Sample(claims, result, retries, cycles);
    hide Run, Step;
    SampleStart(claims, result, retries, cycles);
    RunStep(env, 0);
    RunStep(env, 1);
  }

  lemma SampleValidate(result: SandboxResult, retries: int, cycles: int)
    requires result in {GreenRun, Mute, OtherError}
    ensures var env := Sample(true, result, retries, cycles);
      && Taken(env, 2, Validate, if result == Mute then Rollback else Immunize)
      && Run(env, 3).state.cycleIndex == 0 && Run(env, 3).state.keys.cycleBudget == cycles
      && Run(env, 3).state.sandboxResult == Some(result)
      && (result == OtherError ==>
            Run(env, 3).state.signature.None? && Run(env, 3).state.postSignature == Some(Signature(Test, "E", "", "")))
  {
    var env := Sample(true, result, retries, cycles);
    hide Run;
    SampleFix(true, result, retries, cycles);
    RunStep(env, 2);
  }

  lemma SampleCommit(result: SandboxResult, retries: int, cycles: int)
    requires result in {GreenRun, OtherError}
    ensures var env := Sample(true, result, retries, cycles);
      && Taken(env, 3, Immunize, ReportCommit)
      && Taken(env, 4, ReportCommit, if result == OtherError && cycles > 1 then Fix else End)
  {
    var env := Sample(true, result, retries, cycles);
    hide Run, Step, NewEntry, NewEvidence, NewCommit;
    SampleValidate(result, retries, cycles);
    RunStep(env, 3);
    RunStep(env, 4);
  }

  lemma SampleRollback(retries: int)
    ensures var env := Sample(false, Mute, retries, 1);
      && Taken(env, 2, Rollback, if retries > 1 then Fix else PostMortem)
      && (retries <= 1 ==> Taken(env, 3, PostMortem, End))
  {
    var env := Sample(false, Mute, retries, 1);
    hide Run, Step, NewRecord;
    SampleFix(false, Mute, retries, 1);
    RunStep(env, 2);
    if retries <= 1 {
      RunStep(env, 3);
    }
  }

  lemma OnlyEdges(env: Env, n: nat, source: Node, target: Node)
    requires source != End && Taken(env, n, source, target)
    ensures Edge(source, target)
  {
    hide Step;
    StepFollowsAnEdge(env, Run(env, n));
  }

  lemma DrawnEdgeIsTaken(source: Node, target: Node)
    requires Edge(source, target)
    ensures exists env, n :: Taken(env, n, source, target)
  {
    hide Taken, Sample;
    match source {
      case Bootstrap => SampleFix(true, GreenRun, 1, 1);
      case Fix => SampleFix(target == Validate, GreenRun, 1, 1);
      case Validate => SampleValidate(if target == Immunize then GreenRun else Mute, 1, 1);
      case Immunize => SampleCommit(GreenRun, 1, 1);
      case ReportCommit => SampleCommit(if target == Fix then OtherError else GreenRun, 1, 2);
      case Rollback => SampleRollback(if target == Fix then 2 else 1);
      case PostMortem => SampleRollback(1);
    }
  }

  /** A run can go from one node straight to another exactly when the edge is drawn. */
  lemma EdgesAreExactlyTheRuns(source: Node, target: Node)
    requires source != End
    ensures Edge(source, target) <==> exists env, n :: Taken(env, n, source, target)
  {
    hide Taken;
    if Edge(source, target) {
      DrawnEdgeIsTaken(source, target);
    }
    if exists env, n :: Taken(env, n, source, target) {
      var env, n :| Taken(env, n, source, target);
      OnlyEdges(env, n, source, target);
    }
  }
}
