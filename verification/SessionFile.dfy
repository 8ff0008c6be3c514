/** The text of the session regression file over a whole run. */
module SessionFile {
  import opened Wrappers
  import opened Domain
  import opened HealingState
  import opened Nodes
  import opened Machine
  import opened Effects
  import opened Trees
  import opened Invariants
  import opened Reachability
  import Leftovers
  import Text

  // --- the generated texts --------------------------------------------------------

  const HeaderStart := "\"\"\"Self-healing regression suite for session "
  const HeaderEnd := ".\n\nAuto-generated; one test is appended per healed error.\n\"\"\"\n"

  function Header(sessionId: string): string {
    HeaderStart + sessionId + HeaderEnd
  }

  const Interpreters: set<string> := {"python", "python3", "py"}

  /** The command's arguments, without its interpreter where it names one. */
  function SmokeArguments(reproduceCmd: seq<string>): seq<string> {
    var cmd := if reproduceCmd == [] then ["python", "main.py"] else reproduceCmd;
    if cmd[0] in Interpreters then cmd[1..] else cmd
  }

  function Reprs(repr: string -> string, args: seq<string>): (r: seq<string>)
    ensures |r| == |args| && forall i :: 0 <= i < |args| ==> r[i] == repr(args[i])
  {
    seq(|args|, i requires 0 <= i < |args| => repr(args[i]))
  }

  /** The argv literal of the smoke test; `repr` is Python's. */
  function SmokeInvocation(repr: string -> string, reproduceCmd: seq<string>): string {
    var args := Text.Join(", ", Reprs(repr, SmokeArguments(reproduceCmd)));
    if args == "" then "[sys.executable]" else "[sys.executable, " + args + "]"
  }

  lemma ArgumentsAre(reproduceCmd: seq<string>)
    ensures reproduceCmd == [] ==> SmokeArguments(reproduceCmd) == ["main.py"]
    ensures reproduceCmd != [] && reproduceCmd[0] in Interpreters ==> SmokeArguments(reproduceCmd) == reproduceCmd[1..]
    ensures reproduceCmd != [] && reproduceCmd[0] !in Interpreters ==> SmokeArguments(reproduceCmd) == reproduceCmd
  {
  }

  lemma ArgumentsJoin(args: string)
    ensures "sys.executable" + ", " + args == "sys.executable, " + args
    ensures "[" + ("sys.executable, " + args) + "]" == "[sys.executable, " + args + "]"
  {
    assert "sys.executable" + ", " == "sys.executable, ";
    assert "[" + "sys.executable, " == "[sys.executable, ";
    Text.Regroup("[", "sys.executable, ", args);
  }

  /** The smoke test runs the reproduction command, main.py if there is none, under the interpreter that runs the test: in
      place of the command's own interpreter where it names one, and otherwise in front of the whole command. */
  lemma SmokeRunsTheCommand(repr: string -> string, reproduceCmd: seq<string>)
    requires forall s :: repr(s) != ""
    ensures var args := if reproduceCmd == [] then ["main.py"]
                        else if reproduceCmd[0] in {"python", "python3", "py"} then reproduceCmd[1..] else reproduceCmd;
      SmokeInvocation(repr, reproduceCmd) == "[" + Text.Join(", ", ["sys.executable"] + Reprs(repr, args)) + "]"
  {
    ArgumentsAre(reproduceCmd);
    hide Text.Join, SmokeArguments;
    var reprs := Reprs(repr, SmokeArguments(reproduceCmd));
    JoinOfReprs(reprs);
    if reprs == [] {
      assert ["sys.executable"] + reprs == ["sys.executable"];
      assert "[" + "sys.executable" + "]" == "[sys.executable]";
    } else {
      Text.JoinBehind(", ", "sys.executable", reprs);
      ArgumentsJoin(Text.Join(", ", reprs));
    }
  }

  lemma JoinOfReprs(pieces: seq<string>)
    requires forall i :: 0 <= i < |pieces| ==> pieces[i] != ""
    ensures Text.Join(", ", pieces) == "" <==> pieces == []
    ensures Text.Join(", ", ["sys.executable"]) == "sys.executable"
  {
  }

  const SmokeStart :=
    "def " + "test_reproduce_command_exits_zero():\n    import subprocess\n    import sys\n    result = subprocess.run("
  const SmokeEnd := ", capture_output=True, text=True)\n    assert result.returncode == 0, result.stderr\n"

  function SmokeSource(repr: string -> string, reproduceCmd: seq<string>): string {
    SmokeStart + SmokeInvocation(repr, reproduceCmd) + SmokeEnd
  }

  // --- the suite as a list of blocks -------------------------------------------------

  /** A text of at least two characters, with no blank line at its end. */
  predicate Proper(piece: string) {
    |piece| >= 2 && !Text.EndsWith(piece, "\n\n")
  }

  function Block(source: string): string {
    Text.RStrip(source) + "\n"
  }

  lemma BlockIsProper(source: string)
    requires !Text.Blank(source)
    ensures Proper(Block(source))
  {
    var r := Text.RStrip(source);
    assert r != [] by {
      var i :| 0 <= i < |source| && !Text.IsSpace(source[i]);
      assert i < |r|;
    }
    assert Block(source)[|r| - 1] == r[|r| - 1];
  }

  lemma ProperEnding(start: string, ending: string)
    requires Proper(ending)
    ensures Proper(start + ending)
  {
    assert (start + ending)[|start + ending| - 2..] == ending[|ending| - 2..];
  }

  lemma NotBlankFromStart(start: string, ending: string)
    requires start != "" && !Text.IsSpace(start[0])
    ensures !Text.Blank(start + ending)
  {
    assert (start + ending)[0] == start[0];
  }

  lemma GeneratedTextsAreProper(sessionId: string, repr: string -> string, reproduceCmd: seq<string>)
    ensures Opening(Some(Header(sessionId))) == Header(sessionId) + "\n\n"
    ensures !Text.Blank(SmokeSource(repr, reproduceCmd))
  {
    assert Proper(HeaderEnd);
    assert SmokeStart[0] == "def "[0];
    assert !Text.IsSpace(SmokeStart[0]);
    hide SmokeInvocation, Text.Blank, Text.IsSpace;
    ProperEnding(HeaderStart + sessionId, HeaderEnd);
    hide Proper;
    NotBlankFromStart(SmokeStart, SmokeInvocation(repr, reproduceCmd) + SmokeEnd);
    assert SmokeSource(repr, reproduceCmd) == SmokeStart + (SmokeInvocation(repr, reproduceCmd) + SmokeEnd);
  }

  /** What stands before the first test: the text the file had, closed by a blank line unless it was empty or ended in
      one. */
  function Opening(base: Option<string>): string {
    var text := base.GetOr("");
    if text == "" || Text.EndsWith(text, "\n\n") then text else text + "\n\n"
  }

  /** The file with these tests below what it had, one blank line apart. */
  function Suite(base: Option<string>, blocks: seq<string>): Option<string> {
    if blocks == [] then base else Some(Opening(base) + Text.Join("\n\n", blocks))
  }

  lemma JoinIsProper(pieces: seq<string>)
    requires pieces != [] && Proper(pieces[|pieces| - 1])
    ensures Proper(Text.Join("\n\n", pieces))
  {
    var init, last := pieces[..|pieces| - 1], pieces[|pieces| - 1];
    hide Proper;
    if |pieces| > 1 {
      ProperEnding(Text.Join("\n\n", init) + "\n\n", last);
    }
  }

  /** Appending a test to a suite adds its block at the end, whatever the file held at first. */
  lemma AppendAddsBlock(base: Option<string>, blocks: seq<string>, source: string)
    requires forall b :: b in blocks ==> Proper(b)
    ensures Suite(base, blocks + [Block(source)]) == Some(AppendedText(Suite(base, blocks).GetOr(""), source))
  {
    var blocks' := blocks + [Block(source)];
    assert blocks'[..|blocks'| - 1] == blocks;
    if blocks == [] {
      assert blocks' == [Block(source)];
      assert AppendedText(base.GetOr(""), source) == Opening(base) + Block(source);
    } else {
      JoinIsProper(blocks);
      var joined := Text.Join("\n\n", blocks);
      ProperEnding(Opening(base), joined);
      AppendedToProper(Opening(base) + joined, source);
      SuiteRegroups(Opening(base), joined, Block(source));
    }
  }

  lemma AppendedToProper(existing: string, source: string)
    requires Proper(existing)
    ensures AppendedText(existing, source) == existing + "\n\n" + Block(source)
  {
  }

  lemma SuiteRegroups(opening: string, joined: string, block: string)
    ensures opening + (joined + "\n\n" + block) == opening + joined + "\n\n" + block
  {
  }

  function Blocks(accepted: seq<Evidence>): seq<string> {
    if accepted == [] then []
    else
      var last := accepted[|accepted| - 1];
      Blocks(accepted[..|accepted| - 1]) + (if last.test.Some? then [Block(last.test.value)] else [])
  }

  /** What the file held before its first test: the text it had in the first checkout, or else the fresh header, unless
      a rollback cleaned that away before the first commit. */
  function Base(env: Env, accepted: seq<Evidence>): Option<string> {
    if env.request.initial.session.Some? then env.request.initial.session
    else if env.request.trigger.kind == Crash && accepted != [] && accepted[0].attempt == 0 then Some(env.sessionHeader)
    else None
  }

  // --- assumptions ------------------------------------------------------------------------

  /** The Corrector leaves the session file alone. */
  ghost predicate OnlyPipelineWrites(env: Env) {
    forall k: nat, w :: env.fixer(k).edit(w).session == w.session
  }

  /** The smoke test is not blank, nor is any drafted test. */
  ghost predicate SourcesNotBlank(env: Env) {
    !Text.Blank(env.smokeSource) && forall k: nat :: env.tester(k).Some? ==> !Text.Blank(env.tester(k).value)
  }

  // --- the invariant ----------------------------------------------------------------------

  predicate KeptNotBlank(m: Machine) {
    && (m.pc == HealingState.ReportCommit && m.state.regressionTest.Some? ==> !Text.Blank(m.state.regressionTest.value.source))
    && forall i :: 0 <= i < |m.world.evidence| && m.world.evidence[i].test.Some? ==>
         !Text.Blank(m.world.evidence[i].test.value)
  }

  lemma ImmunizeNotBlank(env: Env, s: State, w: World)
    requires SourcesNotBlank(env)
    ensures var test := ImmunizeOutcome(env, s, w).test; test.Some? ==> !Text.Blank(test.value.source)
  {
    hide Text.Blank, Proper, RunSandbox, AppendTest;
    assert env.tester(w.testerCalls).Some? ==> !Text.Blank(env.tester(w.testerCalls).value);
  }

  lemma KeptNotBlankStep(env: Env, m: Machine)
    requires m.pc != End && SourcesNotBlank(env) && KeptNotBlank(m)
    ensures KeptNotBlank(Step(env, m))
  {
    hide Step, Text.Blank, SourcesNotBlank, SameAttempt, SameFlags, SameCalls, NoAttempt, ChainGoesOn, NewRecord, NewEntry,
      NewCommit, ImmunizeOutcome;
    StepHasEffect(env, m);
    ImmunizeNotBlank(env, m.state, m.world);
  }

  lemma NothingKept(env: Env)
    ensures KeptNotBlank(Start(env))
  {
  }

  lemma {:induction false} KeptNotBlankAlways(env: Env, n: nat)
    requires SourcesNotBlank(env)
    ensures KeptNotBlank(Run(env, n))
  {
    hide Step, KeptNotBlank, SourcesNotBlank;
    if n == 0 {
      NothingKept(env);
    } else {
      KeptNotBlankAlways(env, n - 1);
      if Run(env, n - 1).pc != End {
        KeptNotBlankStep(env, Run(env, n - 1));
      }
    }
  }

  // --- the text ---------------------------------------------------------------------------

  lemma {:induction false} BlocksAreProper(accepted: seq<Evidence>)
    requires forall i :: 0 <= i < |accepted| && accepted[i].test.Some? ==> !Text.Blank(accepted[i].test.value)
    ensures forall p :: p in Blocks(accepted) ==> Proper(p)
  {
    if accepted != [] {
      BlocksAreProper(accepted[..|accepted| - 1]);
      var last := accepted[|accepted| - 1];
      if last.test.Some? {
        BlockIsProper(last.test.value);
      }
    }
  }

  lemma WithTestAddsBlock(keys: SessionKeys, tree: Workspace, test: Option<string>, base: Option<string>, blocks: seq<string>)
    requires keys.workspacePath != "" && tree.session == Suite(base, blocks)
    requires forall b :: b in blocks ==> Proper(b)
    ensures WithTest(keys, tree, test).session
         == Suite(base, blocks + (if test.Some? then [Block(test.value)] else []))
  {
    hide Proper, Block, AppendedText, Suite;
    if test.Some? {
      AppendAddsBlock(base, blocks, test.value);
    } else {
      assert blocks + [] == blocks;
    }
  }

  /** Before its own edit, an accepted attempt's tree has the suite of the attempts accepted before it. */
  lemma BaseStays(env: Env, accepted: seq<Evidence>)
    requires accepted != [] && InOrder(accepted) && EntryKeys(env).workspacePath != ""
    ensures var init, last := accepted[..|accepted| - 1], accepted[|accepted| - 1];
      && InOrder(init)
      && (if last.attempt == 0 then init == [] && Base(env, accepted) == EntryTree(env).session
          else Base(env, init) == Base(env, accepted))
  {
    var init := accepted[..|accepted| - 1];
    if init != [] {
      assert accepted[|accepted| - 2].attempt < accepted[|accepted| - 1].attempt;
      assert init[0] == accepted[0];
    }
  }

  lemma {:induction false} ReplayedSuite(env: Env, accepted: seq<Evidence>)
    requires OnlyPipelineWrites(env) && SourcesNotBlank(env) && EntryKeys(env).workspacePath != ""
    requires forall i :: 0 <= i < |accepted| && accepted[i].test.Some? ==> !Text.Blank(accepted[i].test.value)
    requires InOrder(accepted)
    ensures Replay(env, accepted).session == Suite(Base(env, accepted), Blocks(accepted))
  {
    hide Proper, Block, AppendedText, Text.Blank, EntryTree, EntryKeys, WithTest, InOrder, Base, Opening;
    if accepted == [] {
      NothingAccepted(env);
    } else {
      var init, last := accepted[..|accepted| - 1], accepted[|accepted| - 1];
      BaseStays(env, accepted);
      ReplayedSuite(env, init);
      BlocksAreProper(init);
      var before := if last.attempt == 0 then EntryTree(env) else Replay(env, init);
      var base := Base(env, accepted);
      assert before.session == Suite(base, Blocks(init));
      var edited := env.fixer(last.attempt).edit(before);
      assert edited.session == before.session;
      hide Suite;
      WithTestAddsBlock(EntryKeys(env), edited, last.test, base, Blocks(init));
    }
  }

  lemma NothingAccepted(env: Env)
    ensures Base(env, []) == env.request.initial.session
  {
  }

  /** After every commit of every run the session file is what it held at first, then the kept tests in ledger order, one
      blank line apart. */
  lemma SessionFileIsTheSuite(env: Env, n: nat, k: nat)
    requires ResetsWork(env) && OnlyPipelineWrites(env) && SourcesNotBlank(env)
    requires k < |Run(env, n).world.commits|
    ensures var w := Run(env, n).world;
      && k < |w.evidence|
      && w.commits[k].tree.session == Suite(Base(env, w.evidence), Blocks(w.evidence[..k + 1]))
      && w.head.session == Suite(Base(env, w.evidence), Blocks(w.evidence))
  {
    TreesAlways(env, n);
    KeptNotBlankAlways(env, n);
    var w := Run(env, n).world;
    assert w.evidence != [] && w.evidence[..k + 1][0] == w.evidence[0];
    hide Run, Blocks, Suite, Text.Blank, Replay, OnlyPipelineWrites, SourcesNotBlank;
    ReplayedSuite(env, w.evidence);
    ReplayedSuite(env, w.evidence[..k + 1]);
  }

  // --- a suite without its header -----------------------------------------------------------

  /** A crash entry whose first attempt gives up and is rolled back; the second one goes green and its drafted test
      passes. */
  function Headerless(): Env {
    var env := Sample(true, GreenRun, 2, 1);
    env.(request := env.request.(trigger := Trigger(Crash, None, None)),
         fixer := (k: nat) => FixAnswer((w: Workspace) => w, if k == 0 then NoPatch else Produced(Patch(""))),
         tester := (_: nat) => Some("t"), sessionHeader := "H")
  }

  lemma HeaderlessAnswers()
    ensures var env := Headerless(); var keys := EntryKeys(env);
      && keys.workspacePath == "/w" && keys.entryKind == Crash && keys.regressionCmd == []
      && keys.maxRetries == 2 && keys.cycleBudget == 1
      && EntryTree(env).session == Some("H") && env.request.initial.session.None?
      && env.fixer(0).outcome == NoPatch && env.fixer(1).outcome == Produced(Patch("")) && env.reset(0)
      && env.sandbox(0) == GreenRun && forall w :: env.fixer(1).edit(w) == w
  {
  }

  lemma HeaderlessFix()
    ensures var start, m := Run(Headerless(), 1), Run(Headerless(), 2);
      && start.pc == Fix && start.world.work.session == Some("H")
      && m.pc == Rollback && m.state.attemptCount == 0 && m.state.keys == EntryKeys(Headerless())
      && |m.world.fixerCalls| == 1 && m.world.sandboxCalls == 0 && m.world.resets == 0
      && m.world.head.session.None? && m.world.evidence == [] && m.world.commits == []
  {
    var env := Headerless();
    hide Run, Step, Headerless, EntryKeys, EntryTree, EntryOutput, EntryIncident, BuildContext;
    HeaderlessAnswers();
    assert Run(env, 0) == Start(env) by { Leftovers.RunStart(env); }
    RunStep(env, 0);
    RunStep(env, 1);
  }

  lemma HeaderlessRetry()
    ensures var m := Run(Headerless(), 3);
      && m.pc == Fix && |m.world.fixerCalls| == 1 && m.world.sandboxCalls == 0 && m.world.work.session.None?
      && m.world.evidence == [] && m.world.commits == [] && !m.state.regressionDetected
      && m.state.keys == EntryKeys(Headerless())
  {
    var env := Headerless();
    hide Run, Step, NewRecord, Headerless, EntryKeys, EntryTree, SameFlags;
    HeaderlessAnswers();
    HeaderlessFix();
    RunStep(env, 2);
  }

  lemma HeaderlessValidation()
    ensures var m := Run(Headerless(), 5);
      && m.pc == Immunize && |m.world.fixerCalls| == 2 && m.world.work.session.None? && Green(m.state.sandboxResult)
      && m.state.keys == EntryKeys(Headerless()) && m.world.evidence == [] && m.world.commits == []
  {
    var env := Headerless();
    hide Run, Step, Headerless, EntryKeys, EntryTree, SameFlags, Green, BuildContext;
    HeaderlessAnswers();
    HeaderlessRetry();
    RunStep(env, 3);
    RunStep(env, 4);
    GreenValidation(env, Run(env, 4));
  }

  lemma GreenValidation(env: Env, m: Machine)
    requires m.pc == Validate && m.state.keys == EntryKeys(env) && env == Headerless() && m.world.sandboxCalls == 0
    requires m.state.patch == Some(Patch(""))
    ensures Step(env, m).pc == Immunize && Green(Step(env, m).state.sandboxResult)
  {
    hide Headerless, EntryKeys, EntryTree;
    HeaderlessAnswers();
  }

  lemma DraftIsKept(env: Env, s: State, w: World)
    requires env == Headerless() && s.keys.entryKind == Crash && s.keys.workspacePath == "/w" && Green(s.sandboxResult)
    requires w.work.session.None?
    ensures ImmunizeOutcome(env, s, w).world.work.session == Some("t\n")
  {
    assert AppendedText("", "t") == "t\n";
    hide AppendedText;
  }

  lemma HeaderlessImmunization()
    ensures var m := Run(Headerless(), 6);
      m.pc == ReportCommit && m.world.work.session == Some("t\n") && Green(m.state.sandboxResult) && m.world.commits == []
  {
    var env := Headerless();
    hide Run, Step, Headerless, EntryKeys, ImmunizeOutcome, SameFlags, NoAttempt, AppendedText, Green;
    HeaderlessAnswers();
    HeaderlessValidation();
    DraftIsKept(env, Run(env, 5).state, Run(env, 5).world);
    ImmunizeFrame(env, Run(env, 5).state, Run(env, 5).world);
    RunStep(env, 5);
  }

  lemma HeaderIsH()
    ensures Headerless().sessionHeader == "H"
  {
  }

  /** The header is missing from what is committed when a rollback comes before the first commit: the reset cleans
      the still untracked file away and nothing writes the header again. */
  lemma RollbackLosesTheHeader()
    ensures Run(Headerless(), 1).world.work.session == Some(Headerless().sessionHeader)
    ensures var m := Run(Headerless(), 7);
      && m.pc == End && m.state.isResolved && |m.world.commits| == 1 && m.world.commits[0].tree.session == Some("t\n")
  {
    var env := Headerless();
    hide Run, Step, NewEntry, NewEvidence, Message, Headerless, SameFlags, SameCalls, SameAttempt, NoAttempt;
    HeaderlessFix();
    HeaderIsH();
    HeaderlessImmunization();
    RunStep(env, 6);
  }
}
