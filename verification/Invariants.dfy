/** The invariants together, over every run. */
module Invariants {
  import opened Wrappers
  import opened HealingState
  import opened Nodes
  import opened Machine
  import opened NodeContracts
  import opened History
  import opened Ledger
  import opened Budgets
  import opened Trees
  import opened Commits
  import opened Endings

  predicate Inv(env: Env, m: Machine) {
    && Control(env, m) && KeysFixed(env, m) && Tidy(m) && Explained(m.state.failedAttempts)
    && Conserved(m) && CallsBounded(env, m)
    && Remaining(env, m) >= 0 && |m.trace| + Remaining(env, m) <= Bound(EntryKeys(env))
    && Walked(m) && Logged(m)
    && Counted(m) && Evidenced(env, m) && Ended(env, m) && GreenIsLast(m)
  }

  /** What additionally holds when signatures come from a parser. */
  predicate ParsedInv(env: Env, m: Machine) {
    PostParsed(env, m.state) && ChainGrows(m) && AllJustified(env, m)
  }

  lemma InvStart(env: Env)
    ensures Inv(env, Start(env)) && ParsedInv(env, Start(env))
  {
    LaterCyclesDecrease(EntryKeys(env), 0);
  }

  lemma InvStep(env: Env, m: Machine)
    requires m.pc != End && Inv(env, m)
    ensures Inv(env, Step(env, m))
  {
    InvNeeds(env, m);
    hide Step, Control, KeysFixed, Tidy, Explained, Conserved, CallsBounded, Remaining, Walked, Logged,
      Counted, Evidenced, Ended, GreenIsLast, Bound, EntryKeys;
    ControlStep(env, m);
    TidyStep(env, m);
    ExplainedStep(env, m);
    ConservedStep(env, m);
    CallsBoundedStep(env, m);
    RemainingDecreases(env, m);
    WalkedStep(env, m);
    LoggedStep(env, m);
    CountedStep(env, m);
    EvidencedStep(env, m);
    EndedStep(env, m);
    StepFollowsAnEdge(env, m);
  }

  /** A committing state's verdict is that of the first run made for it. */
  lemma InvNeeds(env: Env, m: Machine)
    requires Inv(env, m)
    ensures m.pc == ReportCommit ==>
      m.world.attemptRuns != [] && m.state.sandboxResult == Some(m.world.attemptRuns[0].result)
  {
    hide Control, KeysFixed, Tidy, Explained, Conserved, CallsBounded, Remaining, Walked, Logged, Counted, Ended,
      GreenIsLast, Bound, EntryKeys, GatePassed, TestPassed, Green;
  }

  lemma ParsedInvStep(env: Env, m: Machine)
    requires m.pc != End && ParserUsable(env) && Inv(env, m) && ParsedInv(env, m)
    ensures ParsedInv(env, Step(env, m))
  {
    PostParsedStep(env, m);
    ChainGrowsStep(env, m);
    JustifiedStep(env, m);
    hide Step, PostParsed, ChainGrows, AllJustified;
  }

  lemma {:induction false} InvAlways(env: Env, n: nat)
    ensures Inv(env, Run(env, n))
  {
    hide Inv, Step;
    if n == 0 {
      InvStart(env);
    } else {
      InvAlways(env, n - 1);
      if Run(env, n - 1).pc != End {
        InvStep(env, Run(env, n - 1));
      }
    }
  }

  /** An unfinished run goes on by one step, which uses up part of what remains. */
  lemma StepFromHere(env: Env, n: nat)
    requires Run(env, n).pc != End
    ensures var m := Run(env, n);
      && Run(env, n + 1) == Step(env, m)
      && 0 <= Remaining(env, Step(env, m)) < Remaining(env, m)
  {
    InvAlways(env, n);
    var m := Run(env, n);
    assert Control(env, m) && KeysFixed(env, m);
    assert Run(env, n + 1) == Step(env, m);
    hide Run, Step, Inv, Control, KeysFixed, Remaining;
    RemainingDecreases(env, m);
  }

  lemma {:induction false} ParsedInvAlways(env: Env, n: nat)
    requires ParserUsable(env)
    ensures ParsedInv(env, Run(env, n))
  {
    hide Inv, ParsedInv, Step, ParserUsable;
    if n == 0 {
      InvStart(env);
    } else {
      ParsedInvAlways(env, n - 1);
      InvAlways(env, n - 1);
      if Run(env, n - 1).pc != End {
        ParsedInvStep(env, Run(env, n - 1));
      }
    }
  }

  lemma {:induction false} TreesAlways(env: Env, n: nat)
    requires ResetsWork(env)
    ensures Tree(env, Run(env, n)) && Replayed(env, Run(env, n))
  {
    hide Inv, Step, Tree, Replayed, ResetsWork;
    if n == 0 {
      TreesStart(env);
    } else {
      TreesAlways(env, n - 1);
      InvAlways(env, n - 1);
      var m := Run(env, n - 1);
      if m.pc != End {
        assert KeysFixed(env, m) by { InvGivesControl(env, m); }
        TreeStep(env, m);
        ReplayedStep(env, m);
      }
    }
  }

  lemma TreesStart(env: Env)
    ensures Tree(env, Start(env)) && Replayed(env, Start(env))
  {
  }

  lemma InvGivesControl(env: Env, m: Machine)
    requires Inv(env, m)
    ensures Control(env, m) && KeysFixed(env, m)
  {
  }

  lemma InvGivesEvidence(env: Env, m: Machine)
    requires Inv(env, m)
    ensures Evidenced(env, m)
  {
    hide Control, KeysFixed, Tidy, Explained, Conserved, CallsBounded, Remaining, Walked, Logged, Counted, Evidenced, Ended,
      GreenIsLast, Bound, EntryKeys;
  }
}
