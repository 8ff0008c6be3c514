/** Runs of the compiled graph: execute a node, then follow its edge. */
module Machine {
  import opened HealingState
  import opened Nodes
  import opened Graph

  datatype Machine = Machine(pc: Node, state: State, world: World, trace: seq<Node>)

  /** The state the callers build: empty histories and no scratch fields, on a clean checkout. */
  function Start(env: Env): Machine {
    Machine(Bootstrap, Blank, InitialWorld(env), [])
  }

  /** Merge a node's update and follow the edge out of the node. */
  function After(m: Machine, result: Situation): Machine
    requires m.pc != End
  {
    Machine(Next(m.pc, result.0), result.0, result.1, m.trace + [m.pc])
  }

  /** What the node whose turn it is does. */
  function Execute(env: Env, m: Machine): Situation
    requires m.pc != End
  {
    match m.pc
    case Bootstrap => BootstrapNode(env, m.state, m.world)
    case Fix => FixNode(env, m.state, m.world)
    case Validate => ValidateNode(env, m.state, m.world)
    case Immunize => ImmunizeNode(env, m.state, m.world)
    case ReportCommit => ReportCommitNode(env, m.state, m.world)
    case Rollback => RollbackNode(env, m.state, m.world)
    case PostMortem => PostMortemNode(env, m.state, m.world)
  }

  function Step(env: Env, m: Machine): Machine
    requires m.pc != End
  {
    After(m, Execute(env, m))
  }

  /** The run after at most n node executions. */
  function Run(env: Env, n: nat): Machine {
    if n == 0 then Start(env)
    else
      var m := Run(env, n - 1);
      if m.pc == End then m else Step(env, m)
  }
}
