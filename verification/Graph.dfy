/** The pipeline's topology (src/orchestrator/graph.py). */
module Graph {
  import opened Wrappers
  import opened Domain
  import opened HealingState
  import opened Routers

  /** The builder: nodes, fixed edges and, per branching node, a table from routing decision to target. */
  class StateGraph {
    var entry: Option<Node>
    var nodes: map<string, Node>
    var edges: map<Node, Node>
    var conditional: map<Node, map<RoutingDecision, Node>>

    constructor ()
      ensures entry == None && nodes == map[] && edges == map[] && conditional == map[]
    {
      entry, nodes, edges, conditional := None, map[], map[], map[];
    }

    method SetEntry(target: Node)
      modifies this`entry
      ensures entry == Some(target)
    {
      entry := Some(target);
    }

    method AddNode(name: string, node: Node)
      modifies this`nodes
      ensures nodes == old(nodes)[name := node]
    {
      nodes := nodes[name := node];
    }

    method AddEdge(source: Node, target: Node)
      modifies this`edges
      ensures edges == old(edges)[source := target]
    {
      edges := edges[source := target];
    }

    method AddConditionalEdges(source: Node, table: map<RoutingDecision, Node>)
      modifies this`conditional
      ensures conditional == old(conditional)[source := table]
    {
      conditional := conditional[source := table];
    }
  }

  /** The nodes under their canonical names. */
  const Registered: map<string, Node> := map[
    "bootstrap" := Bootstrap, "fix" := Fix, "validate" := Validate, "immunize" := Immunize,
    "report_commit" := ReportCommit, "rollback" := Rollback, "post_mortem" := PostMortem]

  const FixedEdges: map<Node, Node> := map[Bootstrap := Fix, Immunize := ReportCommit, PostMortem := End]

  const Tables: map<Node, map<RoutingDecision, Node>> := map[
    Fix := map[ToValidation := Validate, ToRollback := Rollback],
    Validate := map[ToImmunize := Immunize, ToRollback := Rollback],
    ReportCommit := map[ToFix := Fix, Finish := End],
    Rollback := map[ToFix := Fix, ToPostMortem := PostMortem]]

  /** The edge relation the drawing at the top of graph.py shows. */
  predicate Edge(source: Node, target: Node) {
    match source
    case Bootstrap => target == Fix
    case Fix => target == Validate || target == Rollback
    case Validate => target == Immunize || target == Rollback
    case Immunize => target == ReportCommit
    case ReportCommit => target == Fix || target == End
    case Rollback => target == Fix || target == PostMortem
    case PostMortem => target == End
    case End => false
  }

  method BuildGraph() returns (builder: StateGraph)
    ensures fresh(builder)
    ensures builder.entry == Some(Bootstrap) && builder.nodes == Registered
    ensures builder.edges == FixedEdges
    ensures builder.conditional == Tables
  {
    builder := new StateGraph();
    builder.AddNode("bootstrap", Bootstrap);
    builder.AddNode("fix", Fix);
    builder.AddNode("validate", Validate);
    builder.AddNode("immunize", Immunize);
    builder.AddNode("report_commit", ReportCommit);
    builder.AddNode("rollback", Rollback);
    builder.AddNode("post_mortem", PostMortem);
    builder.SetEntry(Bootstrap);
    builder.AddEdge(Bootstrap, Fix);
    builder.AddConditionalEdges(Fix, map[ToValidation := Validate, ToRollback := Rollback]);
    builder.AddConditionalEdges(Validate, map[ToImmunize := Immunize, ToRollback := Rollback]);
    builder.AddEdge(Immunize, ReportCommit);
    builder.AddConditionalEdges(ReportCommit, map[ToFix := Fix, Finish := End]);
    builder.AddConditionalEdges(Rollback, map[ToFix := Fix, ToPostMortem := PostMortem]);
    builder.AddEdge(PostMortem, End);
  }

  /** The routing function registered for a branching node. */
  function Route(node: Node, s: State): RoutingDecision
    requires node in Tables
  {
    match node
    case Fix => RouteAfterFix(s)
    case Validate => RouteAfterValidate(s)
    case ReportCommit => RouteAfterCommit(s)
    case Rollback => RouteAfterRollback(s)
  }

  /** The node that runs next. */
  function Next(node: Node, s: State): Node
    requires node != End
  {
    match node
    case Bootstrap => Fix
    case Fix => if RouteAfterFix(s) == ToValidation then Validate else Rollback
    case Validate => if RouteAfterValidate(s) == ToImmunize then Immunize else Rollback
    case Immunize => ReportCommit
    case ReportCommit => if RouteAfterCommit(s) == ToFix then Fix else End
    case Rollback => if RouteAfterRollback(s) == ToFix then Fix else PostMortem
    case PostMortem => End
  }

  /** The built graph steps by Next: no router can return a decision its node's table lacks. */
  lemma NextFollowsTheGraph(node: Node, s: State)
    requires node != End
    ensures node in FixedEdges || node in Tables
    ensures node in FixedEdges ==> Next(node, s) == FixedEdges[node]
    ensures node in Tables ==> Route(node, s) in Tables[node] && Next(node, s) == Tables[node][Route(node, s)]
  {
  }
}
