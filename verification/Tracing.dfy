/** How a run shows up in the telemetry: one span per node execution (src/observability/span.py), read back
    as the report's node path. */
module Tracing {
  import opened Wrappers
  import opened HealingState
  import opened Telemetry
  import opened Reports
  import opened Nodes
  import opened Machine
  import opened Endings
  import opened Invariants
  import opened Graph
  import opened Theorems

  /** The registered node names (graph.py:53-59). */
  function NodeName(node: Node): string
    requires node != End
  {
    match node
    case Bootstrap => "bootstrap"
    case Fix => "fix"
    case Validate => "validate"
    case Immunize => "immunize"
    case ReportCommit => "report_commit"
    case Rollback => "rollback"
    case PostMortem => "post_mortem"
  }

  lemma NodeNamesDiffer(a: Node, b: Node)
    requires a != End && b != End && NodeName(a) == NodeName(b)
    ensures a == b
  {
    assert |NodeName(a)| == |NodeName(b)| && NodeName(a)[0] == NodeName(b)[0];
  }

  /** Spans are named as the graph registers its nodes. */
  lemma NamesAreRegistered(node: Node)
    requires node != End
    ensures NodeName(node) in Registered && Registered[NodeName(node)] == node
  {
  }

  function Labelled(name: string, duration: real, error: Option<string>): Span {
    Span(name, duration, error, None, None, None, None, None)
  }

  /** The context manager around an instrumented block: whichever way the block is left, closing the scope
      records its one span, after everything recorded inside. */
  class SpanScope {
    const sink: InMemoryTelemetry
    const name: string

    constructor (sink: InMemoryTelemetry, name: string)
      ensures this.sink == sink && this.name == name
    {
      this.sink, this.name := sink, name;
    }

    method Close(duration: real, error: Option<string>)
      modifies sink
      ensures sink.spans == old(sink.spans) + [Labelled(name, duration, error)]
      ensures var span := sink.spans[|sink.spans| - 1];
        span.name == name && span.duration == duration && span.error == error && span.agent.None? && span.cost.None?
    {
      sink.Record(Labelled(name, duration, error));
    }
  }

  /** What happens around one node execution: the spans its ports and completions record meanwhile, how long it
      takes, and the type of the exception that escapes it, if one does. */
  datatype Happening = Happening(inside: seq<Span>, duration: real, escape: Option<string>)

  /** Ports and completions name no span like a node's. */
  predicate Ordinary(h: Happening) {
    forall i :: 0 <= i < |h.inside| ==> !(NodePrefix <= h.inside[i].name)
  }

  ghost predicate AlwaysOrdinary(around: nat -> Happening) {
    forall k: nat :: Ordinary(around(k))
  }

  predicate Executed(path: seq<Node>) {
    forall i :: 0 <= i < |path| ==> path[i] != End
  }

  function SpansOf(node: Node, h: Happening): seq<Span>
    requires node != End
  {
    h.inside + [Labelled(NodePrefix + NodeName(node), h.duration, h.escape)]
  }

  /** The log of executing these nodes one after the other. */
  function Emitted(path: seq<Node>, around: nat -> Happening): seq<Span>
    requires Executed(path)
  {
    if path == [] then []
    else
      var k := |path| - 1;
      Emitted(path[..k], around) + SpansOf(path[k], around(k))
  }

  lemma EmittedNothing(around: nat -> Happening)
    ensures Emitted([], around) == []
  {
  }

  lemma EmittedStep(path: seq<Node>, node: Node, around: nat -> Happening)
    requires Executed(path) && node != End
    ensures Executed(path + [node])
    ensures Emitted(path + [node], around) == Emitted(path, around) + SpansOf(node, around(|path|))
  {
    hide SpansOf;
    assert (path + [node])[..|path|] == path;
  }

  function Names(path: seq<Node>): (names: seq<string>)
    requires Executed(path)
    ensures |names| == |path|
  {
    seq(|path|, i requires 0 <= i < |path| => NodeName(path[i]))
  }

  lemma {:induction false} QuietSpansKeepThePath(spans: seq<Span>, inside: seq<Span>)
    requires forall i :: 0 <= i < |inside| ==> !(NodePrefix <= inside[i].name)
    ensures NodePath(spans + inside) == NodePath(spans)
  {
    if inside == [] {
      assert spans + inside == spans;
    } else {
      var init := inside[..|inside| - 1];
      QuietSpansKeepThePath(spans, init);
      assert (spans + inside)[..|spans + inside| - 1] == spans + init;
      assert (spans + inside)[|spans + inside| - 1] == inside[|inside| - 1];
    }
  }

  lemma PrefixIsDropped(name: string)
    ensures NodePrefix <= NodePrefix + name && AfterDot(NodePrefix + name) == name
  {
    var full := NodePrefix + name;
    assert full[1..][1..][1..][1..][1..] == name;
    assert AfterDot(full) == AfterDot(full[1..]) == AfterDot(full[1..][1..])
        == AfterDot(full[1..][1..][1..]) == AfterDot(full[1..][1..][1..][1..]);
  }

  /** Whatever is interleaved, the node path lists exactly the executed nodes. */
  lemma {:induction false} PathOfExecutions(path: seq<Node>, around: nat -> Happening)
    requires Executed(path) && AlwaysOrdinary(around)
    ensures NodePath(Emitted(path, around)) == Names(path)
  {
    hide NodeName, AfterDot, NodePath, SpansOf, Ordinary;
    if path == [] {
      NothingYet(Emitted(path, around));
      assert Emitted(path, around)[..0] == Emitted(path, around);
    } else {
      var k := |path| - 1;
      assert Ordinary(around(k));
      PathOfExecutions(path[..k], around);
      NodePathGrows(Emitted(path[..k], around), path[k], around(k));
      assert Names(path) == Names(path[..k]) + [NodeName(path[k])];
    }
  }

  lemma NodePathGrows(spans: seq<Span>, node: Node, h: Happening)
    requires node != End && Ordinary(h)
    ensures NodePath(spans + SpansOf(node, h)) == NodePath(spans) + [NodeName(node)]
  {
    hide NodeName, AfterDot, NodePath;
    QuietSpansKeepThePath(spans, h.inside);
    PrefixIsDropped(NodeName(node));
    var own := Labelled(NodePrefix + NodeName(node), h.duration, h.escape);
    var before, all := spans + h.inside, spans + SpansOf(node, h);
    assert all == before + [own];
    NodePathStep(all, |before|);
    assert all[..|before|] == before && all[..|before| + 1] == all;
  }

  /** Every node a run executed has a name: the run only leaves END's predecessors behind. */
  lemma TraceIsExecuted(env: Env, n: nat)
    ensures Executed(Run(env, n).trace) && Walk(Run(env, n).trace + [Run(env, n).pc])
  {
    hide Run, Inv;
    InvAlways(env, n);
    var m := Run(env, n);
    assert Walked(m) by { InvGivesWalk(env, m); }
    var path := m.trace + [m.pc];
    forall i | 0 <= i < |m.trace| ensures m.trace[i] != End {
      assert Edge(path[i], path[i + 1]);
    }
  }

  lemma InvGivesWalk(env: Env, m: Machine)
    requires Inv(env, m)
    ensures Walked(m)
  {
  }

  lemma NamesAreInjective(a: seq<Node>, b: seq<Node>)
    requires Executed(a) && Executed(b) && Names(a) == Names(b)
    ensures a == b
  {
    hide NodeName;
    assert |a| == |Names(a)| == |b|;
    forall i | 0 <= i < |a| ensures a[i] == b[i] {
      assert Names(a)[i] == Names(b)[i];
      NodeNamesDiffer(a[i], b[i]);
    }
  }

  /** The nodes a run has entered when it stops: the executed ones, and the one an exception escaped from. */
  function Visited(env: Env, n: nat, escaped: bool): (path: seq<Node>)
    ensures Executed(path)
  {
    TraceIsExecuted(env, n);
    var m := Run(env, n);
    if escaped && m.pc != End then m.trace + [m.pc] else m.trace
  }

  /** The node path reported from a run's log is exactly the nodes the run went through, a walk of the drawn
      graph from bootstrap, and no other sequence of nodes reports the same path. */
  lemma NodePathIsTheRun(env: Env, n: nat, escaped: bool, around: nat -> Happening, early: seq<Span>, late: seq<Span>,
                         other: seq<Node>)
    requires AlwaysOrdinary(around) && Executed(other)
    requires forall i :: 0 <= i < |early| ==> !(NodePrefix <= early[i].name)
    ensures var m, visited := Run(env, n), Visited(env, n, escaped); var spans := Emitted(visited, around);
      var path := ReportOf(spans, spans + early, spans + early + late).nodePath;
      && path == Names(visited) && Walk(m.trace + [m.pc]) && visited <= m.trace + [m.pc]
      && (path == Names(other) ==> other == visited)
  {
    hide Run, Sum, NodePath, NodeName, Walk, Emitted, AlwaysOrdinary;
    TraceIsExecuted(env, n);
    var visited := Visited(env, n, escaped);
    PathOfExecutions(visited, around);
    QuietSpansKeepThePath(Emitted(visited, around), early);
    if Names(visited) == Names(other) {
      NamesAreInjective(visited, other);
    }
  }

  /** A finished run's node path tells whether it is resolved. */
  lemma NodePathTellsTheEnding(env: Env, n: nat)
    requires Run(env, n).pc == End
    ensures var m, names := Run(env, n), Names(Visited(env, n, false));
      && names != []
      && (m.state.isResolved <==> names[|names| - 1] == "report_commit")
      && (!m.state.isResolved <==> names[|names| - 1] == "post_mortem")
  {
    assert NodeName(ReportCommit) == "report_commit" && NodeName(PostMortem) == "post_mortem";
    hide Run, NodeName;
    EndingsCharacterised(env, n);
    TraceIsExecuted(env, n);
    var last := Run(env, n).trace[|Run(env, n).trace| - 1];
    if NodeName(last) == NodeName(ReportCommit) {
      NodeNamesDiffer(last, ReportCommit);
    }
    if NodeName(last) == NodeName(PostMortem) {
      NodeNamesDiffer(last, PostMortem);
    }
  }
}
