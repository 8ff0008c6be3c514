/** Spans and their aggregation (src/observability/sinks.py, span.py), over exact reals. */
module Telemetry {
  import opened Wrappers
  import opened Lists

  /** One recorded unit of work, the type of the exception that ended it if one did, and the attributes of a
      language-model completion where it has them. */
  datatype Span = Span(
    name: string, duration: real, error: Option<string>,
    agent: Option<string>, promptTokens: Option<int>, cachedTokens: Option<int>, completionTokens: Option<int>,
    cost: Option<real>)

  /** The average is only filled in when the report is rounded. */
  datatype NameBucket = NameBucket(count: nat, errors: nat, total: real, max: real, average: real)
  datatype LlmBucket = LlmBucket(calls: nat, prompt: int, cached: int, completion: int, cost: real)

  datatype Totals = Totals(byName: map<string, NameBucket>, total: real, llm: LlmBucket, byAgent: map<string, LlmBucket>)

  const Completion := "llm.completion"
  const NoName := NameBucket(0, 0, 0.0, 0.0, 0.0)
  const NoLlm := LlmBucket(0, 0, 0, 0, 0.0)
  const NoTotals := Totals(map[], 0.0, NoLlm, map[])

  function AddName(b: NameBucket, s: Span): NameBucket {
    NameBucket(b.count + 1, b.errors + (if s.error.Some? then 1 else 0), b.total + s.duration,
               if b.max < s.duration then s.duration else b.max, b.average)
  }

  function AddLlm(b: LlmBucket, s: Span): LlmBucket {
    LlmBucket(b.calls + 1, b.prompt + s.promptTokens.GetOr(0), b.cached + s.cachedTokens.GetOr(0),
              b.completion + s.completionTokens.GetOr(0), b.cost + s.cost.GetOr(0.0))
  }

  function Get<B>(m: map<string, B>, key: string, default: B): B {
    if key in m then m[key] else default
  }

  function Agent(s: Span): string {
    s.agent.GetOr("unknown")
  }

  function Named(m: map<string, NameBucket>, s: Span): map<string, NameBucket> {
    m[s.name := AddName(Get(m, s.name, NoName), s)]
  }

  function Billed(m: map<string, LlmBucket>, s: Span): map<string, LlmBucket> {
    if s.name == Completion then m[Agent(s) := AddLlm(Get(m, Agent(s), NoLlm), s)] else m
  }

  /** What one span adds: its duration, its name's bucket and, for a completion, the two token buckets. */
  function AddSpan(t: Totals, s: Span): Totals {
    Totals(Named(t.byName, s), t.total + s.duration,
           if s.name == Completion then AddLlm(t.llm, s) else t.llm, Billed(t.byAgent, s))
  }

  function Sum(spans: seq<Span>): Totals {
    if spans == [] then NoTotals else AddSpan(Sum(spans[..|spans| - 1]), spans[|spans| - 1])
  }

  lemma SumStep(spans: seq<Span>, i: nat)
    requires i < |spans|
    ensures Sum(spans[..i + 1]) == AddSpan(Sum(spans[..i]), spans[i])
  {
    assert spans[..i + 1][..i] == spans[..i];
  }

  // --- the order of the spans does not matter ------------------------------------------

  lemma AddNameCommutes(m: map<string, NameBucket>, a: Span, b: Span)
    ensures Named(Named(m, a), b) == Named(Named(m, b), a)
  {
    assert Named(Named(m, a), b).Keys == Named(Named(m, b), a).Keys;
  }

  lemma AddAgentCommutes(m: map<string, LlmBucket>, a: Span, b: Span)
    ensures Billed(Billed(m, a), b) == Billed(Billed(m, b), a)
  {
    hide Agent;
    assert Billed(Billed(m, a), b).Keys == Billed(Billed(m, b), a).Keys;
  }

  lemma AddSpanCommutes(t: Totals, a: Span, b: Span)
    ensures AddSpan(AddSpan(t, a), b) == AddSpan(AddSpan(t, b), a)
  {
    AddNameCommutes(t.byName, a, b);
    AddAgentCommutes(t.byAgent, a, b);
    hide Named, Billed;
  }

  function Without(spans: seq<Span>, i: nat): seq<Span>
    requires i < |spans|
  {
    spans[..i] + spans[i + 1..]
  }

  /** Any span may be added last. */
  lemma {:induction false} AddedLast(spans: seq<Span>, i: nat)
    requires i < |spans|
    ensures Sum(spans) == AddSpan(Sum(Without(spans, i)), spans[i])
    decreases |spans|
  {
    hide AddSpan;
    var init, last := spans[..|spans| - 1], spans[|spans| - 1];
    if i == |spans| - 1 {
      assert Without(spans, i) == init;
    } else {
      AddedLast(init, i);
      assert Without(spans, i) == Without(init, i) + [last];
      assert (Without(init, i) + [last])[..|init| - 1] == Without(init, i);
      AddSpanCommutes(Sum(Without(init, i)), spans[i], last);
    }
  }

  lemma WithoutIsMinus(spans: seq<Span>, i: nat)
    requires i < |spans|
    ensures multiset(Without(spans, i)) == multiset(spans) - multiset{spans[i]}
  {
    assert spans == spans[..i] + [spans[i]] + spans[i + 1..];
  }

  /** Permuting the recorded spans changes nothing but the node path. */
  lemma {:induction false} SumIgnoresOrder(a: seq<Span>, b: seq<Span>)
    requires multiset(a) == multiset(b)
    ensures Sum(a) == Sum(b)
    decreases |a|
  {
    hide AddSpan;
    if a == [] {
      assert |multiset(b)| == 0;
    } else {
      var k := |a| - 1;
      assert a[k] in multiset(b);
      var i :| 0 <= i < |b| && b[i] == a[k];
      WithoutIsMinus(a, k);
      WithoutIsMinus(b, i);
      AddedLast(a, k);
      AddedLast(b, i);
      SumIgnoresOrder(Without(a, k), Without(b, i));
    }
  }

  // --- what a bucket holds ---------------------------------------------------------------

  function OfName(spans: seq<Span>, name: string): seq<Span> {
    if spans == [] then []
    else
      var init, last := OfName(spans[..|spans| - 1], name), spans[|spans| - 1];
      if last.name == name then init + [last] else init
  }

  function OfAgent(spans: seq<Span>, agent: string): seq<Span> {
    if spans == [] then []
    else
      var init, last := OfAgent(spans[..|spans| - 1], agent), spans[|spans| - 1];
      if last.name == Completion && DoneBy(last, agent) then init + [last] else init
  }

  /** A span that names no agent counts for one called unknown. */
  predicate DoneBy(s: Span, agent: string) {
    s.agent == Some(agent) || (s.agent.None? && agent == "unknown")
  }

  lemma AgentDoesIt(s: Span, agent: string)
    ensures DoneBy(s, agent) <==> Agent(s) == agent
  {
  }

  function Duration(spans: seq<Span>): real {
    if spans == [] then 0.0 else Duration(spans[..|spans| - 1]) + spans[|spans| - 1].duration
  }

  function Failures(spans: seq<Span>): nat {
    if spans == [] then 0 else Failures(spans[..|spans| - 1]) + if spans[|spans| - 1].error.Some? then 1 else 0
  }

  function Bill(spans: seq<Span>): LlmBucket {
    if spans == [] then NoLlm else AddLlm(Bill(spans[..|spans| - 1]), spans[|spans| - 1])
  }

  datatype TokenKind = Prompt | Cached | Written

  function TokensOf(s: Span, kind: TokenKind): int {
    match kind
    case Prompt => if s.promptTokens.Some? then s.promptTokens.value else 0
    case Cached => if s.cachedTokens.Some? then s.cachedTokens.value else 0
    case Written => if s.completionTokens.Some? then s.completionTokens.value else 0
  }

  function Tokens(spans: seq<Span>, kind: TokenKind): int {
    if spans == [] then 0 else Tokens(spans[..|spans| - 1], kind) + TokensOf(spans[|spans| - 1], kind)
  }

  function Costs(spans: seq<Span>): real {
    if spans == [] then 0.0
    else
      var last := spans[|spans| - 1];
      Costs(spans[..|spans| - 1]) + if last.cost.Some? then last.cost.value else 0.0
  }

  /** Every figure of a bill is the sum of its own attribute over the spans, a missing one counting nothing. */
  lemma {:induction false} BillAddsUp(spans: seq<Span>)
    ensures Bill(spans) == LlmBucket(|spans|, Tokens(spans, Prompt), Tokens(spans, Cached), Tokens(spans, Written), Costs(spans))
  {
    if spans != [] {
      BillAddsUp(spans[..|spans| - 1]);
    }
  }

  /** The longest of the given spans, and never less than zero. */
  predicate IsLongest(max: real, spans: seq<Span>) {
    && max >= 0.0
    && (forall i :: 0 <= i < |spans| ==> spans[i].duration <= max)
    && (max == 0.0 || exists i :: 0 <= i < |spans| && spans[i].duration == max)
  }

  /** Count, errors, total and maximum are those of exactly these spans. */
  predicate Describes(b: NameBucket, spans: seq<Span>) {
    b.count == |spans| && b.errors == Failures(spans) && b.total == Duration(spans) && IsLongest(b.max, spans)
  }

  lemma DescribesGrows(b: NameBucket, spans: seq<Span>, s: Span)
    requires Describes(b, spans)
    ensures Describes(AddName(b, s), spans + [s])
  {
    LongestGrows(b.max, spans, s);
    hide IsLongest;
    assert (spans + [s])[..|spans|] == spans;
  }

  lemma DescribesNothing()
    ensures Describes(NoName, [])
  {
  }

  /** A name has a bucket exactly when a span carries it, and the bucket describes exactly those spans. */
  lemma {:induction false} NameBucketHoldsItsSpans(spans: seq<Span>, name: string)
    ensures var own := OfName(spans, name);
      (name in Sum(spans).byName <==> own != []) && Describes(Get(Sum(spans).byName, name, NoName), own)
  {
    hide Describes, AddName, Billed;
    DescribesNothing();
    if spans != [] {
      var init, last := spans[..|spans| - 1], spans[|spans| - 1];
      NameBucketHoldsItsSpans(init, name);
      DescribesGrows(Get(Sum(init).byName, name, NoName), OfName(init, name), last);
    }
  }

  /** The total is the duration of all spans. */
  lemma {:induction false} TotalIsTheDuration(spans: seq<Span>)
    ensures Sum(spans).total == Duration(spans)
  {
    hide Named, Billed, AddLlm;
    if spans != [] {
      TotalIsTheDuration(spans[..|spans| - 1]);
    }
  }

  lemma LongestGrows(max: real, spans: seq<Span>, s: Span)
    requires IsLongest(max, spans)
    ensures IsLongest(if max < s.duration then s.duration else max, spans + [s])
  {
    var all := spans + [s];
    assert all[|spans|] == s;
    if max >= s.duration && max != 0.0 {
      var i :| 0 <= i < |spans| && spans[i].duration == max;
      assert all[i].duration == max;
    }
  }

  /** An agent's bucket bills exactly its own completions. */
  lemma {:induction false} AgentBucketHoldsItsSpans(spans: seq<Span>, agent: string)
    ensures var own := OfAgent(spans, agent);
      && (agent in Sum(spans).byAgent <==> own != [])
      && Get(Sum(spans).byAgent, agent, NoLlm) == Bill(own)
  {
    if spans != [] {
      var init, last := spans[..|spans| - 1], spans[|spans| - 1];
      AgentBucketHoldsItsSpans(init, agent);
      hide Named, Agent, AddLlm;
      AgentDoesIt(last, agent);
      if last.name == Completion && DoneBy(last, agent) {
        BillAppends(OfAgent(init, agent), last);
      }
      hide DoneBy;
    }
  }

  lemma BillAppends(spans: seq<Span>, s: Span)
    ensures Bill(spans + [s]) == AddLlm(Bill(spans), s)
  {
    assert (spans + [s])[..|spans|] == spans;
  }

  /** The total bills every completion. */
  lemma {:induction false} TotalBillsCompletions(spans: seq<Span>)
    ensures Sum(spans).llm == Bill(OfName(spans, Completion))
  {
    if spans != [] {
      var init, last := spans[..|spans| - 1], spans[|spans| - 1];
      TotalBillsCompletions(init);
      hide Named, Billed, AddLlm;
      if last.name == Completion {
        BillAppends(OfName(init, Completion), last);
      }
    }
  }

  // --- conservation ------------------------------------------------------------------------

  /** The names enumerate the keys, each once. */
  ghost predicate Enumerates(names: seq<string>, keys: set<string>) {
    Unique(names) && (forall n :: n in keys <==> n in names)
  }

  function Plus(a: LlmBucket, b: LlmBucket): LlmBucket {
    LlmBucket(a.calls + b.calls, a.prompt + b.prompt, a.cached + b.cached, a.completion + b.completion, a.cost + b.cost)
  }

  function CountSum(names: seq<string>, m: map<string, NameBucket>): nat {
    if names == [] then 0 else Get(m, names[0], NoName).count + CountSum(names[1..], m)
  }

  function BillSum(names: seq<string>, m: map<string, LlmBucket>): LlmBucket {
    if names == [] then NoLlm else Plus(Get(m, names[0], NoLlm), BillSum(names[1..], m))
  }

  lemma {:induction false} CountSumNamed(names: seq<string>, m: map<string, NameBucket>, s: Span)
    requires Unique(names)
    ensures CountSum(names, Named(m, s)) == CountSum(names, m) + if s.name in names then 1 else 0
  {
    if names != [] {
      CountSumNamed(names[1..], m, s);
      assert names == [names[0]] + names[1..];
    }
  }

  lemma GetBilled(m: map<string, LlmBucket>, s: Span, agent: string)
    requires s.name == Completion
    ensures Get(Billed(m, s), agent, NoLlm) ==
            if agent == Agent(s) then AddLlm(Get(m, agent, NoLlm), s) else Get(m, agent, NoLlm)
  {
    hide Agent, AddLlm;
  }

  lemma PlusAdds(a: LlmBucket, b: LlmBucket, s: Span)
    ensures Plus(AddLlm(a, s), b) == AddLlm(Plus(a, b), s) == Plus(a, AddLlm(b, s))
  {
  }

  lemma {:induction false} BillSumBilled(agents: seq<string>, m: map<string, LlmBucket>, s: Span)
    requires Unique(agents) && s.name == Completion
    ensures BillSum(agents, Billed(m, s)) ==
            if Agent(s) in agents then AddLlm(BillSum(agents, m), s) else BillSum(agents, m)
  {
    hide Agent, AddLlm, Plus, Get, Billed;
    if agents != [] {
      var first, rest := agents[0], agents[1..];
      assert agents == [first] + rest;
      BillSumBilled(rest, m, s);
      GetBilled(m, s, first);
      PlusAdds(Get(m, first, NoLlm), BillSum(rest, m), s);
    }
  }

  lemma {:induction false} SumsConserve(spans: seq<Span>, names: seq<string>, agents: seq<string>)
    requires Unique(names) && forall n :: n in Sum(spans).byName ==> n in names
    requires Unique(agents) && forall a :: a in Sum(spans).byAgent ==> a in agents
    ensures CountSum(names, Sum(spans).byName) == |spans|
    ensures BillSum(agents, Sum(spans).byAgent) == Sum(spans).llm
  {
    if spans == [] {
      NothingToCount(names);
      NothingToBill(agents);
    } else {
      var init, last := spans[..|spans| - 1], spans[|spans| - 1];
      var t := Sum(init);
      assert last.name in Named(t.byName, last);
      assert last.name == Completion ==> Agent(last) in Billed(t.byAgent, last);
      SumsConserve(init, names, agents);
      CountSumNamed(names, t.byName, last);
      if last.name == Completion {
        BillSumBilled(agents, t.byAgent, last);
      }
    }
  }

  lemma {:induction false} NothingToCount(names: seq<string>)
    ensures CountSum(names, NoTotals.byName) == 0
  {
    if names != [] {
      NothingToCount(names[1..]);
    }
  }

  lemma {:induction false} NothingToBill(agents: seq<string>)
    ensures BillSum(agents, NoTotals.byAgent) == NoLlm
  {
    hide Plus;
    if agents != [] {
      NothingToBill(agents[1..]);
      PlusNothing(NoLlm);
    }
  }

  lemma PlusNothing(b: LlmBucket)
    ensures Plus(NoLlm, b) == b
  {
  }
}
