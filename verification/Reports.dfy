/** The rounded report, the sink that produces it and the instrumentation that feeds it
    (src/observability/sinks.py:42-106, span.py), over exact reals. */
module Reports {
  import opened Telemetry

  // --- rounding ---------------------------------------------------------------------

  /** The nearest integer, ties to even. */
  function HalfEven(x: real): int {
    var down := x.Floor;
    var rest := x - down as real;
    if rest < 0.5 || (rest == 0.5 && down % 2 == 0) then down else down + 1
  }

  function Round4(x: real): real {
    HalfEven(x * 10000.0) as real / 10000.0
  }

  function Round6(x: real): real {
    HalfEven(x * 1000000.0) as real / 1000000.0
  }

  const Half4 := 0.00005
  const Half6 := 0.0000005

  predicate Within(x: real, y: real, error: real) {
    -error <= x - y <= error
  }

  /** No integer is nearer, and of two equally near ones the even one is taken. */
  lemma HalfEvenIsNearest(x: real, k: int)
    ensures Within(HalfEven(x) as real, x, 0.5)
    ensures k != HalfEven(x) && Within(k as real, x, 0.5) ==> HalfEven(x) % 2 == 0
  {
    var down := x.Floor;
    assert down as real <= x < down as real + 1.0;
    if k < down { assert k as real <= down as real - 1.0; }
    if k > down + 1 { assert k as real >= down as real + 2.0; }
  }

  lemma RoundingError(x: real)
    ensures Within(Round4(x), x, Half4) && Within(Round6(x), x, Half6)
  {
    HalfEvenIsNearest(x * 10000.0, 0);
    HalfEvenIsNearest(x * 1000000.0, 0);
    hide HalfEven;
  }

  // --- the report -------------------------------------------------------------------

  datatype Report = Report(
    spanCount: nat, totalDuration: real, nodePath: seq<string>,
    byName: map<string, NameBucket>, llm: LlmBucket, byAgent: map<string, LlmBucket>)

  function Mean(b: NameBucket): real
    requires b.count > 0
  {
    b.total / b.count as real
  }

  function RoundName(b: NameBucket): NameBucket {
    b.(average := if b.count > 0 then Round4(Mean(b)) else 0.0,
       total := Round4(b.total), max := Round4(b.max))
  }

  function RoundBill(b: LlmBucket): LlmBucket {
    b.(cost := Round6(b.cost))
  }

  function RoundNames(m: map<string, NameBucket>): map<string, NameBucket> {
    map n | n in m :: RoundName(m[n])
  }

  function RoundBills(m: map<string, LlmBucket>): map<string, LlmBucket> {
    map a | a in m :: RoundBill(m[a])
  }

  const NodePrefix := "node."

  /** name.split(".", 1)[1]: what follows the first dot. */
  function AfterDot(name: string): string {
    if name == [] then [] else if name[0] == '.' then name[1..] else AfterDot(name[1..])
  }

  function NodePath(spans: seq<Span>): seq<string> {
    if spans == [] then []
    else
      var path, last := NodePath(spans[..|spans| - 1]), spans[|spans| - 1];
      if NodePrefix <= last.name then path + [AfterDot(last.name)] else path
  }

  lemma NothingYet(spans: seq<Span>)
    ensures Sum(spans[..0]) == NoTotals && NodePath(spans[..0]) == []
  {
  }

  lemma NodePathStep(spans: seq<Span>, i: nat)
    requires i < |spans|
    ensures NodePath(spans[..i + 1]) ==
            NodePath(spans[..i]) + if NodePrefix <= spans[i].name then [AfterDot(spans[i].name)] else []
  {
    assert spans[..i + 1][..i] == spans[..i];
  }

  /** aggregate reads the span list three times: for the buckets, for the node path and for the count. */
  function ReportOf(first: seq<Span>, second: seq<Span>, third: seq<Span>): Report {
    var t := Sum(first);
    Report(|third|, Round4(t.total), NodePath(second), RoundNames(t.byName), RoundBill(t.llm), RoundBills(t.byAgent))
  }

  class InMemoryTelemetry {
    var spans: seq<Span>

    constructor ()
      ensures spans == []
    {
      spans := [];
    }

    method Record(span: Span)
      modifies this
      ensures spans == old(spans) + [span]
    {
      spans := spans + [span];
    }

    /** What other threads record while this one works, in the order the lock admits them. */
    method RecordAll(others: seq<Span>)
      modifies this
      ensures spans == old(spans) + others
    {
      for i := 0 to |others|
        invariant spans == old(spans) + others[..i]
      {
        Record(others[i]);
      }
    }

    method Aggregate(early: seq<Span>, late: seq<Span>) returns (r: Report)
      modifies this
      ensures spans == old(spans) + early + late
      ensures r == ReportOf(old(spans), old(spans) + early, old(spans) + early + late)
    {
      hide AddName, AddLlm, Agent, Round4, AfterDot, Sum, NodePath, RoundNames, RoundBills, RoundBill;
      NothingYet(spans);
      var first := spans;
      var total := 0.0;
      var llm := NoLlm;
      var byName: map<string, NameBucket> := map[];
      var byAgent: map<string, LlmBucket> := map[];
      for i := 0 to |first|
        invariant spans == first
        invariant Totals(byName, total, llm, byAgent) == Sum(first[..i])
      {
        var s := first[i];
        SumStep(first, i);
        total := total + s.duration;
        if s.name !in byName {
          byName := byName[s.name := NoName];
        }
        byName := byName[s.name := AddName(byName[s.name], s)];
        if s.name == Completion {
          var agent := Agent(s);
          if agent !in byAgent {
            byAgent := byAgent[agent := NoLlm];
          }
          llm := AddLlm(llm, s);
          byAgent := byAgent[agent := AddLlm(byAgent[agent], s)];
        }
      }
      assert first[..|first|] == first;
      ghost var t := Sum(first);
      assert byName == t.byName && total == t.total && llm == t.llm && byAgent == t.byAgent;
      byName := RoundNameBuckets(byName);
      llm := RoundBill(llm);
      byAgent := RoundLlmBuckets(byAgent);
      RecordAll(early);
      var second := spans;
      NothingYet(second);
      var path: seq<string> := [];
      for i := 0 to |second|
        invariant spans == second && path == NodePath(second[..i])
      {
        NodePathStep(second, i);
        if NodePrefix <= second[i].name {
          path := path + [AfterDot(second[i].name)];
        }
      }
      assert second[..|second|] == second;
      assert path == NodePath(second);
      RecordAll(late);
      r := Report(|spans|, Round4(total), path, byName, llm, byAgent);
    }

    static method RoundNameBuckets(buckets: map<string, NameBucket>) returns (rounded: map<string, NameBucket>)
      ensures rounded == RoundNames(buckets)
    {
      hide RoundName;
      rounded := buckets;
      var todo := buckets.Keys;
      while todo != {}
        invariant todo <= buckets.Keys == rounded.Keys
        invariant forall n :: n in buckets ==> rounded[n] == if n in todo then buckets[n] else RoundName(buckets[n])
      {
        var n :| n in todo;
        todo := todo - {n};
        rounded := rounded[n := RoundName(rounded[n])];
      }
    }

    static method RoundLlmBuckets(buckets: map<string, LlmBucket>) returns (rounded: map<string, LlmBucket>)
      ensures rounded == RoundBills(buckets)
    {
      hide RoundBill;
      rounded := buckets;
      var todo := buckets.Keys;
      while todo != {}
        invariant todo <= buckets.Keys == rounded.Keys
        invariant forall a :: a in buckets ==> rounded[a] == if a in todo then buckets[a] else RoundBill(buckets[a])
      {
        var a :| a in todo;
        todo := todo - {a};
        rounded := rounded[a := RoundBill(rounded[a])];
      }
    }
  }

  // --- conservation in the report -----------------------------------------------------

  lemma {:induction false} RoundingKeepsCounts(names: seq<string>, m: map<string, NameBucket>)
    ensures CountSum(names, RoundNames(m)) == CountSum(names, m)
  {
    if names != [] {
      RoundingKeepsCounts(names[1..], m);
    }
  }

  lemma {:induction false} RoundingMovesCosts(agents: seq<string>, m: map<string, LlmBucket>)
    ensures var sum, rounded := BillSum(agents, m), BillSum(agents, RoundBills(m));
      && rounded.(cost := sum.cost) == sum
      && Within(rounded.cost, sum.cost, |agents| as real * Half6)
  {
    hide Round6;
    if agents != [] {
      RoundingMovesCosts(agents[1..], m);
      RoundingError(Get(m, agents[0], NoLlm).cost);
      RoundingNothing();
    }
  }

  lemma RoundingNothing()
    ensures RoundBill(NoLlm) == NoLlm
  {
  }

  /** The name counts add up to the spans seen by the first snapshot, so never to more than span_count, and
      to exactly that when nothing was recorded meanwhile; the integer totals are the sums over the agents;
      the total cost is off by at most half a unit per rounded figure. */
  lemma ReportConserves(spans: seq<Span>, early: seq<Span>, late: seq<Span>, names: seq<string>, agents: seq<string>)
    requires var r := ReportOf(spans, spans + early, spans + early + late);
      Enumerates(names, r.byName.Keys) && Enumerates(agents, r.byAgent.Keys)
    ensures var r := ReportOf(spans, spans + early, spans + early + late); var sum := BillSum(agents, r.byAgent);
      && CountSum(names, r.byName) == |spans| <= r.spanCount
      && (CountSum(names, r.byName) == r.spanCount <==> early + late == [])
      && r.llm.(cost := 0.0) == sum.(cost := 0.0)
      && Within(r.llm.cost, sum.cost, (|agents| as real + 1.0) * Half6)
  {
    var t := Sum(spans);
    SumsConserve(spans, names, agents);
    RoundingKeepsCounts(names, t.byName);
    RoundingMovesCosts(agents, t.byAgent);
    RoundingError(t.llm.cost);
    hide Sum, Round4, Round6, BillSum, CountSum, RoundName, NodePath;
  }

  /** Kept behind a name so that the proofs below stay linear. */
  function Times(x: real, count: nat): real {
    x * count as real
  }

  lemma ScaledError(x: real, y: real, count: nat, error: real)
    requires Within(x, y, error)
    ensures Within(Times(x, count), Times(y, count), Times(error, count))
  {
    var c := count as real;
    assert c * (x - y) <= c * error;
    assert c * (x - y) >= c * -error;
  }

  lemma ErrorsAdd(x: real, y: real, exact: real, error: real)
    requires Within(x, exact, error) && Within(y, exact, Half4)
    ensures Within(x, y, error + Half4)
  {
  }

  lemma MeanTimesCount(b: NameBucket)
    requires b.count > 0
    ensures Times(Mean(b), b.count) == b.total
  {
  }

  /** An average times its count misses the total by at most count + 1 half units. */
  predicate AverageFits(average: real, total: real, count: nat) {
    Within(Times(average, count), total, Times(Half4, count) + Half4)
  }

  lemma RoundedMean(mean: real, total: real, count: nat)
    requires Times(mean, count) == total
    ensures AverageFits(Round4(mean), Round4(total), count)
  {
    hide Round4, Times;
    RoundingError(mean);
    RoundingError(total);
    ScaledError(Round4(mean), mean, count, Half4);
    ErrorsAdd(Times(Round4(mean), count), Round4(total), total, Times(Half4, count));
  }

  lemma AverageOfBucket(raw: NameBucket)
    requires raw.count > 0
    ensures var b := RoundName(raw);
      && Within(b.total, raw.total, Half4) && AverageFits(b.average, b.total, b.count)
      && b.errors == raw.errors && Within(b.max, raw.max, Half4)
  {
    hide Mean, Round4, Within, AverageFits;
    RoundingError(raw.total);
    RoundingError(raw.max);
    MeanTimesCount(raw);
    RoundedMean(Mean(raw), raw.total, raw.count);
  }

  /** Every row of the report describes the spans of its name, up to rounding: how many there are and how many failed,
      how long they took in all and on average, and the longest of them. */
  lemma AverageMatchesTotal(spans: seq<Span>, second: seq<Span>, third: seq<Span>, name: string) returns (longest: real)
    requires name in ReportOf(spans, second, third).byName
    ensures var b, own := ReportOf(spans, second, third).byName[name], OfName(spans, name);
      && b.count == |own| > 0 && b.errors == Failures(own)
      && Within(b.total, Duration(own), Half4) && AverageFits(b.average, b.total, b.count)
      && IsLongest(longest, own) && Within(b.max, longest, Half4)
  {
    NameBucketHoldsItsSpans(spans, name);
    AverageOfBucket(Sum(spans).byName[name]);
    longest := Sum(spans).byName[name].max;
    hide Sum, OfName, NodePath, Round4, Round6, Within, AverageFits, IsLongest;
  }

  /** What these spans bill, up to the rounding of the cost. */
  predicate Bills(b: LlmBucket, spans: seq<Span>) {
    && b.calls == |spans| && b.prompt == Tokens(spans, Prompt) && b.cached == Tokens(spans, Cached)
    && b.completion == Tokens(spans, Written) && Within(b.cost, Costs(spans), Half6)
  }

  lemma RoundedBill(spans: seq<Span>)
    ensures Bills(RoundBill(Bill(spans)), spans)
  {
    hide Round6, Within;
    BillAddsUp(spans);
    RoundingError(Costs(spans));
  }

  /** The totals are those of all spans and all completions; an agent has a row exactly when it has a completion, and
      the row bills exactly its own. */
  lemma ReportBills(spans: seq<Span>, second: seq<Span>, third: seq<Span>, agent: string)
    ensures var r, own := ReportOf(spans, second, third), OfAgent(spans, agent);
      && Within(r.totalDuration, Duration(spans), Half4) && Bills(r.llm, OfName(spans, Completion))
      && (agent in r.byAgent <==> own != []) && (agent in r.byAgent ==> Bills(r.byAgent[agent], own))
  {
    hide Sum, OfName, OfAgent, NodePath, Round4, Round6, Within, Bills, RoundBill, RoundNames, Bill;
    TotalIsTheDuration(spans);
    RoundingError(Duration(spans));
    TotalBillsCompletions(spans);
    RoundedBill(OfName(spans, Completion));
    AgentBucketHoldsItsSpans(spans, agent);
    RoundedBill(OfAgent(spans, agent));
  }

  /** Permuting the spans changes nothing but the node path. */
  lemma ReportIgnoresOrder(a: seq<Span>, b: seq<Span>)
    requires multiset(a) == multiset(b)
    ensures ReportOf(a, a, a) == ReportOf(b, b, b).(nodePath := NodePath(a))
  {
    SumIgnoresOrder(a, b);
    assert |multiset(a)| == |a| && |multiset(b)| == |b|;
    hide Sum, Round4, RoundName, RoundBill;
  }
}
