/** Which workspace files a failure points at (collect_focus_paths, src/agents/_focus.py). */
module Focus {
  import opened Wrappers
  import opened Paths
  import opened Lists
  import Text

  /** Where a path in the output leads: a workspace-relative location, and whether a file is there.
      A path that does not resolve, or resolves outside the workspace, leads nowhere. */
  datatype Place = Place(rel: string, isFile: bool)

  /** What the failure output names: traceback frames, then pytest locations, and missing modules. */
  datatype Mentions = Mentions(traceback: seq<string>, pytest: seq<string>, modules: seq<string>)

  function Dotted(name: string): (r: string)
    ensures |r| == |name|
  {
    seq(|name|, i requires 0 <= i < |name| => if name[i] == '.' then '/' else name[i])
  }

  function Hints(name: string): seq<string> {
    [Dotted(name) + ".py", Dotted(name) + "/__init__.py", Split(name, '.')[0] + ".py"]
  }

  function AllHints(modules: seq<string>): seq<string> {
    if modules == [] then [] else AllHints(modules[..|modules| - 1]) + Hints(modules[|modules| - 1])
  }

  /** Module hints first, then the frames from the innermost outwards. */
  function Candidates(m: Mentions): seq<string> {
    AllHints(m.modules) + Backwards(m.traceback + m.pytest)
  }

  /** The location a candidate contributes: an existing workspace file other than the reproducer test. */
  function Valid(locate: string -> Option<Place>, test: Option<string>, raw: string): Option<string> {
    var place := locate(raw);
    if place.None? || test == Some(place.value.rel) || !place.value.isFile then None else Some(place.value.rel)
  }

  function ValidPaths(locate: string -> Option<Place>, test: Option<string>, raws: seq<string>): seq<string> {
    if raws == [] then []
    else
      var before, last := ValidPaths(locate, test, raws[..|raws| - 1]), Valid(locate, test, raws[|raws| - 1]);
      if last.Some? then before + [last.value] else before
  }

  function Take(xs: seq<string>, n: int): seq<string> {
    if n >= |xs| then xs else if n <= 0 then [] else xs[..n]
  }

  /** The source's loop: skip what is invalid or seen, stop once the budget is full. */
  method CollectFocusPaths(m: Mentions, locate: string -> Option<Place>, test: Option<string>, budget: int)
    returns (out: seq<string>)
    ensures out == Take(Dedup(ValidPaths(locate, test, Candidates(m))), Max(1, budget))
  {
    hide Hints, AllHints, Backwards, Candidates, ValidPaths, Dedup, Take;
    var frames := m.traceback + m.pytest;
    var hints: seq<string> := [];
    NoHints(m.modules);
    for i := 0 to |m.modules|
      invariant hints == AllHints(m.modules[..i])
    {
      OneMoreHint(m.modules, i);
      hints := hints + Hints(m.modules[i]);
    }
    assert m.modules[..|m.modules|] == m.modules;
    var candidates := hints + Backwards(frames);
    CandidatesAre(m);
    NoPaths(locate, test, candidates);
    var seen: set<string> := {};
    out := [];
    for i := 0 to |candidates|
      invariant out == Dedup(ValidPaths(locate, test, candidates[..i]))
      invariant forall x :: x in seen <==> x in out
      invariant |out| < Max(1, budget)
    {
      OneMore(locate, test, candidates, i);
      LaterPathsComeAfter(locate, test, candidates, i + 1);
      var raw := candidates[i];
      var place := locate(raw);
      if place.None? {
        continue;
      }
      var rel := place.value.rel;
      if test == Some(rel) || !place.value.isFile || rel in seen {
        continue;
      }
      seen := seen + {rel};
      out := out + [rel];
      if |out| >= budget {
        FullTake(out, Dedup(ValidPaths(locate, test, candidates)), budget);
        return;
      }
    }
    assert candidates[..|candidates|] == candidates;
    WholeTake(out, budget);
  }

  lemma NoHints(modules: seq<string>)
    ensures AllHints(modules[..0]) == []
  {
  }

  lemma OneMoreHint(modules: seq<string>, i: nat)
    requires i < |modules|
    ensures AllHints(modules[..i + 1]) == AllHints(modules[..i]) + Hints(modules[i])
  {
    assert modules[..i + 1][..i] == modules[..i];
  }

  lemma CandidatesAre(m: Mentions)
    ensures Candidates(m) == AllHints(m.modules) + Backwards(m.traceback + m.pytest)
  {
  }

  lemma NoPaths(locate: string -> Option<Place>, test: Option<string>, raws: seq<string>)
    ensures Dedup(ValidPaths(locate, test, raws[..0])) == []
  {
  }

  lemma FullTake(out: seq<string>, all: seq<string>, budget: int)
    requires out <= all && budget <= |out| <= Max(1, budget) && out != []
    ensures Take(all, Max(1, budget)) == out
  {
  }

  lemma WholeTake(all: seq<string>, budget: int)
    requires |all| < Max(1, budget)
    ensures Take(all, Max(1, budget)) == all
  {
  }

  lemma OneMore(locate: string -> Option<Place>, test: Option<string>, raws: seq<string>, i: nat)
    requires i < |raws|
    ensures var before, last := Dedup(ValidPaths(locate, test, raws[..i])), Valid(locate, test, raws[i]);
      Dedup(ValidPaths(locate, test, raws[..i + 1])) ==
        if last.Some? && last.value !in before then before + [last.value] else before
  {
    hide Valid;
    assert raws[..i + 1][..i] == raws[..i];
  }

  /** Looking at more candidates only appends. */
  lemma {:induction false} LaterPathsComeAfter(locate: string -> Option<Place>, test: Option<string>, raws: seq<string>, i: nat)
    requires i <= |raws|
    ensures Dedup(ValidPaths(locate, test, raws[..i])) <= Dedup(ValidPaths(locate, test, raws))
  {
    hide Valid;
    if i == |raws| {
      assert raws[..i] == raws;
    } else {
      LaterPathsComeAfter(locate, test, raws[..|raws| - 1], i);
      assert raws[..|raws| - 1][..i] == raws[..i];
    }
  }

  lemma {:induction false} ValidPathsAreValid(locate: string -> Option<Place>, test: Option<string>, raws: seq<string>, p: string)
    ensures p in ValidPaths(locate, test, raws) <==>
            exists i :: 0 <= i < |raws| && Valid(locate, test, raws[i]) == Some(p)
  {
    hide Valid;
    if raws != [] {
      var init := raws[..|raws| - 1];
      ValidPathsAreValid(locate, test, init, p);
      assert forall i :: 0 <= i < |init| ==> init[i] == raws[i];
    }
  }

  /** The candidate is located, as a file in the workspace, here, and that is not the reproducer test. */
  predicate Leads(locate: string -> Option<Place>, test: Option<string>, raw: string, p: string) {
    locate(raw) == Some(Place(p, true)) && test != Some(p)
  }

  lemma ValidLeads(locate: string -> Option<Place>, test: Option<string>, raw: string, p: string)
    ensures Valid(locate, test, raw) == Some(p) <==> Leads(locate, test, raw, p)
  {
  }

  /** Some candidate leads to q before any leads to p. */
  ghost predicate NamedBefore(locate: string -> Option<Place>, test: Option<string>, raws: seq<string>, q: string, p: string) {
    exists i :: 0 <= i < |raws| && Leads(locate, test, raws[i], q) && forall j :: 0 <= j <= i ==> !Leads(locate, test, raws[j], p)
  }

  lemma NamedBeforeGrows(locate: string -> Option<Place>, test: Option<string>, raws: seq<string>, raw: string,
                         q: string, p: string)
    requires NamedBefore(locate, test, raws, q, p)
    ensures NamedBefore(locate, test, raws + [raw], q, p)
  {
    hide Leads;
    var i :| 0 <= i < |raws| && Leads(locate, test, raws[i], q) && forall j :: 0 <= j <= i ==> !Leads(locate, test, raws[j], p);
    var all := raws + [raw];
    assert Leads(locate, test, all[i], q) && forall j :: 0 <= j <= i ==> all[j] == raws[j];
  }

  lemma NamedLast(locate: string -> Option<Place>, test: Option<string>, raws: seq<string>, raw: string, q: string, p: string)
    requires Leads(locate, test, raw, q) && p !in ValidPaths(locate, test, raws + [raw])
    ensures NamedBefore(locate, test, raws + [raw], q, p)
  {
    var all := raws + [raw];
    ValidPathsAreValid(locate, test, all, p);
    hide Valid, Leads, ValidPaths;
    forall j | 0 <= j < |all| ensures !Leads(locate, test, all[j], p) {
      ValidLeads(locate, test, all[j], p);
    }
    assert Leads(locate, test, all[|raws|], q);
  }

  lemma ValidPathsStep(locate: string -> Option<Place>, test: Option<string>, raws: seq<string>, raw: string)
    ensures ValidPaths(locate, test, raws + [raw]) ==
            ValidPaths(locate, test, raws) + (if Valid(locate, test, raw).Some? then [Valid(locate, test, raw).value] else [])
  {
    assert (raws + [raw])[..|raws|] == raws;
    hide Valid;
  }

  lemma {:induction false} EarlierIsNamedBefore(locate: string -> Option<Place>, test: Option<string>, raws: seq<string>,
                                                q: string, p: string)
    requires var valid := ValidPaths(locate, test, raws); q in valid && FirstAt(valid, q) < FirstAt(valid, p)
    ensures NamedBefore(locate, test, raws, q, p)
  {
    assert raws != [];
    hide Valid, Leads, NamedBefore, ValidPaths, FirstAt;
    var init, last := raws[..|raws| - 1], raws[|raws| - 1];
    assert raws == init + [last];
    var before, valid := ValidPaths(locate, test, init), ValidPaths(locate, test, raws);
    ValidPathsStep(locate, test, init, last);
    if q in before {
      FirstAtStaysBehind(before, valid, q, p);
      EarlierIsNamedBefore(locate, test, init, q, p);
      NamedBeforeGrows(locate, test, init, last, q, p);
    } else {
      ValidLeads(locate, test, last, q);
      FirstIsNoLater(valid, p);
      LastIsFirst(before, q);
      NamedLast(locate, test, init, last, q, p);
    }
  }

  lemma LastIsFirst(xs: seq<string>, x: string)
    requires x !in xs
    ensures FirstAt(xs + [x], x) == |xs|
  {
    FirstAtUnique(xs + [x], x, |xs|);
  }

  lemma FirstAtPrefix(xs: seq<string>, ys: seq<string>, x: string)
    requires xs <= ys && x in xs
    ensures FirstAt(ys, x) == FirstAt(xs, x) < |xs|
  {
    assert FirstAt(xs, x) < |xs| by {
      var i :| 0 <= i < |xs| && xs[i] == x;
    }
    FirstAtUnique(ys, x, FirstAt(xs, x));
  }

  lemma FirstAtStaysBehind(xs: seq<string>, ys: seq<string>, q: string, p: string)
    requires xs <= ys && q in xs && FirstAt(ys, q) < FirstAt(ys, p)
    ensures FirstAt(xs, q) < FirstAt(xs, p)
  {
    FirstAtPrefix(xs, ys, q);
    if FirstAt(xs, p) < |xs| {
      FirstAtPrefix(xs, ys, p);
    }
  }

  lemma FirstIsNoLater(xs: seq<string>, x: string)
    ensures x in xs ==> FirstAt(xs, x) < |xs|
  {
    if x in xs {
      FirstAtPrefix(xs, xs, x);
    }
  }

  /** The answer holds at most max(1, budget) different files, each located by a candidate as a file in the workspace and
      never the reproducer test; such a file is left out only when the budget is used up by files that candidates name
      earlier. */
  lemma FocusIsTheFirstValidPaths(m: Mentions, locate: string -> Option<Place>, test: Option<string>, budget: int, p: string)
    ensures var raws := Candidates(m); var out := Take(Dedup(ValidPaths(locate, test, raws)), Max(1, budget));
      && |out| <= Max(1, budget) && Unique(out)
      && (p in out ==> exists i :: 0 <= i < |raws| && Leads(locate, test, raws[i], p))
      && ((exists i :: 0 <= i < |raws| && Leads(locate, test, raws[i], p)) && p !in out ==>
            |out| == Max(1, budget) && forall q :: q in out ==> NamedBefore(locate, test, raws, q, p))
  {
    var raws := Candidates(m);
    var valid := ValidPaths(locate, test, raws);
    var all := Dedup(valid);
    var out := Take(all, Max(1, budget));
    DedupKeepsTheValues(valid);
    ValidPathsAreValid(locate, test, raws, p);
    hide Candidates, Dedup, ValidPaths, Valid, Leads, NamedBefore;
    forall raw ensures Valid(locate, test, raw) == Some(p) <==> Leads(locate, test, raw, p) {
      ValidLeads(locate, test, raw, p);
    }
    if p in valid && p !in out {
      var j :| 0 <= j < |all| && all[j] == p;
      assert j >= |out|;
      forall q | q in out ensures NamedBefore(locate, test, raws, q, p) {
        var i :| 0 <= i < |out| && out[i] == q;
        DedupKeepsTheOrder(valid, i, j);
        EarlierIsNamedBefore(locate, test, raws, q, p);
      }
    }
  }

  // --- the candidates --------------------------------------------------------------------

  lemma {:induction false} DottedJoins(name: string)
    ensures Dotted(name) == Text.Join("/", Split(name, '.'))
  {
    if name == "" {
      assert Split(name, '.') == [""];
    } else {
      var rest, parts := name[1..], Split(name[1..], '.');
      DottedJoins(rest);
      assert Dotted(name) == [if name[0] == '.' then '/' else name[0]] + Dotted(rest);
      hide Split, Dotted, Text.Join;
      SplitStep(name[0], rest, '.');
      assert name == [name[0]] + rest;
      if name[0] == '.' {
        Text.JoinBehind("/", "", parts);
        assert "" + "/" + Text.Join("/", parts) == ['/'] + Text.Join("/", parts);
        assert Prepended(name[0], '.', parts) == [""] + parts;
      } else {
        JoinInFront(name[0], parts);
        assert Prepended(name[0], '.', parts) == [[name[0]] + parts[0]] + parts[1..];
      }
    }
  }

  lemma {:induction false} JoinInFront(c: char, parts: seq<string>)
    requires parts != []
    ensures Text.Join("/", [[c] + parts[0]] + parts[1..]) == [c] + Text.Join("/", parts)
  {
    var all := [[c] + parts[0]] + parts[1..];
    if |parts| > 1 {
      var init := parts[..|parts| - 1];
      assert all[..|all| - 1] == [[c] + init[0]] + init[1..];
      JoinInFront(c, init);
    }
  }

  /** A missing module is looked for as a file, then as a package, then as its top package's file, before any frame. */
  lemma {:induction false} ModuleHints(m: Mentions, k: nat)
    requires k < |m.modules|
    ensures var candidates, parts := Candidates(m), Split(m.modules[k], '.');
      && 3 * k + 2 < |candidates|
      && candidates[3 * k] == Text.Join("/", parts) + ".py"
      && candidates[3 * k + 1] == Text.Join("/", parts) + "/__init__.py"
      && candidates[3 * k + 2] == parts[0] + ".py"
  {
    HintAt(m.modules, k);
    DottedJoins(m.modules[k]);
    hide AllHints, Split, Dotted, Text.Join;
  }

  lemma {:induction false} HintAt(modules: seq<string>, k: nat)
    requires k < |modules|
    ensures 3 * k + 2 < |AllHints(modules)| && AllHints(modules)[3 * k..3 * k + 3] == Hints(modules[k])
  {
    hide Hints;
    var init := modules[..|modules| - 1];
    HintCount(init);
    HintCount(modules);
    if k < |init| {
      HintAt(init, k);
      assert AllHints(modules)[3 * k..3 * k + 3] == AllHints(init)[3 * k..3 * k + 3];
    }
  }

  /** The innermost frame comes first among the frames, after every module hint. */
  lemma InnermostFrameFirst(m: Mentions, i: nat, j: nat)
    requires i < j < |m.traceback + m.pytest|
    ensures var frames, hints := m.traceback + m.pytest, |AllHints(m.modules)|;
      var candidates := Candidates(m);
      && hints == 3 * |m.modules| && |candidates| == hints + |frames|
      && candidates[hints + (|frames| - 1 - j)] == frames[j]
      && candidates[hints + (|frames| - 1 - i)] == frames[i]
  {
    HintCount(m.modules);
  }

  lemma {:induction false} HintCount(modules: seq<string>)
    ensures |AllHints(modules)| == 3 * |modules|
  {
    if modules != [] {
      HintCount(modules[..|modules| - 1]);
    }
  }
}
