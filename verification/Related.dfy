/** The tests the no-regression gate picks for a fix (src/orchestrator/regression.py). */
module Related {
  import opened Wrappers
  import opened Paths
  import opened Lists
  import opened Scanning
  import Text

  // --- file names -------------------------------------------------------------------

  /** The test-file pattern, on a stem: test_x, x_test, x_tests or unittest_x, with something for the x. */
  predicate TestStem(stem: string) {
    || ("test_" < stem)
    || (Text.EndsWith(stem, "_test") && |stem| > 5)
    || (Text.EndsWith(stem, "_tests") && |stem| > 6)
    || ("unittest_" < stem)
  }

  predicate PythonFile(name: string) {
    Text.EndsWith(name, ".py")
  }

  predicate TestName(name: string) {
    PythonFile(name) && TestStem(name[..|name| - 3])
  }

  function LastPart(path: string): string {
    var parts := Split(path, '/');
    parts[|parts| - 1]
  }

  /** The pattern is anchored at the end and crosses no slash, so it looks at the last part only. */
  predicate SourceFile(path: string) {
    PythonFile(path) && !TestName(LastPart(path))
  }

  function LastDot(name: string): (k: int)
    ensures -1 <= k < |name|
  {
    if name == "" then -1
    else if name[|name| - 1] == '.' then |name| - 1
    else LastDot(name[..|name| - 1])
  }

  /** PurePath.stem */
  function Stem(name: string): string {
    var k := LastDot(name);
    if 0 < k < |name| - 1 then name[..k] else name
  }

  // --- changed files ----------------------------------------------------------------

  /** The characters up to the first white space. */
  function NonSpace(s: string): (r: string)
    ensures r <= s
  {
    s[..Span(s, NotSpace)]
  }

  const DiffMark := "diff --git a/"
  const SecondMark := " b/"

  /** The target of one `diff --git a/… b/…` line. */
  function Target(line: string): Option<string> {
    if !(DiffMark <= line) then None
    else
      var rest := line[|DiffMark|..];
      var a := NonSpace(rest);
      if a == "" || !(SecondMark <= rest[|a|..]) then None
      else
        var b := NonSpace(rest[|a| + 3..]);
        if b == "" then None else Some(b)
  }

  lemma NonSpaceStops(a: string, rest: string)
    requires forall i :: 0 <= i < |a| ==> !Text.IsSpace(a[i])
    requires rest != "" ==> Text.IsSpace(rest[0])
    ensures NonSpace(a + rest) == a
  {
    hide Text.IsSpace, Span;
    if rest == "" {
      assert a + rest == a;
      SpanAll(a, NotSpace);
    } else {
      SpanStops(a, rest, NotSpace);
    }
  }

  /** A `diff --git` header names its target, whatever follows it. */
  lemma TargetReadsBack(a: string, b: string, rest: string)
    requires a != "" && forall i :: 0 <= i < |a| ==> !Text.IsSpace(a[i])
    requires b != "" && forall i :: 0 <= i < |b| ==> !Text.IsSpace(b[i])
    requires rest == "" || Text.IsSpace(rest[0])
    ensures Target(DiffMark + (a + (SecondMark + (b + rest)))) == Some(b)
  {
    assert Text.IsSpace(SecondMark[0]) && (SecondMark + (b + rest))[0] == SecondMark[0];
    hide NonSpace, Text.IsSpace;
    NonSpaceStops(a, SecondMark + (b + rest));
    NonSpaceStops(b, rest);
    StartsAndRest(DiffMark, a + (SecondMark + (b + rest)));
    StartsAndRest(a, SecondMark + (b + rest));
    StartsAndRest(SecondMark, b + rest);
    assert (a + (SecondMark + (b + rest)))[|a| + 3..] == b + rest;
  }

  function SourceTargets(lines: seq<string>): seq<string> {
    if lines == [] then []
    else
      var before, last := SourceTargets(lines[..|lines| - 1]), Target(lines[|lines| - 1]);
      if last.Some? && SourceFile(last.value) then before + [last.value] else before
  }

  method ChangedSourceFiles(diff: string) returns (files: seq<string>)
    ensures files == Dedup(SourceTargets(Split(diff, '\n')))
  {
    hide Target, SourceFile;
    var lines := Split(diff, '\n');
    files := [];
    for i := 0 to |lines|
      invariant files == Dedup(SourceTargets(lines[..i]))
    {
      assert lines[..i + 1][..i] == lines[..i];
      var target := Target(lines[i]);
      if target.Some? && SourceFile(target.value) && target.value !in files {
        files := files + [target.value];
      }
    }
    assert lines[..|lines|] == lines;
  }

  lemma {:induction false} SourceTargetsAreTargets(lines: seq<string>, f: string)
    ensures f in SourceTargets(lines) <==>
            SourceFile(f) && exists i :: 0 <= i < |lines| && Target(lines[i]) == Some(f)
  {
    hide Target, SourceFile;
    if lines != [] {
      var init := lines[..|lines| - 1];
      SourceTargetsAreTargets(init, f);
      assert forall i :: 0 <= i < |init| ==> init[i] == lines[i];
    }
  }

  /** The changed source files are the non-test Python targets of the diff, each once, as first mentioned. */
  lemma ChangedFilesAreTheSourceTargets(lines: seq<string>)
    ensures var files := Dedup(SourceTargets(lines));
      && Unique(files)
      && (forall f :: f in files <==> SourceFile(f) && exists i :: 0 <= i < |lines| && Target(lines[i]) == Some(f))
      && (forall i, j :: 0 <= i < j < |files| ==>
            FirstAt(SourceTargets(lines), files[i]) < FirstAt(SourceTargets(lines), files[j]))
  {
    var targets := SourceTargets(lines);
    var files := Dedup(targets);
    DedupKeepsTheValues(targets);
    forall f ensures f in files <==> SourceFile(f) && exists i :: 0 <= i < |lines| && Target(lines[i]) == Some(f) {
      SourceTargetsAreTargets(lines, f);
    }
    hide SourceFile, Target, Dedup;
    forall i, j | 0 <= i < j < |files|
      ensures FirstAt(targets, files[i]) < FirstAt(targets, files[j])
    {
      DedupKeepsTheOrder(targets, i, j);
    }
  }

  // --- selection --------------------------------------------------------------------

  /** A path the scan yields: its parts below the workspace, and what it imports if it can be read. */
  datatype Scanned = Scanned(rel: seq<string>, imports: Option<set<string>>)

  function SkipDirs(): set<string> {
    {".git", "venv", ".venv", "node_modules", "__pycache__", ".tox", "build", "dist", ".mypy_cache"}
  }

  predicate Skipped(parts: seq<string>) {
    exists p :: p in parts && p in SkipDirs()
  }

  function LastName(f: Scanned): string {
    if f.rel == [] then "" else f.rel[|f.rel| - 1]
  }

  function Stems(changed: seq<string>): set<string> {
    set f | f in changed :: Stem(Name(PurePath(f)))
  }

  predicate ByName(f: Scanned, stems: set<string>) {
    exists s :: s in stems && (Stem(LastName(f)) == "test_" + s || Stem(LastName(f)) == s + "_test")
  }

  predicate ByImport(f: Scanned, stems: set<string>) {
    f.imports.Some? && exists s :: s in stems && s in f.imports.value
  }

  function NameTargets(stems: set<string>): set<string> {
    (set s | s in stems :: "test_" + s) + (set s | s in stems :: s + "_test")
  }

  /** The two matches, as the set operations that decide them. */
  lemma MatchesBySets(f: Scanned, stems: set<string>)
    ensures ByName(f, stems) <==> Stem(LastName(f)) in NameTargets(stems)
    ensures ByImport(f, stems) <==> f.imports.Some? && f.imports.value * stems != {}
  {
    hide Stem;
    if f.imports.Some? && f.imports.value * stems != {} {
      var s :| s in f.imports.value * stems;
    }
    if ByImport(f, stems) {
      var s :| s in stems && s in f.imports.value;
      assert s in f.imports.value * stems;
    }
  }

  /** A scanned test file outside the skipped directories that matches by name or by import. */
  predicate Selected(workspace: seq<string>, f: Scanned, stems: set<string>) {
    && !Skipped(workspace + f.rel) && TestName(LastName(f))
    && (ByName(f, stems) || ByImport(f, stems))
  }

  function RelatedSet(workspace: seq<string>, files: seq<Scanned>, stems: set<string>): set<string> {
    set f | f in files && Selected(workspace, f, stems) :: AsPosix(f.rel)
  }

  ghost predicate IsSelection(r: seq<string>, workspace: seq<string>, files: seq<Scanned>, changed: seq<string>) {
    Increasing(r) && forall x :: x in r <==> x in RelatedSet(workspace, files, Stems(changed))
  }

  method SelectRelatedTests(workspace: seq<string>, files: seq<Scanned>, changed: seq<string>) returns (r: seq<string>)
    ensures IsSelection(r, workspace, files, changed)
  {
    hide Skipped, TestName, Stem, AsPosix, Increasing;
    var stems := Stems(changed);
    if stems == {} {
      assert forall f :: !Selected(workspace, f, stems);
      EmptyIncreases();
      return [];
    }
    var targets := NameTargets(stems);
    var related: set<string> := {};
    assert RelatedSet(workspace, files[..0], stems) == {};
    hide RelatedSet, NameTargets, ByName, ByImport;
    for i := 0 to |files|
      invariant related == RelatedSet(workspace, files[..i], stems)
    {
      var f := files[i];
      assert files[..i + 1] == files[..i] + [f];
      RelatedGrows(workspace, files[..i], f, stems);
      MatchesBySets(f, stems);
      if Skipped(workspace + f.rel) || !TestName(LastName(f)) {
        continue;
      }
      if Stem(LastName(f)) in targets {
        related := related + {AsPosix(f.rel)};
        continue;
      }
      if f.imports.Some? && f.imports.value * stems != {} {
        related := related + {AsPosix(f.rel)};
      }
    }
    assert files[..|files|] == files;
    r := Sorted(related);
  }

  lemma EmptyIncreases()
    ensures Increasing([])
  {
  }

  lemma RelatedGrows(workspace: seq<string>, files: seq<Scanned>, f: Scanned, stems: set<string>)
    ensures RelatedSet(workspace, files + [f], stems) ==
            RelatedSet(workspace, files, stems) + if Selected(workspace, f, stems) then {AsPosix(f.rel)} else {}
  {
    hide Selected, AsPosix;
  }

  lemma StemOfPython(stem: string)
    requires stem != ""
    ensures Stem(stem + ".py") == stem
  {
    var name := stem + ".py";
    assert name[..|name| - 1] == stem + ".p" && (stem + ".p")[..|stem| + 1] == stem + ".";
    assert LastDot(name) == LastDot(stem + ".p") == LastDot(stem + ".") == |stem|;
  }

  /** A dot at either end separates no suffix. */
  lemma {:induction false} DotsAtTheEnds(x: string)
    requires '.' !in x
    ensures Stem("." + x) == "." + x && Stem(x + ".") == x + "." && Stem(x) == x
  {
    NoDot(x);
    DotInFront(x);
    var name := x + ".";
    assert name[|name| - 1] == '.';
  }

  lemma {:induction false} NoDot(x: string)
    requires '.' !in x
    ensures LastDot(x) == -1
  {
    if x != "" {
      NoDot(x[..|x| - 1]);
    }
  }

  lemma {:induction false} DotInFront(x: string)
    requires '.' !in x
    ensures LastDot("." + x) == 0
  {
    if x != "" {
      assert ("." + x)[..|x|] == "." + x[..|x| - 1];
      DotInFront(x[..|x| - 1]);
    }
  }

  /** Every changed file's namesake tests, test_x.py and x_test.py, are selected wherever the scan finds them
      outside the skipped directories, whether or not they can be read. */
  lemma NamesakesAreSelected(workspace: seq<string>, f: Scanned, changed: seq<string>, path: string, stem: string)
    requires path in changed && Name(PurePath(path)) == stem + ".py" && stem != ""
    requires LastName(f) == "test_" + stem + ".py" || LastName(f) == stem + "_test" + ".py"
    requires !Skipped(workspace + f.rel)
    ensures Selected(workspace, f, Stems(changed))
  {
    hide Skipped, PurePath, Stem;
    StemOfPython(stem);
    assert stem in Stems(changed);
    var named := if LastName(f) == "test_" + stem + ".py" then "test_" + stem else stem + "_test";
    StemOfPython(named);
    assert LastName(f)[..|LastName(f)| - 3] == named && LastName(f)[|LastName(f)| - 3..] == ".py";
    assert (stem + "_test")[|stem|..] == "_test";
  }

  /** The order of the scan, repeated entries, and the order and repetition of changed files do not matter. */
  lemma SelectionIgnoresOrder(workspace: seq<string>, files: seq<Scanned>, files': seq<Scanned>,
                              changed: seq<string>, changed': seq<string>, r: seq<string>, r': seq<string>)
    requires forall f :: f in files <==> f in files'
    requires forall c :: c in changed <==> c in changed'
    requires IsSelection(r, workspace, files, changed) && IsSelection(r', workspace, files', changed')
    ensures r == r'
  {
    hide Selected, AsPosix, Stem, PurePath, Increasing;
    assert Stems(changed) == Stems(changed');
    assert RelatedSet(workspace, files, Stems(changed)) == RelatedSet(workspace, files', Stems(changed'));
    IncreasingIsUnique(r, r');
  }

  /** Selecting for two lists of changed files together selects what either does, and nothing else. */
  lemma SelectionDistributes(workspace: seq<string>, files: seq<Scanned>, a: seq<string>, b: seq<string>,
                             ra: seq<string>, rb: seq<string>, rab: seq<string>)
    requires IsSelection(ra, workspace, files, a) && IsSelection(rb, workspace, files, b)
    requires IsSelection(rab, workspace, files, a + b)
    ensures forall x :: x in rab <==> x in ra || x in rb
  {
    hide Skipped, TestName, AsPosix, Stem, PurePath, Increasing;
    assert Stems(a + b) == Stems(a) + Stems(b);
    forall f ensures Selected(workspace, f, Stems(a + b)) <==>
                     Selected(workspace, f, Stems(a)) || Selected(workspace, f, Stems(b))
    {
      SelectedByEither(workspace, f, Stems(a), Stems(b));
    }
    hide Selected;
  }

  lemma SelectedByEither(workspace: seq<string>, f: Scanned, s: set<string>, t: set<string>)
    ensures Selected(workspace, f, s + t) <==> Selected(workspace, f, s) || Selected(workspace, f, t)
  {
    hide Skipped, TestName, Stem;
  }

  /** The skipped directories are looked for in the workspace's own path too: a workspace below one of them
      never has related tests, and any other workspace is as good as the root. */
  lemma WorkspacePathMatters(workspace: seq<string>, files: seq<Scanned>, stems: set<string>)
    ensures RelatedSet(workspace, files, stems) == if Skipped(workspace) then {} else RelatedSet([], files, stems)
  {
    forall f: Scanned ensures Skipped(workspace + f.rel) <==> Skipped(workspace) || Skipped([] + f.rel) {
      hide SkipDirs;
      assert forall p :: p in workspace + f.rel <==> p in workspace || p in [] + f.rel;
    }
    hide Skipped, TestName, ByName, ByImport, AsPosix;
  }

  // --- what the names say ---------------------------------------------------------------

  /** The four shapes of a test file's name. */
  predicate TestForm(name: string, x: string) {
    && x != ""
    && (|| name == "test_" + (x + ".py") || name == x + "_test.py"
        || name == x + "_tests.py" || name == "unittest_" + (x + ".py"))
  }

  lemma StemForms(stem: string)
    ensures TestStem(stem) ==>
      exists x :: x != "" && (stem == "test_" + x || stem == x + "_test" || stem == x + "_tests" || stem == "unittest_" + x)
  {
    if "test_" < stem {
      assert stem == "test_" + stem[5..];
    } else if Text.EndsWith(stem, "_test") && |stem| > 5 {
      assert stem == stem[..|stem| - 5] + "_test";
    } else if Text.EndsWith(stem, "_tests") && |stem| > 6 {
      assert stem == stem[..|stem| - 6] + "_tests";
    } else if "unittest_" < stem {
      assert stem == "unittest_" + stem[9..];
    }
  }

  lemma FormsAreTests(name: string, x: string)
    requires TestForm(name, x)
    ensures TestName(name)
  {
    var stem := name[..|name| - 3];
    if name == "test_" + (x + ".py") {
      assert stem == "test_" + x && name[|name| - 3..] == ".py";
    } else if name == x + "_test.py" {
      assert stem == x + "_test" && name[|name| - 3..] == ".py" && stem[|stem| - 5..] == "_test";
    } else if name == x + "_tests.py" {
      assert stem == x + "_tests" && name[|name| - 3..] == ".py" && stem[|stem| - 6..] == "_tests";
    } else {
      assert stem == "unittest_" + x && name[|name| - 3..] == ".py";
    }
  }

  /** A file is a test by its name exactly when it is test_x.py, x_test.py, x_tests.py or unittest_x.py. */
  lemma TestNamesAre(name: string)
    ensures TestName(name) <==> exists x :: TestForm(name, x)
  {
    if TestName(name) {
      var stem := name[..|name| - 3];
      StemForms(stem);
      var x :| x != "" && (stem == "test_" + x || stem == x + "_test" || stem == x + "_tests" || stem == "unittest_" + x);
      assert name == stem + ".py";
      FormFromStem(stem, x);
    }
    if exists x :: TestForm(name, x) {
      var x :| TestForm(name, x);
      FormsAreTests(name, x);
    }
  }

  lemma FormFromStem(stem: string, x: string)
    requires x != "" && (stem == "test_" + x || stem == x + "_test" || stem == x + "_tests" || stem == "unittest_" + x)
    ensures TestForm(stem + ".py", x)
  {
    Text.Regroup("test_", x, ".py");
    Text.Regroup("unittest_", x, ".py");
    Text.Regroup(x, "_test", ".py");
    Text.Regroup(x, "_tests", ".py");
    assert "_test" + ".py" == "_test.py" && "_tests" + ".py" == "_tests.py";
  }

  /** A path is a source file exactly when its last part is a Python file and no test, wherever it lies. */
  lemma SourceFilesAre(dir: string, base: string)
    requires '/' !in base
    ensures SourceFile(base) <==> PythonFile(base) && !TestName(base)
    ensures SourceFile(dir + "/" + base) <==> PythonFile(base) && !TestName(base)
  {
    var path := dir + "/" + base;
    SplitWhole(base, '/');
    SplitConcat(dir, base, '/');
    assert dir + ['/'] + base == path;
    hide TestName, Split;
    if |base| >= 3 {
      assert path[|path| - 3..] == base[|base| - 3..];
    } else if |path| >= 3 {
      var at := |path| - 3;
      assert path[at..][|dir| - at] == '/' && '/' !in ".py";
    }
  }

  /** The test is the file's namesake, or imports it. */
  predicate RelatesTo(f: Scanned, path: string) {
    var name := Name(PurePath(path));
    && PythonFile(name)
    && var stem := name[..|name| - 3];
       || LastName(f) == "test_" + (stem + ".py") || LastName(f) == stem + "_test.py"
       || (f.imports.Some? && stem in f.imports.value)
  }

  lemma StemOfName(name: string)
    requires PythonFile(name) && |name| > 3
    ensures Stem(name) == name[..|name| - 3]
  {
    var stem := name[..|name| - 3];
    assert name == stem + ".py";
    StemOfPython(stem);
  }

  lemma NamesakesByStem(name: string, stem: string)
    requires PythonFile(name) && |name| > 3
    ensures name[..|name| - 3] == "test_" + stem <==> name == "test_" + (stem + ".py")
    ensures name[..|name| - 3] == stem + "_test" <==> name == stem + "_test.py"
  {
    var own := name[..|name| - 3];
    assert name == own + ".py";
    Text.Regroup("test_", stem, ".py");
    Text.Regroup(stem, "_test", ".py");
    assert "_test" + ".py" == "_test.py";
    if name == "test_" + stem + ".py" {
      assert name[..|name| - 3] == "test_" + stem;
    }
    if name == stem + "_test" + ".py" {
      assert name[..|name| - 3] == stem + "_test";
    }
  }

  lemma RelatesByStem(f: Scanned, path: string)
    requires PythonFile(Name(PurePath(path))) && |Name(PurePath(path))| > 3 && TestName(LastName(f))
    ensures var stem := Stem(Name(PurePath(path)));
      RelatesTo(f, path) <==>
        Stem(LastName(f)) == "test_" + stem || Stem(LastName(f)) == stem + "_test"
        || (f.imports.Some? && stem in f.imports.value)
  {
    var name := Name(PurePath(path));
    assert PythonFile(LastName(f)) && |LastName(f)| > 3;
    hide PurePath, Stem, LastName, TestName, PythonFile;
    StemOfName(name);
    StemOfName(LastName(f));
    NamesakesByStem(LastName(f), name[..|name| - 3]);
  }

  /** For changed Python files: a scanned file is selected exactly when it is a test by its name, lies in no skipped
      directory, and is a namesake of a changed file or imports one. */
  lemma SelectedExactlyWhen(workspace: seq<string>, f: Scanned, changed: seq<string>)
    requires forall path :: path in changed ==> PythonFile(Name(PurePath(path))) && |Name(PurePath(path))| > 3
    ensures Selected(workspace, f, Stems(changed)) <==>
      && !Skipped(workspace + f.rel) && (exists x :: TestForm(LastName(f), x))
      && exists path :: path in changed && RelatesTo(f, path)
  {
    TestNamesAre(LastName(f));
    hide TestForm, Skipped, TestName, Stem, PurePath, LastName, RelatesTo, PythonFile;
    if TestName(LastName(f)) {
      forall path | path in changed ensures RelatesTo(f, path) <==> StemRelates(f, Stem(Name(PurePath(path)))) {
        RelatesByStem(f, path);
      }
      if ByName(f, Stems(changed)) || ByImport(f, Stems(changed)) {
        var stem :| stem in Stems(changed) && StemRelates(f, stem);
        var path :| path in changed && Stem(Name(PurePath(path))) == stem;
        assert RelatesTo(f, path);
      }
      if exists path :: path in changed && RelatesTo(f, path) {
        var path :| path in changed && RelatesTo(f, path);
        assert StemRelates(f, Stem(Name(PurePath(path)))) && Stem(Name(PurePath(path))) in Stems(changed);
      }
    }
  }

  predicate StemRelates(f: Scanned, stem: string) {
    || Stem(LastName(f)) == "test_" + stem || Stem(LastName(f)) == stem + "_test"
    || (f.imports.Some? && stem in f.imports.value)
  }

  /** The directories that are never looked into. */
  lemma SkippedAre(parts: seq<string>)
    ensures Skipped(parts) <==>
      || ".git" in parts || "venv" in parts || ".venv" in parts || "node_modules" in parts || "__pycache__" in parts
      || ".tox" in parts || "build" in parts || "dist" in parts || ".mypy_cache" in parts
  {
  }
}
