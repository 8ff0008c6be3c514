/** Pure POSIX paths as pathlib.PurePath takes them apart (src/core/domain/signature.py:226-275). */
module Paths {
  import Text

  datatype Root = Relative | Absolute | DoubleSlash

  datatype Path = Path(root: Root, names: seq<string>)

  function Split(s: string, separator: char): (parts: seq<string>)
    ensures parts != []
  {
    if s == "" then [""]
    else
      var rest := Split(s[1..], separator);
      if s[0] == separator then [""] + rest else [[s[0]] + rest[0]] + rest[1..]
  }

  predicate Component(name: string) {
    name != "" && name != "." && '/' !in name
  }

  /** Empty parts and single dots do not count as path components. */
  function Significant(parts: seq<string>): seq<string> {
    if parts == [] then []
    else (if parts[0] == "" || parts[0] == "." then [] else [parts[0]]) + Significant(parts[1..])
  }

  function RootOf(s: string): Root {
    if s == "" || s[0] != '/' then Relative
    else if |s| >= 2 && s[1] == '/' && (|s| == 2 || s[2] != '/') then DoubleSlash
    else Absolute
  }

  function PurePath(s: string): Path {
    Path(RootOf(s), Significant(Split(s, '/')))
  }

  function Name(p: Path): string {
    if p.names == [] then "" else p.names[|p.names| - 1]
  }

  function AsPosix(names: seq<string>): string {
    if names == [] then "." else Text.Join("/", names)
  }

  function ForwardSlashes(s: string): (r: string)
    ensures |r| == |s| && '\\' !in r
  {
    seq(|s|, i requires 0 <= i < |s| => if s[i] == '\\' then '/' else s[i])
  }

  function Resolved(path: string): Path {
    PurePath(ForwardSlashes(path))
  }

  predicate IsInside(path: string, root: Path) {
    var p := Resolved(path);
    p.root == root.root && root.names <= p.names
  }

  /** Relative to the workspace when the path is inside it, else the bare file name. */
  function ToRel(path: string, workspaceRoot: string): string {
    var p := Resolved(path);
    if workspaceRoot != "" && IsInside(path, Resolved(workspaceRoot))
    then AsPosix(p.names[|Resolved(workspaceRoot).names|..])
    else Name(p)
  }

  // --- reading back a rendered path ------------------------------------------------

  lemma {:induction false} PartsHaveNoSeparator(s: string, separator: char, p: string)
    requires p in Split(s, separator)
    ensures separator !in p
  {
    if s != "" {
      var rest := Split(s[1..], separator);
      if p in rest {
        PartsHaveNoSeparator(s[1..], separator, p);
      } else if s[0] != separator {
        PartsHaveNoSeparator(s[1..], separator, rest[0]);
      }
    }
  }

  lemma {:induction false} SignificantAreComponents(parts: seq<string>, name: string)
    requires name in Significant(parts)
    ensures name != "" && name != "." && name in parts
  {
    if name != parts[0] {
      SignificantAreComponents(parts[1..], name);
    } else if name == "" || name == "." {
      SignificantAreComponents(parts[1..], name);
    }
  }

  lemma NamesAreComponents(s: string)
    ensures forall n :: n in PurePath(s).names ==> Component(n)
  {
    forall n | n in PurePath(s).names ensures Component(n) {
      SignificantAreComponents(Split(s, '/'), n);
      PartsHaveNoSeparator(s, '/', n);
    }
  }

  /** What one more character in front does to the parts. */
  function Prepended(c: char, separator: char, parts: seq<string>): seq<string>
    requires parts != []
  {
    if c == separator then [""] + parts else [[c] + parts[0]] + parts[1..]
  }

  lemma SplitStep(c: char, s: string, separator: char)
    ensures Split([c] + s, separator) == Prepended(c, separator, Split(s, separator))
  {
    assert ([c] + s)[1..] == s;
  }

  lemma PrependedConcat(c: char, separator: char, parts: seq<string>, tail: seq<string>)
    requires parts != []
    ensures Prepended(c, separator, parts + tail) == Prepended(c, separator, parts) + tail
  {
    if c == separator {
      Text.Regroup([""], parts, tail);
    } else {
      assert (parts + tail)[1..] == parts[1..] + tail;
      Text.Regroup([[c] + parts[0]], parts[1..], tail);
    }
  }

  lemma SplitNothing(separator: char)
    ensures Split("", separator) == [""]
  {
  }

  lemma {:induction false} SplitConcat(a: string, b: string, separator: char)
    ensures Split(a + [separator] + b, separator) == Split(a, separator) + Split(b, separator)
  {
    hide Split, Prepended;
    if a == "" {
      assert a + [separator] + b == [separator] + b;
      SplitStep(separator, b, separator);
      SplitNothing(separator);
      PrependedSeparator(separator, Split(b, separator));
    } else {
      var c, rest := a[0], a[1..];
      SplitConcat(rest, b, separator);
      assert a == [c] + rest && a + [separator] + b == [c] + (rest + [separator] + b);
      SplitStep(c, rest, separator);
      SplitStep(c, rest + [separator] + b, separator);
      PrependedConcat(c, separator, Split(rest, separator), Split(b, separator));
    }
  }

  lemma PrependedSeparator(separator: char, parts: seq<string>)
    requires parts != []
    ensures Prepended(separator, separator, parts) == [""] + parts
  {
  }

  lemma {:induction false} SplitWhole(s: string, separator: char)
    requires separator !in s
    ensures Split(s, separator) == [s]
  {
    if s != "" {
      SplitWhole(s[1..], separator);
      assert [s[0]] + s[1..] == s;
      assert [s[1..]][1..] == [];
    }
  }

  lemma {:induction false} SignificantConcat(a: seq<string>, b: seq<string>)
    ensures Significant(a + b) == Significant(a) + Significant(b)
  {
    if a == [] {
      assert a + b == b;
    } else {
      SignificantConcat(a[1..], b);
      assert (a + b)[1..] == a[1..] + b && (a + b)[0] == a[0];
      Text.Regroup(if a[0] == "" || a[0] == "." then [] else [a[0]], Significant(a[1..]), Significant(b));
    }
  }

  lemma SignificantAlone(name: string)
    requires Component(name)
    ensures Significant([name]) == [name]
  {
    assert [name][1..] == [];
  }

  lemma PartReadsBack(name: string)
    requires Component(name)
    ensures Significant(Split(name, '/')) == [name]
  {
    hide Significant, Split;
    SplitWhole(name, '/');
    SignificantAlone(name);
  }

  /** One more component behind a slash is one more significant part. */
  lemma LastPartReadsBack(joined: string, name: string)
    requires Component(name)
    ensures Significant(Split(joined + "/" + name, '/')) == Significant(Split(joined, '/')) + [name]
  {
    hide Significant, Split, Component;
    PartReadsBack(name);
    SplitConcat(joined, name, '/');
    SignificantConcat(Split(joined, '/'), Split(name, '/'));
  }

  lemma JoinStep(names: seq<string>)
    requires |names| > 1
    ensures Text.Join("/", names) == Text.Join("/", names[..|names| - 1]) + "/" + names[|names| - 1]
  {
  }

  lemma {:induction false} NamesReadBack(names: seq<string>)
    requires names != [] && forall n :: n in names ==> Component(n)
    ensures Significant(Split(Text.Join("/", names), '/')) == names
  {
    var k := |names| - 1;
    var init, last := names[..k], names[k];
    assert last in names && names == init + [last];
    if init == [] {
      PartReadsBack(last);
    } else {
      hide Significant, Split, Component, Text.Join;
      assert forall n :: n in init ==> n in names;
      NamesReadBack(init);
      JoinStep(names);
      LastPartReadsBack(Text.Join("/", init), last);
    }
  }

  lemma {:induction false} JoinStartsNoRoot(names: seq<string>)
    requires names != [] && Component(names[0])
    ensures var joined := Text.Join("/", names); joined != "" && joined[0] != '/'
  {
    hide Component;
    assert names[0] != "" && names[0][0] != '/' by { ComponentStart(names[0]); }
    if |names| > 1 {
      JoinStartsNoRoot(names[..|names| - 1]);
    }
  }

  lemma ComponentStart(name: string)
    requires Component(name)
    ensures name != "" && name[0] != '/'
  {
  }

  lemma PathReadsBack(names: seq<string>)
    requires forall n :: n in names ==> Component(n)
    ensures PurePath(AsPosix(names)) == Path(Relative, names)
  {
    if names == [] {
      SplitWhole(".", '/');
      assert ["."][1..] == [];
    } else {
      hide Significant, Split, Component, Text.Join;
      assert names[0] in names;
      NamesReadBack(names);
      JoinStartsNoRoot(names);
    }
  }

  /** A leading slash is the root and no component; exactly two slashes are a root of their own. */
  lemma AbsoluteReadsBack(names: seq<string>)
    requires forall n :: n in names ==> Component(n)
    ensures var joined := Text.Join("/", names);
      && PurePath("/" + joined) == Path(Absolute, names)
      && PurePath("//" + joined) == Path(DoubleSlash, names)
      && PurePath("///" + joined) == Path(Absolute, names)
  {
    var joined := Text.Join("/", names);
    JoinedNamesReadBack(names);
    if names != [] {
      assert names[0] in names;
      JoinStartsNoRoot(names);
    }
    hide Significant, Split, Component, Text.Join, RootOf;
    RootsOf(joined);
    SlashAddsNothing(joined);
    SlashAddsNothing("/" + joined);
    SlashAddsNothing("//" + joined);
    MoreSlashes(joined);
  }

  lemma MoreSlashes(s: string)
    ensures "//" + s == "/" + ("/" + s) && "///" + s == "/" + ("//" + s)
  {
  }

  lemma RootsOf(s: string)
    requires s == "" || s[0] != '/'
    ensures RootOf("/" + s) == Absolute && RootOf("//" + s) == DoubleSlash && RootOf("///" + s) == Absolute
  {
  }

  lemma JoinedNamesReadBack(names: seq<string>)
    requires forall n :: n in names ==> Component(n)
    ensures Significant(Split(Text.Join("/", names), '/')) == names
  {
    if names == [] {
      assert [""][1..] == [];
    } else {
      NamesReadBack(names);
    }
  }

  lemma SlashAddsNothing(s: string)
    ensures Significant(Split("/" + s, '/')) == Significant(Split(s, '/'))
  {
    hide Split;
    SplitStep('/', s, '/');
    assert ['/'] + s == "/" + s;
    SignificantConcat([""], Split(s, '/'));
    assert [""][1..] == [];
  }

  /** Backslashes separate components as slashes do. */
  lemma {:induction false} BackslashesSeparate(names: seq<string>)
    requires forall n :: n in names ==> '\\' !in n
    ensures ForwardSlashes(Text.Join("\\", names)) == Text.Join("/", names)
  {
    if names != [] {
      var init, last := names[..|names| - 1], names[|names| - 1];
      assert last in names;
      assert forall n :: n in init ==> n in names;
      BackslashesSeparate(init);
    }
  }

  lemma SlashesStay(path: string)
    requires '\\' !in path
    ensures ForwardSlashes(path) == path
  {
  }

  /** An absolute path as it is printed. */
  function AbsolutePath(names: seq<string>): string {
    "/" + Text.Join("/", names)
  }

  predicate PlainNames(names: seq<string>) {
    forall n :: n in names ==> Component(n) && '\\' !in n
  }

  lemma {:induction false} JoinKeepsPlain(names: seq<string>)
    requires PlainNames(names)
    ensures '\\' !in Text.Join("/", names)
  {
    if names != [] {
      assert names[|names| - 1] in names;
      assert forall n :: n in names[..|names| - 1] ==> n in names;
      JoinKeepsPlain(names[..|names| - 1]);
    }
  }

  lemma AbsoluteResolves(names: seq<string>)
    requires PlainNames(names)
    ensures Resolved(AbsolutePath(names)) == Path(Absolute, names)
  {
    JoinKeepsPlain(names);
    hide PurePath, Text.Join, Component, ForwardSlashes;
    assert '\\' !in AbsolutePath(names);
    SlashesStay(AbsolutePath(names));
    AbsoluteReadsBack(names);
  }

  /** Files are labelled by their path below the workspace when they lie there, whatever the workspace, and by
      their bare name when they do not. */
  lemma RelativeFile(root: seq<string>, names: seq<string>)
    requires PlainNames(root) && PlainNames(names)
    ensures root <= names && names != root ==> ToRel(AbsolutePath(names), AbsolutePath(root)) == Text.Join("/", names[|root|..])
    ensures names == root ==> ToRel(AbsolutePath(names), AbsolutePath(root)) == "."
    ensures !(root <= names) ==>
      ToRel(AbsolutePath(names), AbsolutePath(root)) == if names == [] then "" else names[|names| - 1]
  {
    AbsoluteResolves(root);
    AbsoluteResolves(names);
    hide Resolved, Text.Join;
  }

  /** Root components followed by the relative path's components rebuild the path. */
  lemma RelativePathRebuilds(path: string, workspaceRoot: string)
    requires workspaceRoot != "" && IsInside(path, Resolved(workspaceRoot))
    ensures var rel := PurePath(ToRel(path, workspaceRoot));
      rel.root == Relative && Resolved(workspaceRoot).names + rel.names == Resolved(path).names
  {
    hide PurePath, Component, AsPosix;
    var suffix := Resolved(path).names[|Resolved(workspaceRoot).names|..];
    NamesAreComponents(ForwardSlashes(path));
    PathReadsBack(suffix);
  }

  lemma {:induction false} JoinHasSeparator(names: seq<string>)
    requires |names| >= 2
    ensures '/' in Text.Join("/", names)
  {
    var init, last := names[..|names| - 1], names[|names| - 1];
    assert Text.Join("/", names) == Text.Join("/", init) + "/" + last;
    assert (Text.Join("/", init) + "/" + last)[|Text.Join("/", init)|] == '/';
  }

  /** A file deep in the workspace keeps its directories, so its label is not its bare name; a file directly at
      the root has no directories to keep. */
  lemma RelIsNameExactlyAtTheRoot(path: string, workspaceRoot: string)
    requires workspaceRoot != "" && IsInside(path, Resolved(workspaceRoot))
    requires Resolved(path).names != Resolved(workspaceRoot).names
    ensures ToRel(path, workspaceRoot) == Name(Resolved(path))
       <==> |Resolved(path).names| == |Resolved(workspaceRoot).names| + 1
  {
    hide PurePath;
    var names := Resolved(path).names;
    var suffix := names[|Resolved(workspaceRoot).names|..];
    NamesAreComponents(ForwardSlashes(path));
    assert suffix != [] && suffix[|suffix| - 1] == names[|names| - 1];
    assert Component(names[|names| - 1]);
    if |suffix| >= 2 {
      JoinHasSeparator(suffix);
    }
  }
}
