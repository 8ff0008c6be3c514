/** Which frame a crash is blamed on, and when two printed crashes are the same error. */
module Blame {
  import opened Wrappers
  import opened Domain
  import opened Paths
  import opened Signatures
  import opened Traceback
  import Text

  // --- files ------------------------------------------------------------------------

  /** The path lies at these names below the workspace root. */
  predicate Below(path: string, workspaceRoot: string, rel: seq<string>) {
    && workspaceRoot != ""
    && Resolved(path) == Path(Resolved(workspaceRoot).root, Resolved(workspaceRoot).names + rel)
  }

  /** There is no workspace, or the path does not start with all of its names. */
  predicate Outside(path: string, workspaceRoot: string) {
    || workspaceRoot == "" || Resolved(path).root != Resolved(workspaceRoot).root
    || !(Resolved(workspaceRoot).names <= Resolved(path).names)
  }

  function LastOf(names: seq<string>): string {
    if names == [] then "" else names[|names| - 1]
  }

  /** A frame is blamed when it is the deepest one in the workspace, and then by its file below the root; or when it
      is the deepest of all and none is in the workspace, and then by its bare file name. */
  ghost predicate Blames(frames: seq<Frame>, workspaceRoot: string, k: nat, file: string) {
    && k < |frames| && (forall j :: k < j < |frames| ==> Outside(frames[j].path, workspaceRoot))
    && if Outside(frames[k].path, workspaceRoot) then
         && k == |frames| - 1 && (forall j :: 0 <= j < k ==> Outside(frames[j].path, workspaceRoot))
         && file == LastOf(PurePath(frames[k].path).names)
       else exists rel :: Below(frames[k].path, workspaceRoot, rel)
                          && file == if rel == [] then "." else Text.Join("/", rel)
  }

  lemma InsideOrOutside(f: Frame, workspaceRoot: string)
    ensures InWorkspace(f, workspaceRoot) <==> !Outside(f.path, workspaceRoot)
  {
    hide Resolved;
  }

  lemma FileBelow(path: string, workspaceRoot: string, rel: seq<string>)
    requires Below(path, workspaceRoot, rel)
    ensures ToRel(path, workspaceRoot) == if rel == [] then "." else Text.Join("/", rel)
  {
    hide Resolved, Text.Join;
    assert Resolved(path).names[|Resolved(workspaceRoot).names|..] == rel;
  }

  /** The label of a frame in this file: the file, and after a colon the function where there is one. */
  lemma LabelShows(file: string, func: string)
    ensures FrameLabel(file, func) == if func == "" then file else file + ":" + func
  {
  }

  lemma NoneInside(frames: seq<Frame>, workspaceRoot: string, k: nat)
    requires forall j :: k < j < |frames| ==> Outside(frames[j].path, workspaceRoot)
    ensures forall j :: k < j < |frames| ==> !InWorkspace(frames[j], workspaceRoot)
  {
    hide Outside, InWorkspace;
    forall j | k < j < |frames| ensures !InWorkspace(frames[j], workspaceRoot) {
      InsideOrOutside(frames[j], workspaceRoot);
    }
  }

  lemma InsideLocation(frames: seq<Frame>, workspaceRoot: string, k: nat, rel: seq<string>)
    requires k < |frames| && (forall j :: k < j < |frames| ==> Outside(frames[j].path, workspaceRoot))
    requires !Outside(frames[k].path, workspaceRoot) && Below(frames[k].path, workspaceRoot, rel)
    ensures Location(frames, workspaceRoot)
         == FrameLabel(if rel == [] then "." else Text.Join("/", rel), frames[k].func)
  {
    hide Resolved, InWorkspace, Outside, Below, ToRel, FrameLabel, WorkspaceLabels, Location, Text.Join;
    NoneInside(frames, workspaceRoot, k);
    InsideOrOutside(frames[k], workspaceRoot);
    LocationIsInnermost(frames, workspaceRoot, k);
    FileBelow(frames[k].path, workspaceRoot, rel);
  }

  lemma OutsideLocation(frames: seq<Frame>, workspaceRoot: string)
    requires frames != [] && Outside(frames[0].path, workspaceRoot)
    requires forall j :: 0 < j < |frames| ==> Outside(frames[j].path, workspaceRoot)
    ensures Location(frames, workspaceRoot)
         == FrameLabel(LastOf(PurePath(frames[|frames| - 1].path).names), frames[|frames| - 1].func)
  {
    hide PurePath, InWorkspace, Outside, FrameLabel, WorkspaceLabels, Location;
    NoneInside(frames, workspaceRoot, 0);
    InsideOrOutside(frames[0], workspaceRoot);
    LocationIsInnermost(frames, workspaceRoot, 0);
  }

  lemma BlamedLocation(frames: seq<Frame>, workspaceRoot: string, k: nat, file: string)
    requires Blames(frames, workspaceRoot, k, file)
    ensures Location(frames, workspaceRoot) == FrameLabel(file, frames[k].func)
  {
    hide Resolved, PurePath, Outside, Below, FrameLabel, Location, Text.Join, LastOf;
    if Outside(frames[k].path, workspaceRoot) {
      OutsideLocation(frames, workspaceRoot);
    } else {
      var rel :| Below(frames[k].path, workspaceRoot, rel) && file == if rel == [] then "." else Text.Join("/", rel);
      InsideLocation(frames, workspaceRoot, k, rel);
    }
  }

  lemma BelowItself(path: string, workspaceRoot: string) returns (rel: seq<string>)
    requires !Outside(path, workspaceRoot)
    ensures Below(path, workspaceRoot, rel)
  {
    hide Resolved;
    rel := Resolved(path).names[|Resolved(workspaceRoot).names|..];
  }

  /** Some frame is always blamed. */
  lemma SomeFrameIsBlamed(frames: seq<Frame>, workspaceRoot: string, n: nat) returns (k: nat, file: string)
    requires n < |frames| && forall j :: n < j < |frames| ==> Outside(frames[j].path, workspaceRoot)
    ensures Blames(frames, workspaceRoot, k, file)
  {
    hide Outside, Below, PurePath, LastOf, Text.Join;
    if !Outside(frames[n].path, workspaceRoot) {
      var rel := BelowItself(frames[n].path, workspaceRoot);
      k, file := n, if rel == [] then "." else Text.Join("/", rel);
    } else if n == 0 {
      k, file := |frames| - 1, LastOf(PurePath(frames[|frames| - 1].path).names);
    } else {
      k, file := SomeFrameIsBlamed(frames, workspaceRoot, n - 1);
    }
  }

  /** What is parsed from a printed crash: its exception and message, and the blamed frame's file and function. */
  lemma CrashIsBlamed(heading: string, entries: seq<Entry>, exc: string, message: string, workspaceRoot: string,
                      k: nat, file: string)
    requires Printable(heading, entries, exc, message) && Blames(Frames(entries), workspaceRoot, k, file)
    ensures var func := Frames(entries)[k].func; var location := if func == "" then file else file + ":" + func;
      FromCrashText(Render(heading, entries, exc, message), workspaceRoot)
      == Some(Signature(Crash, exc, location, Text.Strip(message)))
  {
    hide Printable, Frames, Location, FromCrashText, Render, Text.Strip, FrameLabel, Outside, Below, PurePath, LastOf;
    TracebackReadsBack(heading, entries, exc, message, workspaceRoot);
    BlamedLocation(Frames(entries), workspaceRoot, k, file);
    LabelShows(file, Frames(entries)[k].func);
  }

  // --- telling crashes apart -----------------------------------------------------------

  /** The second name goes on from the first with a colon. */
  predicate GoesOn(file: string, file': string) {
    file + ":" <= file'
  }

  lemma LongerGoesOn(file: string, func: string, file': string, func': string)
    requires FrameLabel(file, func) == FrameLabel(file', func') && |file| < |file'|
    ensures GoesOn(file, file')
  {
    var a, b := FrameLabel(file, func), FrameLabel(file', func');
    assert a[..|file| + 1] == b[..|file| + 1] == file'[..|file| + 1];
    if func != "" {
      assert a[..|file| + 1] == file + ":";
    }
  }

  lemma SameLengthAgrees(file: string, func: string, file': string, func': string)
    requires FrameLabel(file, func) == FrameLabel(file', func') && |file| == |file'|
    ensures file == file' && func == func'
  {
    var a, b := FrameLabel(file, func), FrameLabel(file', func');
    assert a[..|file|] == file && b[..|file|] == file';
    if func != "" && func' != "" {
      assert a[|file| + 1..] == func && b[|file| + 1..] == func';
    }
  }

  lemma LabelsDecode(file: string, func: string, file': string, func': string)
    requires !GoesOn(file, file') && !GoesOn(file', file)
    ensures FrameLabel(file, func) == FrameLabel(file', func') <==> file == file' && func == func'
  {
    hide FrameLabel, GoesOn;
    if FrameLabel(file, func) == FrameLabel(file', func') {
      if |file| < |file'| {
        LongerGoesOn(file, func, file', func');
      } else if |file| > |file'| {
        LongerGoesOn(file', func', file, func);
      } else {
        SameLengthAgrees(file, func, file', func');
      }
    }
  }

  /** The labels of two files tell every two functions apart exactly when neither file's name goes on from the
      other's with a colon. */
  lemma LabelsDecodeExactlyWhen(file: string, file': string)
    ensures (forall func, func' :: FrameLabel(file, func) == FrameLabel(file', func') ==> file == file' && func == func')
       <==> !GoesOn(file, file') && !GoesOn(file', file)
  {
    hide GoesOn;
    if GoesOn(file, file') {
      Collide(file, file', "f");
    } else if GoesOn(file', file) {
      Collide(file', file, "f");
    } else {
      forall func, func' | FrameLabel(file, func) == FrameLabel(file', func') ensures file == file' && func == func' {
        LabelsDecode(file, func, file', func');
      }
    }
  }

  lemma Collide(file: string, file': string, func: string)
    requires GoesOn(file, file') && func != ""
    ensures file != file' && FrameLabel(file, file'[|file| + 1..] + ":" + func) == FrameLabel(file', func)
  {
    var rest := file'[|file| + 1..];
    assert file' == file + ":" + rest;
    assert file + ":" + (rest + ":" + func) == file' + ":" + func;
  }

  lemma NamesHaveNoPipe(heading: string, entries: seq<Entry>, exc: string, message: string)
    requires Printable(heading, entries, exc, message)
    ensures NoPipe(exc)
  {
    ExceptionNamesHaveNoPipe(exc);
  }

  /** Two printed crashes are the same error exactly when the exception, the blamed file and the blamed function are
      the same; whether only one of them shows a function makes a difference too. Where a file's name goes on from
      the other's with a colon, file and function can be confused. */
  lemma SameCrashExactlyWhen(heading: string, entries: seq<Entry>, exc: string, message: string, k: nat, file: string,
                             heading': string, entries': seq<Entry>, exc': string, message': string, k': nat, file': string,
                             workspaceRoot: string)
    requires Printable(heading, entries, exc, message) && Blames(Frames(entries), workspaceRoot, k, file)
    requires Printable(heading', entries', exc', message') && Blames(Frames(entries'), workspaceRoot, k', file')
    requires !GoesOn(file, file') && !GoesOn(file', file)
    ensures var a, b := FromCrashText(Render(heading, entries, exc, message), workspaceRoot),
                        FromCrashText(Render(heading', entries', exc', message'), workspaceRoot);
      && a.Some? && b.Some?
      && (Matches(a.value, b)
          <==> exc == exc' && file == file' && Frames(entries)[k].func == Frames(entries')[k'].func)
  {
    hide Printable, Frames, FromCrashText, Render, GoesOn, Matches, NoPipe, Text.Strip, Outside, Below, PurePath, LastOf;
    CrashIsBlamed(heading, entries, exc, message, workspaceRoot, k, file);
    CrashIsBlamed(heading', entries', exc', message', workspaceRoot, k', file');
    NamesHaveNoPipe(heading, entries, exc, message);
    NamesHaveNoPipe(heading', entries', exc', message');
    LabelShows(file, Frames(entries)[k].func);
    LabelShows(file', Frames(entries')[k'].func);
    LabelsDecode(file, Frames(entries)[k].func, file', Frames(entries')[k'].func);
    hide FrameLabel;
    MatchesIsIdentity(FromCrashText(Render(heading, entries, exc, message), workspaceRoot).value,
                      FromCrashText(Render(heading', entries', exc', message'), workspaceRoot).value);
  }

  /** A file whose name holds a colon is confused with a function: `a:b`, with no function, and `a`, in `b`. */
  lemma ColonsAreConfused()
    ensures FrameLabel("a:b", "") == FrameLabel("a", "b")
  {
  }
}
