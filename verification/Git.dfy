/** The git port: shas and counters as the in-memory adapter keeps them
    (src/infrastructure/git_ops/in_memory_git.py), trees as the real adapter moves them (git_adapter.py). */
module GitPort {
  import opened Wrappers
  import opened Nodes

  class Git {
    var work: Workspace
    var head: Workspace
    var commits: seq<Commit>
    var resets: nat

    constructor (initial: Workspace)
      ensures work == head == initial && commits == [] && resets == 0
    {
      work, head, commits, resets := initial, initial, [], 0;
    }

    /** `git add -A` and commit: HEAD becomes the working tree. */
    method Commit(message: CommitMessage) returns (sha: string)
      modifies this`head, this`commits
      ensures sha == Sha(|old(commits)|)
      ensures head == work && commits == old(commits) + [Nodes.Commit(sha, message, work)]
    {
      sha := Sha(|commits|);
      commits := commits + [Nodes.Commit(sha, message, work)];
      head := work;
    }

    /** `git reset --hard` and `git clean -fd`: the working tree becomes HEAD, unless git fails. */
    method ResetHard(succeeds: bool)
      modifies this`work, this`resets
      ensures resets == old(resets) + 1 && work == if succeeds then head else old(work)
    {
      resets := resets + 1;
      if succeeds {
        work := head;
      }
    }

    // --- the session regression file ----------------------------------------------

    method EnsureSessionFile(workspacePath: string, header: string)
      modifies this`work
      ensures work == Nodes.EnsureSessionFile(workspacePath, header, old(work))
    {
      if workspacePath == "" {
        return;
      }
      if work.session.None? {
        work := work.(session := Some(header));
      }
    }

    method ReadSessionText(workspacePath: string) returns (content: Option<string>)
      ensures content == if workspacePath == "" then None else work.session
    {
      if workspacePath == "" {
        return None;
      }
      content := work.session;
    }

    /** Put back what was read before, including that there was no file. */
    method RestoreSessionText(workspacePath: string, content: Option<string>)
      modifies this`work
      ensures work == if workspacePath == "" then old(work) else old(work).(session := content)
    {
      if workspacePath == "" {
        return;
      }
      work := work.(session := content);
    }

    method AppendRegressionTest(workspacePath: string, source: string)
      modifies this`work
      ensures work == AppendTest(workspacePath, old(work), source)
    {
      if workspacePath == "" {
        return;
      }
      var existing := work.session.GetOr("");
      work := work.(session := Some(AppendedText(existing, source)));
    }
  }
}
