/** The budgeted tail of an agent's chat (MiniSWEFixer._format_trajectory_tail, src/agents/swe_agent_dev.py). */
module Trajectory {
  import opened Wrappers
  import opened Lists
  import Text

  /** The content as the text it is rendered with. */
  datatype Message = Message(role: Option<string>, content: string)

  const Budget := 2048
  const Marker := "\n... (truncated)\n"

  function Chunk(m: Message): (c: string)
    ensures |c| >= 4
  {
    "[" + m.role.GetOr("?") + "]\n" + Text.Strip(m.content) + "\n"
  }

  function Cut(chunk: string, left: nat): (c: string)
    requires left <= |chunk|
    ensures |c| == left + 17
  {
    chunk[..left] + Marker
  }

  /** The shown pieces, oldest first. */
  function Tail(messages: seq<Message>, budget: nat): seq<string> {
    if messages == [] then []
    else
      var newest := |messages| - 1;
      var chunk := Chunk(messages[newest]);
      if |chunk| > budget then [Cut(chunk, budget)]
      else Tail(messages[..newest], budget - |chunk|) + [chunk]
  }

  /** Newest message first, so that the budget runs out on the oldest ones. */
  method FormatTrajectoryTail(messages: seq<Message>) returns (text: string)
    ensures text == Text.Join("\n", Tail(messages, Budget))
  {
    hide Chunk, Cut, Text.Join;
    var rendered: seq<string> := [];
    var budget := Budget;
    var left := |messages|;
    assert messages[..left] == messages;
    while left > 0
      invariant 0 <= left <= |messages| && 0 <= budget
      invariant Tail(messages, Budget) == Tail(messages[..left], budget) + Backwards(rendered)
    {
      var chunk := Chunk(messages[left - 1]);
      assert messages[..left][..left - 1] == messages[..left - 1];
      if |chunk| > budget {
        BackwardsAppends(rendered, Cut(chunk, budget));
        rendered := rendered + [Cut(chunk, budget)];
        break;
      }
      BackwardsAppends(rendered, chunk);
      rendered := rendered + [chunk];
      budget := budget - |chunk|;
      left := left - 1;
    }
    assert Tail(messages, Budget) == Backwards(rendered);
    text := Text.Join("\n", Backwards(rendered));
  }

  // --- which messages are shown ----------------------------------------------------------

  function Chunks(messages: seq<Message>): (r: seq<string>)
    ensures |r| == |messages|
  {
    if messages == [] then [] else Chunks(messages[..|messages| - 1]) + [Chunk(messages[|messages| - 1])]
  }

  function Size(pieces: seq<string>): nat {
    if pieces == [] then 0 else Size(pieces[..|pieces| - 1]) + |pieces[|pieces| - 1]|
  }

  function Newest(messages: seq<Message>, k: nat): seq<Message>
    requires k <= |messages|
  {
    messages[|messages| - k..]
  }

  /** The k newest messages fit the budget and one more would not. */
  predicate Fits(messages: seq<Message>, budget: nat, k: nat) {
    && k <= |messages|
    && Size(Chunks(Newest(messages, k))) <= budget
    && (k < |messages| ==> Size(Chunks(Newest(messages, k + 1))) > budget)
  }

  /** How many messages are shown whole. */
  function Whole(messages: seq<Message>, budget: nat): nat {
    if messages == [] then 0
    else
      var chunk := Chunk(messages[|messages| - 1]);
      if |chunk| > budget then 0 else 1 + Whole(messages[..|messages| - 1], budget - |chunk|)
  }

  lemma NewestOfInit(messages: seq<Message>, k: nat)
    requires 0 < k <= |messages|
    ensures var init := messages[..|messages| - 1]; var newest := Newest(messages, k);
      && newest[..k - 1] == Newest(init, k - 1) && newest[k - 1] == messages[|messages| - 1]
      && Chunks(newest) == Chunks(Newest(init, k - 1)) + [Chunk(messages[|messages| - 1])]
      && Size(Chunks(newest)) == Size(Chunks(Newest(init, k - 1))) + |Chunk(messages[|messages| - 1])|
  {
    hide Chunk, Cut;
    var init := messages[..|messages| - 1];
    assert Newest(messages, k)[..k - 1] == Newest(init, k - 1);
    var chunks := Chunks(Newest(messages, k));
    assert chunks[..k - 1] == Chunks(Newest(init, k - 1));
  }

  lemma ChunksOfInit(messages: seq<Message>, k: nat)
    requires 0 < k <= |messages|
    ensures var before := Chunks(Newest(messages[..|messages| - 1], k - 1)); var last := Chunk(messages[|messages| - 1]);
      Chunks(Newest(messages, k)) == before + [last] && Size(before + [last]) == Size(before) + |last|
  {
    hide Chunk;
    NewestOfInit(messages, k);
  }

  lemma FitsInit(messages: seq<Message>, budget: nat, k: nat)
    requires 0 < k <= |messages|
    ensures var init, chunk := messages[..|messages| - 1], Chunk(messages[|messages| - 1]);
      Fits(messages, budget, k) <==> |chunk| <= budget && Fits(init, budget - |chunk|, k - 1)
  {
    hide Chunk, Chunks, Newest, Size;
    ChunksOfInit(messages, k);
    if k < |messages| {
      ChunksOfInit(messages, k + 1);
    }
  }

  lemma {:induction false} WholeFits(messages: seq<Message>, budget: nat)
    ensures Fits(messages, budget, Whole(messages, budget))
  {
    hide Chunk, Cut;
    if messages != [] {
      var init, chunk := messages[..|messages| - 1], Chunk(messages[|messages| - 1]);
      if |chunk| <= budget {
        WholeFits(init, budget - |chunk|);
        assert 0 < Whole(messages, budget) <= |messages|;
        FitsInit(messages, budget, Whole(messages, budget));
      } else {
        NewestOfInit(messages, 1);
      }
    }
  }

  /** The suffix, after the message before it (if there is one) cut to what is left. */
  function Headed(older: seq<string>, left: int, suffix: seq<string>): seq<string> {
    if older == [] || !(0 <= left <= |older[0]|) then suffix else [Cut(older[0], left)] + suffix
  }

  lemma HeadedAppends(older: seq<string>, left: int, suffix: seq<string>, chunk: string)
    ensures Headed(older, left, suffix + [chunk]) == Headed(older, left, suffix) + [chunk]
  {
    if older != [] && 0 <= left <= |older[0]| {
      Text.Regroup([Cut(older[0], left)], suffix, [chunk]);
    }
  }

  function Older(messages: seq<Message>, k: nat): seq<string>
    requires k <= |messages|
  {
    if k == |messages| then [] else [Chunk(messages[|messages| - 1 - k])]
  }

  /** The k newest messages, each whole, and before them the next older one cut to exactly what is left. */
  function Shown(messages: seq<Message>, budget: nat, k: nat): seq<string>
    requires k <= |messages|
  {
    var suffix := Chunks(Newest(messages, k));
    Headed(Older(messages, k), budget - Size(suffix), suffix)
  }

  lemma FitsWithin(messages: seq<Message>, budget: nat, k: nat)
    requires Fits(messages, budget, k)
    ensures k <= |messages|
  {
  }

  lemma OlderOfInit(messages: seq<Message>, k: nat)
    requires 0 < k <= |messages|
    ensures Older(messages, k) == Older(messages[..|messages| - 1], k - 1)
  {
    hide Chunk;
  }

  lemma ShownInit(messages: seq<Message>, budget: nat, k: nat)
    requires 0 < k && Fits(messages, budget, k)
    ensures var init, chunk := messages[..|messages| - 1], Chunk(messages[|messages| - 1]);
      && |chunk| <= budget && Fits(init, budget - |chunk|, k - 1)
      && Shown(messages, budget, k) == Shown(init, budget - |chunk|, k - 1) + [chunk]
  {
    hide Chunk, Chunks, Newest, Size, Fits, Headed, Older;
    FitsWithin(messages, budget, k);
    OlderOfInit(messages, k);
    FitsInit(messages, budget, k);
    ChunksOfInit(messages, k);
    var init, chunk := messages[..|messages| - 1], Chunk(messages[|messages| - 1]);
    var suffix := Chunks(Newest(init, k - 1));
    HeadedAppends(Older(init, k - 1), budget - |chunk| - Size(suffix), suffix, chunk);
  }

  lemma CutExceedsLeft(messages: seq<Message>, budget: nat, k: nat)
    requires k < |messages| && Fits(messages, budget, k)
    ensures |Chunk(messages[|messages| - 1 - k])| > budget - Size(Chunks(Newest(messages, k)))
    decreases k
  {
    hide Chunk, Cut;
    if k == 0 {
      NewestOfInit(messages, 1);
    } else {
      ShownInit(messages, budget, k);
      NewestOfInit(messages, k);
      hide Fits, Newest, Size, Chunks;
      CutExceedsLeft(messages[..|messages| - 1], budget - |Chunk(messages[|messages| - 1])|, k - 1);
    }
  }

  lemma NothingFits(messages: seq<Message>, budget: nat)
    requires messages != [] && Fits(messages, budget, 0)
    ensures var chunk := Chunk(messages[|messages| - 1]);
      |chunk| > budget && Shown(messages, budget, 0) == [Cut(chunk, budget)]
  {
    hide Chunk, Cut;
    NewestOfInit(messages, 1);
  }

  /** The tail shows, in order, the longest suffix of the chat that fits, each message whole, and before it
      only the next older message, cut to exactly the budget left over. */
  lemma {:induction false} TailIsTheFittingSuffix(messages: seq<Message>, budget: nat, k: nat)
    requires Fits(messages, budget, k)
    ensures k == Whole(messages, budget) && Tail(messages, budget) == Shown(messages, budget, k)
  {
    if messages != [] {
      if k == 0 {
        NothingFits(messages, budget);
      } else {
        ShownInit(messages, budget, k);
        TailIsTheFittingSuffix(messages[..|messages| - 1], budget - |Chunk(messages[|messages| - 1])|, k - 1);
      }
      hide Chunk, Cut, Fits, Shown;
    }
  }

  /** The newest message is shown whole exactly when its chunk fits the whole budget; otherwise only its first
      2048 characters survive, although it is documented as always preserved. */
  lemma NewestIsWholeExactlyWhen(messages: seq<Message>)
    requires messages != []
    ensures var chunk := Chunk(messages[|messages| - 1]); var tail := Tail(messages, Budget);
      && tail != []
      && (Whole(messages, Budget) > 0 <==> |chunk| <= Budget)
      && tail[|tail| - 1] == if |chunk| <= Budget then chunk else Cut(chunk, Budget)
  {
    hide Chunk, Cut;
  }

  // --- what can be read in the text --------------------------------------------------------

  /** The text goes on with this part from there. */
  predicate ReadsAt(text: string, part: string, at: nat) {
    at <= |text| && part <= text[at..]
  }

  lemma {:induction false} PieceIsRead(pieces: seq<string>, j: nat) returns (at: nat)
    requires j < |pieces|
    ensures ReadsAt(Text.Join("\n", pieces), pieces[j], at) && (j == 0 ==> at == 0)
  {
    var k := |pieces| - 1;
    if k == 0 {
      at := 0;
    } else {
      var before := Text.Join("\n", pieces[..k]);
      if j == k {
        at := |before| + 1;
        assert Text.Join("\n", pieces)[at..] == pieces[k];
      } else {
        at := PieceIsRead(pieces[..k], j);
        assert Text.Join("\n", pieces)[at..] == before[at..] + "\n" + pieces[k];
      }
    }
  }

  lemma {:induction false} WholeChunk(messages: seq<Message>, budget: nat, i: nat)
    requires |messages| - Whole(messages, budget) <= i < |messages|
    ensures var tail, back := Tail(messages, budget), |messages| - i;
      back <= |tail| && tail[|tail| - back] == Chunk(messages[i])
  {
    hide Chunk, Cut;
    var newest := |messages| - 1;
    if i < newest {
      WholeChunk(messages[..newest], budget - |Chunk(messages[newest])|, i);
    }
  }

  /** A message as a reader sees it: its role in brackets and, on the next line, its content without the white space
      around it. */
  function Written(m: Message): string {
    var role := if m.role.Some? then m.role.value else "?";
    ("[" + (role + "]\n")) + (Text.Strip(m.content) + "\n")
  }

  lemma ChunkIsWritten(m: Message)
    ensures Chunk(m) == Written(m)
  {
    hide Text.Strip;
    var role, content := m.role.GetOr("?"), Text.Strip(m.content);
    Text.Regroup("[", role, "]\n");
    Text.Regroup("[" + role + "]\n", content, "\n");
  }

  /** Every message within the budget can be read in the text. */
  lemma WholeMessagesAreRead(messages: seq<Message>, i: nat) returns (at: nat)
    requires |messages| - Whole(messages, Budget) <= i < |messages|
    ensures ReadsAt(Text.Join("\n", Tail(messages, Budget)), Written(messages[i]), at)
  {
    hide Text.Join, Tail, Text.Strip, Written, Chunk, Whole, ReadsAt;
    WholeChunk(messages, Budget, i);
    ChunkIsWritten(messages[i]);
    at := PieceIsRead(Tail(messages, Budget), |Tail(messages, Budget)| - (|messages| - i));
  }

  /** Where only the k newest messages fit, the text opens with the start of the next older one, as far as the budget
      goes, and the mark that it was cut. */
  lemma OlderMessageIsCut(messages: seq<Message>, k: nat) returns (left: nat)
    requires k < |messages| && Fits(messages, Budget, k)
    ensures left == Budget - Size(Chunks(Newest(messages, k))) < |Written(messages[|messages| - 1 - k])|
    ensures ReadsAt(Text.Join("\n", Tail(messages, Budget)), Written(messages[|messages| - 1 - k])[..left] + Marker, 0)
  {
    hide Text.Join, Tail, Text.Strip, Size, Chunks, ReadsAt, Written, Chunk, Newest, Cut, Shown, Whole;
    CutExceedsLeft(messages, Budget, k);
    left := Budget - Size(Chunks(Newest(messages, k)));
    hide Fits;
    TailIsTheFittingSuffix(messages, Budget, k);
    ChunkIsWritten(messages[|messages| - 1 - k]);
    CutComesFirst(messages, Budget, k, left);
    CutIs(Written(messages[|messages| - 1 - k]), left);
    var at := PieceIsRead(Tail(messages, Budget), 0);
  }

  lemma CutIs(chunk: string, left: nat)
    requires left <= |chunk|
    ensures Cut(chunk, left) == chunk[..left] + Marker
  {
  }

  lemma CutComesFirst(messages: seq<Message>, budget: nat, k: nat, left: nat)
    requires k < |messages| && left == budget - Size(Chunks(Newest(messages, k)))
    requires left <= |Chunk(messages[|messages| - 1 - k])|
    ensures var shown := Shown(messages, budget, k); shown != [] && shown[0] == Cut(Chunk(messages[|messages| - 1 - k]), left)
  {
    hide Chunk, Cut, Size, Chunks, Newest;
  }

  // --- how long the text can get -----------------------------------------------------------

  const Longest := 2577

  lemma {:induction false} JoinedLength(pieces: seq<string>)
    ensures |Text.Join("\n", pieces)| == Size(pieces) + if pieces == [] then 0 else |pieces| - 1
  {
    if |pieces| > 1 {
      JoinedLength(pieces[..|pieces| - 1]);
    } else if |pieces| == 1 {
      assert pieces[..0] == [];
    }
  }

  lemma {:induction false} TailSize(messages: seq<Message>, budget: nat)
    ensures var pieces := Tail(messages, budget);
      && Size(pieces) <= budget + 17
      && 4 * |pieces| <= budget + 4
  {
    hide Chunk, Cut;
    if messages != [] {
      var chunk, init := Chunk(messages[|messages| - 1]), messages[..|messages| - 1];
      if |chunk| > budget {
        assert [Cut(chunk, budget)][..0] == [];
      } else {
        TailSize(init, budget - |chunk|);
        var before := Tail(init, budget - |chunk|);
        assert (before + [chunk])[..|before|] == before;
      }
    }
  }

  lemma LengthIsBounded(messages: seq<Message>)
    ensures |Text.Join("\n", Tail(messages, Budget))| <= Longest
  {
    TailSize(messages, Budget);
    JoinedLength(Tail(messages, Budget));
  }

  function Silence(n: nat): (messages: seq<Message>)
    ensures |messages| == n
  {
    if n == 0 then [] else Silence(n - 1) + [Message(Some(""), "")]
  }

  lemma SilentChunk()
    ensures |Chunk(Message(Some(""), ""))| == 4
  {
  }

  lemma SilenceStep(n: nat)
    requires n > 0
    ensures Silence(n) == Silence(n - 1) + [Message(Some(""), "")]
  {
  }

  lemma NoSize()
    ensures Size([]) == 0
  {
  }

  lemma {:induction false} SilentTail(n: nat, j: nat)
    requires n > j
    ensures var pieces := Tail(Silence(n), 4 * j); |pieces| == j + 1 && Size(pieces) == 4 * j + 17
  {
    hide Chunk, Cut, Tail, Silence, Size;
    SilentChunk();
    SilenceStep(n);
    NoSize();
    var silent := Message(Some(""), "");
    TailStep(Silence(n - 1), silent, 4 * j);
    if j == 0 {
      SizeAppends([], Cut(Chunk(silent), 0));
      assert [] + [Cut(Chunk(silent), 0)] == [Cut(Chunk(silent), 0)];
    } else {
      SilentTail(n - 1, j - 1);
      SizeAppends(Tail(Silence(n - 1), 4 * (j - 1)), Chunk(silent));
    }
  }

  lemma TailStep(messages: seq<Message>, m: Message, budget: nat)
    ensures Tail(messages + [m], budget) ==
            if |Chunk(m)| > budget then [Cut(Chunk(m), budget)] else Tail(messages, budget - |Chunk(m)|) + [Chunk(m)]
  {
    hide Chunk, Cut;
    assert (messages + [m])[..|messages|] == messages;
  }

  lemma SizeAppends(pieces: seq<string>, last: string)
    ensures Size(pieces + [last]) == Size(pieces) + |last|
  {
    assert (pieces + [last])[..|pieces|] == pieces;
  }

  /** The bound is attained: 513 messages with an empty role and nothing to say. */
  lemma LengthIsAttained()
    ensures |Text.Join("\n", Tail(Silence(513), Budget))| == Longest
  {
    SilentTail(513, 512);
    JoinedLength(Tail(Silence(513), Budget));
  }
}
