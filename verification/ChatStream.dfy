/** The streaming half of internal/openai/chat.go: what a chat client is sent, chunk by
    chunk, and how it compares with the answer of a client that does not stream. */
module ChatStream {
  import opened GoStrings
  import opened Deltas
  import opened ToolGate
  import opened ToolBlocks
  import opened ToolCalls

  datatype Chunk =
    | Role
    | ContentDelta(text: string)
    | ReasoningDelta(text: string)
    | ToolCallDeltas(calls: seq<ToolCall>)
    | Finish(reason: string)
    | UsageOf(text: string)
    | ErrorChunk(message: string)
    | Done

  /** How the gateway call ended: with the final text or with an error. */
  datatype Ending = Answer(text: string) | Failure(message: string)

  /** The content a client has been shown. */
  function Shown(chunks: seq<Chunk>): string {
    if chunks == [] then "" else
      Shown(chunks[..|chunks| - 1]) +
      match chunks[|chunks| - 1]
      case ContentDelta(text) => text
      case _ => ""
  }

  function ShownReasoning(chunks: seq<Chunk>): string {
    if chunks == [] then "" else
      ShownReasoning(chunks[..|chunks| - 1]) +
      match chunks[|chunks| - 1]
      case ReasoningDelta(text) => text
      case _ => ""
  }

  /** Only non-empty deltas are sent while upstream answers. */
  predicate OnlyDeltas(chunks: seq<Chunk>) {
    forall c | c in chunks :: (c.ContentDelta? || c.ReasoningDelta?) && c.text != ""
  }

  /** What the client has been shown when upstream is done. */
  function Visible(tools: bool, callbacks: seq<Callback>): string {
    if tools then PushedAll(TOOL_FENCE, EMPTY, ContentOf(callbacks)).sent else Concat(ContentOf(callbacks))
  }

  function FinalText(tools: bool, text: string): string {
    if tools then Cleaned(text) else text
  }

  function FinalCalls(tools: bool, text: string): seq<ToolCall> {
    if tools then Calls(text) else []
  }

  /** What follows the deltas. */
  function Closing(tools: bool, ending: Ending, visible: string, includeUsage: bool): seq<Chunk> {
    match ending
    case Failure(message) => [ErrorChunk(message), Done]
    case Answer(text) =>
      var final := FinalText(tools, text);
      var calls := FinalCalls(tools, text);
      var rest := RemainingText(final, visible);
      (if rest != "" then [ContentDelta(rest)] else [])
      + (if calls != [] then [ToolCallDeltas(calls), Finish("tool_calls")] else [Finish("stop")])
      + (if includeUsage then [UsageOf(final)] else [])
      + [Done]
  }

  /** What a client can rely on at the end of a stream.  After an answer one chunk finishes it:
      with "tool_calls" directly after the calls, if there are any, and otherwise with "stop".
      Everything shown comes before that, usage after it if it was asked for, and then the
      end; after a failure only the error comes before the end. */
  ghost predicate ClosedWell(chunks: seq<Chunk>, tools: bool, callbacks: seq<Callback>, ending: Ending, includeUsage: bool) {
    var n := |chunks|;
    var visible := Visible(tools, callbacks);
    && n >= 3 && FramesOnce(chunks)
    && ShownReasoning(chunks) == Concat(ReasoningOf(callbacks))
    && match ending
       case Failure(message) =>
         && chunks[n - 2] == ErrorChunk(message) && OnlyDeltas(chunks[1..n - 2]) && Shown(chunks) == visible
       case Answer(text) =>
         var final := if tools then Cleaned(text) else text;
         && Shown(chunks) == visible + RemainingText(final, visible)
         && FinishedWell(chunks, if tools then Calls(text) else [], if includeUsage then [UsageOf(final)] else [])
  }

  /** The role is the first chunk and the end the last, and neither occurs elsewhere. */
  predicate FramesOnce(chunks: seq<Chunk>) {
    forall k | 0 <= k < |chunks| :: (chunks[k].Role? <==> k == 0) && (chunks[k].Done? <==> k == |chunks| - 1)
  }

  /** One finish, before which there are only deltas and the calls, if any. */
  predicate FinishedWell(chunks: seq<Chunk>, calls: seq<ToolCall>, usage: seq<Chunk>) {
    var f := |chunks| - 2 - |usage|;
    var shown := if calls != [] then f - 1 else f;
    && 1 <= shown && OnlyDeltas(chunks[1..shown])
    && chunks[f] == Finish(if calls != [] then "tool_calls" else "stop")
    && (calls != [] ==> chunks[f - 1] == ToolCallDeltas(calls))
    && chunks[f + 1..|chunks| - 1] == usage
  }

  lemma ShownAppend(chunks: seq<Chunk>, c: Chunk)
    ensures Shown(chunks + [c]) == Shown(chunks) + (if c.ContentDelta? then c.text else "")
    ensures ShownReasoning(chunks + [c]) == ShownReasoning(chunks) + (if c.ReasoningDelta? then c.text else "")
  {
    assert (chunks + [c])[..|chunks|] == chunks;
  }

  /** One content chunk for every piece. */
  method EmitAll(chunks: seq<Chunk>, pieces: seq<string>) returns (r: seq<Chunk>)
    requires OnlyDeltas(chunks) && forall i | 0 <= i < |pieces| :: pieces[i] != ""
    ensures OnlyDeltas(r) && Shown(r) == Shown(chunks) + Concat(pieces) && ShownReasoning(r) == ShownReasoning(chunks)
  {
    hide Shown, ShownReasoning, Concat;
    r := chunks;
    NothingShown();
    assert Shown(chunks) + "" == Shown(chunks);
    for i := 0 to |pieces|
      invariant OnlyDeltas(r)
      invariant Shown(r) == Shown(chunks) + Concat(pieces[..i]) && ShownReasoning(r) == ShownReasoning(chunks)
    {
      ShownAppend(r, ContentDelta(pieces[i]));
      assert pieces[..i + 1] == pieces[..i] + [pieces[i]];
      ConcatAppend(pieces[..i], pieces[i]);
      assert Shown(chunks) + Concat(pieces[..i]) + pieces[i] == Shown(chunks) + (Concat(pieces[..i]) + pieces[i]);
      r := r + [ContentDelta(pieces[i])];
    }
    assert pieces[..|pieces|] == pieces;
  }

  /** A content delta goes through the gate; what the gate releases becomes chunks. */
  method Feed(gate: ToolFenceGate, chunks: seq<Chunk>, delta: string) returns (r: seq<Chunk>)
    requires gate.Valid() && OnlyDeltas(chunks) && Shown(chunks) == gate.sent
    modifies gate
    ensures gate.Valid() && gate.State() == Pushed(gate.marks, old(gate.State()), delta)
    ensures OnlyDeltas(r) && Shown(r) == gate.sent && ShownReasoning(r) == ShownReasoning(chunks)
  {
    hide Pushed, Shown, ShownReasoning, Concat;
    var before := |gate.emits|;
    ghost var emitted := gate.emits;
    gate.Push(delta);
    ConcatSplit(gate.emits, before);
    assert gate.emits[..before] == emitted;
    r := EmitAll(chunks, gate.emits[before..]);
  }

  /** Everything after the deltas. */
  method CloseStream(tools: bool, ending: Ending, visible: string, includeUsage: bool) returns (chunks: seq<Chunk>)
    ensures chunks == Closing(tools, ending, visible, includeUsage)
  {
    hide Cleaned, Calls;
    chunks := [];
    match ending {
      case Failure(message) =>
        chunks := chunks + [ErrorChunk(message)];
      case Answer(text) =>
        var final := text;
        var calls: seq<ToolCall> := [];
        if tools {
          final, calls := ParseToolCalls(text);
        }
        var rest := RemainingText(final, visible);
        if rest != "" {
          chunks := chunks + [ContentDelta(rest)];
        }
        var finishReason := "stop";
        if calls != [] {
          finishReason := "tool_calls";
          chunks := chunks + [ToolCallDeltas(calls)];
        }
        chunks := chunks + [Finish(finishReason)];
        if includeUsage {
          chunks := chunks + [UsageOf(final)];
        }
    }
    chunks := chunks + [Done];
  }

  /** The sequence of chunks of one streamed completion: the role, then deltas that show
      `Visible` and all the reasoning, then the closing. */
  method StreamChat(tools: bool, callbacks: seq<Callback>, ending: Ending, includeUsage: bool)
    returns (chunks: seq<Chunk>)
    ensures var closing := Closing(tools, ending, Visible(tools, callbacks), includeUsage);
            && |chunks| > |closing| && chunks[0] == Role && chunks[|chunks| - |closing|..] == closing
            && var body := chunks[1..|chunks| - |closing|];
            && OnlyDeltas(body)
            && Shown(body) == Visible(tools, callbacks)
            && ShownReasoning(body) == Concat(ReasoningOf(callbacks))
    ensures ClosedWell(chunks, tools, callbacks, ending, includeUsage)
  {
    hide Pushed, Closing, Shown, ShownReasoning, Concat, OnlyDeltas, ClosedWell;
    var deltas: seq<Chunk> := [];
    NothingShown();
    var gate := new ToolFenceGate();
    assert callbacks[..0] == [];
    for i := 0 to |callbacks|
      invariant fresh(gate) && gate.Valid() && gate.marks == TOOL_FENCE
      invariant tools ==> gate.State() == PushedAll(TOOL_FENCE, EMPTY, ContentOf(callbacks[..i]))
      invariant OnlyDeltas(deltas)
      invariant Shown(deltas) == Visible(tools, callbacks[..i])
      invariant ShownReasoning(deltas) == Concat(ReasoningOf(callbacks[..i]))
    {
      assert callbacks[..i + 1][..i] == callbacks[..i];
      ghost var contents := ContentOf(callbacks[..i]);
      ghost var reasonings := ReasoningOf(callbacks[..i]);
      match callbacks[i] {
        case Reasoning(delta) =>
          assert ReasoningOf(callbacks[..i + 1]) == reasonings + [delta] && ContentOf(callbacks[..i + 1]) == contents;
          ConcatAppend(reasonings, delta);
          if delta != "" {
            deltas := SendDelta(deltas, ReasoningDelta(delta));
          }
        case Content(delta) =>
          assert ContentOf(callbacks[..i + 1]) == contents + [delta] && ReasoningOf(callbacks[..i + 1]) == reasonings;
          ConcatAppend(contents, delta);
          PushedAllAppend(TOOL_FENCE, contents, delta);
          if tools {
            deltas := Feed(gate, deltas, delta);
          } else if delta != "" {
            deltas := SendDelta(deltas, ContentDelta(delta));
          }
      }
    }
    assert callbacks[..|callbacks|] == callbacks;
    var visible := if tools then gate.sent else Shown(deltas);
    var closing := CloseStream(tools, ending, visible, includeUsage);
    chunks := [Role] + deltas + closing;
    assert chunks[1..|chunks| - |closing|] == deltas;
    StreamClosesWell(tools, callbacks, ending, includeUsage, deltas);
  }

  lemma {:induction false} ShownConcat(a: seq<Chunk>, b: seq<Chunk>)
    ensures Shown(a + b) == Shown(a) + Shown(b) && ShownReasoning(a + b) == ShownReasoning(a) + ShownReasoning(b)
  {
    hide Shown, ShownReasoning;
    NothingShown();
    if b == [] {
      assert a + b == a;
    } else {
      var n := |b| - 1;
      ShownConcat(a, b[..n]);
      assert a + b == (a + b[..n]) + [b[n]];
      ShownAppend(a + b[..n], b[n]);
      ShownAppend(b[..n], b[n]);
      assert b == b[..n] + [b[n]];
    }
  }

  lemma {:induction false} NothingToShow(chunks: seq<Chunk>)
    requires forall c | c in chunks :: !c.ContentDelta? && !c.ReasoningDelta?
    ensures Shown(chunks) == "" && ShownReasoning(chunks) == ""
  {
    if chunks != [] {
      NothingToShow(chunks[..|chunks| - 1]);
    }
  }

  /** The role and the end show nothing. */
  lemma ShownBetween(body: seq<Chunk>, after: seq<Chunk>)
    requires forall c | c in after :: !c.ContentDelta? && !c.ReasoningDelta?
    ensures Shown([Role] + body + after) == Shown(body) && ShownReasoning([Role] + body + after) == ShownReasoning(body)
  {
    hide Shown, ShownReasoning;
    ShownConcat([Role] + body, after);
    ShownConcat([Role], body);
    NothingToShow([Role]);
    NothingToShow(after);
  }

  /** The closing of an answer without the rest of its text. */
  function AfterShown(calls: seq<ToolCall>, usage: seq<Chunk>): seq<Chunk> {
    (if calls != [] then [ToolCallDeltas(calls), Finish("tool_calls")] else [Finish("stop")]) + usage + [Done]
  }

  predicate Plain(c: Chunk) {
    !c.Role? && !c.Done? && !c.ContentDelta? && !c.ReasoningDelta?
  }

  lemma FramedOnce(body: seq<Chunk>, middle: seq<Chunk>)
    requires OnlyDeltas(body) && forall c | c in middle :: Plain(c)
    ensures FramesOnce([Role] + body + (middle + [Done]))
  {
    var chunks := [Role] + body + (middle + [Done]);
    forall k | 0 < k < |chunks| - 1 ensures !chunks[k].Role? && !chunks[k].Done? {
      assert chunks[k] in body || chunks[k] in middle;
    }
  }

  lemma AnswerFinishesWell(body: seq<Chunk>, calls: seq<ToolCall>, usage: seq<Chunk>)
    requires OnlyDeltas(body) && |usage| <= 1 && (forall c | c in usage :: Plain(c))
    ensures var chunks := [Role] + body + AfterShown(calls, usage);
            FinishedWell(chunks, calls, usage) && |chunks| >= 3
  {
    hide OnlyDeltas, FramesOnce;
    var finish := if calls != [] then [ToolCallDeltas(calls), Finish("tool_calls")] else [Finish("stop")];
    Stretches([Role], body, finish, usage, [Done]);
    var chunks := [Role] + body + (finish + usage + [Done]);
    var at := 1 + |body|;
    assert chunks[at..at + |finish|] == finish;
    assert chunks[at + |finish| - 1] == chunks[at..at + |finish|][|finish| - 1];
    assert calls != [] ==> chunks[at] == chunks[at..at + |finish|][0];
  }

  lemma AnswerFramedOnce(body: seq<Chunk>, calls: seq<ToolCall>, usage: seq<Chunk>)
    requires OnlyDeltas(body) && |usage| <= 1 && (forall c | c in usage :: Plain(c))
    ensures FramesOnce([Role] + body + AfterShown(calls, usage))
    ensures forall c | c in AfterShown(calls, usage) :: !c.ContentDelta? && !c.ReasoningDelta?
  {
    hide OnlyDeltas, FramesOnce;
    var finish := if calls != [] then [ToolCallDeltas(calls), Finish("tool_calls")] else [Finish("stop")];
    assert forall c | c in finish :: Plain(c);
    FramedOnce(body, finish + usage);
  }

  lemma Stretches(a: seq<Chunk>, b: seq<Chunk>, c: seq<Chunk>, d: seq<Chunk>, e: seq<Chunk>)
    ensures var all := a + b + (c + d + e);
            var i := |a| + |b|;
            && all[|a|..i] == b && all[i..i + |c|] == c && all[i + |c|..i + |c| + |d|] == d
            && |all| == i + |c| + |d| + |e|
  {
  }

  lemma ClosingOfAnswer(tools: bool, text: string, visible: string, includeUsage: bool, deltas: seq<Chunk>)
    ensures var final := FinalText(tools, text);
            var rest := RemainingText(final, visible);
            var body := deltas + if rest != "" then [ContentDelta(rest)] else [];
            [Role] + deltas + Closing(tools, Answer(text), visible, includeUsage)
            == [Role] + body + AfterShown(FinalCalls(tools, text), if includeUsage then [UsageOf(final)] else [])
  {
    hide FinalText, FinalCalls, RemainingText;
    var final, calls := FinalText(tools, text), FinalCalls(tools, text);
    var rest := RemainingText(final, visible);
    var more := if rest != "" then [ContentDelta(rest)] else [];
    var finish := if calls != [] then [ToolCallDeltas(calls), Finish("tool_calls")] else [Finish("stop")];
    var usage := if includeUsage then [UsageOf(final)] else [];
    assert Closing(tools, Answer(text), visible, includeUsage) == more + finish + usage + [Done];
    assert AfterShown(calls, usage) == finish + usage + [Done];
    Regroup([Role], deltas, more, finish, usage, [Done]);
  }

  lemma Regroup(a: seq<Chunk>, b: seq<Chunk>, c: seq<Chunk>, d: seq<Chunk>, e: seq<Chunk>, f: seq<Chunk>)
    ensures a + b + (c + d + e + f) == a + (b + c) + (d + e + f)
  {
  }

  lemma FailureClosesWell(tools: bool, callbacks: seq<Callback>, message: string, includeUsage: bool, deltas: seq<Chunk>)
    requires OnlyDeltas(deltas) && Shown(deltas) == Visible(tools, callbacks)
    requires ShownReasoning(deltas) == Concat(ReasoningOf(callbacks))
    ensures ClosedWell([Role] + deltas + [ErrorChunk(message), Done], tools, callbacks, Failure(message), includeUsage)
  {
    hide Shown, ShownReasoning, Concat, Visible, FramesOnce, OnlyDeltas;
    var closing := [ErrorChunk(message)] + [Done];
    ShownBetween(deltas, closing);
    FramedOnce(deltas, [ErrorChunk(message)]);
    assert closing == [ErrorChunk(message), Done];
    assert ([Role] + deltas + closing)[1..|deltas| + 1] == deltas;
  }

  lemma StreamClosesWell(tools: bool, callbacks: seq<Callback>, ending: Ending, includeUsage: bool, deltas: seq<Chunk>)
    requires OnlyDeltas(deltas) && Shown(deltas) == Visible(tools, callbacks)
    requires ShownReasoning(deltas) == Concat(ReasoningOf(callbacks))
    ensures ClosedWell([Role] + deltas + Closing(tools, ending, Visible(tools, callbacks), includeUsage),
                       tools, callbacks, ending, includeUsage)
  {
    hide Shown, ShownReasoning, Concat, Cleaned, Calls, Visible, RemainingText, FramesOnce, FinishedWell;
    match ending
    case Failure(message) =>
      FailureClosesWell(tools, callbacks, message, includeUsage, deltas);
    case Answer(text) =>
      hide Closing, AfterShown;
      var visible := Visible(tools, callbacks);
      var final := FinalText(tools, text);
      var rest := RemainingText(final, visible);
      var body := deltas + if rest != "" then [ContentDelta(rest)] else [];
      ShownAppend(deltas, ContentDelta(rest));
      assert visible + "" == visible && deltas + [] == deltas;
      var usage := if includeUsage then [UsageOf(final)] else [];
      AnswerFinishesWell(body, FinalCalls(tools, text), usage);
      AnswerFramedOnce(body, FinalCalls(tools, text), usage);
      ShownBetween(body, AfterShown(FinalCalls(tools, text), usage));
      ClosingOfAnswer(tools, text, visible, includeUsage, deltas);
  }

  lemma NothingShown()
    ensures OnlyDeltas([]) && Shown([]) == "" && ShownReasoning([]) == "" && Concat([]) == ""
  {
  }

  method SendDelta(chunks: seq<Chunk>, c: Chunk) returns (r: seq<Chunk>)
    requires OnlyDeltas(chunks) && OnlyDeltas([c])
    ensures r == chunks + [c] && OnlyDeltas(r)
    ensures Shown(r) == Shown(chunks) + (if c.ContentDelta? then c.text else "")
    ensures ShownReasoning(r) == ShownReasoning(chunks) + (if c.ReasoningDelta? then c.text else "")
  {
    ShownAppend(chunks, c);
    r := chunks + [c];
  }

  lemma PushedAllAppend(mk: Fence, deltas: seq<string>, last: string)
    ensures PushedAll(mk, EMPTY, deltas + [last]) == Pushed(mk, PushedAll(mk, EMPTY, deltas), last)
  {
    hide Pushed;
    assert (deltas + [last])[..|deltas|] == deltas;
  }

  lemma {:induction false} ConcatSplit(parts: seq<string>, k: nat)
    requires k <= |parts|
    ensures Concat(parts) == Concat(parts[..k]) + Concat(parts[k..])
  {
    if k == |parts| {
      assert parts[..k] == parts;
    } else {
      var n := |parts| - 1;
      ConcatSplit(parts[..n], k);
      assert parts[..n][..k] == parts[..k];
      assert parts[k..][..n - k] == parts[..n][k..];
    }
  }
}
