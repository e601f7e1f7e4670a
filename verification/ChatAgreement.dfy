/** A streaming chat client and a non-streaming one, side by side: when tools are
    offered, the first sees the gate's output and then whatever `remainingText` adds;
    the second sees the cleaned text. */
module ChatAgreement {
  import opened GoStrings
  import opened Deltas
  import opened ToolGate
  import opened ToolBlocks
  import opened ToolCalls
  import opened ChatStream
  import opened ToolRoundTrip

  /** What is shown in the end when `out` was shown and `final` is the final text. */
  function Seen(out: string, final: string): string {
    out + RemainingText(final, out)
  }

  predicate StartsBlank(s: string) {
    s != "" && IsSpace(s[0])
  }

  predicate EndsBlank(s: string) {
    s != "" && IsSpace(s[|s| - 1])
  }

  /** What the gate withholds is empty or starts with a visible character. */
  lemma {:induction false} WithheldStarts(mk: Fence, s: string)
    ensures var d := Drain(mk, false, s);
            !StartsBlank(Withheld(mk, d.fence, d.rest))
    decreases |s|
  {
    hide Index, Drain, LongestPartial;
    DrainOutside(mk, s);
    var i := Index(s, mk.open);
    if i >= 0 {
      var t := s[i + |mk.open|..];
      DrainInside(mk, t);
      var j := Index(t, mk.close);
      if j >= 0 {
        WithheldStarts(mk, t[j + |mk.close|..]);
      }
    } else {
      LongestPartialIsLongest(s, mk.open);
      var k := LongestPartial(s, mk.open);
      var rest := s[|s| - k..];
      assert rest == mk.open[..k];
    }
  }

  /** `TrimSpace` of a text in two parts, the second of which shows something. */
  lemma TrimOfTwo(out: string, held: string) returns (a: string, t: string)
    requires held != "" && !IsSpace(held[0])
    ensures out == a + t && AllSpace(a) && !StartsBlank(t)
    ensures t + [held[0]] <= TrimSpace(out + held)
  {
    hide TrimSpace, TrimLeft, TrimRight, AllSpace;
    a := TrimLeftSplits(out);
    t := TrimLeft(out);
    var b := TrimRightSplits(held);
    var h := TrimRight(held);
    StartKept(held, h, b);
    FourParts(a, t, h, b);
    TrimIs(a, t + h, b);
    assert h == [h[0]] + h[1..];
    assert t + ([h[0]] + h[1..]) == t + [h[0]] + h[1..];
  }

  lemma StartKept(held: string, h: string, b: string)
    requires held == h + b && AllSpace(b) && held != "" && !IsSpace(held[0])
    ensures h != "" && h[0] == held[0]
  {
  }

  lemma FourParts(a: string, t: string, h: string, b: string)
    ensures (a + t) + (h + b) == a + (t + h) + b
  {
  }

  /** The two clients against each other.  `out` is what the gate let through and `held`
      what it still withholds.  Up to white space at the ends they see the same text,
      unless the streamed text starts with white space and something is held back: then
      the streaming client never gets what was held.  They see exactly the same text when
      the streamed text does not start with white space and either something is held
      back or it does not end with white space. */
  lemma SeenExactly(out: string, held: string)
    requires !StartsBlank(held)
    ensures var final := TrimSpace(out + held);
            var seen := Seen(out, final);
            && (TrimSpace(seen) == final <==> !(StartsBlank(out) && held != ""))
            && (seen == final <==> !StartsBlank(out) && (held != "" || !EndsBlank(out)))
  {
    hide TrimSpace;
    var final := TrimSpace(out + held);
    var a, b := TrimSplits(out + held);
    TrimNoop(final);
    if held != "" {
      SeenWithTail(out, held);
    } else {
      SeenWithoutTail(out);
      assert out + held == out;
    }
  }

  lemma SeenWithTail(out: string, held: string)
    requires held != "" && !IsSpace(held[0])
    ensures var final := TrimSpace(out + held);
            var seen := Seen(out, final);
            if StartsBlank(out) then TrimSpace(seen) != final && seen != final
            else seen == final
  {
    hide TrimSpace;
    var final := TrimSpace(out + held);
    var a, t := TrimOfTwo(out, held);
    if StartsBlank(out) {
      var fa, fb := TrimSplits(out + held);
      NotPrefix(out, final);
      assert Seen(out, final) == out;
      var oa, ob := TrimSplits(out);
      TrimmedLength(out, a, t);
    } else {
      assert |a| == 0;
      assert out == t;
      assert out <= final;
    }
  }

  lemma NotPrefix(out: string, final: string)
    requires StartsBlank(out) && Trimmed(final)
    ensures !(out <= final) && RemainingText(final, out) == "" && Seen(out, final) == out
  {
    assert out + "" == out;
  }

  /** Trimming leaves at most what follows the leading white space. */
  lemma TrimmedLength(s: string, a: string, t: string)
    requires s == a + t && AllSpace(a) && !StartsBlank(t)
    ensures |TrimSpace(s)| <= |t|
  {
    hide TrimSpace;
    var b := TrimRightSplits(t);
    var core := TrimRight(t);
    assert s == a + core + b;
    TrimIs(a, core, b);
  }

  lemma SeenWithoutTail(out: string)
    ensures var final := TrimSpace(out);
            var seen := Seen(out, final);
            && TrimSpace(seen) == final
            && (seen == final <==> !StartsBlank(out) && !EndsBlank(out))
  {
    hide TrimSpace;
    var final := TrimSpace(out);
    var a, b := TrimSplits(out);
    TrimNoop(final);
    if out <= final {
      assert |a| == 0 && |b| == 0;
      assert out == final;
      assert out + "" == out;
    } else {
      assert out + "" == out;
      if Trimmed(out) {
        TrimNoop(out);
      }
    }
  }

  lemma {:induction false} ContentIsOne(deltas: seq<string>)
    ensures PushedAll(TOOL_FENCE, EMPTY, deltas) == Pushed(TOOL_FENCE, EMPTY, Concat(deltas))
  {
    hide Pushed;
    GateStartsSettled();
    ChunkingInvariance(TOOL_FENCE, EMPTY, deltas);
  }

  lemma GateStartsSettled()
    ensures Settled(TOOL_FENCE, EMPTY)
  {
    GateStartsSettledFor(TOOL_FENCE);
  }

  lemma GateStartsSettledFor(mk: Fence)
    ensures Settled(mk, EMPTY)
  {
    hide Index;
    IndexIsFirst("", mk.open);
  }

  /** End to end: when the deltas add up to the final text and every closed fence of it
      encloses a good block, the streaming client with tools sees the cleaned text of the
      non-streaming one, up to white space at the ends, exactly when nothing is held
      back at the end or the visible text does not start with white space. */
  lemma StreamedIsCleaned(callbacks: seq<Callback>, text: string)
    requires Concat(ContentOf(callbacks)) == text && WellFormed(TOOL_FENCE, text)
    ensures var d := Drain(TOOL_FENCE, false, text);
            var held := Withheld(TOOL_FENCE, d.fence, d.rest);
            var out := Visible(true, callbacks);
            var seen := Seen(out, Cleaned(text));
            && out == d.out && Strip(TOOL_FENCE, text) == out + held
            && (TrimSpace(seen) == Cleaned(text) <==> !(StartsBlank(out) && held != ""))
            && (seen == Cleaned(text) <==> !StartsBlank(out) && (held != "" || !EndsBlank(out)))
  {
    hide Drain, Strip, TrimSpace, WellFormed, Index, TOOL_FENCE, Withheld;
    ContentIsOne(ContentOf(callbacks));
    assert "" + text == text;
    var d := Drain(TOOL_FENCE, false, text);
    assert "" + d.out == d.out;
    StreamingIsBatch(TOOL_FENCE, text);
    WithheldStarts(TOOL_FENCE, text);
    SeenExactly(d.out, Withheld(TOOL_FENCE, d.fence, d.rest));
  }

  /** The text after the first marker starts with a line break and the payload. */
  lemma AfterOpen(mk: Fence, payload: string, rest: string)
    ensures var s := Block(mk, payload) + rest;
            var t := "\n" + (payload + "\n" + mk.close + rest);
            s == mk.open + t && s[|mk.open|..] == t && Index(s, mk.open) == 0
  {
    hide Index;
    var s := Block(mk, payload) + rest;
    assert s[0..|mk.open|] == mk.open;
    FirstIsIndex(s, mk.open, 0);
  }

  /** Where the gate takes the block to end. */
  lemma FirstFenceInside(mk: Fence, payload: string, tail: string)
    requires Contains(payload, mk.close)
    ensures var t := "\n" + (payload + tail);
            var j := Index(t, mk.close);
            && 0 <= j && j + |mk.close| <= |payload| + 1 && (j > 0 ==> payload[j - 1] == mk.close[0])
  {
    hide Index;
    var t := "\n" + (payload + tail);
    var k := Index(payload, mk.close);
    IndexIsFirst(payload, mk.close);
    IndexIsFirst(t, mk.close);
    assert t[k + 1..k + 1 + |mk.close|] == payload[k..k + |mk.close|];
    assert OccursAt(t, mk.close, k + 1);
    var j := Index(t, mk.close);
    assert t[j] == t[j..j + |mk.close|][0] == mk.close[0];
  }

  /** What follows the first closing fence after the marker of a block. */
  function AfterFence(mk: Fence, s: string): string
    requires |mk.open| <= |s| && Index(s[|mk.open|..], mk.close) >= 0
  {
    var t := s[|mk.open|..];
    t[Index(t, mk.close) + |mk.close|..]
  }

  /** Not every reply is like that: when the JSON of a call contains a closing fence of
      its own, say a code block in a string argument, the expression removes the whole
      block in one match, but the gate takes that fence for its end.  What follows is shown
      to the client, unless another block opens right there, which the gate then enters. */
  lemma FenceInPayloadLeaks(mk: Fence, payload: string, rest: string)
    requires Quiet(mk, payload) && Contains(payload, mk.close)
    ensures var s := Block(mk, payload) + rest;
            && MatchHere(mk, s) == Some(Body(|mk.open| + 1, |mk.open| + 1 + |payload|))
            && Strip(mk, s) == Strip(mk, rest)
            && !WellFormed(mk, s) && RegexCuts(mk, s) != GateCuts(mk, s)
            && |mk.open| <= |s| && Index(s[|mk.open|..], mk.close) >= 0
            && var after := AfterFence(mk, s);
            && Drain(mk, false, s) == Drain(mk, false, after)
            && ('\n' !in mk.open && Index(after, mk.open) != 0 ==>
                  after != "" && Drain(mk, false, s).out != "" && Drain(mk, false, s).out[0] == after[0])
            && (Index(after, mk.open) == 0 ==> Drain(mk, false, s) == Drain(mk, true, after[|mk.open|..]))
  {
    hide Index, MatchHere, RegexCuts, GateCuts, Contains, Block, WellFormed, Drain, Strip, Quiet, AfterFence;
    AfterOpen(mk, payload, rest);
    var s := Block(mk, payload) + rest;
    BlockIsMatched(mk, payload, rest);
    WholeBlockIsStripped(mk, payload, rest);
    SameCuts(mk, s);
    FirstFenceIsInside(mk, payload, rest);
    DrainPast(mk, s);
    ShownFirst(mk, AfterFence(mk, s));
  }

  /** A well-formed text is not needed for the same text: when, right after the closing fence
      inside a call, a marker opens and stays open up to the end of the block, the gate makes
      two cuts where the expression makes one, and nothing is between them. */
  lemma AdjacentCutsHideAll(mk: Fence, x: string, y: string, rest: string)
    requires var payload := x + mk.close + mk.open + y;
             && Quiet(mk, payload) && Contains(payload, mk.close)
             && Index("\n" + payload, mk.close) == |x| + 1 && Index(y + "\n" + mk.close, mk.close) == |y| + 1
    requires WellFormed(mk, rest)
    ensures var s := Block(mk, x + mk.close + mk.open + y) + rest;
            var d := Drain(mk, false, s);
            !WellFormed(mk, s) && Strip(mk, s) == d.out + Withheld(mk, d.fence, d.rest)
  {
    hide Index, Contains, Block, WellFormed, Drain, Strip, Quiet, MatchHere, RegexCuts, GateCuts, AfterFence;
    var payload := x + mk.close + mk.open + y;
    var s := Block(mk, payload) + rest;
    FenceInPayloadLeaks(mk, payload, rest);
    AfterInnerFence(mk, x, y, rest);
    DrainInside(mk, y + "\n" + mk.close + rest);
    var more := y + "\n" + mk.close;
    IndexStable(more, mk.close, rest);
    assert (more + rest)[|more|..] == rest;
    StreamingIsBatch(mk, rest);
  }

  lemma AfterInnerFence(mk: Fence, x: string, y: string, rest: string)
    requires Index("\n" + (x + mk.close + mk.open + y), mk.close) == |x| + 1
    ensures var s := Block(mk, x + mk.close + mk.open + y) + rest;
            && |mk.open| <= |s| && Index(s[|mk.open|..], mk.close) >= 0
            && var after := AfterFence(mk, s);
            after == mk.open + (y + "\n" + mk.close + rest) && Index(after, mk.open) == 0
            && after[|mk.open|..] == y + "\n" + mk.close + rest
  {
    hide Index, Block;
    var payload := x + mk.close + mk.open + y;
    AfterOpen(mk, payload, rest);
    InnerSplits(mk, x, y, rest);
    IndexStable("\n" + payload, mk.close, "\n" + mk.close + rest);
    StartsHere(mk, y + "\n" + mk.close + rest);
  }

  lemma InnerSplits(mk: Fence, x: string, y: string, rest: string)
    ensures var payload := x + mk.close + mk.open + y;
            var t := "\n" + (payload + "\n" + mk.close + rest);
            && t == ("\n" + payload) + ("\n" + mk.close + rest)
            && t[|x| + 1 + |mk.close|..] == mk.open + (y + "\n" + mk.close + rest)
  {
  }

  lemma StartsHere(mk: Fence, rest: string)
    ensures Index(mk.open + rest, mk.open) == 0 && (mk.open + rest)[|mk.open|..] == rest
  {
    hide Index;
    assert OccursAt(mk.open + rest, mk.open, 0);
    FirstIsIndex(mk.open + rest, mk.open, 0);
  }

  lemma FirstFenceIsInside(mk: Fence, payload: string, rest: string)
    requires Quiet(mk, payload) && Contains(payload, mk.close)
    ensures var s := Block(mk, payload) + rest;
            && |mk.open| <= |s| && Index(s[|mk.open|..], mk.close) >= 0
            && !WellFormed(mk, s) && '\n' in AfterFence(mk, s)
  {
    hide Index, Contains, Block, WellFormed, Quiet;
    AfterOpen(mk, payload, rest);
    var s := Block(mk, payload) + rest;
    var t := s[|mk.open|..];
    var tail := "\n" + mk.close + rest;
    assert payload + tail == payload + "\n" + mk.close + rest;
    FirstFenceInside(mk, payload, tail);
    var j := Index(t, mk.close);
    FirstIsBreak(mk, t);
    InnerIsNotGood(mk, payload, t, j, t[j + |mk.close|..]);
    GateCutsOf(mk, s);
    assert s[0 + |mk.open|..] == t;
    assert AfterFence(mk, s)[|payload| + 1 - (j + |mk.close|)] == t[|payload| + 1] == '\n';
  }

  lemma WholeBlockIsStripped(mk: Fence, payload: string, rest: string)
    requires Quiet(mk, payload)
    ensures Strip(mk, Block(mk, payload) + rest) == Strip(mk, rest)
  {
    hide Index, MatchFrom, Strip, Quiet, Clear, Block;
    var s := Block(mk, payload) + rest;
    NewlineIsClear(mk);
    assert "" + Block(mk, payload) + rest == s;
    BlockIsFound(mk, "", payload, rest);
    StripOf(mk, s);
    assert s[..0] + Strip(mk, rest) == Strip(mk, rest);
  }

  /** The gate goes on after the first closing fence. */
  lemma DrainPast(mk: Fence, s: string)
    requires Index(s, mk.open) == 0 && |mk.open| <= |s| && Index(s[|mk.open|..], mk.close) >= 0
    ensures Drain(mk, false, s) == Drain(mk, false, AfterFence(mk, s))
  {
    hide Index, Drain;
    DrainOutside(mk, s);
    DrainInside(mk, s[|mk.open|..]);
    assert s[0 + |mk.open|..] == s[|mk.open|..];
    NothingPrepended(Drain(mk, true, s[|mk.open|..]), s);
  }

  lemma NothingPrepended(d: Drained, s: string)
    ensures Prepend(s[..0], d) == d
  {
    assert s[..0] + d.out == d.out;
  }

  lemma ShownFirst(mk: Fence, after: string)
    requires '\n' in after
    ensures '\n' !in mk.open && Index(after, mk.open) != 0 ==>
              Drain(mk, false, after).out != "" && Drain(mk, false, after).out[0] == after[0]
    ensures Index(after, mk.open) == 0 ==> Drain(mk, false, after) == Drain(mk, true, after[|mk.open|..])
  {
    hide Index, Drain, LongestPartial;
    DrainOutside(mk, after);
    BreakIsNotHeld(after, mk.open);
    if Index(after, mk.open) == 0 {
      assert after[0 + |mk.open|..] == after[|mk.open|..];
      NothingPrepended(Drain(mk, true, after[|mk.open|..]), after);
    }
  }

  /** A text with a line break is not held as a whole. */
  lemma BreakIsNotHeld(s: string, m: string)
    requires '\n' in s
    ensures '\n' !in m ==> LongestPartial(s, m) < |s|
  {
    hide LongestPartial;
    LongestPartialIsLongest(s, m);
    var k := LongestPartial(s, m);
    assert k == |s| ==> s == m[..k];
  }

  lemma FirstIsBreak(mk: Fence, t: string)
    requires t != "" && t[0] == '\n'
    ensures Index(t, mk.close) != 0
  {
  }

  lemma InnerIsNotGood(mk: Fence, payload: string, t: string, j: nat, rest: string)
    requires Quiet(mk, payload) && 0 < j <= |t| && j <= |payload| && payload[j - 1] == mk.close[0]
    requires t[0] == '\n' && forall q | 0 < q <= |payload| && q < |t| :: t[q] == payload[q - 1]
    ensures !GoodBlock(mk, t[..j], rest)
  {
    hide Index;
    var inner := t[..j];
    assert inner[j - 1] == t[j - 1];
    if j == 1 {
      assert inner[..0] == "";
    }
  }
}
