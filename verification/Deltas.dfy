/** Cumulative upstream frames turned into deltas: internal/gemini/parser.go.

    `CleanText` is a parameter of everything here: the results hold for any cleaner that
    leaves the empty string empty. */
module Deltas {
  import opened GoStrings

  type Cleaner = string -> string

  /** What one upstream line says, once parsed; most lines say nothing. */
  datatype Frame = Frame(text: string, reasoning: string) {
    predicate HasContent() {
      text != "" || reasoning != ""
    }
  }

  /** What is handed on while upstream answers. */
  datatype Callback = Content(delta: string) | Reasoning(delta: string)

  /** The pieces of text among the callbacks, in order. */
  function ContentOf(callbacks: seq<Callback>): seq<string> {
    if callbacks == [] then [] else
      ContentOf(callbacks[..|callbacks| - 1]) +
      match callbacks[|callbacks| - 1]
      case Content(delta) => [delta]
      case Reasoning(_) => []
  }

  function ReasoningOf(callbacks: seq<Callback>): seq<string> {
    if callbacks == [] then [] else
      ReasoningOf(callbacks[..|callbacks| - 1]) +
      match callbacks[|callbacks| - 1]
      case Content(_) => []
      case Reasoning(delta) => [delta]
  }

  lemma {:induction false} CallbacksAppend(a: seq<Callback>, b: seq<Callback>)
    ensures ContentOf(a + b) == ContentOf(a) + ContentOf(b) && ReasoningOf(a + b) == ReasoningOf(a) + ReasoningOf(b)
  {
    if b == [] {
      assert a + b == a;
    } else {
      assert (a + b)[..|a + b| - 1] == a + b[..|b| - 1];
      CallbacksAppend(a, b[..|b| - 1]);
    }
  }

  // ---- the delta tracker ----

  /** What the tracker has emitted after one more cumulative text: it follows texts that
      extend what was emitted and ignores all others. */
  function Follow(clean: Cleaner, emitted: string, cumulative: string): (r: string)
    ensures emitted <= r
    ensures r == clean(cumulative) <==> emitted <= clean(cumulative)
    ensures r == emitted || r == clean(cumulative)
  {
    if emitted <= clean(cumulative) then clean(cumulative) else emitted
  }

  function FollowAll(clean: Cleaner, emitted: string, texts: seq<string>): (r: string)
    ensures emitted <= r
  {
    if texts == [] then emitted
    else Follow(clean, FollowAll(clean, emitted, texts[..|texts| - 1]), texts[|texts| - 1])
  }

  class DeltaTracker {
    const clean: Cleaner
    var emitted: string

    constructor (clean: Cleaner)
      ensures emitted == "" && this.clean == clean
    {
      this.clean := clean;
      emitted := "";
    }

    method Push(cumulative: string) returns (delta: string)
      modifies this
      ensures emitted == Follow(clean, old(emitted), cumulative)
      ensures emitted == old(emitted) + delta
    {
      var cleaned := clean(cumulative);
      if ByteLen(cleaned) <= ByteLen(emitted) || !(emitted <= cleaned) {
        if emitted <= cleaned {
          ByteLenOfPrefix(emitted, cleaned);
        }
        return "";
      }
      delta := cleaned[|emitted|..];
      emitted := cleaned;
    }
  }

  // ---- the text that a scan keeps ----

  /** The longer of two texts, the later one when they tie. */
  function Longer(kept: string, text: string): string {
    if ByteLen(text) >= ByteLen(kept) then text else kept
  }

  function LongestText(frames: seq<Frame>): string {
    if frames == [] then "" else
      var f := frames[|frames| - 1];
      var kept := LongestText(frames[..|frames| - 1]);
      if f.HasContent() then Longer(kept, f.text) else kept
  }

  function LongestReasoning(frames: seq<Frame>): string {
    if frames == [] then "" else
      var f := frames[|frames| - 1];
      var kept := LongestReasoning(frames[..|frames| - 1]);
      if f.HasContent() then Longer(kept, f.reasoning) else kept
  }

  /** The texts that reach the trackers, in order. */
  function Texts(frames: seq<Frame>): seq<string> {
    if frames == [] then [] else
      Texts(frames[..|frames| - 1]) + (if frames[|frames| - 1].text != "" then [frames[|frames| - 1].text] else [])
  }

  predicate AnyContent(frames: seq<Frame>) {
    exists i | 0 <= i < |frames| :: frames[i].HasContent()
  }

  lemma FollowAllAppend(clean: Cleaner, emitted: string, texts: seq<string>, last: string)
    ensures FollowAll(clean, emitted, texts + [last]) == Follow(clean, FollowAll(clean, emitted, texts), last)
  {
    assert (texts + [last])[..|texts|] == texts;
  }

  /** `remainingText` in internal/openai/tools.go */
  function RemainingText(full: string, sent: string): string {
    if sent <= full then full[|sent|..] else ""
  }

  /** Whatever frames an attempt delivers, the emitted text is never a proper prefix of the
      attempt's final text: it equals it or has left it for good. */
  lemma {:induction false} EmittedIsFinalOrDiverged(clean: Cleaner, before: string, frames: seq<Frame>)
    requires clean("") == ""
    ensures var emitted := FollowAll(clean, before, Texts(frames));
            var final := clean(LongestText(frames));
            emitted <= final ==> emitted == final
  {
    if frames != [] {
      var init := frames[..|frames| - 1];
      var f := frames[|frames| - 1];
      EmittedIsFinalOrDiverged(clean, before, init);
      if f.text != "" {
        FollowAllAppend(clean, before, Texts(init), f.text);
      } else {
        ByteLenZero(LongestText(init));
        assert Texts(frames) == Texts(init);
      }
    }
  }

  lemma ByteLenZero(s: string)
    ensures ByteLen(s) <= 0 ==> s == ""
  {
  }

  /** Without tools a streaming client ends up with the text of the non-streamed answer
      exactly when what was emitted is a prefix of it, and never gets anything after the
      last delta. */
  lemma PlainStreamShowsFinal(clean: Cleaner, before: string, frames: seq<Frame>)
    requires clean("") == ""
    ensures var sent := FollowAll(clean, before, Texts(frames));
            var final := clean(LongestText(frames));
            && RemainingText(final, sent) == ""
            && (sent == final <==> sent <= final)
  {
    EmittedIsFinalOrDiverged(clean, before, frames);
  }

  /** Every frame extends the one before it, as received and after cleaning. */
  predicate Cumulative(clean: Cleaner, frames: seq<Frame>) {
    forall i, j | 0 <= i < j < |frames| ::
      frames[i].text <= frames[j].text && clean(frames[i].text) <= clean(frames[j].text)
  }

  /** Cumulative frames: what was streamed is the final text, exactly if what was emitted
      before is a prefix of that. */
  lemma {:induction false} CumulativeStreamIsFinal(clean: Cleaner, before: string, frames: seq<Frame>)
    requires clean("") == "" && Cumulative(clean, frames)
    ensures var last := if frames == [] then "" else frames[|frames| - 1].text;
            var emitted := FollowAll(clean, before, Texts(frames));
            && LongestText(frames) == last
            && (emitted == before || emitted <= clean(last))
            && (emitted == clean(last) <==> before <= clean(last))
  {
    if frames != [] {
      var init := frames[..|frames| - 1];
      var f := frames[|frames| - 1];
      CumulativeStreamIsFinal(clean, before, init);
      ByteLenOfPrefix(LongestText(init), f.text);
      ByteLenZero(LongestText(init));
      FollowAllAppend(clean, before, Texts(init), f.text);
      assert f.text == "" ==> Texts(frames) == Texts(init);
    }
  }

  lemma LongestTextAppend(frames: seq<Frame>, f: Frame)
    ensures LongestText(frames + [f]) ==
            if f.HasContent() then Longer(LongestText(frames), f.text) else LongestText(frames)
  {
    hide ByteLen;
    assert (frames + [f])[..|frames|] == frames;
  }

  lemma TextsAppend(frames: seq<Frame>, f: Frame)
    ensures Texts(frames + [f]) == Texts(frames) + (if f.text != "" then [f.text] else [])
  {
    assert (frames + [f])[..|frames|] == frames;
  }

  lemma NoFrames(clean: Cleaner)
    ensures Texts([]) == [] && LongestText([]) == "" && FollowAll(clean, "", []) == "" && ByteLen("") == 0
  {
  }

  /** When upstream rewrites its answer instead of extending it, the streaming client
      keeps the first version and the non-streaming one gets the second. */
  lemma RewrittenAnswerDiverges(clean: Cleaner, first: string, second: string)
    requires clean("") == "" && first != "" && second != "" && ByteLen(first) <= ByteLen(second)
    requires !(clean(first) <= clean(second))
    ensures var frames := [Frame(first, ""), Frame(second, "")];
            FollowAll(clean, "", Texts(frames)) == clean(first) && clean(LongestText(frames)) == clean(second)
  {
    hide ByteLen, Texts, LongestText, FollowAll;
    var a, b := Frame(first, ""), Frame(second, "");
    NoFrames(clean);
    TextsAppend([], a);
    TextsAppend([a], b);
    LongestTextAppend([], a);
    LongestTextAppend([a], b);
    FollowAllAppend(clean, "", [], first);
    FollowAllAppend(clean, "", [first], second);
    assert [] + [a] == [a] && [a] + [b] == [a, b] && [] + [first] == [first] && Texts([a, b]) == [first] + [second];
    assert clean("") <= clean(first);
  }
}
