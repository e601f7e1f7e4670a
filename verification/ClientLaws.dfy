/** What the retry loop guarantees, whatever upstream does: how often it posts, that its
    callbacks add up to what it reports, and when it may post again after output. */
module ClientLaws {
  import opened GoStrings
  import opened Deltas
  import opened Client

  function Posts(trace: seq<Event>): nat {
    if trace == [] then 0 else Posts(trace[..|trace| - 1]) + (if trace[|trace| - 1].Post? then 1 else 0)
  }

  function CallbacksOf(trace: seq<Event>): seq<Callback> {
    if trace == [] then [] else
      CallbacksOf(trace[..|trace| - 1]) +
      match trace[|trace| - 1]
      case Post => []
      case Delivered(c) => [c]
  }

  /** Nothing is posted after something was handed on. */
  predicate NothingResent(trace: seq<Event>) {
    forall i, j | 0 <= i < j < |trace| && trace[i].Delivered? :: trace[j].Delivered?
  }

  lemma TraceAppend(trace: seq<Event>, e: Event)
    ensures Posts(trace + [e]) == Posts(trace) + (if e.Post? then 1 else 0)
    ensures CallbacksOf(trace + [e]) == CallbacksOf(trace) + (if e.Post? then [] else [e.callback])
  {
    assert (trace + [e])[..|trace|] == trace;
  }

  lemma {:induction false} TraceDeliver(trace: seq<Event>, callbacks: seq<Callback>)
    ensures Posts(trace + Deliveries(callbacks)) == Posts(trace)
    ensures CallbacksOf(trace + Deliveries(callbacks)) == CallbacksOf(trace) + callbacks
  {
    if callbacks == [] {
      assert trace + Deliveries(callbacks) == trace;
    } else {
      var n := |callbacks| - 1;
      TraceDeliver(trace, callbacks[..n]);
      assert trace + Deliveries(callbacks) == (trace + Deliveries(callbacks[..n])) + [Delivered(callbacks[n])];
      TraceAppend(trace + Deliveries(callbacks[..n]), Delivered(callbacks[n]));
      assert callbacks == callbacks[..n] + [callbacks[n]];
    }
  }

  lemma {:induction false} SilentTrace(trace: seq<Event>)
    ensures CallbacksOf(trace) == [] <==> forall e | e in trace :: e.Post?
  {
    if trace != [] {
      var n := |trace| - 1;
      SilentTrace(trace[..n]);
      assert forall e :: e in trace <==> e in trace[..n] || e == trace[n];
    }
  }

  // ---- one reply ----

  lemma HearOnce(clean: Cleaner, req: Request, h: Heard, f: Frame)
    ensures var g := Hear(clean, req, h, f);
            && h.callbacks <= g.callbacks && h.text <= g.text && h.reasoning <= g.reasoning
            && g.text == h.text + Concat(ContentOf(g.callbacks[|h.callbacks|..]))
            && g.reasoning == h.reasoning + Concat(ReasoningOf(g.callbacks[|h.callbacks|..]))
            && (g.callbacks == h.callbacks <==> g.text == h.text && g.reasoning == h.reasoning)
  {
    hide Follow, ContentOf, ReasoningOf, Concat;
    var g := Hear(clean, req, h, f);
    var thought := if g.reasoning != h.reasoning then [Reasoning(g.reasoning[|h.reasoning|..])] else [];
    var said := if g.text != h.text then [Content(g.text[|h.text|..])] else [];
    assert g.callbacks == h.callbacks + (thought + said);
    assert g.callbacks[|h.callbacks|..] == thought + said;
    CallbacksAppend(thought, said);
    NoCallback();
    OneReasoning(g.reasoning[|h.reasoning|..]);
    OneContent(g.text[|h.text|..]);
    assert [] + ContentOf(said) == ContentOf(said) && ReasoningOf(thought) + [] == ReasoningOf(thought);
    assert h.text + "" == h.text && h.reasoning + "" == h.reasoning;
  }

  /** A frame hands on its reasoning before its text, each at most once and only if it says
      something new. */
  lemma ReasoningFirst(clean: Cleaner, req: Request, h: Heard, f: Frame)
    ensures var g := Hear(clean, req, h, f);
            var n := |h.callbacks|;
            && n <= |g.callbacks| <= n + 2 && g.callbacks[..n] == h.callbacks
            && (forall k | n <= k < |g.callbacks| :: g.callbacks[k].delta != "")
            && (|g.callbacks| == n + 2 ==> g.callbacks[n].Reasoning? && g.callbacks[n + 1].Content?)
  {
    hide Follow;
    var g := Hear(clean, req, h, f);
    assert g.callbacks[..|h.callbacks|] == h.callbacks;
  }

  lemma NoCallback()
    ensures ContentOf([]) == [] && ReasoningOf([]) == [] && Concat([]) == ""
  {
  }

  lemma OneReasoning(a: string)
    ensures ContentOf([Reasoning(a)]) == [] && ReasoningOf([Reasoning(a)]) == [a] && Concat([a]) == a
  {
    hide ContentOf, ReasoningOf, Concat;
    NoCallback();
    OneMore([], Reasoning(a));
    assert [] + [Reasoning(a)] == [Reasoning(a)] && [] + [a] == [a];
    ConcatAppend([], a);
    assert "" + a == a;
  }

  lemma OneContent(b: string)
    ensures ContentOf([Content(b)]) == [b] && ReasoningOf([Content(b)]) == [] && Concat([b]) == b
  {
    hide ContentOf, ReasoningOf, Concat;
    NoCallback();
    OneMore([], Content(b));
    assert [] + [Content(b)] == [Content(b)] && [] + [b] == [b];
    ConcatAppend([], b);
    assert "" + b == b;
  }

  lemma OneMore(callbacks: seq<Callback>, c: Callback)
    ensures ContentOf(callbacks + [c]) == ContentOf(callbacks) + (if c.Content? then [c.delta] else [])
    ensures ReasoningOf(callbacks + [c]) == ReasoningOf(callbacks) + (if c.Reasoning? then [c.delta] else [])
  {
    assert (callbacks + [c])[..|callbacks|] == callbacks;
  }

  /** The callbacks of a reply are exactly what it added to the emitted texts. */
  lemma {:induction false} HearAllAdds(clean: Cleaner, req: Request, text: string, reasoning: string,
                                       frames: seq<Frame>)
    ensures var h := HearAll(clean, req, Heard(text, reasoning, []), frames);
            && text <= h.text && reasoning <= h.reasoning
            && h.text == text + Concat(ContentOf(h.callbacks))
            && h.reasoning == reasoning + Concat(ReasoningOf(h.callbacks))
            && (h.callbacks == [] <==> h.text == text && h.reasoning == reasoning)
  {
    hide Hear, ContentOf, ReasoningOf, Concat;
    NoCallback();
    var start := Heard(text, reasoning, []);
    if frames == [] {
      assert text + "" == text && reasoning + "" == reasoning;
    } else {
      var init := frames[..|frames| - 1];
      HearAllAdds(clean, req, text, reasoning, init);
      var h := HearAll(clean, req, start, init);
      var f := frames[|frames| - 1];
      HearOnce(clean, req, h, f);
      var g := Hear(clean, req, h, f);
      var more := g.callbacks[|h.callbacks|..];
      assert g.callbacks == h.callbacks + more;
      CallbacksAppend(h.callbacks, more);
      ConcatConcat(ContentOf(h.callbacks), ContentOf(more));
      ConcatConcat(ReasoningOf(h.callbacks), ReasoningOf(more));
      assert g.text == text + (Concat(ContentOf(h.callbacks)) + Concat(ContentOf(more)));
      assert g.reasoning == reasoning + (Concat(ReasoningOf(h.callbacks)) + Concat(ReasoningOf(more)));
    }
  }

  /** With a content callback the emitted text follows the frames' texts. */
  lemma {:induction false} HearAllFollows(clean: Cleaner, req: Request, h: Heard, frames: seq<Frame>)
    ensures HearAll(clean, req, h, frames).text ==
            if req.onContent then FollowAll(clean, h.text, Texts(frames)) else h.text
  {
    hide Follow;
    if frames != [] {
      var n := |frames| - 1;
      HearAllFollows(clean, req, h, frames[..n]);
      if frames[n].text != "" {
        FollowAllAppend(clean, h.text, Texts(frames[..n]), frames[n].text);
      } else {
        assert Texts(frames) == Texts(frames[..n]);
      }
    }
  }

  // ---- one round ----

  /** The reported emissions are the callbacks so far. */
  predicate Told(r: Result, trace: seq<Event>) {
    && r.emittedText == Concat(ContentOf(CallbacksOf(trace)))
    && r.emittedReasoning == Concat(ReasoningOf(CallbacksOf(trace)))
    && (CallbacksOf(trace) == [] <==> !Emitted(r))
  }

  /** The reply hands something on when nothing was handed on before. */
  predicate Speaks(clean: Cleaner, req: Request, r: Round) {
    r.Replied? && HearAll(clean, req, Heard("", "", []), r.frames).callbacks != []
  }

  /** What a round adds to the trace: a post, unless there was none, and its deltas. */
  lemma StepTrace(clean: Cleaner, req: Request, attempt: nat, p: Progress, r: Round) returns (callbacks: seq<Callback>)
    requires Told(p.result, p.trace)
    ensures var (q, v) := Step(clean, req, attempt, p, r);
            && q.trace == p.trace + (if r.TokensRefused? then [] else [Post]) + Deliveries(callbacks)
            && Told(q.result, q.trace)
            && Posts(q.trace) == Posts(p.trace) + (if r.TokensRefused? then 0 else 1)
            && (Emitted(q.result) <==> Emitted(p.result) || callbacks != [])
            && (v == Again(true) ==> !Emitted(q.result))
            && (v.Again? ==> !r.TokensRefused?)
    ensures !Emitted(p.result) ==> (callbacks != [] <==> Speaks(clean, req, r))
    ensures r.Replied? || callbacks == []
  {
    hide HearAll, LongestText, LongestReasoning, AnyContent, ContentOf, ReasoningOf, Concat, CallbacksOf, Posts, Deliveries;
    callbacks := [];
    NoDeliveries();
    if r.Replied? {
      var h := HearAll(clean, req, Heard(p.result.emittedText, p.result.emittedReasoning, []), r.frames);
      callbacks := h.callbacks;
      HearAllAdds(clean, req, p.result.emittedText, p.result.emittedReasoning, r.frames);
      CallbacksAppend(CallbacksOf(p.trace), callbacks);
      ConcatConcat(ContentOf(CallbacksOf(p.trace)), ContentOf(callbacks));
      ConcatConcat(ReasoningOf(CallbacksOf(p.trace)), ReasoningOf(callbacks));
    }
    TraceAppend(p.trace, Post);
    TraceDeliver(p.trace + [Post], callbacks);
    assert CallbacksOf(p.trace) + [] == CallbacksOf(p.trace);
    assert p.trace + [] + [] == p.trace;
    assert p.trace + [Post] + [] == p.trace + [Post];
  }

  lemma NoDeliveries()
    ensures Deliveries([]) == []
  {
  }

  // ---- whole runs ----

  /** One unfolding of the loop. */
  lemma RunOnce(clean: Cleaner, req: Request, env: Oracle, at: nat, attempt: nat, p: Progress)
    requires attempt < Attempts(req)
    ensures var (q, v) := Step(clean, req, attempt, p, env(at));
            Run(clean, req, env, at, attempt, p) ==
            match v
            case Stop(err) => Outcome(q.result, err, at + 1, q.trace)
            case Again(spent) => Run(clean, req, env, at + 1, if spent then attempt + 1 else attempt, q)
  {
    hide Step;
  }

  /** Whatever happens, the callbacks handed on are what the result reports as emitted. */
  lemma {:induction false} RunTold(clean: Cleaner, req: Request, env: Oracle, at: nat, attempt: nat, p: Progress)
    requires Told(p.result, p.trace)
    ensures var out := Run(clean, req, env, at, attempt, p);
            Told(out.result, out.trace) && p.trace <= out.trace && at <= out.next
    decreases if attempt < Attempts(req) then Attempts(req) - attempt else 0, if p.xsrfRetried then 0 else 1
  {
    hide Step, Told;
    if attempt < Attempts(req) {
      RunOnce(clean, req, env, at, attempt, p);
      StepProgress(clean, req, attempt, p, env(at));
      var callbacks := StepTrace(clean, req, attempt, p, env(at));
      var (q, v) := Step(clean, req, attempt, p, env(at));
      if v.Again? {
        RunTold(clean, req, env, at + 1, if v.spent then attempt + 1 else attempt, q);
      }
    }
  }

  /** The re-attempt that gives its attempt back happens at most once, so the loop posts
      at most once more than it has attempts. */
  lemma {:induction false} RunPosts(clean: Cleaner, req: Request, env: Oracle, at: nat, attempt: nat, p: Progress)
    requires Told(p.result, p.trace) && attempt <= Attempts(req)
    ensures Posts(Run(clean, req, env, at, attempt, p).trace) <=
            Posts(p.trace) + (Attempts(req) - attempt) + (if p.xsrfRetried || req.cookie == "" then 0 else 1)
    decreases Attempts(req) - attempt, if p.xsrfRetried then 0 else 1
  {
    hide Step, Told, Posts;
    if attempt < Attempts(req) {
      RunOnce(clean, req, env, at, attempt, p);
      StepProgress(clean, req, attempt, p, env(at));
      var callbacks := StepTrace(clean, req, attempt, p, env(at));
      var (q, v) := Step(clean, req, attempt, p, env(at));
      if v.Again? {
        RunPosts(clean, req, env, at + 1, if v.spent then attempt + 1 else attempt, q);
      }
    }
  }

  /** The reply asked for a fresh token although it had output, and another post followed. */
  predicate ResendsAt(clean: Cleaner, req: Request, env: Oracle, x: nat) {
    AsksForFreshXsrf(req, env(x)) && Speaks(clean, req, env(x)) && !env(x + 1).TokensRefused?
  }

  ghost predicate ResendsWithin(clean: Cleaner, req: Request, env: Oracle, from: nat, end: nat) {
    exists x | from <= x < end :: x + 1 < end && ResendsAt(clean, req, env, x)
  }

  lemma AfterOutput(trace: seq<Event>, more: seq<Event>, callbacks: seq<Callback>)
    requires NothingResent(trace) && more == trace + [Post] + Deliveries(callbacks)
    ensures NothingResent(more) <==> CallbacksOf(trace) == []
  {
    hide CallbacksOf;
    SilentTrace(trace);
    forall k | |trace| < k < |more| ensures more[k].Delivered? {
      assert more[k] == Deliveries(callbacks)[k - |trace| - 1];
    }
    forall k | 0 <= k < |trace| ensures more[k] == trace[k] && trace[k] in trace {
    }
    if CallbacksOf(trace) != [] {
      var e :| e in trace && e.Delivered?;
      var i :| 0 <= i < |trace| && trace[i] == e;
      assert more[i].Delivered? && more[|trace|].Post?;
    }
  }

  /** Once the one repetition is used up, output ends the loop: no more re-sends. */
  lemma {:induction false} RetriedRun(clean: Cleaner, req: Request, env: Oracle, at: nat, attempt: nat, p: Progress)
    requires Told(p.result, p.trace) && p.xsrfRetried && !Emitted(p.result) && NothingResent(p.trace)
    ensures var out := Run(clean, req, env, at, attempt, p);
            NothingResent(out.trace) && forall x | at <= x && x + 1 < out.next :: !Speaks(clean, req, env(x))
    decreases if attempt < Attempts(req) then Attempts(req) - attempt else 0
  {
    hide Step, Told, Posts, CallbacksOf, Speaks, NothingResent, Emitted;
    if attempt < Attempts(req) {
      RunOnce(clean, req, env, at, attempt, p);
      StepProgress(clean, req, attempt, p, env(at));
      var callbacks := StepTrace(clean, req, attempt, p, env(at));
      var (q, v) := Step(clean, req, attempt, p, env(at));
      SilentOf(p);
      NoDeliveries();
      if !env(at).TokensRefused? {
        AfterOutput(p.trace, q.trace, callbacks);
      } else {
        assert q.trace == p.trace + [] + Deliveries(callbacks) == p.trace;
      }
      if v.Again? {
        RetriedRun(clean, req, env, at + 1, attempt + 1, q);
      }
    }
  }

  lemma SilentOf(p: Progress)
    requires Told(p.result, p.trace)
    ensures CallbacksOf(p.trace) == [] <==> !Emitted(p.result)
  {
  }

  /** A run after a re-attempt whose reply had output: it re-sends unless the very next
      thing, resolving the tokens, fails. */
  lemma SpokenRun(clean: Cleaner, req: Request, env: Oracle, at: nat, attempt: nat, p: Progress)
    requires Told(p.result, p.trace) && p.xsrfRetried && Emitted(p.result) && NothingResent(p.trace)
    requires attempt < Attempts(req)
    ensures var out := Run(clean, req, env, at, attempt, p);
            && (NothingResent(out.trace) <==> env(at).TokensRefused?)
            && at < out.next && (env(at).TokensRefused? ==> out.next == at + 1)
  {
    hide Step, Told, Posts, CallbacksOf, NothingResent, Emitted;
    RunOnce(clean, req, env, at, attempt, p);
    StepProgress(clean, req, attempt, p, env(at));
    var callbacks := StepTrace(clean, req, attempt, p, env(at));
    var (q, v) := Step(clean, req, attempt, p, env(at));
    SilentOf(p);
    NoDeliveries();
    if env(at).TokensRefused? {
      assert q.trace == p.trace + [] + Deliveries(callbacks) == p.trace;
    } else {
      AfterOutput(p.trace, q.trace, callbacks);
      assert v.Stop?;
    }
  }

  /** The loop posts again after output in exactly one situation: a 400 reply that asks for
      a fresh XSRF token although its frames had output, followed by another post. */
  lemma {:induction false} RunResends(clean: Cleaner, req: Request, env: Oracle, at: nat, attempt: nat, p: Progress)
    requires Told(p.result, p.trace) && !p.xsrfRetried && !Emitted(p.result) && NothingResent(p.trace)
    ensures var out := Run(clean, req, env, at, attempt, p);
            NothingResent(out.trace) <==> !ResendsWithin(clean, req, env, at, out.next)
    decreases if attempt < Attempts(req) then Attempts(req) - attempt else 0
  {
    hide Step, Told, Posts, CallbacksOf, Speaks, NothingResent, Emitted, AsksForFreshXsrf;
    if attempt < Attempts(req) {
      RunOnce(clean, req, env, at, attempt, p);
      StepProgress(clean, req, attempt, p, env(at));
      var callbacks := StepTrace(clean, req, attempt, p, env(at));
      var (q, v) := Step(clean, req, attempt, p, env(at));
      var out := Run(clean, req, env, at, attempt, p);
      SilentOf(p);
      NoDeliveries();
      if env(at).TokensRefused? {
        assert q.trace == p.trace + [] + Deliveries(callbacks) == p.trace;
      } else {
        AfterOutput(p.trace, q.trace, callbacks);
      }
      if v == Again(true) {
        SpentKeepsFlag(clean, req, attempt, p, env(at));
        RunResends(clean, req, env, at + 1, attempt + 1, q);
        RunTold(clean, req, env, at + 1, attempt + 1, q);
      } else if v == Again(false) {
        RunTold(clean, req, env, at + 1, attempt, q);
        if Emitted(q.result) {
          SpokenRun(clean, req, env, at + 1, attempt, q);
          assert ResendsAt(clean, req, env, at) <==> !env(at + 1).TokensRefused?;
        } else {
          RetriedRun(clean, req, env, at + 1, attempt, q);
        }
      }
    }
  }

  lemma SpentKeepsFlag(clean: Cleaner, req: Request, attempt: nat, p: Progress, r: Round)
    requires Step(clean, req, attempt, p, r).1 == Again(true)
    ensures Step(clean, req, attempt, p, r).0.xsrfRetried == p.xsrfRetried
  {
    hide HearAll, LongestText, LongestReasoning, AnyContent, Deliveries;
  }

  /** A client that succeeds ends on a complete, non-empty 200 reply, whose cleaned text is
      the result; and with a content callback nothing remains to be shown after it. */
  lemma {:induction false} RunSucceeds(clean: Cleaner, req: Request, env: Oracle, at: nat, attempt: nat, p: Progress)
    requires clean("") == "" && Run(clean, req, env, at, attempt, p).err.None?
    ensures var out := Run(clean, req, env, at, attempt, p);
            && at < out.next && env(out.next - 1).Replied?
            && var r := env(out.next - 1);
               && r.status == 200 && r.scanErr.None? && AnyContent(r.frames)
               && out.result.text == clean(LongestText(r.frames)) != ""
               && out.result.reasoning == clean(LongestReasoning(r.frames))
               && (req.onContent ==> RemainingText(out.result.text, out.result.emittedText) == "")
    decreases if attempt < Attempts(req) then Attempts(req) - attempt else 0, if p.xsrfRetried then 0 else 1
  {
    hide Step, HearAll, LongestText, LongestReasoning, AnyContent, Deliveries, TrimSpace;
    RunOnce(clean, req, env, at, attempt, p);
    StepProgress(clean, req, attempt, p, env(at));
    var (q, v) := Step(clean, req, attempt, p, env(at));
    match v
    case Again(spent) => RunSucceeds(clean, req, env, at + 1, if spent then attempt + 1 else attempt, q);
    case Stop(_) => StepSucceeds(clean, req, attempt, p, env(at));
  }

  lemma StepSucceeds(clean: Cleaner, req: Request, attempt: nat, p: Progress, r: Round)
    requires clean("") == "" && Step(clean, req, attempt, p, r).1 == Stop(None)
    ensures var q := Step(clean, req, attempt, p, r).0;
            && r.Replied? && r.status == 200 && r.scanErr.None? && AnyContent(r.frames)
            && q.result.text == clean(LongestText(r.frames)) != ""
            && q.result.reasoning == clean(LongestReasoning(r.frames))
            && (req.onContent ==> RemainingText(q.result.text, q.result.emittedText) == "")
  {
    hide HearAll, LongestText, LongestReasoning, AnyContent, Deliveries, Follow;
    if r.Replied? {
      HearAllFollows(clean, req, Heard(p.result.emittedText, p.result.emittedReasoning, []), r.frames);
      PlainStreamShowsFinal(clean, p.result.emittedText, r.frames);
    }
  }

  lemma StepStreams(clean: Cleaner, req: Request, attempt: nat, p: Progress, r: Round)
    requires clean("") == "" && req.onContent && p.result.emittedText == "" && r.Replied? && Cumulative(clean, r.frames)
    ensures var (q, v) := Step(clean, req, attempt, p, r);
            v == Stop(None) ==> q.result.emittedText == q.result.text
  {
    hide HearAll, LongestText, LongestReasoning, AnyContent, Deliveries, FollowAll, Cumulative;
    HearAllFollows(clean, req, Heard(p.result.emittedText, p.result.emittedReasoning, []), r.frames);
    CumulativeStreamIsFinal(clean, "", r.frames);
  }

  lemma RefusedEnds(clean: Cleaner, req: Request, env: Oracle, at: nat, attempt: nat, p: Progress)
    requires Run(clean, req, env, at, attempt, p).err.None?
    ensures !env(at).TokensRefused?
  {
    hide HearAll, LongestText, LongestReasoning, AnyContent, Deliveries;
  }

  /** If the reply that is answered with is cumulative and nothing was re-sent, what was
      streamed is the answer, whatever failed and was tried again before. */
  lemma {:induction false} RunStreams(clean: Cleaner, req: Request, env: Oracle, at: nat, attempt: nat, p: Progress)
    requires clean("") == "" && req.onContent && Told(p.result, p.trace) && !Emitted(p.result)
    requires var out := Run(clean, req, env, at, attempt, p);
             out.err.None? && !ResendsWithin(clean, req, env, at, out.next)
    ensures var out := Run(clean, req, env, at, attempt, p);
            && at < out.next && env(out.next - 1).Replied?
            && (Cumulative(clean, env(out.next - 1).frames) ==> out.result.emittedText == out.result.text)
    decreases if attempt < Attempts(req) then Attempts(req) - attempt else 0, if p.xsrfRetried then 0 else 1
  {
    hide Step, Told, Speaks, Cumulative, AsksForFreshXsrf;
    RunOnce(clean, req, env, at, attempt, p);
    StepProgress(clean, req, attempt, p, env(at));
    var callbacks := StepTrace(clean, req, attempt, p, env(at));
    RunSucceeds(clean, req, env, at, attempt, p);
    var (q, v) := Step(clean, req, attempt, p, env(at));
    match v
    case Stop(_) =>
      if Cumulative(clean, env(at).frames) {
        StepStreams(clean, req, attempt, p, env(at));
      }
    case Again(spent) =>
      var next := if spent then attempt + 1 else attempt;
      RunSucceeds(clean, req, env, at + 1, next, q);
      RefusedEnds(clean, req, env, at + 1, next, q);
      assert !ResendsAt(clean, req, env, at);
      RunStreams(clean, req, env, at + 1, next, q);
  }

  // ---- the public statements ----

  lemma StartIsTold()
    ensures Told(START.result, START.trace) && NothingResent(START.trace) && !Emitted(START.result) && Posts([]) == 0
  {
  }

  /** `Generate` posts at most once per attempt, plus once if there is a cookie whose XSRF
      token can be refreshed. */
  lemma GenerateSendBound(clean: Cleaner, req: Request, env: Oracle, at: nat)
    ensures Posts(Generated(clean, req, env, at).trace) <= Attempts(req) + (if req.cookie == "" then 0 else 1)
  {
    hide Run, Posts, TrimSpace;
    StartIsTold();
    RunPosts(clean, req, env, at, 0, START);
  }

  /** The callback stream of `Generate` adds up to the emitted texts it reports. */
  lemma GenerateReportsCallbacks(clean: Cleaner, req: Request, env: Oracle, at: nat)
    ensures var out := Generated(clean, req, env, at);
            Told(out.result, out.trace) && at <= out.next
  {
    hide Run, Told, TrimSpace;
    StartIsTold();
    RunTold(clean, req, env, at, 0, START);
  }

  /** `Generate` never posts again after output unless a 400 reply with output asks for a
      fresh XSRF token. */
  lemma GenerateResendsExactly(clean: Cleaner, req: Request, env: Oracle, at: nat)
    ensures var out := Generated(clean, req, env, at);
            NothingResent(out.trace) <==> !ResendsWithin(clean, req, env, at, out.next)
  {
    hide Run, Told, TrimSpace, Emitted;
    StartIsTold();
    RunResends(clean, req, env, at, 0, START);
  }

  /** An answered run streams its answer if the reply it is taken from is cumulative and
      nothing was re-sent after output. */
  lemma GenerateStreams(clean: Cleaner, req: Request, env: Oracle, at: nat)
    requires clean("") == "" && req.onContent
    ensures var out := Generated(clean, req, env, at);
            out.err.None? && !ResendsWithin(clean, req, env, at, out.next) ==>
              && at < out.next && env(out.next - 1).Replied?
              && (Cumulative(clean, env(out.next - 1).frames) ==> out.result.emittedText == out.result.text)
  {
    hide Run, Told, TrimSpace, Emitted, ResendsWithin;
    StartIsTold();
    var out := Generated(clean, req, env, at);
    if out.err.None? && !ResendsWithin(clean, req, env, at, out.next) {
      RunStreams(clean, req, env, at, 0, START);
    }
  }

  /** That situation does arise: whatever follows, a first reply of that kind makes the
      client post again after output. */
  lemma FreshXsrfResends(clean: Cleaner, req: Request, env: Oracle, at: nat)
    requires TrimSpace(req.prompt) != "" && req.modelComplete && ResendsAt(clean, req, env, at)
    ensures !NothingResent(Generated(clean, req, env, at).trace)
  {
    hide Step, Told, NothingResent, Emitted, AsksForFreshXsrf, Speaks, TrimSpace;
    StartIsTold();
    RunOnce(clean, req, env, at, 0, START);
    var callbacks := StepTrace(clean, req, 0, START, env(at));
    var (q, v) := Step(clean, req, 0, START, env(at));
    FreshXsrfStep(clean, req, 0, START, env(at));
    assert START.trace == [];
    SilentTrace(START.trace);
    AfterOutput(START.trace, q.trace, callbacks);
    SpokenRun(clean, req, env, at + 1, 0, q);
  }

  lemma FreshXsrfStep(clean: Cleaner, req: Request, attempt: nat, p: Progress, r: Round)
    requires AsksForFreshXsrf(req, r) && !p.xsrfRetried
    ensures Step(clean, req, attempt, p, r).1 == Again(false) && Step(clean, req, attempt, p, r).0.xsrfRetried
  {
    hide HearAll, LongestText, LongestReasoning, AnyContent, Deliveries;
  }

  /** A reply without output that asks for a fresh XSRF token of any request that has one. */
  predicate StaleReply(clean: Cleaner, req: Request, r: Round) {
    && r.Replied? && r.scanErr.None? && r.status == 400 && r.mentionsXsrf && r.wait.None?
    && !Speaks(clean, req, r)
  }

  /** The error of such a reply. */
  ghost predicate IsStaleError(env: Oracle, err: Option<Error>) {
    err.Some? && exists k :: env(k).Replied? && err.value == Error(400, env(k).message)
  }

  /** The bound on posts is met when upstream never accepts a token; the run then ends
      without output, and with the error of one of those replies. */
  lemma {:induction false} StaleTokensMeetBound(clean: Cleaner, req: Request, env: Oracle, at: nat, attempt: nat,
                                                p: Progress)
    requires Told(p.result, p.trace) && !Emitted(p.result) && attempt <= Attempts(req)
    requires forall k :: StaleReply(clean, req, env(k))
    requires attempt == Attempts(req) ==> p.lastErr.Some? && IsStaleError(env, p.lastErr)
    ensures var out := Run(clean, req, env, at, attempt, p);
            && Posts(out.trace) == Posts(p.trace) + (Attempts(req) - attempt)
                                   + (if p.xsrfRetried || attempt == Attempts(req) || req.cookie == "" then 0 else 1)
            && !Emitted(out.result) && IsStaleError(env, out.err)
    decreases Attempts(req) - attempt, if p.xsrfRetried then 0 else 1
  {
    hide Step, Told, Posts, Speaks, Emitted, IsStaleError;
    if attempt < Attempts(req) {
      RunOnce(clean, req, env, at, attempt, p);
      StepProgress(clean, req, attempt, p, env(at));
      assert StaleReply(clean, req, env(at));
      var callbacks := StepTrace(clean, req, attempt, p, env(at));
      var (q, v) := Step(clean, req, attempt, p, env(at));
      StaleStep(clean, req, attempt, p, env(at));
      StaleErrorOf(env, at);
      StaleTokensMeetBound(clean, req, env, at + 1, if v.spent then attempt + 1 else attempt, q);
    }
  }

  lemma StaleErrorOf(env: Oracle, at: nat)
    ensures env(at).Replied? ==> IsStaleError(env, Some(Error(400, env(at).message)))
  {
  }

  lemma StaleStep(clean: Cleaner, req: Request, attempt: nat, p: Progress, r: Round)
    requires StaleReply(clean, req, r) && !Emitted(Step(clean, req, attempt, p, r).0.result)
    ensures var (q, v) := Step(clean, req, attempt, p, r);
            if req.cookie != "" && !p.xsrfRetried then v == Again(false) && q.xsrfRetried
            else v == Again(true) && q.xsrfRetried == p.xsrfRetried && q.lastErr == Some(Error(400, r.message))
  {
    hide HearAll, LongestText, LongestReasoning, AnyContent, Deliveries;
  }

  /** What is heard of a reply does not depend on the cookie. */
  lemma {:induction false} HearsAlike(clean: Cleaner, req: Request, cookie: string, h: Heard, frames: seq<Frame>)
    ensures HearAll(clean, req.(cookie := cookie), h, frames) == HearAll(clean, req, h, frames)
  {
    if frames != [] {
      HearsAlike(clean, req, cookie, h, frames[..|frames| - 1]);
    }
  }
}
