/** From the upstream frames to the screen: one gateway request, across failover, retries
    and fallback, as a streaming client sees it and as a client that waits for the answer. */
module EndToEnd {
  import opened GoStrings
  import opened Deltas
  import C = Client
  import L = ClientLaws
  import opened Store
  import opened ToolGate
  import opened ToolBlocks
  import ToolCalls
  import ChatStream
  import Agreement = ChatAgreement
  import Responses
  import Reader = ResponseReader
  import opened Gateway
  import opened GatewayLaws

  // ---- the client's result ----

  /** The emitted text is the final text or has left it for good. */
  predicate Settles(r: C.Result) {
    r.emittedText <= r.text ==> r.emittedText == r.text
  }

  lemma RunSettles(clean: Cleaner, req: C.Request, env: C.Oracle, at: nat)
    requires clean("") == "" && req.onContent
    ensures var out := C.Generated(clean, req, env, at);
            out.err.None? ==> Settles(out.result)
  {
    hide C.Run, TrimSpace;
    var out := C.Generated(clean, req, env, at);
    if out.err.None? {
      L.RunSucceeds(clean, req, env, at, 0, C.START);
    }
  }

  // ---- the gateway's result ----

  /** The deltas of visible text that a request hands on. */
  ghost function Streamed(w: World, cfg: Settings, input: Input, db: Db): seq<Callback> {
    L.CallbacksOf(FullTrace(Generated(w, cfg, input, db).p.tries))
  }

  lemma RequestSettles(w: World, cfg: Settings, input: Input, db: Db)
    requires w.clean("") == "" && input.onContent
    ensures var e := Generated(w, cfg, input, db);
            e.err.None? ==> Settles(e.p.result) && e.p.result.emittedText == Concat(ContentOf(Streamed(w, cfg, input, db)))
  {
    hide Gateway.Generated, C.Generated, Settles, ReportedWell, LeastRecentlyUsed, RoutedWell, HandsOver, FullTrace;
    var e := Gateway.Generated(w, cfg, input, db);
    RequestIsComplete(w, cfg, input, db);
    RequestReportsCallbacks(w, cfg, input, db);
    if e.err.None? {
      var t := e.p.tries[|e.p.tries| - 1];
      LogEntry(w, cfg, input, e.p.tries, |e.p.tries| - 1);
      RunSettles(w.clean, t.request, w.env, t.at);
    }
  }

  /** Failover, retries and the last resort do not show: if the reply that the answer comes
      from is cumulative, as received and after cleaning, and its client run re-sent nothing
      after output, the deltas of the whole request add up to the answer. */
  lemma CumulativeAnswerIsStreamed(w: World, cfg: Settings, input: Input, db: Db)
    requires w.clean("") == "" && input.onContent
    ensures var e := Generated(w, cfg, input, db);
            e.err.None? ==>
              && e.p.tries != []
              && var t := e.p.tries[|e.p.tries| - 1];
              !ResendsDuring(w, t) ==>
                && t.run.next > 0 && w.env(t.run.next - 1).Replied?
                && (Cumulative(w.clean, w.env(t.run.next - 1).frames) ==>
                      Concat(ContentOf(Streamed(w, cfg, input, db))) == e.p.result.text)
  {
    hide Gateway.Generated, C.Generated, Settles, ReportedWell, LeastRecentlyUsed, RoutedWell, HandsOver, FullTrace, Streamed;
    var e := Gateway.Generated(w, cfg, input, db);
    RequestIsComplete(w, cfg, input, db);
    RequestSettles(w, cfg, input, db);
    if e.err.None? {
      var t := e.p.tries[|e.p.tries| - 1];
      LogEntry(w, cfg, input, e.p.tries, |e.p.tries| - 1);
      L.GenerateStreams(w.clean, t.request, w.env, t.at);
    }
  }

  // ---- the three clients ----

  /** Without tools a streaming client is shown nothing after the last delta, so it ends up
      with the answer of a waiting one exactly when the deltas it got are a prefix of that. */
  lemma PlainChatShowsAnswer(w: World, cfg: Settings, input: Input, db: Db)
    requires w.clean("") == "" && input.onContent
    ensures var e := Generated(w, cfg, input, db);
            var shown := ChatStream.Visible(false, Streamed(w, cfg, input, db));
            e.err.None? ==>
              && RemainingText(e.p.result.text, shown) == ""
              && (shown == e.p.result.text <==> shown <= e.p.result.text)
  {
    hide Gateway.Generated, Streamed;
    RequestSettles(w, cfg, input, db);
  }

  /** What a streaming client with tools sees of an answer, and what it was not shown until
      upstream was done. */
  ghost predicate SeesCleaned(shown: string, answer: string) {
    var seen := Agreement.Seen(shown, ToolCalls.Cleaned(answer));
    && shown <= Strip(TOOL_FENCE, answer)
    && var held := Strip(TOOL_FENCE, answer)[|shown|..];
    (TrimSpace(seen) == ToolCalls.Cleaned(answer) <==> !(Agreement.StartsBlank(shown) && held != ""))
  }

  /** With tools, when the deltas are a prefix of the answer and every closed fence of the
      answer encloses a good block, a streaming client sees the cleaned answer, up to white
      space at its ends, unless it was shown leading white space and something was held
      back at the end. */
  lemma ToolChatShowsAnswer(w: World, cfg: Settings, input: Input, db: Db)
    requires w.clean("") == "" && input.onContent
    ensures var e := Generated(w, cfg, input, db);
            var callbacks := Streamed(w, cfg, input, db);
            e.err.None? && Concat(ContentOf(callbacks)) <= e.p.result.text && WellFormed(TOOL_FENCE, e.p.result.text)
            ==> SeesCleaned(ChatStream.Visible(true, callbacks), e.p.result.text)
  {
    hide Gateway.Generated, Streamed, WellFormed, Drain, Strip, TrimSpace, ToolCalls.Cleaned, ChatStream.Visible, Withheld;
    RequestSettles(w, cfg, input, db);
    var e := Gateway.Generated(w, cfg, input, db);
    var callbacks := Streamed(w, cfg, input, db);
    if e.err.None? && Concat(ContentOf(callbacks)) <= e.p.result.text && WellFormed(TOOL_FENCE, e.p.result.text) {
      Agreement.StreamedIsCleaned(callbacks, e.p.result.text);
    }
  }

  /** A client of the Responses API without tools hears the completed message's text in its
      deltas exactly when they are a prefix of it. */
  lemma ResponsesShowAnswer(w: World, cfg: Settings, input: Input, db: Db, ids: Responses.Ids)
    requires w.clean("") == "" && input.onContent
    ensures var e := Generated(w, cfg, input, db);
            var answer := e.p.result.text;
            var deltas := ContentOf(Streamed(w, cfg, input, db));
            var bodies := Responses.Bodies(false, ids, deltas, ChatStream.Answer(answer));
            var r := Reader.ReadAll(Reader.NEW_READER, Responses.Numbered(bodies));
            e.err.None? ==>
              && r.phase == Reader.Over(true) && |r.received| == 1
              && r.received[0].item == Responses.Message(ids(0), true, [answer])
              && (r.received[0].heard == answer <==> Concat(deltas) == answer)
  {
    hide Gateway.Generated, Streamed, Responses.Bodies, Reader.ReadAll;
    RequestSettles(w, cfg, input, db);
    var answer := Gateway.Generated(w, cfg, input, db).p.result.text;
    var deltas := ContentOf(Streamed(w, cfg, input, db));
    Reader.HearsCompletedText(ids, deltas, answer);
    Reader.StreamIsAccepted(false, ids, deltas, ChatStream.Answer(answer));
  }
}
