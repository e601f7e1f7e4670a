/** One upstream conversation: the retry loop of internal/gemini/client.go.

    Upstream, the token page and the clock are an oracle: `env(k)` says how the k-th round
    of the loop goes, so a statement for all oracles is one for all upstream behaviours. */
module Client {
  import opened GoStrings
  import opened Deltas

  /** An error; `status` is the HTTP status of an upstream refusal and 0 otherwise. */
  datatype Error = Error(status: int, message: string)

  const NO_CONTENT := Error(0, "Gemini Web upstream returned no content frame")
  const EMPTY_PROMPT := Error(0, "prompt is empty")
  const INVALID_MODEL := Error(0, "model configuration is incomplete")

  /** A round: resolve the tokens, post the prompt, read the reply.  `wait` is the error
      with which a wait before the next attempt would end, if the caller has given up. */
  datatype Round =
    | TokensRefused(err: Error)
    | SendFailed(err: Error, wait: Option<Error>)
    | Replied(status: int, frames: seq<Frame>, scanErr: Option<Error>, mentionsXsrf: bool, message: string,
              cookies: seq<string>, wait: Option<Error>)

  type Oracle = nat -> Round

  datatype Request = Request(prompt: string, modelComplete: bool, cookie: string, retryAttempts: int,
                             onContent: bool, onReasoning: bool)

  datatype Result = Result(text: string, reasoning: string, emittedText: string, emittedReasoning: string,
                           setCookies: seq<string>)

  const NO_RESULT := Result("", "", "", "", [])

  /** What a run does to the outside: it posts the prompt and hands on deltas. */
  datatype Event = Post | Delivered(callback: Callback)

  datatype Outcome = Outcome(result: Result, err: Option<Error>, next: nat, trace: seq<Event>)

  // ---- reading one reply ----

  /** What has been emitted, and the callbacks of this reply so far. */
  datatype Heard = Heard(text: string, reasoning: string, callbacks: seq<Callback>)

  /** One parsed line: its reasoning is handed on before its text. */
  function Hear(clean: Cleaner, req: Request, h: Heard, f: Frame): Heard {
    var reasoning := if f.reasoning != "" && req.onReasoning then Follow(clean, h.reasoning, f.reasoning) else h.reasoning;
    var text := if f.text != "" && req.onContent then Follow(clean, h.text, f.text) else h.text;
    Heard(text, reasoning,
          h.callbacks
          + (if reasoning != h.reasoning then [Reasoning(reasoning[|h.reasoning|..])] else [])
          + (if text != h.text then [Content(text[|h.text|..])] else []))
  }

  function HearAll(clean: Cleaner, req: Request, h: Heard, frames: seq<Frame>): Heard {
    if frames == [] then h else Hear(clean, req, HearAll(clean, req, h, frames[..|frames| - 1]), frames[|frames| - 1])
  }

  // ---- one round ----

  datatype Progress = Progress(result: Result, lastErr: Option<Error>, xsrfRetried: bool, trace: seq<Event>)

  function Emitted(r: Result): bool {
    r.emittedText != "" || r.emittedReasoning != ""
  }

  function Deliveries(callbacks: seq<Callback>): seq<Event> {
    seq(|callbacks|, i requires 0 <= i < |callbacks| => Delivered(callbacks[i]))
  }

  function Attempts(req: Request): nat {
    if req.retryAttempts < 1 then 1 else req.retryAttempts
  }

  /** After a round the loop stops, with or without an error, or goes on; a round is spent
      unless it is the one that may be repeated with a fresh XSRF token. */
  datatype Verdict = Stop(err: Option<Error>) | Again(spent: bool)

  /** A failed attempt ends the loop once anything was emitted or the caller gave up. */
  function Retry(req: Request, attempt: nat, p: Progress, err: Error, wait: Option<Error>): (Progress, Verdict) {
    var q := p.(lastErr := Some(err));
    if Emitted(p.result) then (q, Stop(Some(err)))
    else if attempt + 1 < Attempts(req) && wait.Some? then (q, Stop(wait))
    else (q, Again(true))
  }

  /** The reply after it has been read. */
  function Read(clean: Cleaner, req: Request, p: Progress, r: Round): Progress
    requires r.Replied?
  {
    var h := HearAll(clean, req, Heard(p.result.emittedText, p.result.emittedReasoning, []), r.frames);
    p.(result := Result(clean(LongestText(r.frames)), clean(LongestReasoning(r.frames)), h.text, h.reasoning,
                        p.result.setCookies + r.cookies),
       trace := p.trace + [Post] + Deliveries(h.callbacks))
  }

  predicate AsksForFreshXsrf(req: Request, r: Round) {
    r.Replied? && r.scanErr.None? && r.status == 400 && r.mentionsXsrf && req.cookie != ""
  }

  function Step(clean: Cleaner, req: Request, attempt: nat, p: Progress, r: Round): (Progress, Verdict) {
    match r
    case TokensRefused(err) => (p, Stop(Some(err)))
    case SendFailed(err, wait) => Retry(req, attempt, p.(trace := p.trace + [Post]), err, wait)
    case Replied(status, frames, scanErr, _, message, _, wait) =>
      var q := Read(clean, req, p, r);
      if scanErr.Some? then Retry(req, attempt, q, scanErr.value, None)
      else if status != 200 then
        if AsksForFreshXsrf(req, r) && !p.xsrfRetried then (q.(xsrfRetried := true), Again(false))
        else Retry(req, attempt, q, Error(status, message), wait)
      else if !AnyContent(frames) || q.result.text == "" then Retry(req, attempt, q, NO_CONTENT, wait)
      else (q, Stop(None))
  }

  // ---- the loop ----

  function Run(clean: Cleaner, req: Request, env: Oracle, at: nat, attempt: nat, p: Progress): Outcome
    decreases if attempt < Attempts(req) then Attempts(req) - attempt else 0, if p.xsrfRetried then 0 else 1
  {
    if attempt >= Attempts(req) then
      Outcome(p.result, Some(if p.lastErr.Some? then p.lastErr.value else NO_CONTENT), at, p.trace)
    else
      var (q, v) := Step(clean, req, attempt, p, env(at));
      match v
      case Stop(err) => Outcome(q.result, err, at + 1, q.trace)
      case Again(spent) => Run(clean, req, env, at + 1, if spent then attempt + 1 else attempt, q)
  }

  const START := Progress(NO_RESULT, None, false, [])

  function Generated(clean: Cleaner, req: Request, env: Oracle, at: nat): Outcome {
    if TrimSpace(req.prompt) == "" then Outcome(NO_RESULT, Some(EMPTY_PROMPT), at, [])
    else if !req.modelComplete then Outcome(NO_RESULT, Some(INVALID_MODEL), at, [])
    else Run(clean, req, env, at, 0, START)
  }

  /** The callback that `Generate` passes to `scanFrames`. */
  method OnFrame(clean: Cleaner, req: Request, frame: Frame, texts: DeltaTracker, reasonings: DeltaTracker,
                 callbacks: seq<Callback>) returns (more: seq<Callback>)
    requires texts != reasonings && texts.clean == clean && reasonings.clean == clean
    modifies texts, reasonings
    ensures Heard(texts.emitted, reasonings.emitted, more)
         == Hear(clean, req, Heard(old(texts.emitted), old(reasonings.emitted), callbacks), frame)
  {
    hide Follow;
    more := callbacks;
    if frame.reasoning != "" && req.onReasoning {
      var delta := reasonings.Push(frame.reasoning);
      assert delta == reasonings.emitted[|old(reasonings.emitted)|..];
      if delta != "" {
        more := more + [Reasoning(delta)];
      }
    }
    if frame.text != "" && req.onContent {
      var delta := texts.Push(frame.text);
      assert delta == texts.emitted[|old(texts.emitted)|..];
      if delta != "" {
        more := more + [Content(delta)];
      }
    }
  }

  method ScanFrames(clean: Cleaner, req: Request, frames: seq<Frame>, texts: DeltaTracker, reasonings: DeltaTracker)
    returns (text: string, reasoning: string, contentFrameSeen: bool, callbacks: seq<Callback>)
    requires texts != reasonings && texts.clean == clean && reasonings.clean == clean
    modifies texts, reasonings
    ensures text == clean(LongestText(frames)) && reasoning == clean(LongestReasoning(frames))
    ensures contentFrameSeen == AnyContent(frames)
    ensures Heard(texts.emitted, reasonings.emitted, callbacks)
         == HearAll(clean, req, Heard(old(texts.emitted), old(reasonings.emitted), []), frames)
  {
    hide ByteLen, Hear;
    text, reasoning, contentFrameSeen, callbacks := "", "", false, [];
    for i := 0 to |frames|
      invariant text == LongestText(frames[..i]) && reasoning == LongestReasoning(frames[..i])
      invariant contentFrameSeen == exists k | 0 <= k < i :: frames[k].HasContent()
      invariant Heard(texts.emitted, reasonings.emitted, callbacks)
             == HearAll(clean, req, Heard(old(texts.emitted), old(reasonings.emitted), []), frames[..i])
    {
      assert frames[..i + 1][..i] == frames[..i];
      var frame := frames[i];
      if frame.text != "" || frame.reasoning != "" {
        contentFrameSeen := true;
        if ByteLen(frame.text) >= ByteLen(text) {
          text := frame.text;
        }
        if ByteLen(frame.reasoning) >= ByteLen(reasoning) {
          reasoning := frame.reasoning;
        }
        callbacks := OnFrame(clean, req, frame, texts, reasonings, callbacks);
      } else {
        SilentFrame(clean, req, Heard(texts.emitted, reasonings.emitted, callbacks), frame);
      }
    }
    assert frames[..|frames|] == frames;
    text, reasoning := clean(text), clean(reasoning);
  }

  lemma SilentFrame(clean: Cleaner, req: Request, h: Heard, f: Frame)
    requires f.text == "" && f.reasoning == ""
    ensures Hear(clean, req, h, f) == h
  {
    assert h.callbacks + [] + [] == h.callbacks;
  }

  /** One pass through the body of the retry loop, with its trackers. */
  method Attempt(clean: Cleaner, req: Request, attempt: nat, p: Progress, round: Round,
                 texts: DeltaTracker, reasonings: DeltaTracker) returns (q: Progress, v: Verdict)
    requires texts != reasonings && texts.clean == clean && reasonings.clean == clean
    requires texts.emitted == p.result.emittedText && reasonings.emitted == p.result.emittedReasoning
    modifies texts, reasonings
    ensures texts.emitted == q.result.emittedText && reasonings.emitted == q.result.emittedReasoning
    ensures (q, v) == Step(clean, req, attempt, p, round)
  {
    hide HearAll, LongestText, LongestReasoning, AnyContent, Deliveries;
    q := p;
    if round.TokensRefused? {
      return q, Stop(Some(round.err));
    }
    q := q.(trace := q.trace + [Post]);
    if round.SendFailed? {
      q := q.(lastErr := Some(round.err));
      if texts.emitted != "" || reasonings.emitted != "" {
        return q, Stop(q.lastErr);
      }
      if attempt + 1 < Attempts(req) && round.wait.Some? {
        return q, Stop(round.wait);
      }
      return q, Again(true);
    }
    var text, reasoning, contentFrameSeen, callbacks := ScanFrames(clean, req, round.frames, texts, reasonings);
    q := q.(trace := q.trace + Deliveries(callbacks),
            result := Result(text, reasoning, texts.emitted, reasonings.emitted, q.result.setCookies + round.cookies));
    var wait: Option<Error> := None;
    if round.scanErr.Some? {
      q := q.(lastErr := round.scanErr);
    } else if round.status != 200 {
      if round.status == 400 && round.mentionsXsrf && req.cookie != "" && !q.xsrfRetried {
        return q.(xsrfRetried := true), Again(false);
      }
      q := q.(lastErr := Some(Error(round.status, round.message)));
      wait := round.wait;
    } else if !contentFrameSeen || text == "" {
      q := q.(lastErr := Some(NO_CONTENT));
      wait := round.wait;
    } else {
      return q, Stop(None);
    }
    if Emitted(q.result) {
      return q, Stop(q.lastErr);
    }
    if attempt + 1 < Attempts(req) && wait.Some? {
      return q, Stop(wait);
    }
    return q, Again(true);
  }

  method Generate(clean: Cleaner, req: Request, env: Oracle, at: nat) returns (outcome: Outcome)
    ensures outcome == Generated(clean, req, env, at)
  {
    hide Step;
    if TrimSpace(req.prompt) == "" {
      return Outcome(NO_RESULT, Some(EMPTY_PROMPT), at, []);
    }
    if !req.modelComplete {
      return Outcome(NO_RESULT, Some(INVALID_MODEL), at, []);
    }
    var texts := new DeltaTracker(clean);
    var reasonings := new DeltaTracker(clean);
    var p := START;
    var k, attempt := at, 0;
    while attempt < Attempts(req)
      invariant fresh(texts) && fresh(reasonings) && texts != reasonings && texts.clean == reasonings.clean == clean
      invariant texts.emitted == p.result.emittedText && reasonings.emitted == p.result.emittedReasoning
      invariant Run(clean, req, env, at, 0, START) == Run(clean, req, env, k, attempt, p)
      decreases Attempts(req) - attempt, !p.xsrfRetried
    {
      var q, v := Attempt(clean, req, attempt, p, env(k), texts, reasonings);
      StepProgress(clean, req, attempt, p, env(k));
      p, k := q, k + 1;
      if v.Stop? {
        return Outcome(p.result, v.err, k, p.trace);
      }
      if v.spent {
        attempt := attempt + 1;
      }
    }
    return Outcome(p.result, Some(if p.lastErr.Some? then p.lastErr.value else NO_CONTENT), k, p.trace);
  }

  /** A round that is not spent uses up the one repetition. */
  lemma StepProgress(clean: Cleaner, req: Request, attempt: nat, p: Progress, r: Round)
    ensures var (q, v) := Step(clean, req, attempt, p, r);
            && (p.xsrfRetried ==> q.xsrfRetried)
            && (v.Again? && !v.spent ==> !p.xsrfRetried && q.xsrfRetried && AsksForFreshXsrf(req, r))
  {
    hide HearAll, LongestText, LongestReasoning, AnyContent, Deliveries;
  }
}
