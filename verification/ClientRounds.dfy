/** What the retry loop does, told by the rounds alone: which round ends it, with which
    error, and how often it has posted by then. */
module ClientRounds {
  import opened GoStrings
  import opened Deltas
  import opened Client
  import opened ClientLaws

  /** `RetryAttempts` after the defaults have been filled in. */
  function Limit(req: Request): nat {
    if req.retryAttempts < 1 then 1 else req.retryAttempts
  }

  predicate Asks(req: Request, r: Round) {
    r.Replied? && r.scanErr.None? && r.status == 400 && r.mentionsXsrf && req.cookie != ""
  }

  /** A complete reply with an answer. */
  predicate Answers(clean: Cleaner, r: Round) {
    && r.Replied? && r.scanErr.None? && r.status == 200
    && (exists k | 0 <= k < |r.frames| :: r.frames[k].text != "" || r.frames[k].reasoning != "")
    && clean(LongestText(r.frames)) != ""
  }

  /** The frame has something to hand on that the caller wants. */
  predicate SaysIn(clean: Cleaner, req: Request, f: Frame) {
    || (req.onContent && f.text != "" && clean(f.text) != "")
    || (req.onReasoning && f.reasoning != "" && clean(f.reasoning) != "")
  }

  predicate Says(clean: Cleaner, req: Request, r: Round) {
    r.Replied? && exists k | 0 <= k < |r.frames| :: SaysIn(clean, req, r.frames[k])
  }

  /** The caller has gone when the loop would wait. */
  predicate Leaves(r: Round) {
    (r.SendFailed? && r.wait.Some?) || (r.Replied? && r.scanErr.None? && r.wait.Some?)
  }

  predicate AskedBefore(req: Request, env: Oracle, at: nat, j: nat) {
    exists x | at <= x < at + j :: Asks(req, env(x))
  }

  predicate SaidBefore(clean: Cleaner, req: Request, env: Oracle, at: nat, j: nat) {
    exists x | at <= x < at + j :: Says(clean, req, env(x))
  }

  /** The round that is repeated with a fresh token; no other is. */
  predicate Repeated(req: Request, env: Oracle, at: nat, j: nat) {
    Asks(req, env(at + j)) && !AskedBefore(req, env, at, j)
  }

  /** The attempts that `j` rounds have used up. */
  function Spent(req: Request, env: Oracle, at: nat, j: nat): int {
    if AskedBefore(req, env, at, j) then j - 1 else j
  }

  /** The loop does not go on after round `j`. */
  predicate Ends(clean: Cleaner, req: Request, env: Oracle, at: nat, j: nat) {
    var r := env(at + j);
    || r.TokensRefused? || Answers(clean, r)
    || (!Repeated(req, env, at, j)
        && (SaidBefore(clean, req, env, at, j + 1) || Leaves(r) || Spent(req, env, at, j + 1) >= Limit(req)))
  }

  /** What went wrong in a round. */
  function Wrong(r: Round): Error {
    match r
    case TokensRefused(err) => err
    case SendFailed(err, _) => err
    case Replied(status, _, scanErr, _, message, _, _) =>
      if scanErr.Some? then scanErr.value else if status != 200 then Error(status, message) else NO_CONTENT
  }

  /** The error with which round `j` ends the loop. */
  function ErrorAt(clean: Cleaner, req: Request, env: Oracle, at: nat, j: nat): Option<Error> {
    var r := env(at + j);
    if Answers(clean, r) then None
    else if Leaves(r) && !SaidBefore(clean, req, env, at, j + 1) && Spent(req, env, at, j + 1) < Limit(req) then r.wait
    else Some(Wrong(r))
  }

  /** The cookies that the first `j` rounds set. */
  function CookiesSet(env: Oracle, at: nat, j: nat): seq<string> {
    if j == 0 then [] else CookiesSet(env, at, j - 1) + (if env(at + j - 1).Replied? then env(at + j - 1).cookies else [])
  }

  ghost predicate FirstEnd(clean: Cleaner, req: Request, env: Oracle, at: nat, n: nat) {
    Ends(clean, req, env, at, n) && forall j: nat | j < n :: !Ends(clean, req, env, at, j)
  }

  // ---- one round ----

  lemma {:induction false} SaysOrNot(clean: Cleaner, req: Request, frames: seq<Frame>)
    ensures var h := HearAll(clean, req, Heard("", "", []), frames);
            h.text == "" && h.reasoning == "" <==> !exists k | 0 <= k < |frames| :: SaysIn(clean, req, frames[k])
  {
    hide SaysIn;
    if frames != [] {
      var n := |frames| - 1;
      SaysOrNot(clean, req, frames[..n]);
      HearFirst(clean, req, HearAll(clean, req, Heard("", "", []), frames[..n]), frames[n]);
      assert forall k | 0 <= k < n :: frames[..n][k] == frames[k];
    }
  }

  lemma HearFirst(clean: Cleaner, req: Request, h: Heard, f: Frame)
    ensures var g := Hear(clean, req, h, f);
            g.text == "" && g.reasoning == "" <==> h.text == "" && h.reasoning == "" && !SaysIn(clean, req, f)
  {
  }

  lemma SpeaksIsSays(clean: Cleaner, req: Request, r: Round)
    ensures Speaks(clean, req, r) <==> Says(clean, req, r)
  {
    hide Hear, SaysIn;
    if r.Replied? {
      SaysOrNot(clean, req, r.frames);
      HearAllAdds(clean, req, "", "", r.frames);
    }
  }

  /** The state of the loop after `j` rounds. */
  ghost predicate After(clean: Cleaner, req: Request, env: Oracle, at: nat, j: nat, attempt: nat, p: Progress) {
    && attempt == Spent(req, env, at, j) && attempt < Limit(req)
    && p.xsrfRetried == AskedBefore(req, env, at, j)
    && Emitted(p.result) == SaidBefore(clean, req, env, at, j)
    && Told(p.result, p.trace) && Posts(p.trace) == j
    && p.result.setCookies == CookiesSet(env, at, j)
    && forall i: nat | i < j :: !Ends(clean, req, env, at, i)
  }

  lemma MoreRounds(clean: Cleaner, req: Request, env: Oracle, at: nat, j: nat)
    ensures AskedBefore(req, env, at, j + 1) <==> AskedBefore(req, env, at, j) || Asks(req, env(at + j))
    ensures SaidBefore(clean, req, env, at, j + 1) <==> SaidBefore(clean, req, env, at, j) || Says(clean, req, env(at + j))
    ensures CookiesSet(env, at, j + 1) == CookiesSet(env, at, j) + (if env(at + j).Replied? then env(at + j).cookies else [])
  {
    hide Says, Asks;
  }

  /** What a step makes of a round. */
  lemma StepOfRound(clean: Cleaner, req: Request, attempt: nat, p: Progress, r: Round)
    ensures var (q, v) := Step(clean, req, attempt, p, r);
            && q.xsrfRetried == (p.xsrfRetried || (v == Again(false)))
            && q.result.setCookies == p.result.setCookies + (if r.Replied? then r.cookies else [])
            && (v == Stop(None) <==> Answers(clean, r))
            && (v == Again(false) <==> Asks(req, r) && !p.xsrfRetried)
            && (v.Stop? <==> r.TokensRefused? || Answers(clean, r)
                             || (v != Again(false) && (Emitted(q.result) || (Leaves(r) && attempt + 1 < Limit(req)))))
            && (v.Stop? && v.err.Some? ==>
                  v.err == if !r.TokensRefused? && !Emitted(q.result) then r.wait else Some(Wrong(r)))
            && (v == Again(true) ==> q.lastErr == Some(Wrong(r)) && !Emitted(q.result))
            && (r.Replied? ==> q.result.text == clean(LongestText(r.frames)) && q.result.reasoning == clean(LongestReasoning(r.frames)))
  {
    hide HearAll, LongestText, LongestReasoning, Deliveries;
    assert p.result.setCookies + [] == p.result.setCookies;
  }

  // ---- the loop ----

  /** What round `n` leaves, when it is the one that ends the loop. */
  ghost predicate EndedAt(clean: Cleaner, req: Request, env: Oracle, at: nat, n: nat, out: Outcome) {
    var r := env(at + n);
    && FirstEnd(clean, req, env, at, n) && out.next == at + n + 1
    && out.err == ErrorAt(clean, req, env, at, n)
    && Posts(out.trace) == (if r.TokensRefused? then n else n + 1)
    && out.result.setCookies == CookiesSet(env, at, n + 1)
    && (r.Replied? ==> out.result.text == clean(LongestText(r.frames)) && out.result.reasoning == clean(LongestReasoning(r.frames)))
  }

  lemma {:induction false} RunRounds(clean: Cleaner, req: Request, env: Oracle, at: nat, j: nat, attempt: nat,
                                     p: Progress) returns (n: nat)
    requires After(clean, req, env, at, j, attempt, p)
    ensures EndedAt(clean, req, env, at, n, Run(clean, req, env, at + j, attempt, p)) && n <= Limit(req)
    decreases Limit(req) + 1 - j
  {
    hide Step, Told, Speaks, Posts, Answers, Asks, Says, CookiesSet, AskedBefore, SaidBefore, Emitted;
    var r := env(at + j);
    RunOnce(clean, req, env, at + j, attempt, p);
    var callbacks := StepTrace(clean, req, attempt, p, r);
    SpeaksIsSays(clean, req, r);
    StepOfRound(clean, req, attempt, p, r);
    MoreRounds(clean, req, env, at, j);
    var (q, v) := Step(clean, req, attempt, p, r);
    if v.Stop? {
      n := j;
    } else {
      var next := if v.spent then attempt + 1 else attempt;
      if next < Limit(req) {
        n := RunRounds(clean, req, env, at, j + 1, next, q);
      } else {
        n := j;
      }
    }
  }

  /** The loop runs exactly up to the first round that ends it: one with refused tokens or an
      answer, or a failure after which it has nothing left to try, may not, or need not.  It
      posts once a round, and a failure on the way changes nothing else. */
  lemma GenerateRounds(clean: Cleaner, req: Request, env: Oracle, at: nat) returns (n: nat)
    requires TrimSpace(req.prompt) != "" && req.modelComplete
    ensures EndedAt(clean, req, env, at, n, Generated(clean, req, env, at)) && n <= Limit(req)
  {
    hide Run, Told, TrimSpace, Ends;
    StartIsTold();
    n := RunRounds(clean, req, env, at, 0, 0, START);
  }

  // ---- trying again ----

  /** A failure that hands nothing on, does not ask for a fresh token and is met by a caller
      who waits: no connection, a broken reply, a refusal, or no content. */
  predicate FailsQuietly(clean: Cleaner, req: Request, r: Round) {
    !r.TokensRefused? && !Answers(clean, r) && !Asks(req, r) && !Says(clean, req, r) && !Leaves(r)
  }

  lemma QuietRounds(clean: Cleaner, req: Request, env: Oracle, at: nat, k: nat)
    requires forall x | at <= x < at + k :: FailsQuietly(clean, req, env(x))
    ensures !AskedBefore(req, env, at, k) && !SaidBefore(clean, req, env, at, k)
  {
    hide Asks, Says, Answers, Leaves;
  }

  lemma QuietGoesOn(clean: Cleaner, req: Request, env: Oracle, at: nat, i: nat, k: nat)
    requires i < k && forall x | at <= x < at + k :: FailsQuietly(clean, req, env(x))
    ensures Ends(clean, req, env, at, i) <==> i + 1 >= Limit(req)
  {
    hide Answers, Asks, Says, Leaves, AskedBefore, SaidBefore;
    assert FailsQuietly(clean, req, env(at + i));
    QuietRounds(clean, req, env, at, i + 1);
    QuietRounds(clean, req, env, at, i);
  }

  lemma OnlyOneEnd(clean: Cleaner, req: Request, env: Oracle, at: nat, n: nat, k: nat)
    requires FirstEnd(clean, req, env, at, n) && FirstEnd(clean, req, env, at, k)
    ensures n == k
  {
    hide Ends;
  }

  /** Fewer quiet failures than there are attempts do not keep the answer from the caller. */
  lemma RetriesUntilAnswered(clean: Cleaner, req: Request, env: Oracle, at: nat, k: nat)
    requires TrimSpace(req.prompt) != "" && req.modelComplete && k < Limit(req)
    requires forall x | at <= x < at + k :: FailsQuietly(clean, req, env(x))
    requires Answers(clean, env(at + k))
    ensures var out := Generated(clean, req, env, at);
            && out.err == None && out.result.text == clean(LongestText(env(at + k).frames)) != ""
            && out.next == at + k + 1 && Posts(out.trace) == k + 1
  {
    hide Client.Generated, FailsQuietly, Posts, TrimSpace, AskedBefore, SaidBefore, CookiesSet;
    var n := GenerateRounds(clean, req, env, at);
    forall i: nat | i < k ensures !Ends(clean, req, env, at, i) {
      QuietGoesOn(clean, req, env, at, i, k);
    }
    OnlyOneEnd(clean, req, env, at, n, k);
  }

  /** If all attempts fail quietly, all of them are made and the last failure is reported. */
  lemma FailsAfterAllAttempts(clean: Cleaner, req: Request, env: Oracle, at: nat)
    requires TrimSpace(req.prompt) != "" && req.modelComplete
    requires forall x | at <= x < at + Limit(req) :: FailsQuietly(clean, req, env(x))
    ensures var out := Generated(clean, req, env, at);
            && out.err == Some(Wrong(env(at + Limit(req) - 1)))
            && out.next == at + Limit(req) && Posts(out.trace) == Limit(req)
  {
    hide Client.Generated, Posts, TrimSpace, AskedBefore, SaidBefore, CookiesSet, Says, Asks;
    var n := GenerateRounds(clean, req, env, at);
    var k := Limit(req) - 1;
    forall i: nat | i < Limit(req) ensures Ends(clean, req, env, at, i) <==> i == k {
      QuietGoesOn(clean, req, env, at, i, Limit(req));
    }
    OnlyOneEnd(clean, req, env, at, n, k);
    assert FailsQuietly(clean, req, env(at + k));
  }

  /** Without a prompt or a model nothing is sent. */
  lemma NothingToSend(clean: Cleaner, req: Request, env: Oracle, at: nat)
    requires AllSpace(req.prompt) || !req.modelComplete
    ensures var out := Generated(clean, req, env, at);
            out.err.Some? && out.trace == [] && out.next == at && out.result == NO_RESULT
  {
    hide Run, TrimSpace;
    if AllSpace(req.prompt) {
      TrimIs(req.prompt, "", "");
      assert req.prompt + "" + "" == req.prompt;
    }
  }

  // ---- which text a scan keeps ----

  /** The text kept is that of a frame, of the most bytes, and the last such one. */
  ghost predicate Kept(frames: seq<Frame>, k: nat, texts: Frame -> string) {
    && k < |frames| && frames[k].HasContent()
    && (forall i | 0 <= i < k && frames[i].HasContent() :: ByteLen(texts(frames[i])) <= ByteLen(texts(frames[k])))
    && (forall i | k < i < |frames| && frames[i].HasContent() :: ByteLen(texts(frames[i])) < ByteLen(texts(frames[k])))
  }

  lemma NothingKept()
    ensures !AnyContent([])
  {
  }

  lemma KeepsOn(frames: seq<Frame>, k: nat, texts: Frame -> string)
    requires frames != [] && (AnyContent(frames[..|frames| - 1]) ==> Kept(frames[..|frames| - 1], k, texts))
    ensures var n := |frames| - 1;
            var any := AnyContent(frames[..n]);
            && (any ==> k < n)
            && (if !frames[n].HasContent() then AnyContent(frames) == any && (any ==> Kept(frames, k, texts))
                else
                  && AnyContent(frames)
                  && ByteLen(texts(frames[n])) >= ByteLen("")
                  && Kept(frames, if !any || ByteLen(texts(frames[n])) >= ByteLen(texts(frames[k])) then n else k, texts))
  {
    var n := |frames| - 1;
    assert forall i | 0 <= i < n :: frames[..n][i] == frames[i];
    assert ByteLen("") == 0;
    hide ByteLen;
  }

  lemma {:induction false} LongestTextIsKept(frames: seq<Frame>) returns (k: nat)
    ensures if AnyContent(frames) then Kept(frames, k, (f: Frame) => f.text) && LongestText(frames) == frames[k].text
            else LongestText(frames) == ""
  {
    hide ByteLen, Kept, AnyContent;
    if frames == [] {
      k := 0;
      NothingKept();
    } else {
      var n := |frames| - 1;
      k := LongestTextIsKept(frames[..n]);
      KeepsOn(frames, k, (f: Frame) => f.text);
      if frames[n].HasContent() && (!AnyContent(frames[..n]) || ByteLen(frames[n].text) >= ByteLen(frames[k].text)) {
        k := n;
      }
    }
  }

  lemma {:induction false} LongestReasoningIsKept(frames: seq<Frame>) returns (k: nat)
    ensures if AnyContent(frames) then Kept(frames, k, (f: Frame) => f.reasoning) && LongestReasoning(frames) == frames[k].reasoning
            else LongestReasoning(frames) == ""
  {
    hide ByteLen, Kept, AnyContent;
    if frames == [] {
      k := 0;
      NothingKept();
    } else {
      var n := |frames| - 1;
      k := LongestReasoningIsKept(frames[..n]);
      KeepsOn(frames, k, (f: Frame) => f.reasoning);
      if frames[n].HasContent() && (!AnyContent(frames[..n]) || ByteLen(frames[n].reasoning) >= ByteLen(frames[k].reasoning)) {
        k := n;
      }
    }
  }
}
