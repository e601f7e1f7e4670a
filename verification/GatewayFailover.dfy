/** How every gateway request ends, told by its tries: which errors make the gateway take
    another account, and what it answers when it does not. */
module GatewayFailover {
  import opened GoStrings
  import C = Client
  import opened Store
  import opened Rotation
  import opened Gateway
  import opened GatewayLaws
  import opened GatewayAccounts

  // ---- whose fault it was ----

  /** The character is the lower-case letter, in either case. */
  predicate SameLetter(c: char, letter: char) {
    || c == letter
    || ('A' <= c <= 'Z' && letter == c - 'A' + 'a')
    || (c == '\U{212A}' && letter == 'k') || (c == '\U{130}' && letter == 'i')
  }

  predicate MentionsAt(message: string, phrase: string, i: nat) {
    i + |phrase| <= |message| && forall j | 0 <= j < |phrase| :: SameLetter(message[i + j], phrase[j])
  }

  predicate Mentions(message: string, phrase: string) {
    exists i | 0 <= i <= |message| :: MentionsAt(message, phrase, i)
  }

  /** The account was refused: by its status, or by what the message says. */
  predicate Blames(err: C.Error) {
    || err.status == 401 || err.status == 403
    || Mentions(err.message, "signed-in cookie") || Mentions(err.message, "xsrf token")
  }

  predicate LowerCase(phrase: string) {
    forall c | c in phrase :: !('A' <= c <= 'Z') && c != '\U{212A}' && c != '\U{130}'
  }

  lemma MentionsIsContains(message: string, phrase: string)
    requires LowerCase(phrase)
    ensures Contains(Lower(message), phrase) <==> Mentions(message, phrase)
  {
    hide Index;
    var low := Lower(message);
    IndexIsFirst(low, phrase);
    forall i: nat | i <= |message| ensures OccursAt(low, phrase, i) <==> MentionsAt(message, phrase, i) {
      OccursInLower(message, phrase, i);
    }
    if Contains(low, phrase) {
      assert MentionsAt(message, phrase, Index(low, phrase));
    }
  }

  lemma OccursInLower(message: string, phrase: string, i: nat)
    requires LowerCase(phrase)
    ensures OccursAt(Lower(message), phrase, i) <==> MentionsAt(message, phrase, i)
  {
    var low := Lower(message);
    if i + |phrase| <= |message| {
      forall j | 0 <= j < |phrase| ensures low[i + j] == phrase[j] <==> SameLetter(message[i + j], phrase[j]) {
        assert phrase[j] in phrase;
      }
      var part := low[i..i + |phrase|];
      assert part == phrase <==> forall j | 0 <= j < |phrase| :: part[j] == phrase[j];
    }
  }

  lemma BlamesIsCredentialError(err: C.Error)
    ensures IsCredentialError(err) <==> Blames(err)
  {
    hide Mentions, Contains, Lower;
    MentionsIsContains(err.message, "signed-in cookie");
    MentionsIsContains(err.message, "xsrf token");
  }

  // ---- how a request ends ----

  /** The try failed for its account's sake and nothing of it reached the client. */
  predicate Refused(t: Try) {
    && t.account.Some? && !t.fallback && t.run.err.Some? && Blames(t.run.err.value)
    && t.run.result.emittedText == "" && t.run.result.emittedReasoning == ""
  }

  lemma RefusedHandsOver(t: Try)
    ensures HandsOver(t) <==> Refused(t)
  {
    hide IsCredentialError, Blames;
    if t.run.err.Some? {
      BlamesIsCredentialError(t.run.err.value);
    }
  }

  function ErrorOf(run: C.Outcome): Option<GatewayError> {
    if run.err.None? then None else Some(Upstream(run.err.value))
  }

  /** How the request ends after its last try, when it may use up to `most` accounts. */
  ghost predicate EndsAfter(cfg: Settings, input: Input, enabled: set<int>, most: nat, e: Execution) {
    var tries, n := e.p.tries, |e.p.tries|;
    var refused := n == 0 || Refused(tries[n - 1]);
    && n <= most + 1
    && (forall k | 0 <= k < n - 1 :: Refused(tries[k]))
    && (forall k | 0 <= k < n && k < most :: !tries[k].fallback && tries[k].account.Some? && tries[k].account.value in enabled)
    && (n == most + 1 ==> cfg.fallbackAnonymous && !input.requiresAuth && tries[n - 1].fallback && e.account == None)
    && (!refused ==> e.err == ErrorOf(tries[n - 1].run) && e.account == tries[n - 1].account)
    && (refused && n == most > 0 ==>
          && !(cfg.fallbackAnonymous && !input.requiresAuth)
          && e.err == Some(NoUsableAccount(most, tries[n - 1].run.err)) && e.account == tries[n - 1].account)
    && (refused && n < most ==>
          && !cfg.fallbackDirect && e.err == Some(ProxyUnavailable)
          && e.account.Some? && e.account.value in enabled && e.account.value !in AccountsBefore(tries, n))
  }

  /** The error kept for later is that of the last try. */
  predicate KeepsLast(p: Progress) {
    p.tries != [] ==> p.lastErr == p.tries[|p.tries| - 1].run.err
  }

  lemma UseEnds(w: World, cfg: Settings, input: Input, enabled: nat, p: Progress, account: Option<int>, seen: Db)
    ensures var (q, v) := WithAccount(w, cfg, input, enabled, p, account, seen);
            if q.tries == p.tries then v == Finished(account, Some(ProxyUnavailable)) && !cfg.fallbackDirect
            else
              && |q.tries| == |p.tries| + 1 && q.tries[..|p.tries|] == p.tries
              && var t := q.tries[|p.tries|];
              && t.account == account && !t.fallback
              && (v.Finished? ==> v == Finished(account, ErrorOf(t.run)) && !Refused(t))
              && (!v.Finished? ==> Refused(t) && q.lastErr == t.run.err)
  {
    hide PickEgress, Applied, CookieStored, C.Generated, IsCredentialError, Blames;
    var (net, egress, route) := PickEgress(w, cfg, p.net, account, BoundOf(seen, account));
    RefusesOnlyIf(w, cfg, p.net, account, BoundOf(seen, account));
    if !egress.Refused? {
      var proxy := if egress.Through? then Some(egress.proxy) else None;
      var q := Used(w, cfg, input, p.(net := net), account, proxy, seen, route);
      assert |q.tries| == |p.tries| + 1;
      RefusedHandsOver(q.tries[|p.tries|]);
    }
  }

  lemma RefusesOnlyIf(w: World, cfg: Settings, net: Net, account: Option<int>, bound: int)
    ensures PickEgress(w, cfg, net, account, bound).1.Refused? ==> !cfg.fallbackDirect
  {
  }

  lemma AttemptEnds(w: World, cfg: Settings, input: Input, enabled: set<int>, p: Progress)
    requires Stable(w, enabled) && Steady(w, cfg, input, enabled, p) && |p.tries| < Most(enabled) && KeepsLast(p)
    ensures var (q, v) := TryAccount(w, cfg, input, |enabled|, p);
            && (v.Finished? ==> EndsAfter(cfg, input, enabled, Most(enabled), Execution(v.account, v.err, q)))
            && (!v.Finished? ==> KeepsLast(q) && q.tries != [] && Refused(q.tries[|q.tries| - 1]))
  {
    hide Log, PickAccount, WithAccount, Stable, EnabledAccounts, Refused, HandsOver;
    var seen := w.shift(p.net.step, p.net.db);
    StableStep(w, enabled, p.net);
    PickFindsAccount(seen, Excluded(p.tried), w.clock(p.net.step));
    var (db, picked) := PickAccount(seen, Excluded(p.tried), w.clock(p.net.step));
    var o := p.(net := Net(db, p.net.step + 1), tried := p.tried + [picked.value]);
    BeforeIsExcluded(w, cfg, input, p);
    UseEnds(w, cfg, input, |enabled|, o, picked, seen);
    var q := TryAccount(w, cfg, input, |enabled|, p).0;
    forall k | 0 <= k < |p.tries| ensures Refused(p.tries[k]) && (q.tries != p.tries ==> q.tries[k] == p.tries[k]) {
      RefusedHandsOver(p.tries[k]);
      assert q.tries != p.tries ==> q.tries[..|p.tries|][k] == p.tries[k];
    }
  }

  lemma FallbackEnds(w: World, cfg: Settings, input: Input, enabled: set<int>, p: Progress)
    requires Steady(w, cfg, input, enabled, p) && |p.tries| == Most(enabled) > 0 && KeepsLast(p)
    ensures EndsAfter(cfg, input, enabled, Most(enabled), Fallback(w, cfg, input, p))
  {
    hide Log, C.Generated, Applied, Blames, HandsOver, EnabledAccounts;
    forall k | 0 <= k < |p.tries| ensures Refused(p.tries[k]) {
      RefusedHandsOver(p.tries[k]);
    }
  }

  lemma {:induction false} LoopEnds(w: World, cfg: Settings, input: Input, enabled: set<int>, attempt: nat, p: Progress)
    requires Stable(w, enabled) && Steady(w, cfg, input, enabled, p) && |p.tries| == attempt < Most(enabled) && KeepsLast(p)
    ensures EndsAfter(cfg, input, enabled, Most(enabled), Loop(w, cfg, input, |enabled|, attempt, p))
    decreases MAX_ACCOUNT_ATTEMPTS - attempt
  {
    hide TryAccount, Ongoing, EndsAfter, Stable, EnabledAccounts, Fallback, Excluded, Refused, KeepsLast;
    AttemptKeepsSteady(w, cfg, input, enabled, p);
    AttemptEnds(w, cfg, input, enabled, p);
    var (q, v) := TryAccount(w, cfg, input, |enabled|, p);
    match v {
      case Finished(_, _) =>
      case Exhausted =>
        FallbackEnds(w, cfg, input, enabled, q);
      case NextAccount =>
        if attempt + 1 < Most(enabled) {
          LoopEnds(w, cfg, input, enabled, attempt + 1, q);
        } else {
          FallbackEnds(w, cfg, input, enabled, q);
        }
    }
  }

  /** Over a stable set of accounts, for a known model and a prompt that is not too long: a
      try is followed by another exactly when it was refused and there is what to try, and
      otherwise its outcome is that of the request. */
  lemma RequestEnds(w: World, cfg: Settings, input: Input, db: Db, enabled: set<int>)
    requires Stable(w, enabled) && EnabledAccounts(db) == enabled && enabled != {}
    requires input.modelKnown && (cfg.maxPromptBytes <= 0 || ByteLen(input.prompt) <= cfg.maxPromptBytes)
    ensures EndsAfter(cfg, input, enabled, if |enabled| < 3 then |enabled| else 3, Generated(w, cfg, input, db))
  {
    hide Loop, EndsAfter, TriedWell, EnabledAccounts;
    var counted := w.shift(0, db);
    HasMember(enabled);
    assert EnabledAccounts(counted) == enabled;
    LoopEnds(w, cfg, input, enabled, 0, Start(counted, 1));
  }

  /** An error for which the account is blamed, by its status or by what its message says in
      any capitals, makes the gateway take another account, if nothing was handed on and
      one is left; every other error ends the request and is what it answers. */
  lemma RefusalTakesNextAccount(w: World, cfg: Settings, input: Input, db: Db, enabled: set<int>, k: nat)
    requires Stable(w, enabled) && EnabledAccounts(db) == enabled
    requires input.modelKnown && (cfg.maxPromptBytes <= 0 || ByteLen(input.prompt) <= cfg.maxPromptBytes)
    requires k + 1 < |enabled| && k < 2 && k < |Generated(w, cfg, input, db).p.tries|
    ensures var e := Generated(w, cfg, input, db);
            var tries, run := e.p.tries, e.p.tries[k].run;
            run.err.Some? ==>
              if Blames(run.err.value) && run.result.emittedText == "" && run.result.emittedReasoning == "" then
                if k + 1 < |tries| then tries[k + 1].account.Some? && !tries[k + 1].fallback && tries[k + 1].account != tries[k].account
                else !cfg.fallbackDirect && e.err == Some(ProxyUnavailable) && e.account.Some? && e.account != tries[k].account
              else k + 1 == |tries| && e.err == Some(Upstream(run.err.value))
  {
    hide Gateway.Generated, Blames, EnabledAccounts, Stable;
    RequestEnds(w, cfg, input, db, enabled);
    AccountsAreDistinct(w, cfg, input, db);
  }

  /** The requests that end before any account is picked, and their errors. */
  lemma TurnedAway(w: World, cfg: Settings, input: Input, db: Db)
    ensures var e := Generated(w, cfg, input, db);
            var tooLong := cfg.maxPromptBytes > 0 && ByteLen(input.prompt) > cfg.maxPromptBytes;
            var unavailable := !input.modelKnown || (input.requiresAuth && EnabledAccounts(w.shift(0, db)) == {});
            && (e.err.Some? && e.err.value.ContextLength? <==> tooLong)
            && (e.err.Some? && e.err.value.ModelUnavailable? <==> !tooLong && unavailable)
            && (tooLong || unavailable ==> e.p.tries == [] && e.account == None)
  {
    hide Loop, EnabledAccounts;
    var counted := w.shift(0, db);
    LoopErrors(w, cfg, input, |EnabledAccounts(counted)|, 0, Start(counted, 1));
  }

  lemma {:induction false} LoopErrors(w: World, cfg: Settings, input: Input, enabled: nat, attempt: nat, p: Progress)
    ensures var e := Loop(w, cfg, input, enabled, attempt, p);
            e.err.Some? ==> !e.err.value.ContextLength? && !e.err.value.ModelUnavailable?
    decreases MAX_ACCOUNT_ATTEMPTS - attempt
  {
    hide PickAccount, WithAccount, Applied, C.Generated, Excluded;
    if attempt < MAX_ACCOUNT_ATTEMPTS {
      AttemptErrors(w, cfg, input, enabled, p);
      var (q, v) := TryAccount(w, cfg, input, enabled, p);
      if v.NextAccount? {
        LoopErrors(w, cfg, input, enabled, attempt + 1, q);
      }
    }
  }

  lemma AttemptErrors(w: World, cfg: Settings, input: Input, enabled: nat, p: Progress)
    ensures var v := TryAccount(w, cfg, input, enabled, p).1;
            v.Finished? && v.err.Some? ==> !v.err.value.ContextLength? && !v.err.value.ModelUnavailable?
  {
    hide PickAccount, PickEgress, Applied, CookieStored, C.Generated, IsCredentialError;
  }
}
