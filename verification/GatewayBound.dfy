/** The bound on posts of GatewayLaws is met: when upstream never accepts an XSRF token,
    a request over three signed-in accounts posts 3(R+1)+R times. */
module GatewayBound {
  import opened GoStrings
  import opened Deltas
  import C = Client
  import L = ClientLaws
  import opened Store
  import opened Rotation
  import opened Gateway
  import opened GatewayLaws
  import opened GatewayAccounts

  /** In every reply upstream asks for a fresh XSRF token, without output and in words that
      the gateway reads as a refusal of the credentials, and nobody else is at work. */
  ghost predicate Quiet(w: World, cfg: Settings, input: Input) {
    && (forall k :: L.StaleReply(w.clean, RequestFor(cfg, input, ""), w.env(k)) && Refuses(w.env(k)))
    && (forall k: nat, db :: w.shift(k, db) == db)
  }

  /** The body holds the mark of a stale token, quotes included, and names the token. */
  predicate Refuses(r: C.Round)
    requires r.Replied?
  {
    Contains(r.message, "\"xsrf\"") && Contains(r.message, TOKEN)
  }

  const TOKEN := "xsrf token"

  // ---- one run of the client ----

  lemma RefusalIsCredentialError(r: C.Round)
    requires r.Replied? && Refuses(r)
    ensures IsCredentialError(C.Error(400, r.message))
  {
    hide Index;
    var i := Index(r.message, TOKEN);
    IndexIsFirst(r.message, TOKEN);
    assert Lower(r.message)[i..i + |TOKEN|] == Lower(r.message[i..i + |TOKEN|]) == Lower(TOKEN);
    assert Lower(TOKEN) == TOKEN;
    FoundSomewhere(Lower(r.message), TOKEN, i);
  }

  /** There are such replies. */
  lemma RefusalsExist(clean: Cleaner, req: C.Request) returns (r: C.Round)
    ensures L.StaleReply(clean, req, r) && Refuses(r)
  {
    hide Index;
    var mark := "\"xsrf\"";
    var message := mark + ": " + TOKEN;
    FoundSomewhere(message, mark, 0);
    FoundSomewhere(message, TOKEN, |mark| + 2);
    r := C.Replied(400, [], None, true, message, [], None);
  }

  lemma StaleClient(w: World, cfg: Settings, input: Input, cookie: string, at: nat)
    requires Quiet(w, cfg, input) && TrimSpace(input.prompt) != ""
    ensures var out := C.Generated(w.clean, RequestFor(cfg, input, cookie), w.env, at);
            && L.Posts(out.trace) == Budget(cfg) + (if cookie == "" then 0 else 1)
            && RefusedCredentials(out) && !C.Emitted(out.result)
  {
    hide C.Run, L.Posts, TrimSpace, IsCredentialError, C.HearAll, Refuses;
    var req := RequestFor(cfg, input, cookie);
    forall k ensures L.StaleReply(w.clean, req, w.env(k)) {
      assert L.StaleReply(w.clean, RequestFor(cfg, input, ""), w.env(k));
      L.HearsAlike(w.clean, RequestFor(cfg, input, ""), cookie, C.Heard("", "", []), w.env(k).frames);
    }
    EmptyTrace();
    L.StaleTokensMeetBound(w.clean, req, w.env, at, 0, C.START);
    var k :| w.env(k).Replied? && C.Run(w.clean, req, w.env, at, 0, C.START).err == Some(C.Error(400, w.env(k).message));
    RefusalIsCredentialError(w.env(k));
  }

  // ---- the account loop ----

  /** At least three enabled accounts, all signed in, and no proxies. */
  ghost predicate SignedIn(db: Db) {
    && |EnabledAccounts(db)| >= 3 && EnabledProxies(db) == {}
    && forall id | id in EnabledAccounts(db) :: db.accounts[id].cookie != ""
  }

  lemma PickStaysSignedIn(db: Db, excluded: set<int>, now: int)
    requires SignedIn(db) && excluded <= EnabledAccounts(db) && |excluded| < |EnabledAccounts(db)|
    ensures var (after, picked) := PickAccount(db, excluded, now);
            && SignedIn(after) && EnabledAccounts(after) == EnabledAccounts(db)
            && picked.Some? && picked.value in EnabledAccounts(db) && picked.value !in excluded
  {
    PickFindsAccount(db, excluded, now);
    assert PickAccount(db, excluded, now).0.proxies == db.proxies;
  }

  lemma ReportStaysSignedIn(db: Db, id: int)
    requires SignedIn(db)
    ensures SignedIn(ReportAccount(db, id, false)) && EnabledAccounts(ReportAccount(db, id, false)) == EnabledAccounts(db)
  {
    var after := ReportAccount(db, id, false);
    assert forall a :: a in EnabledAccounts(after) <==> a in EnabledAccounts(db);
    assert EnabledAccounts(after) == EnabledAccounts(db);
  }

  /** Before an attempt: the accounts tried so far, and what they cost. */
  ghost predicate Underway(cfg: Settings, n: nat, p: Progress) {
    && SignedIn(p.net.db) && p.proxy.None?
    && Excluded(p.tried) <= EnabledAccounts(p.net.db) && |Excluded(p.tried)| == |p.tried| == n
    && L.Posts(FullTrace(p.tries)) == n * (Budget(cfg) + 1)
  }

  function Budget(cfg: Settings): nat {
    if cfg.retryAttempts < 1 then 1 else cfg.retryAttempts
  }

  lemma OneMoreTry(tries: seq<Try>, t: Try)
    ensures L.Posts(FullTrace(tries + [t])) == L.Posts(FullTrace(tries)) + L.Posts(t.run.trace)
  {
    hide L.Posts;
    assert (tries + [t])[..|tries|] == tries;
    TraceConcat(FullTrace(tries), t.run.trace);
  }

  lemma HasCookie(db: Db, id: int)
    requires SignedIn(db) && id in EnabledAccounts(db)
    ensures id in db.accounts && db.accounts[id].cookie != ""
  {
  }

  lemma UseIsRefused(w: World, cfg: Settings, input: Input, enabled: nat, p: Progress, id: int, seen: Db)
    requires Quiet(w, cfg, input) && TrimSpace(input.prompt) != "" && SignedIn(p.net.db)
    requires id in seen.accounts && seen.accounts[id].cookie != ""
    ensures var (q, v) := WithAccount(w, cfg, input, enabled, p, Some(id), seen);
            && q.net.db == ReportAccount(p.net.db, id, false) && q.tried == p.tried && q.proxy.None?
            && v == (if |Excluded(p.tried)| >= enabled then Exhausted else NextAccount)
            && L.Posts(FullTrace(q.tries)) == L.Posts(FullTrace(p.tries)) + Budget(cfg) + 1
  {
    hide IsCredentialError, C.Generated, L.Posts, TrimSpace, SignedIn, FreshCookie, ReportAccount, FullTrace, Applied;
    NoProxies(p.net.db);
    var request := RequestFor(cfg, input, CookieOf(seen, Some(id)));
    var run := C.Generated(w.clean, request, w.env, p.at);
    StaleClient(w, cfg, input, request.cookie, p.at);
    assert FailsOver(Some(id), run);
    var (q, v) := WithAccount(w, cfg, input, enabled, p, Some(id), seen);
    var net := Net(p.net.db, p.net.step + 1);
    assert AccountReports(Some(id), run) == [AccountReport(id, false)] && ProxyReports(None, run) == [];
    assert [] + [AccountReport(id, false)] == [AccountReport(id, false)];
    AppliedNone(w, net);
    AppliedMore(w, net, [], AccountReport(id, false));
    OneMoreTry(p.tries, q.tries[|p.tries|]);
  }

  lemma NoProxies(db: Db)
    requires SignedIn(db)
    ensures EnabledProxies(db) == {}
  {
  }

  lemma AttemptIsRefused(w: World, cfg: Settings, input: Input, enabled: nat, n: nat, p: Progress)
    requires Quiet(w, cfg, input) && TrimSpace(input.prompt) != "" && Underway(cfg, n, p) && n < 3
    requires enabled == |EnabledAccounts(p.net.db)|
    ensures var (q, v) := TryAccount(w, cfg, input, enabled, p);
            && Underway(cfg, n + 1, q) && enabled == |EnabledAccounts(q.net.db)|
            && v == (if n + 1 >= enabled then Exhausted else NextAccount)
  {
    hide PickAccount, WithAccount, TrimSpace, L.Posts, FullTrace, Quiet, ReportAccount, EnabledAccounts;
    var now := w.clock(p.net.step);
    NothingShifts(w, cfg, input, p.net);
    PickStaysSignedIn(p.net.db, Excluded(p.tried), now);
    var (db, picked) := PickAccount(p.net.db, Excluded(p.tried), now);
    var o := p.(net := Net(db, p.net.step + 1), tried := p.tried + [picked.value]);
    assert Excluded(o.tried) == Excluded(p.tried) + {picked.value};
    HasCookie(p.net.db, picked.value);
    UseIsRefused(w, cfg, input, enabled, o, picked.value, p.net.db);
    ReportStaysSignedIn(db, picked.value);
  }

  lemma NothingShifts(w: World, cfg: Settings, input: Input, net: Net)
    requires Quiet(w, cfg, input)
    ensures w.shift(net.step, net.db) == net.db
  {
  }

  lemma FallbackPosts(w: World, cfg: Settings, input: Input, p: Progress)
    requires Quiet(w, cfg, input) && TrimSpace(input.prompt) != "" && cfg.fallbackAnonymous && !input.requiresAuth
    ensures L.Posts(FullTrace(Fallback(w, cfg, input, p).p.tries)) == L.Posts(FullTrace(p.tries)) + Budget(cfg)
  {
    hide IsCredentialError, C.Generated, L.Posts, TrimSpace, Applied, FullTrace;
    var request := RequestFor(cfg, input, "");
    StaleClient(w, cfg, input, request.cookie, p.at);
    var e := Fallback(w, cfg, input, p);
    OneMoreTry(p.tries, e.p.tries[|p.tries|]);
  }

  lemma {:induction false} LoopPosts(w: World, cfg: Settings, input: Input, enabled: nat, n: nat, p: Progress)
    requires Quiet(w, cfg, input) && TrimSpace(input.prompt) != "" && cfg.fallbackAnonymous && !input.requiresAuth
    requires Underway(cfg, n, p) && n <= 3 && enabled == |EnabledAccounts(p.net.db)|
    ensures L.Posts(FullTrace(Loop(w, cfg, input, enabled, n, p).p.tries)) == 3 * (Budget(cfg) + 1) + Budget(cfg)
    decreases 3 - n
  {
    hide TryAccount, Fallback, L.Posts, FullTrace, TrimSpace, Quiet;
    if n == 3 {
      FallbackPosts(w, cfg, input, p);
    } else {
      AttemptIsRefused(w, cfg, input, enabled, n, p);
      var (q, v) := TryAccount(w, cfg, input, enabled, p);
      if v.NextAccount? {
        LoopPosts(w, cfg, input, enabled, n + 1, q);
      } else {
        FallbackPosts(w, cfg, input, q);
      }
    }
  }

  /** The bound of `RequestSendBound` is met. */
  lemma RequestMeetsSendBound(w: World, cfg: Settings, input: Input, db: Db)
    requires Quiet(w, cfg, input) && SignedIn(db)
    requires input.modelKnown && !input.requiresAuth && cfg.fallbackAnonymous && cfg.maxPromptBytes <= 0
    requires TrimSpace(input.prompt) != ""
    ensures L.Posts(FullTrace(Generated(w, cfg, input, db).p.tries)) == 3 * (Budget(cfg) + 1) + Budget(cfg)
  {
    hide Loop, TrimSpace, L.Posts, FullTrace;
    EmptyTrace();
    assert FullTrace([]) == [] by {
      NoTries();
    }
    assert Excluded([]) == {};
    LoopPosts(w, cfg, input, |EnabledAccounts(db)|, 0, Start(w.shift(0, db), 1));
  }

  lemma NoTries()
    ensures FullTrace([]) == []
  {
  }
}
