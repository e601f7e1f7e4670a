/** What every gateway request keeps, in every world: the shape of its log, that nothing is
    sent again after output, and how often it posts. */
module GatewayLaws {
  import opened GoStrings
  import C = Client
  import L = ClientLaws
  import opened Store
  import opened Gateway

  // ---- the shape of the log ----

  /** The try ended so that another account takes over. */
  predicate HandsOver(t: Try) {
    !t.fallback && FailsOver(t.account, t.run)
  }

  /** The accounts of the first k tries. */
  function AccountsBefore(tries: seq<Try>, k: nat): set<int>
    requires k <= |tries|
  {
    set j | 0 <= j < k && tries[j].account.Some? :: tries[j].account.value
  }

  /** The account is the least recently used one that is enabled and was not used before;
      there is none only if there is no such account. */
  ghost predicate LeastRecentlyUsed(t: Try, before: set<int>) {
    var rows := t.seen.accounts;
    match t.account
    case None => forall id | id in rows && rows[id].enabled :: id in before
    case Some(id) =>
      && id in rows && rows[id].enabled && id !in before
      && forall other | other in rows && rows[other].enabled && other !in before ::
           || rows[id].lastUsedAt < rows[other].lastUsedAt
           || (rows[id].lastUsedAt == rows[other].lastUsedAt && id <= other)
  }

  /** The egress is one that is allowed, and the account's own proxy if that can be used. */
  ghost predicate RoutedWell(cfg: Settings, t: Try) {
    var bound := BoundOf(t.seen, t.account);
    && (t.proxy.Some? ==> Usable(t.route.db, t.proxy.value, t.route.now))
    && (t.proxy.None? ==>
          || EnabledProxies(t.route.db) == {}
          || (cfg.fallbackDirect && forall id | id in EnabledProxies(t.route.db) :: !Usable(t.route.db, id, t.route.now)))
    && (Usable(t.route.db, bound, t.route.now) ==> t.proxy == Some(bound))
  }

  /** The client ran as it does on its own, for the given account and rounds. */
  predicate RanClient(w: World, cfg: Settings, input: Input, t: Try) {
    && t.request == RequestFor(cfg, input, if t.fallback then "" else CookieOf(t.seen, t.account))
    && t.run == C.Generated(w.clean, t.request, w.env, t.at)
  }

  predicate ReportedWell(t: Try) {
    if t.fallback then
      && t.account.None?
      && t.reports == if t.proxy.Some? then [ProxyReport(t.proxy.value, Succeeded(t.run))] else []
    else t.reports == ProxyReports(t.proxy, t.run) + AccountReports(t.account, t.run)
  }

  function NextRound(tries: seq<Try>): nat {
    if tries == [] then 0 else tries[|tries| - 1].run.next
  }

  function LastResult(tries: seq<Try>): C.Result {
    if tries == [] then C.NO_RESULT else tries[|tries| - 1].run.result
  }

  /** What holds of the k-th try; the last resort leaves through the proxy used before. */
  ghost predicate TriedWell(w: World, cfg: Settings, input: Input, tries: seq<Try>, k: nat)
    requires k < |tries|
  {
    var t := tries[k];
    && RanClient(w, cfg, input, t) && ReportedWell(t) && t.at == NextRound(tries[..k])
    && (!t.fallback ==> LeastRecentlyUsed(t, AccountsBefore(tries, k)) && RoutedWell(cfg, t))
    && (!t.fallback && input.requiresAuth ==> t.account.Some?)
    && (t.fallback ==> k > 0 && t.proxy == tries[k - 1].proxy && cfg.fallbackAnonymous && !input.requiresAuth)
  }

  ghost predicate Log(w: World, cfg: Settings, input: Input, tries: seq<Try>) {
    && (forall k | 0 <= k < |tries| :: TriedWell(w, cfg, input, tries, k))
    && (forall k | 0 <= k < |tries| - 1 :: HandsOver(tries[k]))
  }

  /** Between two attempts. */
  ghost predicate Ongoing(w: World, cfg: Settings, input: Input, p: Progress) {
    && Log(w, cfg, input, p.tries)
    && |p.tried| == |p.tries|
    && (forall k | 0 <= k < |p.tries| :: HandsOver(p.tries[k]) && p.tries[k].account == Some(p.tried[k]))
    && p.at == NextRound(p.tries) && p.result == LastResult(p.tries)
    && (p.tries != [] ==> p.proxy == p.tries[|p.tries| - 1].proxy)
  }

  /** What holds of the execution with which a request ends. */
  ghost predicate Complete(w: World, cfg: Settings, input: Input, e: Execution) {
    var tries := e.p.tries;
    && Log(w, cfg, input, tries)
    && e.p.result == LastResult(tries)
    && |tries| <= MAX_ACCOUNT_ATTEMPTS + 1
    && (|tries| == MAX_ACCOUNT_ATTEMPTS + 1 ==> tries[|tries| - 1].fallback)
    && (e.err.None? <==> tries != [] && Succeeded(tries[|tries| - 1].run))
    && (e.err.None? ==> e.account == tries[|tries| - 1].account)
  }

  lemma BeforeIsExcluded(w: World, cfg: Settings, input: Input, p: Progress)
    requires Ongoing(w, cfg, input, p)
    ensures AccountsBefore(p.tries, |p.tries|) == Excluded(p.tried)
  {
    hide Log;
    forall a ensures a in AccountsBefore(p.tries, |p.tries|) <==> a in Excluded(p.tried) {
      if a in Excluded(p.tried) {
        var j :| 0 <= j < |p.tried| && p.tried[j] == a;
        assert p.tries[j].account == Some(a);
      }
    }
    assert AccountsBefore(p.tries, |p.tries|) == Excluded(p.tried);
  }

  /** The log grows by a try that is well placed after it. */
  lemma LogGrows(w: World, cfg: Settings, input: Input, tries: seq<Try>, t: Try)
    requires Log(w, cfg, input, tries) && TriedWell(w, cfg, input, tries + [t], |tries|)
    requires tries != [] ==> HandsOver(tries[|tries| - 1])
    ensures Log(w, cfg, input, tries + [t])
  {
    hide RanClient, ReportedWell, LeastRecentlyUsed, RoutedWell, HandsOver;
    forall k | 0 <= k < |tries| ensures TriedWell(w, cfg, input, tries + [t], k) {
      assert TriedWell(w, cfg, input, tries, k);
      assert (tries + [t])[..k] == tries[..k];
      assert AccountsBefore(tries + [t], k) == AccountsBefore(tries, k);
    }
  }

  /** Choosing an egress. */
  lemma EgressIsRouted(w: World, cfg: Settings, net: Net, account: Option<int>, seen: Db, t: Try)
    requires t.account == account && t.seen == seen
    requires var (_, egress, route) := PickEgress(w, cfg, net, account, BoundOf(seen, account));
             && !egress.Refused? && t.route == route
             && t.proxy == if egress.Through? then Some(egress.proxy) else None
    ensures RoutedWell(cfg, t)
  {
    var bound := BoundOf(seen, account);
    var db1 := w.shift(net.step, net.db);
    if EnabledProxies(db1) != {} {
      PickedProxy(w.shift(net.step + 1, db1), bound, w.clock(net.step + 1));
    } else {
      NoneUsable(db1, bound, t.route.now);
    }
  }

  lemma NoneUsable(db: Db, proxy: int, now: int)
    ensures EnabledProxies(db) == {} ==> !Usable(db, proxy, now)
  {
    assert proxy in db.proxies && db.proxies[proxy].enabled <==> proxy in EnabledProxies(db);
  }

  lemma PickIsLeastRecentlyUsed(seen: Db, excluded: set<int>, now: int, t: Try)
    requires t.seen == seen && t.account == PickAccount(seen, excluded, now).1
    ensures LeastRecentlyUsed(t, excluded)
  {
    PickedAccount(seen, excluded, now);
  }

  lemma SamePrefix(tries: seq<Try>, prefix: seq<Try>)
    requires prefix <= tries
    ensures AccountsBefore(tries, |prefix|) == AccountsBefore(prefix, |prefix|)
  {
    assert forall j | 0 <= j < |prefix| :: tries[j] == prefix[j];
    assert forall a :: a in AccountsBefore(tries, |prefix|) <==> a in AccountsBefore(prefix, |prefix|);
    assert AccountsBefore(tries, |prefix|) == AccountsBefore(prefix, |prefix|);
  }

  // ---- one attempt ----

  /** An attempt adds one try to the log, or ends the request without one. */
  lemma AttemptIsLogged(w: World, cfg: Settings, input: Input, enabled: nat, p: Progress)
    requires Ongoing(w, cfg, input, p)
    ensures var (q, v) := TryAccount(w, cfg, input, enabled, p);
            && (q.tries == p.tries ==>
                  q.result == p.result && v.Finished? && v.err.Some? && (v.err.value.NoUsableAccount? || v.err.value.ProxyUnavailable?))
            && (q.tries != p.tries ==>
                  && |q.tries| == |p.tries| + 1 && q.tries[..|p.tries|] == p.tries
                  && var t := q.tries[|p.tries|];
                  && TriedWell(w, cfg, input, q.tries, |p.tries|) && !t.fallback
                  && q.at == t.run.next && q.result == t.run.result && q.proxy == t.proxy
                  && q.tried == (if t.account.Some? then p.tried + [t.account.value] else p.tried)
                  && v == AfterUse(enabled, |Excluded(q.tried)|, t.account, t.run))
  {
    hide Log, C.Generated, PickEgress, RoutedWell, LeastRecentlyUsed, Applied, CookieStored, IsCredentialError, AfterUse;
    hide PickAccount;
    var seen := w.shift(p.net.step, p.net.db);
    var (db, picked) := PickAccount(seen, Excluded(p.tried), w.clock(p.net.step));
    if !(picked.None? && input.requiresAuth) {
      var o := p.(net := Net(db, p.net.step + 1), tried := if picked.Some? then p.tried + [picked.value] else p.tried);
      var (net, egress, route) := PickEgress(w, cfg, o.net, picked, BoundOf(seen, picked));
      if !egress.Refused? {
        var q := TryAccount(w, cfg, input, enabled, p).0;
        var t := q.tries[|p.tries|];
        assert q.tries == p.tries + [t];
        BeforeIsExcluded(w, cfg, input, p);
        assert q.tries[..|p.tries|] == p.tries;
        SamePrefix(q.tries, p.tries);
        PickIsLeastRecentlyUsed(seen, Excluded(p.tried), w.clock(p.net.step), t);
        EgressIsRouted(w, cfg, o.net, picked, seen, t);
      }
    }
  }

  lemma AttemptGoesOn(w: World, cfg: Settings, input: Input, enabled: nat, p: Progress)
    requires Ongoing(w, cfg, input, p)
    ensures var (q, v) := TryAccount(w, cfg, input, enabled, p);
            && |q.tries| <= |p.tries| + 1
            && (v.Finished? && |q.tries| <= MAX_ACCOUNT_ATTEMPTS ==> Complete(w, cfg, input, Execution(v.account, v.err, q)))
            && (!v.Finished? ==> Ongoing(w, cfg, input, q) && |q.tries| == |p.tries| + 1)
  {
    hide TryAccount, TriedWell, IsCredentialError, Log, Excluded;
    var (q, v) := TryAccount(w, cfg, input, enabled, p);
    AttemptIsLogged(w, cfg, input, enabled, p);
    if q.tries == p.tries {
      NotServed(w, cfg, input, p);
    } else {
      var t := q.tries[|p.tries|];
      assert q.tries == p.tries + [t];
      LogGrows(w, cfg, input, p.tries, t);
    }
  }

  lemma NotServed(w: World, cfg: Settings, input: Input, p: Progress)
    requires Ongoing(w, cfg, input, p)
    ensures p.tries != [] ==> !Succeeded(p.tries[|p.tries| - 1].run)
  {
    hide Log;
    if p.tries != [] {
      assert HandsOver(p.tries[|p.tries| - 1]);
    }
  }

  /** The last resort. */
  lemma FallbackIsLogged(w: World, cfg: Settings, input: Input, p: Progress)
    requires Ongoing(w, cfg, input, p) && 0 < |p.tries| <= MAX_ACCOUNT_ATTEMPTS
    ensures Complete(w, cfg, input, Fallback(w, cfg, input, p))
  {
    hide Log, C.Generated, RoutedWell, LeastRecentlyUsed, Applied, IsCredentialError, Excluded;
    var e := Fallback(w, cfg, input, p);
    NotServed(w, cfg, input, p);
    if cfg.fallbackAnonymous && !input.requiresAuth {
      var t := e.p.tries[|p.tries|];
      assert e.p.tries == p.tries + [t];
      assert (p.tries + [t])[..|p.tries|] == p.tries;
      assert TriedWell(w, cfg, input, p.tries + [t], |p.tries|);
      LogGrows(w, cfg, input, p.tries, t);
    }
  }

  lemma {:induction false} LoopIsComplete(w: World, cfg: Settings, input: Input, enabled: nat, attempt: nat,
                                          p: Progress)
    requires Ongoing(w, cfg, input, p) && |p.tries| == attempt <= MAX_ACCOUNT_ATTEMPTS
    ensures Complete(w, cfg, input, Loop(w, cfg, input, enabled, attempt, p))
    decreases MAX_ACCOUNT_ATTEMPTS - attempt
  {
    hide TryAccount, Complete, Ongoing, Fallback;
    if attempt >= MAX_ACCOUNT_ATTEMPTS {
      FallbackIsLogged(w, cfg, input, p);
    } else {
      AttemptGoesOn(w, cfg, input, enabled, p);
      var (q, v) := TryAccount(w, cfg, input, enabled, p);
      match v {
        case Finished(account, err) =>
        case NextAccount =>
          LoopIsComplete(w, cfg, input, enabled, attempt + 1, q);
        case Exhausted =>
          FallbackIsLogged(w, cfg, input, q);
      }
    }
  }

  lemma RequestIsComplete(w: World, cfg: Settings, input: Input, db: Db)
    ensures Complete(w, cfg, input, Generated(w, cfg, input, db))
  {
    hide Loop, TriedWell;
    var counted := w.shift(0, db);
    LoopIsComplete(w, cfg, input, |EnabledAccounts(counted)|, 0, Start(counted, 1));
  }

  // ---- what the upstream and the client see of the whole request ----

  function FullTrace(tries: seq<Try>): seq<C.Event> {
    if tries == [] then [] else FullTrace(tries[..|tries| - 1]) + tries[|tries| - 1].run.trace
  }

  lemma {:induction false} TraceConcat(a: seq<C.Event>, b: seq<C.Event>)
    ensures L.CallbacksOf(a + b) == L.CallbacksOf(a) + L.CallbacksOf(b)
    ensures L.Posts(a + b) == L.Posts(a) + L.Posts(b)
  {
    hide L.CallbacksOf, L.Posts;
    EmptyTrace();
    if b == [] {
      assert a + b == a;
      assert L.CallbacksOf(a) + [] == L.CallbacksOf(a);
    } else {
      var n := |b| - 1;
      TraceConcat(a, b[..n]);
      assert a + b == (a + b[..n]) + [b[n]];
      L.TraceAppend(a + b[..n], b[n]);
      L.TraceAppend(b[..n], b[n]);
      assert b == b[..n] + [b[n]];
    }
  }

  lemma SilentThen(a: seq<C.Event>, b: seq<C.Event>)
    requires L.CallbacksOf(a) == []
    ensures L.NothingResent(a + b) <==> L.NothingResent(b)
  {
    L.SilentTrace(a);
    assert forall k | 0 <= k < |a| :: (a + b)[k] == a[k] && a[k] in a;
    forall i, j | 0 <= i < j < |b| && b[i].Delivered? && L.NothingResent(a + b) ensures b[j].Delivered? {
      assert (a + b)[|a| + i].Delivered? ==> (a + b)[|a| + j].Delivered?;
    }
    forall i, j | 0 <= i < j < |a + b| && (a + b)[i].Delivered? && L.NothingResent(b) ensures (a + b)[j].Delivered? {
      assert i >= |a| && b[i - |a|].Delivered? && b[j - |a|] == (a + b)[j];
    }
  }

  lemma TryReports(w: World, cfg: Settings, input: Input, t: Try)
    requires RanClient(w, cfg, input, t)
    ensures L.Told(t.run.result, t.run.trace)
    ensures L.NothingResent(t.run.trace) <==> !L.ResendsWithin(w.clean, t.request, w.env, t.at, t.run.next)
    ensures HandsOver(t) ==> L.CallbacksOf(t.run.trace) == []
  {
    hide C.Generated, IsCredentialError, L.ResendsWithin, L.NothingResent;
    L.GenerateReportsCallbacks(w.clean, t.request, w.env, t.at);
    L.GenerateResendsExactly(w.clean, t.request, w.env, t.at);
  }

  lemma {:induction false} HandedOverIsSilent(w: World, cfg: Settings, input: Input, tries: seq<Try>, n: nat)
    requires Log(w, cfg, input, tries) && n <= |tries| - 1
    ensures L.CallbacksOf(FullTrace(tries[..n])) == []
  {
    hide RanClient, ReportedWell, LeastRecentlyUsed, RoutedWell, HandsOver;
    if n > 0 {
      HandedOverIsSilent(w, cfg, input, tries, n - 1);
      assert tries[..n][..n - 1] == tries[..n - 1];
      assert TriedWell(w, cfg, input, tries, n - 1);
      TryReports(w, cfg, input, tries[n - 1]);
      TraceConcat(FullTrace(tries[..n - 1]), tries[n - 1].run.trace);
    }
  }

  /** A try re-sends only if it is the last, as every other is silent. */
  ghost predicate ResendsDuring(w: World, t: Try) {
    L.ResendsWithin(w.clean, t.request, w.env, t.at, t.run.next)
  }

  lemma SilentDoesNotResend(w: World, cfg: Settings, input: Input, t: Try)
    requires RanClient(w, cfg, input, t) && HandsOver(t)
    ensures !ResendsDuring(w, t)
  {
    hide HandsOver, L.CallbacksOf, L.Told;
    TryReports(w, cfg, input, t);
    L.SilentTrace(t.run.trace);
    assert forall k | 0 <= k < |t.run.trace| :: t.run.trace[k] in t.run.trace;
  }

  lemma LogTold(w: World, cfg: Settings, input: Input, tries: seq<Try>)
    requires Log(w, cfg, input, tries) && tries != []
    ensures var t := tries[|tries| - 1];
            && L.CallbacksOf(FullTrace(tries)) == L.CallbacksOf(t.run.trace)
            && L.Told(t.run.result, FullTrace(tries))
            && (L.NothingResent(FullTrace(tries)) <==> !ResendsDuring(w, t))
  {
    hide RanClient, ReportedWell, LeastRecentlyUsed, RoutedWell, HandsOver, L.NothingResent, L.CallbacksOf;
    var n := |tries| - 1;
    HandedOverIsSilent(w, cfg, input, tries, n);
    assert TriedWell(w, cfg, input, tries, n);
    TryReports(w, cfg, input, tries[n]);
    TraceConcat(FullTrace(tries[..n]), tries[n].run.trace);
    SilentThen(FullTrace(tries[..n]), tries[n].run.trace);
  }

  /** Over failover, retries and the last resort together: nothing is posted after output
      unless one client run re-sends after a 400 reply that carried output and asked for a
      fresh XSRF token. */
  lemma RequestResendsExactly(w: World, cfg: Settings, input: Input, db: Db)
    ensures var tries := Generated(w, cfg, input, db).p.tries;
            L.NothingResent(FullTrace(tries)) <==> !exists k | 0 <= k < |tries| :: ResendsDuring(w, tries[k])
  {
    hide Gateway.Generated, TriedWell, HandsOver, ResendsDuring, L.NothingResent;
    var e := Gateway.Generated(w, cfg, input, db);
    RequestIsComplete(w, cfg, input, db);
    if e.p.tries == [] {
      EmptyTrace();
    } else {
      LogTold(w, cfg, input, e.p.tries);
      forall k | 0 <= k < |e.p.tries| - 1 ensures !ResendsDuring(w, e.p.tries[k]) {
        LogEntry(w, cfg, input, e.p.tries, k);
        SilentDoesNotResend(w, cfg, input, e.p.tries[k]);
      }
    }
  }

  lemma EmptyTrace()
    ensures L.NothingResent([]) && L.Told(C.NO_RESULT, []) && L.Posts([]) == 0 && L.CallbacksOf([]) == []
  {
  }

  lemma LogEntry(w: World, cfg: Settings, input: Input, tries: seq<Try>, k: nat)
    requires Log(w, cfg, input, tries) && k < |tries|
    ensures RanClient(w, cfg, input, tries[k])
  {
    hide RanClient, ReportedWell, LeastRecentlyUsed, RoutedWell, HandsOver;
    assert TriedWell(w, cfg, input, tries, k);
  }

  /** All that the client was handed comes from the last client run, and it adds up to the
      emitted texts that the execution reports. */
  lemma RequestReportsCallbacks(w: World, cfg: Settings, input: Input, db: Db)
    ensures var e := Generated(w, cfg, input, db);
            && L.Told(e.p.result, FullTrace(e.p.tries))
            && (e.p.tries != [] ==>
                  L.CallbacksOf(FullTrace(e.p.tries)) == L.CallbacksOf(e.p.tries[|e.p.tries| - 1].run.trace))
  {
    hide Gateway.Generated, TriedWell, HandsOver, ResendsDuring, L.NothingResent;
    var e := Gateway.Generated(w, cfg, input, db);
    RequestIsComplete(w, cfg, input, db);
    if e.p.tries == [] {
      EmptyTrace();
    } else {
      LogTold(w, cfg, input, e.p.tries);
    }
  }

  // ---- how often a request posts ----

  lemma TryPosts(w: World, cfg: Settings, input: Input, t: Try)
    requires RanClient(w, cfg, input, t)
    ensures var r := if cfg.retryAttempts < 1 then 1 else cfg.retryAttempts;
            L.Posts(t.run.trace) <= r + (if t.fallback then 0 else 1)
  {
    hide C.Generated, L.Posts;
    L.GenerateSendBound(w.clean, t.request, w.env, t.at);
  }

  function MostPosts(r: nat, tries: seq<Try>): nat {
    if tries == [] then 0 else
      MostPosts(r, tries[..|tries| - 1]) + r + (if tries[|tries| - 1].fallback then 0 else 1)
  }

  lemma {:induction false} PostsBound(w: World, cfg: Settings, input: Input, tries: seq<Try>)
    requires forall t | t in tries :: RanClient(w, cfg, input, t)
    ensures var r := if cfg.retryAttempts < 1 then 1 else cfg.retryAttempts;
            L.Posts(FullTrace(tries)) <= MostPosts(r, tries)
  {
    hide RanClient, L.Posts;
    if tries == [] {
      EmptyTrace();
    } else {
      var n := |tries| - 1;
      PostsBound(w, cfg, input, tries[..n]);
      TryPosts(w, cfg, input, tries[n]);
      TraceConcat(FullTrace(tries[..n]), tries[n].run.trace);
    }
  }

  lemma MostPostsOfRequest(r: nat, tries: seq<Try>)
    requires |tries| <= 4 && (|tries| == 4 ==> tries[3].fallback)
    ensures MostPosts(r, tries) <= 3 * (r + 1) + r
  {
    forall k | 0 < k <= |tries| ensures MostPosts(r, tries[..k]) == MostPosts(r, tries[..k - 1]) + r + (if tries[k - 1].fallback then 0 else 1) {
      assert tries[..k][..k - 1] == tries[..k - 1];
    }
    assert tries[..|tries|] == tries;
  }

  /** A request posts at most 3(R+1)+R times, which is 19 under the largest setting. */
  lemma RequestSendBound(w: World, cfg: Settings, input: Input, db: Db)
    ensures var r := if cfg.retryAttempts < 1 then 1 else cfg.retryAttempts;
            var posts := L.Posts(FullTrace(Generated(w, cfg, input, db).p.tries));
            posts <= 3 * (r + 1) + r && (cfg.retryAttempts <= 4 ==> posts <= 19)
  {
    hide Gateway.Generated, TriedWell, HandsOver, L.Posts, FullTrace, MostPosts, RanClient;
    var e := Gateway.Generated(w, cfg, input, db);
    RequestIsComplete(w, cfg, input, db);
    forall k | 0 <= k < |e.p.tries| ensures RanClient(w, cfg, input, e.p.tries[k]) {
      LogEntry(w, cfg, input, e.p.tries, k);
    }
    PostsBound(w, cfg, input, e.p.tries);
    MostPostsOfRequest(if cfg.retryAttempts < 1 then 1 else cfg.retryAttempts, e.p.tries);
  }
}
