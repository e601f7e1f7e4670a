/** Which accounts a gateway request uses and what it reports about them: failover goes
    through distinct accounts in rotation order, and gives up only when it must. */
module GatewayAccounts {
  import opened GoStrings
  import C = Client
  import opened Store
  import opened Rotation
  import opened Gateway
  import opened GatewayLaws
  import Tokens

  // ---- distinct accounts, and anonymous use ----

  /** No account is used twice in a request, whatever happens to the tables meanwhile. */
  lemma AccountsAreDistinct(w: World, cfg: Settings, input: Input, db: Db)
    ensures var tries := Generated(w, cfg, input, db).p.tries;
            forall i, j | 0 <= i < j < |tries| && tries[i].account.Some? :: tries[i].account != tries[j].account
  {
    hide Gateway.Generated, RanClient, RoutedWell, HandsOver;
    RequestIsComplete(w, cfg, input, db);
    var tries := Gateway.Generated(w, cfg, input, db).p.tries;
    forall i, j | 0 <= i < j < |tries| && tries[i].account.Some? ensures tries[i].account != tries[j].account {
      assert TriedWell(w, cfg, input, tries, j);
      assert tries[i].account.value in AccountsBefore(tries, j);
    }
  }

  /** Each attempt uses the least recently used enabled account not yet used; it goes
      without one exactly when there is none and the model does not need one. */
  lemma EachAttemptFollowsRotation(w: World, cfg: Settings, input: Input, db: Db, k: nat)
    requires k < |Generated(w, cfg, input, db).p.tries|
    ensures var tries := Generated(w, cfg, input, db).p.tries;
            !tries[k].fallback ==>
              && LeastRecentlyUsed(tries[k], AccountsBefore(tries, k))
              && (tries[k].account.None? <==> EnabledAccounts(tries[k].seen) <= AccountsBefore(tries, k))
              && (tries[k].account.None? ==> !input.requiresAuth)
  {
    hide Gateway.Generated, RanClient, RoutedWell, HandsOver;
    RequestIsComplete(w, cfg, input, db);
    var tries := Gateway.Generated(w, cfg, input, db).p.tries;
    assert TriedWell(w, cfg, input, tries, k);
    if !tries[k].fallback {
      NoneLeft(tries[k], AccountsBefore(tries, k));
    }
  }

  lemma NoneLeft(t: Try, before: set<int>)
    requires LeastRecentlyUsed(t, before)
    ensures t.account.None? <==> EnabledAccounts(t.seen) <= before
  {
    if t.account.Some? {
      assert t.account.value in EnabledAccounts(t.seen);
    } else {
      assert forall id | id in EnabledAccounts(t.seen) :: id in before;
    }
  }

  // ---- what a request does not touch ----

  /** The property of the tables that other requests and administrators keep, and every
      statement of a request but those that pick an account, bind a proxy or store a cookie. */
  ghost predicate Closed(w: World, inv: Db -> bool) {
    && (forall k: nat, db | inv(db) :: inv(w.shift(k, db)))
    && (forall db, r, now | inv(db) :: inv(Reported(db, r, now)))
    && (forall db, id, now | inv(db) :: inv(PickProxy(db, id, now).0))
  }

  ghost predicate Binds(inv: Db -> bool, account: int) {
    forall db, proxy | inv(db) :: inv(BindAccountProxy(db, account, proxy))
  }

  ghost predicate Stores(inv: Db -> bool, account: int) {
    forall db, cookie | inv(db) :: inv(UpdateAccountCookie(db, account, cookie))
  }

  lemma {:induction false} ReportsKeep(w: World, net: Net, reports: seq<Report>, inv: Db -> bool)
    requires Closed(w, inv) && inv(net.db)
    ensures inv(Applied(w, net, reports).db)
  {
    hide Reported;
    if reports != [] {
      ReportsKeep(w, net, reports[..|reports| - 1], inv);
    }
  }

  lemma EgressKeeps(w: World, cfg: Settings, net: Net, account: Option<int>, bound: int, inv: Db -> bool)
    requires Closed(w, inv) && inv(net.db)
    requires account.Some? && bound == 0 ==> Binds(inv, account.value)
    ensures var (after, _, route) := PickEgress(w, cfg, net, account, bound); inv(after.db) && inv(route.db)
  {
    hide PickProxy, BindAccountProxy, EnabledProxies;
  }

  lemma UseKeeps(w: World, cfg: Settings, input: Input, enabled: nat, p: Progress, account: Option<int>, seen: Db,
                 inv: Db -> bool)
    requires Closed(w, inv) && inv(p.net.db)
    requires account.Some? && BoundOf(seen, account) == 0 ==> Binds(inv, account.value)
    requires account.Some? ==> Stores(inv, account.value)
    ensures var (q, _) := WithAccount(w, cfg, input, enabled, p, account, seen);
            && inv(q.net.db) && q.tried == p.tried
            && (q.tries == p.tries
                || (|q.tries| == |p.tries| + 1 && q.tries[..|p.tries|] == p.tries
                    && q.tries[|p.tries|].account == account && q.tries[|p.tries|].seen == seen && inv(q.tries[|p.tries|].route.db)))
  {
    hide PickEgress, Applied, FreshCookie, C.Generated, UpdateAccountCookie, Closed, AfterUse;
    EgressKeeps(w, cfg, p.net, account, BoundOf(seen, account), inv);
    var (net, egress, route) := PickEgress(w, cfg, p.net, account, BoundOf(seen, account));
    if !egress.Refused? {
      var proxy := if egress.Through? then Some(egress.proxy) else None;
      var q := Used(w, cfg, input, p.(net := net), account, proxy, seen, route);
      var t := q.tries[|p.tries|];
      ReportsKeep(w, net, t.reports, inv);
      CookieKeeps(w, Applied(w, net, t.reports), account, t.request.cookie, t.run, inv);
    }
  }

  lemma CookieKeeps(w: World, net: Net, account: Option<int>, cookie: string, run: C.Outcome, inv: Db -> bool)
    requires Closed(w, inv) && inv(net.db) && (account.Some? ==> Stores(inv, account.value))
    ensures inv(CookieStored(w, net, account, cookie, run).db)
  {
    hide FreshCookie, UpdateAccountCookie;
  }

  lemma FallbackKeeps(w: World, cfg: Settings, input: Input, p: Progress, inv: Db -> bool)
    requires Closed(w, inv) && inv(p.net.db)
    ensures inv(Fallback(w, cfg, input, p).p.net.db)
  {
    hide Applied, C.Generated, Closed;
    var reports := if p.proxy.Some? then
      [ProxyReport(p.proxy.value, Succeeded(C.Generated(w.clean, RequestFor(cfg, input, ""), w.env, p.at)))] else [];
    ReportsKeep(w, p.net, reports, inv);
  }

  // ---- failover over a stable set of accounts ----

  /** No account appears, disappears, is enabled or disabled while the request runs. */
  ghost predicate Stable(w: World, enabled: set<int>) {
    forall k: nat, db | EnabledAccounts(db) == enabled :: EnabledAccounts(w.shift(k, db)) == enabled
  }

  function Most(enabled: set<int>): nat {
    if |enabled| < MAX_ACCOUNT_ATTEMPTS then |enabled| else MAX_ACCOUNT_ATTEMPTS
  }

  /** How a request ends when the enabled accounts are stable: only enabled accounts are
      used, the last resort comes after the most accounts a request tries have all been
      refused, and so does the error that no account is usable. */
  ghost predicate FailedOver(cfg: Settings, input: Input, enabled: set<int>, e: Execution) {
    var tries, most := e.p.tries, Most(enabled);
    var lastResort := cfg.fallbackAnonymous && !input.requiresAuth;
    var allRefused := |tries| >= most > 0 && HandsOver(tries[most - 1]);
    && |tries| <= most + 1
    && (forall k | 0 <= k < |tries| :: tries[k].fallback <==> k == most)
    && (forall k | 0 <= k < |tries| && k < most :: tries[k].account.Some? && tries[k].account.value in enabled)
    && (|tries| == most + 1 <==> allRefused && lastResort)
    && (e.err.Some? && e.err.value.NoUsableAccount? <==> allRefused && !lastResort)
    && (e.err.Some? && e.err.value.NoUsableAccount? ==> e.err.value.attempts == most == |tries|)
  }

  lemma EnabledAreClosed(w: World, enabled: set<int>, account: int)
    requires Stable(w, enabled)
    ensures Closed(w, db => EnabledAccounts(db) == enabled)
    ensures Binds(db => EnabledAccounts(db) == enabled, account)
    ensures Stores(db => EnabledAccounts(db) == enabled, account)
  {
    var inv := (db: Db) => EnabledAccounts(db) == enabled;
    forall db, r, now | inv(db) ensures inv(Reported(db, r, now)) {
      assert forall id :: id in EnabledAccounts(Reported(db, r, now)) <==> id in EnabledAccounts(db);
    }
    forall db, cookie | inv(db) ensures inv(UpdateAccountCookie(db, account, cookie)) {
      assert forall a :: a in EnabledAccounts(UpdateAccountCookie(db, account, cookie)) <==> a in EnabledAccounts(db);
    }
    forall db, id, now | inv(db) ensures inv(PickProxy(db, id, now).0) {
      assert PickProxy(db, id, now).0.accounts == db.accounts;
    }
    forall db, proxy | inv(db) ensures inv(BindAccountProxy(db, account, proxy)) {
      assert forall a :: a in EnabledAccounts(BindAccountProxy(db, account, proxy)) <==> a in EnabledAccounts(db);
    }
  }

  lemma PickKeepsEnabled(db: Db, excluded: set<int>, now: int)
    ensures EnabledAccounts(PickAccount(db, excluded, now).0) == EnabledAccounts(db)
  {
    PickedAccount(db, excluded, now);
    var after := PickAccount(db, excluded, now).0;
    assert forall a :: a in EnabledAccounts(after) <==> a in EnabledAccounts(db);
    assert EnabledAccounts(after) == EnabledAccounts(db);
  }

  /** Between two attempts on a stable set of accounts, with some account left to try. */
  ghost predicate Steady(w: World, cfg: Settings, input: Input, enabled: set<int>, p: Progress) {
    && Ongoing(w, cfg, input, p) && EnabledAccounts(p.net.db) == enabled
    && Excluded(p.tried) <= enabled && |Excluded(p.tried)| == |p.tried|
    && forall k | 0 <= k < |p.tries| :: !p.tries[k].fallback && p.tries[k].account.Some? && p.tries[k].account.value in enabled
  }

  lemma PickFindsAccount(db: Db, excluded: set<int>, now: int)
    requires excluded <= EnabledAccounts(db) && |excluded| < |EnabledAccounts(db)|
    ensures var (after, picked) := PickAccount(db, excluded, now);
            && picked.Some? && picked.value in EnabledAccounts(db) && picked.value !in excluded
            && EnabledAccounts(after) == EnabledAccounts(db)
  {
    hide PickAccount;
    PickedAccount(db, excluded, now);
    PickKeepsEnabled(db, excluded, now);
    SomeoneIsLeft(EnabledAccounts(db), excluded);
    var left :| left in EnabledAccounts(db) && left !in excluded;
    assert left in db.accounts && db.accounts[left].enabled;
  }

  lemma AttemptHasAccount(w: World, cfg: Settings, input: Input, enabled: set<int>, p: Progress)
    requires Stable(w, enabled) && Steady(w, cfg, input, enabled, p) && |p.tried| < |enabled|
    ensures var (q, v) := TryAccount(w, cfg, input, |enabled|, p);
            && (v.Finished? && v.err.Some? ==> !v.err.value.NoUsableAccount?)
            && (q.tries == p.tries ==> v.Finished?)
            && (forall k | |p.tries| <= k < |q.tries| :: q.tries[k].account.Some? && q.tries[k].account.value in enabled)
            && (!v.Finished? ==> EnabledAccounts(q.net.db) == enabled && Excluded(q.tried) <= enabled
                                 && |Excluded(q.tried)| == |p.tried| + 1)
  {
    hide Ongoing, PickAccount, WithAccount, Stable, EnabledAccounts;
    var seen := w.shift(p.net.step, p.net.db);
    StableStep(w, enabled, p.net);
    var excluded := Excluded(p.tried);
    PickFindsAccount(seen, excluded, w.clock(p.net.step));
    var (db, picked) := PickAccount(seen, excluded, w.clock(p.net.step));
    var o := p.(net := Net(db, p.net.step + 1), tried := p.tried + [picked.value]);
    assert Excluded(o.tried) == excluded + {picked.value};
    EnabledAreClosed(w, enabled, picked.value);
    UseKeeps(w, cfg, input, |enabled|, o, picked, seen, db => EnabledAccounts(db) == enabled);
    ErrorsOfUse(w, cfg, input, |enabled|, o, picked, seen);
  }

  lemma SomeoneIsLeft(all: set<int>, some: set<int>)
    requires some <= all && |some| < |all|
    ensures exists x :: x in all && x !in some
  {
    var left := all - some;
    assert some + left == all && some * left == {};
    assert |left| == |all| - |some|;
    HasMember(left);
  }

  lemma ErrorsOfUse(w: World, cfg: Settings, input: Input, enabled: nat, p: Progress, account: Option<int>, seen: Db)
    ensures var (q, v) := WithAccount(w, cfg, input, enabled, p, account, seen);
            && (v.Finished? && v.err.Some? ==> !v.err.value.NoUsableAccount?)
            && (q.tries == p.tries ==> v.Finished?)
  {
    hide PickEgress, Applied, CookieStored, C.Generated, IsCredentialError;
    var (net, egress, route) := PickEgress(w, cfg, p.net, account, BoundOf(seen, account));
    if !egress.Refused? {
      var proxy := if egress.Through? then Some(egress.proxy) else None;
      var q := Used(w, cfg, input, p.(net := net), account, proxy, seen, route);
      assert |q.tries| == |p.tries| + 1;
    }
  }

  lemma StableStep(w: World, enabled: set<int>, net: Net)
    requires Stable(w, enabled) && EnabledAccounts(net.db) == enabled
    ensures EnabledAccounts(w.shift(net.step, net.db)) == enabled
  {
  }

  lemma FallbackFailsOver(w: World, cfg: Settings, input: Input, enabled: set<int>, p: Progress)
    requires Steady(w, cfg, input, enabled, p) && |p.tries| == Most(enabled) > 0
    ensures FailedOver(cfg, input, enabled, Fallback(w, cfg, input, p))
  {
    hide Log, C.Generated, Applied, IsCredentialError, FailsOver, EnabledAccounts;
  }

  lemma AttemptKeepsSteady(w: World, cfg: Settings, input: Input, enabled: set<int>, p: Progress)
    requires Stable(w, enabled) && Steady(w, cfg, input, enabled, p) && |p.tries| < Most(enabled)
    ensures var (q, v) := TryAccount(w, cfg, input, |enabled|, p);
            && (!v.Finished? ==> Steady(w, cfg, input, enabled, q) && |q.tries| == |p.tries| + 1)
            && (v.Exhausted? <==> !v.Finished? && |p.tries| + 1 == |enabled|)
            && (v.Finished? ==> FailedOver(cfg, input, enabled, Execution(v.account, v.err, q)))
  {
    hide Log, TryAccount, TriedWell, EnabledAccounts, Stable, IsCredentialError;
    AttemptIsLogged(w, cfg, input, |enabled|, p);
    AttemptGoesOn(w, cfg, input, |enabled|, p);
    AttemptHasAccount(w, cfg, input, enabled, p);
    var (q, v) := TryAccount(w, cfg, input, |enabled|, p);
    if q.tries != p.tries {
      assert forall k | 0 <= k < |p.tries| :: q.tries[k] == q.tries[..|p.tries|][k] == p.tries[k];
    }
  }

  lemma {:induction false} LoopFailsOver(w: World, cfg: Settings, input: Input, enabled: set<int>, attempt: nat,
                                         p: Progress)
    requires Stable(w, enabled) && Steady(w, cfg, input, enabled, p) && |p.tries| == attempt < Most(enabled)
    ensures FailedOver(cfg, input, enabled, Loop(w, cfg, input, |enabled|, attempt, p))
    decreases MAX_ACCOUNT_ATTEMPTS - attempt
  {
    hide TryAccount, Ongoing, FailedOver, Stable, EnabledAccounts, Fallback, Excluded;
    AttemptKeepsSteady(w, cfg, input, enabled, p);
    var (q, v) := TryAccount(w, cfg, input, |enabled|, p);
    match v {
      case Finished(_, _) =>
      case Exhausted =>
        FallbackFailsOver(w, cfg, input, enabled, q);
      case NextAccount =>
        assert |q.tries| == attempt + 1;
        if attempt + 1 < Most(enabled) {
          LoopFailsOver(w, cfg, input, enabled, attempt + 1, q);
        } else {
          FallbackFailsOver(w, cfg, input, enabled, q);
        }
    }
  }

  /** Over a stable set of accounts a request gives up, or falls back to anonymous access,
      exactly when the most accounts it tries were all refused before any output, and it
      never goes anonymous unless that is allowed. */
  lemma FailoverIsComplete(w: World, cfg: Settings, input: Input, db: Db, enabled: set<int>)
    requires Stable(w, enabled) && EnabledAccounts(db) == enabled && enabled != {}
    ensures var e := Generated(w, cfg, input, db);
            (e.err.Some? && (e.err.value.ContextLength? || e.err.value.ModelUnavailable?)) || FailedOver(cfg, input, enabled, e)
  {
    hide Loop, FailedOver, TriedWell, EnabledAccounts;
    var counted := w.shift(0, db);
    HasMember(enabled);
    assert EnabledAccounts(counted) == enabled;
    if !(cfg.maxPromptBytes > 0 && ByteLen(input.prompt) > cfg.maxPromptBytes) && input.modelKnown {
      assert |enabled| > 0;
      LoopFailsOver(w, cfg, input, enabled, 0, Start(counted, 1));
    }
  }

  /** Without that stability the last setting does not hold: if accounts were counted but
      all of them are gone when the first one is picked, the request goes out anonymously even
      though anonymous access is not a fallback. */
  lemma VanishedAccountsGoAnonymous(w: World, cfg: Settings, input: Input, db: Db)
    requires !(cfg.maxPromptBytes > 0 && ByteLen(input.prompt) > cfg.maxPromptBytes)
    requires input.modelKnown && !input.requiresAuth && !cfg.fallbackAnonymous && cfg.fallbackDirect
    requires EnabledAccounts(w.shift(0, db)) != {} && EnabledAccounts(w.shift(1, w.shift(0, db))) == {}
    ensures var tries := Generated(w, cfg, input, db).p.tries; tries != [] && tries[0].account.None? && !tries[0].fallback
  {
    hide TryAccount, AfterUse;
    var start := Start(w.shift(0, db), 1);
    GoesAnonymous(w, cfg, input, |EnabledAccounts(w.shift(0, db))|, start);
  }

  lemma GoesAnonymous(w: World, cfg: Settings, input: Input, enabled: nat, p: Progress)
    requires !input.requiresAuth && cfg.fallbackDirect && p.tries == []
    requires EnabledAccounts(w.shift(p.net.step, p.net.db)) == {}
    ensures var (q, v) := TryAccount(w, cfg, input, enabled, p);
            |q.tries| == 1 && q.tries[0].account.None? && !q.tries[0].fallback && v.Finished?
  {
    hide Applied, CookieStored, C.Generated, IsCredentialError;
    var seen := w.shift(p.net.step, p.net.db);
    NobodyToPick(seen, Excluded(p.tried), w.clock(p.net.step));
  }

  lemma NobodyToPick(db: Db, excluded: set<int>, now: int)
    requires EnabledAccounts(db) == {}
    ensures PickAccount(db, excluded, now).1.None?
  {
    var ranks := AccountRanks(db.accounts, excluded);
    forall id ensures id !in ranks {
      assert id in ranks ==> id in EnabledAccounts(db);
    }
    FirstIsThere(ranks);
  }

  lemma FirstIsThere(ranks: Ranks)
    ensures First(ranks).Some? ==> First(ranks).value in ranks
  {
  }

  // ---- rotation order ----

  /** Nobody else picks, adds, removes, enables or disables an account meanwhile. */
  ghost predicate Undisturbed(w: World) {
    forall k: nat, db :: UsageOf(w.shift(k, db)) == UsageOf(db)
  }

  predicate Older(u: Usage, a: int, b: int) {
    a in u && b in u && (u[a] < u[b] || (u[a] == u[b] && a < b))
  }

  /** The rotation is as it was but for the accounts already tried. */
  ghost predicate SameBut(u: Usage, tried: set<int>, db: Db) {
    var now := UsageOf(db);
    now.Keys == u.Keys && forall id | id in u && id !in tried :: now[id] == u[id]
  }

  lemma RotationIsClosed(w: World, u: Usage, tried: set<int>, account: int)
    requires Undisturbed(w)
    ensures Closed(w, db => SameBut(u, tried, db)) && Binds(db => SameBut(u, tried, db), account)
    ensures Stores(db => SameBut(u, tried, db), account)
  {
    hide SameBut;
    forall db, r, now ensures UsageOf(Reported(db, r, now)) == UsageOf(db) {
      if r.AccountReport? {
        OthersKeepRotation(db, r.id, r.success, 0, "");
      } else {
        SameAccounts(ReportProxy(db, r.id, r.success, now), db);
      }
    }
    forall db, id, cookie ensures UsageOf(UpdateAccountCookie(db, id, cookie)) == UsageOf(db) {
      OthersKeepRotation(db, id, true, 0, cookie);
    }
    forall db, id, now ensures UsageOf(PickProxy(db, id, now).0) == UsageOf(db) {
      SameAccounts(PickProxy(db, id, now).0, db);
    }
    forall db, id, proxy ensures UsageOf(BindAccountProxy(db, id, proxy)) == UsageOf(db) {
      OthersKeepRotation(db, id, true, proxy, "");
    }
    SameByUsage(u, tried);
  }

  lemma SameAccounts(a: Db, b: Db)
    requires a.accounts == b.accounts
    ensures UsageOf(a) == UsageOf(b)
  {
  }

  lemma SameByUsage(u: Usage, tried: set<int>)
    ensures forall a, b | UsageOf(a) == UsageOf(b) :: SameBut(u, tried, a) <==> SameBut(u, tried, b)
  {
  }

  lemma PickKeepsOthers(u: Usage, tried: set<int>, db: Db, now: int)
    requires SameBut(u, tried, db)
    ensures var (after, picked) := PickAccount(db, tried, now);
            SameBut(u, if picked.Some? then tried + {picked.value} else tried, after)
  {
    AccountPickRotates(db, tried, now);
  }

  /** In the log, each account was picked from tables where only the accounts tried before
      it have moved. */
  ghost predicate SeenInOrder(u: Usage, tries: seq<Try>) {
    forall k | 0 <= k < |tries| && !tries[k].fallback :: SameBut(u, AccountsBefore(tries, k), tries[k].seen)
  }

  lemma SeenGrows(u: Usage, tries: seq<Try>, t: Try)
    requires SeenInOrder(u, tries) && (t.fallback || SameBut(u, AccountsBefore(tries, |tries|), t.seen))
    ensures SeenInOrder(u, tries + [t])
  {
    hide SameBut;
    forall k | 0 <= k < |tries + [t]| ensures AccountsBefore(tries + [t], k) == AccountsBefore(tries, k) {
      SamePrefix(tries + [t], tries[..k]);
      SamePrefix(tries, tries[..k]);
    }
  }

  lemma AttemptSeesOrder(w: World, cfg: Settings, input: Input, enabled: nat, u: Usage, p: Progress)
    requires Undisturbed(w) && Ongoing(w, cfg, input, p)
    requires SameBut(u, Excluded(p.tried), p.net.db) && SeenInOrder(u, p.tries)
    ensures var (q, v) := TryAccount(w, cfg, input, enabled, p);
            SeenInOrder(u, q.tries) && SameBut(u, Excluded(q.tried), q.net.db)
  {
    hide Ongoing, PickAccount, SameBut, WithAccount, SeenInOrder, AccountsBefore;
    var seen := w.shift(p.net.step, p.net.db);
    SameByUsage(u, Excluded(p.tried));
    PickKeepsOthers(u, Excluded(p.tried), seen, w.clock(p.net.step));
    var (db, picked) := PickAccount(seen, Excluded(p.tried), w.clock(p.net.step));
    var o := p.(net := Net(db, p.net.step + 1), tried := if picked.Some? then p.tried + [picked.value] else p.tried);
    assert Excluded(o.tried) == if picked.Some? then Excluded(p.tried) + {picked.value} else Excluded(p.tried);
    if !(picked.None? && input.requiresAuth) {
      RotationIsClosed(w, u, Excluded(o.tried), if picked.Some? then picked.value else 0);
      UseKeeps(w, cfg, input, enabled, o, picked, seen, db => SameBut(u, Excluded(o.tried), db));
      var q := TryAccount(w, cfg, input, enabled, p).0;
      if q.tries != p.tries {
        var t := q.tries[|p.tries|];
        assert q.tries == p.tries + [t];
        BeforeIsExcluded(w, cfg, input, p);
        SeenGrows(u, p.tries, t);
      }
    }
  }

  lemma {:induction false} LoopSeesOrder(w: World, cfg: Settings, input: Input, enabled: nat, u: Usage, attempt: nat,
                                         p: Progress)
    requires Undisturbed(w) && Ongoing(w, cfg, input, p) && |p.tries| == attempt <= MAX_ACCOUNT_ATTEMPTS
    requires SameBut(u, Excluded(p.tried), p.net.db) && SeenInOrder(u, p.tries)
    ensures SeenInOrder(u, Loop(w, cfg, input, enabled, attempt, p).p.tries)
    decreases MAX_ACCOUNT_ATTEMPTS - attempt
  {
    hide TryAccount, Ongoing, SeenInOrder, SameBut, Undisturbed, Excluded, Fallback;
    if attempt >= MAX_ACCOUNT_ATTEMPTS {
      FallbackSeesOrder(w, cfg, input, u, p);
    } else {
      AttemptGoesOn(w, cfg, input, enabled, p);
      AttemptSeesOrder(w, cfg, input, enabled, u, p);
      TriesCount(w, cfg, input, p);
      var (q, v) := TryAccount(w, cfg, input, enabled, p);
      match v {
        case Finished(_, _) =>
        case NextAccount =>
          LoopSeesOrder(w, cfg, input, enabled, u, attempt + 1, q);
        case Exhausted =>
          FallbackSeesOrder(w, cfg, input, u, q);
      }
    }
  }

  lemma TriesCount(w: World, cfg: Settings, input: Input, p: Progress)
    requires Ongoing(w, cfg, input, p)
    ensures |p.tried| == |p.tries|
  {
    hide Log;
  }

  lemma FallbackSeesOrder(w: World, cfg: Settings, input: Input, u: Usage, p: Progress)
    requires SeenInOrder(u, p.tries)
    ensures SeenInOrder(u, Fallback(w, cfg, input, p).p.tries)
  {
    hide SeenInOrder, Applied, C.Generated;
    if cfg.fallbackAnonymous && !input.requiresAuth {
      var e := Fallback(w, cfg, input, p);
      SeenGrows(u, p.tries, e.p.tries[|p.tries|]);
    }
  }

  /** While nobody else touches the rotation, the accounts of a request are the first of
      the rotation, in its order. */
  lemma AccountsInRotationOrder(w: World, cfg: Settings, input: Input, db: Db)
    requires Undisturbed(w)
    ensures var tries := Generated(w, cfg, input, db).p.tries;
            && (forall i, j | 0 <= i < j < |tries| && tries[i].account.Some? && tries[j].account.Some? ::
                  Older(UsageOf(db), tries[i].account.value, tries[j].account.value))
            && (forall i, id | 0 <= i < |tries| && tries[i].account.Some? && id in UsageOf(db)
                                && id !in AccountsBefore(tries, |tries|) ::
                  Older(UsageOf(db), tries[i].account.value, id))
  {
    hide Gateway.Generated, SeenInOrder, Log, UsageOf, Older, Undisturbed;
    RequestSeesOrder(w, cfg, input, db);
    RequestIsComplete(w, cfg, input, db);
    var tries := Gateway.Generated(w, cfg, input, db).p.tries;
    InOrder(w, cfg, input, UsageOf(db), tries);
    forall i, id | 0 <= i < |tries| && id !in AccountsBefore(tries, |tries|) ensures id !in AccountsBefore(tries, i) {
      assert AccountsBefore(tries, i) <= AccountsBefore(tries, |tries|);
    }
    forall i | 0 <= i < |tries| && tries[i].account.Some? ensures tries[i].account.value in AccountsBefore(tries, |tries|) {
    }
  }

  lemma RequestSeesOrder(w: World, cfg: Settings, input: Input, db: Db)
    requires Undisturbed(w)
    ensures SeenInOrder(UsageOf(db), Generated(w, cfg, input, db).p.tries)
  {
    hide Loop, SameBut;
    var u := UsageOf(db);
    var counted := w.shift(0, db);
    UntouchedIsSame(u, counted);
    LoopSeesOrder(w, cfg, input, |EnabledAccounts(counted)|, u, 0, Start(counted, 1));
  }

  lemma UntouchedIsSame(u: Usage, db: Db)
    requires UsageOf(db) == u
    ensures SameBut(u, Excluded([]), db)
  {
  }

  lemma InOrder(w: World, cfg: Settings, input: Input, u: Usage, tries: seq<Try>)
    requires Log(w, cfg, input, tries) && SeenInOrder(u, tries)
    ensures forall i, id | 0 <= i < |tries| && tries[i].account.Some? && id in u && id !in AccountsBefore(tries, i) ::
              tries[i].account == Some(id) || Older(u, tries[i].account.value, id)
    ensures forall j | 0 <= j < |tries| && tries[j].account.Some? :: tries[j].account.value in u
    ensures forall i, j | 0 <= i < j < |tries| && tries[i].account.Some? && tries[j].account.Some? ::
              Older(u, tries[i].account.value, tries[j].account.value)
  {
    hide RanClient, RoutedWell, HandsOver;
    forall i, id | 0 <= i < |tries| && tries[i].account.Some? && id in u && id !in AccountsBefore(tries, i)
      ensures tries[i].account == Some(id) || Older(u, tries[i].account.value, id)
    {
      assert TriedWell(w, cfg, input, tries, i);
      PickedIsOlder(u, tries[i], AccountsBefore(tries, i), id);
    }
    forall j | 0 <= j < |tries| && tries[j].account.Some?
      ensures tries[j].account.value in u && tries[j].account.value !in AccountsBefore(tries, j)
    {
      assert TriedWell(w, cfg, input, tries, j);
      PickedIsOlder(u, tries[j], AccountsBefore(tries, j), tries[j].account.value);
    }
    forall i, j | 0 <= i < j < |tries| && tries[i].account.Some? && tries[j].account.Some?
      ensures Older(u, tries[i].account.value, tries[j].account.value)
    {
      assert AccountsBefore(tries, i) <= AccountsBefore(tries, j);
      assert tries[i].account.value in AccountsBefore(tries, j);
    }
  }

  lemma PickedIsOlder(u: Usage, t: Try, before: set<int>, id: int)
    requires LeastRecentlyUsed(t, before) && SameBut(u, before, t.seen) && t.account.Some?
    ensures t.account.value in u && t.account.value !in before
    ensures id in u && id !in before ==> t.account == Some(id) || Older(u, t.account.value, id)
  {
    assert t.account.value in UsageOf(t.seen);
    assert id in u ==> id in UsageOf(t.seen);
  }

  // ---- refused cookies ----

  /** A page without an XSRF token counts against the account, whose cookie is stale. */
  lemma StaleCookieIsCredentialError()
    ensures IsCredentialError(C.Error(0, Tokens.NOT_ACCEPTED))
  {
    var marker := Tokens.SIGNED_IN_COOKIE;
    assert Lower(Tokens.NOT_ACCEPTED)[0..|marker|] == Lower(marker) == marker;
    assert OccursAt(Lower(Tokens.NOT_ACCEPTED), marker, 0);
    FoundSomewhere(Lower(Tokens.NOT_ACCEPTED), marker, 0);
  }

  lemma FoundSomewhere(s: string, m: string, k: nat)
    requires OccursAt(s, m, k)
    ensures Contains(s, m)
  {
    hide OccursAt;
    IndexIsFirst(s, m);
  }
}
