/** The cookies of accounts across gateway requests: upstream's fresh cookies reach the
    account that served, and no other cookie changes. */
module GatewayCookies {
  import opened GoStrings
  import C = Client
  import opened Cookies
  import CookieLaws
  import opened Store
  import opened Gateway
  import opened GatewayLaws
  import opened GatewayAccounts
  import opened GatewayEgress

  predicate CookieIs(account: int, cookie: string, db: Db) {
    account in db.accounts && db.accounts[account].cookie == cookie
  }

  /** Others leave the account with this cookie, while it has it. */
  ghost predicate KeepsCookie(w: World, account: int, cookie: string) {
    forall k: nat, db | CookieIs(account, cookie, db) :: CookieIs(account, cookie, w.shift(k, db))
  }

  lemma CookieIsClosed(w: World, account: int, cookie: string, other: int)
    requires KeepsCookie(w, account, cookie)
    ensures Closed(w, db => CookieIs(account, cookie, db)) && Binds(db => CookieIs(account, cookie, db), other)
    ensures other != account ==> Stores(db => CookieIs(account, cookie, db), other)
  {
  }

  lemma PickKeepsCookie(w: World, account: int, cookie: string, net: Net, excluded: set<int>, now: int)
    requires KeepsCookie(w, account, cookie) && CookieIs(account, cookie, net.db)
    ensures CookieIs(account, cookie, w.shift(net.step, net.db))
    ensures CookieIs(account, cookie, PickAccount(w.shift(net.step, net.db), excluded, now).0)
  {
  }

  /** What a run leaves as the account's cookie. */
  function CookieAfter(cookie: string, run: C.Outcome): string {
    if !Succeeded(run) then cookie else
      match FreshCookie(cookie, run.result.setCookies)
      case None => cookie
      case Some(merged) => merged
  }

  lemma StoredOnce(w: World, net: Net, account: int, cookie: string, run: C.Outcome)
    requires KeepsCookie(w, account, cookie) && CookieIs(account, cookie, net.db)
    ensures CookieIs(account, CookieAfter(cookie, run), CookieStored(w, net, Some(account), cookie, run).db)
  {
    hide FreshCookie;
  }

  /** The cookie after a use of the client. */
  function AfterTry(account: int, cookie: string, who: Option<int>, run: C.Outcome): string {
    if who == Some(account) then CookieAfter(cookie, run) else cookie
  }

  lemma UseStoresCookie(w: World, cfg: Settings, input: Input, enabled: nat, p: Progress, who: Option<int>, seen: Db,
                        account: int, cookie: string)
    requires KeepsCookie(w, account, cookie) && CookieIs(account, cookie, p.net.db) && CookieIs(account, cookie, seen)
    ensures var (q, _) := WithAccount(w, cfg, input, enabled, p, who, seen);
            if q.tries == p.tries then CookieIs(account, cookie, q.net.db)
            else |q.tries| == |p.tries| + 1
                 && CookieIs(account, AfterTry(account, cookie, who, q.tries[|p.tries|].run), q.net.db)
  {
    hide PickEgress, Applied, CookieStored, C.Generated, CookieAfter, AfterUse, IsCredentialError, CookieIs, KeepsCookie;
    CookieIsClosed(w, account, cookie, if who.Some? then who.value else 0);
    EgressKeeps(w, cfg, p.net, who, BoundOf(seen, who), db => CookieIs(account, cookie, db));
    var (net, egress, route) := PickEgress(w, cfg, p.net, who, BoundOf(seen, who));
    if !egress.Refused? {
      var proxy := if egress.Through? then Some(egress.proxy) else None;
      var q := Used(w, cfg, input, p.(net := net), who, proxy, seen, route);
      var t := q.tries[|p.tries|];
      ReportsKeep(w, net, t.reports, db => CookieIs(account, cookie, db));
      SeenCookie(seen, account, cookie);
      if who == Some(account) {
        StoredOnce(w, Applied(w, net, t.reports), account, cookie, t.run);
      } else {
        CookieKeeps(w, Applied(w, net, t.reports), who, t.request.cookie, t.run, db => CookieIs(account, cookie, db));
      }
    }
  }

  lemma SeenCookie(seen: Db, account: int, cookie: string)
    requires CookieIs(account, cookie, seen)
    ensures CookieOf(seen, Some(account)) == cookie
  {
  }

  lemma AttemptStoresCookie(w: World, cfg: Settings, input: Input, enabled: nat, p: Progress, account: int, cookie: string)
    requires KeepsCookie(w, account, cookie) && CookieIs(account, cookie, p.net.db) && Ongoing(w, cfg, input, p)
    ensures var (q, v) := TryAccount(w, cfg, input, enabled, p);
            && (!v.Finished? || v.err.Some? ==> CookieIs(account, cookie, q.net.db))
            && (v.Finished? && v.err.None? ==>
                  q.tries != [] && CookieIs(account, AfterTry(account, cookie, v.account, q.tries[|q.tries| - 1].run), q.net.db))
  {
    hide Log, PickAccount, WithAccount, Excluded, CookieIs, KeepsCookie, IsCredentialError, FreshCookie;
    AttemptIsLogged(w, cfg, input, enabled, p);
    var now := w.clock(p.net.step);
    PickKeepsCookie(w, account, cookie, p.net, Excluded(p.tried), now);
    var seen := w.shift(p.net.step, p.net.db);
    var (db, picked) := PickAccount(seen, Excluded(p.tried), now);
    var o := p.(net := Net(db, p.net.step + 1), tried := if picked.Some? then p.tried + [picked.value] else p.tried);
    if !(picked.None? && input.requiresAuth) {
      UseStoresCookie(w, cfg, input, enabled, o, picked, seen, account, cookie);
      UsedAccount(w, cfg, input, enabled, o, picked, seen);
    }
  }

  lemma UsedAccount(w: World, cfg: Settings, input: Input, enabled: nat, p: Progress, who: Option<int>, seen: Db)
    ensures var (q, v) := WithAccount(w, cfg, input, enabled, p, who, seen);
            (v.Finished? ==> v.account == who) && (q.tries == p.tries ==> v.Finished? && v.err.Some?)
  {
    hide PickEgress, Applied, CookieStored, C.Generated, IsCredentialError;
    var (net, egress, route) := PickEgress(w, cfg, p.net, who, BoundOf(seen, who));
    if !egress.Refused? {
      var proxy := if egress.Through? then Some(egress.proxy) else None;
      assert |Used(w, cfg, input, p.(net := net), who, proxy, seen, route).tries| == |p.tries| + 1;
    }
  }

  lemma FallbackKeepsCookie(w: World, cfg: Settings, input: Input, p: Progress, account: int, cookie: string)
    requires KeepsCookie(w, account, cookie) && CookieIs(account, cookie, p.net.db)
    ensures var e := Fallback(w, cfg, input, p);
            CookieIs(account, cookie, e.p.net.db) && (e.err.None? ==> e.account.None?)
  {
    hide Applied, C.Generated;
    CookieIsClosed(w, account, cookie, 0);
    FallbackKeeps(w, cfg, input, p, db => CookieIs(account, cookie, db));
  }

  /** What a request leaves as the account's cookie. */
  function CookieLeft(account: int, cookie: string, e: Execution): string {
    if e.err.None? && e.account == Some(account) && e.p.tries != [] then
      CookieAfter(cookie, e.p.tries[|e.p.tries| - 1].run)
    else cookie
  }

  lemma {:induction false} LoopStoresCookie(w: World, cfg: Settings, input: Input, enabled: nat, attempt: nat, p: Progress,
                                            account: int, cookie: string)
    requires KeepsCookie(w, account, cookie) && CookieIs(account, cookie, p.net.db)
    requires Ongoing(w, cfg, input, p) && |p.tries| == attempt <= MAX_ACCOUNT_ATTEMPTS
    ensures var e := Loop(w, cfg, input, enabled, attempt, p);
            CookieIs(account, CookieLeft(account, cookie, e), e.p.net.db)
    decreases MAX_ACCOUNT_ATTEMPTS - attempt
  {
    hide TryAccount, Fallback, Ongoing, CookieIs, KeepsCookie, CookieAfter;
    if attempt >= MAX_ACCOUNT_ATTEMPTS {
      FallbackKeepsCookie(w, cfg, input, p, account, cookie);
    } else {
      AttemptGoesOn(w, cfg, input, enabled, p);
      AttemptStoresCookie(w, cfg, input, enabled, p, account, cookie);
      var (q, v) := TryAccount(w, cfg, input, enabled, p);
      match v {
        case Finished(_, _) =>
        case NextAccount =>
          LoopStoresCookie(w, cfg, input, enabled, attempt + 1, q, account, cookie);
        case Exhausted =>
          FallbackKeepsCookie(w, cfg, input, q, account, cookie);
      }
    }
  }

  /** A request changes the cookie of the account that served it, by merging what upstream
      set, and no other. */
  lemma CookieOfAccount(w: World, cfg: Settings, input: Input, db: Db, account: int, cookie: string)
    requires KeepsCookie(w, account, cookie) && CookieIs(account, cookie, db)
    ensures var e := Generated(w, cfg, input, db);
            CookieIs(account, CookieLeft(account, cookie, e), e.p.net.db)
  {
    hide Loop, TriedWell, CookieIs, KeepsCookie, CookieLeft;
    NothingStored(w, db, account, cookie);
    var counted := w.shift(0, db);
    LoopStoresCookie(w, cfg, input, |EnabledAccounts(counted)|, 0, Start(counted, 1), account, cookie);
    NobodyServed(account, cookie);
  }

  lemma NothingStored(w: World, db: Db, account: int, cookie: string)
    requires KeepsCookie(w, account, cookie) && CookieIs(account, cookie, db)
    ensures CookieIs(account, cookie, w.shift(0, db))
  {
  }

  lemma NobodyServed(account: int, cookie: string)
    ensures forall e: Execution | e.err.Some? :: CookieLeft(account, cookie, e) == cookie
  {
  }

  /** `normalizeCookie` takes the header for JSON. */
  predicate Braced(header: string) {
    header != "" && header[0] == '{'
  }

  predicate ServedBy(e: Execution, account: int) {
    e.err.None? && e.account == Some(account)
  }

  function MergedHeader(cookie: string, setCookies: seq<string>): string {
    MergedIsConsistent(cookie, setCookies);
    Print(Merged(cookie, setCookies))
  }

  // ---- cookies that others store meanwhile ----

  /** The last try's fresh cookies are in the table, merged into the cookie it was sent with. */
  predicate StoredLast(p: Progress, account: int) {
    && p.tries != []
    && var t := p.tries[|p.tries| - 1];
    match FreshCookie(t.request.cookie, t.run.result.setCookies)
    case None => true
    case Some(header) => account in p.net.db.accounts ==> p.net.db.accounts[account].cookie == header
  }

  lemma UseStoresLast(w: World, cfg: Settings, input: Input, enabled: nat, p: Progress, account: int, seen: Db)
    ensures var (q, v) := WithAccount(w, cfg, input, enabled, p, Some(account), seen);
            v.Finished? && v.err.None? ==> v.account == Some(account) && StoredLast(q, account)
  {
    hide PickEgress, Applied, C.Generated, IsCredentialError, FreshCookie;
    var (net, egress, route) := PickEgress(w, cfg, p.net, Some(account), BoundOf(seen, Some(account)));
    if !egress.Refused? {
      var proxy := if egress.Through? then Some(egress.proxy) else None;
      var q := Used(w, cfg, input, p.(net := net), Some(account), proxy, seen, route);
      assert q.tries[|q.tries| - 1] == q.tries[|p.tries|];
    }
  }

  lemma AttemptStoresLast(w: World, cfg: Settings, input: Input, enabled: nat, p: Progress)
    ensures var (q, v) := TryAccount(w, cfg, input, enabled, p);
            v.Finished? && v.err.None? && v.account.Some? ==> StoredLast(q, v.account.value)
  {
    hide PickAccount, WithAccount, Excluded, StoredLast;
    var seen := w.shift(p.net.step, p.net.db);
    var (db, picked) := PickAccount(seen, Excluded(p.tried), w.clock(p.net.step));
    var o := p.(net := Net(db, p.net.step + 1), tried := if picked.Some? then p.tried + [picked.value] else p.tried);
    if picked.Some? {
      UseStoresLast(w, cfg, input, enabled, o, picked.value, seen);
    } else if !input.requiresAuth {
      UsedAccount(w, cfg, input, enabled, o, picked, seen);
    }
  }

  lemma {:induction false} LoopStoresLast(w: World, cfg: Settings, input: Input, enabled: nat, attempt: nat, p: Progress)
    ensures var e := Loop(w, cfg, input, enabled, attempt, p);
            e.err.None? && e.account.Some? ==> StoredLast(e.p, e.account.value)
    decreases MAX_ACCOUNT_ATTEMPTS - attempt
  {
    hide TryAccount, StoredLast, C.Generated, Applied;
    if attempt < MAX_ACCOUNT_ATTEMPTS {
      AttemptStoresLast(w, cfg, input, enabled, p);
      var (q, v) := TryAccount(w, cfg, input, enabled, p);
      if v.NextAccount? {
        LoopStoresLast(w, cfg, input, enabled, attempt + 1, q);
      }
    }
  }

  /** In every world: the account that served, if it is still there, ends with the fresh
      cookies merged into the cookie it was picked with.  A cookie that another request or
      an administrator stored since the pick is lost. */
  lemma ServedCookieIsStored(w: World, cfg: Settings, input: Input, db: Db, account: int)
    ensures var e := Generated(w, cfg, input, db);
            ServedBy(e, account) ==>
              && e.p.tries != []
              && var seen := e.p.tries[|e.p.tries| - 1].seen;
              && account in seen.accounts
              && var header := MergedHeader(seen.accounts[account].cookie, e.p.result.setCookies);
              (e.p.result.setCookies != [] && header != seen.accounts[account].cookie && account in e.p.net.db.accounts ==>
                 e.p.net.db.accounts[account].cookie == Normalized(header))
  {
    hide Loop, Merged, Print, Consistent, Normalized, ProxyReports, AccountReports, RoutedWell, HandsOver, C.Generated;
    RequestIsComplete(w, cfg, input, db);
    var e := Gateway.Generated(w, cfg, input, db);
    var counted := w.shift(0, db);
    LoopStoresLast(w, cfg, input, |EnabledAccounts(counted)|, 0, Start(counted, 1));
    if ServedBy(e, account) {
      assert TriedWell(w, cfg, input, e.p.tries, |e.p.tries| - 1);
    }
  }

  /** The cookie that the serving account was picked with. */
  function PickedCookie(e: Execution): string
    requires e.p.tries != []
  {
    var t := e.p.tries[|e.p.tries| - 1];
    CookieOf(t.seen, t.account)
  }

  /** In every world: a header that changed by merging, and does not start with a brace, is
      what the account that served ends with, if it is still there. */
  lemma MergedIsStored(w: World, cfg: Settings, input: Input, db: Db, account: int)
    ensures var e := Generated(w, cfg, input, db);
            ServedBy(e, account) && e.p.result.setCookies != [] && account in e.p.net.db.accounts ==>
              && e.p.tries != []
              && var header := MergedHeader(PickedCookie(e), e.p.result.setCookies);
              (header != PickedCookie(e) && !Braced(header) ==> CookieIs(account, header, e.p.net.db))
  {
    hide Gateway.Generated, Merged, Print, Normalized, Consistent, Log;
    var e := Gateway.Generated(w, cfg, input, db);
    ServedCookieIsStored(w, cfg, input, db, account);
    ServedLast(w, cfg, input, db, account);
    if ServedBy(e, account) {
      CookieLaws.NormalizingKeepsMerged(PickedCookie(e), e.p.result.setCookies);
    }
  }

  lemma ServedLast(w: World, cfg: Settings, input: Input, db: Db, account: int)
    ensures var e := Generated(w, cfg, input, db);
            ServedBy(e, account) ==> e.p.tries != [] && e.p.tries[|e.p.tries| - 1].account == Some(account)
  {
    hide Loop, ProxyReports, AccountReports, RoutedWell, HandsOver, C.Generated;
    RequestIsComplete(w, cfg, input, db);
  }

  /** In all worlds: when an account that serves two requests is picked for the second with
      what the first stored, it ends with what a single merge of both batches of cookies
      gives. */
  lemma CookiesAccumulate(first: Job, second: Job, db: Db, later: Db, account: int)
    ensures var e := Generated(first.w, first.cfg, first.input, db);
            var f := Generated(second.w, second.cfg, second.input, later);
            ServedBy(e, account) && ServedBy(f, account) && f.p.result.setCookies != [] && account in f.p.net.db.accounts ==>
              && e.p.tries != [] && f.p.tries != []
              && var once := MergedHeader(PickedCookie(e), e.p.result.setCookies);
              var both := MergedHeader(PickedCookie(e), e.p.result.setCookies + f.p.result.setCookies);
              (PickedCookie(f) == once && both != once && !Braced(both) ==> CookieIs(account, both, f.p.net.db))
  {
    hide Gateway.Generated, Merged, Print, CookieIs, Consistent, Braced, PickedCookie;
    var e := Gateway.Generated(first.w, first.cfg, first.input, db);
    var f := Gateway.Generated(second.w, second.cfg, second.input, later);
    ServedLast(first.w, first.cfg, first.input, db, account);
    MergedIsStored(second.w, second.cfg, second.input, later, account);
    if ServedBy(e, account) && ServedBy(f, account) {
      CookieLaws.MergingComposes(PickedCookie(e), e.p.result.setCookies, f.p.result.setCookies);
    }
  }
}
