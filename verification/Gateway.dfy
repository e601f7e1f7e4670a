/** One gateway request: account failover, choice of egress, fallback to anonymous access
    and health reports, from internal/gateway/service.go.

    Other requests and administrators act between any two store statements of a request.
    `World.shift(k, db)` is what the tables have become when the k-th statement runs, so
    a statement for all worlds covers every interleaving. */
module Gateway {
  import opened GoStrings
  import Deltas
  import C = Client
  import opened Store
  import opened Rotation
  import Cookies

  const MAX_ACCOUNT_ATTEMPTS: nat := 3

  datatype World = World(clean: Deltas.Cleaner, env: C.Oracle, shift: (nat, Db) -> Db, clock: nat -> int)

  datatype Settings = Settings(maxPromptBytes: int, retryAttempts: int, fallbackAnonymous: bool, fallbackDirect: bool)

  datatype Input = Input(prompt: string, modelKnown: bool, requiresAuth: bool, onContent: bool, onReasoning: bool)

  datatype GatewayError =
    | ContextLength(bytes: nat)
    | ModelUnavailable
    | NoUsableAccount(attempts: nat, last: Option<C.Error>)
    | ProxyUnavailable
    | Upstream(err: C.Error)

  // ---- credential errors ----

  /** `strings.ToLower`, as far as it can produce the letters of ASCII. */
  function LowerChar(c: char): char {
    if 'A' <= c <= 'Z' then c - 'A' + 'a' else if c == '\U{212A}' then 'k' else if c == '\U{130}' then 'i' else c
  }

  function Lower(s: string): string {
    seq(|s|, i requires 0 <= i < |s| => LowerChar(s[i]))
  }

  predicate IsCredentialError(err: C.Error) {
    || err.status == 401 || err.status == 403
    || Contains(Lower(err.message), "signed-in cookie") || Contains(Lower(err.message), "xsrf token")
  }

  // ---- the log of a request ----

  datatype Report = ProxyReport(id: int, success: bool) | AccountReport(id: int, success: bool)

  /** One use of the client: whose account, which proxy, what it did, what was reported.
      `seen` are the tables from which the account was picked, `route` what the egress was
      chosen from. */
  datatype Try = Try(account: Option<int>, proxy: Option<int>, fallback: bool, seen: Db, route: Route,
                     request: C.Request, at: nat, run: C.Outcome, reports: seq<Report>)

  /** The tables and the time at which an egress was chosen. */
  datatype Route = Route(db: Db, now: int)

  /** The tables and the number of store statements run so far. */
  datatype Net = Net(db: Db, step: nat)

  datatype Progress = Progress(net: Net, at: nat, tried: seq<int>, lastErr: Option<C.Error>, proxy: Option<int>,
                               result: C.Result, tries: seq<Try>)

  datatype Execution = Execution(account: Option<int>, err: Option<GatewayError>, p: Progress)

  // ---- choosing the egress ----

  datatype Egress = Through(proxy: int) | Direct | Refused

  /** `pickProxy`, with what it decided on.  `bound` is the account's proxy id as it was
      when the account was picked. */
  ghost function PickEgress(w: World, cfg: Settings, net: Net, account: Option<int>, bound: int): (Net, Egress, Route) {
    var db1 := w.shift(net.step, net.db);
    if EnabledProxies(db1) == {} then (Net(db1, net.step + 1), Direct, Route(db1, w.clock(net.step)))
    else
      var db2 := w.shift(net.step + 1, db1);
      var now := w.clock(net.step + 1);
      var (db3, picked) := PickProxy(db2, bound, now);
      match picked
      case None => (Net(db3, net.step + 2), if cfg.fallbackDirect then Direct else Refused, Route(db2, now))
      case Some(p) =>
        if account.Some? && bound == 0 then
          (Net(BindAccountProxy(w.shift(net.step + 2, db3), account.value, p), net.step + 3), Through(p), Route(db2, now))
        else (Net(db3, net.step + 2), Through(p), Route(db2, now))
  }

  method Interleave(store: Store, w: World, step: nat)
    modifies store
    ensures store.Tables() == w.shift(step, old(store.Tables()))
  {
    var db := w.shift(step, store.Tables());
    store.accounts, store.proxies := db.accounts, db.proxies;
  }

  method ChooseEgress(store: Store, w: World, cfg: Settings, step: nat, account: Option<int>, bound: int)
    returns (next: nat, egress: Egress, route: Route)
    modifies store
    ensures (Net(store.Tables(), next), egress, route) == PickEgress(w, cfg, Net(old(store.Tables()), step), account, bound)
  {
    hide PickProxy;
    Interleave(store, w, step);
    route := Route(store.Tables(), w.clock(step));
    var enabled := store.ProxyCounts();
    if enabled == 0 {
      return step + 1, Direct, route;
    }
    Interleave(store, w, step + 1);
    route := Route(store.Tables(), w.clock(step + 1));
    var picked := store.PickProxyPreferring(bound, w.clock(step + 1));
    if picked.None? {
      return step + 2, if cfg.fallbackDirect then Direct else Refused, route;
    }
    egress := Through(picked.value);
    if account.Some? && bound == 0 {
      Interleave(store, w, step + 2);
      store.Bind(account.value, picked.value);
      return step + 3, egress, route;
    }
    return step + 2, egress, route;
  }

  // ---- what follows a use of the client ----

  predicate Succeeded(run: C.Outcome) {
    run.err.None?
  }

  predicate RefusedCredentials(run: C.Outcome) {
    run.err.Some? && IsCredentialError(run.err.value)
  }

  /** The account is to blame and nothing has reached the client yet. */
  predicate FailsOver(account: Option<int>, run: C.Outcome) {
    account.Some? && RefusedCredentials(run) && !C.Emitted(run.result)
  }

  function ProxyReports(proxy: Option<int>, run: C.Outcome): seq<Report> {
    if proxy.Some? && !RefusedCredentials(run) then [ProxyReport(proxy.value, Succeeded(run))] else []
  }

  function AccountReports(account: Option<int>, run: C.Outcome): seq<Report> {
    if account.Some? && (Succeeded(run) || FailsOver(account, run)) then [AccountReport(account.value, Succeeded(run))]
    else []
  }

  function Reported(db: Db, report: Report, now: int): Db {
    match report
    case ProxyReport(id, success) => ReportProxy(db, id, success, now)
    case AccountReport(id, success) => ReportAccount(db, id, success)
  }

  function Applied(w: World, net: Net, reports: seq<Report>): Net {
    if reports == [] then net
    else
      var before := Applied(w, net, reports[..|reports| - 1]);
      var db := w.shift(before.step, before.db);
      Net(Reported(db, reports[|reports| - 1], w.clock(before.step)), before.step + 1)
  }

  lemma AppliedNone(w: World, net: Net)
    ensures Applied(w, net, []) == net
  {
  }

  lemma AppliedMore(w: World, net: Net, reports: seq<Report>, r: Report)
    ensures var before := Applied(w, net, reports);
            Applied(w, net, reports + [r]) == Net(Reported(w.shift(before.step, before.db), r, w.clock(before.step)), before.step + 1)
  {
    hide Reported;
    assert (reports + [r])[..|reports|] == reports;
  }

  /** The merged cookie header of the account, when it is worth storing. */
  function FreshCookie(cookie: string, setCookies: seq<string>): Option<string> {
    if setCookies == [] then None
    else
      Cookies.MergedIsConsistent(cookie, setCookies);
      var merged := Cookies.Print(Cookies.Merged(cookie, setCookies));
      if merged == cookie then None else Some(Cookies.Normalized(merged))
  }

  function CookieStored(w: World, net: Net, account: Option<int>, cookie: string, run: C.Outcome): Net {
    if account.None? || !Succeeded(run) then net
    else
      match FreshCookie(cookie, run.result.setCookies)
      case None => net
      case Some(merged) => Net(UpdateAccountCookie(w.shift(net.step, net.db), account.value, merged), net.step + 1)
  }

  method SendReports(store: Store, w: World, step: nat, proxy: Option<int>, account: Option<int>, run: C.Outcome)
    returns (next: nat, reports: seq<Report>)
    modifies store
    ensures reports == ProxyReports(proxy, run) + AccountReports(account, run)
    ensures Net(store.Tables(), next) == Applied(w, Net(old(store.Tables()), step), reports)
  {
    hide ReportProxy, ReportAccount, IsCredentialError, Applied, C.Emitted;
    next, reports := step, [];
    ghost var net := Net(store.Tables(), step);
    AppliedNone(w, net);
    if proxy.Some? && (run.err.None? || !IsCredentialError(run.err.value)) {
      Interleave(store, w, next);
      store.ReportProxyHealth(proxy.value, run.err.None?, w.clock(next));
      AppliedMore(w, net, reports, ProxyReport(proxy.value, run.err.None?));
      reports := reports + [ProxyReport(proxy.value, run.err.None?)];
      next := next + 1;
    }
    assert reports == ProxyReports(proxy, run);
    if account.Some? {
      if run.err.None? || (IsCredentialError(run.err.value) && !C.Emitted(run.result)) {
        Interleave(store, w, next);
        store.ReportAccountHealth(account.value, run.err.None?);
        AppliedMore(w, net, reports, AccountReport(account.value, run.err.None?));
        reports := reports + [AccountReport(account.value, run.err.None?)];
        next := next + 1;
      }
    }
  }

  method StoreCookie(store: Store, w: World, step: nat, account: Option<int>, cookie: string, run: C.Outcome)
    returns (next: nat)
    modifies store
    ensures Net(store.Tables(), next) == CookieStored(w, Net(old(store.Tables()), step), account, cookie, run)
  {
    hide Cookies.Consistent, Cookies.Merged, Cookies.Print, Cookies.Normalized, UpdateAccountCookie;
    next := step;
    if account.Some? && run.err.None? && run.result.setCookies != [] {
      var merged := Cookies.MergeSetCookies(cookie, run.result.setCookies);
      if merged != cookie {
        Interleave(store, w, step);
        var stored := Cookies.NormalizeCookie(merged);
        store.SetCookie(account.value, stored);
        next := step + 1;
      }
    }
  }

  // ---- one attempt ----

  function RequestFor(cfg: Settings, input: Input, cookie: string): C.Request {
    C.Request(input.prompt, true, cookie, cfg.retryAttempts, input.onContent, input.onReasoning)
  }

  function CookieOf(seen: Db, account: Option<int>): string {
    if account.Some? && account.value in seen.accounts then seen.accounts[account.value].cookie else ""
  }

  function BoundOf(seen: Db, account: Option<int>): int {
    if account.Some? && account.value in seen.accounts then seen.accounts[account.value].proxyId else 0
  }

  datatype Verdict = Finished(account: Option<int>, err: Option<GatewayError>) | NextAccount | Exhausted

  /** The client is run, and what came of it is reported. */
  function Used(w: World, cfg: Settings, input: Input, p: Progress, account: Option<int>, proxy: Option<int>,
                seen: Db, route: Route): Progress {
    var request := RequestFor(cfg, input, CookieOf(seen, account));
    var run := C.Generated(w.clean, request, w.env, p.at);
    var reports := ProxyReports(proxy, run) + AccountReports(account, run);
    var t := Try(account, proxy, false, seen, route, request, p.at, run, reports);
    Progress(CookieStored(w, Applied(w, p.net, reports), account, request.cookie, run), run.next, p.tried,
             if FailsOver(account, run) then run.err else p.lastErr, proxy, run.result, p.tries + [t])
  }

  function AfterUse(enabled: nat, tried: nat, account: Option<int>, run: C.Outcome): Verdict {
    if !FailsOver(account, run) then Finished(account, if Succeeded(run) then None else Some(Upstream(run.err.value)))
    else if tried >= enabled then Exhausted
    else NextAccount
  }

  ghost function WithAccount(w: World, cfg: Settings, input: Input, enabled: nat, p: Progress, account: Option<int>,
                             seen: Db): (Progress, Verdict) {
    var (net, egress, route) := PickEgress(w, cfg, p.net, account, BoundOf(seen, account));
    if egress.Refused? then (p.(net := net), Finished(account, Some(ProxyUnavailable)))
    else
      var proxy := if egress.Through? then Some(egress.proxy) else None;
      var q := Used(w, cfg, input, p.(net := net), account, proxy, seen, route);
      (q, AfterUse(enabled, |Excluded(p.tried)|, account, q.tries[|p.tries|].run))
  }

  function Excluded(tried: seq<int>): set<int> {
    set a | a in tried
  }

  /** One pass through the account loop. */
  ghost function TryAccount(w: World, cfg: Settings, input: Input, enabled: nat, p: Progress): (Progress, Verdict) {
    var seen := w.shift(p.net.step, p.net.db);
    var (db, picked) := PickAccount(seen, Excluded(p.tried), w.clock(p.net.step));
    var q := p.(net := Net(db, p.net.step + 1), tried := if picked.Some? then p.tried + [picked.value] else p.tried);
    if picked.None? && input.requiresAuth then (q, Finished(None, Some(NoUsableAccount(|Excluded(p.tried)|, p.lastErr))))
    else WithAccount(w, cfg, input, enabled, q, picked, seen)
  }

  method AttemptAccount(store: Store, w: World, cfg: Settings, input: Input, enabled: nat, p: Progress,
                        excluded: set<int>, account: Option<int>, seen: Db) returns (q: Progress, v: Verdict)
    requires p.net.db == store.Tables() && excluded == Excluded(p.tried)
    modifies store
    ensures (q, v) == WithAccount(w, cfg, input, enabled, p, account, seen)
    ensures q.net.db == store.Tables() && q.tried == p.tried
  {
    hide PickEgress, Applied, CookieStored, C.Generated, IsCredentialError;
    var step, egress, route := ChooseEgress(store, w, cfg, p.net.step, account, BoundOf(seen, account));
    if egress.Refused? {
      return p.(net := Net(store.Tables(), step)), Finished(account, Some(ProxyUnavailable));
    }
    var proxy := if egress.Through? then Some(egress.proxy) else None;
    var request := RequestFor(cfg, input, CookieOf(seen, account));
    var run := C.Generate(w.clean, request, w.env, p.at);
    var reports;
    step, reports := SendReports(store, w, step, proxy, account, run);
    step := StoreCookie(store, w, step, account, request.cookie, run);
    var t := Try(account, proxy, false, seen, route, request, p.at, run, reports);
    q := Progress(Net(store.Tables(), step), run.next, p.tried, p.lastErr, proxy, run.result, p.tries + [t]);
    if run.err.None? {
      return q, Finished(account, None);
    }
    if account.None? || !IsCredentialError(run.err.value) || run.result.emittedText != "" || run.result.emittedReasoning != "" {
      return q, Finished(account, Some(Upstream(run.err.value)));
    }
    q := q.(lastErr := run.err);
    return q, if |excluded| >= enabled then Exhausted else NextAccount;
  }

  // ---- the request ----

  /** The last resort: no account, through the proxy of the last attempt. */
  function Fallback(w: World, cfg: Settings, input: Input, p: Progress): Execution {
    if cfg.fallbackAnonymous && !input.requiresAuth then
      var request := RequestFor(cfg, input, "");
      var run := C.Generated(w.clean, request, w.env, p.at);
      var reports := if p.proxy.Some? then [ProxyReport(p.proxy.value, Succeeded(run))] else [];
      var t := Try(None, p.proxy, true, p.net.db, Route(p.net.db, w.clock(p.net.step)), request, p.at, run, reports);
      Execution(None, if Succeeded(run) then None else Some(Upstream(run.err.value)),
                p.(net := Applied(w, p.net, reports), at := run.next, result := run.result, tries := p.tries + [t]))
    else Execution(if p.tried == [] then None else Some(p.tried[|p.tried| - 1]), Some(NoUsableAccount(|Excluded(p.tried)|, p.lastErr)), p)
  }

  ghost function Loop(w: World, cfg: Settings, input: Input, enabled: nat, attempt: nat, p: Progress): Execution
    decreases MAX_ACCOUNT_ATTEMPTS - attempt
  {
    if attempt >= MAX_ACCOUNT_ATTEMPTS then Fallback(w, cfg, input, p)
    else
      var (q, v) := TryAccount(w, cfg, input, enabled, p);
      match v
      case Finished(account, err) => Execution(account, err, q)
      case NextAccount => Loop(w, cfg, input, enabled, attempt + 1, q)
      case Exhausted => Fallback(w, cfg, input, q)
  }

  function Start(db: Db, step: nat): Progress {
    Progress(Net(db, step), 0, [], None, None, C.NO_RESULT, [])
  }

  ghost function Generated(w: World, cfg: Settings, input: Input, db: Db): Execution {
    if cfg.maxPromptBytes > 0 && ByteLen(input.prompt) > cfg.maxPromptBytes then
      Execution(None, Some(ContextLength(ByteLen(input.prompt))), Start(db, 0))
    else
      var counted := w.shift(0, db);
      var enabled := |EnabledAccounts(counted)|;
      if !input.modelKnown || (input.requiresAuth && enabled == 0) then
        Execution(None, Some(ModelUnavailable), Start(counted, 1))
      else Loop(w, cfg, input, enabled, 0, Start(counted, 1))
  }

  method Anonymous(store: Store, w: World, cfg: Settings, input: Input, p: Progress, excluded: set<int>)
    returns (e: Execution)
    requires p.net.db == store.Tables() && excluded == Excluded(p.tried)
    modifies store
    ensures e == Fallback(w, cfg, input, p)
    ensures e.p.net.db == store.Tables()
  {
    hide C.Generated, ReportProxy, Applied;
    if !cfg.fallbackAnonymous || input.requiresAuth {
      return Execution(if p.tried == [] then None else Some(p.tried[|p.tried| - 1]),
                       Some(NoUsableAccount(|excluded|, p.lastErr)), p);
    }
    var request := RequestFor(cfg, input, "");
    var run := C.Generate(w.clean, request, w.env, p.at);
    var step, reports: seq<Report> := p.net.step, [];
    AppliedNone(w, p.net);
    if p.proxy.Some? {
      Interleave(store, w, step);
      store.ReportProxyHealth(p.proxy.value, run.err.None?, w.clock(step));
      AppliedMore(w, p.net, reports, ProxyReport(p.proxy.value, run.err.None?));
      reports := reports + [ProxyReport(p.proxy.value, run.err.None?)];
      step := step + 1;
    }
    assert reports == if p.proxy.Some? then [ProxyReport(p.proxy.value, Succeeded(run))] else [];
    var t := Try(None, p.proxy, true, p.net.db, Route(p.net.db, w.clock(p.net.step)), request, p.at, run, reports);
    e := Execution(None, if run.err.None? then None else Some(Upstream(run.err.value)),
                   p.(net := Net(store.Tables(), step), at := run.next, result := run.result, tries := p.tries + [t]));
  }

  method Generate(store: Store, w: World, cfg: Settings, input: Input) returns (e: Execution)
    modifies store
    ensures e == Generated(w, cfg, input, old(store.Tables()))
    ensures e.p.net.db == store.Tables()
  {
    hide PickAccount, WithAccount, Fallback;
    if cfg.maxPromptBytes > 0 && ByteLen(input.prompt) > cfg.maxPromptBytes {
      return Execution(None, Some(ContextLength(ByteLen(input.prompt))), Start(store.Tables(), 0));
    }
    Interleave(store, w, 0);
    var enabled := store.AccountCounts();
    var p := Start(store.Tables(), 1);
    if !input.modelKnown || (input.requiresAuth && enabled == 0) {
      return Execution(None, Some(ModelUnavailable), p);
    }
    ghost var start := p;
    var excluded: set<int> := {};
    var attempt := 0;
    while attempt < MAX_ACCOUNT_ATTEMPTS
      invariant attempt <= MAX_ACCOUNT_ATTEMPTS
      invariant p.net.db == store.Tables()
      invariant excluded == Excluded(p.tried)
      invariant Loop(w, cfg, input, enabled, 0, start) == Loop(w, cfg, input, enabled, attempt, p)
    {
      Interleave(store, w, p.net.step);
      var seen := store.Tables();
      var account := store.PickAccountExcluding(excluded, w.clock(p.net.step));
      var q := p.(net := Net(store.Tables(), p.net.step + 1));
      if account.Some? {
        excluded := excluded + {account.value};
        assert excluded == Excluded(p.tried + [account.value]);
        q := q.(tried := p.tried + [account.value]);
      }
      if account.None? && input.requiresAuth {
        return Execution(None, Some(NoUsableAccount(|excluded|, p.lastErr)), q);
      }
      var r, v := AttemptAccount(store, w, cfg, input, enabled, q, excluded, account, seen);
      assert (r, v) == TryAccount(w, cfg, input, enabled, p);
      p := r;
      match v
      case Finished(who, err) =>
        return Execution(who, err, p);
      case NextAccount =>
        attempt := attempt + 1;
      case Exhausted =>
        break;
    }
    e := Anonymous(store, w, cfg, input, p, excluded);
  }
}
