/** What a gateway request reports about proxies and accounts, counted over the whole request. */
module GatewayReports {
  import opened GoStrings
  import C = Client
  import opened Store
  import opened Gateway
  import opened GatewayLaws
  import opened GatewayAccounts

  function AllReports(tries: seq<Try>): seq<Report> {
    if tries == [] then [] else AllReports(tries[..|tries| - 1]) + tries[|tries| - 1].reports
  }

  /** What each try owes: its proxy is reported unless the account was to blame, its account
      when it served or was refused. */
  predicate Owes(t: Try, r: Report) {
    match r
    case ProxyReport(id, success) =>
      t.proxy == Some(id) && success == Succeeded(t.run) && (t.fallback || !RefusedCredentials(t.run))
    case AccountReport(id, success) =>
      t.account == Some(id) && (if success then Succeeded(t.run) else HandsOver(t))
  }

  function Owed(tries: seq<Try>, r: Report): nat {
    if tries == [] then 0 else Owed(tries[..|tries| - 1], r) + (if Owes(tries[|tries| - 1], r) then 1 else 0)
  }

  lemma OneReport(reports: seq<Report>, r: Report)
    requires |reports| <= 1
    ensures multiset(reports)[r] == if reports == [r] then 1 else 0
  {
    if |reports| == 1 {
      assert reports == [reports[0]];
    }
  }

  lemma ProxyPays(t: Try, r: Report)
    requires !t.fallback
    ensures multiset(ProxyReports(t.proxy, t.run))[r] == if r.ProxyReport? && Owes(t, r) then 1 else 0
  {
    hide IsCredentialError, C.Emitted;
    OneReport(ProxyReports(t.proxy, t.run), r);
  }

  lemma AccountPays(t: Try, r: Report)
    requires !t.fallback
    ensures multiset(AccountReports(t.account, t.run))[r] == if r.AccountReport? && Owes(t, r) then 1 else 0
  {
    hide IsCredentialError, C.Emitted;
    OneReport(AccountReports(t.account, t.run), r);
  }

  lemma TryPays(t: Try, r: Report)
    requires ReportedWell(t)
    ensures multiset(t.reports)[r] == if Owes(t, r) then 1 else 0
  {
    hide IsCredentialError, C.Emitted, ProxyReports, AccountReports;
    if t.fallback {
      OneReport(t.reports, r);
    } else {
      var a, b := ProxyReports(t.proxy, t.run), AccountReports(t.account, t.run);
      assert multiset(a + b) == multiset(a) + multiset(b);
      ProxyPays(t, r);
      AccountPays(t, r);
    }
  }

  lemma {:induction false} ReportsArePaid(tries: seq<Try>, r: Report)
    requires forall t | t in tries :: ReportedWell(t)
    ensures multiset(AllReports(tries))[r] == Owed(tries, r)
  {
    hide ReportedWell, Owes;
    if tries != [] {
      var n := |tries| - 1;
      ReportsArePaid(tries[..n], r);
      TryPays(tries[n], r);
      assert multiset(AllReports(tries)) == multiset(AllReports(tries[..n])) + multiset(tries[n].reports);
    }
  }

  lemma {:induction false} OwedOnce(tries: seq<Try>, r: Report)
    requires forall i, j | 0 <= i < j < |tries| && Owes(tries[i], r) :: !Owes(tries[j], r)
    ensures Owed(tries, r) == if exists k | 0 <= k < |tries| :: Owes(tries[k], r) then 1 else 0
  {
    hide Owes;
    if tries != [] {
      var n := |tries| - 1;
      OwedOnce(tries[..n], r);
      assert (exists k | 0 <= k < |tries| :: Owes(tries[k], r))
        <==> Owes(tries[n], r) || exists k | 0 <= k < n :: Owes(tries[..n][k], r);
    }
  }

  lemma EveryTryReportedWell(w: World, cfg: Settings, input: Input, db: Db)
    ensures forall t | t in Generated(w, cfg, input, db).p.tries :: ReportedWell(t)
  {
    hide Gateway.Generated, RanClient, ReportedWell, RoutedWell, HandsOver, LeastRecentlyUsed;
    RequestIsComplete(w, cfg, input, db);
    var tries := Gateway.Generated(w, cfg, input, db).p.tries;
    forall k | 0 <= k < |tries| ensures ReportedWell(tries[k]) {
      assert TriedWell(w, cfg, input, tries, k);
    }
  }

  /** Exactly the reports that the tries owe are made, each as often as it is owed. */
  lemma ReportsAreExact(w: World, cfg: Settings, input: Input, db: Db, r: Report)
    ensures var tries := Generated(w, cfg, input, db).p.tries;
            multiset(AllReports(tries))[r] == Owed(tries, r)
  {
    hide Gateway.Generated, ReportedWell, Owes;
    EveryTryReportedWell(w, cfg, input, db);
    ReportsArePaid(Gateway.Generated(w, cfg, input, db).p.tries, r);
  }

  /** An account is reported failed once if it was refused before any output, and otherwise
      not at all; the only account reported healthy, and once, is the one that served. */
  lemma AccountReportsAreExact(w: World, cfg: Settings, input: Input, db: Db, id: int)
    ensures var e := Generated(w, cfg, input, db);
            var tries, all := e.p.tries, multiset(AllReports(e.p.tries));
            && all[AccountReport(id, true)] == (if e.err.None? && e.account == Some(id) then 1 else 0)
            && all[AccountReport(id, false)] ==
               (if exists k | 0 <= k < |tries| :: tries[k].account == Some(id) && HandsOver(tries[k]) then 1 else 0)
  {
    hide Gateway.Generated, Log, ReportedWell;
    var e := Gateway.Generated(w, cfg, input, db);
    var tries := e.p.tries;
    ReportsAreExact(w, cfg, input, db, AccountReport(id, true));
    ReportsAreExact(w, cfg, input, db, AccountReport(id, false));
    AccountsAreDistinct(w, cfg, input, db);
    forall s: bool, i, j | 0 <= i < j < |tries| && Owes(tries[i], AccountReport(id, s)) ensures !Owes(tries[j], AccountReport(id, s)) {
      assert tries[i].account != tries[j].account;
    }
    OwedOnce(tries, AccountReport(id, true));
    OwedOnce(tries, AccountReport(id, false));
    ServedIsLast(w, cfg, input, db);
    assert forall k | 0 <= k < |tries| ::
      (Owes(tries[k], AccountReport(id, false)) <==> tries[k].account == Some(id) && HandsOver(tries[k]));
    assert forall k | 0 <= k < |tries| ::
      (Owes(tries[k], AccountReport(id, true)) <==> tries[k].account == Some(id) && k == |tries| - 1 && e.err.None?);
    if e.err.None? && e.account == Some(id) {
      assert Owes(tries[|tries| - 1], AccountReport(id, true));
    }
  }

  lemma ServedIsLast(w: World, cfg: Settings, input: Input, db: Db)
    ensures var e := Generated(w, cfg, input, db); var tries := e.p.tries;
            && (forall k | 0 <= k < |tries| :: Succeeded(tries[k].run) <==> k == |tries| - 1 && e.err.None?)
            && (e.err.None? ==> tries != [] && e.account == tries[|tries| - 1].account)
  {
    hide Gateway.Generated, TriedWell, IsCredentialError;
    RequestIsComplete(w, cfg, input, db);
    var tries := Gateway.Generated(w, cfg, input, db).p.tries;
    forall k | 0 <= k < |tries| - 1 ensures !Succeeded(tries[k].run) {
      assert HandsOver(tries[k]);
    }
  }
}
