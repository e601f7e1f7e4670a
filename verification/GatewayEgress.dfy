/** Through which proxy a gateway request leaves, and how long an account keeps its proxy. */
module GatewayEgress {
  import opened GoStrings
  import C = Client
  import opened Store
  import opened Gateway
  import opened GatewayLaws
  import opened GatewayAccounts
  import A = Affinity

  /** Every try leaves as an attempt on the account tables decided: without a proxy only if
      none was enabled then, or all were cooling down and going direct is allowed; and
      through the account's own proxy whenever that could be used. */
  lemma EgressIsAllowed(w: World, cfg: Settings, input: Input, db: Db, k: nat) returns (j: nat)
    requires k < |Generated(w, cfg, input, db).p.tries|
    ensures var tries := Generated(w, cfg, input, db).p.tries;
            && j <= k && !tries[j].fallback && tries[k].proxy == tries[j].proxy
            && (!tries[k].fallback ==> j == k)
            && RoutedWell(cfg, tries[j])
  {
    hide Gateway.Generated, RanClient, ReportedWell, LeastRecentlyUsed, RoutedWell, IsCredentialError;
    RequestIsComplete(w, cfg, input, db);
    var tries := Gateway.Generated(w, cfg, input, db).p.tries;
    assert TriedWell(w, cfg, input, tries, k);
    j := k;
    if tries[k].fallback {
      j := k - 1;
      assert TriedWell(w, cfg, input, tries, j) && HandsOver(tries[j]);
    }
  }

  /** Which of the three ways out is taken: none without a proxy that could be used, unless no
      proxy was enabled at all or going direct is allowed. */
  lemma EgressExactly(w: World, cfg: Settings, net: Net, account: Option<int>, bound: int)
    ensures var counted := w.shift(net.step, net.db);
            var (_, egress, route) := PickEgress(w, cfg, net, account, bound);
            var some := exists id :: Usable(route.db, id, route.now);
            && (egress.Through? <==> EnabledProxies(counted) != {} && some)
            && (egress.Refused? <==> EnabledProxies(counted) != {} && !some && !cfg.fallbackDirect)
            && (egress.Through? ==> Usable(route.db, egress.proxy, route.now))
  {
    hide EnabledProxies, PickProxy, BindAccountProxy;
    var counted := w.shift(net.step, net.db);
    PickedProxy(w.shift(net.step + 1, counted), bound, w.clock(net.step + 1));
  }

  // ---- affinity ----

  /** Others leave the account bound to this proxy, once it is. */
  ghost predicate KeepsBinding(w: World, account: int, proxy: int) {
    forall k: nat, db | A.BoundTo(account, proxy, db) :: A.BoundTo(account, proxy, w.shift(k, db))
  }

  /** Others do not remove the account. */
  ghost predicate KeepsAccount(w: World, account: int) {
    forall k: nat, db: Db | account in db.accounts :: account in w.shift(k, db).accounts
  }

  lemma BindingIsClosed(w: World, account: int, proxy: int, other: int)
    requires KeepsBinding(w, account, proxy)
    ensures Closed(w, db => A.BoundTo(account, proxy, db))
    ensures other != account ==> Binds(db => A.BoundTo(account, proxy, db), other)
    ensures Stores(db => A.BoundTo(account, proxy, db), other)
  {
  }

  lemma AccountIsClosed(w: World, account: int, other: int)
    requires KeepsAccount(w, account)
    ensures Closed(w, (db: Db) => account in db.accounts)
    ensures Binds((db: Db) => account in db.accounts, other) && Stores((db: Db) => account in db.accounts, other)
  {
  }

  lemma PickKeepsBinding(db: Db, excluded: set<int>, now: int, account: int)
    ensures var after := PickAccount(db, excluded, now).0;
            account in db.accounts ==>
              account in after.accounts && after.accounts[account].proxyId == db.accounts[account].proxyId
  {
  }

  /** A bound account stays bound through an attempt, and is seen so. */
  lemma AttemptKeepsBinding(w: World, cfg: Settings, input: Input, enabled: nat, p: Progress, account: int, proxy: int)
    requires KeepsBinding(w, account, proxy) && proxy != 0 && A.BoundTo(account, proxy, p.net.db)
    ensures var (q, _) := TryAccount(w, cfg, input, enabled, p);
            && A.BoundTo(account, proxy, q.net.db)
            && |p.tries| <= |q.tries| && q.tries[..|p.tries|] == p.tries
            && (forall k | |p.tries| <= k < |q.tries| && q.tries[k].account == Some(account) ::
                  BoundOf(q.tries[k].seen, Some(account)) == proxy)
  {
    hide PickAccount, WithAccount, Excluded;
    var seen := w.shift(p.net.step, p.net.db);
    PickKeepsBinding(seen, Excluded(p.tried), w.clock(p.net.step), account);
    var (db, picked) := PickAccount(seen, Excluded(p.tried), w.clock(p.net.step));
    var o := p.(net := Net(db, p.net.step + 1), tried := if picked.Some? then p.tried + [picked.value] else p.tried);
    if !(picked.None? && input.requiresAuth) {
      BindingIsClosed(w, account, proxy, if picked.Some? then picked.value else 0);
      UseKeeps(w, cfg, input, enabled, o, picked, seen, db => A.BoundTo(account, proxy, db));
    }
  }

  /** In a run of attempts from p to e. */
  ghost predicate SeenBound(p: Progress, e: Progress, account: int, proxy: int) {
    && |p.tries| <= |e.tries| && e.tries[..|p.tries|] == p.tries
    && A.BoundTo(account, proxy, e.net.db)
    && forall k | |p.tries| <= k < |e.tries| && e.tries[k].account == Some(account) ::
         BoundOf(e.tries[k].seen, Some(account)) == proxy
  }

  lemma FallbackKeepsBinding(w: World, cfg: Settings, input: Input, p: Progress, account: int, proxy: int)
    requires KeepsBinding(w, account, proxy) && A.BoundTo(account, proxy, p.net.db)
    ensures SeenBound(p, Fallback(w, cfg, input, p).p, account, proxy)
  {
    hide Applied, C.Generated;
    BindingIsClosed(w, account, proxy, 0);
    FallbackKeeps(w, cfg, input, p, db => A.BoundTo(account, proxy, db));
  }

  lemma {:induction false} LoopKeepsBinding(w: World, cfg: Settings, input: Input, enabled: nat, attempt: nat,
                                            p: Progress,
                                            account: int, proxy: int)
    requires KeepsBinding(w, account, proxy) && proxy != 0 && A.BoundTo(account, proxy, p.net.db)
    ensures SeenBound(p, Loop(w, cfg, input, enabled, attempt, p).p, account, proxy)
    decreases MAX_ACCOUNT_ATTEMPTS - attempt
  {
    hide TryAccount, Fallback, KeepsBinding, BoundOf;
    if attempt >= MAX_ACCOUNT_ATTEMPTS {
      FallbackKeepsBinding(w, cfg, input, p, account, proxy);
    } else {
      AttemptKeepsBinding(w, cfg, input, enabled, p, account, proxy);
      var (q, v) := TryAccount(w, cfg, input, enabled, p);
      match v {
        case Finished(_, _) =>
        case NextAccount =>
          LoopKeepsBinding(w, cfg, input, enabled, attempt + 1, q, account, proxy);
          SeenBoundOn(p, q, Loop(w, cfg, input, enabled, attempt + 1, q).p, account, proxy);
        case Exhausted =>
          FallbackKeepsBinding(w, cfg, input, q, account, proxy);
          SeenBoundOn(p, q, Fallback(w, cfg, input, q).p, account, proxy);
      }
    }
  }

  lemma SeenBoundOn(p: Progress, q: Progress, e: Progress, account: int, proxy: int)
    requires SeenBound(p, q, account, proxy) && SeenBound(q, e, account, proxy)
    ensures SeenBound(p, e, account, proxy)
  {
    assert e.tries[..|p.tries|] == e.tries[..|q.tries|][..|p.tries|];
    assert forall k | 0 <= k < |q.tries| :: e.tries[k] == e.tries[..|q.tries|][k];
  }

  /** A request does not unbind a bound account: while others leave the binding alone it
      stays, and everything sent with the account leaves through its proxy as long as that
      is enabled and not cooling down. */
  lemma BoundAccountKeepsProxy(w: World, cfg: Settings, input: Input, db: Db, account: int, proxy: int)
    requires KeepsBinding(w, account, proxy) && proxy != 0 && A.BoundTo(account, proxy, db)
    ensures var e := Generated(w, cfg, input, db);
            && A.BoundTo(account, proxy, e.p.net.db)
            && (forall t | t in e.p.tries && t.account == Some(account) && Usable(t.route.db, proxy, t.route.now) ::
                  t.proxy == Some(proxy))
  {
    hide Loop, TriedWell, KeepsBinding, Usable, BoundOf;
    var e := Gateway.Generated(w, cfg, input, db);
    var counted := w.shift(0, db);
    FirstShift(w, db, account, proxy);
    LoopKeepsBinding(w, cfg, input, |EnabledAccounts(counted)|, 0, Start(counted, 1), account, proxy);
    RequestIsComplete(w, cfg, input, db);
    forall k | 0 <= k < |e.p.tries| && e.p.tries[k].account == Some(account)
               && Usable(e.p.tries[k].route.db, proxy, e.p.tries[k].route.now)
      ensures e.p.tries[k].proxy == Some(proxy)
    {
      EgressOfAccount(w, cfg, input, e.p.tries, k);
    }
  }

  lemma FirstShift(w: World, db: Db, account: int, proxy: int)
    requires KeepsBinding(w, account, proxy) && proxy != 0 && A.BoundTo(account, proxy, db)
    ensures A.BoundTo(account, proxy, w.shift(0, db))
  {
  }

  lemma EgressOfAccount(w: World, cfg: Settings, input: Input, tries: seq<Try>, k: nat)
    requires Log(w, cfg, input, tries) && k < |tries| && tries[k].account.Some?
    ensures RoutedWell(cfg, tries[k])
  {
    hide RanClient, LeastRecentlyUsed, RoutedWell, HandsOver;
    assert TriedWell(w, cfg, input, tries, k);
  }

  // ---- becoming bound ----

  /** The try used an account that was seen unbound, through a proxy. */
  predicate BindsNow(t: Try, account: int, proxy: int) {
    !t.fallback && t.account == Some(account) && BoundOf(t.seen, t.account) == 0 && t.proxy == Some(proxy)
  }

  lemma AttemptBinds(w: World, cfg: Settings, input: Input, enabled: nat, p: Progress, account: int, proxy: int)
    requires KeepsBinding(w, account, proxy) && KeepsAccount(w, account) && account in p.net.db.accounts
    ensures var (q, _) := TryAccount(w, cfg, input, enabled, p);
            && account in q.net.db.accounts
            && |p.tries| <= |q.tries| && q.tries[..|p.tries|] == p.tries
            && (forall k | |p.tries| <= k < |q.tries| && BindsNow(q.tries[k], account, proxy) ::
                  A.BoundTo(account, proxy, q.net.db))
  {
    hide PickAccount, Excluded, PickEgress, Applied, CookieStored, C.Generated, IsCredentialError, RequestFor;
    var seen := w.shift(p.net.step, p.net.db);
    PickKeepsBinding(seen, Excluded(p.tried), w.clock(p.net.step), account);
    var (db, picked) := PickAccount(seen, Excluded(p.tried), w.clock(p.net.step));
    var o := p.(net := Net(db, p.net.step + 1), tried := if picked.Some? then p.tried + [picked.value] else p.tried);
    if !(picked.None? && input.requiresAuth) {
      BindingIsClosed(w, account, proxy, if picked.Some? then picked.value else 0);
      AccountIsClosed(w, account, if picked.Some? then picked.value else 0);
      UseKeeps(w, cfg, input, enabled, o, picked, seen, (db: Db) => account in db.accounts);
      EgressBinds(w, cfg, o.net, picked, seen, account, proxy);
      var (net, egress, route) := PickEgress(w, cfg, o.net, picked, BoundOf(seen, picked));
      if egress == Through(proxy) && picked == Some(account) && BoundOf(seen, picked) == 0 {
        var q := Used(w, cfg, input, o.(net := net), picked, Some(proxy), seen, route);
        var t := q.tries[|p.tries|];
        ReportsKeep(w, net, t.reports, db => A.BoundTo(account, proxy, db));
        CookieKeeps(w, Applied(w, net, t.reports), picked, t.request.cookie, t.run, db => A.BoundTo(account, proxy, db));
      }
    }
  }

  lemma EgressBinds(w: World, cfg: Settings, net: Net, picked: Option<int>, seen: Db, account: int, proxy: int)
    requires KeepsAccount(w, account) && account in net.db.accounts
    ensures var (after, egress, _) := PickEgress(w, cfg, net, picked, BoundOf(seen, picked));
            egress == Through(proxy) && picked == Some(account) && BoundOf(seen, picked) == 0 ==> A.BoundTo(account, proxy, after.db)
  {
    hide EnabledProxies;
  }

  /** In a run of attempts from p to e: a try that used the account unbound left it bound. */
  ghost predicate BecameBound(p: Progress, e: Progress, account: int, proxy: int) {
    && |p.tries| <= |e.tries| && e.tries[..|p.tries|] == p.tries
    && (forall k | |p.tries| <= k < |e.tries| && BindsNow(e.tries[k], account, proxy) :: A.BoundTo(account, proxy, e.net.db))
  }

  lemma BoundIsNotBoundAgain(p: Progress, q: Progress, e: Progress, account: int, proxy: int)
    requires BecameBound(p, q, account, proxy)
    requires BecameBound(q, e, account, proxy)
    requires A.BoundTo(account, proxy, q.net.db) ==> A.BoundTo(account, proxy, e.net.db)
    ensures BecameBound(p, e, account, proxy)
  {
    assert e.tries[..|p.tries|] == e.tries[..|q.tries|][..|p.tries|];
    assert forall k | 0 <= k < |q.tries| :: e.tries[k] == e.tries[..|q.tries|][k];
  }

  lemma FallbackBecameBound(w: World, cfg: Settings, input: Input, p: Progress, account: int, proxy: int)
    requires KeepsBinding(w, account, proxy)
    ensures var e := Fallback(w, cfg, input, p).p;
            BecameBound(p, e, account, proxy) && (A.BoundTo(account, proxy, p.net.db) ==> A.BoundTo(account, proxy, e.net.db))
  {
    hide Applied, C.Generated, KeepsBinding, A.BoundTo;
    if A.BoundTo(account, proxy, p.net.db) {
      FallbackKeepsBinding(w, cfg, input, p, account, proxy);
    }
  }

  lemma {:induction false} LoopBinds(w: World, cfg: Settings, input: Input, enabled: nat, attempt: nat, p: Progress,
                                     account: int, proxy: int)
    requires KeepsBinding(w, account, proxy) && proxy != 0 && KeepsAccount(w, account) && account in p.net.db.accounts
    ensures BecameBound(p, Loop(w, cfg, input, enabled, attempt, p).p, account, proxy)
    decreases MAX_ACCOUNT_ATTEMPTS - attempt
  {
    hide TryAccount, Fallback, KeepsBinding, KeepsAccount, BindsNow;
    if attempt >= MAX_ACCOUNT_ATTEMPTS {
      FallbackBecameBound(w, cfg, input, p, account, proxy);
    } else {
      AttemptBinds(w, cfg, input, enabled, p, account, proxy);
      var (q, v) := TryAccount(w, cfg, input, enabled, p);
      match v {
        case Finished(_, _) =>
        case NextAccount =>
          var e := Loop(w, cfg, input, enabled, attempt + 1, q).p;
          LoopBinds(w, cfg, input, enabled, attempt + 1, q, account, proxy);
          if A.BoundTo(account, proxy, q.net.db) {
            LoopKeepsBinding(w, cfg, input, enabled, attempt + 1, q, account, proxy);
          }
          BoundIsNotBoundAgain(p, q, e, account, proxy);
        case Exhausted =>
          FallbackBecameBound(w, cfg, input, q, account, proxy);
          BoundIsNotBoundAgain(p, q, Fallback(w, cfg, input, q).p, account, proxy);
      }
    }
  }

  /** An unbound account that is used through a proxy is bound to it when the request ends,
      whatever it was bound to before this request's bind, unless others end the binding
      after it. */
  lemma UnboundAccountIsBound(w: World, cfg: Settings, input: Input, db: Db, account: int, proxy: int)
    requires KeepsBinding(w, account, proxy) && proxy != 0 && KeepsAccount(w, account) && account in db.accounts
    ensures var e := Generated(w, cfg, input, db);
            forall t | t in e.p.tries && BindsNow(t, account, proxy) :: A.BoundTo(account, proxy, e.p.net.db)
  {
    hide Loop, BindsNow;
    var counted := w.shift(0, db);
    LoopBinds(w, cfg, input, |EnabledAccounts(counted)|, 0, Start(counted, 1), account, proxy);
  }

  // ---- one request after another ----

  datatype Job = Job(w: World, cfg: Settings, input: Input)

  ghost function RunAll(db: Db, jobs: seq<Job>): seq<Execution>
    ensures |RunAll(db, jobs)| == |jobs|
    decreases |jobs|
  {
    if jobs == [] then [] else
      var e := Generated(jobs[0].w, jobs[0].cfg, jobs[0].input, db);
      [e] + RunAll(e.p.net.db, jobs[1..])
  }

  /** A bound account keeps its proxy over any number of requests, while what runs between
      their statements leaves the binding alone; when that is so is what
      `Affinity.BindingLastsExactly` says. */
  lemma {:induction false} AffinityLasts(db: Db, jobs: seq<Job>, account: int, proxy: int)
    requires proxy != 0 && A.BoundTo(account, proxy, db) && forall j | j in jobs :: KeepsBinding(j.w, account, proxy)
    ensures forall i, t | 0 <= i < |jobs| && t in RunAll(db, jobs)[i].p.tries && t.account == Some(account)
                          && Usable(t.route.db, proxy, t.route.now) :: t.proxy == Some(proxy)
    decreases |jobs|
  {
    hide Gateway.Generated, KeepsBinding, Usable, A.BoundTo;
    if jobs != [] {
      var e := Gateway.Generated(jobs[0].w, jobs[0].cfg, jobs[0].input, db);
      assert jobs[0] in jobs;
      BoundAccountKeepsProxy(jobs[0].w, jobs[0].cfg, jobs[0].input, db, account, proxy);
      AffinityLasts(e.p.net.db, jobs[1..], account, proxy);
      assert forall i | 0 < i < |jobs| :: RunAll(db, jobs)[i] == RunAll(e.p.net.db, jobs[1..])[i - 1];
    }
  }

  // ---- the statements of a request ----

  /** The pick of an account is the move that remembers it. */
  lemma PickIsRemembered(seen: Db, requests: map<nat, A.Memory>, r: nat, excluded: set<int>, now: int)
    ensures var (db, picked) := PickAccount(seen, excluded, now);
            picked.Some? ==>
              A.Apply(A.State(seen, requests), A.PickAccountFor(r, excluded, now))
              == A.State(db, requests[r := A.Memory(picked.value, BoundOf(seen, picked), None)])
  {
    PickedAccount(seen, excluded, now);
  }

  /** Choosing the egress runs the two moves that follow, with others in between. */
  lemma EgressMakesMoves(w: World, cfg: Settings, net: Net, account: int, bound: int, requests: map<nat, A.Memory>, r: nat)
    ensures var db1 := w.shift(net.step, net.db);
            var s := A.State(w.shift(net.step + 1, db1), requests[r := A.Memory(account, bound, None)]);
            var t := A.Apply(s, A.PickProxyFor(r, w.clock(net.step + 1)));
            var u := A.Apply(t.(db := w.shift(net.step + 2, t.db)), A.BindFor(r));
            var (after, egress, _) := PickEgress(w, cfg, net, Some(account), bound);
            if EnabledProxies(db1) == {} then after.db == db1
            else
              && (egress.Through? ==> t.requests[r].chosen == Some(egress.proxy))
              && (egress.Through? <==> t.requests[r].chosen.Some?)
              && after.db == if egress.Through? && bound == 0 then u.db else t.db
  {
    hide EnabledProxies, PickProxy;
  }
}
