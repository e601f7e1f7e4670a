/** How long an account keeps its proxy, over every interleaving of many requests and of
    administrators.  A request binds an account by what it saw when it picked it, so between
    the pick and the bind others may have bound it, or deleted the proxy. */
module Affinity {
  import opened GoStrings
  import opened Rotation
  import opened Store

  /** What a request remembers: its account, the proxy this was bound to when it was picked,
      and the proxy that was chosen and is still to be bound. */
  datatype Memory = Memory(account: int, bound: int, chosen: Option<int>)

  datatype State = State(db: Db, requests: map<nat, Memory>)

  /** One statement; the first three are those of requests that decide on bindings. */
  datatype Move =
    | PickAccountFor(request: nat, excluded: set<int>, now: int)
    | PickProxyFor(request: nat, now: int)
    | BindFor(request: nat)
    | ReportAccountHealth(id: int, success: bool)
    | ReportProxyHealth(id: int, success: bool, now: int)
    | SetCookie(id: int, cookie: string)
    | AddProxy(id: int, url: string, enabled: bool)
    | EditProxy(id: int, url: string, enabled: bool, urlChanged: bool)
    | ClearProxy(id: int)
    | RemoveProxy(id: int)
    | AddAccount(id: int, cookie: string, enabled: bool, proxyId: int)
    | EditAccount(id: int, cookie: string, enabled: bool, proxyId: int, cookieChanged: bool)
    | RemoveAccount(id: int)

  /** The request is about to bind its account. */
  predicate WillBind(m: Memory) {
    m.bound == 0 && m.chosen.Some?
  }

  function Administered(db: Db, m: Move): Db {
    match m
    case ReportAccountHealth(id, success) => ReportAccount(db, id, success)
    case ReportProxyHealth(id, success, now) => ReportProxy(db, id, success, now)
    case SetCookie(id, cookie) => UpdateAccountCookie(db, id, cookie)
    case AddProxy(id, url, enabled) => if id in db.proxies then db else CreateProxy(db, id, url, enabled)
    case EditProxy(id, url, enabled, urlChanged) => WriteProxy(db, id, url, enabled, urlChanged)
    case ClearProxy(id) => ResetProxy(db, id)
    case RemoveProxy(id) => DeleteProxy(db, id)
    case AddAccount(id, cookie, enabled, proxyId) =>
      if id in db.accounts then db else db.(accounts := db.accounts[id := Account(cookie, enabled, Unknown, proxyId, 0, 0)])
    case EditAccount(id, cookie, enabled, proxyId, cookieChanged) =>
      if id !in db.accounts then db
      else
        var edited := db.accounts[id].(cookie := cookie, enabled := enabled, proxyId := proxyId);
        db.(accounts := db.accounts[id := if cookieChanged then edited.(status := Unknown, failureCount := 0) else edited])
    case RemoveAccount(id) => db.(accounts := db.accounts - {id})
    case _ => db
  }

  ghost function Apply(s: State, m: Move): State {
    match m
    case PickAccountFor(r, excluded, now) =>
      var (db, picked) := PickAccount(s.db, excluded, now);
      if picked.Some? && picked.value in s.db.accounts then
        State(db, s.requests[r := Memory(picked.value, s.db.accounts[picked.value].proxyId, None)])
      else State(db, s.requests - {r})
    case PickProxyFor(r, now) =>
      if r !in s.requests then s
      else
        var (db, picked) := PickProxy(s.db, s.requests[r].bound, now);
        State(db, s.requests[r := s.requests[r].(chosen := picked)])
    case BindFor(r) =>
      if r !in s.requests then s
      else
        var mem := s.requests[r];
        State(if WillBind(mem) then BindAccountProxy(s.db, mem.account, mem.chosen.value) else s.db,
              s.requests[r := mem.(chosen := None)])
    case _ => s.(db := Administered(s.db, m))
  }

  ghost function Run(s: State, moves: seq<Move>): State {
    if moves == [] then s else Apply(Run(s, moves[..|moves| - 1]), moves[|moves| - 1])
  }

  predicate BoundTo(account: int, proxy: int, db: Db) {
    account in db.accounts && db.accounts[account].proxyId == proxy
  }

  lemma RunMore(s: State, moves: seq<Move>, m: Move)
    ensures Run(s, moves + [m]) == Apply(Run(s, moves), m)
  {
    hide Apply;
    assert (moves + [m])[..|moves|] == moves;
  }

  // ---- how a binding ends ----

  /** The move ends the binding of account `a` to proxy `p` in this state. */
  predicate Ends(s: State, m: Move, a: int, p: int) {
    match m
    case BindFor(r) =>
      r in s.requests && s.requests[r].account == a && WillBind(s.requests[r]) && s.requests[r].chosen.value != p
    case _ => EndedByAdmin(s, m, a, p)
  }

  predicate EndedByAdmin(s: State, m: Move, a: int, p: int) {
    match m
    case RemoveProxy(id) => id == p && p in s.db.proxies
    case EditAccount(id, _, _, proxyId, _) => id == a && proxyId != p
    case RemoveAccount(id) => id == a
    case _ => false
  }

  lemma StepEnds(s: State, m: Move, a: int, p: int)
    requires BoundTo(a, p, s.db) && p != 0
    ensures BoundTo(a, p, Apply(s, m).db) <==> !Ends(s, m, a, p)
  {
    hide First, AccountRanks, ProxyRanks;
  }

  ghost predicate StaysBound(s: State, moves: seq<Move>, a: int, p: int) {
    forall k | 0 <= k <= |moves| :: BoundTo(a, p, Run(s, moves[..k]).db)
  }

  predicate Picks(moves: seq<Move>, r: nat) {
    exists k | 0 <= k < |moves| :: moves[k].PickAccountFor? && moves[k].request == r
  }

  /** What a request can remember of an account that has been bound to `p` all along. */
  ghost predicate Remembers(s: State, moves: seq<Move>, a: int, p: int, r: nat) {
    var t := Run(s, moves);
    r in t.requests && t.requests[r].account == a ==>
      if Picks(moves, r) then t.requests[r].bound == p
      else r in s.requests && s.requests[r].account == a && s.requests[r].bound == t.requests[r].bound
  }

  lemma StepRemembers(s: State, m: Move, a: int, p: int, r: nat)
    requires BoundTo(a, p, s.db)
    ensures var t := Apply(s, m);
            r in t.requests && t.requests[r].account == a ==>
              if m.PickAccountFor? && m.request == r then t.requests[r].bound == p
              else r in s.requests && s.requests[r].account == a && s.requests[r].bound == t.requests[r].bound
  {
    hide PickAccount, PickProxy;
  }

  lemma StaysBoundBefore(s: State, moves: seq<Move>, a: int, p: int)
    requires moves != []
    ensures StaysBound(s, moves, a, p) <==> StaysBound(s, moves[..|moves| - 1], a, p) && BoundTo(a, p, Run(s, moves).db)
  {
    hide BoundTo, Run;
    var n := |moves| - 1;
    assert forall k | 0 <= k <= n :: moves[..n][..k] == moves[..k];
    assert moves[..n + 1] == moves;
    assert StaysBound(s, moves, a, p) ==> BoundTo(a, p, Run(s, moves[..n + 1]).db);
  }

  lemma BoundNow(s: State, moves: seq<Move>, a: int, p: int)
    requires StaysBound(s, moves, a, p)
    ensures BoundTo(a, p, Run(s, moves).db)
  {
    assert moves[..|moves|] == moves;
  }

  /** While an account stays bound, a request that picks it sees that, so only requests that
      picked it earlier can still take it for unbound. */
  lemma {:induction false} OnlyEarlierPicksForget(s: State, moves: seq<Move>, a: int, p: int, r: nat)
    requires StaysBound(s, moves, a, p)
    ensures Remembers(s, moves, a, p, r)
    decreases |moves|
  {
    hide Apply, BoundTo, StaysBound;
    if moves != [] {
      var n := |moves| - 1;
      var init, m := moves[..n], moves[n];
      StaysBoundBefore(s, moves, a, p);
      OnlyEarlierPicksForget(s, init, a, p, r);
      BoundNow(s, init, a, p);
      StepRemembers(Run(s, init), m, a, p, r);
      PicksMore(moves, r);
    }
  }

  lemma PicksMore(moves: seq<Move>, r: nat)
    requires moves != []
    ensures var m := moves[|moves| - 1];
            Picks(moves, r) <==> Picks(moves[..|moves| - 1], r) || (m.PickAccountFor? && m.request == r)
  {
    var n := |moves| - 1;
    if Picks(moves, r) {
      var k :| 0 <= k < |moves| && moves[k].PickAccountFor? && moves[k].request == r;
      assert k < n ==> moves[..n][k] == moves[k];
    }
  }

  /** A request that had picked the account while it was unbound, and has not picked anew,
      binds it to another proxy. */
  ghost predicate LateBind(s: State, moves: seq<Move>, k: nat, a: int, p: int)
    requires k < |moves|
  {
    var t := Run(s, moves[..k]);
    && moves[k].BindFor?
    && var r := moves[k].request;
    && r in s.requests && s.requests[r].account == a && s.requests[r].bound == 0 && !Picks(moves[..k], r)
    && r in t.requests && t.requests[r].account == a && WillBind(t.requests[r]) && t.requests[r].chosen.value != p
  }

  ghost predicate NothingEnds(s: State, moves: seq<Move>, a: int, p: int) {
    forall k | 0 <= k < |moves| :: !LateBind(s, moves, k, a, p) && !EndedByAdmin(Run(s, moves[..k]), moves[k], a, p)
  }

  lemma NothingEndsBefore(s: State, moves: seq<Move>, a: int, p: int)
    requires moves != []
    ensures var n := |moves| - 1;
            NothingEnds(s, moves, a, p) <==>
              && NothingEnds(s, moves[..n], a, p)
              && !LateBind(s, moves, n, a, p) && !EndedByAdmin(Run(s, moves[..n]), moves[n], a, p)
  {
    hide Run, EndedByAdmin, Picks;
    var n := |moves| - 1;
    forall k | 0 <= k < n ensures moves[..n][..k] == moves[..k] && (LateBind(s, moves[..n], k, a, p) <==> LateBind(s, moves, k, a, p)) {
      assert moves[..n][..k] == moves[..k];
    }
  }

  lemma EndsExactly(s: State, moves: seq<Move>, a: int, p: int)
    requires moves != [] && StaysBound(s, moves[..|moves| - 1], a, p) && p != 0
    ensures var n := |moves| - 1;
            Ends(Run(s, moves[..n]), moves[n], a, p) <==>
              LateBind(s, moves, n, a, p) || EndedByAdmin(Run(s, moves[..n]), moves[n], a, p)
  {
    hide Run, StaysBound, Picks;
    var n := |moves| - 1;
    if moves[n].BindFor? {
      OnlyEarlierPicksForget(s, moves[..n], a, p, moves[n].request);
    }
  }

  /** An account that is bound to a proxy stays bound to it throughout a history if and only
      if no request that had picked it unbound before binds it to another one afterwards, and
      no administrator deletes the proxy or the account or assigns another proxy. */
  lemma {:induction false} BindingLastsExactly(s: State, moves: seq<Move>, a: int, p: int)
    requires BoundTo(a, p, s.db) && p != 0
    ensures StaysBound(s, moves, a, p) <==> NothingEnds(s, moves, a, p)
    decreases |moves|
  {
    hide Apply, Ends, EndedByAdmin, LateBind, NothingEnds, StaysBound, BoundTo;
    if moves == [] {
      StartsBound(s, a, p);
    } else {
      var n := |moves| - 1;
      BindingLastsExactly(s, moves[..n], a, p);
      StaysBoundBefore(s, moves, a, p);
      NothingEndsBefore(s, moves, a, p);
      if StaysBound(s, moves[..n], a, p) {
        BoundNow(s, moves[..n], a, p);
        EndsExactly(s, moves, a, p);
        StepEnds(Run(s, moves[..n]), moves[n], a, p);
      }
    }
  }

  lemma StartsBound(s: State, a: int, p: int)
    requires BoundTo(a, p, s.db)
    ensures StaysBound(s, [], a, p) && NothingEnds(s, [], a, p)
  {
  }

  /** While the account stays bound, every request that picks it leaves through its proxy
      whenever that is usable. */
  lemma LaterRequestsLeaveThrough(s: State, moves: seq<Move>, a: int, p: int, r: nat, now: int)
    requires StaysBound(s, moves, a, p) && Picks(moves, r)
    requires r in Run(s, moves).requests && Run(s, moves).requests[r].account == a && Usable(Run(s, moves).db, p, now)
    ensures Apply(Run(s, moves), PickProxyFor(r, now)).requests[r].chosen == Some(p)
  {
    hide Run, StaysBound, Picks, PickProxy, PickAccount;
    OnlyEarlierPicksForget(s, moves, a, p, r);
    PickedProxy(Run(s, moves).db, p, now);
  }

  // ---- the two ways in which binding late goes wrong ----

  const FRESH_ACCOUNT := Account("", true, Unknown, 0, 0, 0)
  const FRESH_PROXY := Proxy("", true, Unknown, 0, 0, 0)

  lemma PickOnly(s: State, a: int, r: nat, now: int)
    requires s.db.accounts.Keys == {a} && s.db.accounts[a].enabled
    ensures var t := Apply(s, PickAccountFor(r, {}, now));
            && t == State(s.db.(accounts := s.db.accounts[a := s.db.accounts[a].(lastUsedAt := now)]),
                          s.requests[r := Memory(a, s.db.accounts[a].proxyId, None)])
  {
    PickedAccount(s.db, {}, now);
    assert a in s.db.accounts.Keys;
    var picked := PickAccount(s.db, {}, now).1;
    assert picked.Some? ==> picked.value in s.db.accounts.Keys;
  }

  /** Two requests that overlap: both pick the account unbound, the first binds it to `p` and
      the second, though `p` is enabled, usable and touched by nobody, to `q`. */
  lemma OverlappingRequestsRebind(a: int, p: int, q: int, now: int) returns (s: State, moves: seq<Move>)
    requires 0 < p < q && now > 0
    ensures s == State(Db(map[a := FRESH_ACCOUNT], map[p := FRESH_PROXY, q := FRESH_PROXY]), map[])
    ensures moves == [PickAccountFor(0, {}, now), PickAccountFor(1, {}, now), PickProxyFor(0, now), BindFor(0),
                      PickProxyFor(1, now), BindFor(1)]
    ensures BoundTo(a, p, Run(s, moves[..4]).db) && Usable(Run(s, moves).db, p, now)
    ensures BoundTo(a, q, Run(s, moves).db)
  {
    hide Apply, First, Run;
    s := State(Db(map[a := FRESH_ACCOUNT], map[p := FRESH_PROXY, q := FRESH_PROXY]), map[]);
    moves := [];
    RunNothing(s);
    PickOnly(Run(s, moves), a, 0, now);
    RunMore(s, moves, PickAccountFor(0, {}, now));
    moves := moves + [PickAccountFor(0, {}, now)];
    PickOnly(Run(s, moves), a, 1, now);
    RunMore(s, moves, PickAccountFor(1, {}, now));
    moves := moves + [PickAccountFor(1, {}, now)];
    ChooseAndBind(Run(s, moves), a, 0, now, p);
    RunMore(s, moves, PickProxyFor(0, now));
    moves := moves + [PickProxyFor(0, now)];
    RunMore(s, moves, BindFor(0));
    moves := moves + [BindFor(0)];
    var bound := moves;
    ChooseAndBind(Run(s, moves), a, 1, now, q);
    RunMore(s, moves, PickProxyFor(1, now));
    moves := moves + [PickProxyFor(1, now)];
    RunMore(s, moves, BindFor(1));
    moves := moves + [BindFor(1)];
    assert moves[..4] == bound;
  }

  lemma RunNothing(s: State)
    ensures Run(s, []) == s
  {
  }

  /** A request that saw its account unbound binds it to the least recently used proxy. */
  lemma ChooseAndBind(s: State, a: int, r: nat, now: int, p: int)
    requires r in s.requests && s.requests[r].account == a && s.requests[r].bound == 0 && a in s.db.accounts
    requires 0 !in s.db.proxies && Usable(s.db, p, now)
    requires forall other | other in s.db.proxies && Usable(s.db, other, now) && other != p ::
               || s.db.proxies[p].lastUsedAt < s.db.proxies[other].lastUsedAt
               || (s.db.proxies[p].lastUsedAt == s.db.proxies[other].lastUsedAt && p < other)
    ensures var t := Apply(s, PickProxyFor(r, now));
            && t.requests == s.requests[r := Memory(a, 0, Some(p))] && t.db.accounts == s.db.accounts
            && t.db.proxies == s.db.proxies[p := s.db.proxies[p].(lastUsedAt := now)]
            && var u := Apply(t, BindFor(r));
            && u.requests == s.requests[r := Memory(a, 0, None)] && u.db.proxies == t.db.proxies
            && u.db.accounts == s.db.accounts[a := s.db.accounts[a].(proxyId := p)]
  {
    PickedProxy(s.db, 0, now);
    assert s.requests[r := Memory(a, 0, Some(p))][r := Memory(a, 0, None)] == s.requests[r := Memory(a, 0, None)];
  }

  /** Every account that is bound is bound to a proxy that exists. */
  predicate NothingDangles(db: Db) {
    forall a | a in db.accounts && db.accounts[a].proxyId != 0 :: db.accounts[a].proxyId in db.proxies
  }

  /** The move binds or assigns a proxy that does not exist. */
  predicate BindsMissing(s: State, m: Move) {
    match m
    case BindFor(r) =>
      && r in s.requests && WillBind(s.requests[r]) && s.requests[r].account in s.db.accounts
      && s.requests[r].chosen.value != 0 && s.requests[r].chosen.value !in s.db.proxies
    case AddAccount(id, _, _, proxyId) => id !in s.db.accounts && proxyId != 0 && proxyId !in s.db.proxies
    case EditAccount(id, _, _, proxyId, _) => id in s.db.accounts && proxyId != 0 && proxyId !in s.db.proxies
    case _ => false
  }

  lemma StepDangles(s: State, m: Move)
    requires NothingDangles(s.db)
    ensures NothingDangles(Apply(s, m).db) <==> !BindsMissing(s, m)
  {
    hide First, AccountRanks, ProxyRanks;
    match m {
      case BindFor(r) =>
        if BindsMissing(s, m) {
          assert s.requests[r].account in Apply(s, m).db.accounts;
        }
      case AddAccount(id, _, _, proxyId) =>
        assert id in Apply(s, m).db.accounts;
      case EditAccount(id, _, _, proxyId, _) =>
        assert id in s.db.accounts ==> id in Apply(s, m).db.accounts;
      case _ =>
    }
  }

  ghost predicate NeverDangles(s: State, moves: seq<Move>) {
    forall k | 0 <= k <= |moves| :: NothingDangles(Run(s, moves[..k]).db)
  }

  ghost predicate NeverBindsMissing(s: State, moves: seq<Move>) {
    forall k | 0 <= k < |moves| :: !BindsMissing(Run(s, moves[..k]), moves[k])
  }

  lemma DanglesBefore(s: State, moves: seq<Move>)
    requires moves != []
    ensures var n := |moves| - 1;
            && (NeverDangles(s, moves) <==> NeverDangles(s, moves[..n]) && NothingDangles(Run(s, moves).db))
            && (NeverDangles(s, moves[..n]) ==> NothingDangles(Run(s, moves[..n]).db))
  {
    hide Run, NothingDangles;
    var n := |moves| - 1;
    assert forall k | 0 <= k <= n :: moves[..n][..k] == moves[..k];
    assert moves[..n + 1] == moves && moves[..n][..n] == moves[..n];
    assert NeverDangles(s, moves) ==> NothingDangles(Run(s, moves[..n + 1]).db);
    assert NeverDangles(s, moves[..n]) ==> NothingDangles(Run(s, moves[..n][..n]).db);
  }

  lemma MissingBefore(s: State, moves: seq<Move>)
    requires moves != []
    ensures var n := |moves| - 1;
            NeverBindsMissing(s, moves) <==> NeverBindsMissing(s, moves[..n]) && !BindsMissing(Run(s, moves[..n]), moves[n])
  {
    hide Run, BindsMissing;
    var n := |moves| - 1;
    assert forall k | 0 <= k < n :: moves[..n][..k] == moves[..k];
  }

  /** Throughout a history every bound account has its proxy, if and only if no bind runs for
      a proxy that was deleted since it was chosen, and no administrator assigns one that
      does not exist. */
  lemma {:induction false} BindingsAreSoundExactly(s: State, moves: seq<Move>)
    requires NothingDangles(s.db)
    ensures NeverDangles(s, moves) <==> NeverBindsMissing(s, moves)
    decreases |moves|
  {
    hide Apply, NothingDangles, BindsMissing, NeverDangles, NeverBindsMissing;
    if moves == [] {
      NeverYet(s);
    } else {
      var n := |moves| - 1;
      DanglesBefore(s, moves);
      MissingBefore(s, moves);
      BindingsAreSoundExactly(s, moves[..n]);
      if NeverDangles(s, moves[..n]) {
        StepDangles(Run(s, moves[..n]), moves[n]);
      }
    }
  }

  lemma NeverYet(s: State)
    requires NothingDangles(s.db)
    ensures NeverDangles(s, []) && NeverBindsMissing(s, [])
  {
  }

  /** A proxy deleted between the choice and the bind: the account ends bound to nothing, and
      no request that picks it then binds it again, as it does not look unbound. */
  lemma DeletedProxyIsBound(a: int, p: int, now: int) returns (s: State, moves: seq<Move>)
    requires 0 < p && now > 0
    ensures s == State(Db(map[a := FRESH_ACCOUNT], map[p := FRESH_PROXY]), map[])
    ensures moves == [PickAccountFor(0, {}, now), PickProxyFor(0, now), RemoveProxy(p), BindFor(0), PickAccountFor(1, {}, now)]
    ensures var t := Run(s, moves);
            && BoundTo(a, p, t.db) && t.db.proxies == map[]
            && 1 in t.requests && t.requests[1].account == a && !WillBind(t.requests[1].(chosen := Some(p)))
  {
    hide Apply, First, Run;
    s := State(Db(map[a := FRESH_ACCOUNT], map[p := FRESH_PROXY]), map[]);
    moves := [];
    RunNothing(s);
    PickOnly(Run(s, moves), a, 0, now);
    RunMore(s, moves, PickAccountFor(0, {}, now));
    moves := moves + [PickAccountFor(0, {}, now)];
    ChooseAndBind(Run(s, moves), a, 0, now, p);
    RunMore(s, moves, PickProxyFor(0, now));
    moves := moves + [PickProxyFor(0, now)];
    DeleteThenBind(Run(s, moves), a, p);
    RunMore(s, moves, RemoveProxy(p));
    moves := moves + [RemoveProxy(p)];
    RunMore(s, moves, BindFor(0));
    moves := moves + [BindFor(0)];
    PickOnly(Run(s, moves), a, 1, now);
    RunMore(s, moves, PickAccountFor(1, {}, now));
    moves := moves + [PickAccountFor(1, {}, now)];
  }

  lemma DeleteThenBind(s: State, a: int, p: int)
    requires s.db.accounts.Keys == {a} && s.db.accounts[a].proxyId == 0 && s.db.accounts[a].enabled && p != 0
    requires s.db.proxies.Keys == {p} && 0 in s.requests && s.requests[0] == Memory(a, 0, Some(p))
    ensures var t := Apply(Apply(s, RemoveProxy(p)), BindFor(0));
            && t.db.accounts.Keys == {a} && t.db.accounts[a].proxyId == p && t.db.accounts[a].enabled
            && t.db.proxies == map[]
  {
    assert p in s.db.proxies.Keys && a in s.db.accounts.Keys;
    assert DeleteProxy(s.db, p).proxies == map[];
  }
}
