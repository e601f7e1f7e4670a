/** The account and proxy tables of internal/store.  Every SQL statement, and every
    transaction, is one step; what a step does is a function on the tables' contents and
    the methods of `Store` carry it out in place. */
module Store {
  import opened GoStrings
  import opened Rotation

  datatype Status = Unknown | Healthy | Unhealthy | Cooldown

  datatype Account = Account(cookie: string, enabled: bool, status: Status, proxyId: int, failureCount: nat, lastUsedAt: int)

  datatype Proxy = Proxy(url: string, enabled: bool, status: Status, failureCount: nat, lastUsedAt: int, cooldownUntil: int)

  type Accounts = map<int, Account>

  type Proxies = map<int, Proxy>

  datatype Db = Db(accounts: Accounts, proxies: Proxies)

  const PROXY_CIRCUIT_THRESHOLD: nat := 5
  const COOLDOWN_SECONDS := 300

  // ---- accounts ----

  function AccountRanks(accounts: Accounts, excluded: set<int>): Ranks {
    map id | id in accounts && accounts[id].enabled && id !in excluded :: Rank(0, accounts[id].lastUsedAt)
  }

  /** `PickAccountExcluding`: the account, as it was but for its time of use. */
  ghost function PickAccount(db: Db, excluded: set<int>, now: int): (Db, Option<int>) {
    match First(AccountRanks(db.accounts, excluded))
    case None => (db, None)
    case Some(id) =>
      if id !in db.accounts then (db, None)
      else (db.(accounts := db.accounts[id := db.accounts[id].(lastUsedAt := now)]), Some(id))
  }

  function ReportAccount(db: Db, id: int, success: bool): Db {
    if id == 0 || id !in db.accounts then db else
      var a := db.accounts[id];
      db.(accounts := db.accounts[id := if success then a.(status := Healthy, failureCount := 0)
                                        else a.(status := Unhealthy, failureCount := a.failureCount + 1)])
  }

  function BindAccountProxy(db: Db, id: int, proxyId: int): Db {
    if id in db.accounts then db.(accounts := db.accounts[id := db.accounts[id].(proxyId := proxyId)]) else db
  }

  function UpdateAccountCookie(db: Db, id: int, cookie: string): Db {
    if id in db.accounts then db.(accounts := db.accounts[id := db.accounts[id].(cookie := cookie)]) else db
  }

  function EnabledAccounts(db: Db): set<int> {
    set id | id in db.accounts && db.accounts[id].enabled
  }

  // ---- proxies ----

  function ProxyRanks(proxies: Proxies, preferred: int, now: int): Ranks {
    map id | id in proxies && proxies[id].enabled && proxies[id].cooldownUntil <= now ::
      Rank(if id == preferred then 0 else 1, proxies[id].lastUsedAt)
  }

  ghost function PickProxy(db: Db, preferred: int, now: int): (Db, Option<int>) {
    match First(ProxyRanks(db.proxies, preferred, now))
    case None => (db, None)
    case Some(id) =>
      if id !in db.proxies then (db, None)
      else (db.(proxies := db.proxies[id := db.proxies[id].(lastUsedAt := now)]), Some(id))
  }

  function EnabledProxies(db: Db): set<int> {
    set id | id in db.proxies && db.proxies[id].enabled
  }

  function CreateProxy(db: Db, id: int, url: string, enabled: bool): Db {
    db.(proxies := db.proxies[id := Proxy(url, enabled, Unknown, 0, 0, 0)])
  }

  function ReportProxy(db: Db, id: int, success: bool, now: int): Db {
    if id == 0 || id !in db.proxies then db else
      var p := db.proxies[id];
      var failures := p.failureCount + 1;
      db.(proxies := db.proxies[id :=
        if success then p.(status := Healthy, failureCount := 0, cooldownUntil := 0)
        else p.(status := if failures >= PROXY_CIRCUIT_THRESHOLD then Cooldown else Unhealthy,
                failureCount := failures,
                cooldownUntil := if failures >= PROXY_CIRCUIT_THRESHOLD then now + COOLDOWN_SECONDS else p.cooldownUntil)])
  }

  function Cleared(p: Proxy): Proxy {
    p.(status := Unknown, failureCount := 0, cooldownUntil := 0)
  }

  function ResetProxy(db: Db, id: int): Db {
    if id in db.proxies then db.(proxies := db.proxies[id := Cleared(db.proxies[id])]) else db
  }

  /** The second half of `UpdateProxy`: `urlChanged` was worked out from a row read earlier. */
  function WriteProxy(db: Db, id: int, url: string, enabled: bool, urlChanged: bool): Db {
    if id !in db.proxies then db else
      var p := db.proxies[id];
      db.(proxies := db.proxies[id := (if urlChanged then Cleared(p) else p).(url := url, enabled := enabled)])
  }

  function DeleteProxy(db: Db, id: int): Db {
    if id !in db.proxies then db else
      Db(map a | a in db.accounts :: if db.accounts[a].proxyId == id then db.accounts[a].(proxyId := 0) else db.accounts[a],
         db.proxies - {id})
  }

  // ---- the tables, updated in place ----

  class Store {
    var accounts: Accounts
    var proxies: Proxies

    function Tables(): Db
      reads this
    {
      Db(accounts, proxies)
    }

    constructor (db: Db)
      ensures Tables() == db
    {
      accounts, proxies := db.accounts, db.proxies;
    }

    method AccountCounts() returns (enabled: nat)
      ensures enabled == |EnabledAccounts(Tables())|
    {
      enabled := |set id | id in accounts && accounts[id].enabled|;
    }

    method ProxyCounts() returns (enabled: nat)
      ensures enabled == |EnabledProxies(Tables())|
    {
      enabled := |set id | id in proxies && proxies[id].enabled|;
    }

    method PickAccountExcluding(excluded: set<int>, now: int) returns (id: Option<int>)
      modifies this
      ensures (Tables(), id) == PickAccount(old(Tables()), excluded, now)
      ensures id.Some? ==> id.value in accounts
    {
      id := SelectFirst(AccountRanks(accounts, excluded));
      if id.Some? {
        accounts := accounts[id.value := accounts[id.value].(lastUsedAt := now)];
      }
    }

    method PickProxyPreferring(preferred: int, now: int) returns (id: Option<int>)
      modifies this
      ensures (Tables(), id) == PickProxy(old(Tables()), preferred, now)
      ensures id.Some? ==> id.value in proxies
    {
      id := SelectFirst(ProxyRanks(proxies, preferred, now));
      if id.Some? {
        proxies := proxies[id.value := proxies[id.value].(lastUsedAt := now)];
      }
    }

    method ReportAccountHealth(id: int, success: bool)
      modifies this
      ensures Tables() == ReportAccount(old(Tables()), id, success)
    {
      if id == 0 || id !in accounts {
        return;
      }
      var account := accounts[id];
      if success {
        account := account.(status := Healthy, failureCount := 0);
      } else {
        account := account.(status := Unhealthy, failureCount := account.failureCount + 1);
      }
      accounts := accounts[id := account];
    }

    method Bind(id: int, proxyId: int)
      modifies this
      ensures Tables() == BindAccountProxy(old(Tables()), id, proxyId)
    {
      if id in accounts {
        accounts := accounts[id := accounts[id].(proxyId := proxyId)];
      }
    }

    method SetCookie(id: int, cookie: string)
      modifies this
      ensures Tables() == UpdateAccountCookie(old(Tables()), id, cookie)
    {
      if id in accounts {
        accounts := accounts[id := accounts[id].(cookie := cookie)];
      }
    }

    method ReportProxyHealth(id: int, success: bool, now: int)
      modifies this
      ensures Tables() == ReportProxy(old(Tables()), id, success, now)
    {
      if id == 0 || id !in proxies {
        return;
      }
      var proxy := proxies[id];
      if success {
        proxy := proxy.(status := Healthy, failureCount := 0, cooldownUntil := 0);
      } else if proxy.failureCount + 1 >= PROXY_CIRCUIT_THRESHOLD {
        proxy := proxy.(status := Cooldown, failureCount := proxy.failureCount + 1, cooldownUntil := now + COOLDOWN_SECONDS);
      } else {
        proxy := proxy.(status := Unhealthy, failureCount := proxy.failureCount + 1);
      }
      proxies := proxies[id := proxy];
    }

    method Reset(id: int) returns (found: bool)
      modifies this
      ensures Tables() == ResetProxy(old(Tables()), id) && found == (id in old(proxies))
    {
      found := id in proxies;
      if found {
        proxies := proxies[id := proxies[id].(status := Unknown, failureCount := 0, cooldownUntil := 0)];
      }
    }

    method Write(id: int, url: string, enabled: bool, urlChanged: bool) returns (found: bool)
      modifies this
      ensures Tables() == WriteProxy(old(Tables()), id, url, enabled, urlChanged) && found == (id in old(proxies))
    {
      found := id in proxies;
      if found {
        var proxy := proxies[id];
        if urlChanged {
          proxy := proxy.(status := Unknown, failureCount := 0, cooldownUntil := 0);
        }
        proxies := proxies[id := proxy.(url := url, enabled := enabled)];
      }
    }

    /** The whole of `UpdateProxy` when nothing comes between its two statements. */
    method Update(id: int, newUrl: Option<string>, enabled: bool) returns (found: bool)
      modifies this
      ensures found == (id in old(proxies))
      ensures found ==>
                var p := old(proxies)[id];
                var url := if newUrl.Some? then newUrl.value else p.url;
                proxies == old(proxies)[id := (if url != p.url then Cleared(p) else p).(url := url, enabled := enabled)]
      ensures !found ==> proxies == old(proxies)
      ensures accounts == old(accounts)
    {
      if id !in proxies {
        return false;
      }
      var current := proxies[id];
      var url, urlChanged := current.url, false;
      if newUrl.Some? {
        url := newUrl.value;
        urlChanged := url != current.url;
      }
      found := Write(id, url, enabled, urlChanged);
    }

    method Delete(id: int) returns (found: bool)
      modifies this
      ensures Tables() == DeleteProxy(old(Tables()), id) && found == (id in old(proxies))
      ensures id !in proxies && (found && id != 0 ==> forall a | a in accounts :: accounts[a].proxyId != id)
    {
      found := id in proxies;
      if found {
        accounts := map a | a in accounts :: if accounts[a].proxyId == id then accounts[a].(proxyId := 0) else accounts[a];
        proxies := proxies - {id};
      }
    }
  }

  // ---- what the picks mean ----

  lemma PickedAccount(db: Db, excluded: set<int>, now: int)
    ensures var (_, picked) := PickAccount(db, excluded, now);
            match picked
            case None => forall id | id in db.accounts && db.accounts[id].enabled :: id in excluded
            case Some(id) =>
              && id in db.accounts && db.accounts[id].enabled && id !in excluded
              && forall other | other in db.accounts && db.accounts[other].enabled && other !in excluded ::
                   || db.accounts[id].lastUsedAt < db.accounts[other].lastUsedAt
                   || (db.accounts[id].lastUsedAt == db.accounts[other].lastUsedAt && id <= other)
  {
    var ranks := AccountRanks(db.accounts, excluded);
    if First(ranks).Some? {
      forall other | other in db.accounts && db.accounts[other].enabled && other !in excluded
        ensures Before(ranks, First(ranks).value, other) {
        assert other in ranks;
      }
    } else {
      forall id | id in db.accounts && db.accounts[id].enabled ensures id in excluded {
        assert id in ranks <==> id !in excluded;
      }
    }
  }

  predicate Usable(db: Db, id: int, now: int) {
    id in db.proxies && db.proxies[id].enabled && db.proxies[id].cooldownUntil <= now
  }

  lemma PickedProxy(db: Db, preferred: int, now: int)
    ensures var (_, picked) := PickProxy(db, preferred, now);
            match picked
            case None => forall id | id in db.proxies && db.proxies[id].enabled :: db.proxies[id].cooldownUntil > now
            case Some(id) =>
              && Usable(db, id, now)
              && (Usable(db, preferred, now) ==> id == preferred)
              && (!Usable(db, preferred, now) ==>
                    forall other | other in db.proxies && Usable(db, other, now) ::
                      || db.proxies[id].lastUsedAt < db.proxies[other].lastUsedAt
                      || (db.proxies[id].lastUsedAt == db.proxies[other].lastUsedAt && id <= other))
  {
    var ranks := ProxyRanks(db.proxies, preferred, now);
    if First(ranks).Some? {
      forall other | other in db.proxies && Usable(db, other, now) ensures Before(ranks, First(ranks).value, other) {
        assert other in ranks;
      }
    } else {
      forall id | id in db.proxies && db.proxies[id].enabled ensures db.proxies[id].cooldownUntil > now {
        assert id in ranks <==> db.proxies[id].cooldownUntil <= now;
      }
    }
  }

  /** An id of 0 stands for none: nothing is reported for it. */
  lemma NoneIsReported(db: Db, success: bool, now: int)
    ensures ReportProxy(db, 0, success, now) == db && ReportAccount(db, 0, success) == db
  {
  }

  /** The usage that rotation works on. */
  ghost function UsageOf(db: Db): Usage {
    map id | id in db.accounts && db.accounts[id].enabled :: db.accounts[id].lastUsedAt
  }

  /** An account pick is a pick of the rotation, and nothing else a request does to the
      accounts touches the rotation. */
  lemma AccountPickRotates(db: Db, excluded: set<int>, now: int)
    ensures var (next, picked) := PickAccount(db, excluded, now);
            picked == PickedBy(UsageOf(db), Pick(excluded, now)) && UsageOf(next) == UsedAfter(UsageOf(db), Pick(excluded, now))
  {
    var ranks := AccountRanks(db.accounts, excluded);
    var eligible := Eligible(UsageOf(db), excluded);
    assert ranks == eligible;
  }

  lemma OthersKeepRotation(db: Db, id: int, success: bool, proxyId: int, cookie: string)
    ensures UsageOf(ReportAccount(db, id, success)) == UsageOf(db)
    ensures UsageOf(BindAccountProxy(db, id, proxyId)) == UsageOf(db)
    ensures UsageOf(UpdateAccountCookie(db, id, cookie)) == UsageOf(db)
    ensures UsageOf(DeleteProxy(db, id)) == UsageOf(db)
  {
    hide UsageOf;
    SameUsage(ReportAccount(db, id, success), db);
    SameUsage(BindAccountProxy(db, id, proxyId), db);
    SameUsage(UpdateAccountCookie(db, id, cookie), db);
    SameUsage(DeleteProxy(db, id), db);
  }

  lemma SameUsage(a: Db, b: Db)
    requires forall id :: id in a.accounts <==> id in b.accounts
    requires forall id | id in b.accounts ::
               a.accounts[id].enabled == b.accounts[id].enabled && a.accounts[id].lastUsedAt == b.accounts[id].lastUsedAt
    ensures UsageOf(a) == UsageOf(b)
  {
    var x, y := UsageOf(a), UsageOf(b);
    forall id ensures id in x <==> id in y {
      assert id in a.accounts <==> id in b.accounts;
    }
    assert forall id | id in x :: x[id] == y[id];
    assert x == y;
  }
}
