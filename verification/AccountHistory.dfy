/** What the fields of an account row say about everything that has happened to the tables,
    over every interleaving of requests and administrators. */
module AccountHistory {
  import opened GoStrings
  import opened Rotation
  import opened Store
  import opened Affinity

  const NOTHING := State(Db(map[], map[]), map[])

  ghost function After(moves: seq<Move>): State {
    Run(NOTHING, moves)
  }

  predicate Begins(s: State, m: Move, a: int) {
    m.AddAccount? && m.id == a && a !in s.db.accounts
  }

  /** The account is the least recently used one that the pick may return. */
  ghost predicate Chosen(s: State, m: Move, a: int) {
    && m.PickAccountFor? && a in s.db.accounts && s.db.accounts[a].enabled && a !in m.excluded
    && forall other | other in s.db.accounts && s.db.accounts[other].enabled && other !in m.excluded ::
         || s.db.accounts[a].lastUsedAt < s.db.accounts[other].lastUsedAt
         || (s.db.accounts[a].lastUsedAt == s.db.accounts[other].lastUsedAt && a <= other)
  }

  predicate Says(m: Move, a: int, success: bool) {
    m.ReportAccountHealth? && m.id == a && m.success == success
  }

  /** What is known of the account's health starts afresh. */
  predicate Forgets(s: State, m: Move, a: int) {
    Begins(s, m, a) || (m.EditAccount? && m.id == a && m.cookieChanged)
  }

  /** Failure reports since the last success report or fresh start. */
  ghost function Streak(moves: seq<Move>, a: int): nat {
    if moves == [] then 0 else
      var init, m := moves[..|moves| - 1], moves[|moves| - 1];
      if Forgets(After(init), m, a) || Says(m, a, true) then 0
      else Streak(init, a) + (if Says(m, a, false) then 1 else 0)
  }

  /** Some report came since the last fresh start. */
  ghost predicate Heard(moves: seq<Move>, a: int) {
    moves != [] &&
      var init, m := moves[..|moves| - 1], moves[|moves| - 1];
      !Forgets(After(init), m, a) && (Says(m, a, true) || Says(m, a, false) || Heard(init, a))
  }

  /** The time of the last pick of the account, or 0. */
  ghost function LastUse(moves: seq<Move>, a: int): int {
    if moves == [] then 0 else
      var init, m := moves[..|moves| - 1], moves[|moves| - 1];
      if Begins(After(init), m, a) then 0
      else if Chosen(After(init), m, a) then m.now
      else LastUse(init, a)
  }

  /** The cookie that was written last. */
  ghost function LastCookie(moves: seq<Move>, a: int): string {
    if moves == [] then "" else
      var init, m := moves[..|moves| - 1], moves[|moves| - 1];
      match m
      case SetCookie(id, cookie) => if id == a then cookie else LastCookie(init, a)
      case EditAccount(id, cookie, _, _, _) => if id == a then cookie else LastCookie(init, a)
      case AddAccount(id, cookie, _, _) => if Begins(After(init), m, a) then cookie else LastCookie(init, a)
      case _ => LastCookie(init, a)
  }

  /** Whether the account is enabled, by what administrators wrote last. */
  ghost function LastSwitch(moves: seq<Move>, a: int): bool {
    moves != [] &&
      var init, m := moves[..|moves| - 1], moves[|moves| - 1];
      match m
      case EditAccount(id, _, enabled, _, _) => if id == a then enabled else LastSwitch(init, a)
      case AddAccount(id, _, enabled, _) => if Begins(After(init), m, a) then enabled else LastSwitch(init, a)
      case _ => LastSwitch(init, a)
  }

  /** What a row must look like after a history. */
  predicate Reflects(r: Account, cookie: string, enabled: bool, heard: bool, streak: nat, lastUse: int) {
    && r.cookie == cookie && r.enabled == enabled && r.lastUsedAt == lastUse && r.failureCount == streak
    && r.status == if !heard then Unknown else if streak == 0 then Healthy else Unhealthy
  }

  lemma ChosenIsPicked(s: State, m: Move, a: int)
    requires m.PickAccountFor?
    ensures PickAccount(s.db, m.excluded, m.now).1 == Some(a) <==> Chosen(s, m, a)
  {
    PickedAccount(s.db, m.excluded, m.now);
    var picked := PickAccount(s.db, m.excluded, m.now).1;
    if Chosen(s, m, a) && picked.Some? {
      assert picked.value <= a && a <= picked.value;
    }
  }

  /** The facts about one row that a move can change. */
  datatype Facts = Facts(cookie: string, enabled: bool, heard: bool, streak: nat, lastUse: int)

  predicate Fits(r: Account, f: Facts) {
    Reflects(r, f.cookie, f.enabled, f.heard, f.streak, f.lastUse) && (!f.heard ==> f.streak == 0)
  }

  ghost function FactsOf(moves: seq<Move>, a: int): Facts {
    Facts(LastCookie(moves, a), LastSwitch(moves, a), Heard(moves, a), Streak(moves, a), LastUse(moves, a))
  }

  ghost function FactsAfter(s: State, m: Move, a: int, f: Facts): Facts {
    if Begins(s, m, a) then Facts(m.cookie, m.enabled, false, 0, 0) else
      match m
      case PickAccountFor(_, _, now) => if Chosen(s, m, a) then f.(lastUse := now) else f
      case ReportAccountHealth(id, success) =>
        if id != a then f else f.(heard := true, streak := if success then 0 else f.streak + 1)
      case SetCookie(id, cookie) => if id == a then f.(cookie := cookie) else f
      case EditAccount(id, cookie, enabled, _, cookieChanged) =>
        if id != a then f
        else
          var g := f.(cookie := cookie, enabled := enabled);
          if cookieChanged then g.(heard := false, streak := 0) else g
      case _ => f
  }

  lemma StepReflects(s: State, m: Move, a: int, f: Facts)
    requires a != 0 && a in Apply(s, m).db.accounts
    requires a in s.db.accounts ==> Fits(s.db.accounts[a], f)
    ensures Fits(Apply(s, m).db.accounts[a], FactsAfter(s, m, a, f))
  {
    hide First, AccountRanks, ProxyRanks, Chosen;
    if m.PickAccountFor? {
      PickReflects(s, m, a, f);
    }
  }

  lemma PickReflects(s: State, m: Move, a: int, f: Facts)
    requires m.PickAccountFor? && a in s.db.accounts && Fits(s.db.accounts[a], f)
    ensures Fits(Apply(s, m).db.accounts[a], FactsAfter(s, m, a, f))
  {
    hide First, AccountRanks, Chosen;
    ChosenIsPicked(s, m, a);
  }

  lemma FactsMore(moves: seq<Move>, a: int)
    requires moves != []
    ensures var init, m := moves[..|moves| - 1], moves[|moves| - 1];
            FactsOf(moves, a) == FactsAfter(After(init), m, a, FactsOf(init, a))
  {
    hide Run;
  }

  /** After any history the row of an account says when it was last picked, which cookie was
      last written, and how many failures were reported since its last success, edit of the
      cookie or creation. */
  lemma {:induction false} AccountReflectsHistory(moves: seq<Move>, a: int)
    requires a != 0 && a in After(moves).db.accounts
    ensures Reflects(After(moves).db.accounts[a], LastCookie(moves, a), LastSwitch(moves, a), Heard(moves, a),
                     Streak(moves, a), LastUse(moves, a))
    ensures !Heard(moves, a) ==> Streak(moves, a) == 0
    decreases |moves|
  {
    hide Apply, Begins, Forgets, Says, Chosen, Reflects, LastCookie, LastSwitch, Heard, Streak, LastUse, FactsAfter;
    if moves != [] {
      var init, m := moves[..|moves| - 1], moves[|moves| - 1];
      if a in After(init).db.accounts {
        AccountReflectsHistory(init, a);
      }
      FactsMore(moves, a);
      StepReflects(After(init), m, a, FactsOf(init, a));
    }
  }
}
