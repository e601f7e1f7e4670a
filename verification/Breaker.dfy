/** The circuit breaker on proxies, over every interleaving of the steps that requests and
    administrators take: what the stored fields say about the history. */
module Breaker {
  import opened GoStrings
  import opened Rotation
  import opened Store

  /** A step on the proxy table.  An edit takes two: its editor looks at the row and later
      writes it, by what was seen.  Times are the ones a caller read before its statement
      ran, so they need not be in order. */
  datatype Op =
    | Create(id: int, url: string, enabled: bool)
    | Look(editor: nat, id: int)
    | Write(editor: nat, newUrl: Option<string>, enabled: bool)
    | Reset(id: int)
    | Remove(id: int)
    | Report(id: int, success: bool, now: int)
    | Choose(preferred: int, now: int)

  datatype Seen = Seen(id: int, url: string)

  /** The tables, and what each editor has seen and not yet written back. */
  datatype State = State(db: Db, editors: map<nat, Seen>)

  const EMPTY := State(Db(map[], map[]), map[])

  function UrlOf(seen: Seen, newUrl: Option<string>): string {
    if newUrl.Some? then newUrl.value else seen.url
  }

  ghost function Apply(s: State, op: Op): State {
    match op
    case Create(id, url, enabled) => s.(db := CreateProxy(s.db, id, url, enabled))
    case Look(editor, id) =>
      if id in s.db.proxies then s.(editors := s.editors[editor := Seen(id, s.db.proxies[id].url)]) else s
    case Write(editor, newUrl, enabled) =>
      if editor !in s.editors then s
      else
        var seen := s.editors[editor];
        var url := UrlOf(seen, newUrl);
        State(WriteProxy(s.db, seen.id, url, enabled, url != seen.url), s.editors - {editor})
    case Reset(id) => s.(db := ResetProxy(s.db, id))
    case Remove(id) => s.(db := DeleteProxy(s.db, id))
    case Report(id, success, now) => s.(db := ReportProxy(s.db, id, success, now))
    case Choose(preferred, now) => s.(db := PickProxy(s.db, preferred, now).0)
  }

  ghost function After(ops: seq<Op>): State {
    if ops == [] then EMPTY else Apply(After(ops[..|ops| - 1]), ops[|ops| - 1])
  }

  ghost function Rows(ops: seq<Op>): Proxies {
    After(ops).db.proxies
  }

  /** The step writes the row of `id`. */
  predicate Edits(s: State, op: Op, id: int) {
    op.Write? && op.editor in s.editors && s.editors[op.editor].id == id
  }

  /** The editor wrote another URL than it had seen. */
  predicate Flagged(s: State, op: Op, id: int) {
    Edits(s, op, id) && UrlOf(s.editors[op.editor], op.newUrl) != s.editors[op.editor].url
  }

  /** Whatever the row holds, the step starts the count of failures of `id` afresh. */
  predicate Renews(op: Op, id: int) {
    match op
    case Create(i, _, _) => i == id
    case Reset(i) => i == id
    case Remove(i) => i == id
    case Report(i, success, _) => i == id && success
    case _ => false
  }

  predicate Clears(s: State, op: Op, id: int) {
    Renews(op, id) || Flagged(s, op, id)
  }

  predicate Fails(op: Op, id: int) {
    op.Report? && op.id == id && !op.success
  }

  /** Failure reports since the last step that cleared the count. */
  ghost function Streak(ops: seq<Op>, id: int): nat {
    if ops == [] then 0 else
      var init, op := ops[..|ops| - 1], ops[|ops| - 1];
      if Clears(After(init), op, id) then 0 else Streak(init, id) + (if Fails(op, id) then 1 else 0)
  }

  /** The time of the last failure report, or 0. */
  function LastFailure(ops: seq<Op>, id: int): int {
    if ops == [] then 0
    else if Fails(ops[|ops| - 1], id) then ops[|ops| - 1].now
    else LastFailure(ops[..|ops| - 1], id)
  }

  /** What a row must look like after a history. */
  predicate Reflects(p: Proxy, streak: nat, lastFailure: int) {
    && p.failureCount == streak
    && (p.status == Cooldown <==> streak >= 5)
    && (p.status == Unhealthy <==> 0 < streak < 5)
    && p.cooldownUntil == if streak >= 5 then lastFailure + 300 else 0
  }

  lemma StepReflects(s: State, op: Op, id: int, streak: nat, last: int)
    requires id != 0 && id in Apply(s, op).db.proxies
    requires id in s.db.proxies ==> Reflects(s.db.proxies[id], streak, last)
    ensures Reflects(Apply(s, op).db.proxies[id],
                     if Clears(s, op, id) then 0 else streak + (if Fails(op, id) then 1 else 0),
                     if Fails(op, id) then op.now else last)
  {
    hide First, ProxyRanks;
  }

  /** After any history the stored fields of a proxy say exactly how many failures were
      reported since its count was last cleared, and a cooling-down proxy carries the time
      of the latest one plus five minutes. */
  lemma {:induction false} BreakerReflectsHistory(ops: seq<Op>, id: int)
    requires id != 0 && id in Rows(ops)
    ensures Reflects(Rows(ops)[id], Streak(ops, id), LastFailure(ops, id))
  {
    hide Apply, Reflects, Clears, Fails;
    if ops != [] {
      var init, op := ops[..|ops| - 1], ops[|ops| - 1];
      if id in Rows(init) {
        BreakerReflectsHistory(init, id);
      }
      StepReflects(After(init), op, id, Streak(init, id), LastFailure(init, id));
    }
  }

  /** The cool-down time is set exactly while the breaker is open. */
  lemma CooldownIsSetWhenOpen(ops: seq<Op>, id: int)
    requires id != 0 && id in Rows(ops)
    requires forall op | op in ops && op.Report? :: op.now > 0
    ensures var p := Rows(ops)[id];
            && (p.cooldownUntil != 0 <==> p.status == Cooldown)
            && (p.status == Cooldown <==> p.failureCount >= 5)
  {
    hide Rows, Streak;
    BreakerReflectsHistory(ops, id);
    LastFailureIsReported(ops, id);
  }

  lemma {:induction false} LastFailureIsReported(ops: seq<Op>, id: int)
    requires forall op | op in ops && op.Report? :: op.now > 0
    ensures LastFailure(ops, id) >= 0
  {
    if ops != [] {
      LastFailureIsReported(ops[..|ops| - 1], id);
    }
  }

  /** A pick returns an enabled proxy whose breaker is closed, or whose latest failure is
      five minutes old. */
  lemma PickRespectsBreaker(ops: seq<Op>, preferred: int, now: int)
    requires forall id | id in Rows(ops) :: id != 0
    ensures var picked := PickProxy(After(ops).db, preferred, now).1;
            match picked
            case None => true
            case Some(id) =>
              && id in Rows(ops) && Rows(ops)[id].enabled
              && (Streak(ops, id) >= 5 ==> LastFailure(ops, id) + 300 <= now)
  {
    hide After, Streak;
    PickedProxy(After(ops).db, preferred, now);
    var picked := PickProxy(After(ops).db, preferred, now).1;
    if picked.Some? {
      assert picked.value in Rows(ops);
      BreakerReflectsHistory(ops, picked.value);
    }
  }

  /** No step of the second history clears the count. */
  ghost predicate NothingClears(before: seq<Op>, after: seq<Op>, id: int) {
    forall k | 0 <= k < |after| :: !Clears(After(before + after[..k]), after[k], id)
  }

  /** No failure of the history is stamped before `t`. */
  predicate NotBefore(ops: seq<Op>, id: int, t: int) {
    forall op | op in ops && Fails(op, id) :: op.now >= t
  }

  lemma {:induction false} StreakGrows(before: seq<Op>, after: seq<Op>, id: int, t: int)
    requires NothingClears(before, after, id) && NotBefore(after, id, t) && LastFailure(before, id) >= t
    ensures Streak(before + after, id) >= Streak(before, id) && LastFailure(before + after, id) >= t
    decreases |after|
  {
    hide After, Clears, Fails;
    if after == [] {
      assert before + after == before;
    } else {
      var n := |after| - 1;
      assert (before + after)[..|before + after| - 1] == before + after[..n];
      assert after[n] in after && forall op | op in after[..n] :: op in after;
      forall k | 0 <= k < n ensures !Clears(After(before + after[..n][..k]), after[k], id) {
        assert after[..n][..k] == after[..k];
      }
      StreakGrows(before, after[..n], id, t);
    }
  }

  /** An open breaker stays out of rotation: after a failure at `t` that leaves the count at
      five or more, no pick before `t + 300` returns the proxy, whatever else happens,
      unless a success, a reset, an edit with another URL or a deletion comes first, or a
      later failure is stamped earlier. */
  lemma OpenCircuitStaysOut(before: seq<Op>, t: int, after: seq<Op>, id: int, preferred: int, now: int)
    requires forall i | i in Rows(before + [Report(id, false, t)] + after) :: i != 0
    requires Streak(before + [Report(id, false, t)], id) >= PROXY_CIRCUIT_THRESHOLD
    requires NothingClears(before + [Report(id, false, t)], after, id) && NotBefore(after, id, t)
    requires now < t + COOLDOWN_SECONDS
    ensures PickProxy(After(before + [Report(id, false, t)] + after).db, preferred, now).1 != Some(id)
  {
    hide After, Rows, NothingClears, Streak;
    var tripped := before + [Report(id, false, t)];
    assert tripped[..|tripped| - 1] == before;
    assert LastFailure(tripped, id) == t;
    StreakGrows(tripped, after, id, t);
    PickRespectsBreaker(tripped + after, preferred, now);
  }

  /** A single failure on an open breaker sets the cool-down anew, from its own time: after
      the five minutes it opens the breaker for another five, and one that was stamped
      before the last makes it end sooner. */
  lemma OneFailureReopens(ops: seq<Op>, id: int, t: int)
    requires id != 0 && id in Rows(ops) && Streak(ops, id) >= PROXY_CIRCUIT_THRESHOLD
    ensures var rows := Rows(ops + [Report(id, false, t)]);
            id in rows && rows[id].status == Cooldown && rows[id].cooldownUntil == t + COOLDOWN_SECONDS
  {
    hide First, ProxyRanks, Streak;
    BreakerReflectsHistory(ops, id);
    assert (ops + [Report(id, false, t)])[..|ops|] == ops;
  }

  /** So the cool-down can end early: a failure that was stamped at `u` before the last one
      at `t` brings the proxy back at `u + 300`, before `t + 300`. */
  lemma BackdatedFailureEndsCooldown(ops: seq<Op>, id: int, t: int, u: int)
    requires id != 0 && id in Rows(ops) && Rows(ops)[id].enabled && Streak(ops, id) >= PROXY_CIRCUIT_THRESHOLD && u < t
    ensures var late := ops + [Report(id, false, t)] + [Report(id, false, u)];
            PickProxy(After(late).db, id, u + COOLDOWN_SECONDS).1 == Some(id)
  {
    hide First, ProxyRanks, After, Streak, PickProxy;
    var once := ops + [Report(id, false, t)];
    var late := once + [Report(id, false, u)];
    assert once[..|ops|] == ops;
    More(ops, Report(id, false, t), id);
    More(once, Report(id, false, u), id);
    OneFailureReopens(ops, id, t);
    BreakerReflectsHistory(once, id);
    OneFailureReopens(once, id, u);
    PickedProxy(After(late).db, id, u + COOLDOWN_SECONDS);
    assert id in After(late).db.proxies && After(late).db.proxies[id].enabled;
  }

  // ---- the count and the stored URL ----

  /** The step changed the stored URL of a row that was there before and after. */
  ghost predicate ChangesUrl(s: State, op: Op, id: int) {
    var t := Apply(s, op);
    id in s.db.proxies && id in t.db.proxies && s.db.proxies[id].url != t.db.proxies[id].url
  }

  /** Failure reports of the URL that is stored: since it last changed, or a success, a
      reset, a deletion or a creation. */
  ghost function UrlStreak(ops: seq<Op>, id: int): nat {
    if ops == [] then 0 else
      var init, op := ops[..|ops| - 1], ops[|ops| - 1];
      if Renews(op, id) || ChangesUrl(After(init), op, id) then 0
      else UrlStreak(init, id) + (if Fails(op, id) then 1 else 0)
  }

  /** The stored count is that of the stored URL. */
  ghost predicate CountsUrl(ops: seq<Op>, id: int) {
    id in Rows(ops) ==> Rows(ops)[id].failureCount == UrlStreak(ops, id)
  }

  /** The edit compares its URL with the one it saw as it would with the one now stored, or
      there is no failure to forget. */
  predicate Straight(s: State, op: Op, id: int) {
    Edits(s, op, id) && id in s.db.proxies ==>
      var url := UrlOf(s.editors[op.editor], op.newUrl);
      (url != s.editors[op.editor].url <==> url != s.db.proxies[id].url) || s.db.proxies[id].failureCount == 0
  }

  lemma StepCounts(s: State, op: Op, id: int, streak: nat)
    requires id != 0 && (id in s.db.proxies ==> s.db.proxies[id].failureCount == streak)
    ensures var t := Apply(s, op);
            var next := if Renews(op, id) || ChangesUrl(s, op, id) then 0 else streak + (if Fails(op, id) then 1 else 0);
            (id in t.db.proxies ==> t.db.proxies[id].failureCount == next) <==> Straight(s, op, id)
  {
    hide First, ProxyRanks;
  }

  ghost predicate AllStraight(ops: seq<Op>, id: int) {
    forall k | 0 <= k < |ops| :: Straight(After(ops[..k]), ops[k], id)
  }

  ghost predicate AlwaysCountsUrl(ops: seq<Op>, id: int) {
    forall k | 0 <= k <= |ops| :: CountsUrl(ops[..k], id)
  }

  lemma SplitLast(ops: seq<Op>, id: int)
    requires ops != []
    ensures var n := |ops| - 1;
            && (AllStraight(ops, id) <==> AllStraight(ops[..n], id) && Straight(After(ops[..n]), ops[n], id))
            && (AlwaysCountsUrl(ops, id) <==> AlwaysCountsUrl(ops[..n], id) && CountsUrl(ops, id))
  {
    hide After, Straight, CountsUrl;
    var n := |ops| - 1;
    assert forall k | 0 <= k <= n :: ops[..n][..k] == ops[..k];
    assert ops[..n + 1] == ops;
    assert AlwaysCountsUrl(ops, id) ==> CountsUrl(ops[..n + 1], id);
  }

  lemma NowCounts(ops: seq<Op>, id: int)
    requires AlwaysCountsUrl(ops, id)
    ensures CountsUrl(ops, id)
  {
    hide CountsUrl;
    assert ops[..|ops|] == ops;
  }

  /** Throughout a history the count belongs to the stored URL, if and only if every edit
      was straight when it was written. */
  lemma {:induction false} CountBelongsToUrlExactly(ops: seq<Op>, id: int)
    requires id != 0
    ensures AlwaysCountsUrl(ops, id) <==> AllStraight(ops, id)
  {
    hide Apply, Straight, AllStraight, AlwaysCountsUrl, Renews, ChangesUrl, Fails;
    if ops == [] {
      NothingCounted(id);
    } else {
      var n := |ops| - 1;
      SplitLast(ops, id);
      CountBelongsToUrlExactly(ops[..n], id);
      if AlwaysCountsUrl(ops[..n], id) {
        NowCounts(ops[..n], id);
        StepCounts(After(ops[..n]), ops[n], id, UrlStreak(ops[..n], id));
      }
    }
  }

  lemma NothingCounted(id: int)
    ensures AlwaysCountsUrl([], id) && AllStraight([], id)
  {
  }

  lemma More(ops: seq<Op>, op: Op, id: int)
    ensures After(ops + [op]) == Apply(After(ops), op)
    ensures UrlStreak(ops + [op], id) ==
            if Renews(op, id) || ChangesUrl(After(ops), op, id) then 0 else UrlStreak(ops, id) + (if Fails(op, id) then 1 else 0)
  {
    hide Apply, ChangesUrl;
    assert (ops + [op])[..|ops|] == ops;
  }

  lemma {:induction false} ManyFail(ops: seq<Op>, id: int, t: int, n: nat) returns (more: seq<Op>)
    requires id != 0 && id in Rows(ops)
    ensures id in Rows(more) && After(more).editors == After(ops).editors
    ensures Rows(more)[id].url == Rows(ops)[id].url && Rows(more)[id].failureCount == Rows(ops)[id].failureCount + n
    ensures UrlStreak(more, id) == UrlStreak(ops, id) + n
    decreases n
  {
    hide After, UrlStreak;
    if n == 0 {
      more := ops;
    } else {
      var before := ManyFail(ops, id, t, n - 1);
      more := before + [Report(id, false, t)];
      More(before, Report(id, false, t), id);
    }
  }

  /** Two edits that overlap: both look at URL `a`; the first writes `b`, whose n failures
      are counted; the second writes `a` back.  Now `a` carries the failures of `b`, and for
      n of five or more it is out of rotation although no failure of it was ever reported. */
  lemma StaleEditKeepsFailures(id: int, a: string, b: string, t: int, n: nat) returns (ops: seq<Op>)
    requires id != 0 && a != b
    ensures id in Rows(ops) && Rows(ops)[id].url == a && Rows(ops)[id].failureCount == n
    ensures Rows(ops)[id].status == Cooldown <==> n >= PROXY_CIRCUIT_THRESHOLD
    ensures UrlStreak(ops, id) == 0
  {
    hide After, UrlStreak, First;
    ops := Overlapping(id, a, b);
    ops := ManyFail(ops, id, t, n);
    More(ops, Write(0, Some(a), true), id);
    ops := ops + [Write(0, Some(a), true)];
    BreakerReflectsHistory(ops, id);
  }

  /** The other way round: the first edit writes `b`, n failures are counted, and the second
      writes `b` too.  It saw `a`, so it forgets the failures of a URL that did not change. */
  lemma StaleEditForgetsFailures(id: int, a: string, b: string, t: int, n: nat) returns (ops: seq<Op>)
    requires id != 0 && a != b
    ensures id in Rows(ops) && Rows(ops)[id].url == b && Rows(ops)[id].failureCount == 0 && UrlStreak(ops, id) == n
  {
    hide After, UrlStreak, First;
    ops := Overlapping(id, a, b);
    ops := ManyFail(ops, id, t, n);
    More(ops, Write(0, Some(b), true), id);
    ops := ops + [Write(0, Some(b), true)];
  }

  lemma Overlapping(id: int, a: string, b: string) returns (ops: seq<Op>)
    requires a != b
    ensures id in Rows(ops) && Rows(ops)[id].url == b && Rows(ops)[id].failureCount == 0 && UrlStreak(ops, id) == 0
    ensures After(ops).editors == map[0 := Seen(id, a)]
  {
    hide After, UrlStreak, First;
    NothingYet(id);
    ops := [];
    More(ops, Create(id, a, true), id);
    ops := ops + [Create(id, a, true)];
    More(ops, Look(0, id), id);
    ops := ops + [Look(0, id)];
    More(ops, Look(1, id), id);
    ops := ops + [Look(1, id)];
    More(ops, Write(1, Some(b), true), id);
    ops := ops + [Write(1, Some(b), true)];
    assert After(ops).editors == map[0 := Seen(id, a)];
  }

  lemma NothingYet(id: int)
    ensures After([]) == EMPTY && UrlStreak([], id) == 0
  {
  }
}
