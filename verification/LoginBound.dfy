/** How many wrong passwords the limiter of LoginLimiter.dfy lets through: its windows do not
    slide, and this is the bound they give on sliding ones. */
module LoginBound {
  import opened GoStrings
  import opened LoginLimiter

  // ---- the windows behind the failures ----

  /** A failure, the start of its window and its number in it. */
  datatype Mark = Mark(time: int, start: int, count: nat)

  function MarkOf(m: Machine, s: Step, ip: string): Mark {
    var a := Counted(Of(m.attempts, ip), s.now);
    Mark(s.now, a.windowStart.value, a.failures)
  }

  function Trail(steps: seq<Step>, ip: string): seq<Mark> {
    if steps == [] then [] else
      var init, s := steps[..|steps| - 1], steps[|steps| - 1];
      Trail(init, ip) + (if Tells(Run(init), s, ip, Wrong) then [MarkOf(Run(init), s, ip)] else [])
  }

  predicate Opens(m: Mark) {
    m.count == 1 && m.start == m.time
  }

  /** The next failure either counts in the same window or opens one after more than five
      minutes. */
  predicate Follows(m: Mark, n: Mark) {
    && n.time >= m.time
    && ((n.start == m.start && n.count == m.count + 1) || (Opens(n) && n.time - m.start > WINDOW))
  }

  predicate WellMarked(trail: seq<Mark>) {
    && (forall k | 0 <= k < |trail| ::
          trail[k].count >= 1 && trail[k].start <= trail[k].time && (trail[k].count == 1 ==> Opens(trail[k])))
    && (forall k | 0 < k < |trail| :: Follows(trail[k - 1], trail[k]))
  }

  /** How the limiter's entry relates to the last mark by the time `now`: it shows it, or it
      is gone because its window is over and it does not block any more. */
  predicate Remembers(a: Attempt, trail: seq<Mark>, now: int) {
    if trail == [] then a == ZERO else
      var m := trail[|trail| - 1];
      && m.time <= now
      && (|| a == Attempt(Some(m.start), m.count, if m.count >= MAX_FAILURES then Some(m.time + WINDOW) else None)
          || (a == ZERO && now - m.start > WINDOW && (m.count >= MAX_FAILURES ==> now >= m.time + WINDOW)))
  }

  lemma LastMark(trail: seq<Mark>)
    requires WellMarked(trail) && trail != []
    ensures var m := trail[|trail| - 1];
            m.count >= 1 && m.start <= m.time && (m.count == 1 ==> Opens(m))
  {
  }

  lemma MarkedMore(trail: seq<Mark>, n: Mark)
    requires WellMarked(trail) && n.count >= 1 && n.start <= n.time && (n.count == 1 ==> Opens(n))
    requires trail != [] ==> Follows(trail[|trail| - 1], n)
    ensures WellMarked(trail + [n])
  {
    hide Follows, Opens;
  }

  lemma StepRemembers(m: Machine, s: Step, ip: string, trail: seq<Mark>, before: int)
    requires Remembers(Of(m.attempts, ip), trail, before) && WellMarked(trail)
    requires before <= s.now && !Tells(m, s, ip, Right)
    ensures var next := if Tells(m, s, ip, Wrong) then trail + [MarkOf(m, s, ip)] else trail;
            Remembers(Of(Advance(m, s).attempts, ip), next, s.now) && WellMarked(next)
  {
    hide WellMarked;
    if trail != [] {
      LastMark(trail);
    }
    if Tells(m, s, ip, Wrong) {
      MarkedMore(trail, MarkOf(m, s, ip));
    }
  }

  lemma OneMore(steps: seq<Step>, ip: string)
    requires steps != []
    ensures var init, s := steps[..|steps| - 1], steps[|steps| - 1];
            var fails := Tells(Run(init), s, ip, Wrong);
            && Run(steps) == Advance(Run(init), s)
            && Failures(steps, ip) == (if fails then Failures(init, ip) + [s.now] else Failures(init, ip))
            && Trail(steps, ip) == (if fails then Trail(init, ip) + [MarkOf(Run(init), s, ip)] else Trail(init, ip))
  {
    hide Advance, MarkOf, Tells;
  }

  lemma Prefix(steps: seq<Step>, ip: string, k: nat)
    requires Ordered(steps) && NoSuccess(steps, ip) && k <= |steps|
    ensures Ordered(steps[..k]) && NoSuccess(steps[..k], ip)
  {
    hide Tells;
    forall j | 0 <= j < k ensures steps[..k][..j] == steps[..j] {
    }
  }

  /** After any run the entry is the one of the last failure's window, or gone because that
      is over and does not block. */
  lemma {:induction false} EntryShowsLastMark(steps: seq<Step>, ip: string, now: int)
    requires Ordered(steps) && NoSuccess(steps, ip) && (steps != [] ==> steps[|steps| - 1].now <= now)
    ensures Remembers(Of(Run(steps).attempts, ip), Trail(steps, ip), now) && WellMarked(Trail(steps, ip))
    decreases |steps|
  {
    hide Advance, Remembers, WellMarked, NoSuccess, Run, Trail, Of, MarkOf, Tells;
    if steps == [] {
      Unmarked(now, ip);
    } else {
      var n := |steps| - 1;
      OneMore(steps, ip);
      Prefix(steps, ip, n);
      EntryShowsLastMark(steps[..n], ip, steps[n].now);
      NotRight(steps, ip, n);
      StepRemembers(Run(steps[..n]), steps[n], ip, Trail(steps[..n], ip), steps[n].now);
      RemembersLater(Of(Run(steps).attempts, ip), Trail(steps, ip), steps[n].now, now);
    }
  }

  lemma TrailIsMarked(steps: seq<Step>, ip: string)
    requires Ordered(steps) && NoSuccess(steps, ip)
    ensures WellMarked(Trail(steps, ip))
  {
    hide WellMarked, Trail, Remembers;
    EntryShowsLastMark(steps, ip, if steps == [] then 0 else steps[|steps| - 1].now);
  }

  lemma NotRight(steps: seq<Step>, ip: string, k: nat)
    requires NoSuccess(steps, ip) && k < |steps|
    ensures !Tells(Run(steps[..k]), steps[k], ip, Right)
  {
  }

  lemma Unmarked(now: int, ip: string)
    ensures Remembers(Of(Run([]).attempts, ip), Trail([], ip), now) && WellMarked(Trail([], ip))
    ensures Trail([], ip) == [] && Failures([], ip) == []
  {
  }

  lemma RemembersLater(a: Attempt, trail: seq<Mark>, now: int, later: int)
    requires Remembers(a, trail, now) && now <= later
    ensures Remembers(a, trail, later)
  {
  }

  lemma {:induction false} TrailHasTimes(steps: seq<Step>, ip: string)
    ensures |Trail(steps, ip)| == |Failures(steps, ip)|
    ensures forall k | 0 <= k < |Failures(steps, ip)| :: Trail(steps, ip)[k].time == Failures(steps, ip)[k]
  {
    hide Tells, Run;
    if steps != [] {
      TrailHasTimes(steps[..|steps| - 1], ip);
    }
  }

  // ---- who is admitted ----

  const FIVE_MINUTES := 300_000_000_000

  /** When wrong passwords were tried from the address since it last gave the right one. */
  function Since(steps: seq<Step>, ip: string): seq<int> {
    if steps == [] then [] else
      var init, s := steps[..|steps| - 1], steps[|steps| - 1];
      if Tells(Run(init), s, ip, Right) then []
      else Since(init, ip) + (if Tells(Run(init), s, ip, Wrong) then [s.now] else [])
  }

  /** The window of the last of these times and its number in it: a failure opens a window
      when the one before is over, five minutes after it was opened. */
  function LastOf(times: seq<int>): Mark
    requires times != []
  {
    var n := |times| - 1;
    if n == 0 || times[n] - LastOf(times[..n]).start > FIVE_MINUTES then Mark(times[n], times[n], 1)
    else Mark(times[n], LastOf(times[..n]).start, LastOf(times[..n]).count + 1)
  }

  /** The last failure was at least the fifth in its window, and under five minutes ago. */
  predicate Locked(times: seq<int>, now: int) {
    times != [] && LastOf(times).count >= 5 && now < LastOf(times).time + FIVE_MINUTES
  }

  /** How the entry relates to the failures that count. */
  predicate Shows(a: Attempt, times: seq<int>, now: int) {
    if times == [] then a == ZERO else
      var m := LastOf(times);
      && m.time <= now && m.count >= 1
      && (|| a == Attempt(Some(m.start), m.count, if m.count >= 5 then Some(m.time + FIVE_MINUTES) else None)
          || (a == ZERO && now - m.start > FIVE_MINUTES && !Locked(times, now)))
  }

  lemma LastOfMore(times: seq<int>, now: int)
    ensures LastOf(times + [now]) ==
            if times == [] || now - LastOf(times).start > FIVE_MINUTES then Mark(now, now, 1)
            else Mark(now, LastOf(times).start, LastOf(times).count + 1)
  {
    assert (times + [now])[..|times|] == times;
  }

  lemma StepShows(m: Machine, s: Step, ip: string, times: seq<int>, before: int)
    requires Shows(Of(m.attempts, ip), times, before) && before <= s.now
    ensures var next := if Tells(m, s, ip, Right) then [] else if Tells(m, s, ip, Wrong) then times + [s.now] else times;
            Shows(Of(Advance(m, s).attempts, ip), next, s.now)
  {
    hide LastOf;
    LastOfMore(times, s.now);
  }

  lemma {:induction false} EntryShowsFailures(steps: seq<Step>, ip: string, now: int)
    requires Ordered(steps) && (steps != [] ==> steps[|steps| - 1].now <= now)
    ensures Shows(Of(Run(steps).attempts, ip), Since(steps, ip), now)
    decreases |steps|
  {
    hide Advance, Shows, Of, Tells;
    if steps == [] {
      NothingShown(ip, now);
    } else {
      var n := |steps| - 1;
      assert n > 0 ==> steps[..n][n - 1] == steps[n - 1];
      EntryShowsFailures(steps[..n], ip, steps[n].now);
      StepShows(Run(steps[..n]), steps[n], ip, Since(steps[..n], ip), steps[n].now);
      assert Since(steps[..n], ip) + [] == Since(steps[..n], ip);
      ShowsLater(Of(Run(steps).attempts, ip), Since(steps, ip), steps[n].now, now);
    }
  }

  lemma NothingShown(ip: string, now: int)
    ensures Shows(Of(IDLE.attempts, ip), [], now)
  {
  }

  lemma ShowsLater(a: Attempt, times: seq<int>, now: int, later: int)
    requires Shows(a, times, now) && now <= later
    ensures Shows(a, times, later)
  {
    hide LastOf;
  }

  /** After any run, whatever other logins and addresses did in between: an address is
      refused exactly for the five minutes that follow a failure with at least the number
      five in its window, counted from the times of its failures since its last success. */
  lemma RefusedExactly(steps: seq<Step>, ip: string, now: int)
    requires Ordered(steps) && (steps != [] ==> steps[|steps| - 1].now <= now)
    ensures Blocked(Of(Run(steps).attempts, ip), now) <==> Locked(Since(steps, ip), now)
  {
    hide LastOf, Run, Of, Since;
    EntryShowsFailures(steps, ip, now);
  }

  /** A wait that is over is forgotten at the next question. */
  lemma AskingForgets(m: Machine, id: nat, ip: string, now: int)
    requires id !in m.inFlight
    ensures var after := Advance(m, Ask(id, ip, now));
            ip in after.attempts && !Blocked(after.attempts[ip], now) ==>
              after.attempts[ip].windowStart.Some? && now - after.attempts[ip].windowStart.value <= FIVE_MINUTES
  {
  }

  // ---- a blocked address only drains ----

  predicate BlockedTill(m: Machine, ip: string, till: int) {
    var a := Of(m.attempts, ip);
    a.blockedTill.Some? && a.blockedTill.value >= till
  }

  lemma BlockedStep(m: Machine, s: Step, ip: string, till: int)
    requires BlockedTill(m, ip, till) && till - WINDOW <= s.now < till && !Tells(m, s, ip, Right)
    requires Tells(m, s, ip, Wrong) ==> !Opens(MarkOf(m, s, ip))
    ensures BlockedTill(Advance(m, s), ip, till)
    ensures |InFlight(Advance(m, s), ip)| + (if Tells(m, s, ip, Wrong) then 1 else 0) <= |InFlight(m, ip)|
  {
    var before, after := InFlight(m, ip), InFlight(Advance(m, s), ip);
    if s.Tell? && s.id in before {
      assert after == before - {s.id};
    } else {
      assert after == before;
    }
  }

  /** While an address is blocked and no window opens, nobody is admitted, and every failure
      is of a login that was already under way. */
  lemma {:induction false} BlockedOnlyDrains(steps: seq<Step>, ip: string, j: nat, k: nat, till: int)
    requires Ordered(steps) && NoSuccess(steps, ip) && j <= k <= |steps|
    requires BlockedTill(Run(steps[..j]), ip, till)
    requires forall i | j <= i < k :: till - WINDOW <= steps[i].now < till
    requires forall p | |Trail(steps[..j], ip)| <= p < |Trail(steps[..k], ip)| :: !Opens(Trail(steps[..k], ip)[p])
    ensures BlockedTill(Run(steps[..k]), ip, till)
    ensures |InFlight(Run(steps[..k]), ip)| + |Trail(steps[..k], ip)| <= |InFlight(Run(steps[..j]), ip)| + |Trail(steps[..j], ip)|
    decreases k - j
  {
    hide Trail, Run, BlockedTill, InFlight, Advance, Opens, Tells, MarkOf, NoSuccess;
    if j < k {
      var n := k - 1;
      assert steps[..k][..n] == steps[..n];
      OneMore(steps[..k], ip);
      TrailGrows(steps, ip, j, n);
      var before, after := Trail(steps[..n], ip), Trail(steps[..k], ip);
      forall p | |Trail(steps[..j], ip)| <= p < |before| ensures !Opens(before[p]) {
        assert after[p] == before[p];
      }
      assert |after| > |before| ==> after[|before|] == MarkOf(Run(steps[..n]), steps[n], ip);
      BlockedOnlyDrains(steps, ip, j, n, till);
      NotRight(steps, ip, n);
      BlockedStep(Run(steps[..n]), steps[n], ip, till);
    }
  }

  lemma {:induction false} TrailGrows(steps: seq<Step>, ip: string, j: nat, k: nat)
    requires j <= k <= |steps|
    ensures Trail(steps[..j], ip) <= Trail(steps[..k], ip)
    decreases k - j
  {
    hide Tells, Run;
    if j < k {
      TrailGrows(steps, ip, j, k - 1);
      assert steps[..k][..k - 1] == steps[..k - 1];
    }
  }

  /** The step at which a failure was told. */
  lemma {:induction false} StepOfMark(steps: seq<Step>, ip: string, p: nat) returns (k: nat)
    requires p < |Trail(steps, ip)|
    ensures k < |steps| && Tells(Run(steps[..k]), steps[k], ip, Wrong)
    ensures Trail(steps[..k], ip) == Trail(steps, ip)[..p]
    ensures Trail(steps, ip)[p] == MarkOf(Run(steps[..k]), steps[k], ip)
    decreases |steps|
  {
    hide Tells, Run, MarkOf;
    var n := |steps| - 1;
    if p < |Trail(steps[..n], ip)| {
      k := StepOfMark(steps[..n], ip, p);
      assert steps[..n][..k] == steps[..k];
    } else {
      k := n;
    }
  }

  lemma TellDrains(m: Machine, s: Step, ip: string)
    requires Tells(m, s, ip, Wrong)
    ensures |InFlight(Advance(m, s), ip)| + 1 == |InFlight(m, ip)|
    ensures MarkOf(m, s, ip).count >= MAX_FAILURES ==> BlockedTill(Advance(m, s), ip, s.now + WINDOW)
  {
    assert InFlight(Advance(m, s), ip) == InFlight(m, ip) - {s.id};
  }

  // ---- the bound ----

  /** From a failure with at least the number five there are, within five minutes and up to
      the next opening of a window, at most as many as logins were under way. */
  lemma FewHigh(steps: seq<Step>, ip: string, c: nat, p: nat, q: nat)
    requires Ordered(steps) && NoSuccess(steps, ip) && AtMost(steps, ip, c)
    requires p < q < |Trail(steps, ip)|
    requires Trail(steps, ip)[p].count >= MAX_FAILURES && Trail(steps, ip)[q].time < Trail(steps, ip)[p].time + WINDOW
    requires forall k | p < k < q :: !Opens(Trail(steps, ip)[k])
    ensures q - p + 1 <= c
  {
    hide Trail, Run, BlockedTill, InFlight, Advance, Opens, Tells, NoSuccess, AtMost;
    var trail := Trail(steps, ip);
    var a := StepOfMark(steps, ip, p);
    var b := StepOfMark(steps, ip, q);
    MarkTime(steps, ip, a);
    MarkTime(steps, ip, b);
    assert steps[..a + 1][..a] == steps[..a];
    OneMore(steps[..a + 1], ip);
    TellDrains(Run(steps[..a]), steps[a], ip);
    Precedes(steps, ip, a, b, p, q);
    BlockedOnlyDrains(steps, ip, a + 1, b, trail[p].time + WINDOW);
    TellDrains(Run(steps[..b]), steps[b], ip);
    UnderWay(steps, ip, c, a);
  }

  lemma MarkTime(steps: seq<Step>, ip: string, k: nat)
    requires k < |steps|
    ensures MarkOf(Run(steps[..k]), steps[k], ip).time == steps[k].now
  {
  }

  lemma UnderWay(steps: seq<Step>, ip: string, c: nat, k: nat)
    requires AtMost(steps, ip, c) && k <= |steps|
    ensures |InFlight(Run(steps[..k]), ip)| <= c
  {
  }

  lemma Precedes(steps: seq<Step>, ip: string, a: nat, b: nat, p: nat, q: nat)
    requires a < |steps| && b < |steps| && p < q
    requires |Trail(steps[..a], ip)| == p && |Trail(steps[..b], ip)| == q
    ensures a < b
  {
    hide Trail;
    if b <= a {
      TrailGrows(steps, ip, b, a);
    }
  }

  lemma {:induction false} CountsGrow(trail: seq<Mark>, a: nat, b: nat)
    requires WellMarked(trail) && a <= b < |trail| && forall k | a < k <= b :: !Opens(trail[k])
    ensures trail[b].count == trail[a].count + (b - a)
    decreases b - a
  {
    hide Opens;
    if a < b {
      CountsGrow(trail, a, b - 1);
      assert Follows(trail[b - 1], trail[b]);
    }
  }

  lemma {:induction false} TimesGrow(trail: seq<Mark>, i: nat, j: nat)
    requires WellMarked(trail) && i <= j < |trail|
    ensures trail[i].time <= trail[j].time && trail[i].start <= trail[j].start
    decreases j - i
  {
    if i < j {
      TimesGrow(trail, i, j - 1);
      assert Follows(trail[j - 1], trail[j]);
    }
  }

  /** A window opens more than five minutes after every earlier one. */
  lemma OpensLate(trail: seq<Mark>, a: nat, b: nat)
    requires WellMarked(trail) && a < b < |trail|
    ensures Opens(trail[b]) ==> trail[b].time > trail[a].start + WINDOW
  {
    TimesGrow(trail, a, b - 1);
    assert Follows(trail[b - 1], trail[b]);
  }

  /** Up to the next opening: four failures are free, the others were under way together. */
  lemma Stretch(steps: seq<Step>, ip: string, c: nat, a: nat, b: nat)
    requires Ordered(steps) && NoSuccess(steps, ip) && AtMost(steps, ip, c) && c >= 1
    requires a < b < |Trail(steps, ip)| && Trail(steps, ip)[b].time < Trail(steps, ip)[a].time + WINDOW
    requires forall k | a < k < b :: !Opens(Trail(steps, ip)[k])
    ensures var n := Trail(steps, ip)[a].count;
            b - a <= (if n < MAX_FAILURES then MAX_FAILURES - n else 0) + c - 1
  {
    hide Trail, WellMarked, AtMost, Opens, NoSuccess;
    TrailIsMarked(steps, ip);
    var trail := Trail(steps, ip);
    var n := trail[a].count;
    var h := a + (if n < MAX_FAILURES then MAX_FAILURES - n else 0);
    if h < b {
      CountsGrow(trail, a, h);
      TimesGrow(trail, a, h);
      FewHigh(steps, ip, c, h, b);
    }
  }

  /** Any failures within five minutes of each other are at most 2c + 6. */
  lemma FewTogether(steps: seq<Step>, ip: string, c: nat, i: nat, j: nat)
    requires Ordered(steps) && NoSuccess(steps, ip) && AtMost(steps, ip, c) && c >= 1
    requires i < j < |Trail(steps, ip)| && Trail(steps, ip)[j].time < Trail(steps, ip)[i].time + WINDOW
    ensures j - i <= 2 * c + 5
  {
    hide Trail, AtMost, NoSuccess, WellMarked, Opens;
    TrailIsMarked(steps, ip);
    var trail := Trail(steps, ip);
    var o := i + 1;
    while o < j && !Opens(trail[o])
      invariant i < o <= j && forall k | i < k < o :: !Opens(trail[k])
    {
      o := o + 1;
    }
    TimesGrow(trail, i, o);
    TimesGrow(trail, o, j);
    Counted1(trail, i);
    if o == j {
      Stretch(steps, ip, c, i, j);
    } else {
      OpensLate(trail, i, o);
      Stretch(steps, ip, c, i, o);
      Counted1(trail, o);
      forall k | o < k < j ensures !Opens(trail[k]) {
        OpensLate(trail, o, k);
        TimesGrow(trail, k, j);
      }
      Stretch(steps, ip, c, o, j);
    }
  }

  lemma Counted1(trail: seq<Mark>, i: nat)
    requires WellMarked(trail) && i < |trail|
    ensures trail[i].count >= 1 && (trail[i].count == 1 || Opens(trail[i]) ==> trail[i].start == trail[i].time)
  {
  }

  /** Whatever logins come in, from whatever addresses and however they overlap: if at most
      c of one address are under way at a time, any 2c + 7 of its failures in a row take at
      least five minutes.  One after another that is nine. */
  lemma FailuresAreSpread(steps: seq<Step>, ip: string, c: nat, i: nat)
    requires Ordered(steps) && NoSuccess(steps, ip) && AtMost(steps, ip, c)
    requires i + 2 * c + 6 < |Failures(steps, ip)|
    ensures Failures(steps, ip)[i + 2 * c + 6] >= Failures(steps, ip)[i] + WINDOW
  {
    hide Trail, Failures, AtMost, NoSuccess, Run;
    TrailHasTimes(steps, ip);
    SomeoneFails(steps, ip, c);
    if Trail(steps, ip)[i + 2 * c + 6].time < Trail(steps, ip)[i].time + WINDOW {
      FewTogether(steps, ip, c, i, i + 2 * c + 6);
    }
  }

  lemma SomeoneFails(steps: seq<Step>, ip: string, c: nat)
    requires AtMost(steps, ip, c) && Trail(steps, ip) != []
    ensures c >= 1
  {
    hide Trail, Run, InFlight, Tells;
    var k := StepOfMark(steps, ip, 0);
    TellDrains(Run(steps[..k]), steps[k], ip);
    UnderWay(steps, ip, c, k);
  }

  function Within(times: seq<int>, from: int): set<nat> {
    set k: nat | k < |times| && from <= times[k] < from + WINDOW
  }

  /** So every half-open five minutes hold at most 2c + 6 of them, which is eight for logins
      that come one after another. */
  lemma AtMostInFiveMinutes(steps: seq<Step>, ip: string, c: nat, from: int)
    requires Ordered(steps) && NoSuccess(steps, ip) && AtMost(steps, ip, c)
    ensures |Within(Failures(steps, ip), from)| <= 2 * c + 6
  {
    hide Trail, Failures, Ordered, WellMarked, NoSuccess, AtMost;
    var times := Failures(steps, ip);
    TrailHasTimes(steps, ip);
    TrailIsMarked(steps, ip);
    var found := Within(times, from);
    var lo := 0;
    while lo < |times| && lo !in found
      invariant lo <= |times| && forall k | 0 <= k < lo :: k !in found
    {
      lo := lo + 1;
    }
    forall k | k in found ensures lo <= k < lo + (2 * c + 6) {
      if lo + 2 * c + 6 <= k {
        FailuresAreSpread(steps, ip, c, lo);
        TimesGrow(Trail(steps, ip), lo + 2 * c + 6, k);
      }
    }
    SmallRange(found, lo, 2 * c + 6);
  }

  lemma {:induction false} SmallRange(s: set<nat>, lo: nat, n: nat)
    requires forall k | k in s :: lo <= k < lo + n
    ensures |s| <= n
  {
    if n == 0 {
      var e: set<nat> := {};
      assert forall k :: k in s <==> k in e;
      assert s == e;
    } else {
      var k := lo + n - 1;
      SmallRange(s - {k}, lo, n - 1);
      assert |s| <= |s - {k}| + 1 by {
        assert s <= (s - {k}) + {k};
        assert |(s - {k}) + {k}| <= |s - {k}| + 1;
        SubsetSize(s, (s - {k}) + {k});
      }
    }
  }

  lemma SubsetSize(a: set<nat>, b: set<nat>)
    requires a <= b
    ensures |a| <= |b|
  {
    assert b == a + (b - a) && a * (b - a) == {};
  }

  /** When logins come one after another, a failure with at least the number five in its
      window is followed by five minutes without any. */
  lemma FifthFailureIsFollowedByFiveMinutes(steps: seq<Step>, ip: string, p: nat)
    requires Ordered(steps) && NoSuccess(steps, ip) && AtMost(steps, ip, 1)
    requires p + 1 < |Trail(steps, ip)| && Trail(steps, ip)[p].count >= MAX_FAILURES
    ensures Trail(steps, ip)[p + 1].time >= Trail(steps, ip)[p].time + WINDOW
  {
    hide Trail, AtMost, NoSuccess;
    if Trail(steps, ip)[p + 1].time < Trail(steps, ip)[p].time + WINDOW {
      FewHigh(steps, ip, 1, p, p + 1);
    }
  }

  // ---- how sharp the bound is ----

  /** A run with these failures, in which at most `c` logins overlap. */
  ghost predicate Made(steps: seq<Step>, ip: string, c: nat, times: seq<int>, now: int) {
    && Ordered(steps) && NoSuccess(steps, ip) && AtMost(steps, ip, c)
    && Failures(steps, ip) == times && forall s | s in steps :: s.now <= now
  }

  lemma NothingMade(ip: string, c: nat)
    ensures Made([], ip, c, [], 0)
  {
    assert InFlight(IDLE, ip) == {};
  }

  lemma MadeMore(steps: seq<Step>, ip: string, c: nat, times: seq<int>, now: int, s: Step)
    requires Made(steps, ip, c, times, now) && s.now >= now && !Tells(Run(steps), s, ip, Right)
    requires |InFlight(Advance(Run(steps), s), ip)| <= c
    ensures Run(steps + [s]) == Advance(Run(steps), s)
    ensures Made(steps + [s], ip, c, if Tells(Run(steps), s, ip, Wrong) then times + [s.now] else times, s.now)
  {
    hide Advance, Tells, InFlight, Run, Failures;
    var more := steps + [s];
    assert more[..|steps|] == steps;
    OneMore(more, ip);
    forall k | 0 <= k <= |more| ensures |InFlight(Run(more[..k]), ip)| <= c {
      SamePrefix(steps, s, k);
    }
    forall k | 0 <= k < |more| ensures !Tells(Run(more[..k]), more[k], ip, Right) {
      SamePrefix(steps, s, k);
    }
  }

  lemma SamePrefix(steps: seq<Step>, s: Step, k: nat)
    requires k <= |steps| + 1
    ensures (steps + [s])[..k] == if k <= |steps| then steps[..k] else steps + [s]
  {
  }

  function Span(lo: nat, hi: nat): (s: set<nat>)
    requires lo <= hi
    ensures |s| == hi - lo && forall k: nat :: k in s <==> lo <= k < hi
    decreases hi - lo
  {
    if lo == hi then {} else Span(lo, hi - 1) + {hi - 1}
  }

  /** Between `lo` and `hi` are the logins under way, all of this address. */
  ghost predicate UnderWayAre(m: Machine, ip: string, lo: nat, hi: nat) {
    && lo <= hi && m.inFlight.Keys == Span(lo, hi) && (forall id | id in m.inFlight :: m.inFlight[id] == ip)
  }

  lemma AskStep(m: Machine, ip: string, at: int, lo: nat, hi: nat)
    requires UnderWayAre(m, ip, lo, hi)
    requires var a := Of(m.attempts, ip); !Blocked(a, at) && (a == ZERO || !Expired(a, at))
    ensures var n := Advance(m, Ask(hi, ip, at));
            && UnderWayAre(n, ip, lo, hi + 1) && |InFlight(n, ip)| == hi + 1 - lo
            && Of(n.attempts, ip) == Of(m.attempts, ip)
  {
    hide Blocked, Expired;
    assert hi !in m.inFlight.Keys;
    var n := Advance(m, Ask(hi, ip, at));
    assert n.inFlight == m.inFlight[hi := ip];
    assert n.inFlight.Keys == Span(lo, hi + 1);
    AllOfAddress(n, ip);
  }

  lemma AllOfAddress(m: Machine, ip: string)
    requires forall id | id in m.inFlight :: m.inFlight[id] == ip
    ensures InFlight(m, ip) == m.inFlight.Keys
  {
  }

  lemma TellStep(m: Machine, ip: string, at: int, lo: nat, hi: nat)
    requires UnderWayAre(m, ip, lo, hi) && lo < hi
    ensures var s := Tell(lo, Wrong, at);
            var n := Advance(m, s);
            && Tells(m, s, ip, Wrong) && UnderWayAre(n, ip, lo + 1, hi) && |InFlight(n, ip)| == hi - lo - 1
            && Of(n.attempts, ip) == Counted(Of(m.attempts, ip), at)
  {
    hide Counted;
    assert lo in m.inFlight.Keys;
    var n := Advance(m, Tell(lo, Wrong, at));
    assert n.inFlight.Keys == Span(lo + 1, hi);
    AllOfAddress(n, ip);
  }

  lemma AskMore(steps: seq<Step>, ip: string, c: nat, times: seq<int>, now: int, at: int, lo: nat, hi: nat)
    returns (more: seq<Step>)
    requires Made(steps, ip, c, times, now) && at >= now && UnderWayAre(Run(steps), ip, lo, hi) && hi - lo < c
    requires var a := Of(Run(steps).attempts, ip); !Blocked(a, at) && (a == ZERO || !Expired(a, at))
    ensures Made(more, ip, c, times, at) && UnderWayAre(Run(more), ip, lo, hi + 1)
    ensures Of(Run(more).attempts, ip) == Of(Run(steps).attempts, ip)
  {
    hide Made, Run, Of, Advance, Blocked, Expired, InFlight;
    var s := Ask(hi, ip, at);
    more := steps + [s];
    AskStep(Run(steps), ip, at, lo, hi);
    MadeMore(steps, ip, c, times, now, s);
  }

  lemma TellMore(steps: seq<Step>, ip: string, c: nat, times: seq<int>, now: int, at: int, lo: nat, hi: nat)
    returns (more: seq<Step>)
    requires Made(steps, ip, c, times, now) && at >= now && UnderWayAre(Run(steps), ip, lo, hi) && lo < hi <= lo + c
    ensures Made(more, ip, c, times + [at], at) && UnderWayAre(Run(more), ip, lo + 1, hi)
    ensures Of(Run(more).attempts, ip) == Counted(Of(Run(steps).attempts, ip), at)
  {
    hide Made, Run, Counted, Of, Advance, InFlight;
    var s := Tell(lo, Wrong, at);
    more := steps + [s];
    TellStep(Run(steps), ip, at, lo, hi);
    MadeMore(steps, ip, c, times, now, s);
  }

  function Repeat(x: int, n: nat): seq<int> {
    seq(n, i => x)
  }

  /** `n` failures one after another, none of which is the fifth. */
  lemma {:induction false} FailInTurn(steps: seq<Step>, ip: string, c: nat, times: seq<int>, now: int, at: int, id: nat, n: nat)
    returns (more: seq<Step>)
    requires c >= 1 && Made(steps, ip, c, times, now) && at >= now && UnderWayAre(Run(steps), ip, id, id)
    requires var a := Of(Run(steps).attempts, ip);
             a.blockedTill.None? && (a == ZERO || !Expired(a, at)) && a.failures + n < MAX_FAILURES
    ensures Made(more, ip, c, times + Repeat(at, n), at) && UnderWayAre(Run(more), ip, id + n, id + n)
    ensures var a, b := Of(Run(steps).attempts, ip), Of(Run(more).attempts, ip);
            && b.blockedTill.None? && b.failures == a.failures + n
            && b.windowStart == (if n > 0 && a == ZERO then Some(at) else a.windowStart)
    decreases n
  {
    hide Run, UnderWayAre, Made, Of, Counted;
    if n == 0 {
      more := steps;
      assert times + Repeat(at, 0) == times;
      MadeLater(steps, ip, c, times, now, at);
    } else {
      var asked := AskMore(steps, ip, c, times, now, at, id, id);
      var told := TellMore(asked, ip, c, times, at, at, id, id + 1);
      CountedOpen(Of(Run(steps).attempts, ip), at);
      more := FailInTurn(told, ip, c, times + [at], at, at, id + 1, n - 1);
      assert times + [at] + Repeat(at, n - 1) == times + Repeat(at, n);
    }
  }

  lemma CountedOpen(a: Attempt, at: int)
    requires a.blockedTill.None? && (a == ZERO || !Expired(a, at)) && a.failures + 1 < MAX_FAILURES
    ensures var b := Counted(a, at);
            && b.blockedTill.None? && b.failures == a.failures + 1 && !Expired(b, at) && b != ZERO
            && b.windowStart == (if a == ZERO then Some(at) else a.windowStart)
  {
  }

  lemma MadeLater(steps: seq<Step>, ip: string, c: nat, times: seq<int>, now: int, later: int)
    requires Made(steps, ip, c, times, now) && now <= later
    ensures Made(steps, ip, c, times, later)
  {
  }

  lemma {:induction false} AskTogether(steps: seq<Step>, ip: string, c: nat, times: seq<int>, at: int, lo: nat, n: nat)
    returns (more: seq<Step>)
    requires Made(steps, ip, c, times, at) && UnderWayAre(Run(steps), ip, lo, lo) && n <= c
    requires var a := Of(Run(steps).attempts, ip); !Blocked(a, at) && (a == ZERO || !Expired(a, at))
    ensures Made(more, ip, c, times, at) && UnderWayAre(Run(more), ip, lo, lo + n)
    ensures Of(Run(more).attempts, ip) == Of(Run(steps).attempts, ip)
    decreases n
  {
    hide Made, Run, Blocked, Expired, UnderWayAre;
    if n == 0 {
      more := steps;
    } else {
      var before := AskTogether(steps, ip, c, times, at, lo, n - 1);
      more := AskMore(before, ip, c, times, at, at, lo, lo + n - 1);
    }
  }

  lemma {:induction false} TellTogether(steps: seq<Step>, ip: string, c: nat, times: seq<int>, at: int, lo: nat, hi: nat, n: nat)
    returns (more: seq<Step>)
    requires Made(steps, ip, c, times, at) && UnderWayAre(Run(steps), ip, lo, hi) && lo + n <= hi <= lo + c
    requires var a := Of(Run(steps).attempts, ip); a == ZERO || !Expired(a, at)
    ensures Made(more, ip, c, times + Repeat(at, n), at) && UnderWayAre(Run(more), ip, lo + n, hi)
    ensures var a, b := Of(Run(steps).attempts, ip), Of(Run(more).attempts, ip);
            (n == 0 && b == a) || (n > 0 && b.windowStart == (if a == ZERO then Some(at) else a.windowStart))
    decreases n
  {
    hide Made, Run, UnderWayAre;
    if n == 0 {
      more := steps;
      assert times + Repeat(at, 0) == times;
    } else {
      var told := TellMore(steps, ip, c, times, at, at, lo, hi);
      more := TellTogether(told, ip, c, times + [at], at, lo + 1, hi, n - 1);
      assert times + [at] + Repeat(at, n - 1) == times + Repeat(at, n);
    }
  }

  /** The bound is met for every c: three failures at the end of a window, then c logins at
      once, all but one of which fail and block the address; the last one fails when the
      window is over and opens a new one, which lifts the block; then three more, and again
      c at once. */
  lemma BoundIsMet(ip: string, c: nat) returns (steps: seq<Step>)
    requires c >= 1
    ensures Ordered(steps) && NoSuccess(steps, ip) && AtMost(steps, ip, c)
    ensures |Within(Failures(steps, ip), WINDOW)| == 2 * c + 6
  {
    hide Run, UnderWayAre, NoSuccess, AtMost, Failures, Ordered;
    var w, v := WINDOW, WINDOW + 1;
    NothingMade(ip, c);
    Untouched(ip);
    var a := FailInTurn([], ip, c, [], 0, 0, 0, 1);
    var b := FailInTurn(a, ip, c, [] + Repeat(0, 1), 0, w, 1, 3);
    var t := [] + Repeat(0, 1) + Repeat(w, 3);
    var d := AskTogether(b, ip, c, t, w, 4, c);
    var e := TellTogether(d, ip, c, t, w, 4, 4 + c, c - 1);
    t := t + Repeat(w, c - 1);
    var f := TellMore(e, ip, c, t, w, v, 3 + c, 4 + c);
    t := t + [v];
    var g := FailInTurn(f, ip, c, t, v, v, 4 + c, 3);
    t := t + Repeat(v, 3);
    var h := AskTogether(g, ip, c, t, v, 7 + c, c);
    steps := TellTogether(h, ip, c, t, v, 7 + c, 7 + 2 * c, c);
    t := t + Repeat(v, c);
    assert |t| == 2 * c + 7 && t[0] == 0 && forall k | 0 < k < |t| :: w <= t[k] <= v;
    assert Failures(steps, ip) == t;
    assert Within(t, w) == Span(1, 2 * c + 7);
  }

  lemma Untouched(ip: string)
    ensures Of(Run([]).attempts, ip) == ZERO && UnderWayAre(Run([]), ip, 0, 0)
  {
    assert Run([]).inFlight.Keys == Span(0, 0);
  }
}
