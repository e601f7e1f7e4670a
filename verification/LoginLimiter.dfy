/** The limit on wrong passwords for the admin panel: internal/admin/handler.go.

    A login asks the limiter first and tells it the outcome later; other logins may ask and
    tell in between.  Times are in nanoseconds. */
module LoginLimiter {
  import opened GoStrings

  const SECOND := 1_000_000_000
  const WINDOW := 300 * SECOND
  const MAX_FAILURES: nat := 5

  /** The zero value of Go's times is None. */
  datatype Attempt = Attempt(windowStart: Option<int>, failures: nat, blockedTill: Option<int>)

  type Attempts = map<string, Attempt>

  const ZERO := Attempt(None, 0, None)

  function Of(m: Attempts, ip: string): Attempt {
    if ip in m then m[ip] else ZERO
  }

  predicate Blocked(a: Attempt, now: int) {
    a.blockedTill.Some? && now < a.blockedTill.value
  }

  predicate Expired(a: Attempt, now: int) {
    a.windowStart.None? || now - a.windowStart.value > WINDOW
  }

  function Asked(m: Attempts, ip: string, now: int): Attempts {
    if !Blocked(Of(m, ip), now) && Expired(Of(m, ip), now) then m - {ip} else m
  }

  function Counted(a: Attempt, now: int): (b: Attempt)
    ensures b.windowStart.Some?
  {
    var b := if Expired(a, now) then Attempt(Some(now), 0, None) else a;
    b.(failures := b.failures + 1, blockedTill := if b.failures + 1 >= MAX_FAILURES then Some(now + WINDOW) else b.blockedTill)
  }

  class Limiter {
    var attempts: Attempts

    constructor ()
      ensures attempts == map[]
    {
      attempts := map[];
    }

    /** None admits; otherwise the seconds after which to ask again. */
    method Allow(ip: string, now: int) returns (retryAfter: Option<int>)
      modifies this
      ensures attempts == Asked(old(attempts), ip, now)
      ensures retryAfter.Some? <==> Blocked(Of(old(attempts), ip), now)
      ensures retryAfter.Some? ==>
                var wait := retryAfter.value;
                wait > 0 && !Blocked(Of(attempts, ip), now + wait * SECOND)
                && (wait > 1 ==> Blocked(Of(attempts, ip), now + (wait - 1) * SECOND - 1))
    {
      var attempt := if ip in attempts then attempts[ip] else ZERO;
      if attempt.blockedTill.Some? && now < attempt.blockedTill.value {
        return Some((attempt.blockedTill.value - now) / SECOND + 1);
      }
      if attempt.windowStart.None? || now - attempt.windowStart.value > WINDOW {
        attempts := attempts - {ip};
      }
      return None;
    }

    method Fail(ip: string, now: int)
      modifies this
      ensures attempts == old(attempts)[ip := Counted(Of(old(attempts), ip), now)]
    {
      var attempt := if ip in attempts then attempts[ip] else ZERO;
      if attempt.windowStart.None? || now - attempt.windowStart.value > WINDOW {
        attempt := Attempt(Some(now), 0, None);
      }
      attempt := attempt.(failures := attempt.failures + 1);
      if attempt.failures >= MAX_FAILURES {
        attempt := attempt.(blockedTill := Some(now + WINDOW));
      }
      attempts := attempts[ip := attempt];
    }

    method Success(ip: string)
      modifies this
      ensures attempts == old(attempts) - {ip}
    {
      attempts := attempts - {ip};
    }
  }

  // ---- logins ----

  datatype Entry = Malformed | Wrong | Right

  function Told(m: Attempts, ip: string, entry: Entry, now: int): Attempts {
    match entry
    case Malformed => m
    case Wrong => m[ip := Counted(Of(m, ip), now)]
    case Right => m - {ip}
  }

  method Interleave(limiter: Limiter, others: Attempts -> Attempts)
    modifies limiter
    ensures limiter.attempts == others(old(limiter.attempts))
  {
    limiter.attempts := others(limiter.attempts);
  }

  /** One login request; `others` is what the rest of the program does to the limiter
      between the question and the outcome. */
  method HandleLogin(limiter: Limiter, ip: string, askedAt: int, others: Attempts -> Attempts, entry: Entry, toldAt: int)
    returns (admitted: bool)
    modifies limiter
    ensures admitted == !Blocked(Of(old(limiter.attempts), ip), askedAt)
    ensures admitted ==>
              limiter.attempts == Told(others(Asked(old(limiter.attempts), ip, askedAt)), ip, entry, toldAt)
    ensures !admitted ==> limiter.attempts == old(limiter.attempts)
  {
    hide Counted, Expired;
    var retryAfter := limiter.Allow(ip, askedAt);
    if retryAfter.Some? {
      return false;
    }
    Interleave(limiter, others);
    match entry {
      case Malformed =>
      case Wrong =>
        limiter.Fail(ip, toldAt);
      case Right =>
        limiter.Success(ip);
    }
    return true;
  }

  // ---- runs of many logins ----

  datatype Step = Ask(id: nat, ip: string, now: int) | Tell(id: nat, entry: Entry, now: int)

  /** What the limiter holds, and the admitted logins whose outcome it has not been told. */
  datatype Machine = Machine(attempts: Attempts, inFlight: map<nat, string>)

  const IDLE := Machine(map[], map[])

  function Advance(m: Machine, s: Step): Machine {
    match s
    case Ask(id, ip, now) =>
      if id in m.inFlight then m
      else Machine(Asked(m.attempts, ip, now),
                   if Blocked(Of(m.attempts, ip), now) then m.inFlight else m.inFlight[id := ip])
    case Tell(id, entry, now) =>
      if id !in m.inFlight then m
      else Machine(Told(m.attempts, m.inFlight[id], entry, now), m.inFlight - {id})
  }

  function Run(steps: seq<Step>): Machine {
    if steps == [] then IDLE else Advance(Run(steps[..|steps| - 1]), steps[|steps| - 1])
  }

  predicate Tells(m: Machine, s: Step, ip: string, entry: Entry) {
    s.Tell? && s.id in m.inFlight && m.inFlight[s.id] == ip && s.entry == entry
  }

  /** When wrong passwords were tried from an address, in order. */
  function Failures(steps: seq<Step>, ip: string): seq<int> {
    if steps == [] then [] else
      var init, s := steps[..|steps| - 1], steps[|steps| - 1];
      Failures(init, ip) + (if Tells(Run(init), s, ip, Wrong) then [s.now] else [])
  }

  function InFlight(m: Machine, ip: string): set<nat> {
    set id | id in m.inFlight && m.inFlight[id] == ip
  }

  /** The clock, read under the limiter's lock, does not go back. */
  predicate Ordered(steps: seq<Step>) {
    forall i, j | 0 <= i < j < |steps| :: steps[i].now <= steps[j].now
  }

  /** Nobody logs in from the address. */
  predicate NoSuccess(steps: seq<Step>, ip: string) {
    forall k | 0 <= k < |steps| :: !Tells(Run(steps[..k]), steps[k], ip, Right)
  }

  /** At most `c` logins of the address are under way at any moment. */
  predicate AtMost(steps: seq<Step>, ip: string, c: nat) {
    forall k | 0 <= k <= |steps| :: |InFlight(Run(steps[..k]), ip)| <= c
  }
}
