/** The cache of page tokens: internal/gemini/tokens.go.

    A lookup and the store that follows a fetch are separate steps, and other requests may
    look up, store and invalidate in between.  The hash that the source uses as a key is
    taken to be injective, so a key is the cookie and the proxy themselves. */
module Tokens {
  import opened GoStrings

  const MINUTE := 60_000_000_000
  const LIFETIME := 20 * MINUTE

  datatype Key = Key(cookie: string, proxy: string)

  datatype PageTokens = PageTokens(xsrf: string, bl: string, fetchedAt: int)

  type Entries = map<Key, PageTokens>

  /** How fetching the page went; a token that the page does not contain, or a build label
      of the wrong shape, is empty. */
  datatype Page = Unreachable(message: string) | Refused(status: string) | Unreadable(message: string) | Page(xsrf: string, bl: string)

  datatype Answer = Resolved(xsrf: string, bl: string) | Denied(message: string)

  const SIGNED_IN_COOKIE := "signed-in cookie"
  const NOT_ACCEPTED := SIGNED_IN_COOKIE + " was not accepted: Gemini app page did not contain an XSRF token"

  datatype Ask = Ask(key: Key, pinned: string, auto: bool)

  function ChooseBL(discovered: string, pinned: string, auto: bool): string {
    if auto && discovered != "" then discovered else pinned
  }

  predicate NeedsPage(ask: Ask) {
    ask.key.cookie != "" || ask.auto
  }

  /** The lookup finds tokens that may be used. */
  predicate Hits(entries: Entries, key: Key, now: int) {
    key in entries && now - entries[key].fetchedAt < LIFETIME && (key.cookie == "" || entries[key].xsrf != "")
  }

  /** The page is worth keeping for this cookie. */
  predicate Kept(key: Key, page: Page) {
    page.Page? && (key.cookie == "" || page.xsrf != "")
  }

  function Stored(entries: Entries, key: Key, page: Page, now: int): Entries {
    if Kept(key, page) then entries[key := PageTokens(page.xsrf, page.bl, now)] else entries
  }

  function Fetched(ask: Ask, page: Page): Answer {
    match page
    case Unreachable(message) =>
      if ask.key.cookie == "" then Resolved("", ask.pinned) else Denied("fetch Gemini app tokens: " + message)
    case Refused(status) =>
      if ask.key.cookie == "" then Resolved("", ask.pinned) else Denied("fetch Gemini app tokens: HTTP " + status)
    case Unreadable(message) => Denied("read Gemini app page: " + message)
    case Page(xsrf, bl) =>
      if ask.key.cookie != "" && xsrf == "" then Denied(NOT_ACCEPTED) else Resolved(xsrf, ChooseBL(bl, ask.pinned, ask.auto))
  }

  function Found(ask: Ask, tokens: PageTokens): Answer {
    Resolved(tokens.xsrf, ChooseBL(tokens.bl, ask.pinned, ask.auto))
  }

  class TokenCache {
    var entries: Entries

    constructor ()
      ensures entries == map[]
    {
      entries := map[];
    }

    method Interleave(others: Entries -> Entries)
      modifies this
      ensures entries == others(old(entries))
    {
      entries := others(entries);
    }

    /** `others` is what the rest of the program does to the entries while the page is
        fetched; `page` is what the fetch brings. */
    method Resolve(ask: Ask, startedAt: int,
                   others: Entries -> Entries, page: Page, fetchedAt: int) returns (answer: Answer)
      modifies this
      ensures !NeedsPage(ask) ==> answer == Resolved("", ask.pinned) && entries == old(entries)
      ensures NeedsPage(ask) && Hits(old(entries), ask.key, startedAt) ==>
                answer == Found(ask, old(entries)[ask.key]) && entries == old(entries)
      ensures NeedsPage(ask) && !Hits(old(entries), ask.key, startedAt) ==>
                answer == Fetched(ask, page) && entries == Stored(others(old(entries)), ask.key, page, fetchedAt)
      ensures ask.key.cookie != "" && answer.Resolved? ==> answer.xsrf != ""
    {
      if ask.key.cookie == "" && !ask.auto {
        return Resolved("", ask.pinned);
      }
      if ask.key in entries {
        var entry := entries[ask.key];
        if startedAt - entry.fetchedAt < LIFETIME && (ask.key.cookie == "" || entry.xsrf != "") {
          return Resolved(entry.xsrf, ChooseBL(entry.bl, ask.pinned, ask.auto));
        }
      }
      Interleave(others);
      match page {
        case Unreachable(message) =>
          return if ask.key.cookie == "" then Resolved("", ask.pinned) else Denied("fetch Gemini app tokens: " + message);
        case Refused(status) =>
          return if ask.key.cookie == "" then Resolved("", ask.pinned) else Denied("fetch Gemini app tokens: HTTP " + status);
        case Unreadable(message) =>
          return Denied("read Gemini app page: " + message);
        case Page(xsrf, bl) =>
          if ask.key.cookie != "" && xsrf == "" {
            return Denied(NOT_ACCEPTED);
          }
          entries := entries[ask.key := PageTokens(xsrf, bl, fetchedAt)];
          return Resolved(xsrf, ChooseBL(bl, ask.pinned, ask.auto));
      }
    }

    method Invalidate(key: Key)
      modifies this
      ensures entries == old(entries) - {key}
    {
      entries := entries - {key};
    }
  }

  // ---- runs of many requests ----

  /** A request begins with a lookup; if that misses, its fetch finishes some time later. */
  datatype Step = Begin(id: nat, ask: Ask, now: int) | Finish(id: nat, page: Page, now: int) | Invalidate(key: Key)

  datatype Machine = Machine(entries: Entries, fetching: map<nat, Ask>)

  const IDLE := Machine(map[], map[])

  function Advance(m: Machine, s: Step): Machine {
    match s
    case Begin(id, ask, now) =>
      if id in m.fetching || !NeedsPage(ask) || Hits(m.entries, ask.key, now) then m
      else m.(fetching := m.fetching[id := ask])
    case Finish(id, page, now) =>
      if id !in m.fetching then m
      else Machine(Stored(m.entries, m.fetching[id].key, page, now), m.fetching - {id})
    case Invalidate(key) => m.(entries := m.entries - {key})
  }

  function Run(steps: seq<Step>): Machine {
    if steps == [] then IDLE else Advance(Run(steps[..|steps| - 1]), steps[|steps| - 1])
  }

  /** What the k-th step answers, if it answers. */
  function AnswerAt(steps: seq<Step>, k: nat): Option<Answer>
    requires k < |steps|
  {
    var m := Run(steps[..k]);
    match steps[k]
    case Begin(id, ask, now) =>
      if !NeedsPage(ask) then Some(Resolved("", ask.pinned))
      else if Hits(m.entries, ask.key, now) then Some(Found(ask, m.entries[ask.key]))
      else None
    case Finish(id, page, now) => if id in m.fetching then Some(Fetched(m.fetching[id], page)) else None
    case Invalidate(_) => None
  }

  function AskAt(steps: seq<Step>, k: nat): Option<Ask>
    requires k < |steps|
  {
    match steps[k]
    case Begin(id, ask, now) => Some(ask)
    case Finish(id, page, now) => if id in Run(steps[..k]).fetching then Some(Run(steps[..k]).fetching[id]) else None
    case Invalidate(_) => None
  }

  /** The k-th step stores a page under the key. */
  predicate StoresAt(steps: seq<Step>, k: nat, key: Key)
    requires k < |steps|
  {
    && steps[k].Finish? && AskAt(steps, k).Some? && AskAt(steps, k).value.key == key
    && steps[k].page.Page? && (key.cookie == "" || steps[k].page.xsrf != "")
  }

  /** The k-th step is the last to touch the key, and it stored. */
  ghost predicate LastStored(steps: seq<Step>, k: nat, key: Key) {
    && k < |steps| && StoresAt(steps, k, key)
    && forall j | k < j < |steps| :: steps[j] != Invalidate(key) && !StoresAt(steps, j, key)
  }

  lemma StepsBefore(steps: seq<Step>, s: Step, k: nat)
    requires k < |steps|
    ensures (steps + [s])[..k] == steps[..k] && (steps + [s])[k] == steps[k]
    ensures forall key :: StoresAt(steps + [s], k, key) <==> StoresAt(steps, k, key)
  {
    assert (steps + [s])[..k] == steps[..k];
    assert AskAt(steps + [s], k) == AskAt(steps, k);
  }

  lemma LastStoredOn(steps: seq<Step>, s: Step, k: nat, key: Key)
    requires LastStored(steps, k, key) && s != Invalidate(key) && !StoresAt(steps + [s], |steps|, key)
    ensures LastStored(steps + [s], k, key)
  {
    hide StoresAt;
    forall j | 0 <= j < |steps| ensures (steps + [s])[j] == steps[j] && (StoresAt(steps + [s], j, key) <==> StoresAt(steps, j, key)) {
      StepsBefore(steps, s, j);
    }
    assert (steps + [s])[|steps|] == s;
  }

  /** What one step does to one key. */
  lemma StepOnKey(steps: seq<Step>, s: Step, key: Key)
    ensures var before, after := Run(steps).entries, Run(steps + [s]).entries;
            if s == Invalidate(key) then key !in after
            else if StoresAt(steps + [s], |steps|, key) then
              key in after && after[key] == PageTokens(s.page.xsrf, s.page.bl, s.now)
            else (key in after <==> key in before) && (key in after ==> after[key] == before[key])
  {
    assert (steps + [s])[..|steps|] == steps;
  }

  /** The cache holds exactly the last page stored under each key and not invalidated since. */
  lemma {:induction false} EntriesAreLastStored(steps: seq<Step>, key: Key)
    ensures key in Run(steps).entries <==> exists k: nat :: LastStored(steps, k, key)
    ensures forall k: nat | LastStored(steps, k, key) ::
              key in Run(steps).entries
              && Run(steps).entries[key] == PageTokens(steps[k].page.xsrf, steps[k].page.bl, steps[k].now)
    decreases |steps|
  {
    hide StoresAt;
    if steps != [] {
      var n := |steps| - 1;
      var init, s := steps[..n], steps[n];
      assert steps == init + [s];
      EntriesAreLastStored(init, key);
      StepOnKey(init, s, key);
      if s != Invalidate(key) && !StoresAt(steps, n, key) {
        forall k: nat | LastStored(init, k, key) ensures LastStored(steps, k, key) {
          LastStoredOn(init, s, k, key);
        }
        forall k: nat | LastStored(steps, k, key) ensures LastStored(init, k, key) && steps[k] == init[k] {
          LastStoredBack(init, s, k, key);
        }
      } else if s != Invalidate(key) {
        assert LastStored(steps, n, key);
      } else {
        InvalidatedLast(steps, key);
      }
    }
  }

  lemma InvalidatedLast(steps: seq<Step>, key: Key)
    requires steps != [] && steps[|steps| - 1] == Invalidate(key)
    ensures forall k: nat :: !LastStored(steps, k, key)
  {
    hide Run;
    forall k: nat ensures !LastStored(steps, k, key) {
      assert k < |steps| - 1 ==> steps[|steps| - 1] == Invalidate(key);
    }
  }

  lemma LastStoredBack(steps: seq<Step>, s: Step, k: nat, key: Key)
    requires k <= |steps| && LastStored(steps + [s], k, key) && !StoresAt(steps + [s], |steps|, key)
    ensures LastStored(steps, k, key)
  {
    hide StoresAt;
    forall j | 0 <= j < |steps| ensures (steps + [s])[j] == steps[j] && (StoresAt(steps + [s], j, key) <==> StoresAt(steps, j, key)) {
      StepsBefore(steps, s, j);
    }
    assert StoresAt(steps + [s], k, key);
    forall j | k < j < |steps| ensures steps[j] != Invalidate(key) && !StoresAt(steps, j, key) {
      assert (steps + [s])[j] != Invalidate(key) && !StoresAt(steps + [s], j, key);
    }
  }

  /** Tokens answered from the cache were fetched less than twenty minutes ago for the same
      cookie through the same proxy, and nothing has been invalidated or stored since. */
  lemma HitsAreFresh(steps: seq<Step>, ask: Ask, now: int) returns (k: nat)
    requires Hits(Run(steps).entries, ask.key, now)
    ensures LastStored(steps, k, ask.key) && now - steps[k].now < LIFETIME
    ensures Found(ask, Run(steps).entries[ask.key]) == Resolved(steps[k].page.xsrf, ChooseBL(steps[k].page.bl, ask.pinned, ask.auto))
  {
    hide Run, StoresAt;
    EntriesAreLastStored(steps, ask.key);
    k :| LastStored(steps, k, ask.key);
  }

  /** After an invalidation a lookup fetches again, unless a fetch has stored since. */
  lemma InvalidatedIsRefetched(steps: seq<Step>, i: nat, key: Key, now: int)
    requires i < |steps| && steps[i] == Invalidate(key)
    requires forall j | i < j < |steps| :: !StoresAt(steps, j, key)
    ensures !Hits(Run(steps).entries, key, now)
  {
    hide Run;
    EntriesAreLastStored(steps, key);
    forall k: nat ensures !LastStored(steps, k, key) {
      assert k < i ==> steps[i] == Invalidate(key);
    }
  }

  /** Such a store can come from a fetch that began before the invalidation. */
  lemma LateFetchOutlivesInvalidation(ask: Ask, page: Page, now: int)
    requires ask.key.cookie != "" && Kept(ask.key, page)
    ensures Hits(Run([Begin(0, ask, now), Invalidate(ask.key), Finish(0, page, now)]).entries, ask.key, now)
  {
    var a, b, c := Begin(0, ask, now), Invalidate(ask.key), Finish(0, page, now);
    assert [a, b, c][..2] == [a, b] && [a, b][..1] == [a] && [a][..0] == [];
    assert Run([a]) == Machine(map[], map[0 := ask]);
    assert Run([a, b]).fetching == map[0 := ask];
    assert Run([a, b, c]) == Advance(Run([a, b]), c);
  }

  /** At every moment of every run, what is cached for a cookie has its XSRF token. */
  lemma {:induction false} CachedTokensAreSound(steps: seq<Step>, key: Key)
    ensures key in Run(steps).entries && key.cookie != "" ==> Run(steps).entries[key].xsrf != ""
  {
    hide Run;
    EntriesAreLastStored(steps, key);
    if key in Run(steps).entries {
      var k: nat :| LastStored(steps, k, key);
    }
  }

  /** A resolve for a cookie that succeeds brings an XSRF token. */
  lemma ResolvedHasXsrf(steps: seq<Step>, k: nat)
    requires k < |steps| && AskAt(steps, k).Some? && AskAt(steps, k).value.key.cookie != ""
    ensures var answer := AnswerAt(steps, k);
            answer.Some? && answer.value.Resolved? ==> answer.value.xsrf != ""
  {
    hide Run;
    CachedTokensAreSound(steps[..k], AskAt(steps, k).value.key);
  }

  /** The tokens of a page, with its build label only if that is wanted and known. */
  predicate FromPage(ask: Ask, page: Page, answer: Answer)
    requires page.Page?
  {
    && answer.Resolved? && answer.xsrf == page.xsrf
    && answer.bl == (if ask.auto && page.bl != "" then page.bl else ask.pinned)
  }

  /** What every request in every run is answered.  Without a cookie and without the wish for
      a label nothing is asked for; a page stored under the key less than twenty minutes ago,
      and not invalidated since, answers at once; everyone else waits for a page, and only
      requests without a cookie do without one, or without its XSRF token. */
  lemma AnswersExactly(steps: seq<Step>, k: nat)
    requires k < |steps| && AskAt(steps, k).Some?
    ensures var ask, answer := AskAt(steps, k).value, AnswerAt(steps, k);
            match steps[k]
            case Begin(_, _, now) =>
              if ask.key.cookie == "" && !ask.auto then answer == Some(Resolved("", ask.pinned))
              else
                && (answer.Some? <==> exists j: nat :: LastStored(steps[..k], j, ask.key) && now - steps[j].now < 1_200_000_000_000)
                && forall j: nat | LastStored(steps[..k], j, ask.key) && answer.Some? :: FromPage(ask, steps[j].page, answer.value)
            case Finish(_, page, _) =>
              && answer.Some?
              && (match page
                 case Page(xsrf, _) =>
                   if ask.key.cookie != "" && xsrf == "" then answer.value.Denied? else FromPage(ask, page, answer.value)
                 case Unreadable(_) => answer.value.Denied?
                 case _ => if ask.key.cookie == "" then answer.value == Resolved("", ask.pinned) else answer.value.Denied?)
            case Invalidate(_) => true
  {
    hide Run, StoresAt;
    var init, ask := steps[..k], AskAt(steps, k).value;
    if steps[k].Begin? {
      EntriesAreLastStored(init, ask.key);
      CachedTokensAreSound(init, ask.key);
      forall j: nat | LastStored(init, j, ask.key) ensures init[j] == steps[j] && init[j].Finish? {
        StoresPage(init, j, ask.key);
      }
    }
  }

  lemma StoresPage(steps: seq<Step>, j: nat, key: Key)
    requires LastStored(steps, j, key)
    ensures steps[j].Finish? && steps[j].page.Page?
  {
    hide Run;
  }
}
