/** Which stretch of a text the tool pattern matches, told by what a match must look like:
    the leftmost one, with the longest header, and then the shortest body. */
module ToolPattern {
  import opened GoStrings
  import opened ToolGate
  import opened ToolBlocks

  /** The pattern can match from `at`, with the body from `h` to `e`: an open marker, blanks
      that end in a newline, anything, and a newline with a closing fence. */
  predicate CanMatch(mk: Fence, s: string, at: nat, h: nat, e: nat) {
    && at + |mk.open| < h <= e && e + |Ending(mk)| <= |s|
    && s[at..at + |mk.open|] == mk.open
    && (forall k | at + |mk.open| <= k < h :: s[k] in [' ', '\t', '\n', '\U{C}', '\r']) && s[h - 1] == '\n'
    && s[e] == '\n' && s[e + 1..e + 1 + |mk.close|] == mk.close
  }

  /** Of all ways to match, the one that the engine prefers. */
  ghost predicate IsPreferred(mk: Fence, s: string, at: nat, h: nat, e: nat) {
    && CanMatch(mk, s, at, h, e)
    && forall a: nat, i: nat, f: nat | CanMatch(mk, s, a, i, f) :: at < a || (at == a && (h > i || (h == i && e <= f)))
  }

  lemma BlankClass(c: char)
    ensures IsBlank(c) <==> c in [' ', '\t', '\n', '\U{C}', '\r']
  {
  }

  /** A way to match here is a header with an ending after it. */
  lemma CanMatchHere(mk: Fence, s: string, p: nat, h: nat, e: nat)
    requires p <= |s|
    ensures CanMatch(mk, s, p, p + h, p + e) <==>
              && mk.open <= s[p..] && |mk.open| < h <= BlankRun(s[p..], |mk.open|) && s[p..][h - 1] == '\n'
              && h <= e && OccursAt(s[p..], Ending(mk), e)
  {
    hide BlankRun, IsBlank, Ending;
    var t := s[p..];
    EndingIs(mk, t, e);
    EndingSize(mk);
    OccursInSuffix(s, mk.close, p, e + 1);
    OccursInSuffix(s, mk.open, p, 0);
    if mk.open <= t {
      BlankRunIs(t, |mk.open|);
      if |mk.open| < h <= |t| {
        BlankUpTo(mk, s, p, h);
      }
      assert t[0..|mk.open|] == mk.open;
    } else {
      assert OccursAt(t, mk.open, 0) ==> t[0..|mk.open|] == mk.open;
    }
  }

  lemma EndingSize(mk: Fence)
    ensures |Ending(mk)| == |mk.close| + 1
  {
  }

  lemma BlankUpTo(mk: Fence, s: string, p: nat, h: nat)
    requires p <= |s| && mk.open <= s[p..] && |mk.open| < h <= |s| - p
    ensures (forall k | p + |mk.open| <= k < p + h :: s[k] in [' ', '\t', '\n', '\U{C}', '\r']) <==>
            h <= BlankRun(s[p..], |mk.open|)
  {
    hide BlankRun, IsBlank;
    var t, o := s[p..], |mk.open|;
    BlankRunIs(t, o);
    forall k | 0 <= k < |t| ensures t[k] == s[p + k] && (IsBlank(t[k]) <==> s[p + k] in [' ', '\t', '\n', '\U{C}', '\r']) {
      BlankClass(t[k]);
    }
    if h <= BlankRun(t, o) {
      forall k | p + o <= k < p + h ensures s[k] in [' ', '\t', '\n', '\U{C}', '\r'] {
        assert s[k] == t[k - p];
      }
    } else {
      var r := BlankRun(t, o);
      assert s[p + r] == t[r];
    }
  }

  /** What is matched from a place is the preferred one of all that start there. */
  lemma HereExactly(mk: Fence, s: string, p: nat)
    requires p <= |s|
    ensures match MatchHere(mk, s[p..])
            case None => forall h: nat, e: nat :: !CanMatch(mk, s, p, h, e)
            case Some(b) =>
              && CanMatch(mk, s, p, p + b.start, p + b.end)
              && forall h: nat, e: nat | CanMatch(mk, s, p, h, e) :: p + b.start > h || (p + b.start == h && p + b.end <= e)
  {
    hide CanMatch, Backtrack, BlankRun, Index;
    var t, o := s[p..], |mk.open|;
    if mk.open <= t {
      BacktrackIs(mk, t, BlankRun(t, o));
      var r := MatchHere(mk, t);
      if r.Some? {
        FirstEnding(mk, t, r.value.start);
        CanMatchHere(mk, s, p, r.value.start, r.value.end);
        EndingIs(mk, t, r.value.end);
      }
    }
    forall h: nat, e: nat | CanMatch(mk, s, p, h, e)
      ensures MatchHere(mk, t).Some?
      ensures var b := MatchHere(mk, t).value; p + b.start > h || (p + b.start == h && p + b.end <= e) {
      NoneBetter(mk, s, p, h, e);
    }
  }

  lemma NoneBetter(mk: Fence, s: string, p: nat, h: nat, e: nat)
    requires p <= |s| && CanMatch(mk, s, p, h, e)
    ensures MatchHere(mk, s[p..]).Some?
    ensures var b := MatchHere(mk, s[p..]).value; p + b.start > h || (p + b.start == h && p + b.end <= e)
  {
    hide Backtrack, BlankRun, Index, Ending;
    var t := s[p..];
    Ordered(mk, s, p, h, e);
    CanMatchHere(mk, s, p, h - p, e - p);
    BacktrackIs(mk, t, BlankRun(t, |mk.open|));
    OccursInSuffix(t, Ending(mk), h - p, e - h);
    IndexIsFirst(t[h - p..], Ending(mk));
    assert HeaderAt(mk, t, h - p);
  }

  lemma Ordered(mk: Fence, s: string, p: nat, h: nat, e: nat)
    requires CanMatch(mk, s, p, h, e)
    ensures p < h <= e
  {
  }

  lemma {:induction false} FromExactly(mk: Fence, s: string, p: nat)
    requires p <= |s|
    ensures match MatchFrom(mk, s, p)
            case None => forall a: nat, h: nat, e: nat | p <= a :: !CanMatch(mk, s, a, h, e)
            case Some(m) =>
              var b := MatchHere(mk, s[m.skip..]);
              && p <= m.skip && b.Some? && m.size == b.value.end + |Ending(mk)| && m.body == s[m.skip..][b.value.start..b.value.end]
              && forall a: nat, h: nat, e: nat | p <= a < m.skip :: !CanMatch(mk, s, a, h, e)
    decreases |s| - p
  {
    hide CanMatch, MatchHere;
    HereExactly(mk, s, p);
    if MatchHere(mk, s[p..]).None? {
      if p < |s| {
        FromExactly(mk, s, p + 1);
      } else {
        NothingFits(mk, s);
      }
    }
  }

  lemma NothingFits(mk: Fence, s: string)
    ensures forall a: nat, h: nat, e: nat | |s| <= a :: !CanMatch(mk, s, a, h, e)
  {
  }

  /** The first match is the preferred one of all ways to match, and there is none only if
      there is no way. */
  lemma MatchExactly(mk: Fence, s: string)
    ensures match MatchFrom(mk, s, 0)
            case None => forall a: nat, h: nat, e: nat :: !CanMatch(mk, s, a, h, e)
            case Some(m) =>
              exists h: nat, e: nat ::
                IsPreferred(mk, s, m.skip, h, e) && m.size == e + |mk.close| + 1 - m.skip && m.body == s[h..e]
  {
    hide CanMatch, MatchHere, MatchFrom;
    FromExactly(mk, s, 0);
    EndingSize(mk);
    match MatchFrom(mk, s, 0)
    case None =>
    case Some(m) =>
      HereExactly(mk, s, m.skip);
      var b := MatchHere(mk, s[m.skip..]).value;
      var h, e := m.skip + b.start, m.skip + b.end;
      forall a: nat, i: nat, f: nat | CanMatch(mk, s, a, i, f) ensures m.skip < a || (m.skip == a && (h > i || (h == i && e <= f))) {
      }
      assert IsPreferred(mk, s, m.skip, h, e);
      assert m.body == s[h..e];
  }
}
