/** The batch form of the tool-block filter: the blocks that the regular expression of
    internal/openai/tools.go matches,

        ```tool_call\s*\n(.*?)\n```      (with . matching newlines)

    and when they are the blocks that the incremental gate withholds. */
module ToolBlocks {
  import opened GoStrings
  import opened ToolGate

  /** The class \s of Go's regular expressions. */
  predicate IsBlank(c: char)
    ensures IsBlank(c) ==> IsSpace(c)
  {
    c == ' ' || c == '\t' || c == '\n' || c == '\U{C}' || c == '\r'
  }

  /** The extent of the captured body of a match. */
  datatype Body = Body(start: nat, end: nat)

  function BlankRun(s: string, i: nat): (j: nat)
    requires i <= |s|
    ensures i <= j <= |s|
    decreases |s| - i
  {
    if i < |s| && IsBlank(s[i]) then BlankRun(s, i + 1) else i
  }

  function Ending(mk: Fence): string {
    "\n" + mk.close
  }

  /** The greedy \s* gives back characters until the header ends in a newline and an
      ending follows; the reluctant body then stops at the first ending. */
  function Backtrack(mk: Fence, s: string, h: nat): (r: Option<Body>)
    requires |mk.open| <= h <= |s|
    ensures r.Some? ==> |mk.open| < r.value.start <= r.value.end && r.value.end + |Ending(mk)| <= |s|
  {
    if h == |mk.open| then None
    else if s[h - 1] == '\n' && Contains(s[h..], Ending(mk)) then Some(Body(h, h + Index(s[h..], Ending(mk))))
    else Backtrack(mk, s, h - 1)
  }

  /** The match that starts where `s` starts. */
  function MatchHere(mk: Fence, s: string): (r: Option<Body>)
    ensures r.Some? ==> |mk.open| < r.value.start <= r.value.end && r.value.end + |Ending(mk)| <= |s|
  {
    if mk.open <= s then Backtrack(mk, s, BlankRun(s, |mk.open|)) else None
  }

  /** A match: the text before it, its size and the body it captures. */
  datatype Match = Match(skip: nat, size: nat, body: string)

  function MatchFrom(mk: Fence, s: string, p: nat): (r: Option<Match>)
    requires p <= |s|
    ensures r.Some? ==> r.value.size > 0 && r.value.skip + r.value.size <= |s|
    decreases |s| - p
  {
    match MatchHere(mk, s[p..])
    case Some(b) => Some(Match(p, b.end + |Ending(mk)|, s[p..][b.start..b.end]))
    case None => if p == |s| then None else MatchFrom(mk, s, p + 1)
  }

  /** `FindAllStringSubmatch`: the leftmost, then non-overlapping matches.  Each match
      counts its `skip` from the end of the one before. */
  function Matches(mk: Fence, s: string): seq<Match> {
    match MatchFrom(mk, s, 0)
    case None => []
    case Some(m) => [m] + Matches(mk, s[m.skip + m.size..])
  }

  /** `ReplaceAllString` with the empty string. */
  function Strip(mk: Fence, s: string): string {
    match MatchFrom(mk, s, 0)
    case None => s
    case Some(m) => s[..m.skip] + Strip(mk, s[m.skip + m.size..])
  }

  /** The stretches a filter removes, each counted from the end of the one before. */
  datatype Cut = Cut(skip: nat, size: nat)

  function RegexCuts(mk: Fence, s: string): seq<Cut> {
    match MatchFrom(mk, s, 0)
    case None => []
    case Some(m) => [Cut(m.skip, m.size)] + RegexCuts(mk, s[m.skip + m.size..])
  }

  function GateCuts(mk: Fence, s: string): seq<Cut>
    decreases |s|
  {
    var i := Index(s, mk.open);
    if i < 0 then [] else
      var t := s[i + |mk.open|..];
      var j := Index(t, mk.close);
      if j < 0 then [] else
        [Cut(i, |mk.open| + j + |mk.close|)] + GateCuts(mk, t[j + |mk.close|..])
  }

  /** What stands between an open marker and the next closing fence, with `rest` after
      the fence, makes a block that the expression matches up to that same fence: it ends
      in a newline, and its header has a newline of its own.  A blank body counts only
      when no later ending tempts the greedy header to swallow the fence. */
  predicate GoodBlock(mk: Fence, inner: string, rest: string) {
    var run := BlankRun(inner, 0);
    && inner != "" && inner[|inner| - 1] == '\n'
    && (if run < |inner| then '\n' in inner[..run]
        else '\n' in inner[..|inner| - 1] && !Contains(mk.close + rest, Ending(mk)))
  }

  /** Every fence that the gate closes encloses a good block. */
  predicate WellFormed(mk: Fence, s: string)
    decreases |s|
  {
    var i := Index(s, mk.open);
    i < 0 ||
      var t := s[i + |mk.open|..];
      var j := Index(t, mk.close);
      j < 0 || (GoodBlock(mk, t[..j], t[j + |mk.close|..]) && WellFormed(mk, t[j + |mk.close|..]))
  }

  // ---- which block the expression matches ----

  lemma {:induction false} BlankRunIs(s: string, i: nat)
    requires i <= |s|
    ensures var r := BlankRun(s, i);
            (forall k | i <= k < r :: IsBlank(s[k])) && (r < |s| ==> !IsBlank(s[r]))
    decreases |s| - i
  {
    if i < |s| && IsBlank(s[i]) {
      BlankRunIs(s, i + 1);
    }
  }

  /** A header may end at `h`. */
  predicate HeaderAt(mk: Fence, s: string, h: nat) {
    0 < h <= |s| && s[h - 1] == '\n' && Contains(s[h..], Ending(mk))
  }

  lemma BacktrackStep(mk: Fence, s: string, h: nat)
    requires |mk.open| <= h <= |s|
    ensures Backtrack(mk, s, h) ==
            if h == |mk.open| then None
            else if HeaderAt(mk, s, h) then Some(Body(h, h + Index(s[h..], Ending(mk))))
            else Backtrack(mk, s, h - 1)
  {
    hide Index;
  }

  lemma {:induction false} BacktrackIs(mk: Fence, s: string, h: nat)
    requires |mk.open| <= h <= |s|
    ensures match Backtrack(mk, s, h)
            case None => forall k | |mk.open| < k <= h :: !HeaderAt(mk, s, k)
            case Some(b) => && b.start <= h && HeaderAt(mk, s, b.start) && b.end == b.start + Index(s[b.start..], Ending(mk))
                            && forall k | b.start < k <= h :: !HeaderAt(mk, s, k)
  {
    hide Index, Backtrack, HeaderAt;
    BacktrackStep(mk, s, h);
    if h > |mk.open| && !HeaderAt(mk, s, h) {
      BacktrackIs(mk, s, h - 1);
    }
  }

  lemma EndingIs(mk: Fence, s: string, q: nat)
    ensures OccursAt(s, Ending(mk), q) <==> q < |s| && s[q] == '\n' && OccursAt(s, mk.close, q + 1)
  {
    if q + |Ending(mk)| <= |s| {
      var close := s[q + 1..q + 1 + |mk.close|];
      assert s[q..q + |Ending(mk)|] == [s[q]] + close;
      ConsEqual(s[q], close, '\n', mk.close);
    }
  }

  lemma OccursInSuffix(s: string, m: string, h: nat, q: nat)
    requires h <= |s|
    ensures OccursAt(s[h..], m, q) <==> OccursAt(s, m, h + q)
  {
    if h + q + |m| <= |s| {
      assert s[h..][q..q + |m|] == s[h + q..h + q + |m|];
    }
  }

  /** A block as the gate sees it: the first closing fence after the marker ends it. */
  predicate Fenced(mk: Fence, s: string, inner: string, rest: string) {
    s == mk.open + inner + mk.close + rest && Index(inner + mk.close + rest, mk.close) == |inner|
  }

  lemma FirstEnding(mk: Fence, s: string, h: nat)
    requires h <= |s| && Contains(s[h..], Ending(mk))
    ensures var e := h + Index(s[h..], Ending(mk));
            && h <= e < |s| && s[e] == '\n' && OccursAt(s, mk.close, e + 1)
            && forall k | h <= k < e :: !OccursAt(s, Ending(mk), k)
  {
    hide Index, OccursAt;
    var i := Index(s[h..], Ending(mk));
    IndexIsFirst(s[h..], Ending(mk));
    OccursInSuffix(s, Ending(mk), h, i);
    EndingIs(mk, s, h + i);
    forall k | h <= k < h + i ensures !OccursAt(s, Ending(mk), k) {
      assert !OccursAt(s[h..], Ending(mk), k - h);
      OccursInSuffix(s, Ending(mk), h, k - h);
    }
  }

  /** The closing fence of a block and no other before it. */
  lemma FenceIs(mk: Fence, s: string, inner: string, rest: string)
    requires Fenced(mk, s, inner, rest)
    ensures var at := |mk.open| + |inner|;
            && at < |s| && OccursAt(s, mk.close, at)
            && (inner != "" ==> s[at - 1] == inner[|inner| - 1])
            && forall k | |mk.open| <= k < at :: !OccursAt(s, mk.close, k)
  {
    hide Index, OccursAt;
    var o, n := |mk.open|, |inner|;
    var tail := inner + mk.close + rest;
    assert s == mk.open + tail && s[o..] == tail;
    IndexIsFirst(tail, mk.close);
    OccursInSuffix(s, mk.close, o, n);
    assert inner != "" ==> s[o + n - 1] == tail[n - 1];
    forall k | o <= k < o + n ensures !OccursAt(s, mk.close, k) {
      assert !OccursAt(tail, mk.close, k - o);
      OccursInSuffix(s, mk.close, o, k - o);
    }
  }

  /** No ending of a fenced block lies before its closing fence. */
  lemma EndingsOf(mk: Fence, s: string, inner: string, rest: string, h: nat)
    requires Fenced(mk, s, inner, rest) && |mk.open| < h <= |s| && Contains(s[h..], Ending(mk))
    ensures var e := h + Index(s[h..], Ending(mk));
            && |mk.open| + |inner| <= e + 1 && e < |s| && s[e] == '\n'
            && (h < |mk.open| + |inner| && inner[|inner| - 1] == '\n' ==> e + 1 == |mk.open| + |inner|)
  {
    hide Index, OccursAt, Fenced, Contains;
    FirstEnding(mk, s, h);
    FenceIs(mk, s, inner, rest);
    EndingIs(mk, s, |mk.open| + |inner| - 1);
  }

  lemma EndingFollows(mk: Fence, s: string, inner: string, rest: string, h: nat)
    requires Fenced(mk, s, inner, rest) && |mk.open| < h < |mk.open| + |inner| && inner[|inner| - 1] == '\n'
    ensures Contains(s[h..], Ending(mk))
  {
    var o, n := |mk.open|, |inner|;
    var tail := inner + mk.close + rest;
    assert s[o..] == tail;
    IndexIsFirst(tail, mk.close);
    assert s[o + n - 1] == tail[n - 1];
    OccursInSuffix(s, mk.close, o, n);
    EndingIs(mk, s, o + n - 1);
    OccursInSuffix(s, Ending(mk), h, o + n - 1 - h);
    IndexIsFirst(s[h..], Ending(mk));
  }

  lemma HeaderRun(mk: Fence, s: string, inner: string, rest: string)
    requires Fenced(mk, s, inner, rest)
    ensures BlankRun(s, |mk.open|) == |mk.open| + BlankRun(inner, 0)
  {
    var o, n := |mk.open|, |inner|;
    BlankRunIs(inner, 0);
    BlankRunIs(s, o);
    var r := BlankRun(inner, 0);
    forall k | 0 <= k < n ensures s[o + k] == inner[k] {
    }
    assert s[o + n] == mk.close[0];
    assert r < n ==> s[o + r] == inner[r];
  }

  lemma FencedMatch(mk: Fence, s: string, inner: string, rest: string)
    requires Fenced(mk, s, inner, rest)
    ensures MatchHere(mk, s) == Backtrack(mk, s, |mk.open| + BlankRun(inner, 0))
  {
    hide Index, Backtrack;
    HeaderRun(mk, s, inner, rest);
    assert s[..|mk.open|] == mk.open;
  }

  /** The expression matches `s` and its match ends with the fence. */
  predicate MatchesFence(mk: Fence, s: string, inner: string) {
    var r := MatchHere(mk, s);
    r.Some? && r.value.end + 1 == |mk.open| + |inner|
  }

  lemma GoodIsMatched(mk: Fence, s: string, inner: string, rest: string)
    requires Fenced(mk, s, inner, rest) && GoodBlock(mk, inner, rest)
    ensures MatchesFence(mk, s, inner)
  {
    hide Index, BlankRun, Backtrack, MatchHere, GoodBlock;
    var o := |mk.open|;
    FencedMatch(mk, s, inner, rest);
    BacktrackIs(mk, s, o + BlankRun(inner, 0));
    var x := GoodHeader(mk, inner, rest);
    assert s[o + x] == inner[x];
    EndingFollows(mk, s, inner, rest, o + x + 1);
    assert HeaderAt(mk, s, o + x + 1);
    GoodHeaderEnd(mk, s, inner, rest);
    EndingsOf(mk, s, inner, rest, MatchHere(mk, s).value.start);
  }

  lemma MatchedIsGood(mk: Fence, s: string, inner: string, rest: string)
    requires Fenced(mk, s, inner, rest) && MatchesFence(mk, s, inner)
    ensures GoodBlock(mk, inner, rest)
  {
    hide Index, BlankRun, Backtrack, MatchHere;
    var o, n := |mk.open|, |inner|;
    var run := BlankRun(inner, 0);
    FencedMatch(mk, s, inner, rest);
    BacktrackIs(mk, s, o + run);
    var b := MatchHere(mk, s).value;
    EndingsOf(mk, s, inner, rest, b.start);
    assert s[o + (n - 1)] == inner[n - 1];
    var x := b.start - 1 - o;
    assert s[o + x] == inner[x];
    if run < n {
      assert inner[..run][x] == '\n';
    } else {
      assert inner[..n - 1][x] == '\n';
      assert s[o + n..] == mk.close + rest;
      assert !HeaderAt(mk, s, o + n);
    }
  }

  /** `GoodBlock` is exactly what it takes for the expression to match a fenced block
      up to the fence at which the gate closes it. */
  lemma GoodBlockIsMatched(mk: Fence, s: string, inner: string, rest: string)
    requires Fenced(mk, s, inner, rest)
    ensures GoodBlock(mk, inner, rest) <==> MatchesFence(mk, s, inner)
  {
    hide GoodBlock, MatchesFence, Fenced;
    if GoodBlock(mk, inner, rest) {
      GoodIsMatched(mk, s, inner, rest);
    }
    if MatchesFence(mk, s, inner) {
      MatchedIsGood(mk, s, inner, rest);
    }
  }

  lemma FencedTail(mk: Fence, s: string, inner: string, rest: string)
    requires Fenced(mk, s, inner, rest)
    ensures |mk.open| + |inner| <= |s| && s[|mk.open| + |inner|..] == mk.close + rest
  {
    hide Index;
  }

  /** The greedy header of a good block does not reach its closing fence. */
  lemma GoodHeaderEnd(mk: Fence, s: string, inner: string, rest: string)
    requires Fenced(mk, s, inner, rest) && GoodBlock(mk, inner, rest)
    ensures BlankRun(inner, 0) < |inner| || !HeaderAt(mk, s, |mk.open| + |inner|)
  {
    hide Contains, BlankRun, Fenced;
    FencedTail(mk, s, inner, rest);
  }

  /** The newline that ends the header of a good block. */
  lemma GoodHeader(mk: Fence, inner: string, rest: string) returns (x: nat)
    requires GoodBlock(mk, inner, rest)
    ensures x + 1 < |inner| && inner[x] == inner[|inner| - 1] == '\n' && x < BlankRun(inner, 0)
  {
    BlankRunIs(inner, 0);
    var run := BlankRun(inner, 0);
    if run < |inner| {
      x :| 0 <= x < run && inner[..run][x] == '\n';
    } else {
      x :| 0 <= x < |inner| - 1 && inner[..|inner| - 1][x] == '\n';
    }
  }

  // ---- streaming agrees with batch ----

  lemma {:induction false} MatchFromIs(mk: Fence, s: string, p: nat, q: nat)
    requires p <= q <= |s| && forall k | p <= k < q :: MatchHere(mk, s[k..]).None?
    ensures match MatchHere(mk, s[q..])
            case Some(b) => MatchFrom(mk, s, p) == Some(Match(q, b.end + |Ending(mk)|, s[q..][b.start..b.end]))
            case None => q == |s| ==> MatchFrom(mk, s, p) == None
    decreases q - p
  {
    hide MatchHere;
    if p < q {
      MatchFromIs(mk, s, p + 1, q);
    }
  }

  lemma MatchEndsAtFence(mk: Fence, r: string) returns (q: nat)
    requires MatchHere(mk, r).Some?
    ensures |mk.open| <= q && OccursAt(r, mk.close, q)
  {
    hide Index, BlankRun, Backtrack, OccursAt;
    BacktrackIs(mk, r, BlankRun(r, |mk.open|));
    var b := MatchHere(mk, r).value;
    FirstEnding(mk, r, b.start);
    q := b.end + 1;
  }

  /** A match needs an open marker where it starts and a closing fence after that. */
  lemma MatchNeedsFence(mk: Fence, s: string, p: nat)
    requires p <= |s| && MatchHere(mk, s[p..]).Some?
    ensures OccursAt(s, mk.open, p) && exists q :: p + |mk.open| <= q && OccursAt(s, mk.close, q)
  {
    hide MatchHere, OccursAt;
    MatchNeedsOpen(mk, s, p);
    var q := MatchEndsAtFence(mk, s[p..]);
    OccursInSuffix(s, mk.close, p, q);
  }

  lemma MatchNeedsOpen(mk: Fence, s: string, k: nat)
    requires k <= |s|
    ensures MatchHere(mk, s[k..]).Some? ==> OccursAt(s, mk.open, k)
  {
    hide Index, BlankRun, Backtrack;
    if mk.open <= s[k..] {
      assert s[k..k + |mk.open|] == s[k..][..|mk.open|];
    }
  }

  lemma FirstMatch(mk: Fence, s: string)
    ensures var i := Index(s, mk.open);
            if i < 0 || Index(s[i + |mk.open|..], mk.close) < 0 then MatchFrom(mk, s, 0) == None
            else match MatchHere(mk, s[i..])
                 case Some(b) => MatchFrom(mk, s, 0) == Some(Match(i, b.end + |Ending(mk)|, s[i..][b.start..b.end]))
                 case None => true
  {
    hide Index, MatchHere, MatchFrom;
    IndexIsFirst(s, mk.open);
    var i := Index(s, mk.open);
    forall k | 0 <= k <= |s| ensures MatchHere(mk, s[k..]).Some? ==> OccursAt(s, mk.open, k) {
      MatchNeedsOpen(mk, s, k);
    }
    if i >= 0 {
      var t := s[i + |mk.open|..];
      IndexIsFirst(t, mk.close);
      if Index(t, mk.close) < 0 {
        forall k | 0 <= k <= |s| ensures MatchHere(mk, s[k..]).None? {
          NoFenceNoMatch(mk, s, k, i);
        }
        MatchFromIs(mk, s, 0, |s|);
      } else {
        MatchFromIs(mk, s, 0, i);
      }
    } else {
      MatchFromIs(mk, s, 0, |s|);
    }
  }

  lemma NoFenceNoMatch(mk: Fence, s: string, k: nat, i: nat)
    requires k <= |s| && Index(s, mk.open) == i
    ensures MatchHere(mk, s[k..]).Some? ==> Index(s[i + |mk.open|..], mk.close) >= 0
  {
    hide Index, MatchHere;
    if MatchHere(mk, s[k..]).Some? {
      MatchNeedsFence(mk, s, k);
      IndexIsFirst(s, mk.open);
      var h := i + |mk.open|;
      var q :| k + |mk.open| <= q && OccursAt(s, mk.close, q);
      OccursInSuffix(s, mk.close, h, q - h);
      IndexIsFirst(s[h..], mk.close);
    }
  }

  lemma CutAt(s: string, m: string, i: nat)
    requires Index(s, m) == i
    ensures s[i..] == m + s[i + |m|..] && s == s[..i] + m + s[i + |m|..]
  {
    hide Index;
    IndexIsFirst(s, m);
    assert s[i..] == s[i..i + |m|] + s[i + |m|..];
    assert s == s[..i] + s[i..];
  }

  lemma FencedBy(mk: Fence, t: string, j: nat)
    requires Index(t, mk.close) == j
    ensures Fenced(mk, mk.open + t, t[..j], t[j + |mk.close|..])
  {
    hide Index;
    CutAt(t, mk.close, j);
    var inner, rest := t[..j], t[j + |mk.close|..];
    assert mk.open + (inner + mk.close + rest) == mk.open + inner + mk.close + rest;
  }

  /** The text from the first open marker on, cut at the fence that closes it. */
  lemma FirstFenced(mk: Fence, s: string, i: nat, j: nat)
    requires Index(s, mk.open) == i && Index(s[i + |mk.open|..], mk.close) == j
    ensures var t := s[i + |mk.open|..];
            Fenced(mk, s[i..], t[..j], t[j + |mk.close|..])
  {
    hide Index, Fenced;
    CutAt(s, mk.open, i);
    FencedBy(mk, s[i + |mk.open|..], j);
  }

  lemma FirstBlock(mk: Fence, s: string, i: nat, j: nat)
    requires Index(s, mk.open) == i && Index(s[i + |mk.open|..], mk.close) == j
    ensures var t := s[i + |mk.open|..];
            var m := MatchFrom(mk, s, 0);
            GoodBlock(mk, t[..j], t[j + |mk.close|..]) <==>
              m.Some? && m.value.skip == i && m.value.size == |mk.open| + j + |mk.close|
  {
    hide Index, MatchHere, MatchFrom, GoodBlock;
    var t := s[i + |mk.open|..];
    var inner, rest := t[..j], t[j + |mk.close|..];
    FirstFenced(mk, s, i, j);
    GoodBlockIsMatched(mk, s[i..], inner, rest);
    FirstMatch(mk, s);
    if MatchHere(mk, s[i..]).None? {
      if MatchFrom(mk, s, 0).Some? {
        MatchFromStarts(mk, s, 0);
      }
    }
  }

  lemma {:induction false} MatchFromStarts(mk: Fence, s: string, p: nat)
    requires p <= |s| && MatchFrom(mk, s, p).Some?
    ensures var m := MatchFrom(mk, s, p).value; MatchHere(mk, s[m.skip..]).Some?
    decreases |s| - p
  {
    if MatchHere(mk, s[p..]).None? {
      MatchFromStarts(mk, s, p + 1);
    }
  }

  lemma RegexCutsOf(mk: Fence, s: string)
    ensures RegexCuts(mk, s) ==
            match MatchFrom(mk, s, 0)
            case None => []
            case Some(m) => [Cut(m.skip, m.size)] + RegexCuts(mk, s[m.skip + m.size..])
  {
  }

  lemma GateCutsOf(mk: Fence, s: string)
    ensures var i := Index(s, mk.open);
            if i < 0 || Index(s[i + |mk.open|..], mk.close) < 0 then GateCuts(mk, s) == [] && WellFormed(mk, s)
            else
              var t := s[i + |mk.open|..];
              var j := Index(t, mk.close);
              var rest := t[j + |mk.close|..];
              && GateCuts(mk, s) == [Cut(i, |mk.open| + j + |mk.close|)] + GateCuts(mk, rest)
              && (WellFormed(mk, s) <==> GoodBlock(mk, t[..j], rest) && WellFormed(mk, rest))
  {
    hide Index, GoodBlock;
  }

  lemma ConsEqual<T>(a: T, x: seq<T>, b: T, y: seq<T>)
    ensures [a] + x == [b] + y <==> a == b && x == y
  {
    if [a] + x == [b] + y {
      assert ([a] + x)[0] == ([b] + y)[0];
      assert ([a] + x)[1..] == x && ([b] + y)[1..] == y;
    }
  }

  lemma SameFirstCut(mk: Fence, s: string, i: nat, j: nat)
    requires Index(s, mk.open) == i && Index(s[i + |mk.open|..], mk.close) == j
    requires var rest := s[i + |mk.open|..][j + |mk.close|..];
             WellFormed(mk, rest) <==> RegexCuts(mk, rest) == GateCuts(mk, rest)
    ensures WellFormed(mk, s) <==> RegexCuts(mk, s) == GateCuts(mk, s)
  {
    hide Index, MatchFrom, GoodBlock, RegexCuts, GateCuts, WellFormed;
    RegexCutsOf(mk, s);
    GateCutsOf(mk, s);
    FirstBlock(mk, s, i, j);
    var rest := s[i + |mk.open|..][j + |mk.close|..];
    var m := MatchFrom(mk, s, 0);
    if m.Some? {
      var n := |mk.open| + j + |mk.close|;
      ConsEqual(Cut(m.value.skip, m.value.size), RegexCuts(mk, s[m.value.skip + m.value.size..]), Cut(i, n), GateCuts(mk, rest));
      assert s[i + n..] == rest;
    }
  }

  lemma NothingToCut(mk: Fence, s: string)
    requires var i := Index(s, mk.open); i < 0 || Index(s[i + |mk.open|..], mk.close) < 0
    ensures WellFormed(mk, s) && RegexCuts(mk, s) == GateCuts(mk, s)
  {
    hide Index, MatchFrom, GoodBlock, RegexCuts, GateCuts, WellFormed;
    FirstMatch(mk, s);
    RegexCutsOf(mk, s);
    GateCutsOf(mk, s);
  }

  /** The gate and the expression cut the same list of stretches out of a text exactly when
      every fence that the gate closes encloses a good block.  Two cuts of the gate without
      text between them are not the same as one match over both. */
  lemma {:induction false} SameCuts(mk: Fence, s: string)
    ensures WellFormed(mk, s) <==> RegexCuts(mk, s) == GateCuts(mk, s)
    decreases |s|
  {
    hide Index, RegexCuts, GateCuts, WellFormed;
    var i := Index(s, mk.open);
    if i < 0 || Index(s[i + |mk.open|..], mk.close) < 0 {
      NothingToCut(mk, s);
    } else {
      var t := s[i + |mk.open|..];
      var j := Index(t, mk.close);
      SameCuts(mk, t[j + |mk.close|..]);
      SameFirstCut(mk, s, i, j);
    }
  }

  lemma StripOf(mk: Fence, s: string)
    ensures Strip(mk, s) ==
            match MatchFrom(mk, s, 0)
            case None => s
            case Some(m) => s[..m.skip] + Strip(mk, s[m.skip + m.size..])
  {
    hide MatchFrom;
  }

  /** What the gate still withholds, as text: an unfinished marker, or an open block. */
  function Withheld(mk: Fence, fence: bool, rest: string): string {
    if fence then mk.open + rest else rest
  }

  lemma NothingClosed(mk: Fence, s: string)
    requires var i := Index(s, mk.open); i < 0 || Index(s[i + |mk.open|..], mk.close) < 0
    ensures var d := Drain(mk, false, s);
            s == d.out + Withheld(mk, d.fence, d.rest)
  {
    hide Index, Drain, LongestPartial;
    DrainOutside(mk, s);
    var i := Index(s, mk.open);
    if i >= 0 {
      var t := s[i + |mk.open|..];
      DrainInside(mk, t);
      IndexIsFirst(s, mk.open);
      assert s == s[..i] + (mk.open + t);
      assert s[..i] + "" == s[..i];
    }
  }

  lemma BothCut(mk: Fence, s: string, i: nat, j: nat)
    requires WellFormed(mk, s)
    requires Index(s, mk.open) == i && Index(s[i + |mk.open|..], mk.close) == j
    ensures var rest := s[i + |mk.open|..][j + |mk.close|..];
            && WellFormed(mk, rest)
            && Strip(mk, s) == s[..i] + Strip(mk, rest)
            && Drain(mk, false, s) == Prepend(s[..i], Drain(mk, false, rest))
  {
    hide Index, MatchFrom, GoodBlock, Drain, LongestPartial, Strip, WellFormed;
    GateCutsOf(mk, s);
    StripOf(mk, s);
    FirstBlock(mk, s, i, j);
    var t := s[i + |mk.open|..];
    assert s[i + |mk.open| + j + |mk.close|..] == t[j + |mk.close|..];
    DrainOutside(mk, s);
    DrainInside(mk, t);
  }

  /** On a well-formed text the gate's output followed by what it still withholds is the
      text with all tool blocks removed. */
  lemma {:induction false} StreamingIsBatch(mk: Fence, s: string)
    requires WellFormed(mk, s)
    ensures var d := Drain(mk, false, s);
            Strip(mk, s) == d.out + Withheld(mk, d.fence, d.rest)
    decreases |s|
  {
    hide Index, MatchFrom, GoodBlock, Drain, LongestPartial, Strip, WellFormed;
    var i := Index(s, mk.open);
    if i < 0 || Index(s[i + |mk.open|..], mk.close) < 0 {
      FirstMatch(mk, s);
      StripOf(mk, s);
      NothingClosed(mk, s);
    } else {
      var t := s[i + |mk.open|..];
      var j := Index(t, mk.close);
      var rest := t[j + |mk.close|..];
      BothCut(mk, s, i, j);
      StreamingIsBatch(mk, rest);
      var d := Drain(mk, false, rest);
      assert s[..i] + (d.out + Withheld(mk, d.fence, d.rest)) == (s[..i] + d.out) + Withheld(mk, d.fence, d.rest);
    }
  }
}
