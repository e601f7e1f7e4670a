/** The few functions of Go's `strings` package that the repository leans on.

    A Go string is modelled as the sequence of its code points.  Comparing the
    byte lengths of two strings, as Go's `len` does, goes through `ByteLen`. */
module GoStrings {

  datatype Option<+T> = None | Some(value: T)

  /** Go's `unicode.IsSpace`, the class that `strings.TrimSpace` removes. */
  predicate IsSpace(c: char) {
    || c == ' ' || '\t' <= c <= '\r'
    || c == '\U{85}' || c == '\U{A0}' || c == '\U{1680}'
    || '\U{2000}' <= c <= '\U{200A}'
    || c == '\U{2028}' || c == '\U{2029}' || c == '\U{202F}' || c == '\U{205F}' || c == '\U{3000}'
  }

  predicate AllSpace(s: string) {
    forall i | 0 <= i < |s| :: IsSpace(s[i])
  }

  predicate OccursAt(s: string, m: string, k: int) {
    0 <= k && k + |m| <= |s| && s[k..k + |m|] == m
  }

  /** `strings.Index`: the first occurrence of `m` in `s`, or -1. */
  function Index(s: string, m: string): (r: int)
    ensures r == -1 || (0 <= r && r + |m| <= |s|)
  {
    IndexFrom(s, m, 0)
  }

  function IndexFrom(s: string, m: string, i: nat): (r: int)
    requires i <= |s|
    ensures r == -1 || (i <= r && r + |m| <= |s|)
    decreases |s| - i
  {
    if OccursAt(s, m, i) then i
    else if i == |s| then -1
    else IndexFrom(s, m, i + 1)
  }

  ghost predicate IsFirst(s: string, m: string, r: int) {
    && (r >= 0 ==> OccursAt(s, m, r) && forall k | 0 <= k < r :: !OccursAt(s, m, k))
    && (r < 0 ==> r == -1 && forall k | 0 <= k :: !OccursAt(s, m, k))
  }

  lemma {:induction false} IndexFromIsFirst(s: string, m: string, i: nat)
    requires i <= |s| && forall k | 0 <= k < i :: !OccursAt(s, m, k)
    ensures IsFirst(s, m, IndexFrom(s, m, i))
    decreases |s| - i
  {
    if !OccursAt(s, m, i) && i < |s| {
      IndexFromIsFirst(s, m, i + 1);
    }
  }

  /** `Index` finds an occurrence when there is one, and the first one. */
  lemma IndexIsFirst(s: string, m: string)
    ensures IsFirst(s, m, Index(s, m))
  {
    IndexFromIsFirst(s, m, 0);
  }

  lemma FirstIsIndex(s: string, m: string, r: int)
    requires IsFirst(s, m, r)
    ensures Index(s, m) == r
  {
    IndexIsFirst(s, m);
  }

  predicate Contains(s: string, m: string) {
    Index(s, m) >= 0
  }

  function TrimLeft(s: string): string {
    if s != "" && IsSpace(s[0]) then TrimLeft(s[1..]) else s
  }

  function TrimRight(s: string): string {
    if s != "" && IsSpace(s[|s| - 1]) then TrimRight(s[..|s| - 1]) else s
  }

  /** `strings.TrimSpace` */
  function TrimSpace(s: string): string {
    TrimRight(TrimLeft(s))
  }

  /** No white space at either end. */
  predicate Trimmed(s: string) {
    s == "" || (!IsSpace(s[0]) && !IsSpace(s[|s| - 1]))
  }

  lemma {:induction false} TrimLeftSplits(s: string) returns (a: string)
    ensures s == a + TrimLeft(s) && AllSpace(a)
    ensures TrimLeft(s) == "" || !IsSpace(TrimLeft(s)[0])
  {
    if s != "" && IsSpace(s[0]) {
      var b := TrimLeftSplits(s[1..]);
      a := [s[0]] + b;
      assert s == [s[0]] + s[1..];
    } else {
      a := "";
    }
  }

  lemma {:induction false} TrimRightSplits(s: string) returns (b: string)
    ensures s == TrimRight(s) + b && AllSpace(b)
    ensures TrimRight(s) == "" || !IsSpace(TrimRight(s)[|TrimRight(s)| - 1])
  {
    if s != "" && IsSpace(s[|s| - 1]) {
      var c := TrimRightSplits(s[..|s| - 1]);
      b := c + [s[|s| - 1]];
      assert s == s[..|s| - 1] + [s[|s| - 1]];
    } else {
      b := "";
    }
  }

  /** What `TrimSpace` removes is white space, and it removes all of it. */
  lemma TrimSplits(s: string) returns (a: string, b: string)
    ensures s == a + TrimSpace(s) + b && AllSpace(a) && AllSpace(b) && Trimmed(TrimSpace(s))
  {
    a := TrimLeftSplits(s);
    b := TrimRightSplits(TrimLeft(s));
    if TrimSpace(s) != "" {
      assert TrimSpace(s)[0] == TrimLeft(s)[0];
    }
  }

  lemma {:induction false} TrimLeftOf(a: string, t: string)
    requires AllSpace(a) && (t == "" || !IsSpace(t[0]))
    ensures TrimLeft(a + t) == t
  {
    if a != "" {
      assert (a + t)[1..] == a[1..] + t;
      TrimLeftOf(a[1..], t);
    } else {
      assert a + t == t;
    }
  }

  lemma {:induction false} TrimRightOf(t: string, b: string)
    requires AllSpace(b) && (t == "" || !IsSpace(t[|t| - 1]))
    ensures TrimRight(t + b) == t
  {
    if b != "" {
      assert (t + b)[..|t + b| - 1] == t + b[..|b| - 1];
      TrimRightOf(t, b[..|b| - 1]);
    } else {
      assert t + b == t;
    }
  }

  /** `TrimSpace` is determined by what it returns: a trimmed core between blanks. */
  lemma TrimIs(a: string, t: string, b: string)
    requires AllSpace(a) && AllSpace(b) && Trimmed(t)
    ensures TrimSpace(a + t + b) == t
  {
    if t == "" {
      assert a + t + b == (a + b) + "";
      TrimLeftOf(a + b, "");
    } else {
      assert a + t + b == a + (t + b);
      TrimLeftOf(a, t + b);
      TrimRightOf(t, b);
    }
  }

  lemma TrimNoop(t: string)
    requires Trimmed(t)
    ensures TrimSpace(t) == t
  {
    assert "" + t + "" == t;
    TrimIs("", t, "");
  }

  /** Number of bytes a code point takes in UTF-8. */
  function Utf8Width(c: char): (w: nat)
    ensures 1 <= w <= 4
  {
    if c < '\U{80}' then 1 else if c < '\U{800}' then 2 else if c < '\U{10000}' then 3 else 4
  }

  /** Go's `len` of a string. */
  function ByteLen(s: string): (n: nat)
    ensures n >= |s|
  {
    if s == "" then 0 else ByteLen(s[..|s| - 1]) + Utf8Width(s[|s| - 1])
  }

  lemma {:induction false} ByteLenConcat(a: string, b: string)
    ensures ByteLen(a + b) == ByteLen(a) + ByteLen(b)
  {
    if b == "" {
      assert a + b == a;
    } else {
      assert (a + b)[..|a + b| - 1] == a + b[..|b| - 1];
      ByteLenConcat(a, b[..|b| - 1]);
    }
  }

  /** Among strings that extend one another, byte length and code-point length
      order alike. */
  lemma ByteLenOfPrefix(p: string, s: string)
    requires p <= s
    ensures ByteLen(p) <= ByteLen(s)
    ensures ByteLen(p) == ByteLen(s) <==> p == s
  {
    ByteLenConcat(p, s[|p|..]);
    assert s == p + s[|p|..];
  }

  function Concat(parts: seq<string>): string {
    if parts == [] then "" else Concat(parts[..|parts| - 1]) + parts[|parts| - 1]
  }

  lemma ConcatAppend(parts: seq<string>, last: string)
    ensures Concat(parts + [last]) == Concat(parts) + last
  {
    assert (parts + [last])[..|parts|] == parts;
  }

  lemma {:induction false} ConcatConcat(a: seq<string>, b: seq<string>)
    ensures Concat(a + b) == Concat(a) + Concat(b)
  {
    if b == [] {
      assert a + b == a;
    } else {
      assert (a + b)[..|a + b| - 1] == a + b[..|b| - 1];
      ConcatConcat(a, b[..|b| - 1]);
    }
  }
}
