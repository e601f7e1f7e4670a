/** The merged cookie header means what it was made from, and merging composes. */
module CookieLaws {
  import opened GoStrings
  import opened Cookies
  import Json

  // ---- which pairs a header can carry ----

  /** A pair that prints to a trimmed part without ';' whose first '=' ends the name. */
  predicate Clean(p: Pair) {
    && p.name != "" && '=' !in p.name && ';' !in p.name && ';' !in p.value
    && Trimmed(p.name + "=" + p.value)
  }

  lemma {:induction false} SplitHasNoSemicolon(s: string)
    ensures forall part | part in Split(s) :: ';' !in part
  {
    if s != "" {
      SplitHasNoSemicolon(s[..|s| - 1]);
      var parts := Split(s[..|s| - 1]);
      assert parts[|parts| - 1] in parts;
      forall part | part in Split(s) ensures ';' !in part {
        assert part in parts || part == "" || part == parts[|parts| - 1] + [s[|s| - 1]];
      }
    }
  }

  lemma TrimmedPartOf(s: string)
    requires ';' !in s
    ensures ';' !in TrimSpace(s)
  {
    hide TrimSpace;
    var a, b := TrimSplits(s);
  }

  lemma PairIsClean(part: string)
    requires ';' !in part && PairOf(part).Some?
    ensures Clean(PairOf(part).value)
    ensures var p := PairOf(part).value; p.name + "=" + p.value == TrimSpace(part)
  {
    hide TrimSpace;
    TrimmedPartOf(part);
    var a, b := TrimSplits(part);
    var t := TrimSpace(part);
    var i := EqualsAt(t);
    assert t == t[..i] + "=" + t[i + 1..];
  }

  lemma PairReadsBack(p: Pair, lead: string)
    requires Clean(p) && AllSpace(lead)
    ensures PairOf(lead + (p.name + "=" + p.value)) == Some(p)
  {
    hide TrimSpace;
    var t := p.name + "=" + p.value;
    assert lead + t == lead + t + "";
    TrimIs(lead, t, "");
    assert t[|p.name|] == '=';
    assert t[..|p.name|] == p.name && t[|p.name| + 1..] == p.value;
    forall k | 0 <= k < |p.name| ensures t[k] != '=' {
      assert t[k] == p.name[k];
    }
  }

  // ---- parsing what was printed ----

  lemma {:induction false} SplitPlain(b: string)
    requires ';' !in b
    ensures Split(b) == [b]
  {
    if b != "" {
      var n := |b| - 1;
      assert b[n] in b;
      SplitPlain(b[..n]);
      assert b[..n] + [b[n]] == b;
    }
  }

  lemma {:induction false} SplitLast(a: string, b: string)
    requires ';' !in b
    ensures Split(a + ";" + b) == Split(a) + [b]
  {
    var s := a + ";" + b;
    if b == "" {
      assert s[..|s| - 1] == a;
    } else {
      var n := |b| - 1;
      assert b[n] in b;
      assert s[..|s| - 1] == a + ";" + b[..n];
      SplitLast(a, b[..n]);
      var parts := Split(a) + [b[..n]];
      assert parts[..|parts| - 1] == Split(a);
      assert b[..n] + [b[n]] == b;
    }
  }

  lemma PairsOfAppend(parts: seq<string>, part: string)
    ensures PairsOf(parts + [part]) == PairsOf(parts) + (if PairOf(part).Some? then [PairOf(part).value] else [])
  {
    assert (parts + [part])[..|parts|] == parts;
  }

  lemma KeptAppend(parts: seq<string>, part: string)
    ensures Kept(parts + [part]) ==
            Kept(parts) + (if TrimSpace(part) != "" && '=' in TrimSpace(part) then [TrimSpace(part)] else [])
  {
    hide TrimSpace;
    assert (parts + [part])[..|parts|] == parts;
  }

  predicate AllClean(order: seq<string>, values: map<string, string>) {
    forall n | n in order :: n in values && Clean(Pair(n, values[n]))
  }

  function PairsIn(order: seq<string>, values: map<string, string>): seq<Pair>
    requires forall n | n in order :: n in values
  {
    seq(|order|, i requires 0 <= i < |order| => Pair(order[i], values[order[i]]))
  }

  lemma CleanText(p: Pair)
    requires Clean(p)
    ensures var t := p.name + "=" + p.value;
            && ';' !in t && ';' !in " " + t && t != "" && '=' in t
            && Trimmed(t) && !IsSpace(t[|t| - 1]) && p.name != "" && t[0] == p.name[0]
  {
    var t := p.name + "=" + p.value;
    assert t[|p.name|] == '=';
  }

  /** Printing and splitting again gives the pairs of the jar, and nothing that
      `normalizeCookie` would change. */
  lemma {:induction false} PrintedReadsBack(order: seq<string>, values: map<string, string>)
    requires AllClean(order, values)
    ensures var header := Join(Printed(order, values));
            && PairsOf(Split(header)) == PairsIn(order, values)
            && Kept(Split(header)) == Printed(order, values)
            && Trimmed(header) && (order != [] ==> header != "" && order[0] != "" && header[0] == order[0][0])
    decreases |order|
  {
    hide TrimSpace, PairOf, Split, Trimmed, Clean, PairsOf, Kept;
    if order == [] {
      NothingReadsBack();
      assert PairsIn(order, values) == [];
    } else {
      var n := |order| - 1;
      var init := order[..n];
      var p := Pair(order[n], values[order[n]]);
      var t := p.name + "=" + p.value;
      CleanText(p);
      PrintedReadsBack(init, values);
      PairsInSplit(order, values);
      var header := Join(Printed(order, values));
      if init == [] {
        assert Printed(init, values) == [];
        assert Printed(order, values) == [] + [t] == [t];
        assert header == t;
        SplitPlain(t);
        NothingReadsBack();
        OnePart([], p, "");
        assert "" + t == t && [] + [t] == [t];
        assert [] + [p] == [p];
      } else {
        var before := Join(Printed(init, values));
        assert Printed(order, values)[..n] == Printed(init, values);
        assert header == before + "; " + t;
        assert header == before + ";" + (" " + t);
        SplitLast(before, " " + t);
        OnePart(Split(before), p, " ");
        EndsTrimmed(header, before, t);
      }
    }
  }

  lemma EndsTrimmed(header: string, before: string, t: string)
    requires header == before + "; " + t && Trimmed(before) && before != "" && t != "" && !IsSpace(t[|t| - 1])
    ensures Trimmed(header) && header[0] == before[0]
  {
  }

  lemma NothingReadsBack()
    ensures PairsOf(Split("")) == [] && Kept(Split("")) == [] && PairsOf([]) == [] && Kept([]) == [] && Trimmed("")
  {
    assert Split("") == [""] && [""][..0] == [];
    TrimNoop("");
  }

  lemma OnePart(parts: seq<string>, p: Pair, lead: string)
    requires Clean(p) && AllSpace(lead)
    ensures var t := p.name + "=" + p.value;
            && PairsOf(parts + [lead + t]) == PairsOf(parts) + [p]
            && Kept(parts + [lead + t]) == Kept(parts) + [t]
  {
    hide TrimSpace, PairOf, PairsOf, Kept;
    var t := p.name + "=" + p.value;
    CleanText(p);
    PairReadsBack(p, lead);
    PairsOfAppend(parts, lead + t);
    KeptAppend(parts, lead + t);
    assert lead + t == lead + t + "";
    TrimIs(lead, t, "");
  }

  lemma PairsInSplit(order: seq<string>, values: map<string, string>)
    requires order != [] && forall n | n in order :: n in values
    ensures var n := |order| - 1;
            PairsIn(order, values) == PairsIn(order[..n], values) + [Pair(order[n], values[order[n]])]
  {
  }

  /** Putting a jar's own pairs into an empty jar rebuilds it. */
  function Restricted(order: seq<string>, values: map<string, string>): map<string, string> {
    map n | n in order && n in values :: values[n]
  }

  lemma NothingRestricted(values: map<string, string>)
    ensures Restricted([], values) == map[]
  {
    var none := Restricted([], values);
    assert forall n :: n !in none;
    assert none == map[];
  }

  lemma RestrictedMore(order: seq<string>, values: map<string, string>)
    requires order != [] && order[|order| - 1] in values
    ensures var n := |order| - 1;
            Restricted(order, values) == Restricted(order[..n], values)[order[n] := values[order[n]]]
  {
    var n := |order| - 1;
    assert order == order[..n] + [order[n]];
    assert Restricted(order, values) == Restricted(order[..n], values)[order[n] := values[order[n]]];
  }

  lemma {:induction false} PutBack(order: seq<string>, values: map<string, string>)
    requires forall n | n in order :: n in values
    requires forall i, j | 0 <= i < j < |order| :: order[i] != order[j]
    ensures PutAll(NO_COOKIES, PairsIn(order, values)) == Jar(order, Restricted(order, values))
    decreases |order|
  {
    hide PutAll, PairsIn;
    if order == [] {
      NothingRestricted(values);
      NothingPut(values);
    } else {
      var n := |order| - 1;
      PutBack(order[..n], values);
      PairsInSplit(order, values);
      PutAllAppend(NO_COOKIES, PairsIn(order[..n], values), Pair(order[n], values[order[n]]));
      RestrictedMore(order, values);
      NotBefore(order, values);
      assert order[..n] + [order[n]] == order;
    }
  }

  lemma NothingPut(values: map<string, string>)
    ensures PutAll(NO_COOKIES, PairsIn([], values)) == NO_COOKIES
  {
  }

  lemma NotBefore(order: seq<string>, values: map<string, string>)
    requires order != [] && forall i, j | 0 <= i < j < |order| :: order[i] != order[j]
    ensures order[|order| - 1] !in Restricted(order[..|order| - 1], values)
  {
  }

  lemma PrintParses(jar: Jar)
    requires Consistent(jar) && AllClean(jar.order, jar.values)
    ensures Parse(Print(jar)) == jar
  {
    hide Split, PairsOf, Join, Printed;
    PrintedReadsBack(jar.order, jar.values);
    PutBack(jar.order, jar.values);
    assert Restricted(jar.order, jar.values) == jar.values;
  }

  // ---- the merged jar is clean ----

  lemma {:induction false} PutAllKeepsClean(jar: Jar, pairs: seq<Pair>)
    requires Consistent(jar) && AllClean(jar.order, jar.values) && forall p | p in pairs :: Clean(p)
    ensures var r := PutAll(jar, pairs); Consistent(r) && AllClean(r.order, r.values)
  {
    hide Clean;
    if pairs != [] {
      var n := |pairs| - 1;
      PutAllKeepsClean(jar, pairs[..n]);
      PutKeepsConsistent(PutAll(jar, pairs[..n]), pairs[n]);
      assert pairs[n] in pairs;
    }
  }

  lemma {:induction false} PairsAreClean(parts: seq<string>)
    requires forall part | part in parts :: ';' !in part
    ensures forall p | p in PairsOf(parts) :: Clean(p)
  {
    hide PairOf, Clean;
    if parts != [] {
      var n := |parts| - 1;
      PairsAreClean(parts[..n]);
      assert parts[n] in parts;
      if PairOf(parts[n]).Some? {
        PairIsClean(parts[n]);
      }
    }
  }

  lemma {:induction false} SetPairsAreClean(setCookies: seq<string>)
    ensures forall p | p in SetPairs(setCookies) :: Clean(p)
  {
    hide PairOf, Clean;
    if setCookies != [] {
      var n := |setCookies| - 1;
      SetPairsAreClean(setCookies[..n]);
      if PairOf(BeforeFirst(setCookies[n])).Some? {
        PairIsClean(BeforeFirst(setCookies[n]));
      }
    }
  }

  lemma MergedIsClean(cookie: string, setCookies: seq<string>)
    ensures var jar := Merged(cookie, setCookies); Consistent(jar) && AllClean(jar.order, jar.values)
  {
    hide Split, PairsOf, SetPairs, Clean;
    SplitHasNoSemicolon(cookie);
    PairsAreClean(Split(cookie));
    SetPairsAreClean(setCookies);
    PutAllKeepsClean(NO_COOKIES, PairsOf(Split(cookie)));
    PutAllKeepsClean(Parse(cookie), SetPairs(setCookies));
  }

  // ---- the algebra of merging ----

  /** Parsing a merged header gives exactly the jar it was printed from. */
  lemma MergedReadsBack(cookie: string, setCookies: seq<string>)
    ensures Consistent(Merged(cookie, setCookies))
    ensures Parse(Print(Merged(cookie, setCookies))) == Merged(cookie, setCookies)
  {
    hide Merged, Print, Parse;
    MergedIsClean(cookie, setCookies);
    PrintParses(Merged(cookie, setCookies));
  }

  lemma {:induction false} PutAllConcat(jar: Jar, a: seq<Pair>, b: seq<Pair>)
    ensures PutAll(jar, a + b) == PutAll(PutAll(jar, a), b)
  {
    if b == [] {
      assert a + b == a;
    } else {
      var n := |b| - 1;
      assert (a + b)[..|a + b| - 1] == a + b[..n];
      PutAllConcat(jar, a, b[..n]);
    }
  }

  lemma {:induction false} SetPairsConcat(a: seq<string>, b: seq<string>)
    ensures SetPairs(a + b) == SetPairs(a) + SetPairs(b)
  {
    hide PairOf;
    if b == [] {
      assert a + b == a;
    } else {
      var n := |b| - 1;
      assert (a + b)[..|a + b| - 1] == a + b[..n];
      SetPairsConcat(a, b[..n]);
    }
  }

  /** Merging two batches of cookies one after the other is merging them together. */
  lemma MergingComposes(cookie: string, a: seq<string>, b: seq<string>)
    ensures Consistent(Merged(cookie, a))
    ensures Merged(Print(Merged(cookie, a)), b) == Merged(cookie, a + b)
  {
    hide Parse, Print, SetPairs, PutAll;
    MergedReadsBack(cookie, a);
    SetPairsConcat(a, b);
    PutAllConcat(Parse(cookie), SetPairs(a), SetPairs(b));
  }

  lemma {:induction false} PutAllValues(jar: Jar, pairs: seq<Pair>)
    ensures PutAll(jar, pairs).values == jar.values + PutAll(NO_COOKIES, pairs).values
    ensures forall p | p in pairs :: p.name in PutAll(NO_COOKIES, pairs).values
  {
    if pairs != [] {
      var n := |pairs| - 1;
      PutAllValues(jar, pairs[..n]);
      forall p | p in pairs ensures p.name in PutAll(NO_COOKIES, pairs).values {
        assert p in pairs[..n] || p == pairs[n];
      }
    } else {
      assert PutAll(jar, pairs).values == jar.values + map[];
    }
  }

  lemma {:induction false} KnownNamesKeepOrder(jar: Jar, pairs: seq<Pair>)
    requires forall p | p in pairs :: p.name in jar.values
    ensures PutAll(jar, pairs).order == jar.order
  {
    if pairs != [] {
      var n := |pairs| - 1;
      KnownNamesKeepOrder(jar, pairs[..n]);
      PutAllValues(jar, pairs[..n]);
      assert pairs[n] in pairs;
    }
  }

  /** Merging the same batch twice changes nothing. */
  lemma MergingTwice(cookie: string, a: seq<string>)
    ensures Consistent(Merged(cookie, a))
    ensures Merged(Print(Merged(cookie, a)), a) == Merged(cookie, a)
  {
    hide Parse, Print, SetPairs, PutAll;
    MergedReadsBack(cookie, a);
    var pairs := SetPairs(a);
    var once := Merged(cookie, a);
    PutAllValues(Parse(cookie), pairs);
    PutAllValues(once, pairs);
    KnownNamesKeepOrder(once, pairs);
    var u := PutAll(NO_COOKIES, pairs).values;
    assert Parse(cookie).values + u + u == Parse(cookie).values + u;
  }

  // ---- what normalizing does to a merged header ----

  /** The number of visible characters. */
  function Ink(s: string): nat {
    if s == "" then 0 else Ink(s[..|s| - 1]) + (if IsSpace(s[|s| - 1]) then 0 else 1)
  }

  lemma {:induction false} InkConcat(a: string, b: string)
    ensures Ink(a + b) == Ink(a) + Ink(b)
  {
    if b == "" {
      assert a + b == a;
    } else {
      assert (a + b)[..|a + b| - 1] == a + b[..|b| - 1];
      InkConcat(a, b[..|b| - 1]);
    }
  }

  lemma InkOfChar(c: char)
    ensures Ink([c]) == if IsSpace(c) then 0 else 1
  {
    assert [c][..0] == "";
  }

  lemma InkSplit(s: string, i: nat, k: nat, j: nat)
    requires i <= k <= j <= |s|
    ensures Ink(s[i..j]) == Ink(s[i..k]) + Ink(s[k..j])
  {
    assert s[i..j] == s[i..k] + s[k..j];
    InkConcat(s[i..k], s[k..j]);
  }

  lemma InkOfTrim(s: string)
    ensures Ink(TrimSpace(s)) <= Ink(s)
  {
    hide TrimSpace;
    var a, b := TrimSplits(s);
    InkConcat(a + TrimSpace(s), b);
    InkConcat(a, TrimSpace(s));
  }

  /** A string literal is longer in print than in meaning. */
  lemma {:induction false} InkOfLiteral(s: string, i: nat)
    requires i <= |s| && Json.Unquote(s, i).Some?
    ensures var t := Json.Unquote(s, i).value;
            Ink(t.value) + 1 <= Ink(s[i..t.end])
    decreases |s| - i
  {
    hide Ink;
    var t := Json.Unquote(s, i).value;
    assert s[i..i + 1] == [s[i]];
    InkOfChar(s[i]);
    InkSplit(s, i, i + 1, t.end);
    if s[i] == '"' {
      InkOfNothing();
    } else {
      var k := LiteralStep(s, i);
      InkOfLiteral(s, k);
      InkSplit(s, i + 1, k, t.end);
      var rest := Json.Unquote(s, k).value;
      assert t.value == [t.value[0]] + rest.value;
      InkConcat([t.value[0]], rest.value);
      InkOfChar(t.value[0]);
    }
  }

  lemma InkOfNothing()
    ensures Ink("") == 0
  {
  }

  /** The position after the first character or escape of a literal. */
  lemma LiteralStep(s: string, i: nat) returns (k: nat)
    requires i <= |s| && Json.Unquote(s, i).Some? && s[i] != '"'
    ensures i < k <= |s| && Json.Unquote(s, k).Some?
    ensures var t := Json.Unquote(s, i).value;
            var rest := Json.Unquote(s, k).value;
            && t.end == rest.end && t.value != "" && t.value[1..] == rest.value && k < t.end
            && (s[i] == '\\' || t.value[0] == s[i])
  {
    hide Json.Hex4, Json.LowSurrogate;
    if s[i] != '\\' {
      k := i + 1;
    } else if s[i + 1] != 'u' {
      k := i + 2;
    } else {
      var u := Json.Hex4(s, i + 2).value;
      k := if Json.IsSurrogate(u) && Json.LowSurrogate(s, i + 6).Some? && u < 0xDC00 then i + 12 else i + 6;
    }
  }

  /** So a cookie wrapped in JSON has less ink than its wrapper. */
  lemma {:induction false} InkOfWrapped(t: string, fields: seq<Json.Field>)
    requires Json.InText(t, fields) && t != "" && !IsSpace(t[0]) && WrappedCookie(t, fields).Some?
    ensures Ink(WrappedCookie(t, fields).value) < Ink(t)
  {
    hide Ink, Json.Unquote;
    InkOfNothing();
    assert t == t[0..1] + t[1..];
    InkConcat(t[0..1], t[1..]);
    assert t[0..1] == [t[0]];
    InkOfChar(t[0]);
    if fields != [] {
      var n := |fields| - 1;
      InkOfWrapped(t, fields[..n]);
      var f := fields[n];
      if Json.Names(f.key, "cookie") && t[f.start] == '"' {
        InkOfLiteral(t, f.start + 1);
        var x := Json.Unquote(t, f.start + 1).value;
        InkSplit(t, 0, f.start + 1, |t|);
        InkSplit(t, f.start + 1, x.end, |t|);
        assert t[0..|t|] == t;
      }
    }
  }

  /** Ink of the parts, with one mark each to separate them. */
  function Weight(parts: seq<string>): nat {
    if parts == [] then 0 else Weight(parts[..|parts| - 1]) + Ink(parts[|parts| - 1]) + 1
  }

  lemma WeightAppend(parts: seq<string>, part: string)
    ensures Weight(parts + [part]) == Weight(parts) + Ink(part) + 1
  {
    assert (parts + [part])[..|parts|] == parts;
  }

  lemma {:induction false} WeightOfSplit(s: string)
    ensures Weight(Split(s)) == Ink(s) + 1
  {
    hide Weight;
    if s == "" {
      WeightOfOne();
    } else {
      var n := |s| - 1;
      WeightOfSplit(s[..n]);
      var parts := Split(s[..n]);
      var m := |parts| - 1;
      assert parts == parts[..m] + [parts[m]];
      WeightAppend(parts[..m], parts[m]);
      WeightAppend(parts[..m], parts[m] + [s[n]]);
      WeightAppend(parts, "");
      InkConcat(parts[m], [s[n]]);
      InkOfChar(s[n]);
    }
  }

  lemma WeightOfOne()
    ensures Weight([""]) == 1 && Weight([]) == 0
  {
    assert [""][..0] == [];
  }

  lemma {:induction false} WeightOfKept(parts: seq<string>)
    ensures Weight(Kept(parts)) <= Weight(parts)
  {
    hide TrimSpace, Ink;
    if parts != [] {
      var n := |parts| - 1;
      WeightOfKept(parts[..n]);
      WeightAppend(Kept(parts[..n]), TrimSpace(parts[n]));
      InkOfTrim(parts[n]);
      assert Kept(parts[..n]) + [] == Kept(parts[..n]);
    }
  }

  lemma {:induction false} InkOfJoin(parts: seq<string>)
    ensures parts != [] ==> Ink(Join(parts)) + 1 == Weight(parts)
    decreases |parts|
  {
    hide Ink;
    if |parts| == 1 {
      assert parts[..0] == [];
    } else if parts != [] {
      var n := |parts| - 1;
      InkOfJoin(parts[..n]);
      InkConcat(Join(parts[..n]) + "; ", parts[n]);
      InkConcat(Join(parts[..n]), "; ");
      assert "; " == [';'] + [' '];
      InkConcat([';'], [' ']);
      InkOfChar(';');
      InkOfChar(' ');
    }
  }

  lemma TidyingAddsNoInk(s: string)
    ensures Ink(Join(Kept(Split(s)))) <= Ink(s)
  {
    hide Ink, Weight, Kept, Split, Join;
    WeightOfSplit(s);
    WeightOfKept(Split(s));
    InkOfJoin(Kept(Split(s)));
    JoinOfNothing();
  }

  lemma JoinOfNothing()
    ensures Join([]) == "" && Ink("") == 0
  {
  }

  /** `normalizeCookie` leaves a merged header alone exactly when it does not start with a
      brace: a header that does is taken for JSON and comes back empty or unwrapped. */
  lemma NormalizingKeepsMerged(cookie: string, setCookies: seq<string>)
    ensures Consistent(Merged(cookie, setCookies))
    ensures var header := Print(Merged(cookie, setCookies));
            Normalized(header) == header <==> !(header != "" && header[0] == '{')
  {
    hide Merged, TrimSpace, Unwrap, Split, Kept, Join, Printed, AllClean;
    MergedIsClean(cookie, setCookies);
    var jar := Merged(cookie, setCookies);
    PrintedReadsBack(jar.order, jar.values);
    var header := Print(jar);
    TrimNoop(header);
    if header != "" && header[0] == '{' {
      UnwrappingShrinks(header);
    }
  }

  lemma UnwrappingShrinks(t: string)
    requires t != "" && t[0] == '{'
    ensures match Unwrap(t)
            case None => true
            case Some(cookie) => Join(Kept(Split(cookie))) != t
  {
    hide Split, Kept, Join, WrappedCookie, Json.Valid, Json.Members;
    if Unwrap(t).Some? {
      var cookie := Unwrap(t).value;
      InkOfWrapped(t, Json.Members(t).value);
      TidyingAddsNoInk(cookie);
    }
  }
}
