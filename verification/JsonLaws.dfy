/** What the tool-call protocol needs to know about JSON texts: they mean the same
    wherever they are embedded, they never contain a line that starts with a
    backtick, and quoting a string can be undone. */
module JsonLaws {
  import opened GoStrings
  import opened Json

  // ---- a construct means the same wherever it stands ----

  /** `t` repeats the stretch `i..e` of `s`, displaced by `off`. */
  predicate Shifted(s: string, t: string, off: int, i: nat, e: nat) {
    && i <= e <= |s| && 0 <= i + off && e + off <= |t|
    && forall q {:trigger s[q]} | i <= q < e :: t[q + off] == s[q]
  }

  /** The text does not continue a number at `p`. */
  predicate Breaks(t: string, p: int) {
    0 <= p <= |t| && (p == |t| || !(IsDigit(t[p]) || t[p] in ".eE+-"))
  }

  lemma {:induction false} ShiftWs(s: string, t: string, off: int, i: nat, e: nat)
    requires Shifted(s, t, off, i, e) && SkipWs(s, i) < e
    ensures SkipWs(t, i + off) == SkipWs(s, i) + off
    decreases |s| - i
  {
    assert s[i] == t[i + off];
    if IsWs(s[i]) {
      ShiftWs(s, t, off, i + 1, e);
    }
  }

  lemma {:induction false} ShiftDigits(s: string, t: string, off: int, i: nat, e: nat)
    requires Shifted(s, t, off, i, e) && Digits(s, i) <= e
    requires Digits(s, i) < e || Breaks(t, e + off)
    ensures Digits(t, i + off) == Digits(s, i) + off
    decreases |s| - i
  {
    if i < e && IsDigit(s[i]) {
      ShiftDigits(s, t, off, i + 1, e);
    }
  }

  lemma ShiftHex4(s: string, t: string, off: int, i: nat, e: nat)
    requires Shifted(s, t, off, i, e) && i + 4 <= e
    ensures Hex4(t, i + off) == Hex4(s, i)
  {
    assert t[i + off] == s[i] && t[i + 1 + off] == s[i + 1] && t[i + 2 + off] == s[i + 2] && t[i + 3 + off] == s[i + 3];
  }

  lemma ShiftLowSurrogate(s: string, t: string, off: int, i: nat, e: nat)
    requires Shifted(s, t, off, i, e)
    requires var r := Unquote(s, i); r.Some? && r.value.end <= e
    ensures LowSurrogate(t, i + off) == LowSurrogate(s, i)
  {
    assert t[i + off] == s[i];
    if s[i] == '\\' {
      assert t[i + 1 + off] == s[i + 1];
      if s[i + 1] == 'u' {
        ShiftHex4(s, t, off, i + 2, e);
      }
    }
  }

  lemma ShiftUnit(s: string, t: string, off: int, i: nat, e: nat)
    requires Shifted(s, t, off, i, e) && i < e && NextUnit(s, i).Some?
    requires var k := i + NextUnit(s, i).value.size; var r := Unquote(s, k); r.Some? && r.value.end <= e
    ensures NextUnit(t, i + off) == NextUnit(s, i)
  {
    hide Unquote;
    assert t[i + off] == s[i];
    if s[i] == '\\' {
      assert t[i + 1 + off] == s[i + 1];
      if s[i + 1] == 'u' {
        ShiftHex4(s, t, off, i + 2, e);
        if IsSurrogate(Hex4(s, i + 2).value) {
          ShiftSecondHalf(s, t, off, i, e);
        }
      }
    }
  }

  lemma ShiftSecondHalf(s: string, t: string, off: int, i: nat, e: nat)
    requires Shifted(s, t, off, i, e) && i < e && NextUnit(s, i).Some? && i + 6 <= e
    requires var k := i + NextUnit(s, i).value.size; var r := Unquote(s, k); r.Some? && r.value.end <= e
    requires NextUnit(s, i).value.size >= 6
    ensures LowSurrogate(t, i + 6 + off) == LowSurrogate(s, i + 6)
  {
    hide Unquote;
    if NextUnit(s, i).value.size == 12 {
      assert t[i + 6 + off] == s[i + 6] && t[i + 7 + off] == s[i + 7];
      ShiftHex4(s, t, off, i + 8, e);
    } else {
      ShiftLowSurrogate(s, t, off, i + 6, e);
    }
  }

  lemma {:induction false} ShiftUnquote(s: string, t: string, off: int, i: nat, e: nat)
    requires Shifted(s, t, off, i, e)
    requires var r := Unquote(s, i); r.Some? && r.value.end <= e
    ensures var x := Unquote(s, i).value;
            Unquote(t, i + off) == Some(Text(x.value, x.end + off))
    decreases |s| - i
  {
    hide NextUnit;
    assert t[i + off] == s[i];
    if s[i] != '"' {
      ShiftUnit(s, t, off, i, e);
      ShiftUnquote(s, t, off, i + NextUnit(s, i).value.size, e);
    }
  }

  lemma ShiftExponent(s: string, t: string, off: int, i: nat, e: nat)
    requires Shifted(s, t, off, i, e)
    requires var r := ScanExponent(s, i); r.Some? && r.value <= e && (r.value < e || Breaks(t, e + off))
    ensures ScanExponent(t, i + off) == Some(ScanExponent(s, i).value + off)
  {
    if i < e && (s[i] == 'e' || s[i] == 'E') {
      var k := if s[i + 1] == '+' || s[i + 1] == '-' then i + 2 else i + 1;
      assert t[i + 1 + off] == s[i + 1] && t[k + off] == s[k];
      ShiftDigits(s, t, off, k + 1, e);
    }
  }

  lemma ShiftFraction(s: string, t: string, off: int, i: nat, e: nat)
    requires Shifted(s, t, off, i, e)
    requires var r := ScanFraction(s, i); r.Some? && r.value <= e && (r.value < e || Breaks(t, e + off))
    ensures ScanFraction(t, i + off) == Some(ScanFraction(s, i).value + off)
  {
    hide Digits, ScanExponent;
    if i < e && s[i] == '.' {
      assert t[i + 1 + off] == s[i + 1];
      ShiftDigits(s, t, off, i + 2, e);
      ShiftExponent(s, t, off, Digits(s, i + 2), e);
    } else {
      ShiftExponent(s, t, off, i, e);
    }
  }

  lemma ShiftNumber(s: string, t: string, off: int, i: nat, e: nat)
    requires Shifted(s, t, off, i, e)
    requires var r := ScanNumber(s, i); r.Some? && r.value <= e && (r.value < e || Breaks(t, e + off))
    ensures ScanNumber(t, i + off) == Some(ScanNumber(s, i).value + off)
  {
    hide Digits, ScanFraction;
    var a := if s[i] == '-' then i + 1 else i;
    assert t[i + off] == s[i] && t[a + off] == s[a];
    if s[a] == '0' {
      ShiftFraction(s, t, off, a + 1, e);
    } else {
      ShiftDigits(s, t, off, a + 1, e);
      ShiftFraction(s, t, off, Digits(s, a + 1), e);
    }
  }

  predicate SameField(f: Field, g: Field, off: int) {
    g.key == f.key && g.start == f.start + off && g.end == f.end + off
  }

  predicate SameFields(f: seq<Field>, g: seq<Field>, off: int) {
    |f| == |g| && forall i | 0 <= i < |f| :: SameField(f[i], g[i], off)
  }

  predicate SameObject(o: Option<Object>, r: Option<Object>, off: int) {
    o.Some? && r.Some? && r.value.end == o.value.end + off && SameFields(o.value.fields, r.value.fields, off)
  }

  /** A value embedded in another text is scanned there as it is on its own. */
  lemma {:induction false} ShiftValue(s: string, t: string, off: int, i: nat, e: nat, depth: nat)
    requires Shifted(s, t, off, i, e)
    requires var r := ScanValue(s, i, depth); r.Some? && r.value <= e && (r.value < e || Breaks(t, e + off))
    ensures ScanValue(t, i + off, depth) == Some(ScanValue(s, i, depth).value + off)
    decreases |s| - i, 0
  {
    hide SkipWs, Unquote, ScanNumber, ScanWord, ScanObject, ScanElements;
    assert t[i + off] == s[i];
    if s[i] == '{' {
      ShiftObject(s, t, off, i + 1, e, depth - 1);
    } else if s[i] == '[' {
      var k := SkipWs(s, i + 1);
      ShiftWs(s, t, off, i + 1, e);
      assert t[k + off] == s[k];
      if s[k] != ']' {
        ShiftElements(s, t, off, k, e, depth - 1);
      }
    } else if s[i] == '"' {
      ShiftUnquote(s, t, off, i + 1, e);
    } else if s[i] == 't' {
      ShiftWord(s, t, off, i, e, "true");
    } else if s[i] == 'f' {
      ShiftWord(s, t, off, i, e, "false");
    } else if s[i] == 'n' {
      ShiftWord(s, t, off, i, e, "null");
    } else {
      ShiftNumber(s, t, off, i, e);
    }
  }

  lemma ShiftWord(s: string, t: string, off: int, i: nat, e: nat, word: string)
    requires Shifted(s, t, off, i, e) && ScanWord(s, i, word).Some? && i + |word| <= e
    ensures ScanWord(t, i + off, word) == Some(i + |word| + off)
  {
    var there := t[i + off..i + off + |word|];
    var here := s[i..i + |word|];
    forall o | 0 <= o < |here| ensures there[o] == here[o] {
      assert t[i + o + off] == s[i + o];
    }
    assert there == here;
  }

  lemma {:induction false} ShiftObject(s: string, t: string, off: int, i: nat, e: nat, depth: nat)
    requires Shifted(s, t, off, i, e)
    requires var r := ScanObject(s, i, depth); r.Some? && r.value.end <= e
    ensures SameObject(ScanObject(s, i, depth), ScanObject(t, i + off, depth), off)
    decreases |s| - i, 2
  {
    hide SkipWs, ScanMembers;
    var k := SkipWs(s, i);
    ShiftWs(s, t, off, i, e);
    assert t[k + off] == s[k];
    if s[k] != '}' {
      ShiftMembers(s, t, off, k, e, depth);
    }
  }

  lemma SameFieldsCons(f: Field, fs: seq<Field>, g: Field, gs: seq<Field>, off: int)
    requires SameField(f, g, off) && SameFields(fs, gs, off)
    ensures SameFields([f] + fs, [g] + gs, off)
  {
  }

  /** The positions of one member: its key, colon, value and the mark after it. */
  datatype Parts = Parts(key: Text, colon: nat, start: nat, end: nat, mark: nat)

  predicate MemberAt(s: string, i: nat, depth: nat, p: Parts) {
    && i < p.key.end <= p.colon < p.start < p.end <= p.mark < |s|
    && s[i] == '"' && Unquote(s, i + 1) == Some(p.key)
    && p.colon == SkipWs(s, p.key.end) && s[p.colon] == ':'
    && p.start == SkipWs(s, p.colon + 1) && ScanValue(s, p.start, depth) == Some(p.end)
    && p.mark == SkipWs(s, p.end) && (s[p.mark] == '}' || s[p.mark] == ',')
  }

  lemma MembersAt(s: string, i: nat, depth: nat, p: Parts)
    requires MemberAt(s, i, depth, p)
    ensures var field := Field(p.key.value, p.start, p.end);
            ScanMembers(s, i, depth) ==
            if s[p.mark] == '}' then Some(Object([field], p.mark + 1)) else
              match ScanMembers(s, SkipWs(s, p.mark + 1), depth)
              case None => None
              case Some(o) => Some(Object([field] + o.fields, o.end))
  {
    hide SkipWs, Unquote, ScanValue;
  }

  lemma FirstMember(s: string, i: nat, depth: nat) returns (p: Parts)
    requires i <= |s| && ScanMembers(s, i, depth).Some?
    ensures MemberAt(s, i, depth, p) && p.mark < ScanMembers(s, i, depth).value.end
    ensures s[p.mark] == ',' ==> ScanMembers(s, SkipWs(s, p.mark + 1), depth).Some?
  {
    hide SkipWs, Unquote, ScanValue;
    var key := Unquote(s, i + 1).value;
    var colon := SkipWs(s, key.end);
    var start := SkipWs(s, colon + 1);
    var end := ScanValue(s, start, depth).value;
    p := Parts(key, colon, start, end, SkipWs(s, end));
  }

  lemma ShiftMember(s: string, t: string, off: int, i: nat, e: nat, depth: nat, p: Parts) returns (q: Parts)
    requires Shifted(s, t, off, i, e) && MemberAt(s, i, depth, p) && p.mark < e
    requires ScanValue(t, p.start + off, depth) == Some(p.end + off)
    ensures MemberAt(t, i + off, depth, q) && q.mark == p.mark + off
    ensures SameField(Field(p.key.value, p.start, p.end), Field(q.key.value, q.start, q.end), off)
  {
    hide SkipWs, Unquote, ScanValue;
    assert t[i + off] == s[i];
    ShiftUnquote(s, t, off, i + 1, e);
    ShiftWs(s, t, off, p.key.end, e);
    assert t[p.colon + off] == s[p.colon];
    ShiftWs(s, t, off, p.colon + 1, e);
    ShiftWs(s, t, off, p.end, e);
    assert t[p.mark + off] == s[p.mark];
    q := Parts(Text(p.key.value, p.key.end + off), p.colon + off, p.start + off, p.end + off, p.mark + off);
  }

  lemma {:induction false} ShiftMembers(s: string, t: string, off: int, i: nat, e: nat, depth: nat)
    requires Shifted(s, t, off, i, e)
    requires var r := ScanMembers(s, i, depth); r.Some? && r.value.end <= e
    ensures SameObject(ScanMembers(s, i, depth), ScanMembers(t, i + off, depth), off)
    decreases |s| - i, 1
  {
    hide SkipWs, Unquote, ScanValue, ScanMembers;
    var p := FirstMember(s, i, depth);
    ShiftValue(s, t, off, p.start, e, depth);
    var q := ShiftMember(s, t, off, i, e, depth, p);
    MembersAt(s, i, depth, p);
    MembersAt(t, i + off, depth, q);
    assert t[p.mark + off] == s[p.mark];
    if s[p.mark] == ',' {
      ShiftWs(s, t, off, p.mark + 1, e);
      var m := SkipWs(s, p.mark + 1);
      ShiftMembers(s, t, off, m, e, depth);
      SameFieldsCons(Field(p.key.value, p.start, p.end), ScanMembers(s, m, depth).value.fields,
                     Field(q.key.value, q.start, q.end), ScanMembers(t, m + off, depth).value.fields, off);
    }
  }

  lemma {:induction false} ShiftElements(s: string, t: string, off: int, i: nat, e: nat, depth: nat)
    requires Shifted(s, t, off, i, e)
    requires var r := ScanElements(s, i, depth); r.Some? && r.value <= e
    ensures ScanElements(t, i + off, depth) == Some(ScanElements(s, i, depth).value + off)
    decreases |s| - i, 1
  {
    hide SkipWs, ScanValue;
    var end := ScanValue(s, i, depth).value;
    ShiftValue(s, t, off, i, e, depth);
    var n := SkipWs(s, end);
    ShiftWs(s, t, off, end, e);
    assert t[n + off] == s[n];
    if s[n] == ',' {
      ShiftWs(s, t, off, n + 1, e);
      ShiftElements(s, t, off, SkipWs(s, n + 1), e, depth);
    }
  }

  // ---- no line of a JSON text starts with a backtick ----

  /** No backtick of the stretch starts it or follows a newline. */
  predicate Calm(s: string, i: nat, e: nat) {
    i <= e <= |s| && forall q | i <= q < e && s[q] == '`' :: i < q && s[q - 1] != '\n'
  }

  lemma {:induction false} WsPlain(s: string, i: nat)
    requires i <= |s|
    ensures forall q | i <= q < SkipWs(s, i) :: IsWs(s[q])
    decreases |s| - i
  {
    if i < |s| && IsWs(s[i]) {
      WsPlain(s, i + 1);
    }
  }

  lemma {:induction false} DigitsPlain(s: string, i: nat)
    requires i <= |s|
    ensures forall q | i <= q < Digits(s, i) :: IsDigit(s[q])
    decreases |s| - i
  {
    if i < |s| && IsDigit(s[i]) {
      DigitsPlain(s, i + 1);
    }
  }

  lemma UnitPrintable(s: string, i: nat)
    requires i < |s| && NextUnit(s, i).Some?
    ensures forall q | i <= q < i + NextUnit(s, i).value.size :: s[q] >= ' '
  {
    hide Hex4;
    if s[i] == '\\' && s[i + 1] == 'u' {
      Hex4Printable(s, i + 2);
      if NextUnit(s, i).value.size == 12 {
        LowPrintable(s, i + 6);
      }
    }
  }

  lemma LowPrintable(s: string, i: nat)
    requires LowSurrogate(s, i).Some?
    ensures forall q | i <= q < i + 6 :: s[q] >= ' '
  {
    hide Hex4;
    Hex4Printable(s, i + 2);
  }

  /** No control character of a string literal is left unescaped. */
  lemma {:induction false} UnquotePrintable(s: string, i: nat)
    requires i <= |s| && Unquote(s, i).Some?
    ensures var end := Unquote(s, i).value.end;
            s[end - 1] == '"' && forall q | i <= q < end :: s[q] >= ' '
    decreases |s| - i
  {
    hide NextUnit;
    if s[i] != '"' {
      UnitPrintable(s, i);
      UnquotePrintable(s, i + NextUnit(s, i).value.size);
    }
  }

  lemma Hex4Printable(s: string, i: nat)
    requires Hex4(s, i).Some?
    ensures forall q | i <= q < i + 4 :: s[q] >= ' '
  {
  }

  lemma NumberPlain(s: string, i: nat)
    requires i <= |s| && ScanNumber(s, i).Some?
    ensures var end := ScanNumber(s, i).value;
            IsDigit(s[end - 1]) && forall q | i <= q < end :: s[q] != '`' && !IsSpace(s[q])
  {
    hide Digits, ScanFraction;
    var a := if s[i] == '-' then i + 1 else i;
    var b := if s[a] == '0' then a + 1 else Digits(s, a + 1);
    DigitsPlain(s, a + 1);
    FractionPlain(s, b);
  }

  lemma FractionPlain(s: string, i: nat)
    requires 0 < i <= |s| && IsDigit(s[i - 1]) && ScanFraction(s, i).Some?
    ensures var end := ScanFraction(s, i).value;
            IsDigit(s[end - 1]) && forall q | i <= q < end :: s[q] != '`' && !IsSpace(s[q])
  {
    hide Digits, ScanExponent;
    if i < |s| && s[i] == '.' {
      DigitsPlain(s, i + 2);
      ExponentPlain(s, Digits(s, i + 2));
    } else {
      ExponentPlain(s, i);
    }
  }

  lemma ExponentPlain(s: string, i: nat)
    requires 0 < i <= |s| && IsDigit(s[i - 1]) && ScanExponent(s, i).Some?
    ensures var end := ScanExponent(s, i).value;
            IsDigit(s[end - 1]) && forall q | i <= q < end :: s[q] != '`' && !IsSpace(s[q])
  {
    hide Digits;
    if i < |s| && (s[i] == 'e' || s[i] == 'E') {
      var k := if s[i + 1] == '+' || s[i + 1] == '-' then i + 2 else i + 1;
      DigitsPlain(s, k + 1);
    }
  }

  /** A value neither starts nor ends with white space, and is calm. */
  lemma {:induction false} ValueCalm(s: string, i: nat, depth: nat)
    requires i <= |s| && ScanValue(s, i, depth).Some?
    ensures var end := ScanValue(s, i, depth).value;
            Calm(s, i, end) && !IsSpace(s[i]) && !IsSpace(s[end - 1])
    decreases |s| - i, 0
  {
    hide SkipWs, Unquote, ScanNumber, ScanObject, ScanElements;
    if s[i] == '{' {
      ObjectCalm(s, i + 1, depth - 1);
    } else if s[i] == '[' {
      var k := SkipWs(s, i + 1);
      WsPlain(s, i + 1);
      if s[k] != ']' {
        ElementsCalm(s, k, depth - 1);
      }
    } else if s[i] == '"' {
      UnquotePrintable(s, i + 1);
    } else if s[i] == 't' {
      WordPlain(s, i, "true");
    } else if s[i] == 'f' {
      WordPlain(s, i, "false");
    } else if s[i] == 'n' {
      WordPlain(s, i, "null");
    } else {
      NumberPlain(s, i);
    }
  }

  lemma WordPlain(s: string, i: nat, word: string)
    requires ScanWord(s, i, word).Some? && forall q | 0 <= q < |word| :: 'a' <= word[q] <= 'z'
    ensures forall q | i <= q < i + |word| :: 'a' <= s[q] <= 'z'
  {
    forall q | i <= q < i + |word| ensures 'a' <= s[q] <= 'z' {
      assert s[q] == s[i..i + |word|][q - i];
    }
  }

  lemma {:induction false} ObjectCalm(s: string, i: nat, depth: nat)
    requires i <= |s| && ScanObject(s, i, depth).Some?
    ensures var end := ScanObject(s, i, depth).value.end;
            Calm(s, i, end) && s[end - 1] == '}'
    decreases |s| - i, 2
  {
    hide SkipWs, ScanMembers;
    WsPlain(s, i);
    if s[SkipWs(s, i)] != '}' {
      MembersCalm(s, SkipWs(s, i), depth);
    }
  }

  lemma {:induction false} MembersCalm(s: string, i: nat, depth: nat)
    requires i <= |s| && ScanMembers(s, i, depth).Some?
    ensures var end := ScanMembers(s, i, depth).value.end;
            Calm(s, i, end) && s[end - 1] == '}'
    decreases |s| - i, 1
  {
    hide SkipWs, Unquote, ScanValue, ScanMembers;
    var p := FirstMember(s, i, depth);
    MembersAt(s, i, depth, p);
    UnquotePrintable(s, i + 1);
    WsPlain(s, p.key.end);
    WsPlain(s, p.colon + 1);
    ValueCalm(s, p.start, depth);
    WsPlain(s, p.end);
    assert Calm(s, i, p.mark + 1);
    if s[p.mark] == ',' {
      WsPlain(s, p.mark + 1);
      MembersCalm(s, SkipWs(s, p.mark + 1), depth);
    }
  }

  lemma {:induction false} ElementsCalm(s: string, i: nat, depth: nat)
    requires i <= |s| && ScanElements(s, i, depth).Some?
    ensures var end := ScanElements(s, i, depth).value;
            Calm(s, i, end) && s[end - 1] == ']'
    decreases |s| - i, 1
  {
    hide SkipWs, ScanValue;
    ValueCalm(s, i, depth);
    var end := ScanValue(s, i, depth).value;
    WsPlain(s, end);
    var n := SkipWs(s, end);
    if s[n] == ',' {
      WsPlain(s, n + 1);
      ElementsCalm(s, SkipWs(s, n + 1), depth);
    }
  }

  // ---- quoting is undone by unquoting ----

  lemma HexDigitValue(n: nat)
    requires n < 16
    ensures HexValue(HexDigit(n)) == Some(n)
  {
  }

  /** `t` reads `x` from position `i` on. */
  predicate Reads(t: string, i: nat, x: string) {
    i + |x| <= |t| && t[i..i + |x|] == x
  }

  lemma ReadsParts(t: string, i: nat, x: string, y: string)
    ensures Reads(t, i, x + y) <==> Reads(t, i, x) && Reads(t, i + |x|, y)
  {
    if Reads(t, i, x + y) {
      assert t[i..i + |x|] == t[i..i + |x + y|][..|x|] == x;
      assert t[i + |x|..i + |x| + |y|] == t[i..i + |x + y|][|x|..] == y;
    }
  }

  lemma ReadsChar(t: string, i: nat, x: string, k: nat)
    requires Reads(t, i, x) && k < |x|
    ensures i + k < |t| && t[i + k] == x[k]
  {
    assert t[i + k] == t[i..i + |x|][k];
  }

  lemma HexOfChar(t: string, i: nat, n: nat)
    requires n < 256 && Reads(t, i, ['\\', 'u', '0', '0', HexDigit(n / 16), HexDigit(n % 16)])
    ensures i + 6 <= |t| && t[i] == '\\' && t[i + 1] == 'u' && Hex4(t, i + 2) == Some(n)
  {
    var e := ['\\', 'u', '0', '0', HexDigit(n / 16), HexDigit(n % 16)];
    forall k | 0 <= k < 6 ensures t[i + k] == e[k] {
      ReadsChar(t, i, e, k);
    }
    HexDigitValue(n / 16);
    HexDigitValue(n % 16);
  }

  lemma UnitOfEscaped(t: string, i: nat, c: char)
    requires Reads(t, i, EscapeChar(c))
    ensures i < |t| && t[i] != '"' && NextUnit(t, i) == Some(Unit(c, |EscapeChar(c)|))
  {
    hide Hex4;
    var e := EscapeChar(c);
    ReadsChar(t, i, e, 0);
    if |e| == 2 {
      ReadsChar(t, i, e, 1);
    } else if c < ' ' || c == '<' || c == '>' || c == '&' {
      assert e == ['\\', 'u', '0', '0', HexDigit(c as nat / 16), HexDigit(c as nat % 16)];
      HexOfChar(t, i, c as nat);
    } else if |e| == 6 {
      SeparatorUnit(t, i, c);
    }
  }

  lemma SeparatorUnit(t: string, i: nat, c: char)
    requires c == '\U{2028}' || c == '\U{2029}'
    requires Reads(t, i, EscapeChar(c))
    ensures NextUnit(t, i) == Some(Unit(c, 6))
  {
    var e := EscapeChar(c);
    forall k | 0 <= k < 6 ensures t[i + k] == e[k] {
      ReadsChar(t, i, e, k);
    }
    assert Hex4(t, i + 2) == Some(c as nat);
  }

  lemma UnquoteEscapedChar(t: string, i: nat, c: char)
    requires Reads(t, i, EscapeChar(c))
    ensures Unquote(t, i) == Prefixed(c, Unquote(t, i + |EscapeChar(c)|))
  {
    hide NextUnit, EscapeChar;
    UnitOfEscaped(t, i, c);
  }

  /** Reading back a quoted string gives the string. */
  lemma {:induction false} UnquoteEscaped(t: string, i: nat, s: string)
    requires Reads(t, i, Escape(s) + "\"")
    ensures Unquote(t, i) == Some(Text(s, i + |Escape(s)| + 1))
    decreases |s|
  {
    hide Unquote, EscapeChar, Reads;
    if s == "" {
      assert Escape(s) + "\"" == "\"";
      ReadsChar(t, i, "\"", 0);
      UnquoteClosing(t, i);
    } else {
      var e, rest := EscapeChar(s[0]), Escape(s[1..]);
      assert Escape(s) + "\"" == e + (rest + "\"");
      ReadsParts(t, i, e, rest + "\"");
      UnquoteEscapedChar(t, i, s[0]);
      UnquoteEscaped(t, i + |e|, s[1..]);
      assert [s[0]] + s[1..] == s;
    }
  }

  /** A character that is written as it stands: none that JSON, HTML or JavaScript would
      take for something else. */
  predicate Harmless(c: char) {
    c >= ' ' && c !in ['"', '\\', '<', '>', '&', '\U{2028}', '\U{2029}']
  }

  lemma EscapeCharSafe(c: char)
    ensures EscapeChar(c) == [c] <==> Harmless(c)
    ensures forall d | d in EscapeChar(c) :: d >= ' ' && d !in ['<', '>', '&', '\U{2028}', '\U{2029}']
  {
  }

  /** Of a quoted string only the harmless characters stay as they are, and none of the others
      but the quote and the backslash occurs in what is written. */
  lemma {:induction false} EscapedIsSafe(s: string)
    ensures forall d | d in Escape(s) :: d >= ' ' && d !in ['<', '>', '&', '\U{2028}', '\U{2029}']
    ensures Escape(s) == s <==> forall c | c in s :: Harmless(c)
    ensures |Escape(s)| >= |s|
  {
    hide EscapeChar, Harmless;
    if s != "" {
      EscapeCharSafe(s[0]);
      EscapedIsSafe(s[1..]);
      var e, rest := EscapeChar(s[0]), Escape(s[1..]);
      assert s == [s[0]] + s[1..];
      if e + rest == s {
        assert |e| == 1;
        assert e == (e + rest)[..1] && rest == (e + rest)[1..];
      }
      assert forall c :: c in s <==> c == s[0] || c in s[1..];
    }
  }

  lemma UnquoteClosing(t: string, i: nat)
    requires i < |t| && t[i] == '"'
    ensures Unquote(t, i) == Some(Text("", i + 1))
  {
  }

  // ---- nesting ----

  /** A text that is valid within some depth is valid, and read alike, within any greater one. */
  lemma {:induction false} DeeperValue(s: string, i: nat, depth: nat)
    requires i <= |s| && ScanValue(s, i, depth).Some?
    ensures ScanValue(s, i, depth + 1) == ScanValue(s, i, depth)
    decreases |s| - i, 0
  {
    hide SkipWs, Unquote, ScanNumber, ScanWord, ScanObject, ScanElements;
    if s[i] == '{' {
      DeeperObject(s, i + 1, depth - 1);
    } else if s[i] == '[' {
      var k := SkipWs(s, i + 1);
      if s[k] != ']' {
        DeeperElements(s, k, depth - 1);
      }
    }
  }

  lemma {:induction false} DeeperObject(s: string, i: nat, depth: nat)
    requires i <= |s| && ScanObject(s, i, depth).Some?
    ensures ScanObject(s, i, depth + 1) == ScanObject(s, i, depth)
    decreases |s| - i, 2
  {
    hide SkipWs, ScanMembers;
    if s[SkipWs(s, i)] != '}' {
      DeeperMembers(s, SkipWs(s, i), depth);
    }
  }

  lemma {:induction false} DeeperMembers(s: string, i: nat, depth: nat)
    requires i <= |s| && ScanMembers(s, i, depth).Some?
    ensures ScanMembers(s, i, depth + 1) == ScanMembers(s, i, depth)
    decreases |s| - i, 1
  {
    hide SkipWs, Unquote, ScanValue, ScanMembers;
    var p := FirstMember(s, i, depth);
    DeeperValue(s, p.start, depth);
    MembersAt(s, i, depth, p);
    MembersAt(s, i, depth + 1, p);
    if s[p.mark] == ',' {
      DeeperMembers(s, SkipWs(s, p.mark + 1), depth);
    }
  }

  lemma {:induction false} DeeperElements(s: string, i: nat, depth: nat)
    requires i <= |s| && ScanElements(s, i, depth).Some?
    ensures ScanElements(s, i, depth + 1) == ScanElements(s, i, depth)
    decreases |s| - i, 1
  {
    hide SkipWs, ScanValue;
    DeeperValue(s, i, depth);
    var n := SkipWs(s, ScanValue(s, i, depth).value);
    if s[n] == ',' {
      DeeperElements(s, SkipWs(s, n + 1), depth);
    }
  }

  // ---- white space around a value ----

  lemma {:induction false} SkipWsTo(s: string, i: nat, j: nat)
    requires i <= j < |s| && !IsWs(s[j]) && forall q | i <= q < j :: IsWs(s[q])
    ensures SkipWs(s, i) == j
    decreases j - i
  {
    if i < j {
      SkipWsTo(s, i + 1, j);
    }
  }

  /** The one value of a valid text, without the white space around it. */
  lemma ValueOf(s: string, depth: nat) returns (start: nat, end: nat)
    requires ValidWithin(s, depth)
    ensures start < end <= |s| && ScanValue(s, start, depth) == Some(end) && start == SkipWs(s, 0)
    ensures (forall q | 0 <= q < start :: IsWs(s[q])) && (forall q | end <= q < |s| :: IsWs(s[q]))
    ensures Calm(s, start, end) && !IsSpace(s[start]) && !IsSpace(s[end - 1])
  {
    hide ScanValue, SkipWs;
    start := SkipWs(s, 0);
    end := ScanValue(s, start, depth).value;
    WsPlain(s, 0);
    WsPlain(s, end);
    ValueCalm(s, start, depth);
  }

  /** `TrimSpace` leaves just the value. */
  lemma ValueIsTrim(s: string, start: nat, end: nat)
    requires start < end <= |s| && !IsSpace(s[start]) && !IsSpace(s[end - 1])
    requires (forall q | 0 <= q < start :: IsWs(s[q])) && (forall q | end <= q < |s| :: IsWs(s[q]))
    ensures TrimSpace(s) == s[start..end]
  {
    assert s == s[..start] + s[start..end] + s[end..];
    TrimIs(s[..start], s[start..end], s[end..]);
  }
}
