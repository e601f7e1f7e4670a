/** Numbers of JSON (RFC 8259, section 6): the scanner reads exactly what the grammar lets one
    write. */
module JsonNumbers {
  import opened GoStrings
  import opened Json
  import opened JsonLaws

  /** A number as it is written, part by part. */
  datatype Numeral = Numeral(minus: string, whole: string, fraction: string, exponent: string)

  predicate AreDigits(s: string) {
    s != "" && forall k | 0 <= k < |s| :: '0' <= s[k] <= '9'
  }

  predicate IsSign(s: string) {
    s == "" || s == "+" || s == "-"
  }

  predicate IsExponent(s: string, sign: string) {
    |s| > 1 + |sign| && (s[0] == 'e' || s[0] == 'E') && s[1..1 + |sign|] == sign && AreDigits(s[1 + |sign|..])
  }

  predicate IsNumeral(n: Numeral) {
    && (n.minus == "" || n.minus == "-")
    && AreDigits(n.whole) && (n.whole[0] == '0' ==> n.whole == "0")
    && (n.fraction == "" || (n.fraction[0] == '.' && AreDigits(n.fraction[1..])))
    && (n.exponent == "" || IsExponent(n.exponent, "") || IsExponent(n.exponent, "+") || IsExponent(n.exponent, "-"))
  }

  function Figures(n: Numeral): string {
    n.minus + (n.whole + (n.fraction + n.exponent))
  }

  lemma {:induction false} DigitsSpan(t: string, i: nat)
    requires i <= |t|
    ensures var j := Digits(t, i);
            (forall k | i <= k < j :: IsDigit(t[k])) && (j == |t| || !IsDigit(t[j]))
    decreases |t| - i
  {
    if i < |t| && IsDigit(t[i]) {
      DigitsSpan(t, i + 1);
    }
  }

  lemma {:induction false} DigitsRead(t: string, i: nat, x: string)
    requires Reads(t, i, x) && (x == "" || AreDigits(x)) && (i + |x| == |t| || !IsDigit(t[i + |x|]))
    ensures Digits(t, i) == i + |x|
    decreases |x|
  {
    if x != "" {
      ReadsChar(t, i, x, 0);
      assert x == [x[0]] + x[1..];
      ReadsParts(t, i, [x[0]], x[1..]);
      assert forall k | 0 <= k < |x[1..]| :: x[1..][k] == x[k + 1];
      DigitsRead(t, i + 1, x[1..]);
    }
  }

  lemma ExponentRead(t: string, i: nat, x: string)
    requires Reads(t, i, x) && Breaks(t, i + |x|)
    requires x == "" || IsExponent(x, "") || IsExponent(x, "+") || IsExponent(x, "-")
    ensures ScanExponent(t, i) == Some(i + |x|)
    ensures i < |t| ==> t[i] != '.' && !IsDigit(t[i])
  {
    hide Digits;
    if x != "" {
      var sign := if IsExponent(x, "+") then "+" else if IsExponent(x, "-") then "-" else "";
      var k := 1 + |sign|;
      ReadsChar(t, i, x, 0);
      ReadsChar(t, i, x, 1);
      ReadsChar(t, i, x, k);
      assert x == x[..k + 1] + x[k + 1..];
      ReadsParts(t, i, x[..k + 1], x[k + 1..]);
      var tail := x[k..];
      assert x[k + 1..] == tail[1..] && tail[0] == x[k];
      DigitsRead(t, i + k + 1, x[k + 1..]);
      assert sign != "" ==> x[1..k][0] == x[1];
    }
  }

  lemma FractionRead(t: string, i: nat, x: string, y: string)
    requires Reads(t, i, x) && Reads(t, i + |x|, y) && Breaks(t, i + |x| + |y|)
    requires x == "" || (x[0] == '.' && AreDigits(x[1..]))
    requires y == "" || IsExponent(y, "") || IsExponent(y, "+") || IsExponent(y, "-")
    ensures ScanFraction(t, i) == Some(i + |x| + |y|)
    ensures i < |t| ==> !IsDigit(t[i])
  {
    hide Digits, ScanExponent, IsExponent;
    ExponentRead(t, i + |x|, y);
    if x != "" {
      ReadsChar(t, i, x, 0);
      ReadsChar(t, i, x, 1);
      assert x[1..][0] == x[1];
      assert x == x[..2] + x[2..];
      ReadsParts(t, i, x[..2], x[2..]);
      assert forall q | 0 <= q < |x[2..]| :: x[2..][q] == x[1..][q + 1];
      DigitsRead(t, i + 2, x[2..]);
    }
  }

  /** A number is read as a whole, however it is written, when it does not go on. */
  lemma NumberRead(t: string, i: nat, n: Numeral)
    requires IsNumeral(n) && Reads(t, i, Figures(n)) && Breaks(t, i + |Figures(n)|)
    ensures ScanNumber(t, i) == Some(i + |Figures(n)|)
    ensures i < |t| && (t[i] == '-' || IsDigit(t[i]))
  {
    hide Digits, ScanFraction, IsExponent, Reads;
    var a := i + |n.minus|;
    ReadsParts(t, i, n.minus, n.whole + (n.fraction + n.exponent));
    ReadsParts(t, a, n.whole, n.fraction + n.exponent);
    ReadsParts(t, a + |n.whole|, n.fraction, n.exponent);
    FractionRead(t, a + |n.whole|, n.fraction, n.exponent);
    ReadsChar(t, a, n.whole, 0);
    if n.minus != "" {
      ReadsChar(t, i, n.minus, 0);
    }
    if n.whole[0] != '0' {
      WholeRead(t, a, n.whole);
    }
  }

  lemma WholeRead(t: string, a: nat, whole: string)
    requires Reads(t, a, whole) && AreDigits(whole) && (a + |whole| == |t| || (a + |whole| < |t| && !IsDigit(t[a + |whole|])))
    ensures Digits(t, a + 1) == a + |whole|
  {
    assert whole == whole[..1] + whole[1..];
    ReadsParts(t, a, whole[..1], whole[1..]);
    assert forall q | 0 <= q < |whole[1..]| :: whole[1..][q] == whole[q + 1];
    DigitsRead(t, a + 1, whole[1..]);
  }

  lemma ReadsItself(t: string, i: nat, j: nat)
    requires i <= j <= |t|
    ensures Reads(t, i, t[i..j])
  {
  }

  lemma WholeOnlyRead(t: string, a: nat) returns (b: nat)
    requires a < |t| && IsDigit(t[a])
    ensures a < b <= |t| && AreDigits(t[a..b]) && (t[a] == '0' ==> t[a..b] == "0")
    ensures b == if t[a] == '0' then a + 1 else Digits(t, a + 1)
  {
    hide Digits;
    b := if t[a] == '0' then a + 1 else Digits(t, a + 1);
    DigitsSpan(t, a + 1);
  }

  lemma FractionOnlyRead(t: string, b: nat) returns (c: nat)
    requires b <= |t| && ScanFraction(t, b).Some?
    ensures b <= c <= |t| && ScanExponent(t, c) == ScanFraction(t, b)
    ensures b < c ==> t[b] == '.' && AreDigits(t[b + 1..c])
  {
    hide Digits, ScanExponent;
    c := b;
    if b < |t| && t[b] == '.' {
      c := Digits(t, b + 2);
      DigitsSpan(t, b + 2);
    }
  }

  lemma AreParts(t: string, i: nat, a: nat, b: nat, c: nat, e: nat)
    requires i <= a <= b <= c <= e <= |t|
    ensures Figures(Numeral(t[i..a], t[a..b], t[b..c], t[c..e])) == t[i..e]
  {
  }

  /** Every number that is read is written so. */
  lemma NumberOnlyRead(t: string, i: nat) returns (n: Numeral)
    requires i <= |t| && ScanNumber(t, i).Some?
    ensures IsNumeral(n) && Reads(t, i, Figures(n)) && ScanNumber(t, i).value == i + |Figures(n)|
  {
    hide Digits, ScanFraction, ScanExponent, AreDigits, IsExponent, Figures;
    var a := if t[i] == '-' then i + 1 else i;
    var b := WholeOnlyRead(t, a);
    var c := FractionOnlyRead(t, b);
    var e := ScanNumber(t, i).value;
    ExponentOnlyRead(t, c);
    n := Numeral(t[i..a], t[a..b], t[b..c], t[c..e]);
    AreParts(t, i, a, b, c, e);
    assert b < c ==> n.fraction[1..] == t[b + 1..c];
  }

  lemma ExponentOnlyRead(t: string, c: nat)
    requires c <= |t| && ScanExponent(t, c).Some?
    ensures var x := t[c..ScanExponent(t, c).value];
            x == "" || IsExponent(x, "") || IsExponent(x, "+") || IsExponent(x, "-")
  {
    hide Digits;
    if ScanExponent(t, c).value > c {
      SomeExponent(t, c);
    }
  }

  lemma SomeExponent(t: string, c: nat)
    requires c <= |t| && ScanExponent(t, c).Some? && ScanExponent(t, c).value > c
    ensures var x := t[c..ScanExponent(t, c).value];
            IsExponent(x, "") || IsExponent(x, "+") || IsExponent(x, "-")
  {
    hide Digits;
    var e := ScanExponent(t, c).value;
    var x := t[c..e];
    var signed := t[c + 1] == '+' || t[c + 1] == '-';
    var k := if signed then c + 2 else c + 1;
    DigitsSpan(t, k + 1);
    assert x[k - c..] == t[k..e];
    if signed {
      assert x[1..2] == [t[c + 1]];
    }
  }
}
