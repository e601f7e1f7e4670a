/** String literals of JSON (RFC 8259, section 7): what can be written, with any escapes, and
    what it stands for, is exactly what the scanner reads. */
module JsonStrings {
  import opened GoStrings
  import opened Json
  import opened JsonLaws

  /** A character of a string as it is written: itself, a letter after a backslash, or the
      four digits of a code unit. */
  datatype Piece = Plain(c: char) | Short(letter: char) | Code(digits: string)

  const SHORT := map['"' := '"', '\\' := '\\', '/' := '/', 'b' := '\U{8}', 'f' := '\U{C}', 'n' := '\n', 'r' := '\r', 't' := '\t']

  predicate IsHex(c: char) {
    '0' <= c <= '9' || 'a' <= c <= 'f' || 'A' <= c <= 'F'
  }

  predicate IsPiece(p: Piece) {
    match p
    case Plain(c) => c >= ' ' && c != '"' && c != '\\'
    case Short(letter) => letter in SHORT
    case Code(digits) => |digits| == 4 && forall k | 0 <= k < 4 :: IsHex(digits[k])
  }

  predicate ArePieces(pieces: seq<Piece>) {
    forall k | 0 <= k < |pieces| :: IsPiece(pieces[k])
  }

  function Written(p: Piece): string {
    match p
    case Plain(c) => [c]
    case Short(letter) => ['\\', letter]
    case Code(digits) => "\\u" + digits
  }

  function Spell(pieces: seq<Piece>): string {
    if pieces == [] then "" else Written(pieces[0]) + Spell(pieces[1..])
  }

  function DigitOf(c: char): (n: nat)
    requires IsHex(c)
    ensures n < 16
  {
    if c <= '9' then (c - '0') as nat else if c <= 'F' then 10 + (c - 'A') as nat else 10 + (c - 'a') as nat
  }

  function UnitOf(digits: string): nat
    requires IsPiece(Code(digits))
    ensures UnitOf(digits) < 0x10000
  {
    DigitOf(digits[0]) * 0x1000 + DigitOf(digits[1]) * 0x100 + DigitOf(digits[2]) * 0x10 + DigitOf(digits[3])
  }

  /** Two code units that stand for one character. */
  predicate IsPair(a: Piece, b: Piece)
    requires IsPiece(a) && IsPiece(b)
  {
    a.Code? && b.Code? && 0xD800 <= UnitOf(a.digits) < 0xDC00 <= UnitOf(b.digits) < 0xE000
  }

  function CharOf(p: Piece): char
    requires IsPiece(p)
  {
    match p
    case Plain(c) => c
    case Short(letter) => SHORT[letter]
    case Code(digits) => if 0xD800 <= UnitOf(digits) < 0xE000 then REPLACEMENT else UnitOf(digits) as char
  }

  function CharOfPair(a: Piece, b: Piece): char
    requires IsPiece(a) && IsPiece(b) && IsPair(a, b)
  {
    (0x10000 + (UnitOf(a.digits) - 0xD800) * 0x400 + (UnitOf(b.digits) - 0xDC00)) as char
  }

  /** The string that the pieces stand for. */
  function Meaning(pieces: seq<Piece>): string
    requires ArePieces(pieces)
  {
    if pieces == [] then ""
    else if |pieces| > 1 && IsPair(pieces[0], pieces[1]) then [CharOfPair(pieces[0], pieces[1])] + Meaning(pieces[2..])
    else [CharOf(pieces[0])] + Meaning(pieces[1..])
  }

  lemma HexIsDigit(c: char)
    ensures HexValue(c) == if IsHex(c) then Some(DigitOf(c)) else None
  {
  }

  lemma Hex4IsUnit(t: string, i: nat)
    ensures Hex4(t, i).Some? <==> i + 4 <= |t| && IsPiece(Code(t[i..i + 4]))
    ensures Hex4(t, i).Some? ==> Hex4(t, i).value == UnitOf(t[i..i + 4])
  {
    hide HexValue, IsHex, DigitOf;
    if i + 4 <= |t| {
      var digits := t[i..i + 4];
      HexIsDigit(t[i]);
      HexIsDigit(t[i + 1]);
      HexIsDigit(t[i + 2]);
      HexIsDigit(t[i + 3]);
      assert digits[0] == t[i] && digits[1] == t[i + 1] && digits[2] == t[i + 2] && digits[3] == t[i + 3];
    }
  }

  lemma PieceAt(t: string, i: nat, pieces: seq<Piece>)
    requires Reads(t, i, Spell(pieces) + "\"")
    ensures if pieces == [] then i < |t| && t[i] == '"'
            else
              var w := Written(pieces[0]);
              && Reads(t, i, w) && Reads(t, i + |w|, Spell(pieces[1..]) + "\"")
              && i + |w| < |t| && forall k | 0 <= k < |w| :: t[i + k] == w[k]
  {
    hide Spell, Reads, Written;
    SpellStep(pieces);
    if pieces == [] {
      ReadsChar(t, i, "\"", 0);
    } else {
      var w, rest := Written(pieces[0]), Spell(pieces[1..]) + "\"";
      ReadsParts(t, i, w, rest);
      ReadsFits(t, i + |w|, rest);
      forall k | 0 <= k < |w| ensures t[i + k] == w[k] {
        ReadsChar(t, i, w, k);
      }
    }
  }

  lemma SpellStep(pieces: seq<Piece>)
    ensures Spell(pieces) + "\"" == if pieces == [] then "\"" else Written(pieces[0]) + (Spell(pieces[1..]) + "\"")
  {
    hide Written;
  }

  lemma ReadsFits(t: string, i: nat, x: string)
    requires Reads(t, i, x)
    ensures i + |x| <= |t|
  {
  }

  lemma CodeAt(t: string, i: nat, digits: string)
    requires IsPiece(Code(digits)) && Reads(t, i, Written(Code(digits)))
    ensures i + 6 <= |t| && t[i] == '\\' && t[i + 1] == 'u' && Hex4(t, i + 2) == Some(UnitOf(digits))
  {
    hide Hex4;
    var w := Written(Code(digits));
    assert w == ['\\', 'u'] + digits;
    ReadsParts(t, i, ['\\', 'u'], digits);
    ReadsChar(t, i, ['\\', 'u'], 0);
    ReadsChar(t, i, ['\\', 'u'], 1);
    Hex4IsUnit(t, i + 2);
  }

  lemma LowAt(t: string, i: nat, pieces: seq<Piece>)
    requires Reads(t, i, Spell(pieces) + "\"") && ArePieces(pieces)
    ensures LowSurrogate(t, i) ==
            if pieces != [] && pieces[0].Code? && 0xDC00 <= UnitOf(pieces[0].digits) < 0xE000
            then Some(UnitOf(pieces[0].digits) - 0xDC00) else None
  {
    hide Hex4, Spell, UnitOf, Reads;
    PieceAt(t, i, pieces);
    if pieces != [] {
      var w := Written(pieces[0]);
      assert t[i + 0] == w[0];
      match pieces[0]
      case Plain(_) =>
      case Short(_) =>
        assert t[i + 1] == w[1];
      case Code(digits) =>
        CodeAt(t, i, digits);
    }
  }

  lemma ShortIsUnescape(c: char)
    ensures Unescape(c) == if c in SHORT then Some(SHORT[c]) else None
    ensures 'u' !in SHORT
  {
  }

  lemma EscapedUnit(t: string, i: nat)
    requires i + 1 < |t| && t[i] == '\\' && t[i + 1] in SHORT
    ensures NextUnit(t, i) == Some(Unit(SHORT[t[i + 1]], 2))
  {
    hide Unescape, Hex4, LowSurrogate;
    ShortIsUnescape(t[i + 1]);
  }

  lemma CodeUnit(t: string, i: nat, u: nat)
    requires i + 6 <= |t| && t[i] == '\\' && t[i + 1] == 'u' && Hex4(t, i + 2) == Some(u)
    ensures var low := LowSurrogate(t, i + 6);
            NextUnit(t, i) == Some(
              if !(0xD800 <= u < 0xE000) then Unit(u as char, 6)
              else if low.Some? && u < 0xDC00 then Unit((0x10000 + (u - 0xD800) * 0x400 + low.value) as char, 12)
              else Unit(REPLACEMENT, 6))
  {
    hide Hex4, LowSurrogate;
  }

  /** What the scanner takes for one character. */
  lemma UnitAt(t: string, i: nat, pieces: seq<Piece>)
    requires pieces != [] && ArePieces(pieces) && Reads(t, i, Spell(pieces) + "\"")
    ensures i < |t| && t[i] != '"'
    ensures NextUnit(t, i) ==
            if |pieces| > 1 && IsPair(pieces[0], pieces[1]) then Some(Unit(CharOfPair(pieces[0], pieces[1]), 12))
            else Some(Unit(CharOf(pieces[0]), |Written(pieces[0])|))
  {
    hide Hex4, Spell, UnitOf, LowSurrogate, Reads, Unescape;
    PieceAt(t, i, pieces);
    var w := Written(pieces[0]);
    assert t[i + 0] == w[0];
    match pieces[0]
    case Plain(_) =>
    case Short(letter) =>
      hide NextUnit;
      assert t[i + 1] == w[1];
      EscapedUnit(t, i);
    case Code(digits) =>
      hide NextUnit;
      CodeAt(t, i, digits);
      LowAt(t, i + 6, pieces[1..]);
      CodeUnit(t, i, UnitOf(digits));
  }

  /** A string literal is read as what its pieces stand for, however they are written. */
  lemma {:induction false} UnquoteSpelled(t: string, i: nat, pieces: seq<Piece>)
    requires ArePieces(pieces) && Reads(t, i, Spell(pieces) + "\"")
    ensures Unquote(t, i) == Some(Text(Meaning(pieces), i + |Spell(pieces)| + 1))
    decreases |pieces|
  {
    hide NextUnit, IsPair, CharOf, CharOfPair, Reads, Unquote, Spell, Meaning, ArePieces, Written, Prefixed, IsPiece;
    PieceAt(t, i, pieces);
    if pieces == [] {
      UnquoteClosing(t, i);
      NothingMeant();
    } else {
      TailIsPieces(pieces);
      UnitAt(t, i, pieces);
      UnquoteStep(t, i);
      MeaningStep(pieces);
      var k := i + |Written(pieces[0])|;
      if |pieces| > 1 && IsPair(pieces[0], pieces[1]) {
        TailIsPieces(pieces[1..]);
        PairIsLong(pieces[0], pieces[1]);
        PieceAt(t, k, pieces[1..]);
        MeaningStep(pieces[1..]);
        assert pieces[1..][1..] == pieces[2..];
        UnquoteSpelled(t, i + 12, pieces[2..]);
      } else {
        UnquoteSpelled(t, k, pieces[1..]);
      }
    }
  }

  lemma TailIsPieces(pieces: seq<Piece>)
    requires pieces != [] && ArePieces(pieces)
    ensures ArePieces(pieces[1..]) && IsPiece(pieces[0])
  {
    hide IsPiece;
  }

  lemma NothingMeant()
    ensures Spell([]) == "" && Meaning([]) == ""
  {
  }

  lemma MeaningStep(pieces: seq<Piece>)
    requires pieces != [] && ArePieces(pieces)
    ensures ArePieces(pieces[1..]) && (|pieces| > 1 ==> ArePieces(pieces[2..]) && IsPiece(pieces[1])) && IsPiece(pieces[0])
    ensures |Spell(pieces)| == |Written(pieces[0])| + |Spell(pieces[1..])|
    ensures Meaning(pieces) ==
            if |pieces| > 1 && IsPair(pieces[0], pieces[1]) then [CharOfPair(pieces[0], pieces[1])] + Meaning(pieces[2..])
            else [CharOf(pieces[0])] + Meaning(pieces[1..])
  {
    hide IsPair, CharOf, CharOfPair, IsPiece;
  }

  lemma UnquoteStep(t: string, i: nat)
    requires i < |t| && t[i] != '"' && NextUnit(t, i).Some?
    ensures var u := NextUnit(t, i).value; Unquote(t, i) == Prefixed(u.value, Unquote(t, i + u.size))
  {
    hide NextUnit;
  }

  lemma PairIsLong(a: Piece, b: Piece)
    requires IsPiece(a) && IsPiece(b) && IsPair(a, b)
    ensures |Written(a)| == |Written(b)| == 6
  {
  }

  /** The piece that a character was written as, or the first of two. */
  lemma FirstPiece(t: string, i: nat) returns (p: Piece)
    requires i < |t| && t[i] != '"' && NextUnit(t, i).Some?
    ensures IsPiece(p) && Reads(t, i, Written(p)) && |Written(p)| <= NextUnit(t, i).value.size
    ensures NextUnit(t, i).value.size == |Written(p)| || (p.Code? && NextUnit(t, i).value.size == 12 && LowSurrogate(t, i + 6).Some?)
  {
    hide Hex4, LowSurrogate;
    if t[i] != '\\' {
      p := Plain(t[i]);
    } else if t[i + 1] != 'u' {
      p := Short(t[i + 1]);
      assert t[i..i + 2] == ['\\', t[i + 1]];
    } else {
      Hex4IsUnit(t, i + 2);
      var digits := t[i + 2..i + 6];
      p := Code(digits);
      assert t[i..i + 6] == ['\\', 'u'] + digits;
    }
  }

  /** Every string literal that is read is written so. */
  lemma {:induction false} UnquoteOnlySpelled(t: string, i: nat) returns (pieces: seq<Piece>)
    requires i <= |t| && Unquote(t, i).Some?
    ensures ArePieces(pieces) && Reads(t, i, Spell(pieces) + "\"")
    ensures Unquote(t, i) == Some(Text(Meaning(pieces), i + |Spell(pieces)| + 1))
    decreases |t| - i
  {
    hide NextUnit, Meaning, IsPiece, LowSurrogate, Spell, Reads, Written;
    pieces := [];
    if t[i] == '"' {
      NothingSpelled(t, i);
    } else {
      var u := NextUnit(t, i).value;
      var p := FirstPiece(t, i);
      var rest := UnquoteOnlySpelled(t, i + u.size);
      if u.size != |Written(p)| {
        var q := LowPiece(t, i + 6);
        CodeIsLong(p);
        SpellMore(t, i + 6, q, rest);
        rest := [q] + rest;
      }
      SpellMore(t, i, p, rest);
      pieces := [p] + rest;
    }
    UnquoteSpelled(t, i, pieces);
  }

  lemma NothingSpelled(t: string, i: nat)
    requires i < |t| && t[i] == '"'
    ensures Reads(t, i, Spell([]) + "\"")
  {
    assert Spell([]) + "\"" == "\"";
    assert t[i..i + 1] == "\"";
  }

  lemma CodeIsLong(p: Piece)
    requires IsPiece(p) && p.Code?
    ensures |Written(p)| == 6
  {
  }

  lemma LowPiece(t: string, i: nat) returns (q: Piece)
    requires LowSurrogate(t, i).Some?
    ensures IsPiece(q) && Reads(t, i, Written(q)) && |Written(q)| == 6
  {
    hide Hex4;
    Hex4IsUnit(t, i + 2);
    var digits := t[i + 2..i + 6];
    q := Code(digits);
    assert t[i..i + 6] == ['\\', 'u'] + digits;
  }

  lemma SpellMore(t: string, i: nat, p: Piece, rest: seq<Piece>)
    requires Reads(t, i, Written(p)) && Reads(t, i + |Written(p)|, Spell(rest) + "\"")
    ensures Reads(t, i, Spell([p] + rest) + "\"")
  {
    hide Reads, Written;
    assert ([p] + rest)[1..] == rest;
    assert Spell([p] + rest) + "\"" == Written(p) + (Spell(rest) + "\"");
    ReadsParts(t, i, Written(p), Spell(rest) + "\"");
  }
}
