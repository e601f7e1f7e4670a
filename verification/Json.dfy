/** The part of encoding/json that the tool-call protocol and the cookie import
    depend on: which texts are valid (RFC 8259 with Go's nesting limit), how a string
    is quoted and unquoted, and which member of an object lands in a struct field.

    Every scanner takes a text and a position and returns the position after the
    construct it recognises there. */
module Json {
  import opened GoStrings

  /** Go refuses texts nested deeper than this. */
  const MAX_DEPTH: nat := 10000

  predicate IsWs(c: char) {
    c == ' ' || c == '\t' || c == '\n' || c == '\r'
  }

  function SkipWs(s: string, i: nat): (j: nat)
    requires i <= |s|
    ensures i <= j <= |s|
    decreases |s| - i
  {
    if i < |s| && IsWs(s[i]) then SkipWs(s, i + 1) else i
  }

  // ---- strings ----

  function HexValue(c: char): (r: Option<nat>)
    ensures r.Some? ==> r.value < 16
  {
    if '0' <= c <= '9' then Some((c - '0') as nat)
    else if 'a' <= c <= 'f' then Some(10 + (c - 'a') as nat)
    else if 'A' <= c <= 'F' then Some(10 + (c - 'A') as nat)
    else None
  }

  /** The code unit of the four hexadecimal digits at `i`. */
  function Hex4(s: string, i: nat): (r: Option<nat>)
    ensures r.Some? ==> i + 4 <= |s| && r.value < 0x10000
  {
    if i + 4 > |s| then None else
      match (HexValue(s[i]), HexValue(s[i + 1]), HexValue(s[i + 2]), HexValue(s[i + 3]))
      case (Some(a), Some(b), Some(c), Some(d)) => Some(((a * 16 + b) * 16 + c) * 16 + d)
      case _ => None
  }

  /** The character of a two-character escape. */
  function Unescape(c: char): Option<char> {
    match c
    case '"' => Some('"')
    case '\\' => Some('\\')
    case '/' => Some('/')
    case 'b' => Some('\U{8}')
    case 'f' => Some('\U{C}')
    case 'n' => Some('\n')
    case 'r' => Some('\r')
    case 't' => Some('\t')
    case _ => None
  }

  predicate IsSurrogate(u: nat) {
    0xD800 <= u < 0xE000
  }

  const REPLACEMENT := '\U{FFFD}'

  datatype Text = Text(value: string, end: nat)

  function Prefixed(c: char, r: Option<Text>): (q: Option<Text>)
    ensures q.Some? <==> r.Some?
    ensures q.Some? ==> q.value == Text([c] + r.value.value, r.value.end)
  {
    match r
    case None => None
    case Some(t) => Some(Text([c] + t.value, t.end))
  }

  /** A character of a string literal and the number of places it takes up. */
  datatype Unit = Unit(value: char, size: nat)

  function NextUnit(s: string, i: nat): (r: Option<Unit>)
    requires i < |s|
    ensures r.Some? ==> 0 < r.value.size && i + r.value.size <= |s|
  {
    if s[i] < ' ' then None
    else if s[i] != '\\' then Some(Unit(s[i], 1))
    else if i + 1 == |s| then None
    else if s[i + 1] != 'u' then
      match Unescape(s[i + 1])
      case None => None
      case Some(c) => Some(Unit(c, 2))
    else
      match Hex4(s, i + 2)
      case None => None
      case Some(u) =>
        if !IsSurrogate(u) then Some(Unit(u as char, 6))
        else
          match LowSurrogate(s, i + 6)
          case Some(v) =>
            if u < 0xDC00 then Some(Unit((0x10000 + (u - 0xD800) * 0x400 + v) as char, 12)) else Some(Unit(REPLACEMENT, 6))
          case None => Some(Unit(REPLACEMENT, 6))
  }

  /** The contents of the string literal whose opening quote precedes `i`. */
  function Unquote(s: string, i: nat): (r: Option<Text>)
    requires i <= |s|
    ensures r.Some? ==> i < r.value.end <= |s|
    decreases |s| - i
  {
    if i == |s| then None
    else if s[i] == '"' then Some(Text("", i + 1))
    else
      match NextUnit(s, i)
      case None => None
      case Some(u) => Prefixed(u.value, Unquote(s, i + u.size))
  }

  /** The low ten bits of an escaped low surrogate at `i`. */
  function LowSurrogate(s: string, i: nat): (r: Option<nat>)
    ensures r.Some? ==> i + 6 <= |s| && r.value < 0x400
  {
    if i + 6 <= |s| && s[i] == '\\' && s[i + 1] == 'u' then
      match Hex4(s, i + 2)
      case Some(v) => if 0xDC00 <= v < 0xE000 then Some(v - 0xDC00) else None
      case None => None
    else None
  }

  // ---- numbers and literals ----

  predicate IsDigit(c: char) {
    '0' <= c <= '9'
  }

  function Digits(s: string, i: nat): (j: nat)
    requires i <= |s|
    ensures i <= j <= |s|
    decreases |s| - i
  {
    if i < |s| && IsDigit(s[i]) then Digits(s, i + 1) else i
  }

  function ScanNumber(s: string, i: nat): (r: Option<nat>)
    requires i <= |s|
    ensures r.Some? ==> i < r.value <= |s|
  {
    var a := if i < |s| && s[i] == '-' then i + 1 else i;
    if a < |s| && s[a] == '0' then ScanFraction(s, a + 1)
    else if a < |s| && IsDigit(s[a]) then ScanFraction(s, Digits(s, a + 1))
    else None
  }

  function ScanFraction(s: string, i: nat): (r: Option<nat>)
    requires i <= |s|
    ensures r.Some? ==> i <= r.value <= |s|
  {
    if i < |s| && s[i] == '.' then
      if i + 1 < |s| && IsDigit(s[i + 1]) then ScanExponent(s, Digits(s, i + 2)) else None
    else ScanExponent(s, i)
  }

  function ScanExponent(s: string, i: nat): (r: Option<nat>)
    requires i <= |s|
    ensures r.Some? ==> i <= r.value <= |s|
  {
    if i < |s| && (s[i] == 'e' || s[i] == 'E') then
      var k := if i + 1 < |s| && (s[i + 1] == '+' || s[i + 1] == '-') then i + 2 else i + 1;
      if k < |s| && IsDigit(s[k]) then Some(Digits(s, k + 1)) else None
    else Some(i)
  }

  function ScanWord(s: string, i: nat, word: string): (r: Option<nat>)
    ensures r.Some? ==> r.value == i + |word| <= |s|
  {
    if i + |word| <= |s| && s[i..i + |word|] == word then Some(i + |word|) else None
  }

  // ---- values ----

  /** A member of an object: its unquoted key and the extent of its value. */
  datatype Field = Field(key: string, start: nat, end: nat)

  datatype Object = Object(fields: seq<Field>, end: nat)

  predicate InText(s: string, fields: seq<Field>) {
    forall k | 0 <= k < |fields| :: fields[k].start < fields[k].end <= |s|
  }

  /** The end of the value that starts at `i`, nested at most `depth` deep. */
  function ScanValue(s: string, i: nat, depth: nat): (r: Option<nat>)
    requires i <= |s|
    ensures r.Some? ==> i < r.value <= |s|
    decreases |s| - i, 0
  {
    if i == |s| then None
    else if s[i] == '{' then
      if depth == 0 then None else
        match ScanObject(s, i + 1, depth - 1)
        case None => None
        case Some(o) => Some(o.end)
    else if s[i] == '[' then
      if depth == 0 then None else
        var k := SkipWs(s, i + 1);
        if k < |s| && s[k] == ']' then Some(k + 1) else ScanElements(s, k, depth - 1)
    else if s[i] == '"' then
      match Unquote(s, i + 1)
      case None => None
      case Some(t) => Some(t.end)
    else if s[i] == 't' then ScanWord(s, i, "true")
    else if s[i] == 'f' then ScanWord(s, i, "false")
    else if s[i] == 'n' then ScanWord(s, i, "null")
    else ScanNumber(s, i)
  }

  /** The members of the object whose opening brace precedes `i`. */
  function ScanObject(s: string, i: nat, depth: nat): (r: Option<Object>)
    requires i <= |s|
    ensures r.Some? ==> i < r.value.end <= |s| && InText(s, r.value.fields)
    decreases |s| - i, 2
  {
    var k := SkipWs(s, i);
    if k < |s| && s[k] == '}' then Some(Object([], k + 1)) else ScanMembers(s, k, depth)
  }

  function ScanMembers(s: string, i: nat, depth: nat): (r: Option<Object>)
    requires i <= |s|
    ensures r.Some? ==> i < r.value.end <= |s| && InText(s, r.value.fields)
    decreases |s| - i, 1
  {
    if i == |s| || s[i] != '"' then None else
      match Unquote(s, i + 1)
      case None => None
      case Some(key) =>
        var k := SkipWs(s, key.end);
        if k == |s| || s[k] != ':' then None else
          var start := SkipWs(s, k + 1);
          match ScanValue(s, start, depth)
          case None => None
          case Some(end) =>
            var n := SkipWs(s, end);
            var field := Field(key.value, start, end);
            if n < |s| && s[n] == '}' then Some(Object([field], n + 1))
            else if n < |s| && s[n] == ',' then
              match ScanMembers(s, SkipWs(s, n + 1), depth)
              case None => None
              case Some(o) => Some(Object([field] + o.fields, o.end))
            else None
  }

  function ScanElements(s: string, i: nat, depth: nat): (r: Option<nat>)
    requires i <= |s|
    ensures r.Some? ==> i < r.value <= |s|
    decreases |s| - i, 1
  {
    match ScanValue(s, i, depth)
    case None => None
    case Some(end) =>
      var n := SkipWs(s, end);
      if n < |s| && s[n] == ']' then Some(n + 1)
      else if n < |s| && s[n] == ',' then ScanElements(s, SkipWs(s, n + 1), depth)
      else None
  }

  /** One value, with optional white space around it, nested at most `depth` deep. */
  predicate ValidWithin(s: string, depth: nat) {
    var r := ScanValue(s, SkipWs(s, 0), depth);
    r.Some? && SkipWs(s, r.value) == |s|
  }

  /** `json.Valid` */
  predicate Valid(s: string) {
    ValidWithin(s, MAX_DEPTH)
  }

  // ---- json.Marshal of a string ----

  function HexDigit(n: nat): char
    requires n < 16
  {
    if n < 10 then '0' + n as char else 'a' + (n - 10) as char
  }

  function EscapeChar(c: char): (e: string)
    ensures e != ""
  {
    if c == '"' || c == '\\' then ['\\', c]
    else if c == '\U{8}' then "\\b"
    else if c == '\U{C}' then "\\f"
    else if c == '\n' then "\\n"
    else if c == '\r' then "\\r"
    else if c == '\t' then "\\t"
    else if c < ' ' || c == '<' || c == '>' || c == '&' then
      "\\u00" + [HexDigit(c as nat / 16), HexDigit(c as nat % 16)]
    else if c == '\U{2028}' then "\\u2028"
    else if c == '\U{2029}' then "\\u2029"
    else [c]
  }

  function Escape(s: string): string {
    if s == "" then "" else EscapeChar(s[0]) + Escape(s[1..])
  }

  /** mustJSONString in internal/openai/prompt.go */
  function Quote(s: string): string {
    "\"" + Escape(s) + "\""
  }

  // ---- json.Unmarshal into a struct field ----

  /** The representative Go compares member keys and field names by. */
  function FoldChar(c: char): char {
    if 'a' <= c <= 'z' then c - 'a' + 'A'
    else if c == '\U{17F}' then 'S'
    else if c == '\U{212A}' then 'K'
    else c
  }

  predicate Names(key: string, field: string) {
    |key| == |field| && forall i | 0 <= i < |key| :: FoldChar(key[i]) == FoldChar(field[i])
  }

  /** The members of the object that makes up the text, if it is one. */
  function Members(s: string): (r: Option<seq<Field>>)
    requires Valid(s)
    ensures r.Some? ==> InText(s, r.value)
  {
    var i := SkipWs(s, 0);
    if s[i] != '{' then None else
      match ScanObject(s, i + 1, MAX_DEPTH - 1)
      case None => None
      case Some(o) => Some(o.fields)
  }
}
