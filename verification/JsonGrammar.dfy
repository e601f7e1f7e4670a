/** The grammar of JSON (RFC 8259, sections 2 to 5) as trees that can be written down with any
    white space: what the scanner takes for a value is exactly what can be so written. */
module JsonGrammar {
  import opened GoStrings
  import opened Json
  import opened JsonLaws
  import opened JsonStrings
  import opened JsonNumbers

  // ---- values ----

  /** A value as it is written, with the white space that stands between its parts. */
  datatype Tree =
    | Word(text: string)
    | Number(n: Numeral)
    | String(pieces: seq<Piece>)
    | EmptyArray(space: string)
    | Array(items: Items)
    | EmptyObject(space: string)
    | Record(entries: Entries)

  datatype Items = Items(before: string, value: Tree, after: string, more: Option<Items>)

  datatype Entries = Entries(before: string, key: seq<Piece>, mid: string, lead: string, value: Tree, after: string,
                             more: Option<Entries>)

  predicate AllWs(w: string) {
    forall k | 0 <= k < |w| :: IsWs(w[k])
  }

  predicate IsTree(v: Tree) {
    match v
    case Word(text) => text == "true" || text == "false" || text == "null"
    case Number(n) => IsNumeral(n)
    case String(pieces) => ArePieces(pieces)
    case EmptyArray(space) => AllWs(space)
    case Array(items) => AreItems(items)
    case EmptyObject(space) => AllWs(space)
    case Record(entries) => AreEntries(entries)
  }

  predicate AreItems(x: Items) {
    AllWs(x.before) && IsTree(x.value) && AllWs(x.after) && (x.more.Some? ==> AreItems(x.more.value))
  }

  predicate AreEntries(x: Entries) {
    && AllWs(x.before) && ArePieces(x.key) && AllWs(x.mid) && AllWs(x.lead) && IsTree(x.value) && AllWs(x.after)
    && (x.more.Some? ==> AreEntries(x.more.value))
  }

  function Show(v: Tree): string {
    match v
    case Word(text) => text
    case Number(n) => Figures(n)
    case String(pieces) => "\"" + (Spell(pieces) + "\"")
    case EmptyArray(space) => "[" + (space + "]")
    case Array(items) => "[" + ShowItems(items)
    case EmptyObject(space) => "{" + (space + "}")
    case Record(entries) => "{" + ShowEntries(entries)
  }

  /** The items up to the closing bracket. */
  function ShowItems(x: Items): string {
    x.before + (Show(x.value) + (x.after + (Mark(x.more.None?, "]") + if x.more.None? then "" else ShowItems(x.more.value))))
  }

  /** The entries up to the closing brace. */
  function ShowEntries(x: Entries): string {
    ShowKey(x) + (x.lead + (Show(x.value) + (x.after
    + (Mark(x.more.None?, "}") + if x.more.None? then "" else ShowEntries(x.more.value)))))
  }

  function ShowKey(x: Entries): string {
    x.before + ("\"" + ((Spell(x.key) + "\"") + (x.mid + ":")))
  }

  function Mark(last: bool, end: string): string {
    if last then end else ","
  }

  function Deeper(a: nat, b: nat): nat {
    if a < b then b else a
  }

  /** How deep arrays and objects are nested. */
  function Depth(v: Tree): nat {
    match v
    case EmptyArray(_) => 1
    case Array(items) => 1 + DepthOfItems(items)
    case EmptyObject(_) => 1
    case Record(entries) => 1 + DepthOfEntries(entries)
    case _ => 0
  }

  function DepthOfItems(x: Items): nat {
    Deeper(Depth(x.value), if x.more.None? then 0 else DepthOfItems(x.more.value))
  }

  function DepthOfEntries(x: Entries): nat {
    Deeper(Depth(x.value), if x.more.None? then 0 else DepthOfEntries(x.more.value))
  }

  /** The fields of the entries that are written from position `i` on. */
  function FieldsOf(x: Entries, i: nat): seq<Field>
    requires AreEntries(x)
  {
    var start := i + |ShowKey(x)| + |x.lead|;
    var end := start + |Show(x.value)|;
    [Field(Meaning(x.key), start, end)]
    + if x.more.None? then [] else FieldsOf(x.more.value, end + |x.after| + 1)
  }

  // ---- what is written is read ----

  lemma StartsWell(v: Tree)
    requires IsTree(v)
    ensures var x := Show(v);
            x != "" && !IsWs(x[0]) && x[0] != ']' && x[0] != '}'
  {
    if v.Number? {
      assert Figures(v.n)[0] == (if v.n.minus == "" then v.n.whole[0] else v.n.minus[0]);
    }
  }

  lemma SpaceRead(t: string, i: nat, w: string)
    requires Reads(t, i, w) && AllWs(w) && i + |w| < |t| && !IsWs(t[i + |w|])
    ensures SkipWs(t, i) == i + |w|
  {
    forall k | i <= k < i + |w| ensures IsWs(t[k]) {
      ReadsChar(t, i, w, k - i);
    }
    SkipWsTo(t, i, i + |w|);
  }

  /** White space and a mark. */
  lemma MarkRead(t: string, i: nat, w: string, mark: string, rest: string)
    requires Reads(t, i, w + (mark + rest)) && AllWs(w) && |mark| == 1 && !IsWs(mark[0])
    ensures SkipWs(t, i) == i + |w| < |t| && t[i + |w|] == mark[0] && Reads(t, i + |w| + 1, rest)
    ensures mark == "," || mark == "]" || mark == "}" ==> Breaks(t, i)
  {
    ReadsParts(t, i, w, mark + rest);
    ReadsParts(t, i + |w|, mark, rest);
    ReadsChar(t, i + |w|, mark, 0);
    SpaceRead(t, i, w);
    if w != "" {
      ReadsChar(t, i, w, 0);
    }
  }

  lemma WordRead(t: string, i: nat, word: string, depth: nat)
    requires Reads(t, i, word) && (word == "true" || word == "false" || word == "null")
    ensures ScanValue(t, i, depth) == Some(i + |word|)
  {
    ReadsChar(t, i, word, 0);
  }

  lemma FirstMark(t: string, i: nat, mark: string, rest: string)
    requires Reads(t, i, mark + rest) && |mark| == 1
    ensures i < |t| && t[i] == mark[0] && Reads(t, i + 1, rest)
  {
    ReadsParts(t, i, mark, rest);
    ReadsChar(t, i, mark, 0);
  }

  lemma ScanArray(t: string, i: nat, depth: nat)
    requires i < |t| && t[i] == '['
    ensures ScanValue(t, i, depth) ==
            if depth == 0 then None else
              var k := SkipWs(t, i + 1);
              if k < |t| && t[k] == ']' then Some(k + 1) else ScanElements(t, k, depth - 1)
  {
    hide SkipWs, ScanElements;
  }

  lemma ScanRecord(t: string, i: nat, depth: nat)
    requires i < |t| && t[i] == '{'
    ensures ScanValue(t, i, depth) ==
            if depth == 0 then None else
              var k := SkipWs(t, i + 1);
              if k < |t| && t[k] == '}' then Some(k + 1)
              else
                var o := ScanMembers(t, k, depth - 1);
                if o.Some? then Some(o.value.end) else None
  {
    hide SkipWs, ScanMembers;
  }

  lemma ScanSimple(t: string, i: nat, depth: nat)
    requires i < |t| && t[i] != '{' && t[i] != '['
    ensures t[i] == '"' ==> ScanValue(t, i, depth) == (if Unquote(t, i + 1).Some? then Some(Unquote(t, i + 1).value.end) else None)
    ensures t[i] != '"' && t[i] != 't' && t[i] != 'f' && t[i] != 'n' ==> ScanValue(t, i, depth) == ScanNumber(t, i)
  {
    hide Unquote, ScanNumber, ScanWord;
  }

  lemma EmptyRead(t: string, i: nat, open: string, space: string, close: string)
    requires Reads(t, i, open + (space + close)) && |open| == |close| == 1 && AllWs(space) && !IsWs(close[0])
    ensures i < |t| && t[i] == open[0]
    ensures var k := i + 1 + |space|; SkipWs(t, i + 1) == k < |t| && t[k] == close[0]
  {
    hide SkipWs, Reads, AllWs;
    FirstMark(t, i, open, space + close);
    assert space + (close + "") == space + close;
    MarkRead(t, i + 1, space, close, "");
  }

  lemma StringRead(t: string, i: nat, pieces: seq<Piece>, depth: nat)
    requires ArePieces(pieces) && Reads(t, i, "\"" + (Spell(pieces) + "\""))
    ensures ScanValue(t, i, depth) == Some(i + |Spell(pieces)| + 2)
  {
    hide ScanValue, Unquote, Spell, Meaning, Reads, ArePieces;
    FirstMark(t, i, "\"", Spell(pieces) + "\"");
    UnquoteSpelled(t, i + 1, pieces);
    ScanSimple(t, i, depth);
  }

  /** A value is read up to its end, however it is written. */
  lemma {:induction false} ShownIsRead(t: string, i: nat, v: Tree, depth: nat)
    requires IsTree(v) && Depth(v) <= depth && Reads(t, i, Show(v)) && Breaks(t, i + |Show(v)|)
    ensures ScanValue(t, i, depth) == Some(i + |Show(v)|)
    decreases v, 0
  {
    hide SkipWs, Unquote, ScanNumber, ScanMembers, ScanElements, ScanValue, Reads, Figures, Spell, IsNumeral, ArePieces;
    hide ShowItems, ShowEntries, AreItems, AreEntries, AllWs, Meaning;
    match v
    case Word(text) =>
      WordRead(t, i, text, depth);
    case Number(n) =>
      NumberRead(t, i, n);
      ScanSimple(t, i, depth);
    case String(pieces) =>
      StringRead(t, i, pieces, depth);
    case EmptyArray(space) =>
      EmptyRead(t, i, "[", space, "]");
      ScanArray(t, i, depth);
    case Array(items) =>
      FirstMark(t, i, "[", ShowItems(items));
      ItemsRead(t, i + 1, items, depth - 1);
      ScanArray(t, i, depth);
    case EmptyObject(space) =>
      EmptyRead(t, i, "{", space, "}");
      ScanRecord(t, i, depth);
    case Record(entries) =>
      FirstMark(t, i, "{", ShowEntries(entries));
      EntriesRead(t, i + 1, entries, depth - 1);
      ScanRecord(t, i, depth);
  }

  /** A value between white space, up to the mark after it. */
  lemma {:induction false} ValueRead(t: string, i: nat, before: string, v: Tree, after: string, mark: string, rest: string,
                                     depth: nat)
    requires AllWs(before) && IsTree(v) && Depth(v) <= depth && AllWs(after)
    requires mark == "," || mark == "]" || mark == "}"
    requires Reads(t, i, before + (Show(v) + (after + (mark + rest))))
    ensures var start := i + |before|;
            var end := start + |Show(v)|;
            && SkipWs(t, i) == start && start < end && end + |after| < |t|
            && t[start] != ']' && t[start] != '}'
            && ScanValue(t, start, depth) == Some(end)
            && SkipWs(t, end) == end + |after| && t[end + |after|] == mark[0] && Reads(t, end + |after| + 1, rest)
    decreases v, 1
  {
    hide ScanValue, SkipWs, Show, Reads, IsTree;
    var start := i + |before|;
    var end := start + |Show(v)|;
    ReadsParts(t, i, before, Show(v) + (after + (mark + rest)));
    ReadsParts(t, start, Show(v), after + (mark + rest));
    MarkRead(t, end, after, mark, rest);
    StartsWell(v);
    ReadsChar(t, start, Show(v), 0);
    SpaceRead(t, i, before);
    ShownIsRead(t, start, v, depth);
  }

  lemma {:induction false} ItemsRead(t: string, i: nat, x: Items, depth: nat)
    requires AreItems(x) && DepthOfItems(x) <= depth && Reads(t, i, ShowItems(x))
    ensures var k := SkipWs(t, i);
            k < |t| && t[k] != ']' && ScanElements(t, k, depth) == Some(i + |ShowItems(x)|)
    decreases x, 0
  {
    hide SkipWs, ScanValue, Show, Reads, AllWs, IsTree, Depth;
    var rest := if x.more.None? then "" else ShowItems(x.more.value);
    ValueRead(t, i, x.before, x.value, x.after, Mark(x.more.None?, "]"), rest, depth);
    if x.more.Some? {
      ItemsRead(t, i + |x.before| + |Show(x.value)| + |x.after| + 1, x.more.value, depth);
    }
  }

  lemma KeyRead(t: string, i: nat, x: Entries)
    requires AllWs(x.before) && ArePieces(x.key) && AllWs(x.mid) && Reads(t, i, ShowKey(x))
    ensures var k := i + |x.before|;
            var colon := i + |ShowKey(x)| - 1;
            && SkipWs(t, i) == k < colon < |t| && t[k] == '"' && t[colon] == ':'
            && Unquote(t, k + 1) == Some(Text(Meaning(x.key), colon - |x.mid|))
            && SkipWs(t, colon - |x.mid|) == colon
  {
    hide SkipWs, Unquote, Reads, Spell, ArePieces, Meaning, AllWs;
    var k := i + |x.before|;
    var key := Spell(x.key) + "\"";
    MarkRead(t, i, x.before, "\"", key + (x.mid + ":"));
    ReadsParts(t, k + 1, key, x.mid + ":");
    UnquoteSpelled(t, k + 1, x.key);
    assert x.mid + (":" + "") == x.mid + ":";
    MarkRead(t, k + 1 + |key|, x.mid, ":", "");
  }

  /** The places of the first entry. */
  function PartsOf(x: Entries, i: nat): Parts
    requires AreEntries(x)
  {
    var j := i + |ShowKey(x)|;
    var end := j + |x.lead| + |Show(x.value)|;
    Parts(Text(Meaning(x.key), if j > |x.mid| then j - 1 - |x.mid| else 0),
          if j > 0 then j - 1 else 0, j + |x.lead|, end, end + |x.after|)
  }

  lemma {:induction false} EntryRead(t: string, i: nat, x: Entries, depth: nat)
    requires AreEntries(x) && Depth(x.value) <= depth && Reads(t, i, ShowEntries(x))
    ensures var k := SkipWs(t, i);
            var p := PartsOf(x, i);
            && MemberAt(t, k, depth, p) && t[p.mark] == Mark(x.more.None?, "}")[0]
            && Reads(t, p.mark + 1, if x.more.None? then "" else ShowEntries(x.more.value))
    decreases x, 1
  {
    hide SkipWs, Unquote, ScanValue, Show, ShowKey, ShowEntries, Reads, AllWs, IsTree, Meaning, ArePieces, Depth;
    var last := x.more.None?;
    var rest := if last then "" else ShowEntries(x.more.value);
    ShowEntriesStep(x);
    ReadsParts(t, i, ShowKey(x), x.lead + (Show(x.value) + (x.after + (Mark(last, "}") + rest))));
    KeyRead(t, i, x);
    ValueRead(t, i + |ShowKey(x)|, x.lead, x.value, x.after, Mark(last, "}"), rest, depth);
  }

  lemma {:induction false} EntriesRead(t: string, i: nat, x: Entries, depth: nat)
    requires AreEntries(x) && DepthOfEntries(x) <= depth && Reads(t, i, ShowEntries(x))
    ensures var k := SkipWs(t, i);
            && k < |t| && t[k] != '}'
            && ScanMembers(t, k, depth) == Some(Object(FieldsOf(x, i), i + |ShowEntries(x)|))
    decreases x, 2
  {
    hide SkipWs, Unquote, ScanValue, ScanMembers, Show, ShowKey, ShowEntries, FieldsOf, Reads, AllWs, IsTree, Meaning, ArePieces;
    hide Depth;
    EntryRead(t, i, x, depth);
    ShowEntriesStep(x);
    var p := PartsOf(x, i);
    MembersAt(t, SkipWs(t, i), depth, p);
    FieldsStep(x, i);
    if x.more.Some? {
      EntriesRead(t, p.mark + 1, x.more.value, depth);
    }
  }

  lemma ShowEntriesStep(x: Entries)
    ensures var rest := if x.more.None? then "" else ShowEntries(x.more.value);
            var body := x.lead + (Show(x.value) + (x.after + (Mark(x.more.None?, "}") + rest)));
            && ShowEntries(x) == ShowKey(x) + body
            && |body| == |x.lead| + |Show(x.value)| + |x.after| + 1 + |rest|
  {
    hide Show, ShowKey;
  }

  lemma FieldsStep(x: Entries, i: nat)
    requires AreEntries(x)
    ensures var start := i + |ShowKey(x)| + |x.lead|;
            var end := start + |Show(x.value)|;
            var field := Field(Meaning(x.key), start, end);
            FieldsOf(x, i) == if x.more.None? then [field] else [field] + FieldsOf(x.more.value, end + |x.after| + 1)
  {
    hide Show, ShowKey, Meaning;
  }

  // ---- nothing else is read ----

  lemma {:induction false} SpaceOf(t: string, i: nat) returns (w: string)
    requires i <= |t|
    ensures AllWs(w) && Reads(t, i, w) && SkipWs(t, i) == i + |w|
    decreases |t| - i
  {
    if i < |t| && IsWs(t[i]) {
      var rest := SpaceOf(t, i + 1);
      w := [t[i]] + rest;
      ReadsItself(t, i, i + 1);
      assert t[i..i + 1] == [t[i]];
      ReadsParts(t, i, [t[i]], rest);
    } else {
      w := "";
    }
  }

  lemma MarkIs(t: string, i: nat, w: string, mark: string, rest: string)
    requires Reads(t, i, w) && |mark| == 1 && i + |w| < |t| && t[i + |w|] == mark[0] && Reads(t, i + |w| + 1, rest)
    ensures Reads(t, i, w + (mark + rest))
  {
    ReadsItself(t, i + |w|, i + |w| + 1);
    assert t[i + |w|..i + |w| + 1] == mark;
    ReadsParts(t, i + |w|, mark, rest);
    ReadsParts(t, i, w, mark + rest);
  }

  lemma NothingRead(t: string, i: nat)
    ensures i <= |t| ==> Reads(t, i, "")
  {
  }

  lemma FirstIs(t: string, i: nat, mark: string, rest: string)
    requires |mark| == 1 && i < |t| && t[i] == mark[0] && Reads(t, i + 1, rest)
    ensures Reads(t, i, mark + rest)
  {
    NothingRead(t, i);
    MarkIs(t, i, "", mark, rest);
    assert "" + (mark + rest) == mark + rest;
  }

  lemma WordOnlyRead(t: string, i: nat, depth: nat)
    requires i < |t| && (t[i] == 't' || t[i] == 'f' || t[i] == 'n') && ScanValue(t, i, depth).Some?
    ensures var word := t[i..ScanValue(t, i, depth).value];
            word == "true" || word == "false" || word == "null"
  {
  }

  /** Everything that is read as a value is written as one. */
  lemma {:induction false} OnlyShown(t: string, i: nat, depth: nat) returns (v: Tree)
    requires i <= |t| && ScanValue(t, i, depth).Some?
    ensures IsTree(v) && Depth(v) <= depth && Reads(t, i, Show(v)) && ScanValue(t, i, depth).value == i + |Show(v)|
    decreases |t| - i, 0
  {
    hide SkipWs, Unquote, ScanNumber, ScanMembers, ScanElements, ScanValue, Reads, Figures, Spell, IsNumeral, ArePieces;
    hide ShowItems, ShowEntries, AreItems, AreEntries, AllWs;
    ValueIsThere(t, i, depth);
    var end := ScanValue(t, i, depth).value;
    if t[i] == '{' {
      ScanRecord(t, i, depth);
      var space := SpaceOf(t, i + 1);
      if i + 1 + |space| < |t| && t[i + 1 + |space|] == '}' {
        v := EmptyObject(space);
        EmptyIs(t, i, "{", space, "}");
      } else {
        var entries := EntriesOnlyShown(t, i + 1, depth - 1);
        v := Record(entries);
        FirstIs(t, i, "{", ShowEntries(entries));
      }
    } else if t[i] == '[' {
      ScanArray(t, i, depth);
      var space := SpaceOf(t, i + 1);
      if i + 1 + |space| < |t| && t[i + 1 + |space|] == ']' {
        v := EmptyArray(space);
        EmptyIs(t, i, "[", space, "]");
      } else {
        var items := ItemsOnlyShown(t, i + 1, depth - 1);
        v := Array(items);
        FirstIs(t, i, "[", ShowItems(items));
      }
    } else if t[i] == '"' {
      ScanSimple(t, i, depth);
      var pieces := UnquoteOnlySpelled(t, i + 1);
      v := String(pieces);
      FirstIs(t, i, "\"", Spell(pieces) + "\"");
    } else if t[i] == 't' || t[i] == 'f' || t[i] == 'n' {
      WordOnlyRead(t, i, depth);
      ReadsItself(t, i, end);
      v := Word(t[i..end]);
    } else {
      ScanSimple(t, i, depth);
      var n := NumberOnlyRead(t, i);
      v := Number(n);
    }
  }

  lemma ValueIsThere(t: string, i: nat, depth: nat)
    requires i <= |t| && ScanValue(t, i, depth).Some?
    ensures i < |t|
  {
  }

  lemma EmptyIs(t: string, i: nat, open: string, space: string, close: string)
    requires |open| == |close| == 1 && i < |t| && t[i] == open[0] && Reads(t, i + 1, space)
    requires i + 1 + |space| < |t| && t[i + 1 + |space|] == close[0]
    ensures Reads(t, i, open + (space + close))
  {
    hide Reads;
    NothingRead(t, i + 2 + |space|);
    MarkIs(t, i + 1, space, close, "");
    assert space + (close + "") == space + close;
    FirstIs(t, i, open, space + close);
  }

  lemma ValueIs(t: string, i: nat, before: string, v: Tree, after: string, mark: string, rest: string)
    requires var start := i + |before|;
             var end := start + |Show(v)|;
             && Reads(t, i, before) && Reads(t, start, Show(v)) && Reads(t, end, after) && |mark| == 1
             && end + |after| < |t| && t[end + |after|] == mark[0] && Reads(t, end + |after| + 1, rest)
    ensures Reads(t, i, before + (Show(v) + (after + (mark + rest))))
  {
    hide Show, Reads;
    var start := i + |before|;
    MarkIs(t, start + |Show(v)|, after, mark, rest);
    ReadsParts(t, start, Show(v), after + (mark + rest));
    ReadsParts(t, i, before, Show(v) + (after + (mark + rest)));
  }

  lemma {:induction false} ItemsOnlyShown(t: string, i: nat, depth: nat) returns (x: Items)
    requires i <= |t| && ScanElements(t, SkipWs(t, i), depth).Some?
    ensures AreItems(x) && DepthOfItems(x) <= depth && Reads(t, i, ShowItems(x))
    ensures ScanElements(t, SkipWs(t, i), depth).value == i + |ShowItems(x)|
    decreases |t| - i, 1
  {
    hide SkipWs, ScanValue, Show, Reads, AllWs, IsTree, Depth;
    var before := SpaceOf(t, i);
    var v := OnlyShown(t, i + |before|, depth);
    var end := i + |before| + |Show(v)|;
    var after := SpaceOf(t, end);
    var next := end + |after| + 1;
    if t[next - 1] == ']' {
      x := Items(before, v, after, None);
      NothingRead(t, next);
      ValueIs(t, i, before, v, after, "]", "");
    } else {
      var more := ItemsOnlyShown(t, next, depth);
      x := Items(before, v, after, Some(more));
      ValueIs(t, i, before, v, after, ",", ShowItems(more));
    }
  }

  lemma KeyIs(t: string, i: nat, before: string, key: seq<Piece>, mid: string)
    requires var k := i + |before|;
             var after := k + 1 + |Spell(key)| + 1;
             && Reads(t, i, before) && k < |t| && t[k] == '"' && Reads(t, k + 1, Spell(key) + "\"")
             && Reads(t, after, mid) && after + |mid| < |t| && t[after + |mid|] == ':'
    ensures Reads(t, i, before + ("\"" + ((Spell(key) + "\"") + (mid + ":"))))
  {
    hide Spell, Reads;
    var k := i + |before|;
    var after := k + 1 + |Spell(key)| + 1;
    NothingRead(t, after + |mid| + 1);
    MarkIs(t, after, mid, ":", "");
    assert mid + (":" + "") == mid + ":";
    ReadsParts(t, k + 1, Spell(key) + "\"", mid + ":");
    MarkIs(t, i, before, "\"", (Spell(key) + "\"") + (mid + ":"));
  }

  lemma {:induction false} EntriesOnlyShown(t: string, i: nat, depth: nat) returns (x: Entries)
    requires i <= |t| && ScanMembers(t, SkipWs(t, i), depth).Some?
    ensures AreEntries(x) && DepthOfEntries(x) <= depth && Reads(t, i, ShowEntries(x))
    ensures ScanMembers(t, SkipWs(t, i), depth).value.end == i + |ShowEntries(x)|
    decreases |t| - i, 1
  {
    hide SkipWs, Unquote, ScanValue, ScanMembers, Show, ShowEntries, Spell, Reads, AllWs, IsTree, Depth, Meaning, ArePieces;
    var before := SpaceOf(t, i);
    var k := i + |before|;
    var p := FirstMember(t, k, depth);
    MembersAt(t, k, depth, p);
    var key := UnquoteOnlySpelled(t, k + 1);
    var mid := SpaceOf(t, p.key.end);
    KeyIs(t, i, before, key, mid);
    var lead := SpaceOf(t, p.colon + 1);
    var v := OnlyShown(t, p.start, depth);
    var after := SpaceOf(t, p.end);
    x := Entries(before, key, mid, lead, v, after, None);
    var rest := "";
    NothingRead(t, p.mark + 1);
    if t[p.mark] == ',' {
      var more := EntriesOnlyShown(t, p.mark + 1, depth);
      x := Entries(before, key, mid, lead, v, after, Some(more));
      rest := ShowEntries(more);
    }
    var mark := Mark(x.more.None?, "}");
    assert |ShowKey(x)| == p.colon + 1 - i;
    ValueIs(t, p.colon + 1, lead, v, after, mark, rest);
    ShowEntriesStep(x);
    ReadsParts(t, i, ShowKey(x), lead + (Show(v) + (after + (mark + rest))));
  }

  // ---- whole texts ----

  /** The text is the value, written with some white space around it. */
  predicate IsWritten(t: string, before: string, v: Tree, after: string) {
    AllWs(before) && IsTree(v) && AllWs(after) && t == before + (Show(v) + after)
  }

  ghost predicate IsJson(t: string, depth: nat) {
    exists before, v, after :: IsWritten(t, before, v, after) && Depth(v) <= depth
  }

  lemma WrittenIsRead(t: string, before: string, v: Tree, after: string, depth: nat)
    requires IsWritten(t, before, v, after) && Depth(v) <= depth
    ensures var start := |before|;
            && SkipWs(t, 0) == start < |t| && ScanValue(t, start, depth) == Some(start + |Show(v)|)
            && SkipWs(t, start + |Show(v)|) == |t| && t[start] == Show(v)[0] && t[start..start + |Show(v)|] == Show(v)
            && Reads(t, start, Show(v)) && Breaks(t, start + |Show(v)|)
  {
    hide ScanValue, SkipWs, Show, IsTree;
    var start := |before|;
    var end := start + |Show(v)|;
    ReadsItself(t, 0, |t|);
    assert t[0..|t|] == t;
    ReadsParts(t, 0, before, Show(v) + after);
    ReadsParts(t, start, Show(v), after);
    StartsWell(v);
    ReadsChar(t, start, Show(v), 0);
    SpaceRead(t, 0, before);
    if after != "" {
      ReadsChar(t, end, after, 0);
    }
    SpaceToEnd(t, end, after);
    ShownIsRead(t, start, v, depth);
  }

  lemma {:induction false} SpaceToEnd(t: string, i: nat, w: string)
    requires Reads(t, i, w) && AllWs(w) && i + |w| == |t|
    ensures SkipWs(t, i) == |t|
    decreases |w|
  {
    if w != "" {
      ReadsChar(t, i, w, 0);
      assert w == [w[0]] + w[1..];
      ReadsParts(t, i, [w[0]], w[1..]);
      SpaceToEnd(t, i + 1, w[1..]);
    }
  }

  /** A text is valid if and only if it is a value of the grammar, nested at most ten thousand
      deep, written in any way, with white space around it. */
  lemma ValidExactly(t: string)
    ensures Valid(t) <==> IsJson(t, 10000)
  {
    ValidWithinExactly(t, 10000);
  }

  lemma ValidWithinExactly(t: string, depth: nat)
    ensures ValidWithin(t, depth) <==> IsJson(t, depth)
  {
    hide ScanValue, SkipWs, Show, IsTree, AllWs, IsWritten;
    if IsJson(t, depth) {
      var before, v, after :| IsWritten(t, before, v, after) && Depth(v) <= depth;
      WrittenIsRead(t, before, v, after, depth);
    }
    if ValidWithin(t, depth) {
      var before := SpaceOf(t, 0);
      var v := OnlyShown(t, |before|, depth);
      var after := SpaceOf(t, |before| + |Show(v)|);
      IsTheText(t, before, v, after);
    }
  }

  lemma IsTheText(t: string, before: string, v: Tree, after: string)
    requires AllWs(before) && IsTree(v) && AllWs(after) && |t| == |before| + |Show(v)| + |after|
    requires Reads(t, 0, before) && Reads(t, |before|, Show(v)) && Reads(t, |before| + |Show(v)|, after)
    ensures IsWritten(t, before, v, after)
  {
    hide Show, IsTree;
    ReadsParts(t, |before|, Show(v), after);
    ReadsParts(t, 0, before, Show(v) + after);
    assert t[0..|t|] == t;
  }

  lemma MembersOf(t: string, i: nat)
    requires Valid(t) && SkipWs(t, 0) == i < |t|
    ensures Members(t) ==
            if t[i] != '{' then None else
              var k := SkipWs(t, i + 1);
              if k < |t| && t[k] == '}' then Some([])
              else
                var o := ScanMembers(t, k, MAX_DEPTH - 1);
                if o.Some? then Some(o.value.fields) else None
  {
    hide SkipWs, ScanMembers, Valid;
  }

  lemma IsValid(t: string, start: nat, end: nat)
    requires start <= end <= |t| && SkipWs(t, 0) == start && ScanValue(t, start, MAX_DEPTH) == Some(end) && SkipWs(t, end) == |t|
    ensures Valid(t)
  {
  }

  /** The members of an object are what was written: the keys by what they stand for, the
      values by their extent. */
  lemma MembersExactly(t: string, before: string, v: Tree, after: string)
    requires IsWritten(t, before, v, after) && Depth(v) <= MAX_DEPTH
    ensures Valid(t)
    ensures match v
            case Record(entries) => Members(t) == Some(FieldsOf(entries, |before| + 1))
            case EmptyObject(_) => Members(t) == Some([])
            case _ => Members(t) == None
  {
    hide ScanValue, ScanMembers, SkipWs, ShowEntries, ShowItems, Members, Valid, Reads, Figures, Spell, AllWs, IsNumeral, ArePieces;
    WrittenIsRead(t, before, v, after, MAX_DEPTH);
    var start := |before|;
    IsValid(t, start, start + |Show(v)|);
    MembersOf(t, start);
    match v
    case Record(entries) =>
      FirstMark(t, start, "{", ShowEntries(entries));
      EntriesRead(t, start + 1, entries, MAX_DEPTH - 1);
    case EmptyObject(space) =>
      EmptyRead(t, start, "{", space, "}");
    case Number(n) =>
      NumberRead(t, start, n);
    case _ =>
  }
}
