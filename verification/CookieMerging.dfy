/** What merging `Set-Cookie` lines into a cookie header gives, told by the lines: the last
    line that sets a name decides its value, whatever attributes follow, and names stand in
    the order in which they first appear. */
module CookieMerging {
  import opened GoStrings
  import opened Cookies
  import opened CookieLaws

  // ---- one line ----

  /** The text is `name=value`, but for white space around it. */
  predicate SetsTo(part: string, name: string, value: string) {
    name != "" && '=' !in name && TrimSpace(part) == name + "=" + value
  }

  /** The line up to its first ';', if it has one, ends at `k`. */
  predicate HeadEnds(line: string, k: nat) {
    k <= |line| && ';' !in line[..k] && (k == |line| || line[k] == ';')
  }

  predicate LineSets(line: string, name: string, value: string) {
    exists k | 0 <= k <= |line| :: HeadEnds(line, k) && SetsTo(line[..k], name, value)
  }

  ghost predicate LineNames(line: string, name: string) {
    exists value :: LineSets(line, name, value)
  }

  /** Attributes are cut off, whatever they are. */
  lemma {:induction false} BeforeFirstCuts(p: string, attributes: string)
    requires ';' !in p
    ensures BeforeFirst(p + ";" + attributes) == p && BeforeFirst(p) == p
  {
    if p == "" {
      assert p + ";" + attributes == ";" + attributes;
    } else {
      BeforeFirstCuts(p[1..], attributes);
      assert (p + ";" + attributes)[1..] == p[1..] + ";" + attributes;
      assert p[0] in p;
    }
  }

  lemma BeforeFirstIsHead(line: string, k: nat)
    ensures HeadEnds(line, k) <==> k <= |line| && BeforeFirst(line) == line[..k]
  {
    EndsAtSemicolon(line);
    if HeadEnds(line, k) {
      HeadIsCut(line, k);
    }
  }

  lemma HeadIsCut(line: string, k: nat)
    requires HeadEnds(line, k)
    ensures BeforeFirst(line) == line[..k]
  {
    if k < |line| {
      assert line == line[..k] + ";" + line[k + 1..];
      BeforeFirstCuts(line[..k], line[k + 1..]);
    } else {
      assert line == line[..k];
      BeforeFirstCuts(line, "");
    }
  }

  lemma {:induction false} EndsAtSemicolon(line: string)
    ensures var k := |BeforeFirst(line)|; k == |line| || line[k] == ';'
  {
    if line != "" && line[0] != ';' {
      EndsAtSemicolon(line[1..]);
    }
  }

  lemma PairOfExactly(part: string, name: string, value: string)
    ensures PairOf(part) == Some(Pair(name, value)) <==> SetsTo(part, name, value)
  {
    hide TrimSpace;
    var t := TrimSpace(part);
    var i := EqualsAt(t);
    if SetsTo(part, name, value) {
      assert t[|name|] == '=';
      assert forall k | 0 <= k < |name| :: t[k] == name[k] && name[k] in name;
      assert i == |name|;
      assert t[..i] == name && t[i + 1..] == value;
    }
  }

  lemma LineSetsExactly(line: string, name: string, value: string)
    ensures LineSets(line, name, value) <==> PairOf(BeforeFirst(line)) == Some(Pair(name, value))
  {
    hide PairOf, SetsTo, BeforeFirst;
    var k := |BeforeFirst(line)|;
    PairOfExactly(BeforeFirst(line), name, value);
    BeforeFirstIsHead(line, k);
    forall j: nat | HeadEnds(line, j) ensures line[..j] == BeforeFirst(line) {
      BeforeFirstIsHead(line, j);
    }
  }

  /** A line sets what the text before its attributes sets. */
  lemma AttributesAreIgnored(p: string, attributes: string, name: string, value: string)
    requires ';' !in p
    ensures LineSets(p + ";" + attributes, name, value) <==> SetsTo(p, name, value)
    ensures LineSets(p, name, value) <==> SetsTo(p, name, value)
  {
    hide PairOf, BeforeFirst, LineSets, SetsTo;
    BeforeFirstCuts(p, attributes);
    LineSetsExactly(p, name, value);
    LineSetsExactly(p + ";" + attributes, name, value);
    PairOfExactly(p, name, value);
  }

  lemma LineNamesExactly(line: string, name: string)
    ensures LineNames(line, name) <==> PairOf(BeforeFirst(line)).Some? && PairOf(BeforeFirst(line)).value.name == name
  {
    hide PairOf, LineSets, BeforeFirst;
    forall value ensures LineSets(line, name, value) <==> PairOf(BeforeFirst(line)) == Some(Pair(name, value)) {
      LineSetsExactly(line, name, value);
    }
  }

  // ---- all lines ----

  /** The last line that names it gives the name this value. */
  ghost predicate LastSets(lines: seq<string>, k: nat, name: string, value: string) {
    k < |lines| && LineSets(lines[k], name, value) && forall l | k < l < |lines| :: !LineNames(lines[l], name)
  }

  /** Some line names `a`, and none up to it names `b`. */
  ghost predicate NamesFirst(lines: seq<string>, a: string, b: string) {
    exists k | 0 <= k < |lines| :: LineNames(lines[k], a) && forall l | 0 <= l <= k :: !LineNames(lines[l], b)
  }

  /** The jar after the lines, told by the jar before them. */
  ghost predicate Follows(before: Jar, lines: seq<string>, after: Jar) {
    && Consistent(after)
    && (forall n | n in after.values ::
          || (exists k: nat :: LastSets(lines, k, n, after.values[n]))
          || (n in before.values && before.values[n] == after.values[n] && forall k | 0 <= k < |lines| :: !LineNames(lines[k], n)))
    && (forall n | n in before.values :: n in after.values)
    && (forall k, n | 0 <= k < |lines| && LineNames(lines[k], n) :: n in after.values)
    && before.order <= after.order
    && (forall i, j | |before.order| <= i < j < |after.order| :: NamesFirst(lines, after.order[i], after.order[j]))
  }

  lemma LastSetsMore(lines: seq<string>, line: string, k: nat, name: string, value: string)
    requires LastSets(lines, k, name, value) && !LineNames(line, name)
    ensures LastSets(lines + [line], k, name, value)
  {
    hide LineSets, LineNames;
  }

  lemma NamesFirstMore(lines: seq<string>, line: string, a: string, b: string)
    requires NamesFirst(lines, a, b)
    ensures NamesFirst(lines + [line], a, b)
  {
    hide LineNames;
    var k :| 0 <= k < |lines| && LineNames(lines[k], a) && forall l | 0 <= l <= k :: !LineNames(lines[l], b);
    assert (lines + [line])[k] == lines[k];
  }

  lemma SomeLineNames(before: Jar, lines: seq<string>, after: Jar, name: string, b: string)
    requires Follows(before, lines, after) && name in after.values && name !in before.values && b !in after.values
    ensures NamesFirst(lines, name, b)
  {
    hide LineSets, LineNames, Consistent;
    var k: nat :| LastSets(lines, k, name, after.values[name]);
    Named(lines[k], name, after.values[name]);
  }

  lemma Named(line: string, name: string, value: string)
    requires LineSets(line, name, value)
    ensures LineNames(line, name)
  {
  }

  lemma SilentLine(before: Jar, lines: seq<string>, after: Jar, line: string)
    requires Follows(before, lines, after) && forall n :: !LineNames(line, n)
    ensures Follows(before, lines + [line], after)
  {
    hide LineSets, LineNames, Consistent, LastSets, NamesFirst;
    var more := lines + [line];
    forall n | n in after.values
      ensures (exists k: nat :: LastSets(more, k, n, after.values[n]))
              || (n in before.values && before.values[n] == after.values[n] && forall k | 0 <= k < |more| :: !LineNames(more[k], n)) {
      if k: nat :| LastSets(lines, k, n, after.values[n]) {
        LastSetsMore(lines, line, k, n, after.values[n]);
      }
    }
    forall i, j | |before.order| <= i < j < |after.order| ensures NamesFirst(more, after.order[i], after.order[j]) {
      NamesFirstMore(lines, line, after.order[i], after.order[j]);
    }
  }

  lemma OnlyName(line: string, p: Pair)
    requires LineSets(line, p.name, p.value)
    ensures forall n :: LineNames(line, n) <==> n == p.name
  {
    hide LineSets, LineNames, PairOf, BeforeFirst;
    LineSetsExactly(line, p.name, p.value);
    forall n ensures LineNames(line, n) <==> n == p.name {
      LineNamesExactly(line, n);
    }
  }

  lemma SettingLine(before: Jar, lines: seq<string>, after: Jar, line: string, p: Pair)
    requires Follows(before, lines, after) && LineSets(line, p.name, p.value)
    requires before.order <= after.order && Consistent(before)
    ensures Follows(before, lines + [line], Put(after, p))
  {
    hide LineSets, LineNames, Consistent, LastSets, NamesFirst;
    var more, put := lines + [line], Put(after, p);
    PutKeepsConsistent(after, p);
    OnlyName(line, p);
    ValuesFollow(before, lines, after, line, p);
    forall k, n | 0 <= k < |more| && LineNames(more[k], n) ensures n in put.values {
      assert k < |lines| ==> LineNames(lines[k], n);
    }
    forall i, j | |before.order| <= i < j < |put.order| ensures NamesFirst(more, put.order[i], put.order[j]) {
      if j < |after.order| {
        NamesFirstMore(lines, line, after.order[i], after.order[j]);
      } else {
        NewIsNotOld(before, after, i);
        SomeLineNames(before, lines, after, after.order[i], p.name);
        NamesFirstMore(lines, line, after.order[i], p.name);
      }
    }
  }

  lemma NewIsNotOld(before: Jar, after: Jar, i: nat)
    requires Consistent(before) && Consistent(after) && before.order <= after.order && |before.order| <= i < |after.order|
    ensures after.order[i] in after.values && after.order[i] !in before.values
  {
  }

  lemma ValuesFollow(before: Jar, lines: seq<string>, after: Jar, line: string, p: Pair)
    requires Follows(before, lines, after) && LineSets(line, p.name, p.value)
    ensures var put, more := Put(after, p), lines + [line];
            forall n | n in put.values ::
              || (exists k: nat :: LastSets(more, k, n, put.values[n]))
              || (n in before.values && before.values[n] == put.values[n] && forall k | 0 <= k < |more| :: !LineNames(more[k], n))
  {
    hide LineSets, LineNames, Consistent, NamesFirst;
    var put, more := Put(after, p), lines + [line];
    OnlyName(line, p);
    assert LastSets(more, |lines|, p.name, p.value);
    forall n | n in put.values && n != p.name
      ensures (exists k: nat :: LastSets(more, k, n, put.values[n]))
              || (n in before.values && before.values[n] == put.values[n] && forall k | 0 <= k < |more| :: !LineNames(more[k], n)) {
      if k: nat :| LastSets(lines, k, n, after.values[n]) {
        LastSetsMore(lines, line, k, n, after.values[n]);
      }
    }
  }

  lemma {:induction false} LinesFollow(before: Jar, lines: seq<string>)
    requires Consistent(before)
    ensures Follows(before, lines, PutAll(before, SetPairs(lines)))
  {
    hide LineSets, LineNames, Consistent, PairOf, BeforeFirst, Follows;
    if lines == [] {
      NoLines(before);
    } else {
      var n := |lines| - 1;
      var init, line := lines[..n], lines[n];
      LinesFollow(before, init);
      var after := PutAll(before, SetPairs(init));
      OrderFollows(before, init, after);
      assert init + [line] == lines;
      match PairOf(BeforeFirst(line)) {
        case None =>
          assert SetPairs(init) + [] == SetPairs(init);
          forall name ensures !LineNames(line, name) {
            LineNamesExactly(line, name);
          }
          SilentLine(before, init, after, line);
        case Some(p) =>
          LineSetsExactly(line, p.name, p.value);
          PutAllAppend(before, SetPairs(init), p);
          SettingLine(before, init, after, line, p);
      }
    }
  }

  lemma OrderFollows(before: Jar, lines: seq<string>, after: Jar)
    requires Follows(before, lines, after)
    ensures before.order <= after.order
  {
  }

  lemma NoLines(before: Jar)
    requires Consistent(before)
    ensures Follows(before, [], PutAll(before, SetPairs([])))
  {
  }

  // ---- the header ----

  function Joined(parts: seq<string>): string
    requires parts != []
  {
    if |parts| == 1 then parts[0] else Joined(parts[..|parts| - 1]) + ";" + parts[|parts| - 1]
  }

  /** The parts of a header are the stretches between its semicolons. */
  lemma {:induction false} SplitExactly(header: string)
    ensures Joined(Split(header)) == header && forall part | part in Split(header) :: ';' !in part
  {
    hide Joined;
    SplitHasNoSemicolon(header);
    if header == "" {
      JoinedOne("");
    } else {
      var n := |header| - 1;
      SplitExactly(header[..n]);
      var parts := Split(header[..n]);
      InitAndLast(parts);
      JoinedStep(parts, "");
      OneLonger(Joined(parts), "", ';');
      JoinedLonger(parts[..|parts| - 1], parts[|parts| - 1], header[n]);
      assert header[..n] + [header[n]] == header;
    }
  }

  lemma JoinedOne(part: string)
    ensures Joined([part]) == part
  {
  }

  lemma JoinedStep(parts: seq<string>, part: string)
    requires parts != []
    ensures Joined(parts + [part]) == Joined(parts) + ";" + part
  {
    assert (parts + [part])[..|parts|] == parts;
  }

  lemma InitAndLast(parts: seq<string>)
    requires parts != []
    ensures parts[..|parts| - 1] + [parts[|parts| - 1]] == parts
  {
  }

  lemma JoinedLonger(init: seq<string>, part: string, c: char)
    ensures Joined(init + [part + [c]]) == Joined(init + [part]) + [c]
  {
    hide Joined;
    if init == [] {
      JoinedOne(part);
      JoinedOne(part + [c]);
      assert init + [part] == [part] && init + [part + [c]] == [part + [c]];
    } else {
      JoinedStep(init, part);
      JoinedStep(init, part + [c]);
      OneLonger(Joined(init) + ";", part, c);
    }
  }

  lemma OneLonger(a: string, b: string, c: char)
    ensures a + (b + [c]) == (a + b) + [c]
  {
  }

  lemma {:induction false} PartsAreLines(parts: seq<string>)
    requires forall part | part in parts :: ';' !in part
    ensures SetPairs(parts) == PairsOf(parts)
  {
    hide PairOf;
    if parts != [] {
      var n := |parts| - 1;
      PartsAreLines(parts[..n]);
      assert parts[n] in parts;
      BeforeFirstCuts(parts[n], "");
    }
  }

  /** A header is read by the same rules, part by part. */
  lemma ParseExactly(header: string)
    ensures Follows(NO_COOKIES, Split(header), Parse(header))
  {
    hide PairsOf, SetPairs, Split, Follows;
    SplitExactly(header);
    PartsAreLines(Split(header));
    LinesFollow(NO_COOKIES, Split(header));
  }

  /** After a merge every name has the value of the last line that sets it, whatever attributes
      follow there, or else keeps the one it had; new names stand behind the old ones, in the
      order of the first lines that set them. */
  lemma MergeExactly(cookie: string, setCookies: seq<string>)
    ensures Follows(Parse(cookie), setCookies, Merged(cookie, setCookies))
  {
    hide Parse, SetPairs, Follows;
    MergedIsConsistent(cookie, setCookies);
    LinesFollow(Parse(cookie), setCookies);
  }
}
