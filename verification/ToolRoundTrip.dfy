/** Calls written into a prompt are read back unchanged. */
module ToolRoundTrip {
  import opened GoStrings
  import opened ToolGate
  import opened ToolBlocks
  import opened ToolCalls
  import opened JsonLaws
  import opened Json

  // ---- the block around a payload ----

  /** No line of the payload starts like a closing fence, and it starts with a mark. */
  predicate Quiet(mk: Fence, payload: string) {
    && payload != "" && !IsSpace(payload[0])
    && forall q | 0 < q < |payload| && payload[q] == mk.close[0] :: payload[q - 1] != '\n'
  }

  lemma FirstEnding(mk: Fence, payload: string, rest: string)
    requires Quiet(mk, payload)
    ensures Index(payload + Ending(mk) + rest, Ending(mk)) == |payload|
  {
    var tail := payload + Ending(mk) + rest;
    assert tail[|payload|..|payload| + |Ending(mk)|] == Ending(mk);
    forall q | 0 <= q < |payload| ensures !OccursAt(tail, Ending(mk), q) {
      EndingIs(mk, tail, q);
    }
    FirstIsIndex(tail, Ending(mk), |payload|);
  }

  lemma BlockIsMatched(mk: Fence, payload: string, rest: string)
    requires Quiet(mk, payload)
    ensures MatchHere(mk, Block(mk, payload) + rest) == Some(Body(|mk.open| + 1, |mk.open| + 1 + |payload|))
  {
    hide Index, BlankRun;
    var o := |mk.open|;
    var s := Block(mk, payload) + rest;
    var tail := payload + Ending(mk) + rest;
    assert s == mk.open + "\n" + tail;
    assert s[..o] == mk.open && s[o] == '\n' && s[o + 1] == payload[0] && s[o + 1..] == tail;
    BlankRunIs(s, o);
    FirstEnding(mk, payload, rest);
  }

  /** Nothing in `pre` makes an open marker, not even together with what follows it. */
  predicate Clear(mk: Fence, pre: string) {
    Index(pre + mk.open, mk.open) == |pre|
  }

  lemma NewlineIsClear(mk: Fence)
    ensures Clear(mk, "") && Clear(mk, "\n")
  {
    hide Index;
    assert ("" + mk.open)[0..|mk.open|] == mk.open;
    FirstIsIndex("" + mk.open, mk.open, 0);
    var s := "\n" + mk.open;
    assert s[1..1 + |mk.open|] == mk.open;
    assert s[0..|mk.open|][0] == '\n';
    FirstIsIndex(s, mk.open, 1);
  }

  lemma OccursInPrefix(s: string, m: string, p: string, k: nat)
    requires p <= s && k + |m| <= |p| && OccursAt(s, m, k)
    ensures OccursAt(p, m, k)
  {
    assert p[k..k + |m|] == s[..|p|][k..k + |m|] == s[k..k + |m|];
  }

  lemma BlockIsFound(mk: Fence, pre: string, payload: string, rest: string)
    requires Quiet(mk, payload) && Clear(mk, pre)
    ensures MatchFrom(mk, pre + Block(mk, payload) + rest, 0)
         == Some(Match(|pre|, |Block(mk, payload)|, payload))
  {
    hide Index, MatchHere, MatchFrom;
    var s := pre + Block(mk, payload) + rest;
    var t := Block(mk, payload) + rest;
    assert s[|pre|..] == t;
    assert pre + mk.open <= s;
    BlockIsMatched(mk, payload, rest);
    assert t[|mk.open| + 1..|mk.open| + 1 + |payload|] == payload;
    IndexIsFirst(pre + mk.open, mk.open);
    forall k | 0 <= k < |pre| ensures MatchHere(mk, s[k..]).None? {
      if MatchHere(mk, s[k..]).Some? {
        MatchNeedsFence(mk, s, k);
        OccursInPrefix(s, mk.open, pre + mk.open, k);
      }
    }
    MatchFromIs(mk, s, 0, |pre|);
  }

  // ---- the payload ----

  const NAME_KEY := Key('{', "name")
  const ARGS_KEY := Key(',', "arguments")

  function Sent(arguments: string): string {
    if arguments == "" then "{}" else arguments
  }

  /** Where the parts of a payload stand. */
  lemma PayloadParts(name: string, arguments: string) returns (p: string, q: nat)
    ensures p == Payload(name, arguments) && q == 8 + |Escape(name)| + 2
    ensures q < |p| && Reads(p, 0, NAME_KEY) && Reads(p, 8, "\"") && Reads(p, 9, Escape(name) + "\"")
    ensures Reads(p, q, ARGS_KEY) && Reads(p, q + 13, Sent(arguments)) && Reads(p, q + 13 + |Sent(arguments)|, "}")
    ensures |p| == q + 14 + |Sent(arguments)|
  {
    hide Escape, Reads;
    p := Payload(name, arguments);
    var e := Escape(name);
    var a := Sent(arguments);
    q := 8 + |e| + 2;
    var tail := ARGS_KEY + (a + "}");
    assert p == NAME_KEY + ("\"" + ((e + "\"") + tail));
    ReadsItself(p);
    ReadsParts(p, 0, NAME_KEY, "\"" + ((e + "\"") + tail));
    ReadsParts(p, 8, "\"", (e + "\"") + tail);
    ReadsParts(p, 9, e + "\"", tail);
    ReadsParts(p, q, ARGS_KEY, a + "}");
    ReadsParts(p, q + 13, a, "}");
  }

  lemma ReadsItself(p: string)
    ensures Reads(p, 0, p)
  {
  }

  predicate Letters(s: string) {
    forall i | 0 <= i < |s| :: 'a' <= s[i] <= 'z'
  }

  lemma PlainKeys()
    ensures Letters("name") && Letters("arguments")
  {
  }

  lemma {:induction false} EscapePlain(s: string)
    requires Letters(s)
    ensures Escape(s) == s
  {
    if s != "" {
      EscapePlain(s[1..]);
      assert [s[0]] + s[1..] == s;
    }
  }

  /** A key, written with its quotes, reads back as itself. */
  lemma KeyAt(p: string, i: nat, lead: char, key: string)
    requires Reads(p, i, Key(lead, key)) && Letters(key)
    ensures i + 3 + |key| < |p| && p[i] == lead && p[i + 1] == '"' && p[i + 3 + |key|] == ':'
    ensures Unquote(p, i + 2) == Some(Text(key, i + 3 + |key|))
  {
    hide Unquote, Escape;
    ReadsParts(p, i, [lead, '"'] + key, "\":");
    ReadsParts(p, i, [lead, '"'], key);
    ReadsChar(p, i, [lead, '"'], 0);
    ReadsChar(p, i, [lead, '"'], 1);
    ReadsChar(p, i + 2 + |key|, "\":", 0);
    ReadsChar(p, i + 2 + |key|, "\":", 1);
    assert p[i + 2 + |key|..i + 3 + |key|] == "\"";
    ReadsParts(p, i + 2, key, "\"");
    EscapePlain(key);
    UnquoteEscaped(p, i + 2, key);
  }

  /** The first member of a payload is its name. */
  lemma PayloadName(name: string, arguments: string) returns (p: string, q: nat)
    ensures p == Payload(name, arguments) && q == 8 + |Escape(name)| + 2
    ensures forall depth :: MemberAt(p, 1, depth, Parts(Text("name", 7), 7, 8, q, q))
    ensures Unquote(p, 9) == Some(Text(name, q))
    ensures p[0] == '{' && p[8] == '"' && p[q] == ',' && SkipWs(p, 1) == 1
  {
    hide Unquote, Escape, Payload, Reads;
    p, q := PayloadParts(name, arguments);
    PlainKeys();
    KeyAt(p, 0, '{', "name");
    ReadsChar(p, 8, "\"", 0);
    ReadsChar(p, q, ARGS_KEY, 0);
    UnquoteEscaped(p, 9, name);
    SkipWsTo(p, 1, 1);
    SkipWsTo(p, 7, 7);
    SkipWsTo(p, 8, 8);
    SkipWsTo(p, q, q);
  }

  lemma ReadsShifts(t: string, i: nat, x: string)
    requires Reads(t, i, x)
    ensures Shifted(x, t, i, 0, |x|)
  {
    forall q {:trigger x[q]} | 0 <= q < |x| ensures t[q + i] == x[q] {
      ReadsChar(t, i, x, q);
    }
  }

  /** The second member of a payload holds its arguments, wherever the value in them
      starts and ends. */
  lemma PayloadArguments(p: string, q: nat, a: string, depth: nat, start: nat, end: nat)
    requires Reads(p, q, ARGS_KEY) && Reads(p, q + 13, a) && Reads(p, q + 13 + |a|, "}") && |p| == q + 14 + |a|
    requires start < end <= |a| && !IsSpace(a[start])
    requires (forall k | 0 <= k < start :: IsWs(a[k])) && (forall k | end <= k < |a| :: IsWs(a[k]))
    requires ScanValue(a, start, depth) == Some(end)
    ensures MemberAt(p, q + 1, depth, Parts(Text("arguments", q + 12), q + 12, q + 13 + start, q + 13 + end, |p| - 1))
    ensures p[|p| - 1] == '}' && p[q + 13 + start..q + 13 + end] == a[start..end]
  {
    hide Unquote, ScanValue, Reads, SkipWs;
    ArgumentsKey(p, q);
    ReadsSlice(p, q + 13, a, start, end);
    ValueInPlace(p, q + 13, a, depth, start, end);
  }

  /** A value and the white space around it, where they are read in another text. */
  lemma ValueInPlace(p: string, b: nat, a: string, depth: nat, start: nat, end: nat)
    requires Reads(p, b, a) && Reads(p, b + |a|, "}")
    requires start < end <= |a| && !IsSpace(a[start])
    requires (forall k | 0 <= k < start :: IsWs(a[k])) && (forall k | end <= k < |a| :: IsWs(a[k]))
    requires ScanValue(a, start, depth) == Some(end)
    ensures b + |a| < |p| && p[b + |a|] == '}' && SkipWs(p, b) == b + start && SkipWs(p, b + end) == b + |a|
    ensures ScanValue(p, b + start, depth) == Some(b + end)
  {
    hide ScanValue, Reads, SkipWs;
    ReadsShifts(p, b, a);
    ReadsChar(p, b + |a|, "}", 0);
    ShiftValue(a, p, b, start, |a|, depth);
    forall k | b <= k < b + |a| ensures p[k] == a[k - b] {
      ReadsChar(p, b, a, k - b);
    }
    SkipWsTo(p, b, b + start);
    SkipWsTo(p, b + end, b + |a|);
  }

  lemma ReadsSlice(t: string, i: nat, x: string, start: nat, end: nat)
    requires Reads(t, i, x) && start <= end <= |x|
    ensures i + end <= |t| && t[i + start..i + end] == x[start..end]
  {
    var part := t[i + start..i + end];
    forall k | 0 <= k < |part| ensures part[k] == x[start..end][k] {
      ReadsChar(t, i, x, start + k);
    }
  }

  lemma ArgumentsKey(p: string, q: nat)
    requires Reads(p, q, ARGS_KEY)
    ensures q + 12 < |p| && p[q] == ',' && p[q + 1] == '"' && p[q + 12] == ':'
    ensures Unquote(p, q + 2) == Some(Text("arguments", q + 12))
    ensures SkipWs(p, q + 12) == q + 12
  {
    hide Unquote, Reads;
    PlainKeys();
    KeyAt(p, q, ',', "arguments");
    SkipWsTo(p, q + 12, q + 12);
  }

  /** What the payload of a call is read as, given the extent of its arguments. */
  lemma PayloadMembers(name: string, arguments: string, start: nat, end: nat)
    requires var a := Sent(arguments);
             && start < end <= |a| && !IsSpace(a[start])
             && (forall k | 0 <= k < start :: IsWs(a[k])) && (forall k | end <= k < |a| :: IsWs(a[k]))
             && ScanValue(a, start, MAX_DEPTH - 1) == Some(end)
    ensures var p := Payload(name, arguments);
            var q := 8 + |Escape(name)| + 2;
            && Valid(p) && ScanValue(p, 0, MAX_DEPTH) == Some(|p|) && SkipWs(p, 0) == 0
            && Members(p) == Some([Field("name", 8, q), Field("arguments", q + 13 + start, q + 13 + end)])
            && p[8] == '"' && Unquote(p, 9) == Some(Text(name, q))
            && q + 13 + end <= |p| && p[q + 13 + start..q + 13 + end] == Sent(arguments)[start..end]
  {
    hide Unquote, Reads, Escape, ScanMembers, Payload, Members, Valid, ScanValue, ScanObject, Sent;
    var p, q := PayloadName(name, arguments);
    var p2, q2 := PayloadParts(name, arguments);
    var depth := MAX_DEPTH - 1;
    PayloadArguments(p, q, Sent(arguments), depth, start, end);
    SkipWsTo(p, 0, 0);
    SkipWsTo(p, q + 1, q + 1);
    var first := Parts(Text("name", 7), 7, 8, q, q);
    var second := Parts(Text("arguments", q + 12), q + 12, q + 13 + start, q + 13 + end, |p| - 1);
    assert MemberAt(p, 1, depth, first);
    MembersAt(p, 1, depth, first);
    MembersAt(p, q + 1, depth, second);
    ObjectIs(p, depth, q, second);
  }

  lemma ObjectIs(p: string, depth: nat, q: nat, second: Parts)
    requires depth == MAX_DEPTH - 1 && |p| > 1 && p[0] == '{' && p[1] == '"' && SkipWs(p, 0) == 0 && SkipWs(p, 1) == 1
    requires ScanMembers(p, 1, depth) ==
             Some(Object([Field("name", 8, q)] + [Field(second.key.value, second.start, second.end)], |p|))
    ensures Valid(p) && ScanValue(p, 0, MAX_DEPTH) == Some(|p|)
    ensures Members(p) == Some([Field("name", 8, q), Field(second.key.value, second.start, second.end)])
  {
    hide ScanMembers, Unquote;
    assert ScanObject(p, 1, depth) == ScanMembers(p, 1, depth);
    assert [Field("name", 8, q)] + [Field(second.key.value, second.start, second.end)]
        == [Field("name", 8, q), Field(second.key.value, second.start, second.end)];
  }

  // ---- the round trip ----

  function Normals(calls: seq<ToolCall>): seq<ToolCall> {
    if calls == [] then [] else [ToolCall(calls[0].name, Normal(calls[0].arguments))] + Normals(calls[1..])
  }

  lemma EmptyObject()
    ensures ScanValue("{}", 0, MAX_DEPTH - 1) == Some(2) && ScanValue("{}", 0, MAX_DEPTH) == Some(2)
  {
    assert SkipWs("{}", 1) == 1;
  }

  /** The extent of the value that a sendable argument text sends. */
  lemma SentValue(arguments: string) returns (start: nat, end: nat)
    requires Sendable(arguments)
    ensures var a := Sent(arguments);
            && start < end <= |a| && !IsSpace(a[start]) && !IsSpace(a[end - 1])
            && (forall k | 0 <= k < start :: IsWs(a[k])) && (forall k | end <= k < |a| :: IsWs(a[k]))
            && ScanValue(a, start, MAX_DEPTH - 1) == Some(end)
            && TrimSpace(a) == a[start..end]
  {
    hide ScanValue, TrimSpace;
    if arguments == "" {
      EmptyObject();
      start, end := 0, 2;
      TrimNoop("{}");
    } else {
      start, end := ValueOf(arguments, MAX_DEPTH - 1);
      ValueIsTrim(arguments, start, end);
    }
  }

  lemma NormalIsValid(arguments: string)
    requires Sendable(arguments)
    ensures Valid(Normal(arguments)) && Normal(TrimSpace(Sent(arguments))) == Normal(arguments)
  {
    hide ScanValue, TrimSpace;
    var start, end := SentValue(arguments);
    var a := Sent(arguments);
    var v := TrimSpace(a);
    TrimNoop(v);
    EmptyObject();
    assert SkipWs("{}", 0) == 0 && SkipWs("{}", 2) == 2;
    DeeperValue(a, start, MAX_DEPTH - 1);
    var off: int := 0 - start;
    forall k {:trigger a[k]} | start <= k < end ensures v[k + off] == a[k] {
    }
    ShiftValue(a, v, off, start, end, MAX_DEPTH);
    SkipWsTo(v, 0, 0);
    TrimNoop("");
    TrimNoop("{}");
  }

  /** Decoding a payload gives back the name and the trimmed arguments. */
  lemma PayloadDecodes(name: string, arguments: string)
    requires Sendable(arguments)
    ensures Decode(Payload(name, arguments)) == Some(ToolCall(name, TrimSpace(Sent(arguments))))
    ensures Quiet(TOOL_FENCE, Payload(name, arguments)) && Trimmed(Payload(name, arguments))
  {
    hide Escape, Unquote, ScanValue, Valid, Members, TrimSpace, Payload, Sent;
    var start, end := SentValue(arguments);
    PayloadMembers(name, arguments, start, end);
    var p := Payload(name, arguments);
    ValueCalm(p, 0, MAX_DEPTH);
    var q := 8 + |Escape(name)| + 2;
    var second := Field("arguments", q + 13 + start, q + 13 + end);
    AssignedTwo(p, Field("name", 8, q), second, name);
  }

  lemma AssignedTwo(t: string, f: Field, g: Field, name: string)
    requires f.start < f.end <= |t| && g.start < g.end <= |t| && f.key == "name" && g.key == "arguments"
    requires t[f.start] == '"' && Unquote(t, f.start + 1).Some? && Unquote(t, f.start + 1).value.value == name
    ensures Assigned(t, [f, g]) == Some(ToolCall(name, t[g.start..g.end]))
  {
    hide Unquote;
    assert [f, g][..1] == [f] && [f][..0] == [];
    assert Names("name", "name") && Names("arguments", "arguments");
    assert |"arguments"| == 9 && |"name"| == 4;
    assert Assigned(t, []) == Some(NO_CALL);
    assert Assigned(t, [f]) == Some(ToolCall(name, ""));
  }

  lemma CallOfPayload(name: string, arguments: string)
    requires name != "" && Sendable(arguments)
    ensures CallOf(Payload(name, arguments)) == Some(ToolCall(name, Normal(arguments)))
  {
    hide Decode, Valid, Normal, Payload, TrimSpace;
    PayloadDecodes(name, arguments);
    NormalIsValid(arguments);
    TrimNoop(Payload(name, arguments));
  }

  lemma {:induction false} CallsOfCons(m: Match, ms: seq<Match>)
    ensures CallsOf([m] + ms) == CallsOf([m]) + CallsOf(ms)
  {
    hide CallOf;
    assert [m][..0] == [];
    if ms == [] {
      assert [m] + ms == [m];
    } else {
      var n := |ms| - 1;
      assert ([m] + ms)[..n + 1] == [m] + ms[..n];
      CallsOfCons(m, ms[..n]);
    }
  }

  lemma MatchesCons(mk: Fence, s: string, m: Match)
    requires MatchFrom(mk, s, 0) == Some(m)
    ensures m.skip + m.size <= |s|
    ensures CallsOf(Matches(mk, s)) == CallsOf([m]) + CallsOf(Matches(mk, s[m.skip + m.size..]))
    ensures Strip(mk, s) == s[..m.skip] + Strip(mk, s[m.skip + m.size..])
  {
    hide MatchFrom, CallsOf, CallOf;
    CallsOfCons(m, Matches(mk, s[m.skip + m.size..]));
  }

  lemma ClearHasNoMatch(mk: Fence, pre: string)
    requires Clear(mk, pre)
    ensures Matches(mk, pre) == [] && Strip(mk, pre) == pre
  {
    hide Index, MatchFrom;
    IndexIsFirst(pre + mk.open, mk.open);
    forall k | 0 <= k ensures !OccursAt(pre, mk.open, k) {
      if k + |mk.open| <= |pre| {
        assert (pre + mk.open)[k..k + |mk.open|] == pre[k..k + |mk.open|];
        assert !OccursAt(pre + mk.open, mk.open, k);
      }
    }
    FirstIsIndex(pre, mk.open, -1);
    FirstMatch(mk, pre);
  }

  predicate AllSendable(calls: seq<ToolCall>) {
    forall c | c in calls :: c.name != "" && Sendable(c.arguments)
  }

  /** The first block after a clear text is read as its call; the rest is read on its own. */
  lemma FirstCallReadsBack(pre: string, c: ToolCall, rest: string)
    requires Clear(TOOL_FENCE, pre) && c.name != "" && Sendable(c.arguments)
    ensures var s := pre + SerializePriorToolCall(c) + rest;
            && Calls(s) == [ToolCall(c.name, Normal(c.arguments))] + Calls(rest)
            && Strip(TOOL_FENCE, s) == pre + Strip(TOOL_FENCE, rest)
  {
    hide Matches, MatchFrom, Strip, CallOf, Index, Payload, Block, Clear, Sendable, Quiet, Normal;
    var payload := Payload(c.name, c.arguments);
    var block := Block(TOOL_FENCE, payload);
    var s := pre + block + rest;
    PayloadDecodes(c.name, c.arguments);
    BlockIsFound(TOOL_FENCE, pre, payload, rest);
    var m := Match(|pre|, |block|, payload);
    MatchesCons(TOOL_FENCE, s, m);
    assert s[m.skip + m.size..] == rest && s[..m.skip] == pre;
    CallOfPayload(c.name, c.arguments);
    OneMatch(m);
  }

  lemma OneMatch(m: Match)
    ensures CallsOf([m]) == match CallOf(m.body) case None => [] case Some(c) => [c]
  {
    hide CallOf;
    assert [m][..0] == [];
  }

  /** Calls written one to a line after a clear text are read back in order, and only
      the text and the line breaks are left over. */
  lemma {:induction false} ChainReadsBack(pre: string, calls: seq<ToolCall>) returns (breaks: string)
    requires Clear(TOOL_FENCE, pre) && AllSendable(calls)
    ensures Calls(Chain(pre, calls)) == Normals(calls)
    ensures Strip(TOOL_FENCE, Chain(pre, calls)) == pre + breaks && AllSpace(breaks)
    decreases |calls|
  {
    hide Calls, Strip, Clear, Sendable, SerializePriorToolCall, Normal;
    if calls == [] {
      ClearReadsBack(pre);
      breaks := "";
    } else {
      var c := calls[0];
      var sep := if |calls| == 1 then "" else "\n";
      NewlineIsClear(TOOL_FENCE);
      var more := ChainReadsBack(sep, calls[1..]);
      breaks := sep + more;
      FirstCallReadsBack(pre, c, Chain(sep, calls[1..]));
    }
  }

  lemma ClearReadsBack(pre: string)
    requires Clear(TOOL_FENCE, pre)
    ensures Calls(pre) == [] && Strip(TOOL_FENCE, pre) == pre
  {
    hide Clear, Matches, Strip, CallOf;
    ClearHasNoMatch(TOOL_FENCE, pre);
  }

  /** Printing any number of calls one to a line and parsing the text gives back the same
      names and the trimmed arguments, in order, and nothing else. */
  lemma RoundTrip(calls: seq<ToolCall>)
    requires AllSendable(calls)
    ensures Calls(Chain("", calls)) == Normals(calls) && Cleaned(Chain("", calls)) == ""
  {
    hide Calls, Strip, Chain, Clear, AllSendable, TrimSpace;
    NewlineIsClear(TOOL_FENCE);
    var breaks := ChainReadsBack("", calls);
    assert "" + breaks == breaks + "" + "";
    TrimIs(breaks, "", "");
  }

  lemma OpenIsOneLine()
    ensures '\n' !in OPEN
  {
  }

  /** A marker cannot reach across a line break. */
  lemma LineIsClear(mk: Fence, head: string)
    requires '\n' !in mk.open && Index(head, mk.open) < 0
    ensures Clear(mk, head + "\n")
  {
    hide Index;
    IndexIsFirst(head, mk.open);
    var s := head + "\n" + mk.open;
    forall k | 0 <= k <= |head| ensures !OccursAt(s, mk.open, k) {
      if k + |mk.open| <= |head| {
        assert s[k..k + |mk.open|] == head[k..k + |mk.open|];
        assert !OccursAt(head, mk.open, k);
      } else if k + |mk.open| <= |s| {
        assert s[k..k + |mk.open|][|head| - k] == s[|head|] == '\n';
      }
    }
    ClearIfFirst(mk, head + "\n");
  }

  lemma ClearIfFirst(mk: Fence, pre: string)
    requires forall k | 0 <= k < |pre| :: !OccursAt(pre + mk.open, mk.open, k)
    ensures Clear(mk, pre)
  {
    hide Index;
    assert (pre + mk.open)[|pre|..|pre| + |mk.open|] == mk.open;
    FirstIsIndex(pre + mk.open, mk.open, |pre|);
  }

  lemma NamedIsWritten(c: ToolCall)
    requires c.name != ""
    ensures SerializePriorToolCall(c) != ""
  {
    hide Payload;
    assert |SerializePriorToolCall(c)| > 0;
  }

  lemma {:induction false} LinesAreChain(head: string, calls: seq<ToolCall>)
    requires calls != [] && AllSendable(calls)
    ensures head + Lines(calls) == Chain(head + "\n", calls)
    decreases |calls|
  {
    hide Sendable, SerializePriorToolCall;
    var b := SerializePriorToolCall(calls[0]);
    NamedIsWritten(calls[0]);
    if |calls| == 1 {
      assert calls[1..] == [];
      assert head + ("\n" + b + "") == head + "\n" + b + "";
    } else {
      LinesAreChain("", calls[1..]);
      assert "" + Lines(calls[1..]) == Lines(calls[1..]);
      assert "" + "\n" == "\n";
      assert head + ("\n" + b + Lines(calls[1..])) == head + "\n" + b + Lines(calls[1..]);
    }
  }

  lemma HeadReadsBack(head: string)
    requires Index(head, OPEN) < 0
    ensures Calls(head) == [] && Cleaned(head) == TrimSpace(head)
  {
    hide Matches, Strip, Index, MatchFrom, TrimSpace;
    FirstMatch(TOOL_FENCE, head);
    MatchesNone(TOOL_FENCE, head);
  }

  lemma BlockAfterHead(head: string, calls: seq<ToolCall>)
    requires AllSendable(calls) && calls != [] && Index(head, OPEN) < 0
    ensures Calls(head + Lines(calls)) == Normals(calls) && Cleaned(head + Lines(calls)) == TrimSpace(head)
  {
    hide Matches, Strip, Chain, Clear, AllSendable, TrimSpace, Index, MatchFrom, Calls, Lines, Normals;
    OpenIsOneLine();
    LineIsClear(TOOL_FENCE, head);
    var breaks := ChainReadsBack(head + "\n", calls);
    LinesAreChain(head, calls);
    TrimIgnoresBreaks(head, "\n" + breaks);
    assert head + "\n" + breaks == head + ("\n" + breaks);
  }

  /** The calls of an assistant message survive being written into the prompt, whatever
      text without a block of its own precedes them; that text is what is left over. */
  lemma AssistantBlockReadsBack(content: string, calls: seq<ToolCall>)
    requires AllSendable(calls) && !Contains(AssistantHead(content), OPEN)
    ensures var block := AssistantHead(content) + Lines(calls);
            Calls(block) == Normals(calls) && Cleaned(block) == TrimSpace(AssistantHead(content))
  {
    hide Calls, Cleaned, AllSendable, TrimSpace, Index, AssistantHead;
    var head := AssistantHead(content);
    if calls == [] {
      assert head + "" == head;
      HeadReadsBack(head);
    } else {
      BlockAfterHead(head, calls);
    }
  }

  lemma MatchesNone(mk: Fence, s: string)
    requires MatchFrom(mk, s, 0) == None
    ensures Matches(mk, s) == [] && Strip(mk, s) == s && CallsOf([]) == []
  {
  }

  lemma TrimIgnoresBreaks(s: string, breaks: string)
    requires AllSpace(breaks)
    ensures TrimSpace(s + breaks) == TrimSpace(s)
  {
    hide TrimSpace;
    var a, b := TrimSplits(s);
    var t := TrimSpace(s);
    assert s + breaks == a + t + (b + breaks);
    TrimIs(a, t, b + breaks);
  }
}
