/** The round trip of a tool call works for sendable arguments and for no others. */
module ToolRoundTripLimits {
  import opened GoStrings
  import opened ToolGate
  import opened ToolBlocks
  import opened ToolCalls
  import opened Json
  import opened JsonLaws
  import opened ToolRoundTrip

  lemma {:induction false} CallsAreValid(ms: seq<Match>)
    ensures forall c | c in CallsOf(ms) :: Valid(c.arguments)
  {
    hide Valid, Decode, Normal;
    if ms != [] {
      CallsAreValid(ms[..|ms| - 1]);
    }
  }

  /** Everything of a payload before its arguments is printable. */
  lemma PayloadHeadPrintable(name: string, arguments: string) returns (p: string, b: nat)
    ensures p == Payload(name, arguments) && b == 8 + |Escape(name)| + 15
    ensures Reads(p, b, Sent(arguments)) && Reads(p, b + |Sent(arguments)|, "}") && |p| == b + |Sent(arguments)| + 1
    ensures p[0] == '{' && forall i | 0 <= i < b :: p[i] >= ' '
  {
    hide Unquote, Escape, Payload, Reads, Sent;
    var q;
    p, q := PayloadName(name, arguments);
    var p2, q2 := PayloadParts(name, arguments);
    b := q + 13;
    var first := Parts(Text("name", 7), 7, 8, q, q);
    assert MemberAt(p, 1, 0, first);
    UnquotePrintable(p, 2);
    UnquotePrintable(p, 9);
    ArgumentsKey(p, q);
    UnquotePrintable(p, q + 2);
  }

  /** Arguments that are a calm core between white space make a quiet payload. */
  lemma PayloadQuiet(name: string, l: string, core: string, r: string)
    requires AllSpace(l) && AllSpace(r) && l + core + r != "" && Calm(core, 0, |core|)
    ensures var p := Payload(name, l + core + r); Quiet(TOOL_FENCE, p) && Trimmed(p)
  {
    hide Unquote, Escape, Payload;
    var a := l + core + r;
    var p, b := PayloadHeadPrintable(name, a);
    ReadsShifts(p, b, a);
    ReadsChar(p, b + |a|, "}", 0);
    forall k | 0 < k < |p| && p[k] == '`' ensures p[k - 1] != '\n' {
      if b < k {
        assert p[(k - b) + b] == a[k - b] && p[(k - b - 1) + b] == a[k - b - 1];
        assert a[k - b] == core[k - b - |l|];
      } else {
        assert p[k - 1] >= ' ';
      }
    }
    assert TOOL_FENCE.close[0] == '`';
  }

  lemma {:induction false} SkipWsToEnd(s: string, i: nat)
    requires i <= |s| && forall q | i <= q < |s| :: IsWs(s[q])
    ensures SkipWs(s, i) == |s|
    decreases |s| - i
  {
    if i < |s| {
      SkipWsToEnd(s, i + 1);
    }
  }

  /** A trimmed valid text is one value and nothing else. */
  lemma TrimmedValue(v: string)
    requires Valid(v) && Trimmed(v)
    ensures v != "" && ScanValue(v, 0, MAX_DEPTH) == Some(|v|) && Calm(v, 0, |v|)
  {
    hide ScanValue;
    var start, end := ValueOf(v, MAX_DEPTH);
  }

  lemma ObjectScanned(p: string)
    requires |p| > 1 && p[0] == '{' && p[1] == '"' && SkipWs(p, 0) == 0 && SkipWs(p, 1) == 1 && Valid(p)
    ensures ScanMembers(p, 1, MAX_DEPTH - 1).Some?
  {
    hide ScanMembers;
    assert ScanObject(p, 1, MAX_DEPTH - 1) == ScanMembers(p, 1, MAX_DEPTH - 1);
  }

  /** A valid payload holds exactly one value where its arguments stand. */
  lemma PayloadHasValue(name: string, arguments: string) returns (p: string, b: nat, start: nat, end: nat, mark: nat)
    requires Valid(Payload(name, arguments))
    ensures p == Payload(name, arguments) && b == 8 + |Escape(name)| + 15
    ensures b <= start < end <= mark < |p| && start == SkipWs(p, b) && mark == SkipWs(p, end)
    ensures ScanValue(p, start, MAX_DEPTH - 1) == Some(end) && (p[mark] == '}' || p[mark] == ',')
  {
    hide Unquote, Escape, Payload, Reads, Sent, ScanMembers, SkipWs;
    var q;
    p, q := PayloadName(name, arguments);
    var p2, q2 := PayloadParts(name, arguments);
    b := q + 13;
    SkipWsTo(p, 0, 0);
    var depth := MAX_DEPTH - 1;
    var first := Parts(Text("name", 7), 7, 8, q, q);
    assert MemberAt(p, 1, depth, first);
    MembersAt(p, 1, depth, first);
    ArgumentsKey(p, q);
    SkipWsTo(p, q + 1, q + 1);
    ObjectScanned(p);
    var second := FirstMember(p, q + 1, depth);
    start, end, mark := second.start, second.end, second.mark;
  }

  /** The value starts where the white space before the core ends. */
  lemma ValueStart(p: string, b: nat, l: string, core: string, r: string, start: nat)
    requires AllSpace(l) && Trimmed(core) && (core == "" ==> r == "")
    requires Reads(p, b, l + core + r) && Reads(p, b + |l + core + r|, "}")
    requires b <= start < |p| && start == SkipWs(p, b) && ScanValue(p, start, MAX_DEPTH - 1).Some?
    ensures core != "" && start == b + |l|
  {
    hide ScanValue, SkipWs;
    var a := l + core + r;
    ReadsChar(p, b + |a|, "}", 0);
    forall k | b <= k < b + |a| ensures p[k] == a[k - b] {
      ReadsChar(p, b, a, k - b);
    }
    ValueCalm(p, start, MAX_DEPTH - 1);
    ValueIsNotBrace(p, start, MAX_DEPTH - 1);
    WsPlain(p, b);
    forall k | b <= k < b + |l| ensures IsSpace(p[k]) {
      assert a[k - b] == l[k - b];
    }
    assert core != "" ==> a[|l|] == core[0];
    assert core == "" ==> |a| == |l|;
    assert p[b + |l|] == if core == "" then '}' else core[0];
  }

  /** If a payload is valid although its arguments are a core between white space, the
      white space is JSON white space and the core is one value that may nest one deeper. */
  lemma PayloadShowsSendable(name: string, l: string, core: string, r: string)
    requires AllSpace(l) && AllSpace(r) && Trimmed(core) && l + core + r != ""
    requires core == "" ==> r == ""
    requires core != "" ==> Valid(core)
    requires Valid(Payload(name, l + core + r))
    ensures Sendable(l + core + r)
  {
    hide Unquote, Escape, Payload, ScanValue, SkipWs, Valid, Sendable;
    var a := l + core + r;
    var p, b, start, end, mark := PayloadHasValue(name, a);
    var p2, b2 := PayloadHeadPrintable(name, a);
    ValueStart(p, b, l, core, r, start);
    TrimmedValue(core);
    CoreIsValue(p, b, l, core, r, start);
    DeeperValue(p, start, MAX_DEPTH - 1);
    WsPlain(p, b);
    WsPlain(p, end);
    RestIsSpace(p, b, l, core, r, mark);
    SendableFrom(p, b, l, core, r, start, end);
  }

  /** Only white space, no comma or brace, follows the core before the closing brace. */
  lemma RestIsSpace(p: string, b: nat, l: string, core: string, r: string, mark: nat)
    requires AllSpace(r) && Reads(p, b, l + core + r) && b + |l| + |core| <= mark < |p|
    requires p[mark] == '}' || p[mark] == ','
    ensures b + |l| + |core| + |r| <= mark
  {
    var a := l + core + r;
    forall k | b + |l| + |core| <= k < b + |a| ensures IsSpace(p[k]) {
      ReadsChar(p, b, a, k - b);
      assert a[k - b] == r[k - b - |l| - |core|];
    }
  }

  lemma CoreIsValue(p: string, b: nat, l: string, core: string, r: string, start: nat)
    requires Reads(p, b, l + core + r) && Reads(p, b + |l + core + r|, "}") && start == b + |l| && AllSpace(r)
    requires ScanValue(core, 0, MAX_DEPTH) == Some(|core|)
    ensures ScanValue(p, start, MAX_DEPTH) == Some(start + |core|)
  {
    hide ScanValue;
    var a := l + core + r;
    ReadsChar(p, b + |a|, "}", 0);
    forall k {:trigger core[k]} | 0 <= k < |core| ensures p[k + start] == core[k] {
      ReadsChar(p, b, a, |l| + k);
      assert a[|l| + k] == core[k];
    }
    if r != "" {
      ReadsChar(p, b, a, |l| + |core|);
      assert a[|l| + |core|] == r[0];
    }
    ShiftValue(core, p, start, 0, |core|, MAX_DEPTH);
  }

  lemma ValueIsNotBrace(s: string, i: nat, depth: nat)
    requires i <= |s| && ScanValue(s, i, depth).Some?
    ensures i < |s| && s[i] != '}'
  {
  }

  lemma SendableFrom(p: string, b: nat, l: string, core: string, r: string, start: nat, end: nat)
    requires Trimmed(core) && core != "" && start == b + |l| && end == start + |core| && Reads(p, b, l + core + r)
    requires end <= |p| && ScanValue(p, start, MAX_DEPTH - 1) == Some(end)
    requires (forall k | b <= k < start :: IsWs(p[k])) && (forall k | end <= k < end + |r| :: IsWs(p[k]))
    ensures Sendable(l + core + r)
  {
    hide ScanValue, SkipWs, Reads;
    var a := l + core + r;
    forall k | 0 <= k < |a| ensures b + k < |p| && a[k] == p[b + k] {
      ReadsChar(p, b, a, k);
    }
    assert p[b + |l|] == a[|l|] == core[0];
    ReadsFits(p, b, a);
    ScansBack(p, b, a, start, end);
    SkipWsTo(a, 0, |l|);
    SkipWsToEnd(a, |l| + |core|);
  }

  lemma ReadsFits(t: string, i: nat, x: string)
    requires Reads(t, i, x)
    ensures i + |x| <= |t|
  {
  }

  lemma ScansBack(p: string, b: nat, a: string, start: nat, end: nat)
    requires b <= start <= end <= b + |a| <= |p| && forall k | 0 <= k < |a| :: a[k] == p[b + k]
    requires ScanValue(p, start, MAX_DEPTH - 1) == Some(end)
    requires end < b + |a| ==> IsWs(p[end])
    ensures ScanValue(a, start - b, MAX_DEPTH - 1) == Some(end - b)
  {
    hide ScanValue;
    var off: int := 0 - b;
    forall k {:trigger p[k]} | start <= k < end ensures a[k + off] == p[k] {
      assert a[k - b] == p[b + (k - b)];
    }
    assert end < b + |a| ==> a[end - b] == p[b + (end - b)];
    ShiftValue(p, a, off, start, end, MAX_DEPTH - 1);
  }

  /** A single call survives printing and parsing exactly when its arguments are absent or
      valid JSON with room for one more level of nesting.  Text that Go's `TrimSpace`
      would make valid, or JSON nested to the very limit, does not come back. */
  lemma RoundTripExactly(name: string, arguments: string)
    requires name != ""
    ensures Calls(Chain("", [ToolCall(name, arguments)])) == [ToolCall(name, Normal(arguments))] <==> Sendable(arguments)
  {
    hide Calls, Chain, Normal, Sendable;
    var call := ToolCall(name, arguments);
    if Sendable(arguments) {
      RoundTrip([call]);
      assert Normals([call]) == [ToolCall(name, Normal(arguments))];
    }
    if Calls(Chain("", [call])) == [ToolCall(name, Normal(arguments))] {
      OnlySendable(name, arguments);
    }
  }

  lemma OnlySendable(name: string, arguments: string)
    requires name != "" && Calls(Chain("", [ToolCall(name, arguments)])) == [ToolCall(name, Normal(arguments))]
    ensures Sendable(arguments)
  {
    hide TrimSpace, Payload, Valid, Matches, CallOf, Chain, Escape;
    if arguments != "" {
      var text := Chain("", [ToolCall(name, arguments)]);
      CallsAreValid(Matches(TOOL_FENCE, text));
      assert ToolCall(name, Normal(arguments)) in Calls(text);
      var l, r := TrimSplits(arguments);
      var core := TrimSpace(arguments);
      if core == "" {
        assert arguments == arguments + "" + "";
        SingleBlock(name, arguments, "", "");
        PayloadShowsSendable(name, arguments, "", "");
      } else {
        NullIsValid();
        TrimmedValue(core);
        SingleBlock(name, l, core, r);
        PayloadShowsSendable(name, l, core, r);
      }
    }
  }

  lemma NullIsValid()
    ensures Valid("null")
  {
    assert "null"[0..4] == "null";
    assert SkipWs("null", 0) == 0 && SkipWs("null", 4) == 4;
  }

  /** A quiet block yields the call its payload stands for, so a payload that yields one
      is valid. */
  lemma SingleBlock(name: string, l: string, core: string, r: string)
    requires name != "" && AllSpace(l) && AllSpace(r) && l + core + r != "" && Calm(core, 0, |core|)
    requires Calls(Chain("", [ToolCall(name, l + core + r)])) != []
    ensures Valid(Payload(name, l + core + r))
  {
    hide TrimSpace, Payload, Valid, Matches, MatchFrom, Index, Strip, Block, Quiet, Normal, Clear;
    var a := l + core + r;
    var payload := Payload(name, a);
    PayloadQuiet(name, l, core, r);
    NewlineIsClear(TOOL_FENCE);
    var block := Block(TOOL_FENCE, payload);
    var call := ToolCall(name, a);
    assert [call][1..] == [];
    assert Chain("", [call]) == "" + block + "";
    BlockIsFound(TOOL_FENCE, "", payload, "");
    var m := Match(0, |block|, payload);
    MatchesCons(TOOL_FENCE, "" + block + "", m);
    assert ("" + block + "")[m.size..] == "";
    ClearHasNoMatch(TOOL_FENCE, "");
    assert [m][..0] == [];
    TrimNoop(payload);
  }
}
