/** The incremental tool-block filter of internal/openai/tools.go: text arrives in
    arbitrary pieces and everything between an open marker and the next closing
    fence is withheld from the client. */
module ToolGate {
  import opened GoStrings

  /** An opening and a closing marker.  The proofs hold for every such pair; the
      gate runs with TOOL_FENCE. */
  datatype Markers = Markers(open: string, close: string)

  type Fence = m: Markers | m.open != "" && m.close != "" && !IsSpace(m.close[0]) && !IsSpace(m.open[0])
    witness Markers("(", ")")

  const OPEN := "```tool_call"
  const CLOSE := "```"
  const TOOL_FENCE: Fence := Markers(OPEN, CLOSE)

  /** The last `k` characters of `value` could be the start of `marker`. */
  predicate PartialAt(value: string, marker: string, k: nat) {
    && (k == 0 || k < |marker|)
    && k <= |value|
    && value[|value| - k..] == marker[..k]
  }

  ghost predicate IsLongestPartial(value: string, marker: string, k: nat) {
    && PartialAt(value, marker, k)
    && forall j: nat | PartialAt(value, marker, j) :: j <= k
  }

  /** The longest suffix of `value` that is a proper prefix of `marker`. */
  method PartialPrefixLength(value: string, marker: string) returns (k: nat)
    ensures IsLongestPartial(value, marker, k)
    ensures k == LongestPartial(value, marker)
  {
    var limit := if |value| < |marker| - 1 then |value| else |marker| - 1;
    var length := limit;
    k := 0;
    while length > 0
      invariant length <= limit
      invariant forall j: nat | PartialAt(value, marker, j) && j != 0 :: j <= length
    {
      if value[|value| - length..] <= marker {
        assert PartialAt(value, marker, length);
        k := length;
        break;
      }
      length := length - 1;
    }
    LongestPartialIs(value, marker, k);
  }

  function PartialBelow(value: string, marker: string, top: nat): (k: nat)
    ensures k <= top
  {
    if top == 0 || PartialAt(value, marker, top) then top else PartialBelow(value, marker, top - 1)
  }

  /** What `PartialPrefixLength` computes, as a function. */
  function LongestPartial(value: string, marker: string): (k: nat)
    ensures k <= |value|
  {
    PartialBelow(value, marker, |value|)
  }

  lemma NoneIsPartial(value: string, marker: string)
    ensures PartialAt(value, marker, 0)
  {
    assert value[|value| - 0..] == marker[..0];
  }

  lemma {:induction false} PartialBelowIsLongest(value: string, marker: string, top: nat)
    requires forall j: nat | PartialAt(value, marker, j) :: j <= top
    ensures IsLongestPartial(value, marker, PartialBelow(value, marker, top))
  {
    hide PartialAt;
    NoneIsPartial(value, marker);
    if top != 0 && !PartialAt(value, marker, top) {
      PartialBelowIsLongest(value, marker, top - 1);
    }
  }

  lemma LongestPartialIsLongest(value: string, marker: string)
    ensures IsLongestPartial(value, marker, LongestPartial(value, marker))
  {
    PartialBelowIsLongest(value, marker, |value|);
  }

  lemma LongestPartialIs(value: string, marker: string, k: nat)
    requires IsLongestPartial(value, marker, k)
    ensures LongestPartial(value, marker) == k
  {
    LongestPartialIsLongest(value, marker);
  }

  /** What one run of the gate's loop does to its buffer. */
  datatype Drained = Drained(out: string, rest: string, fence: bool)

  function Drain(mk: Fence, fence: bool, buffer: string): Drained
    decreases |buffer|
  {
    if fence then
      var i := Index(buffer, mk.close);
      if i < 0 then Drained("", buffer, true) else Drain(mk, false, buffer[i + |mk.close|..])
    else
      var i := Index(buffer, mk.open);
      if i >= 0 then
        var d := Drain(mk, true, buffer[i + |mk.open|..]);
        d.(out := buffer[..i] + d.out)
      else
        var cut := |buffer| - LongestPartial(buffer, mk.open);
        Drained(buffer[..cut], buffer[cut..], false)
  }

  /** The gate's state as a value. */
  datatype Gate = Gate(buffer: string, sent: string, inFence: bool)

  const EMPTY := Gate("", "", false)

  function Pushed(mk: Fence, g: Gate, delta: string): Gate {
    var d := Drain(mk, g.inFence, g.buffer + delta);
    Gate(d.rest, g.sent + d.out, d.fence)
  }

  function PushedAll(mk: Fence, g: Gate, deltas: seq<string>): Gate {
    if deltas == [] then g else Pushed(mk, PushedAll(mk, g, deltas[..|deltas| - 1]), deltas[|deltas| - 1])
  }

  class ToolFenceGate {
    const marks: Fence
    var buffer: string
    var sent: string
    var inFence: bool
    var emits: seq<string>  // the arguments of the calls to the emit callback, in order

    ghost predicate Valid()
      reads this
    {
      Concat(emits) == sent && forall i | 0 <= i < |emits| :: emits[i] != ""
    }

    function State(): Gate
      reads this
    {
      Gate(buffer, sent, inFence)
    }

    constructor ()
      ensures Valid() && State() == EMPTY && emits == [] && marks == TOOL_FENCE
    {
      marks := TOOL_FENCE;
      buffer, sent, inFence, emits := "", "", false, [];
    }

    method Send(value: string)
      requires Valid()
      modifies this`sent, this`emits
      ensures Valid()
      ensures sent == old(sent) + value && old(emits) <= emits
    {
      if value == "" {
        return;
      }
      ConcatAppend(emits, value);
      sent := sent + value;
      emits := emits + [value];
    }

    method Push(delta: string)
      requires Valid()
      modifies this
      ensures Valid()
      ensures State() == Pushed(marks, old(State()), delta)
      ensures old(emits) <= emits
    {
      hide Drain, Index, LongestPartial;
      buffer := buffer + delta;
      ghost var whole := Drain(marks, inFence, buffer);
      while true
        invariant Valid() && old(emits) <= emits
        invariant var d := Drain(marks, inFence, buffer);
                  sent + d.out == old(sent) + whole.out && d.rest == whole.rest && d.fence == whole.fence
        decreases |buffer|, inFence
      {
        if inFence {
          DrainInside(marks, buffer);
          var index := Index(buffer, marks.close);
          if index < 0 {
            return;
          }
          buffer := buffer[index + |marks.close|..];
          inFence := false;
          continue;
        }
        DrainOutside(marks, buffer);
        var index := Index(buffer, marks.open);
        if index >= 0 {
          ghost var d := Drain(marks, true, buffer[index + |marks.open|..]);
          assert sent + (buffer[..index] + d.out) == sent + buffer[..index] + d.out;
          Send(buffer[..index]);
          buffer := buffer[index + |marks.open|..];
          inFence := true;
          continue;
        }
        var keep := PartialPrefixLength(buffer, marks.open);
        Send(buffer[..|buffer| - keep]);
        buffer := buffer[|buffer| - keep..];
        return;
      }
    }
  }

  // ---- chunking invariance ----

  /** A first occurrence stays the first one when text is appended. */
  lemma IndexStable(s: string, m: string, t: string)
    requires Index(s, m) >= 0
    ensures Index(s + t, m) == Index(s, m)
  {
    IndexIsFirst(s, m);
    var i := Index(s, m);
    forall k | 0 <= k <= i ensures OccursAt(s + t, m, k) == OccursAt(s, m, k) {
      assert (s + t)[k..k + |m|] == s[k..k + |m|];
    }
    FirstIsIndex(s + t, m, i);
  }

  /** A marker that begins in `x` and ends in `t` begins with a partial marker of `x`. */
  lemma StraddlingMarker(x: string, t: string, m: string, p: nat)
    requires p < |x| && p + |m| > |x| && OccursAt(x + t, m, p)
    ensures PartialAt(x, m, |x| - p)
  {
    assert x[p..] == (x + t)[p..p + |m|][..|x| - p];
  }

  /** A partial marker at the end of `x + t` that begins in `x` is one of `x` too. */
  lemma StraddlingPartial(x: string, t: string, m: string, k: nat)
    requires |t| < k && PartialAt(x + t, m, k)
    ensures PartialAt(x, m, k - |t|)
  {
    assert x[|x| + |t| - k..] == (x + t)[|x + t| - k..][..k - |t|];
  }

  /** Where the held tail of `x` begins, nothing before it matters for what follows:
      markers of `x + t` begin in the tail or later ... */
  lemma TailDecidesMarker(x: string, t: string, m: string)
    requires m != "" && Index(x, m) < 0
    ensures var cut := |x| - LongestPartial(x, m);
            var y := x[cut..] + t;
            Index(x + t, m) == if Index(y, m) < 0 then -1 else cut + Index(y, m)
  {
    hide Index, LongestPartial;
    IndexIsFirst(x, m);
    LongestPartialIsLongest(x, m);
    var cut := |x| - LongestPartial(x, m);
    var y := x[cut..] + t;
    assert x + t == x[..cut] + y;
    forall p | 0 <= p < cut ensures !OccursAt(x + t, m, p) {
      if p + |m| <= |x| {
        assert (x + t)[p..p + |m|] == x[p..p + |m|];
        assert !OccursAt(x, m, p);
      } else if OccursAt(x + t, m, p) {
        StraddlingMarker(x, t, m, p);
      }
    }
    forall p | cut <= p ensures OccursAt(x + t, m, p) == OccursAt(y, m, p - cut) {
      if p + |m| <= |x + t| {
        assert y[p - cut..p - cut + |m|] == (x + t)[p..p + |m|];
      }
    }
    IndexIsFirst(y, m);
    FirstIsIndex(x + t, m, if Index(y, m) < 0 then -1 else cut + Index(y, m));
  }

  lemma SamePartial(x: string, y: string, m: string, j: nat)
    requires j <= |y|
    ensures PartialAt(x + y, m, j) <==> PartialAt(y, m, j)
  {
    assert (x + y)[|x + y| - j..] == y[|y| - j..];
  }

  /** ... and so do its partial markers. */
  lemma TailDecidesPartial(x: string, t: string, m: string)
    ensures var cut := |x| - LongestPartial(x, m);
            LongestPartial(x + t, m) == LongestPartial(x[cut..] + t, m)
  {
    hide LongestPartial, PartialAt;
    LongestPartialIsLongest(x, m);
    var cut := |x| - LongestPartial(x, m);
    var y := x[cut..] + t;
    assert x + t == x[..cut] + y;
    LongestPartialIsLongest(y, m);
    var k := LongestPartial(y, m);
    forall j: nat | PartialAt(x + t, m, j) ensures j <= k {
      if j > |t| {
        StraddlingPartial(x, t, m, j);
      }
      SamePartial(x[..cut], y, m, j);
    }
    SamePartial(x[..cut], y, m, k);
    LongestPartialIs(x + t, m, k);
  }

  function Prepend(s: string, d: Drained): Drained {
    d.(out := s + d.out)
  }

  lemma PrependSlices(x: string, y: string, k: nat)
    requires k <= |y|
    ensures (x + y)[..|x| + k] == x + y[..k] && (x + y)[|x| + k..] == y[k..]
  {
  }

  lemma PrependTwice(x: string, y: string, d: Drained)
    ensures Prepend(x, Prepend(y, d)) == Prepend(x + y, d)
  {
    assert x + (y + d.out) == (x + y) + d.out;
  }

  /** Text before `y` in which no marker starts passes through when a marker is in `y`. */
  lemma DrainPastMarker(mk: Fence, x: string, y: string, i: nat)
    requires Index(y, mk.open) == i && Index(x + y, mk.open) == |x| + i
    ensures Drain(mk, false, x + y) == Prepend(x, Drain(mk, false, y))
  {
    hide Drain, Index, LongestPartial, Prepend;
    DrainOutside(mk, x + y);
    DrainOutside(mk, y);
    PrependSlices(x, y, i);
    PrependSlices(x, y, i + |mk.open|);
    PrependTwice(x, y[..i], Drain(mk, true, y[i + |mk.open|..]));
  }

  /** And when there is none, if the same tail is held. */
  lemma DrainWithoutMarker(mk: Fence, x: string, y: string)
    requires Index(y, mk.open) < 0 && Index(x + y, mk.open) < 0
    requires LongestPartial(x + y, mk.open) == LongestPartial(y, mk.open)
    ensures Drain(mk, false, x + y) == Prepend(x, Drain(mk, false, y))
  {
    hide Drain, Index, LongestPartial;
    DrainOutside(mk, x + y);
    DrainOutside(mk, y);
    PrependSlices(x, y, |y| - LongestPartial(y, mk.open));
  }

  /** Outside a fence the gate may forget everything but the held tail. */
  lemma TailSuffices(mk: Fence, x: string, t: string)
    requires Index(x, mk.open) < 0
    ensures var cut := |x| - LongestPartial(x, mk.open);
            Drain(mk, false, x + t) == Prepend(x[..cut], Drain(mk, false, x[cut..] + t))
  {
    hide Drain, Index, LongestPartial, Prepend;
    TailDecidesMarker(x, t, mk.open);
    TailDecidesPartial(x, t, mk.open);
    var cut := |x| - LongestPartial(x, mk.open);
    var y := x[cut..] + t;
    assert x + t == x[..cut] + y;
    if Index(y, mk.open) >= 0 {
      DrainPastMarker(mk, x[..cut], y, Index(y, mk.open));
    } else {
      DrainWithoutMarker(mk, x[..cut], y);
    }
  }

  lemma DrainInside(mk: Fence, b: string)
    ensures var i := Index(b, mk.close);
            Drain(mk, true, b) == if i >= 0 then Drain(mk, false, b[i + |mk.close|..]) else Drained("", b, true)
  {
  }

  lemma DrainOutside(mk: Fence, b: string)
    ensures var i := Index(b, mk.open);
            var cut := |b| - LongestPartial(b, mk.open);
            Drain(mk, false, b) == if i >= 0 then Prepend(b[..i], Drain(mk, true, b[i + |mk.open|..]))
                                   else Drained(b[..cut], b[cut..], false)
  {
    hide Index, LongestPartial;
  }

  /** Draining in two steps is draining once. */
  lemma {:induction false} DrainAppend(mk: Fence, fence: bool, x: string, t: string)
    ensures var d := Drain(mk, fence, x);
            Drain(mk, fence, x + t) == Prepend(d.out, Drain(mk, d.fence, d.rest + t))
    decreases |x|, fence
  {
    hide Drain, Index, LongestPartial;
    if fence {
      var i := Index(x, mk.close);
      DrainInside(mk, x);
      DrainInside(mk, x + t);
      if i < 0 {
        assert "" + Drain(mk, true, x + t).out == Drain(mk, true, x + t).out;
      } else {
        IndexStable(x, mk.close, t);
        assert (x + t)[i + |mk.close|..] == x[i + |mk.close|..] + t;
        DrainAppend(mk, false, x[i + |mk.close|..], t);
      }
    } else {
      var i := Index(x, mk.open);
      DrainOutside(mk, x);
      if i >= 0 {
        DrainOutside(mk, x + t);
        IndexStable(x, mk.open, t);
        var x1 := x[i + |mk.open|..];
        assert (x + t)[i + |mk.open|..] == x1 + t;
        assert (x + t)[..i] == x[..i];
        DrainAppend(mk, true, x1, t);
        var d := Drain(mk, true, x1);
        var e := Drain(mk, d.fence, d.rest + t);
        assert x[..i] + (d.out + e.out) == (x[..i] + d.out) + e.out;
      } else {
        TailSuffices(mk, x, t);
      }
    }
  }

  /** A gate between two pushes: nothing in its buffer can be released yet. */
  predicate Settled(mk: Fence, g: Gate) {
    Drain(mk, g.inFence, g.buffer) == Drained("", g.buffer, g.inFence)
  }

  lemma PushedTwice(mk: Fence, g: Gate, a: string, b: string)
    ensures Pushed(mk, Pushed(mk, g, a), b) == Pushed(mk, g, a + b)
  {
    hide Drain;
    DrainAppend(mk, g.inFence, g.buffer + a, b);
    assert g.buffer + a + b == g.buffer + (a + b);
    var d := Drain(mk, g.inFence, g.buffer + a);
    var e := Drain(mk, d.fence, d.rest + b);
    assert g.sent + d.out + e.out == g.sent + (d.out + e.out);
  }

  lemma PushSettles(mk: Fence, g: Gate, delta: string)
    ensures Settled(mk, Pushed(mk, g, delta))
  {
    var d := Drain(mk, g.inFence, g.buffer + delta);
    DrainAppend(mk, g.inFence, g.buffer + delta, "");
    assert g.buffer + delta + "" == g.buffer + delta;
    assert d.rest + "" == d.rest;
    var e := Drain(mk, d.fence, d.rest);
    assert |d.out + e.out| == |d.out|;
  }

  /** Any way of cutting a text into pieces, also inside a marker, leaves the gate
      where one push of the whole text leaves it: same output, same buffer, same flag. */
  lemma {:induction false} ChunkingInvariance(mk: Fence, g: Gate, deltas: seq<string>)
    requires Settled(mk, g)
    ensures PushedAll(mk, g, deltas) == Pushed(mk, g, Concat(deltas))
  {
    if deltas == [] {
      assert g.buffer + "" == g.buffer;
      assert g.sent + "" == g.sent;
    } else {
      var init := deltas[..|deltas| - 1];
      ChunkingInvariance(mk, g, init);
      PushedTwice(mk, g, Concat(init), deltas[|deltas| - 1]);
    }
  }
}
