/** What a client of the Responses API may rely on: a reader that checks every event against
    the ones before it, and accepts every stream of Responses.dfy to the end. */
module ResponseReader {
  import opened GoStrings
  import opened Deltas
  import opened ChatStream
  import opened ToolCalls
  import opened Responses

  /** Where the reader is; an item that is open keeps what was heard of it. */
  datatype Phase =
    | Waiting
    | Announced
    | Between
    | Calling(id: string, name: string, heard: string, arguments: Option<string>)
    | Speaking(id: string, hasPart: bool, heard: string, text: Option<string>, partDone: bool)
    | Over(completed: bool)
    | Broken

  /** An item and what its deltas added up to. */
  datatype Received = Received(item: Item, heard: string)

  datatype Reader = Reader(next: nat, phase: Phase, received: seq<Received>)

  const NEW_READER := Reader(0, Waiting, [])

  function Items(received: seq<Received>): seq<Item> {
    seq(|received|, k requires 0 <= k < |received| => received[k].item)
  }

  /** The phase after an event, or Broken; items are numbered in order. */
  function Phased(phase: Phase, received: seq<Received>, body: Body): Phase {
    var index := |received|;
    match body
    case Created => if phase.Waiting? then Announced else Broken
    case InProgress => if phase.Announced? then Between else Broken
    case ItemAdded(i, item) =>
      if !phase.Between? || i != index then Broken
      else if item.FunctionCall? && item == FunctionCall(item.id, false, item.name, "") then Calling(item.id, item.name, "", None)
      else if item.Message? && item == Message(item.id, false, []) then Speaking(item.id, false, "", None, false)
      else Broken
    case ArgumentsDelta(id, i, delta) =>
      if phase.Calling? && phase.id == id && i == index && phase.arguments.None?
      then Calling(id, phase.name, phase.heard + delta, None) else Broken
    case ArgumentsDone(id, i, name, arguments) =>
      if phase.Calling? && phase.id == id && i == index && phase.name == name && phase.heard == arguments && phase.arguments.None?
      then Calling(id, name, phase.heard, Some(arguments)) else Broken
    case PartAdded(id, i) =>
      if phase.Speaking? && phase.id == id && i == index && !phase.hasPart
      then Speaking(id, true, phase.heard, phase.text, phase.partDone) else Broken
    case TextDelta(id, i, delta) =>
      if phase.Speaking? && phase.id == id && i == index && phase.hasPart && phase.text.None? && delta != ""
      then Speaking(id, true, phase.heard + delta, None, phase.partDone) else Broken
    case TextDone(id, i, text) =>
      if phase.Speaking? && phase.id == id && i == index && phase.hasPart && phase.text.None?
      then Speaking(id, true, phase.heard, Some(text), phase.partDone) else Broken
    case PartDone(id, i, text) =>
      if phase.Speaking? && phase.id == id && i == index && phase.text == Some(text) && !phase.partDone
      then Speaking(id, phase.hasPart, phase.heard, Some(text), true) else Broken
    case ItemDone(i, item) => if i == index && Closes(phase, item) then Between else Broken
    case Completed(output) => if phase.Between? && output == Items(received) then Over(true) else Broken
    case Failed(_) => if phase.Between? || (phase.Speaking? && phase.text.None?) then Over(false) else Broken
  }

  /** The item is what was announced about the open one. */
  predicate Closes(phase: Phase, item: Item) {
    || (phase.Calling? && phase.arguments.Some? && item == FunctionCall(phase.id, true, phase.name, phase.arguments.value))
    || (phase.Speaking? && phase.partDone && phase.text.Some? && item == Message(phase.id, true, [phase.text.value]))
  }

  function Read(r: Reader, e: Event): Reader {
    var phase := if e.number == r.next then Phased(r.phase, r.received, e.body) else Broken;
    Reader(r.next + 1, phase,
           if e.body.ItemDone? && !phase.Broken? && (r.phase.Calling? || r.phase.Speaking?)
           then r.received + [Received(e.body.item, r.phase.heard)] else r.received)
  }

  function ReadAll(r: Reader, events: seq<Event>): Reader {
    if events == [] then r else Read(ReadAll(r, events[..|events| - 1]), events[|events| - 1])
  }

  // ---- a reader of bodies, numbered as they come ----

  function Took(r: Reader, body: Body): Reader {
    Read(r, Event(r.next, body))
  }

  function TookAll(r: Reader, bodies: seq<Body>): Reader {
    if bodies == [] then r else Took(TookAll(r, bodies[..|bodies| - 1]), bodies[|bodies| - 1])
  }

  lemma {:induction false} NumbersAreConsecutive(bodies: seq<Body>)
    ensures ReadAll(NEW_READER, Numbered(bodies)) == TookAll(NEW_READER, bodies) && TookAll(NEW_READER, bodies).next == |bodies|
  {
    hide Phased, Read;
    if bodies != [] {
      var n := |bodies| - 1;
      NumbersAreConsecutive(bodies[..n]);
      assert Numbered(bodies)[..n] == Numbered(bodies[..n]);
      NextNumber(TookAll(NEW_READER, bodies[..n]), bodies[n]);
    }
  }

  lemma NextNumber(r: Reader, body: Body)
    ensures Took(r, body).next == r.next + 1
  {
    hide Phased;
  }

  lemma {:induction false} TookAppend(r: Reader, a: seq<Body>, b: seq<Body>)
    ensures TookAll(r, a + b) == TookAll(TookAll(r, a), b)
  {
    hide Took;
    if b == [] {
      assert a + b == a;
    } else {
      TookAppend(r, a, b[..|b| - 1]);
      assert (a + b)[..|a + b| - 1] == a + b[..|b| - 1];
    }
  }

  lemma TookOne(r: Reader, body: Body)
    ensures TookAll(r, [body]) == Took(r, body)
  {
    hide Took;
    assert [body][..0] == [];
  }

  lemma TookTwo(r: Reader, a: Body, b: Body)
    ensures TookAll(r, [a, b]) == Took(Took(r, a), b)
  {
    hide Took;
    assert [a, b][..1] == [a];
    TookOne(r, a);
  }

  // ---- groups ----

  lemma CallOpens(r: Reader, id: string, call: ToolCall)
    requires r.phase.Between?
    ensures Took(Took(r, ItemAdded(|r.received|, FunctionCall(id, false, call.name, ""))),
                 ArgumentsDelta(id, |r.received|, call.arguments))
         == Reader(r.next + 2, Calling(id, call.name, call.arguments, None), r.received)
  {
    assert "" + call.arguments == call.arguments;
  }

  lemma CallCloses(r: Reader, id: string, call: ToolCall)
    requires r.phase == Calling(id, call.name, call.arguments, None)
    ensures Took(Took(r, ArgumentsDone(id, |r.received|, call.name, call.arguments)), ItemDone(|r.received|, CallItem(id, call)))
         == Reader(r.next + 2, Between, r.received + [Received(CallItem(id, call), call.arguments)])
  {
  }

  lemma ReadsCall(r: Reader, id: string, call: ToolCall)
    requires r.phase.Between?
    ensures TookAll(r, CallBodies(|r.received|, id, call)) ==
            Reader(r.next + 4, Between, r.received + [Received(CallItem(id, call), call.arguments)])
  {
    hide Took, TookAll;
    var b := CallBodies(|r.received|, id, call);
    assert b == [b[0], b[1]] + [b[2], b[3]];
    TookAppend(r, [b[0], b[1]], [b[2], b[3]]);
    TookTwo(r, b[0], b[1]);
    CallOpens(r, id, call);
    var s := Took(Took(r, b[0]), b[1]);
    TookTwo(s, b[2], b[3]);
    CallCloses(s, id, call);
  }

  function ReceivedCalls(ids: Ids, calls: seq<ToolCall>): seq<Received> {
    seq(|calls|, k requires 0 <= k < |calls| => Received(CallItem(ids(k), calls[k]), calls[k].arguments))
  }

  lemma {:induction false} ReadsCalls(r: Reader, ids: Ids, calls: seq<ToolCall>)
    requires r.phase.Between? && r.received == []
    ensures TookAll(r, AllCallBodies(ids, calls)) == Reader(r.next + 4 * |calls|, Between, ReceivedCalls(ids, calls))
  {
    hide CallBodies, Took;
    if calls == [] {
      assert ReceivedCalls(ids, calls) == [];
    } else {
      var n := |calls| - 1;
      ReadsCalls(r, ids, calls[..n]);
      var s := TookAll(r, AllCallBodies(ids, calls[..n]));
      ReadsCall(s, ids(n), calls[n]);
      TookAppend(r, AllCallBodies(ids, calls[..n]), CallBodies(n, ids(n), calls[n]));
      assert ReceivedCalls(ids, calls) == ReceivedCalls(ids, calls[..n]) + [Received(CallItem(ids(n), calls[n]), calls[n].arguments)];
    }
  }

  lemma ReadsOpening(r: Reader, id: string)
    requires r.phase.Between?
    ensures TookAll(r, MessageStart(|r.received|, id)) == Reader(r.next + 2, Speaking(id, true, "", None, false), r.received)
  {
    var b := MessageStart(|r.received|, id);
    TookTwo(r, b[0], b[1]);
  }

  lemma HearsDelta(r: Reader, id: string, heard: string, delta: string)
    requires r.phase == Speaking(id, true, heard, None, false) && delta != ""
    ensures Took(r, TextDelta(id, |r.received|, delta))
         == Reader(r.next + 1, Speaking(id, true, heard + delta, None, false), r.received)
  {
  }

  lemma {:induction false} ReadsSpoken(r: Reader, id: string, deltas: seq<string>)
    requires r.phase == Speaking(id, true, "", None, false)
    ensures var s := TookAll(r, Spoken(|r.received|, id, deltas));
            s.phase == Speaking(id, true, Concat(deltas), None, false) && s.received == r.received
  {
    hide Took, TookAll, Concat;
    if deltas == [] {
      NothingHeard(r, id);
    } else {
      var n := |deltas| - 1;
      ReadsSpoken(r, id, deltas[..n]);
      ConcatAppend(deltas[..n], deltas[n]);
      assert deltas == deltas[..n] + [deltas[n]];
      var before := Spoken(|r.received|, id, deltas[..n]);
      if deltas[n] != "" {
        var s, body := TookAll(r, before), TextDelta(id, |r.received|, deltas[n]);
        TookAppend(r, before, [body]);
        TookOne(s, body);
        HearsDelta(s, id, Concat(deltas[..n]), deltas[n]);
      } else {
        assert Concat(deltas[..n]) + "" == Concat(deltas[..n]);
        assert before + [] == before;
      }
    }
  }

  lemma NothingHeard(r: Reader, id: string)
    ensures TookAll(r, Spoken(|r.received|, id, [])) == r && Concat([]) == ""
  {
  }

  lemma MessageCloses(r: Reader, id: string, heard: string, text: string)
    requires r.phase == Speaking(id, true, heard, None, false)
    ensures Took(Took(r, TextDone(id, |r.received|, text)), PartDone(id, |r.received|, text))
         == Reader(r.next + 2, Speaking(id, true, heard, Some(text), true), r.received)
  {
  }

  lemma MessageIsDone(r: Reader, id: string, heard: string, text: string)
    requires r.phase == Speaking(id, true, heard, Some(text), true)
    ensures Took(r, ItemDone(|r.received|, MessageItem(id, text)))
         == Reader(r.next + 1, Between, r.received + [Received(MessageItem(id, text), heard)])
  {
  }

  lemma ReadsClosing(r: Reader, id: string, heard: string, text: string)
    requires r.phase == Speaking(id, true, heard, None, false)
    ensures var s := TookAll(r, MessageEnd(|r.received|, id, text));
            s.phase == Between && s.received == r.received + [Received(MessageItem(id, text), heard)]
  {
    hide Took, TookAll;
    var b := MessageEnd(|r.received|, id, text);
    assert b == [b[0], b[1]] + [b[2]];
    TookAppend(r, [b[0], b[1]], [b[2]]);
    TookTwo(r, b[0], b[1]);
    MessageCloses(r, id, heard, text);
    var s := Took(Took(r, b[0]), b[1]);
    TookOne(s, b[2]);
    MessageIsDone(s, id, heard, text);
  }

  lemma ReadsMessage(r: Reader, id: string, deltas: seq<string>, text: string)
    requires r.phase.Between?
    ensures var i := |r.received|;
            var s := TookAll(r, MessageStart(i, id) + Spoken(i, id, deltas) + MessageEnd(i, id, text));
            s.phase == Between && s.received == r.received + [Received(MessageItem(id, text), Concat(deltas))]
  {
    hide MessageStart, Spoken, MessageEnd, Took;
    var i := |r.received|;
    ReadsOpening(r, id);
    var a := TookAll(r, MessageStart(i, id));
    ReadsSpoken(a, id, deltas);
    ReadsClosing(TookAll(a, Spoken(i, id, deltas)), id, Concat(deltas), text);
    TookAppend(r, MessageStart(i, id) + Spoken(i, id, deltas), MessageEnd(i, id, text));
    TookAppend(r, MessageStart(i, id), Spoken(i, id, deltas));
  }

  lemma ReadsEnd(r: Reader, body: Body)
    requires r.phase.Between? || (r.phase.Speaking? && r.phase.text.None? && body.Failed?)
    requires body.Failed? || (body.Completed? && body.output == Items(r.received))
    ensures TookAll(r, [body]) == Reader(r.next + 1, Over(body.Completed?), r.received)
  {
    TookOne(r, body);
  }

  // ---- whole streams ----

  /** What the reader has received in the end: the calls with their arguments, then the
      message; with what was heard of each. */
  function Expected(tools: bool, ids: Ids, deltas: seq<string>, ending: Ending): seq<Received> {
    match ending
    case Failure(_) => []
    case Answer(answer) =>
      if tools then
        var text, calls := Cleaned(answer), Calls(answer);
        ReceivedCalls(ids, calls)
        + (if text != "" || calls == [] then [Received(MessageItem(ids(|calls|), text), text)] else [])
      else
        [Received(MessageItem(ids(0), answer), Concat(deltas) + RemainingText(answer, Concat(deltas)))]
  }

  lemma ReadsWithTools(r: Reader, ids: Ids, deltas: seq<string>, ending: Ending)
    requires r.phase.Between? && r.received == []
    ensures var s := TookAll(r, WithTools(ids, ending));
            s.phase == Over(ending.Answer?) && s.received == Expected(true, ids, deltas, ending)
  {
    hide Took, AllCallBodies, MessageStart, Spoken, MessageEnd, Cleaned, Calls;
    match ending {
      case Failure(message) =>
        ReadsEnd(r, Failed(message));
      case Answer(answer) =>
        var text, calls := Cleaned(answer), Calls(answer);
        var a := AllCallBodies(ids, calls);
        var b := if text != "" || calls == [] then Buffered(|calls|, ids(|calls|), text) else [];
        ReadsCalls(r, ids, calls);
        TookAppend(r, a, b);
        if text != "" || calls == [] {
          ReadsMessage(TookAll(r, a), ids(|calls|), [text], text);
          OneText(text);
        }
        var done := TookAll(r, a + b);
        assert Items(done.received) == ResponseOutput(ids, text, calls);
        ReadsEnd(done, Completed(ResponseOutput(ids, text, calls)));
        TookAppend(r, a + b, [Completed(ResponseOutput(ids, text, calls))]);
    }
  }

  lemma OneText(text: string)
    ensures Concat([text]) == text
  {
    assert [text][..0] == [];
    assert "" + text == text;
  }

  lemma Regroup(a: seq<Body>, b: seq<Body>, c: seq<Body>, d: seq<Body>)
    ensures a + (b + c + d) == (a + b + c) + d && a + (b + d) == (a + b) + d
  {
  }

  lemma ReadsFailure(r: Reader, ids: Ids, deltas: seq<string>, message: string)
    requires r.phase.Between? && r.received == []
    ensures var s := TookAll(r, WithoutTools(ids, deltas, Failure(message)));
            s.phase == Over(false) && s.received == []
  {
    hide Took, TookAll, MessageStart, Spoken, MessageEnd, Concat;
    var id := ids(0);
    var start, spoken := MessageStart(0, id), Spoken(0, id, deltas);
    ReadsOpening(r, id);
    ReadsSpoken(TookAll(r, start), id, deltas);
    TookAppend(r, start, spoken);
    ReadsEnd(TookAll(r, start + spoken), Failed(message));
    TookAppend(r, start + spoken, [Failed(message)]);
    Regroup(start, spoken, [], [Failed(message)]);
  }

  lemma ReadsAnswer(r: Reader, ids: Ids, deltas: seq<string>, text: string)
    requires r.phase.Between? && r.received == []
    ensures var s := TookAll(r, WithoutTools(ids, deltas, Answer(text)));
            s.phase == Over(true) && s.received == Expected(false, ids, deltas, Answer(text))
  {
    hide Took, TookAll, MessageStart, Spoken, MessageEnd, Concat, RemainingText;
    var id := ids(0);
    var rest := RemainingText(text, Concat(deltas));
    var start, spoken, end := MessageStart(0, id), Spoken(0, id, deltas + [rest]), MessageEnd(0, id, text);
    ReadsMessage(r, id, deltas + [rest], text);
    ConcatAppend(deltas, rest);
    var done := TookAll(r, start + spoken + end);
    assert Items(done.received) == [MessageItem(id, text)];
    ReadsEnd(done, Completed([MessageItem(id, text)]));
    TookAppend(r, start + spoken + end, [Completed([MessageItem(id, text)])]);
    Regroup(start, spoken, end, [Completed([MessageItem(id, text)])]);
  }

  lemma ReadsWithoutTools(r: Reader, ids: Ids, deltas: seq<string>, ending: Ending)
    requires r.phase.Between? && r.received == []
    ensures var s := TookAll(r, WithoutTools(ids, deltas, ending));
            s.phase == Over(ending.Answer?) && s.received == Expected(false, ids, deltas, ending)
  {
    hide TookAll, WithoutTools;
    match ending
    case Failure(message) => ReadsFailure(r, ids, deltas, message);
    case Answer(text) => ReadsAnswer(r, ids, deltas, text);
  }

  /** Every stream is read to its end without objection: its events are numbered from zero
      without a gap, its items open and close one after another in the order of their
      indices, and it ends with the items in order or with a failure. */
  lemma StreamIsAccepted(tools: bool, ids: Ids, deltas: seq<string>, ending: Ending)
    ensures var r := ReadAll(NEW_READER, Numbered(Bodies(tools, ids, deltas, ending)));
            r.phase == Over(ending.Answer?) && r.received == Expected(tools, ids, deltas, ending)
  {
    hide WithTools, WithoutTools, Expected;
    var bodies := Bodies(tools, ids, deltas, ending);
    NumbersAreConsecutive(bodies);
    TookTwo(NEW_READER, Created, InProgress);
    var r := TookAll(NEW_READER, [Created, InProgress]);
    if tools {
      TookAppend(NEW_READER, [Created, InProgress], WithTools(ids, ending));
      ReadsWithTools(r, ids, deltas, ending);
    } else {
      TookAppend(NEW_READER, [Created, InProgress], WithoutTools(ids, deltas, ending));
      ReadsWithoutTools(r, ids, deltas, ending);
    }
  }

  /** A failure without tools comes while the message is open, which it leaves so: the
      reader has heard the deltas and received no item. */
  lemma FailureLeavesItemOpen(ids: Ids, deltas: seq<string>, message: string)
    ensures var bodies := Bodies(false, ids, deltas, Failure(message));
            var r := ReadAll(NEW_READER, Numbered(bodies[..|bodies| - 1]));
            r.phase == Speaking(ids(0), true, Concat(deltas), None, false) && r.received == []
  {
    hide Took, TookAll, MessageStart, Spoken;
    var id := ids(0);
    var bodies := Bodies(false, ids, deltas, Failure(message));
    var start := [Created, InProgress] + MessageStart(0, id);
    assert bodies[..|bodies| - 1] == start + Spoken(0, id, deltas);
    NumbersAreConsecutive(start + Spoken(0, id, deltas));
    TookTwo(NEW_READER, Created, InProgress);
    var r := TookAll(NEW_READER, [Created, InProgress]);
    StartsBetween();
    TookAppend(NEW_READER, [Created, InProgress], MessageStart(0, id));
    ReadsOpening(r, id);
    TookAppend(NEW_READER, start, Spoken(0, id, deltas));
    ReadsSpoken(TookAll(r, MessageStart(0, id)), id, deltas);
  }

  lemma StartsBetween()
    ensures Took(Took(NEW_READER, Created), InProgress) == Reader(2, Between, [])
  {
  }

  lemma EndIsFinal(r: Reader, e: Event)
    ensures r.phase.Over? || r.phase.Broken? ==> Read(r, e).phase.Broken?
  {
  }

  lemma {:induction false} NothingFollowsTheEnd(r: Reader, events: seq<Event>)
    ensures (r.phase.Over? || r.phase.Broken?) && events != [] ==> ReadAll(r, events).phase.Broken?
  {
    hide Read;
    if events != [] {
      var n := |events| - 1;
      NothingFollowsTheEnd(r, events[..n]);
      EndIsFinal(ReadAll(r, events[..n]), events[n]);
    }
  }

  lemma {:induction false} ReadAppend(r: Reader, a: seq<Event>, b: seq<Event>)
    ensures ReadAll(r, a + b) == ReadAll(ReadAll(r, a), b)
  {
    hide Read;
    if b == [] {
      assert a + b == a;
    } else {
      ReadAppend(r, a, b[..|b| - 1]);
      assert (a + b)[..|a + b| - 1] == a + b[..|b| - 1];
    }
  }

  /** The last event of a stream completes or fails the response, and no other does. */
  lemma ExactlyOneEnd(tools: bool, ids: Ids, deltas: seq<string>, ending: Ending, k: nat)
    requires k < |Bodies(tools, ids, deltas, ending)|
    ensures var body := Bodies(tools, ids, deltas, ending)[k];
            (body.Completed? || body.Failed?) <==> k == |Bodies(tools, ids, deltas, ending)| - 1
  {
    hide WithTools, WithoutTools, Phased, Expected, Bodies, Read;
    var bodies := Bodies(tools, ids, deltas, ending);
    var events := Numbered(bodies);
    StreamIsAccepted(tools, ids, deltas, ending);
    var r := ReadAll(NEW_READER, events[..k]);
    assert events[..k + 1][..k] == events[..k];
    assert events == events[..k + 1] + events[k + 1..];
    ReadAppend(NEW_READER, events[..k + 1], events[k + 1..]);
    EndsOnly(r, events[k]);
    NothingFollowsTheEnd(Read(r, events[k]), events[k + 1..]);
    assert k == |bodies| - 1 ==> events[..k + 1] == events;
    assert k != |bodies| - 1 ==> events[k + 1..] != [];
  }

  lemma EndsOnly(r: Reader, e: Event)
    ensures e.body.Completed? || e.body.Failed? ==> Read(r, e).phase.Over? || Read(r, e).phase.Broken?
    ensures Read(r, e).phase.Over? ==> e.body.Completed? || e.body.Failed?
  {
  }

  /** A failure ends the stream with its message. */
  lemma FailureIsTold(tools: bool, ids: Ids, deltas: seq<string>, message: string)
    ensures var bodies := Bodies(tools, ids, deltas, Failure(message));
            bodies[|bodies| - 1] == Failed(message)
  {
    hide Spoken, MessageStart;
  }

  /** A streaming client without tools hears the text of the completed message exactly when
      what it was sent is a prefix of it; a failure may leave its message open. */
  lemma HearsCompletedText(ids: Ids, deltas: seq<string>, text: string)
    ensures var r := ReadAll(NEW_READER, Numbered(Bodies(false, ids, deltas, Answer(text))));
            && |r.received| == 1 && r.received[0].item == Message(ids(0), true, [text])
            && (r.received[0].heard == text <==> Concat(deltas) <= text)
  {
    StreamIsAccepted(false, ids, deltas, Answer(text));
  }

  predicate HeardInFull(x: Received) {
    match x.item
    case FunctionCall(_, _, _, arguments) => x.heard == arguments
    case Message(_, _, parts) => parts == [x.heard]
  }

  /** With tools the streamed output is that of a client that does not stream, and every
      item is heard in full. */
  lemma StreamedToolsAreComplete(ids: Ids, deltas: seq<string>, answer: string)
    ensures var r := ReadAll(NEW_READER, Numbered(Bodies(true, ids, deltas, Answer(answer))));
            && Items(r.received) == ResponseOutput(ids, Cleaned(answer), Calls(answer))
            && forall x | x in r.received :: HeardInFull(x)
  {
    hide Cleaned, Calls, Bodies, ReadAll, HeardInFull;
    StreamIsAccepted(true, ids, deltas, Answer(answer));
    var expected := Expected(true, ids, deltas, Answer(answer));
    assert Items(expected) == ResponseOutput(ids, Cleaned(answer), Calls(answer));
    var calls, text := Calls(answer), Cleaned(answer);
    ExpectedIsHeard(ids, text, calls);
    assert expected == ReceivedCalls(ids, calls)
      + (if text != "" || calls == [] then [Received(MessageItem(ids(|calls|), text), text)] else []);
    forall x | x in expected ensures HeardInFull(x) {
      assert x in ReceivedCalls(ids, calls) || x == Received(MessageItem(ids(|calls|), text), text);
    }
  }

  lemma ExpectedIsHeard(ids: Ids, text: string, calls: seq<ToolCall>)
    ensures forall x | x in ReceivedCalls(ids, calls) :: HeardInFull(x)
    ensures HeardInFull(Received(MessageItem(ids(|calls|), text), text))
  {
    var all := ReceivedCalls(ids, calls);
    forall k | 0 <= k < |all| ensures HeardInFull(all[k]) {
      assert all[k] == Received(CallItem(ids(k), calls[k]), calls[k].arguments);
    }
  }
}
