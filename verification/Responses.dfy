/** The event stream of the Responses API: internal/openai/responses.go, and the reader on
    the other side that it is written for. */
module Responses {
  import opened GoStrings
  import opened Deltas
  import opened ChatStream
  import opened ToolCalls

  /** An output item; `complete` is its status and a message holds a part for each text. */
  datatype Item =
    | FunctionCall(id: string, complete: bool, name: string, arguments: string)
    | Message(id: string, complete: bool, parts: seq<string>)

  datatype Body =
    | Created
    | InProgress
    | ItemAdded(index: nat, item: Item)
    | ArgumentsDelta(itemId: string, index: nat, delta: string)
    | ArgumentsDone(itemId: string, index: nat, name: string, arguments: string)
    | PartAdded(itemId: string, index: nat)
    | TextDelta(itemId: string, index: nat, delta: string)
    | TextDone(itemId: string, index: nat, text: string)
    | PartDone(itemId: string, index: nat, text: string)
    | ItemDone(index: nat, item: Item)
    | Completed(output: seq<Item>)
    | Failed(message: string)

  datatype Event = Event(number: nat, body: Body)

  /** `Ids(k)` is the random id of the k-th item. */
  type Ids = nat -> string

  // ---- the events of one response ----

  function CallItem(id: string, call: ToolCall): Item {
    FunctionCall(id, true, call.name, call.arguments)
  }

  function MessageItem(id: string, text: string): Item {
    Message(id, true, [text])
  }

  /** `responseOutput`: the calls, and a message if there is text or nothing else. */
  function ResponseOutput(ids: Ids, text: string, calls: seq<ToolCall>): seq<Item> {
    seq(|calls|, k requires 0 <= k < |calls| => CallItem(ids(k), calls[k]))
    + (if text != "" || calls == [] then [MessageItem(ids(|calls|), text)] else [])
  }

  method BuildResponseOutput(ids: Ids, text: string, calls: seq<ToolCall>) returns (output: seq<Item>)
    ensures output == ResponseOutput(ids, text, calls)
  {
    output := [];
    for k := 0 to |calls|
      invariant output == seq(k, j requires 0 <= j < k => CallItem(ids(j), calls[j]))
    {
      output := output + [CallItem(ids(k), calls[k])];
    }
    if text != "" || |calls| == 0 {
      output := output + [MessageItem(ids(|calls|), text)];
    }
  }

  function CallBodies(index: nat, id: string, call: ToolCall): seq<Body> {
    [ItemAdded(index, FunctionCall(id, false, call.name, "")), ArgumentsDelta(id, index, call.arguments),
     ArgumentsDone(id, index, call.name, call.arguments), ItemDone(index, CallItem(id, call))]
  }

  function AllCallBodies(ids: Ids, calls: seq<ToolCall>): seq<Body> {
    if calls == [] then [] else
      var n := |calls| - 1;
      AllCallBodies(ids, calls[..n]) + CallBodies(n, ids(n), calls[n])
  }

  function MessageStart(index: nat, id: string): seq<Body> {
    [ItemAdded(index, Message(id, false, [])), PartAdded(id, index)]
  }

  function Spoken(index: nat, id: string, deltas: seq<string>): seq<Body> {
    if deltas == [] then [] else
      Spoken(index, id, deltas[..|deltas| - 1])
      + (if deltas[|deltas| - 1] != "" then [TextDelta(id, index, deltas[|deltas| - 1])] else [])
  }

  function MessageEnd(index: nat, id: string, text: string): seq<Body> {
    [TextDone(id, index, text), PartDone(id, index, text), ItemDone(index, MessageItem(id, text))]
  }

  function Buffered(index: nat, id: string, text: string): seq<Body> {
    MessageStart(index, id) + Spoken(index, id, [text]) + MessageEnd(index, id, text)
  }

  function WithTools(ids: Ids, ending: Ending): seq<Body> {
    match ending
    case Failure(message) => [Failed(message)]
    case Answer(answer) =>
      var text, calls := Cleaned(answer), Calls(answer);
      AllCallBodies(ids, calls)
      + (if text != "" || calls == [] then Buffered(|calls|, ids(|calls|), text) else [])
      + [Completed(ResponseOutput(ids, text, calls))]
  }

  function WithoutTools(ids: Ids, deltas: seq<string>, ending: Ending): seq<Body> {
    MessageStart(0, ids(0)) +
    match ending
    case Failure(message) => Spoken(0, ids(0), deltas) + [Failed(message)]
    case Answer(text) =>
      Spoken(0, ids(0), deltas + [RemainingText(text, Concat(deltas))])
      + MessageEnd(0, ids(0), text) + [Completed([MessageItem(ids(0), text)])]
  }

  function Bodies(tools: bool, ids: Ids, deltas: seq<string>, ending: Ending): seq<Body> {
    [Created, InProgress] + if tools then WithTools(ids, ending) else WithoutTools(ids, deltas, ending)
  }

  function Numbered(bodies: seq<Body>): seq<Event> {
    seq(|bodies|, k requires 0 <= k < |bodies| => Event(k, bodies[k]))
  }

  // ---- writing them ----

  class ResponseEventWriter {
    var written: seq<Event>
    var sequence: nat

    constructor ()
      ensures written == [] && sequence == 0
    {
      written, sequence := [], 0;
    }

    ghost predicate Wrote(bodies: seq<Body>)
      reads this
    {
      sequence == |bodies| && written == Numbered(bodies)
    }

    method Send(body: Body, ghost before: seq<Body>)
      requires Wrote(before)
      modifies this
      ensures Wrote(before + [body])
    {
      written := written + [Event(sequence, body)];
      sequence := sequence + 1;
    }

    method SendAll(bodies: seq<Body>, ghost before: seq<Body>)
      requires Wrote(before)
      modifies this
      ensures Wrote(before + bodies)
    {
      assert before + [] == before;
      for k := 0 to |bodies|
        invariant Wrote(before + bodies[..k])
      {
        Send(bodies[k], before + bodies[..k]);
        assert before + bodies[..k] + [bodies[k]] == before + bodies[..k + 1];
      }
      assert bodies[..|bodies|] == bodies;
    }
  }

  method SendCall(events: ResponseEventWriter, index: nat, id: string, call: ToolCall,
                  ghost before: seq<Body>) returns (item: Item)
    requires events.Wrote(before)
    modifies events
    ensures events.Wrote(before + CallBodies(index, id, call)) && item == CallItem(id, call)
  {
    item := FunctionCall(id, true, call.name, call.arguments);
    events.SendAll([ItemAdded(index, FunctionCall(id, false, call.name, "")),
                    ArgumentsDelta(id, index, call.arguments),
                    ArgumentsDone(id, index, call.name, call.arguments),
                    ItemDone(index, item)], before);
  }

  method SendText(events: ResponseEventWriter, index: nat, id: string, delta: string, ghost before: seq<Body>,
                  ghost sent: seq<string>)
    requires events.Wrote(before + Spoken(index, id, sent))
    modifies events
    ensures events.Wrote(before + Spoken(index, id, sent + [delta]))
  {
    assert (sent + [delta])[..|sent|] == sent;
    if delta == "" {
      assert before + Spoken(index, id, sent + [delta]) == before + Spoken(index, id, sent);
      return;
    }
    events.Send(TextDelta(id, index, delta), before + Spoken(index, id, sent));
    assert before + Spoken(index, id, sent) + [TextDelta(id, index, delta)] == before + Spoken(index, id, sent + [delta]);
  }

  method EmitBufferedMessage(events: ResponseEventWriter, id: string, text: string, index: nat, ghost before: seq<Body>)
    returns (message: Item)
    requires events.Wrote(before)
    modifies events
    ensures events.Wrote(before + Buffered(index, id, text)) && message == MessageItem(id, text)
  {
    message := Message(id, true, [text]);
    events.SendAll([ItemAdded(index, Message(id, false, [])), PartAdded(id, index)], before);
    assert before + MessageStart(index, id) + Spoken(index, id, []) == before + MessageStart(index, id);
    SendText(events, index, id, text, before + MessageStart(index, id), []);
    assert [] + [text] == [text];
    ghost var spoken := before + MessageStart(index, id) + Spoken(index, id, [text]);
    events.SendAll([TextDone(id, index, text), PartDone(id, index, text), ItemDone(index, message)], spoken);
    assert spoken + MessageEnd(index, id, text) == before + Buffered(index, id, text);
  }

  method SendCalls(events: ResponseEventWriter, ids: Ids, calls: seq<ToolCall>, ghost before: seq<Body>)
    returns (output: seq<Item>)
    requires events.Wrote(before)
    modifies events
    ensures events.Wrote(before + AllCallBodies(ids, calls))
    ensures output == seq(|calls|, k requires 0 <= k < |calls| => CallItem(ids(k), calls[k]))
  {
    hide CallBodies;
    output := [];
    assert before + AllCallBodies(ids, []) == before;
    for k := 0 to |calls|
      invariant events.Wrote(before + AllCallBodies(ids, calls[..k]))
      invariant output == seq(k, j requires 0 <= j < k => CallItem(ids(j), calls[j]))
    {
      ghost var sofar := before + AllCallBodies(ids, calls[..k]);
      var item := SendCall(events, k, ids(k), calls[k], sofar);
      assert calls[..k + 1][..k] == calls[..k];
      assert sofar + CallBodies(k, ids(k), calls[k]) == before + AllCallBodies(ids, calls[..k + 1]);
      output := output + [item];
    }
    assert calls[..|calls|] == calls;
  }

  method StreamWithTools(events: ResponseEventWriter, ids: Ids, ending: Ending, ghost before: seq<Body>)
    requires events.Wrote(before)
    modifies events
    ensures events.Wrote(before + WithTools(ids, ending))
  {
    hide Cleaned, Calls, AllCallBodies, Buffered;
    if ending.Failure? {
      events.Send(Failed(ending.message), before);
      return;
    }
    var text, calls := ParseToolCalls(ending.text);
    var output := SendCalls(events, ids, calls, before);
    ghost var sofar := before + AllCallBodies(ids, calls);
    ghost var last: seq<Body> := [];
    if text != "" || |calls| == 0 {
      var message := EmitBufferedMessage(events, ids(|calls|), text, |calls|, sofar);
      output := output + [message];
      last := Buffered(|calls|, ids(|calls|), text);
    }
    assert sofar + [] == sofar;
    assert output == ResponseOutput(ids, text, calls);
    events.Send(Completed(output), sofar + last);
    assert sofar + last + [Completed(output)] == before + (AllCallBodies(ids, calls) + last + [Completed(output)]);
  }

  method StreamWithoutTools(events: ResponseEventWriter, ids: Ids, deltas: seq<string>, ending: Ending,
                            ghost before: seq<Body>)
    requires events.Wrote(before)
    modifies events
    ensures events.Wrote(before + WithoutTools(ids, deltas, ending))
  {
    hide Spoken;
    var id := ids(0);
    events.SendAll([ItemAdded(0, Message(id, false, [])), PartAdded(id, 0)], before);
    var sent := "";
    ghost var start := before + MessageStart(0, id);
    NothingSpoken(0, id);
    assert start + [] == start;
    for k := 0 to |deltas|
      invariant events.Wrote(start + Spoken(0, id, deltas[..k])) && sent == Concat(deltas[..k])
    {
      SendText(events, 0, id, deltas[k], start, deltas[..k]);
      assert deltas[..k + 1] == deltas[..k] + [deltas[k]];
      ConcatAppend(deltas[..k], deltas[k]);
      sent := sent + deltas[k];
    }
    assert deltas[..|deltas|] == deltas;
    if ending.Failure? {
      ghost var spoken := start + Spoken(0, id, deltas);
      events.Send(Failed(ending.message), spoken);
      assert spoken + [Failed(ending.message)] == before + WithoutTools(ids, deltas, ending);
      return;
    }
    var text := ending.text;
    var rest := RemainingText(text, sent);
    SendText(events, 0, id, rest, start, deltas);
    ghost var spoken := start + Spoken(0, id, deltas + [rest]);
    var message := Message(id, true, [text]);
    events.SendAll([TextDone(id, 0, text), PartDone(id, 0, text), ItemDone(0, message), Completed([message])], spoken);
    assert [TextDone(id, 0, text), PartDone(id, 0, text), ItemDone(0, message), Completed([message])]
        == MessageEnd(0, id, text) + [Completed([message])];
    assert spoken + (MessageEnd(0, id, text) + [Completed([message])]) == before + WithoutTools(ids, deltas, ending);
  }

  lemma NothingSpoken(index: nat, id: string)
    ensures Spoken(index, id, []) == []
  {
  }

  method StreamResponses(tools: bool, ids: Ids, deltas: seq<string>,
                         ending: Ending) returns (events: ResponseEventWriter)
    ensures fresh(events) && events.Wrote(Bodies(tools, ids, deltas, ending))
  {
    hide WithTools, WithoutTools;
    events := new ResponseEventWriter();
    assert [] + [Created, InProgress] == [Created, InProgress];
    events.SendAll([Created, InProgress], []);
    if tools {
      StreamWithTools(events, ids, ending, [Created, InProgress]);
    } else {
      StreamWithoutTools(events, ids, deltas, ending, [Created, InProgress]);
    }
  }
}
