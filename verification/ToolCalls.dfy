/** The tool-call protocol of internal/openai: how a call is written into a prompt
    (prompt.go) and read back out of a reply (tools.go). */
module ToolCalls {
  import opened GoStrings
  import opened ToolGate
  import opened ToolBlocks
  import Json
  import opened JsonLaws

  /** A call without its random id. */
  datatype ToolCall = ToolCall(name: string, arguments: string)

  const NO_CALL := ToolCall("", "")

  // ---- reading ----

  /** `json.Unmarshal` into a struct with a string field `name` and a raw field
      `arguments`: members are assigned in order, and a name that is neither a string nor
      null is an error. */
  function Assigned(t: string, fields: seq<Json.Field>): Option<ToolCall>
    requires Json.InText(t, fields)
  {
    if fields == [] then Some(NO_CALL) else
      match Assigned(t, fields[..|fields| - 1])
      case None => None
      case Some(p) =>
        var f := fields[|fields| - 1];
        if Json.Names(f.key, "name") then
          if t[f.start] == '"' then
            match Json.Unquote(t, f.start + 1)
            case None => None
            case Some(x) => Some(p.(name := x.value))
          else if t[f.start] == 'n' then Some(p) else None
        else if Json.Names(f.key, "arguments") then Some(p.(arguments := t[f.start..f.end]))
        else Some(p)
  }

  function Decode(t: string): Option<ToolCall> {
    if !Json.Valid(t) then None else
      match Json.Members(t)
      case Some(fields) => Assigned(t, fields)
      case None => if t[Json.SkipWs(t, 0)] == 'n' then Some(NO_CALL) else None
  }

  /** Missing and null arguments stand for an empty object. */
  function Normal(arguments: string): string {
    var a := TrimSpace(arguments);
    if a == "" || a == "null" then "{}" else a
  }

  /** The call that the body of a block stands for, if it stands for one. */
  function CallOf(body: string): Option<ToolCall> {
    match Decode(TrimSpace(body))
    case None => None
    case Some(p) =>
      if p.name == "" || !Json.Valid(Normal(p.arguments)) then None
      else Some(ToolCall(p.name, Normal(p.arguments)))
  }

  function CallsOf(matches: seq<Match>): seq<ToolCall> {
    if matches == [] then [] else
      CallsOf(matches[..|matches| - 1]) +
      match CallOf(matches[|matches| - 1].body)
      case None => []
      case Some(c) => [c]
  }

  function Calls(text: string): seq<ToolCall> {
    CallsOf(Matches(TOOL_FENCE, text))
  }

  function Cleaned(text: string): string {
    TrimSpace(Strip(TOOL_FENCE, text))
  }

  method ParseToolCalls(text: string) returns (cleaned: string, calls: seq<ToolCall>)
    ensures cleaned == Cleaned(text) && calls == Calls(text)
  {
    hide Matches, Strip, Decode, Json.Valid, TrimSpace;
    calls := [];
    var matches := Matches(TOOL_FENCE, text);
    for i := 0 to |matches|
      invariant calls == CallsOf(matches[..i])
    {
      assert matches[..i + 1][..i] == matches[..i];
      var payload := Decode(TrimSpace(matches[i].body));
      if payload.None? || payload.value.name == "" {
        continue;
      }
      var arguments := TrimSpace(payload.value.arguments);
      if arguments == "" || arguments == "null" {
        arguments := "{}";
      }
      if !Json.Valid(arguments) {
        continue;
      }
      calls := calls + [ToolCall(payload.value.name, arguments)];
    }
    assert matches[..|matches|] == matches;
    cleaned := TrimSpace(Strip(TOOL_FENCE, text));
  }

  // ---- writing ----

  /** A member's key, after the mark that precedes it. */
  function Key(lead: char, key: string): string {
    [lead, '"'] + key + "\":"
  }

  function Payload(name: string, arguments: string): string {
    Key('{', "name") + Json.Quote(name) + Key(',', "arguments") + (if arguments == "" then "{}" else arguments) + "}"
  }

  function Block(mk: Fence, payload: string): string {
    mk.open + "\n" + payload + "\n" + mk.close
  }

  /** `serializePriorToolCall`; a call without a name is not written. */
  function SerializePriorToolCall(call: ToolCall): string {
    if call.name == "" then "" else Block(TOOL_FENCE, Payload(call.name, call.arguments))
  }

  /** What the calls of an assistant message add to its block. */
  function Lines(calls: seq<ToolCall>): string {
    if calls == [] then "" else
      var serialized := SerializePriorToolCall(calls[0]);
      (if serialized == "" then "" else "\n" + serialized) + Lines(calls[1..])
  }

  /** The assistant block of `messagesToPrompt`. */
  method AssistantBlock(content: string, calls: seq<ToolCall>) returns (block: string)
    ensures block == AssistantHead(content) + Lines(calls)
  {
    hide SerializePriorToolCall;
    block := "[Assistant]";
    if content != "" {
      block := block + "\n" + content;
    }
    assert block == AssistantHead(content);
    assert calls[0..] == calls;
    for i := 0 to |calls|
      invariant block + Lines(calls[i..]) == AssistantHead(content) + Lines(calls)
    {
      var serialized := SerializePriorToolCall(calls[i]);
      assert calls[i..][1..] == calls[i + 1..];
      if serialized != "" {
        assert block + ("\n" + serialized + Lines(calls[i + 1..])) == block + "\n" + serialized + Lines(calls[i + 1..]);
        block := block + "\n" + serialized;
      } else {
        assert "" + Lines(calls[i + 1..]) == Lines(calls[i + 1..]);
      }
    }
    assert block + "" == block;
  }

  function AssistantHead(content: string): string {
    if content == "" then "[Assistant]" else "[Assistant]" + "\n" + content
  }

  /** The blocks of `calls` after `pre`, one to a line. */
  function Chain(pre: string, calls: seq<ToolCall>): string
    decreases |calls|
  {
    if calls == [] then pre else pre + SerializePriorToolCall(calls[0]) + Chain(if |calls| == 1 then "" else "\n", calls[1..])
  }

  /** The arguments a round trip preserves: absent, or JSON that may still be nested one
      level deeper. */
  predicate Sendable(arguments: string) {
    arguments == "" || Json.ValidWithin(arguments, Json.MAX_DEPTH - 1)
  }
}
