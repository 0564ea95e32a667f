/** The Converse stream read into canonical events, with a stop that is held until its bill arrives
    (`parse_stream_event` in `crates/oag-proto/src/converse.rs`). */
module ConverseStream {
  import opened Bytes
  import opened TokenUsage
  import opened Hub
  import opened FunctionNames
  import opened ToolUseIds
  import opened Accumulator

  datatype ToolOpening = ToolOpening(id: Text, name: Text)

  /** One event of the stream, by its type. Blocks are addressed by index, which the parser does not
      look at. A delta carries one of its three fields, the first of them that is present counting. */
  datatype Message =
    | MessageStart
    | ContentBlockStart(index: nat, toolUse: Option<ToolOpening>)
    | ContentBlockDelta(index: nat, text: Option<Text>, input: Option<Text>, reasoning: Option<Text>)
    | ContentBlockStop(index: nat)
    | MessageStop(reason: string)
    | Metadata(usage: Usage)
    | Fault(message: Text)
    | Unknown

  function ParseStopReason(raw: string): StopReason {
    if raw == "tool_use" then StopReason.ToolUse
    else if raw == "max_tokens" || raw == "model_context_window_exceeded" then MaxTokens
    else if raw == "stop_sequence" then StopSequence
    else if raw == "guardrail_intervened" || raw == "content_filtered" then StopReason.Refusal
    else EndTurn
  }

  function DeltaEvents(acc: Acc, message: Message): seq<StreamEvent>
    requires message.ContentBlockDelta?
  {
    if message.text.Some? then [TextDelta(message.text.value)]
    else if message.input.Some? then [ToolUseDelta(CurrentTool(acc), message.input.value)]
    else if message.reasoning.Some? then [ThinkingDelta(message.reasoning.value)]
    else []
  }

  function Parsed(ids: Spellings, acc: Acc, message: Message): seq<StreamEvent> {
    match message
    case MessageStart => [Start([], NO_USAGE)]
    case ContentBlockStart(_, Some(call)) => [ToolUseStart(ids.Original(call.id), acc.names.Original(call.name))]
    case ContentBlockDelta(_, _, _, _) => DeltaEvents(acc, message)
    case ContentBlockStop(_) => if acc.openTool.Some? then [ToolUseEnd(acc.openTool.value)] else []
    case Metadata(usage) => if acc.heldStop.Some? then [Stop(acc.heldStop.value, usage)] else [UsageUpdate(usage)]
    case Fault(words) => [Error(words)]
    case _ => []
  }

  /** The accumulator once the message's stop has been held, or the held one taken. */
  function Noted(acc: Acc, message: Message): Acc {
    match message
    case MessageStop(raw) => acc.(heldStop := Some(ParseStopReason(raw)))
    case Metadata(_) => acc.(heldStop := None)
    case _ => acc
  }

  method ParseDelta(message: Message, acc: StreamAccumulator) returns (events: seq<StreamEvent>)
    requires message.ContentBlockDelta?
    ensures events == DeltaEvents(acc.View(), message)
  {
    if message.text.Some? {
      return [TextDelta(message.text.value)];
    }
    if message.input.Some? {
      var id := if acc.buffers == [] then [] else acc.buffers[|acc.buffers| - 1].id;
      return [ToolUseDelta(id, message.input.value)];
    }
    if message.reasoning.Some? {
      return [ThinkingDelta(message.reasoning.value)];
    }
    return [];
  }

  method ParseStreamEvent(ids: Spellings, message: Message, acc: StreamAccumulator) returns (events: seq<StreamEvent>)
    modifies acc
    ensures events == old(Parsed(ids, acc.View(), message))
    ensures acc.View() == old(Noted(acc.View(), message))
  {
    events := [];
    match message {
      case MessageStart => events := [Start([], NO_USAGE)];
      case ContentBlockStart(_, toolUse) =>
        if toolUse.Some? {
          events := [ToolUseStart(ids.Original(toolUse.value.id), acc.names.Original(toolUse.value.name))];
        }
      case ContentBlockDelta(_, _, _, _) => events := ParseDelta(message, acc);
      case ContentBlockStop(_) =>
        if acc.openTool.Some? {
          events := [ToolUseEnd(acc.openTool.value)];
        }
      case MessageStop(raw) => acc.HoldStop(ParseStopReason(raw));
      case Metadata(usage) =>
        var held := acc.TakeHeldStop();
        events := if held.Some? then [Stop(held.value, usage)] else [UsageUpdate(usage)];
      case Fault(words) => events := [Error(words)];
      case Unknown =>
    }
  }

  function RelayMessages(names: NameMap, ids: Spellings, messages: seq<Message>): Relay {
    if messages == [] then Relay(Begun(names), [])
    else
      var before, message := RelayMessages(names, ids, messages[..|messages| - 1]), messages[|messages| - 1];
      var events := Parsed(ids, before.acc, message);
      Relayed(before, Noted(before.acc, message), events)
  }
}
