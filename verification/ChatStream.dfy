/** The Chat Completions stream: chunks read into canonical events and events rendered back into
    chunks (`crates/oag-proto/src/openai.rs`). */
module ChatStream {
  import opened Bytes
  import opened TokenUsage
  import opened Hub
  import opened Accumulator
  import opened FunctionNames

  /** One entry of `delta.tool_calls`. Only the first entry of a call carries its id and name. */
  datatype ToolCallDelta = ToolCallDelta(
    index: Option<nat>,
    id: Option<Text>,
    name: Option<Text>,
    arguments: Option<Text>)

  datatype Delta = Delta(
    role: bool,
    content: Option<Text>,
    refusal: Option<Text>,
    reasoningContent: Option<Text>,
    reasoning: Option<Text>,
    toolCalls: seq<ToolCallDelta>)

  datatype Choice = Choice(delta: Delta, finish: Option<string>)

  datatype Chunk =
    | Chunk(usage: Option<PromptUsage>, choice: Option<Choice>)
    | ErrorChunk(message: Text)

  const EMPTY_DELTA: Delta := Delta(false, None, None, None, None, [])

  /** A string field that is present and not empty. */
  function NonEmpty(field: Option<Text>): Option<Text> {
    if field.Some? && field.value == [] then None else field
  }

  function OrEmpty(field: Option<Text>): Text { if field.Some? then field.value else [] }

  function Announced(call: ToolCallDelta): Option<Text> { NonEmpty(call.id) }

  function ReasoningOf(d: Delta): Option<Text> {
    NonEmpty(if d.reasoningContent.Some? then d.reasoningContent else d.reasoning)
  }

  function FinishReason(raw: string, calledATool: bool, refused: bool): StopReason {
    if raw == "length" then MaxTokens
    else if raw == "tool_calls" || raw == "function_call" then ToolUse
    else if raw == "content_filter" then Refusal
    else if refused then Refusal
    else if calledATool then ToolUse
    else EndTurn
  }

  // ── reading ─────────────────────────────────────────────────────────────────

  /** Calls known before this payload come first, those it began follow. */
  function ResolveOpened(known: seq<Text>, began: seq<Text>, index: nat): Option<Text> {
    if index < |known| then Some(known[index])
    else if index - |known| < |began| then Some(began[index - |known|])
    else None
  }

  function FragmentId(known: seq<Text>, began: seq<Text>, call: ToolCallDelta): Text {
    if Announced(call).Some? then Announced(call).value
    else if call.index.Some? && ResolveOpened(known, began, call.index.value).Some?
    then ResolveOpened(known, began, call.index.value).value
    else if began != [] then began[|began| - 1]
    else if known != [] then known[|known| - 1]
    else []
  }

  /** The calls announced by the entries of one payload, in order. */
  function OpenedBy(calls: seq<ToolCallDelta>): seq<Text> {
    if calls == [] then []
    else
      var last := Announced(calls[|calls| - 1]);
      OpenedBy(calls[..|calls| - 1]) + if last.Some? then [last.value] else []
  }

  function CallEvents(names: NameMap, known: seq<Text>, began: seq<Text>, call: ToolCallDelta): seq<StreamEvent> {
    (if Announced(call).Some?
     then [ToolUseStart(Announced(call).value, names.Original(OrEmpty(call.name)))] else []) +
    (if NonEmpty(call.arguments).Some?
     then [ToolUseDelta(FragmentId(known, began, call), call.arguments.value)] else [])
  }

  function AllCallEvents(names: NameMap, known: seq<Text>, calls: seq<ToolCallDelta>): seq<StreamEvent> {
    if calls == [] then []
    else AllCallEvents(names, known, calls[..|calls| - 1]) +
         CallEvents(names, known, OpenedBy(calls), calls[|calls| - 1])
  }

  function Ends(ids: seq<Text>): seq<StreamEvent> {
    if ids == [] then [] else Ends(ids[..|ids| - 1]) + [ToolUseEnd(ids[|ids| - 1])]
  }

  function NotKnown(known: seq<Text>, began: seq<Text>): seq<Text> {
    if began == [] then []
    else
      var last := began[|began| - 1];
      NotKnown(known, began[..|began| - 1]) + if last in known then [] else [last]
  }

  function TextEvent(text: Option<Text>): seq<StreamEvent> {
    if NonEmpty(text).Some? then [TextDelta(text.value)] else []
  }

  function ReasoningEvent(d: Delta): seq<StreamEvent> {
    if ReasoningOf(d).Some? then [ThinkingDelta(ReasoningOf(d).value)] else []
  }

  /** The answer, the refusal and the reasoning, in the order they are read. */
  function ProseEvents(d: Delta): seq<StreamEvent> {
    TextEvent(d.content) + TextEvent(d.refusal) + ReasoningEvent(d)
  }

  function UsageEvent(usage: Option<PromptUsage>): seq<StreamEvent> {
    if usage.Some? then [UsageUpdate(ReadPromptUsage(usage.value))] else []
  }

  function FinishEvents(acc: Acc, choice: Choice): seq<StreamEvent> {
    if choice.finish.None? || choice.finish.value == "" then []
    else
      var known, began := ToolIds(acc.buffers), OpenedBy(choice.delta.toolCalls);
      Ends(known + NotKnown(known, began)) +
      [Stop(FinishReason(choice.finish.value, acc.toolCalls > 0 || began != [], acc.sawRefusal), NO_USAGE)]
  }

  /** The accumulator once the payload's refusal, if it carries one, has been noted. */
  function Noted(acc: Acc, chunk: Chunk): Acc {
    if chunk.Chunk? && chunk.choice.Some? && NonEmpty(chunk.choice.value.delta.refusal).Some?
    then acc.(sawRefusal := true) else acc
  }

  function Parsed(acc: Acc, chunk: Chunk): seq<StreamEvent> {
    if chunk.ErrorChunk? then []
    else if chunk.choice.None? then UsageEvent(chunk.usage)
    else
      var choice := chunk.choice.value;
      UsageEvent(chunk.usage) + ProseEvents(choice.delta) +
      AllCallEvents(acc.names, ToolIds(acc.buffers), choice.delta.toolCalls) + FinishEvents(Noted(acc, chunk), choice)
  }

  /** The tool-call entries of one payload. `began` holds the calls this payload announced: the
      accumulator learns of them only once the caller folds the events in. */
  method ParseCalls(calls: seq<ToolCallDelta>, acc: StreamAccumulator)
    returns (events: seq<StreamEvent>, began: seq<Text>)
    ensures events == AllCallEvents(acc.names, ToolIds(acc.buffers), calls)
    ensures began == OpenedBy(calls)
  {
    events, began := [], [];
    var known := ToolIds(acc.buffers);
    for i := 0 to |calls|
      invariant events == AllCallEvents(acc.names, known, calls[..i])
      invariant began == OpenedBy(calls[..i])
    {
      assert calls[..i + 1][..i] == calls[..i];
      var call := calls[i];
      var announced := Announced(call);
      var added: seq<StreamEvent> := [];
      if announced.Some? {
        began := began + [announced.value];
        added := [ToolUseStart(announced.value, acc.names.Original(OrEmpty(call.name)))];
      }
      if NonEmpty(call.arguments).Some? {
        added := added + [ToolUseDelta(FragmentId(known, began, call), call.arguments.value)];
      }
      assert began == OpenedBy(calls[..i + 1]);
      assert added == CallEvents(acc.names, known, began, call);
      events := events + added;
    }
    assert calls[..|calls|] == calls;
  }

  /** Every call ends at the finish, since this dialect never says one has. */
  method ParseFinish(raw: string, began: seq<Text>, acc: StreamAccumulator) returns (events: seq<StreamEvent>)
    ensures var known := ToolIds(acc.buffers);
            events == Ends(known + NotKnown(known, began)) +
                      [Stop(FinishReason(raw, acc.toolCalls > 0 || began != [], acc.sawRefusal), NO_USAGE)]
  {
    var known := ToolIds(acc.buffers);
    var ended := known;
    for i := 0 to |began|
      invariant ended == known + NotKnown(known, began[..i])
    {
      assert began[..i + 1][..i] == began[..i];
      if began[i] !in known {
        ended := ended + [began[i]];
      }
    }
    assert began[..|began|] == began;
    events := [];
    for i := 0 to |ended|
      invariant events == Ends(ended[..i])
    {
      assert ended[..i + 1][..i] == ended[..i];
      events := events + [ToolUseEnd(ended[i])];
    }
    assert ended[..|ended|] == ended;
    events := events + [Stop(FinishReason(raw, acc.toolCalls > 0 || began != [], acc.sawRefusal), NO_USAGE)];
  }

  method ParseEvent(chunk: Chunk, acc: StreamAccumulator) returns (events: seq<StreamEvent>)
    modifies acc
    ensures events == old(Parsed(acc.View(), chunk))
    ensures acc.View() == old(Noted(acc.View(), chunk))
  {
    if chunk.ErrorChunk? {
      return [];
    }
    events := UsageEvent(chunk.usage);
    if chunk.choice.None? {
      return;
    }
    var choice := chunk.choice.value;
    events := events + TextEvent(choice.delta.content);
    if NonEmpty(choice.delta.refusal).Some? {
      acc.NoteRefusal();
    }
    events := events + TextEvent(choice.delta.refusal) + ReasoningEvent(choice.delta);
    assert events == UsageEvent(chunk.usage) + ProseEvents(choice.delta);
    var called, began := ParseCalls(choice.delta.toolCalls, acc);
    events := events + called;
    if choice.finish.Some? && choice.finish.value != "" {
      var finish := ParseFinish(choice.finish.value, began, acc);
      events := events + finish;
    }
  }

  // ── a stream, folded in payload by payload ──────────────────────────────────

  function RelayChunks(names: NameMap, chunks: seq<Chunk>): Relay {
    if chunks == [] then Relay(Begun(names), [])
    else
      var before, chunk := RelayChunks(names, chunks[..|chunks| - 1]), chunks[|chunks| - 1];
      var events := Parsed(before.acc, chunk);
      Relayed(before, Noted(before.acc, chunk), events)
  }

  // ── rendering ───────────────────────────────────────────────────────────────

  datatype Renderer = Renderer(roleSent: bool, toolIds: seq<Text>, finished: bool, usage: Usage)

  const FRESH: Renderer := Renderer(false, [], false, NO_USAGE)

  function Says(d: Delta): Chunk { Chunk(None, Some(Choice(d, None))) }

  function WithTool(ids: seq<Text>, id: Text): seq<Text> {
    if id in ids then ids else ids + [id]
  }

  function FinishWord(reason: StopReason): string {
    match reason
    case MaxTokens => "length"
    case ToolUse => "tool_calls"
    case Refusal => "content_filter"
    case EndTurn => "stop"
    case StopSequence => "stop"
  }

  function After(st: Renderer, e: StreamEvent): Renderer {
    match e
    case Start(_, usage) => st.(usage := st.usage.Merge(usage), roleSent := true)
    case TextDelta(_) => st.(roleSent := true)
    case ToolUseStart(id, _) => st.(toolIds := WithTool(st.toolIds, id))
    case ToolUseDelta(id, _) => st.(toolIds := WithTool(st.toolIds, id))
    case Stop(_, usage) => if st.finished then st else st.(usage := st.usage.Merge(usage), finished := true)
    case UsageUpdate(usage) => st.(usage := st.usage.Merge(usage))
    case _ => st
  }

  function Rendered(st: Renderer, e: StreamEvent): seq<Chunk> {
    match e
    case Start(_, _) => [Says(EMPTY_DELTA.(role := true, content := Some([])))]
    case TextDelta(text) => [Says(EMPTY_DELTA.(role := !st.roleSent, content := Some(text)))]
    case ThinkingDelta(text) => [Says(EMPTY_DELTA.(reasoningContent := Some(text)))]
    case ToolUseStart(id, name) =>
      [Says(EMPTY_DELTA.(toolCalls := [ToolCallDelta(Some(Position(st.toolIds, id)), Some(id), Some(name), Some([]))]))]
    case ToolUseDelta(id, fragment) =>
      [Says(EMPTY_DELTA.(toolCalls := [ToolCallDelta(Some(Position(st.toolIds, id)), None, None, Some(fragment))]))]
    case Stop(reason, usage) =>
      if st.finished then []
      else [Chunk(Some(ChatUsage(st.usage.Merge(usage))), Some(Choice(EMPTY_DELTA, Some(FinishWord(reason)))))]
    case UsageUpdate(_) => []
    case ToolUseEnd(_) => []
    case Error(message) => [ErrorChunk(message)]
  }

  function RunState(events: seq<StreamEvent>): Renderer {
    if events == [] then FRESH else After(RunState(events[..|events| - 1]), events[|events| - 1])
  }

  function RunChunks(events: seq<StreamEvent>): seq<Chunk> {
    if events == [] then []
    else RunChunks(events[..|events| - 1]) + Rendered(RunState(events[..|events| - 1]), events[|events| - 1])
  }

  class RenderState {
    var roleSent: bool
    var toolIds: seq<Text>
    var finished: bool
    var usage: Usage

    ghost function View(): Renderer
      reads this
    {
      Renderer(roleSent, toolIds, finished, usage)
    }

    constructor ()
      ensures View() == FRESH
    {
      roleSent, toolIds, finished, usage := false, [], false, NO_USAGE;
    }

    /** The index a call is addressed by, given out on first use. */
    method ToolIndex(id: Text) returns (index: nat)
      modifies this`toolIds
      ensures index == old(Position(toolIds, id)) && index < |toolIds| && toolIds[index] == id
      ensures View() == old(View().(toolIds := WithTool(toolIds, id)))
    {
      index := 0;
      while index < |toolIds|
        invariant index <= |toolIds| && toolIds == old(toolIds)
        invariant forall k :: 0 <= k < index ==> toolIds[k] != id
      {
        if toolIds[index] == id {
          return;
        }
        index := index + 1;
      }
      toolIds := toolIds + [id];
    }

    method RenderEvent(e: StreamEvent) returns (out: seq<Chunk>)
      modifies this
      ensures View() == old(After(View(), e))
      ensures out == old(Rendered(View(), e))
    {
      match e {
        case Start(_, reported) =>
          usage := usage.Merge(reported);
          roleSent := true;
          out := [Says(EMPTY_DELTA.(role := true, content := Some([])))];
        case TextDelta(text) =>
          out := [Says(EMPTY_DELTA.(role := !roleSent, content := Some(text)))];
          roleSent := true;
        case ThinkingDelta(text) =>
          out := [Says(EMPTY_DELTA.(reasoningContent := Some(text)))];
        case ToolUseStart(id, name) =>
          var index := ToolIndex(id);
          out := [Says(EMPTY_DELTA.(toolCalls := [ToolCallDelta(Some(index), Some(id), Some(name), Some([]))]))];
        case ToolUseDelta(id, fragment) =>
          var index := ToolIndex(id);
          out := [Says(EMPTY_DELTA.(toolCalls := [ToolCallDelta(Some(index), None, None, Some(fragment))]))];
        case Stop(reason, reported) =>
          if finished {
            return [];
          }
          usage := usage.Merge(reported);
          finished := true;
          out := [Chunk(Some(ChatUsage(usage)), Some(Choice(EMPTY_DELTA, Some(FinishWord(reason)))))];
        case UsageUpdate(reported) =>
          usage := usage.Merge(reported);
          out := [];
        case ToolUseEnd(_) =>
          out := [];
        case Error(message) =>
          out := [ErrorChunk(message)];
      }
    }
  }
}
