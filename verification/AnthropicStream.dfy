/** Canonical events rendered as Anthropic's block-structured stream
    (`RenderState` and `render_event` in `crates/oag-proto/src/anthropic.rs`). */
module AnthropicStream {
  import opened Bytes
  import opened TokenUsage
  import opened Hub

  datatype BlockKind = TextKind | ThinkingKind | ToolKind(id: Text, name: Text)

  datatype Frame =
    | MessageStart(model: Text, usage: Usage)
    | BlockStart(index: nat, kind: BlockKind)
    | BodyDelta(index: nat, thinking: bool, text: Text)
    | InputDelta(index: nat, partialJson: Text)
    | BlockStop(index: nat)
    | MessageDelta(reason: StopReason, usage: Usage)
    | MessageStop
    | ErrorFrame(message: Text)

  /** A tool block opened and not yet closed. */
  datatype OpenTool = OpenTool(id: Text, index: nat)

  datatype Renderer = Renderer(
    model: Text,
    started: bool,
    openText: Option<nat>,
    openTools: seq<OpenTool>,
    nextIndex: nat,
    usage: Usage,
    finished: bool)

  function Fresh(model: Text): Renderer { Renderer(model, false, None, [], 0, NO_USAGE, false) }

  // ── one event ───────────────────────────────────────────────────────────────

  function AdoptModel(current: Text, announced: Text): Text {
    if announced == [] then current else announced
  }

  function OpenIds(open: seq<OpenTool>): (r: seq<Text>)
    ensures |r| == |open| && forall k :: 0 <= k < |open| ==> r[k] == open[k].id
  {
    seq(|open|, k requires 0 <= k < |open| => open[k].id)
  }

  /** The block opened under the fragment's id, or else the most recently opened one. */
  function ToolBlock(open: seq<OpenTool>, id: Text): Option<nat> {
    var at := Position(OpenIds(open), id);
    if at < |open| then Some(open[at].index)
    else if open != [] then Some(open[|open| - 1].index) else None
  }

  function RemoveAt(open: seq<OpenTool>, at: nat): (r: seq<OpenTool>)
    requires at < |open|
    ensures |r| == |open| - 1
    ensures forall k :: 0 <= k < |r| ==> r[k] == open[if k < at then k else k + 1]
  {
    open[..at] + open[at + 1..]
  }

  function Without(open: seq<OpenTool>, id: Text): seq<OpenTool> {
    var at := Position(OpenIds(open), id);
    if at < |open| then RemoveAt(open, at) else open
  }

  function Stops(open: seq<OpenTool>): seq<Frame> {
    if open == [] then [] else [BlockStop(open[0].index)] + Stops(open[1..])
  }

  function StartFrames(st: Renderer): seq<Frame> {
    if st.started then [] else [MessageStart(st.model, st.usage)]
  }

  function TextStops(st: Renderer): seq<Frame> {
    if st.openText.Some? then [BlockStop(st.openText.value)] else []
  }

  function AfterText(st: Renderer): Renderer {
    var under := st.(started := true, openTools := []);
    if st.openText.Some? then under
    else under.(openText := Some(st.nextIndex), nextIndex := st.nextIndex + 1)
  }

  function TextFrames(st: Renderer, text: Text, thinking: bool): seq<Frame> {
    StartFrames(st) + Stops(st.openTools) +
    (if st.openText.Some? then [BodyDelta(st.openText.value, thinking, text)]
     else [BlockStart(st.nextIndex, if thinking then ThinkingKind else TextKind),
           BodyDelta(st.nextIndex, thinking, text)])
  }

  function After(st: Renderer, e: StreamEvent): Renderer {
    match e
    case Start(model, usage) =>
      st.(model := AdoptModel(st.model, model), usage := st.usage.Merge(usage), started := true)
    case TextDelta(_) => AfterText(st)
    case ThinkingDelta(_) => AfterText(st)
    case ToolUseStart(id, _) =>
      st.(started := true, openText := None, openTools := st.openTools + [OpenTool(id, st.nextIndex)],
          nextIndex := st.nextIndex + 1)
    case ToolUseEnd(id) => st.(openTools := Without(st.openTools, id))
    case UsageUpdate(usage) => st.(usage := st.usage.Merge(usage))
    case Stop(_, usage) =>
      if st.finished then st
      else st.(finished := true, usage := st.usage.Merge(usage), started := true, openText := None, openTools := [])
    case _ => st
  }

  function Frames(st: Renderer, e: StreamEvent): seq<Frame> {
    match e
    case Start(_, _) => StartFrames(After(st, e).(started := st.started))
    case TextDelta(text) => TextFrames(st, text, false)
    case ThinkingDelta(text) => TextFrames(st, text, true)
    case ToolUseStart(id, name) =>
      StartFrames(st) + TextStops(st) + [BlockStart(st.nextIndex, ToolKind(id, name))]
    case ToolUseDelta(id, fragment) =>
      if ToolBlock(st.openTools, id).Some? then [InputDelta(ToolBlock(st.openTools, id).value, fragment)] else []
    case ToolUseEnd(id) =>
      var at := Position(OpenIds(st.openTools), id);
      if at < |st.openTools| then [BlockStop(st.openTools[at].index)] else []
    case UsageUpdate(_) => []
    case Stop(reason, usage) =>
      if st.finished then []
      else
        var merged := st.(usage := st.usage.Merge(usage));
        StartFrames(merged) + TextStops(st) + Stops(st.openTools) + [MessageDelta(reason, merged.usage), MessageStop]
    case Error(message) => [ErrorFrame(message)]
  }

  // ── a run ───────────────────────────────────────────────────────────────────

  function RunState(st: Renderer, events: seq<StreamEvent>): Renderer {
    if events == [] then st else After(RunState(st, events[..|events| - 1]), events[|events| - 1])
  }

  function RunFrames(st: Renderer, events: seq<StreamEvent>): seq<Frame> {
    if events == [] then []
    else
      var init, last := events[..|events| - 1], events[|events| - 1];
      RunFrames(st, init) + Frames(RunState(st, init), last)
  }

  // ── the renderer itself ─────────────────────────────────────────────────────

  class RenderState {
    var model: Text
    var started: bool
    var openText: Option<nat>
    var openTools: seq<OpenTool>
    var nextIndex: nat
    var usage: Usage
    var finished: bool

    ghost function View(): Renderer
      reads this
    {
      Renderer(model, started, openText, openTools, nextIndex, usage, finished)
    }

    constructor (model: Text)
      ensures View() == Fresh(model)
    {
      this.model := model;
      started, openText, openTools, nextIndex := false, None, [], 0;
      usage, finished := NO_USAGE, false;
    }

    method CloseText(out: seq<Frame>) returns (r: seq<Frame>)
      modifies this`openText
      ensures View() == old(View()).(openText := None)
      ensures r == out + old(TextStops(View()))
    {
      r := out;
      if openText.Some? {
        r := r + [BlockStop(openText.value)];
        openText := None;
      }
    }

    /** Stop the first open block of this call, where there is one. */
    method CloseTool(out: seq<Frame>, id: Text) returns (r: seq<Frame>)
      modifies this`openTools
      ensures View() == old(After(View(), ToolUseEnd(id)))
      ensures r == out + old(Frames(View(), ToolUseEnd(id)))
    {
      r := out;
      var at := 0;
      while at < |openTools| && openTools[at].id != id
        invariant at <= |openTools|
        invariant forall k :: 0 <= k < at ==> OpenIds(openTools)[k] != id
        invariant openTools == old(openTools)
      {
        at := at + 1;
      }
      if at < |openTools| {
        assert OpenIds(openTools)[at] == id;
        r := r + [BlockStop(openTools[at].index)];
        openTools := openTools[..at] + openTools[at + 1..];
      }
    }

    /** Stop all tool blocks, oldest first. */
    method CloseTools(out: seq<Frame>) returns (r: seq<Frame>)
      modifies this`openTools
      ensures View() == old(View()).(openTools := [])
      ensures r == out + old(Stops(openTools))
    {
      r := out;
      while openTools != []
        invariant r + Stops(openTools) == out + old(Stops(openTools))
        decreases |openTools|
      {
        var index := openTools[0].index;
        openTools := openTools[1..];
        r := r + [BlockStop(index)];
      }
    }

    method EnsureStarted(out: seq<Frame>) returns (r: seq<Frame>)
      modifies this`started
      ensures View() == old(View()).(started := true)
      ensures r == out + old(StartFrames(View()))
    {
      r := out;
      if !started {
        started := true;
        r := r + [MessageStart(model, usage)];
      }
    }

    method RenderText(text: Text, thinking: bool) returns (out: seq<Frame>)
      modifies this
      ensures View() == old(AfterText(View()))
      ensures out == old(TextFrames(View(), text, thinking))
    {
      out := EnsureStarted([]);
      out := CloseTools(out);
      if openText.None? {
        var index := nextIndex;
        nextIndex := nextIndex + 1;
        openText := Some(index);
        out := out + [BlockStart(index, if thinking then ThinkingKind else TextKind)];
      }
      out := out + [BodyDelta(openText.value, thinking, text)];
    }

    /** A new tool block beside the others; only text gives way to it. */
    method RenderToolStart(id: Text, name: Text) returns (out: seq<Frame>)
      modifies this
      ensures View() == old(After(View(), ToolUseStart(id, name)))
      ensures out == old(Frames(View(), ToolUseStart(id, name)))
    {
      out := EnsureStarted([]);
      out := CloseText(out);
      var index := nextIndex;
      nextIndex := nextIndex + 1;
      openTools := openTools + [OpenTool(id, index)];
      out := out + [BlockStart(index, ToolKind(id, name))];
    }

    method RenderStop(reason: StopReason, reported: Usage) returns (out: seq<Frame>)
      modifies this
      ensures View() == old(After(View(), Stop(reason, reported)))
      ensures out == old(Frames(View(), Stop(reason, reported)))
    {
      if finished {
        return [];
      }
      finished := true;
      usage := usage.Merge(reported);
      out := EnsureStarted([]);
      out := CloseText(out);
      out := CloseTools(out);
      out := out + [MessageDelta(reason, usage), MessageStop];
    }

    method RenderEvent(e: StreamEvent) returns (out: seq<Frame>)
      modifies this
      ensures View() == old(After(View(), e))
      ensures out == old(Frames(View(), e))
    {
      out := [];
      match e {
        case Start(announced, reported) =>
          if announced != [] {
            model := announced;
          }
          usage := usage.Merge(reported);
          out := EnsureStarted(out);
        case TextDelta(text) =>
          out := RenderText(text, false);
        case ThinkingDelta(text) =>
          out := RenderText(text, true);
        case ToolUseStart(id, name) =>
          out := RenderToolStart(id, name);
        case ToolUseDelta(id, fragment) =>
          var index := ToolBlock(openTools, id);
          if index.Some? {
            out := [InputDelta(index.value, fragment)];
          }
        case ToolUseEnd(id) =>
          out := CloseTool(out, id);
        case UsageUpdate(reported) =>
          usage := usage.Merge(reported);
        case Stop(reason, reported) =>
          out := RenderStop(reason, reported);
        case Error(message) =>
          out := [ErrorFrame(message)];
      }
    }
  }
}
