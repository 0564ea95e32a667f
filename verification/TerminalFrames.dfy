/** The chunk that ends an answer on the Chat Completions and Gemini wires: one for every run that stops,
    with the bill as of its first stop. */
module TerminalFrames {
  import opened Bytes
  import opened TokenUsage
  import opened Hub
  import opened JsonTree
  import ChatStream
  import GeminiStream

  /** What a frame with a finish tells its client. */
  datatype Closing<W> = Closing(usage: Option<PromptUsage>, word: W)

  // ── Chat Completions ────────────────────────────────────────────────────────

  function ChatClosing(chunk: ChatStream.Chunk): seq<Closing<string>> {
    if chunk.Chunk? && chunk.choice.Some? && chunk.choice.value.finish.Some?
    then [Closing(chunk.usage, chunk.choice.value.finish.value)] else []
  }

  function ChatClosings(chunks: seq<ChatStream.Chunk>): seq<Closing<string>> {
    if chunks == [] then [] else ChatClosings(chunks[..|chunks| - 1]) + ChatClosing(chunks[|chunks| - 1])
  }

  lemma ChatClosingsMore(chunks: seq<ChatStream.Chunk>, more: seq<ChatStream.Chunk>)
    requires |more| <= 1
    ensures ChatClosings(chunks + more) == ChatClosings(chunks) + if more == [] then [] else ChatClosing(more[0])
  {
    if more == [] {
      assert chunks + more == chunks;
    } else {
      assert (chunks + more)[..|chunks|] == chunks;
    }
  }

  function ChatClosed(ending: Option<Ending>): seq<Closing<string>> {
    if ending.None? then []
    else
      var word := match ending.value.reason
        case MaxTokens => "length"
        case ToolUse => "tool_calls"
        case Refusal => "content_filter"
        case _ => "stop";
      [Closing(Some(ChatUsage(ending.value.usage)), word)]
  }

  lemma ChatStep(st: ChatStream.Renderer, a: Answer, e: StreamEvent)
    requires st.finished == a.ending.Some? && (!st.finished ==> st.usage == a.usage)
    ensures var more, st', a' := ChatStream.Rendered(st, e), ChatStream.After(st, e), Observe(a, e);
            && |more| <= 1
            && ChatClosed(a'.ending) == ChatClosed(a.ending) + (if more == [] then [] else ChatClosing(more[0]))
            && st'.finished == a'.ending.Some? && (!st'.finished ==> st'.usage == a'.usage)
  {
    match e
    case Stop(_, _) =>
    case Start(_, _) =>
    case UsageUpdate(_) =>
    case _ =>
  }

  /** For every run: one chunk with a finish if it stopped, none if not, with the reason's word and the
      bill as of the first stop. */
  lemma {:induction false} ChatClosesOnce(events: seq<StreamEvent>)
    ensures var st, a := ChatStream.RunState(events), Read(events);
            && st.finished == a.ending.Some? && (!st.finished ==> st.usage == a.usage)
            && ChatClosings(ChatStream.RunChunks(events)) == ChatClosed(a.ending)
  {
    if events != [] {
      var init, e := events[..|events| - 1], events[|events| - 1];
      ChatClosesOnce(init);
      ChatStep(ChatStream.RunState(init), Read(init), e);
      ChatClosingsMore(ChatStream.RunChunks(init), ChatStream.Rendered(ChatStream.RunState(init), e));
    }
  }

  // ── Gemini ──────────────────────────────────────────────────────────────────

  function GeminiClosing(frame: GeminiStream.Frame): seq<Closing<GeminiStream.Finish>> {
    if frame.Chunk? && frame.candidate.Some? && frame.candidate.value.finish.Some?
    then [Closing(frame.usage, frame.candidate.value.finish.value)] else []
  }

  function GeminiClosings(frames: seq<GeminiStream.Frame>): seq<Closing<GeminiStream.Finish>> {
    if frames == [] then [] else GeminiClosings(frames[..|frames| - 1]) + GeminiClosing(frames[|frames| - 1])
  }

  lemma GeminiClosingsMore(frames: seq<GeminiStream.Frame>, more: seq<GeminiStream.Frame>)
    requires |more| <= 1
    ensures GeminiClosings(frames + more) == GeminiClosings(frames) + if more == [] then [] else GeminiClosing(more[0])
  {
    if more == [] {
      assert frames + more == frames;
    } else {
      assert (frames + more)[..|frames|] == frames;
    }
  }

  function GeminiClosed(ending: Option<Ending>): seq<Closing<GeminiStream.Finish>> {
    if ending.None? then []
    else
      var word := match ending.value.reason
        case MaxTokens => GeminiStream.MaxTokensWord
        case Refusal => GeminiStream.Safety
        case _ => GeminiStream.StopWord;
      [Closing(Some(GeminiUsage(ending.value.usage)), word)]
  }

  lemma GeminiStep(codec: Codec, st: GeminiStream.Renderer, a: Answer, e: StreamEvent)
    requires st.finished == a.ending.Some? && (!st.finished ==> st.usage == a.usage)
    ensures var more, st', a' := GeminiStream.Rendered(codec, st, e), GeminiStream.After(st, e), Observe(a, e);
            && |more| <= 1
            && GeminiClosed(a'.ending) == GeminiClosed(a.ending) + (if more == [] then [] else GeminiClosing(more[0]))
            && st'.finished == a'.ending.Some? && (!st'.finished ==> st'.usage == a'.usage)
  {
    match e
    case Stop(_, _) =>
    case Start(_, _) =>
    case UsageUpdate(_) =>
    case _ =>
  }

  /** The same for the Gemini renderer. */
  lemma {:induction false} GeminiClosesOnce(codec: Codec, events: seq<StreamEvent>)
    ensures var st, a := GeminiStream.RunState(events), Read(events);
            && st.finished == a.ending.Some? && (!st.finished ==> st.usage == a.usage)
            && GeminiClosings(GeminiStream.RunFrames(codec, events)) == GeminiClosed(a.ending)
  {
    if events != [] {
      var init, e := events[..|events| - 1], events[|events| - 1];
      GeminiClosesOnce(codec, init);
      GeminiStep(codec, GeminiStream.RunState(init), Read(init), e);
      GeminiClosingsMore(GeminiStream.RunFrames(codec, init), GeminiStream.Rendered(codec, GeminiStream.RunState(init), e));
    }
  }
}
