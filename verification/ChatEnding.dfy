/** Why a Chat Completions answer is said to have ended, on the words of its chunks alone. */
module ChatEnding {
  import opened Bytes
  import opened Finite
  import opened TokenUsage
  import opened Hub
  import opened FunctionNames
  import opened Accumulator
  import opened ChatStream
  import opened ChatBill
  import AnthropicStream
  import AnthropicTheorems

  /** The chunk carries words of a refusal. */
  predicate Refuses(chunk: Chunk) {
    && chunk.Chunk? && chunk.choice.Some?
    && chunk.choice.value.delta.refusal.Some? && chunk.choice.value.delta.refusal.value != []
  }

  /** An entry that says which call it opens. */
  predicate Names(call: ToolCallDelta) { call.id.Some? && call.id.value != [] }

  predicate AnyNames(calls: seq<ToolCallDelta>) { exists k :: 0 <= k < |calls| && Names(calls[k]) }

  predicate Announces(chunk: Chunk) {
    chunk.Chunk? && chunk.choice.Some? && AnyNames(chunk.choice.value.delta.toolCalls)
  }

  predicate AnyRefusal(chunks: seq<Chunk>) { exists k :: 0 <= k < |chunks| && Refuses(chunks[k]) }

  predicate AnyCall(chunks: seq<Chunk>) { exists k :: 0 <= k < |chunks| && Announces(chunks[k]) }

  lemma SeenMore(chunks: seq<Chunk>, chunk: Chunk)
    ensures AnyRefusal(chunks + [chunk]) <==> AnyRefusal(chunks) || Refuses(chunk)
    ensures AnyCall(chunks + [chunk]) <==> AnyCall(chunks) || Announces(chunk)
  {
    var more := chunks + [chunk];
    assert forall k :: 0 <= k < |chunks| ==> more[k] == chunks[k];
    assert more[|chunks|] == chunk;
  }

  // ── which calls were announced ──────────────────────────────────────────────

  predicate AnyStart(events: seq<StreamEvent>) { exists k :: 0 <= k < |events| && events[k].ToolUseStart? }

  lemma StartConcat(x: seq<StreamEvent>, y: seq<StreamEvent>)
    ensures AnyStart(x + y) <==> AnyStart(x) || AnyStart(y)
  {
    assert forall k :: 0 <= k < |x| ==> (x + y)[k] == x[k];
    assert forall k :: 0 <= k < |y| ==> (x + y)[|x| + k] == y[k];
    if k :| 0 <= k < |x| && x[k].ToolUseStart? {
      assert (x + y)[k].ToolUseStart?;
    }
    if k :| 0 <= k < |y| && y[k].ToolUseStart? {
      assert (x + y)[|x| + k].ToolUseStart?;
    }
    if k :| 0 <= k < |x + y| && (x + y)[k].ToolUseStart? {
      assert k < |x| ==> x[k].ToolUseStart?;
      assert k >= |x| ==> y[k - |x|].ToolUseStart?;
    }
  }

  lemma NamesMore(calls: seq<ToolCallDelta>)
    requires calls != []
    ensures AnyNames(calls) <==> AnyNames(calls[..|calls| - 1]) || Names(calls[|calls| - 1])
  {
    var init := calls[..|calls| - 1];
    if k :| 0 <= k < |init| && Names(init[k]) {
      assert Names(calls[k]);
    }
    if k :| 0 <= k < |calls| && Names(calls[k]) {
      assert k < |init| ==> Names(init[k]);
    }
  }

  lemma EntryStarts(names: NameMap, known: seq<Text>, began: seq<Text>, call: ToolCallDelta)
    ensures AnyStart(CallEvents(names, known, began, call)) <==> Names(call)
  {
    if Names(call) {
      assert CallEvents(names, known, began, call)[0].ToolUseStart?;
    }
  }

  lemma {:induction false} EntriesStart(names: NameMap, known: seq<Text>, calls: seq<ToolCallDelta>)
    ensures AnyStart(AllCallEvents(names, known, calls)) <==> AnyNames(calls)
    ensures OpenedBy(calls) != [] <==> AnyNames(calls)
  {
    if calls != [] {
      var init, last := calls[..|calls| - 1], calls[|calls| - 1];
      EntriesStart(names, known, init);
      NamesMore(calls);
      EntryStarts(names, known, OpenedBy(calls), last);
      StartConcat(AllCallEvents(names, known, init), CallEvents(names, known, OpenedBy(calls), last));
    }
  }

  lemma {:induction false} EndsStartNothing(ids: seq<Text>)
    ensures !AnyStart(Ends(ids))
  {
    if ids != [] {
      EndsStartNothing(ids[..|ids| - 1]);
      StartConcat(Ends(ids[..|ids| - 1]), [ToolUseEnd(ids[|ids| - 1])]);
    }
  }

  lemma FinishStartsNothing(acc: Acc, choice: Choice)
    ensures !AnyStart(FinishEvents(acc, choice))
  {
    if choice.finish.Some? && choice.finish.value != "" {
      var known, began := ToolIds(acc.buffers), OpenedBy(choice.delta.toolCalls);
      EndsStartNothing(known + NotKnown(known, began));
      StartConcat(Ends(known + NotKnown(known, began)), [Stop(ReasonFor(acc, choice), NO_USAGE)]);
    }
  }

  lemma ProseStartsNothing(usage: Option<PromptUsage>, d: Delta)
    ensures !AnyStart(UsageEvent(usage)) && !AnyStart(ProseEvents(d))
  {
  }

  lemma PayloadStarts(acc: Acc, chunk: Chunk)
    ensures AnyStart(Parsed(acc, chunk)) <==> Announces(chunk)
  {
    if chunk.Chunk? {
      ProseStartsNothing(chunk.usage, if chunk.choice.Some? then chunk.choice.value.delta else EMPTY_DELTA);
      if chunk.choice.Some? {
        var choice, u := chunk.choice.value, UsageEvent(chunk.usage);
        var prose, calls := ProseEvents(choice.delta), AllCallEvents(acc.names, ToolIds(acc.buffers), choice.delta.toolCalls);
        EntriesStart(acc.names, ToolIds(acc.buffers), choice.delta.toolCalls);
        FinishStartsNothing(Noted(acc, chunk), choice);
        StartConcat(u, prose);
        StartConcat(u + prose, calls);
        StartConcat(u + prose + calls, FinishEvents(Noted(acc, chunk), choice));
      }
    }
  }

  lemma {:induction false} StartsAreCounted(acc: Acc, events: seq<StreamEvent>)
    ensures ObservedAll(acc, events).toolCalls > 0 <==> acc.toolCalls > 0 || AnyStart(events)
  {
    if events != [] {
      var init, e := events[..|events| - 1], events[|events| - 1];
      StartsAreCounted(acc, init);
      StartConcat(init, [e]);
      assert init + [e] == events;
      CountStep(ObservedAll(acc, init), e);
      assert AnyStart([e]) <==> e.ToolUseStart? by {
        assert [e][0] == e;
      }
    }
  }

  lemma CountStep(acc: Acc, e: StreamEvent)
    ensures Observed(acc, e).toolCalls == acc.toolCalls + if e.ToolUseStart? then 1 else 0
  {
    match e
    case ToolUseDelta(_, _) =>
    case ToolUseStart(_, _) =>
    case _ =>
  }

  // ── what the accumulator has seen ───────────────────────────────────────────

  lemma SeenStep(names: NameMap, chunks: seq<Chunk>, chunk: Chunk)
    ensures var x, y := RelayChunks(names, chunks).acc, RelayChunks(names, chunks + [chunk]).acc;
            && y.sawRefusal == (x.sawRefusal || Refuses(chunk))
            && (y.toolCalls > 0 <==> x.toolCalls > 0 || Announces(chunk))
  {
    var acc := RelayChunks(names, chunks).acc;
    RelayIs(names, chunks, chunk);
    NotesHold(Noted(acc, chunk), Parsed(acc, chunk));
    StartsAreCounted(Noted(acc, chunk), Parsed(acc, chunk));
    PayloadStarts(acc, chunk);
  }

  lemma {:induction false} SeenIs(names: NameMap, chunks: seq<Chunk>)
    ensures RelayChunks(names, chunks).acc.sawRefusal == AnyRefusal(chunks)
    ensures RelayChunks(names, chunks).acc.toolCalls > 0 <==> AnyCall(chunks)
  {
    if chunks != [] {
      var init, chunk := chunks[..|chunks| - 1], chunks[|chunks| - 1];
      assert init + [chunk] == chunks;
      SeenIs(names, init);
      SeenStep(names, init, chunk);
      SeenMore(init, chunk);
    }
  }

  /** A finish word this dialect gives no meaning of its own. */
  predicate Unnamed(word: string) {
    word != "length" && word != "tool_calls" && word != "function_call" && word != "content_filter"
  }

  /** The reason that the words of a stream call for. */
  ghost predicate ReasonFits(reason: StopReason, word: string, called: bool, refused: bool) {
    && (reason == MaxTokens <==> word == "length")
    && (reason == ToolUse <==> word == "tool_calls" || word == "function_call" || (Unnamed(word) && called && !refused))
    && (reason == Refusal <==> word == "content_filter" || (Unnamed(word) && refused))
    && (reason == EndTurn <==> Unnamed(word) && !called && !refused)
  }

  lemma WordsDecide(word: string, called: bool, refused: bool)
    ensures ReasonFits(FinishReason(word, called, refused), word, called, refused)
  {
  }

  /** For every chunk sequence with a first finish, well formed or not: the answer ends, and the client's
      terminal frame says it ended, for truncation exactly on `length`; for a call exactly on its two
      words, or on an unnamed one with a call announced and no refusal by then; as a refusal exactly on
      `content_filter`, or on an unnamed word with refusal text in some chunk up to the finish; and
      as a plain end otherwise. */
  lemma EndingOnWords(names: NameMap, model: Text, before: seq<Chunk>, finish: Chunk, after: seq<Chunk>)
    requires Finishes(finish) && forall k :: 0 <= k < |before| ==> !Finishes(before[k])
    ensures var relay, seen := RelayChunks(names, before + [finish] + after), before + [finish];
            var ending, word := Read(relay.events).ending, finish.choice.value.finish.value;
            && ending.Some? && ReasonFits(ending.value.reason, word, AnyCall(seen), AnyRefusal(seen))
            && AnthropicTheorems.Terminals(AnthropicStream.RunFrames(AnthropicStream.Fresh(model), relay.events)) ==
               [AnthropicStream.MessageDelta(ending.value.reason, ending.value.usage)]
  {
    EndingIsShown(names, before, finish, after);
    AnthropicTheorems.TerminalFrameIsTheEnding(model, RelayChunks(names, before + [finish] + after).events);
    ReasonIsOfTheWords(names, before, finish);
  }

  lemma ReasonIsOfTheWords(names: NameMap, before: seq<Chunk>, finish: Chunk)
    requires Finishes(finish)
    ensures ReasonFits(ReasonFor(Noted(RelayChunks(names, before).acc, finish), finish.choice.value),
                       finish.choice.value.finish.value, AnyCall(before + [finish]), AnyRefusal(before + [finish]))
  {
    var acc, choice := Noted(RelayChunks(names, before).acc, finish), finish.choice.value;
    SeenIs(names, before);
    SeenMore(before, finish);
    EntriesStart(names, [], choice.delta.toolCalls);
    WordsDecide(choice.finish.value, acc.toolCalls > 0 || OpenedBy(choice.delta.toolCalls) != [], acc.sawRefusal);
  }

  // ── what is said ────────────────────────────────────────────────────────────

  /** The words of a chunk, on its fields: content, then refusal; and reasoning from its first field
      present. */
  function TextIn(chunk: Chunk): Text {
    if chunk.Chunk? && chunk.choice.Some?
    then OrEmpty(chunk.choice.value.delta.content) + OrEmpty(chunk.choice.value.delta.refusal) else []
  }

  function ReasoningIn(chunk: Chunk): Text {
    if chunk.ErrorChunk? || chunk.choice.None? then []
    else if chunk.choice.value.delta.reasoningContent.Some? then chunk.choice.value.delta.reasoningContent.value
    else OrEmpty(chunk.choice.value.delta.reasoning)
  }

  predicate Wordless(events: seq<StreamEvent>) {
    forall k :: 0 <= k < |events| ==> !events[k].TextDelta? && !events[k].ThinkingDelta?
  }

  lemma {:induction false} WordlessRun(a: Answer, events: seq<StreamEvent>)
    requires Wordless(events)
    ensures ReadFrom(a, events).text == a.text && ReadFrom(a, events).thinking == a.thinking
  {
    if events != [] {
      WordlessRun(a, events[..|events| - 1]);
    }
  }

  lemma {:induction false} CallsAreWordless(names: NameMap, known: seq<Text>, calls: seq<ToolCallDelta>)
    ensures Wordless(AllCallEvents(names, known, calls))
  {
    if calls != [] {
      CallsAreWordless(names, known, calls[..|calls| - 1]);
    }
  }

  lemma {:induction false} EndsAreWordless(ids: seq<Text>)
    ensures Wordless(Ends(ids))
  {
    if ids != [] {
      EndsAreWordless(ids[..|ids| - 1]);
    }
  }

  lemma FinishIsWordless(acc: Acc, choice: Choice)
    ensures Wordless(FinishEvents(acc, choice))
  {
    var known, began := ToolIds(acc.buffers), OpenedBy(choice.delta.toolCalls);
    EndsAreWordless(known + NotKnown(known, began));
  }

  lemma TextReads(a: Answer, text: Option<Text>)
    ensures ReadFrom(a, TextEvent(text)) == a.(text := a.text + OrEmpty(text))
  {
    if NonEmpty(text).Some? {
      ReadOne(a, TextDelta(text.value));
    } else {
      assert a.text + [] == a.text;
    }
  }

  lemma ReasoningReads(a: Answer, d: Delta)
    ensures ReadFrom(a, ReasoningEvent(d)) ==
            a.(thinking := a.thinking + if d.reasoningContent.Some? then d.reasoningContent.value else OrEmpty(d.reasoning))
  {
    if ReasoningOf(d).Some? {
      ReadOne(a, ThinkingDelta(ReasoningOf(d).value));
    } else {
      assert a.thinking + [] == a.thinking;
    }
  }

  lemma ProseReads(a: Answer, d: Delta)
    ensures var b := ReadFrom(a, ProseEvents(d));
            && b.text == a.text + (OrEmpty(d.content) + OrEmpty(d.refusal))
            && b.thinking == a.thinking + if d.reasoningContent.Some? then d.reasoningContent.value else OrEmpty(d.reasoning)
  {
    TextReads(a, d.content);
    ReadConcat(a, TextEvent(d.content), TextEvent(d.refusal));
    TextReads(ReadFrom(a, TextEvent(d.content)), d.refusal);
    ReadConcat(a, TextEvent(d.content) + TextEvent(d.refusal), ReasoningEvent(d));
    ReasoningReads(ReadFrom(a, TextEvent(d.content) + TextEvent(d.refusal)), d);
    Associates(a.text, OrEmpty(d.content), OrEmpty(d.refusal));
  }

  lemma PayloadWords(acc: Acc, a: Answer, chunk: Chunk)
    ensures var b := ReadFrom(a, Parsed(acc, chunk));
            b.text == a.text + TextIn(chunk) && b.thinking == a.thinking + ReasoningIn(chunk)
  {
    if chunk.Chunk? {
      WordlessRun(a, UsageEvent(chunk.usage));
      if chunk.choice.Some? {
        var choice, u := chunk.choice.value, UsageEvent(chunk.usage);
        var prose, calls := ProseEvents(choice.delta), AllCallEvents(acc.names, ToolIds(acc.buffers), choice.delta.toolCalls);
        var finish := FinishEvents(Noted(acc, chunk), choice);
        ReadConcat(a, u, prose);
        ProseReads(ReadFrom(a, u), choice.delta);
        ReadConcat(a, u + prose, calls);
        CallsAreWordless(acc.names, ToolIds(acc.buffers), choice.delta.toolCalls);
        WordlessRun(ReadFrom(a, u + prose), calls);
        ReadConcat(a, u + prose + calls, finish);
        FinishIsWordless(Noted(acc, chunk), choice);
        WordlessRun(ReadFrom(a, u + prose + calls), finish);
      }
    }
  }

  function AllText(chunks: seq<Chunk>): Text {
    if chunks == [] then [] else AllText(chunks[..|chunks| - 1]) + TextIn(chunks[|chunks| - 1])
  }

  function AllReasoning(chunks: seq<Chunk>): Text {
    if chunks == [] then [] else AllReasoning(chunks[..|chunks| - 1]) + ReasoningIn(chunks[|chunks| - 1])
  }

  /** For every chunk sequence: the text is its contents and refusals run together, the reasoning its
      reasoning fields. */
  lemma {:induction false} SaidOnWords(names: NameMap, chunks: seq<Chunk>)
    ensures var a := Read(RelayChunks(names, chunks).events); a.text == AllText(chunks) && a.thinking == AllReasoning(chunks)
  {
    if chunks != [] {
      var init, chunk := chunks[..|chunks| - 1], chunks[|chunks| - 1];
      assert init + [chunk] == chunks;
      SaidOnWords(names, init);
      RelayMore(names, init, chunk);
      PayloadWords(RelayChunks(names, init).acc, Read(RelayChunks(names, init).events), chunk);
    }
  }
}
