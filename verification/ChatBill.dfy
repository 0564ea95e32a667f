/** The bill of a Chat Completions stream, and the one its Anthropic client is shown: what goes out on
    the terminal frame, whatever the chunks. */
module ChatBill {
  import opened Bytes
  import opened Finite
  import opened TokenUsage
  import opened Hub
  import opened FunctionNames
  import opened Accumulator
  import opened ChatStream
  import AnthropicStream
  import AnthropicTheorems
  import GeminiStream
  import TerminalFrames
  import opened JsonTree

  /** The usage reports of a stream, in order. */
  function Reports(chunks: seq<Chunk>): seq<Usage> { Gathered(chunks, ReportIn) }

  function ReportIn(chunk: Chunk): seq<Usage> {
    if chunk.Chunk? && chunk.usage.Some? then [ReadPromptUsage(chunk.usage.value)] else []
  }

  predicate Finishes(chunk: Chunk) {
    && chunk.Chunk? && chunk.choice.Some?
    && chunk.choice.value.finish.Some? && chunk.choice.value.finish.value != ""
  }

  // ── what one payload adds ───────────────────────────────────────────────────

  lemma {:induction false} CallsReportNothing(names: NameMap, known: seq<Text>, calls: seq<ToolCallDelta>)
    ensures forall k :: 0 <= k < |AllCallEvents(names, known, calls)| ==> !Reporting(AllCallEvents(names, known, calls)[k])
  {
    if calls != [] {
      CallsReportNothing(names, known, calls[..|calls| - 1]);
    }
  }

  lemma {:induction false} EndsReportNothing(ids: seq<Text>)
    ensures forall k :: 0 <= k < |Ends(ids)| ==> !Reporting(Ends(ids)[k])
  {
    if ids != [] {
      EndsReportNothing(ids[..|ids| - 1]);
    }
  }

  lemma EndsThenStop(a: Answer, ends: seq<StreamEvent>, reason: StopReason)
    requires forall k :: 0 <= k < |ends| ==> !Reporting(ends[k])
    ensures var b := ReadFrom(a, ends + [Stop(reason, NO_USAGE)]);
            b.usage == a.usage && b.ending == if a.ending.Some? then a.ending else Some(Ending(reason, a.usage))
  {
    UnreportedRun(a, ends);
    ReadConcat(a, ends, [Stop(reason, NO_USAGE)]);
    ReadOne(ReadFrom(a, ends), Stop(reason, NO_USAGE));
    assert a.usage.Merge(NO_USAGE) == a.usage;
  }

  /** The reason a finish is given, from its word and what the accumulator has seen. */
  function ReasonFor(acc: Acc, choice: Choice): StopReason
    requires choice.finish.Some?
  {
    FinishReason(choice.finish.value, acc.toolCalls > 0 || OpenedBy(choice.delta.toolCalls) != [], acc.sawRefusal)
  }

  /** A finish ends the answer with the bill as it stands; anything after the first is ignored. */
  lemma FinishBills(acc: Acc, a: Answer, choice: Choice)
    ensures var b := ReadFrom(a, FinishEvents(acc, choice));
            && b.usage == a.usage
            && (a.ending.Some? || choice.finish.None? || choice.finish.value == "" ==> b.ending == a.ending)
            && (a.ending.None? && choice.finish.Some? && choice.finish.value != "" ==>
                  b.ending == Some(Ending(ReasonFor(acc, choice), a.usage)))
  {
    if choice.finish.Some? && choice.finish.value != "" {
      var known, began := ToolIds(acc.buffers), OpenedBy(choice.delta.toolCalls);
      EndsReportNothing(known + NotKnown(known, began));
      EndsThenStop(a, Ends(known + NotKnown(known, began)),
                   FinishReason(choice.finish.value, acc.toolCalls > 0 || began != [], acc.sawRefusal));
    }
  }

  ghost function Billed(a: Answer, chunk: Chunk): Usage {
    if ReportIn(chunk) == [] then a.usage else a.usage.Merge(ReportIn(chunk)[0])
  }

  lemma UsageBills(a: Answer, chunk: Chunk)
    requires chunk.Chunk?
    ensures var b := ReadFrom(a, UsageEvent(chunk.usage)); b.usage == Billed(a, chunk) && b.ending == a.ending
  {
    if chunk.usage.Some? {
      ReadOne(a, UsageUpdate(ReadPromptUsage(chunk.usage.value)));
    }
  }

  /** One payload merges its own report, then ends the answer if it finishes. */
  lemma PayloadBills(acc: Acc, a: Answer, chunk: Chunk)
    ensures var b := ReadFrom(a, Parsed(acc, chunk));
            && b.usage == Billed(a, chunk)
            && (a.ending.Some? || !Finishes(chunk) ==> b.ending == a.ending)
            && (a.ending.None? && Finishes(chunk) ==>
                  b.ending == Some(Ending(ReasonFor(Noted(acc, chunk), chunk.choice.value), b.usage)))
  {
    if chunk.Chunk? {
      UsageBills(a, chunk);
      if chunk.choice.Some? {
        var choice := chunk.choice.value;
        var prose, calls := ProseEvents(choice.delta), AllCallEvents(acc.names, ToolIds(acc.buffers), choice.delta.toolCalls);
        CallsReportNothing(acc.names, ToolIds(acc.buffers), choice.delta.toolCalls);
        SaidThenFinished(Noted(acc, chunk), ReadFrom(a, UsageEvent(chunk.usage)), prose + calls, choice);
        var finish := FinishEvents(Noted(acc, chunk), choice);
        ReadConcat(a, UsageEvent(chunk.usage), prose + calls + finish);
        FirstApart(UsageEvent(chunk.usage), prose, calls, finish);
      }
    }
  }

  lemma SaidThenFinished(acc: Acc, a: Answer, said: seq<StreamEvent>, choice: Choice)
    requires forall k :: 0 <= k < |said| ==> !Reporting(said[k])
    ensures var b := ReadFrom(a, said + FinishEvents(acc, choice));
            && b.usage == a.usage
            && (a.ending.Some? || choice.finish.None? || choice.finish.value == "" ==> b.ending == a.ending)
            && (a.ending.None? && choice.finish.Some? && choice.finish.value != "" ==>
                  b.ending == Some(Ending(ReasonFor(acc, choice), a.usage)))
  {
    UnreportedRun(a, said);
    FinishBills(acc, ReadFrom(a, said), choice);
    ReadConcat(a, said, FinishEvents(acc, choice));
  }

  // ── the whole stream ────────────────────────────────────────────────────────

  lemma RelayIs(names: NameMap, chunks: seq<Chunk>, chunk: Chunk)
    ensures var before := RelayChunks(names, chunks);
            RelayChunks(names, chunks + [chunk]) == Relayed(before, Noted(before.acc, chunk), Parsed(before.acc, chunk))
  {
    assert (chunks + [chunk])[..|chunks|] == chunks;
  }

  lemma RelayMore(names: NameMap, chunks: seq<Chunk>, chunk: Chunk)
    ensures var before, after := RelayChunks(names, chunks), RelayChunks(names, chunks + [chunk]);
            var events := Parsed(before.acc, chunk);
            && after == Relayed(before, Noted(before.acc, chunk), events)
            && Read(after.events) == ReadFrom(Read(before.events), events)
            && (Agrees(before.acc, Read(before.events)) ==> Agrees(after.acc, Read(after.events)))
  {
    var before := RelayChunks(names, chunks);
    RelayIs(names, chunks, chunk);
    RelayedReads(before, Noted(before.acc, chunk), Parsed(before.acc, chunk));
  }

  /** The accumulator agrees with the events it has seen, whatever the chunks; and bills the merge of
      the stream's reports. */
  lemma {:induction false} RelayAgrees(names: NameMap, chunks: seq<Chunk>)
    ensures var relay := RelayChunks(names, chunks);
            Agrees(relay.acc, Read(relay.events)) && Read(relay.events).usage == MergeAll(Reports(chunks))
  {
    if chunks != [] {
      var init, chunk := chunks[..|chunks| - 1], chunks[|chunks| - 1];
      assert init + [chunk] == chunks;
      RelayAgrees(names, init);
      RelayMore(names, init, chunk);
      PayloadBills(RelayChunks(names, init).acc, Read(RelayChunks(names, init).events), chunk);
      GatheredMore(init, chunk, ReportIn);
    }
  }

  /** Once finished, further chunks change nothing about the ending. */
  lemma {:induction false} EndingIsKept(names: NameMap, before: seq<Chunk>, after: seq<Chunk>)
    requires Read(RelayChunks(names, before).events).ending.Some?
    ensures Read(RelayChunks(names, before + after).events).ending == Read(RelayChunks(names, before).events).ending
    decreases |after|
  {
    if after == [] {
      assert before + after == before;
    } else {
      var init, last := after[..|after| - 1], after[|after| - 1];
      OneMore(before, after, |after| - 1);
      EndingIsKept(names, before, init);
      RelayMore(names, before + init, last);
      EndingStands(Read(RelayChunks(names, before + init).events), Parsed(RelayChunks(names, before + init).acc, last));
    }
  }

  /** Where a stream that finishes ends, and what it is billed. */
  lemma EndingIsShown(names: NameMap, before: seq<Chunk>, finish: Chunk, after: seq<Chunk>)
    requires Finishes(finish) && forall k :: 0 <= k < |before| ==> !Finishes(before[k])
    ensures var relay, shown := RelayChunks(names, before + [finish] + after), MergeAll(Reports(before + [finish]));
            && Read(relay.events).ending ==
               Some(Ending(ReasonFor(Noted(RelayChunks(names, before).acc, finish), finish.choice.value), shown))
            && relay.acc.usage == MergeAll(Reports(before + [finish] + after))
            && (shown == relay.acc.usage <==> forall r :: r in Reports(after) ==> r.AtMost(shown))
  {
    var until := before + [finish];
    EndsAtFinish(names, before, finish);
    EndingIsKept(names, until, after);
    RelayAgrees(names, until + after);
    GatheredConcat(until, after, ReportIn);
    LaterReports(Reports(until), Reports(after));
  }

  /** For every chunk sequence that finishes, well formed or not: one terminal frame goes out, with
      the merge of the reports up to the first finish; the accumulator bills the merge of them all;
      and the two are equal exactly when no later report exceeds what was shown. */
  lemma BillShownExactlyWhen(names: NameMap, model: Text, before: seq<Chunk>, finish: Chunk, after: seq<Chunk>)
    requires Finishes(finish) && forall k :: 0 <= k < |before| ==> !Finishes(before[k])
    ensures var relay := RelayChunks(names, before + [finish] + after);
            var ends := AnthropicTheorems.Terminals(AnthropicStream.RunFrames(AnthropicStream.Fresh(model), relay.events));
            var shown := MergeAll(Reports(before + [finish]));
            && |ends| == 1 && ends[0].MessageDelta? && ends[0].usage == shown
            && relay.acc.usage == MergeAll(Reports(before + [finish] + after))
            && (shown == relay.acc.usage <==> forall r :: r in Reports(after) ==> r.AtMost(shown))
  {
    EndingIsShown(names, before, finish, after);
    AnthropicTheorems.TerminalFrameIsTheEnding(model, RelayChunks(names, before + [finish] + after).events);
  }

  /** The Chat Completions and Gemini renderers write their terminal frame on the stop too, and show
      as much: one finish each, with that same bill in their own form. */
  lemma BillShownOnTheOtherWires(names: NameMap, codec: Codec, before: seq<Chunk>, finish: Chunk, after: seq<Chunk>)
    requires Finishes(finish) && forall k :: 0 <= k < |before| ==> !Finishes(before[k])
    ensures var relay := RelayChunks(names, before + [finish] + after);
            var shown := MergeAll(Reports(before + [finish]));
            && (exists word :: TerminalFrames.ChatClosings(RunChunks(relay.events)) ==
                               [TerminalFrames.Closing(Some(ChatUsage(shown)), word)])
            && (exists word :: TerminalFrames.GeminiClosings(GeminiStream.RunFrames(codec, relay.events)) ==
                               [TerminalFrames.Closing(Some(GeminiUsage(shown)), word)])
            && (shown == relay.acc.usage <==> forall r :: r in Reports(after) ==> r.AtMost(shown))
  {
    EndingIsShown(names, before, finish, after);
    var events := RelayChunks(names, before + [finish] + after).events;
    ChatShows(events);
    GeminiShows(codec, events);
  }

  lemma ChatShows(events: seq<StreamEvent>)
    requires Read(events).ending.Some?
    ensures exists word :: TerminalFrames.ChatClosings(RunChunks(events)) ==
                           [TerminalFrames.Closing(Some(ChatUsage(Read(events).ending.value.usage)), word)]
  {
    TerminalFrames.ChatClosesOnce(events);
    var closings := TerminalFrames.ChatClosings(RunChunks(events));
    assert closings == [TerminalFrames.Closing(Some(ChatUsage(Read(events).ending.value.usage)), closings[0].word)];
  }

  lemma GeminiShows(codec: Codec, events: seq<StreamEvent>)
    requires Read(events).ending.Some?
    ensures exists word :: TerminalFrames.GeminiClosings(GeminiStream.RunFrames(codec, events)) ==
                           [TerminalFrames.Closing(Some(GeminiUsage(Read(events).ending.value.usage)), word)]
  {
    TerminalFrames.GeminiClosesOnce(codec, events);
    var closings := TerminalFrames.GeminiClosings(GeminiStream.RunFrames(codec, events));
    assert closings == [TerminalFrames.Closing(Some(GeminiUsage(Read(events).ending.value.usage)), closings[0].word)];
  }

  predicate AnyFinish(chunks: seq<Chunk>) { exists k :: 0 <= k < |chunks| && Finishes(chunks[k]) }

  lemma FinishMore(chunks: seq<Chunk>, chunk: Chunk)
    ensures AnyFinish(chunks + [chunk]) <==> AnyFinish(chunks) || Finishes(chunk)
  {
    var more := chunks + [chunk];
    assert forall k :: 0 <= k < |chunks| ==> more[k] == chunks[k];
    assert more[|chunks|] == chunk;
  }

  lemma EndedMore(names: NameMap, chunks: seq<Chunk>, chunk: Chunk)
    ensures Read(RelayChunks(names, chunks + [chunk]).events).ending.Some? <==>
            Read(RelayChunks(names, chunks).events).ending.Some? || Finishes(chunk)
  {
    var relay := RelayChunks(names, chunks);
    RelayMore(names, chunks, chunk);
    PayloadBills(relay.acc, Read(relay.events), chunk);
  }

  /** A stream has ended exactly when some chunk of it finishes. */
  lemma {:induction false} EndedExactlyWhenFinished(names: NameMap, chunks: seq<Chunk>)
    ensures Read(RelayChunks(names, chunks).events).ending.Some? <==> AnyFinish(chunks)
  {
    if chunks != [] {
      var init, chunk := chunks[..|chunks| - 1], chunks[|chunks| - 1];
      assert init + [chunk] == chunks;
      EndedExactlyWhenFinished(names, init);
      EndedMore(names, init, chunk);
      FinishMore(init, chunk);
    }
  }

  lemma EndsAtFinish(names: NameMap, before: seq<Chunk>, finish: Chunk)
    requires Finishes(finish) && forall k :: 0 <= k < |before| ==> !Finishes(before[k])
    ensures var ending := Read(RelayChunks(names, before + [finish]).events).ending;
            && ending.Some? && ending.value.usage == MergeAll(Reports(before + [finish]))
            && ending.value.reason == ReasonFor(Noted(RelayChunks(names, before).acc, finish), finish.choice.value)
  {
    var relay := RelayChunks(names, before);
    EndedExactlyWhenFinished(names, before);
    RelayMore(names, before, finish);
    PayloadBills(relay.acc, Read(relay.events), finish);
    RelayAgrees(names, before + [finish]);
  }

  /** A stream that never finishes sends no terminal frame. */
  lemma NoFinishNoTerminalFrame(names: NameMap, model: Text, chunks: seq<Chunk>)
    requires forall k :: 0 <= k < |chunks| ==> !Finishes(chunks[k])
    ensures AnthropicTheorems.Terminals(
              AnthropicStream.RunFrames(AnthropicStream.Fresh(model), RelayChunks(names, chunks).events)) == []
  {
    EndedExactlyWhenFinished(names, chunks);
    AnthropicTheorems.TerminalFrameIsTheEnding(model, RelayChunks(names, chunks).events);
  }

  /** A usage chunk after the finish, which is where this dialect sends it, is billed and not shown:
      the terminal frame went out with the finish. */
  lemma UsageAfterFinishIsNotShown(names: NameMap, model: Text, finish: Chunk, usage: PromptUsage)
    requires Finishes(finish) && finish.usage.None? && usage.completion > 0
    ensures var relay := RelayChunks(names, [finish, Chunk(Some(usage), None)]);
            var ends := AnthropicTheorems.Terminals(AnthropicStream.RunFrames(AnthropicStream.Fresh(model), relay.events));
            && |ends| == 1 && ends[0].MessageDelta? && ends[0].usage == NO_USAGE
            && relay.acc.usage == ReadPromptUsage(usage) != NO_USAGE
  {
    var bill := Chunk(Some(usage), None);
    assert [] + [finish] + [bill] == [finish, bill] && [] + [finish] == [finish];
    BillShownExactlyWhen(names, model, [], finish, [bill]);
    LateReport(finish, usage);
  }

  lemma LateReport(finish: Chunk, usage: PromptUsage)
    requires finish.Chunk? && finish.usage.None?
    ensures MergeAll(Reports([finish])) == NO_USAGE
    ensures MergeAll(Reports([finish, Chunk(Some(usage), None)])) == ReadPromptUsage(usage)
  {
    var bill := Chunk(Some(usage), None);
    assert [finish, bill] == [finish] + [bill];
    GatheredOne(finish, ReportIn);
    GatheredMore([finish], bill, ReportIn);
  }
}
