/** Whole Chat Completions streams: what an index-addressed client would read in them, that the
    gateway's parser reads the same, and what reaches an Anthropic client at the far end. */
module ChatTheorems {
  import opened Bytes
  import opened Finite
  import opened TokenUsage
  import opened Hub
  import opened Accumulator
  import opened FunctionNames
  import opened ChatStream
  import AnthropicClient
  import AnthropicTheorems

  // ── the reference: a client that keeps calls in a list and addresses them by index ──

  /** `floor` is how many calls are past taking fragments: those opened before the last text or
      reasoning, or before a finish. */
  datatype Reading = Reading(
    answer: Answer,
    refused: bool,
    floor: nat,
    addressed: bool,
    onTime: bool,
    finished: bool,
    quiet: bool)

  const UNREAD: Reading := Reading(NOTHING, false, 0, true, true, false, true)

  function ReadUsage(r: Reading, usage: Option<PromptUsage>): (s: Reading)
    ensures s.answer.calls == r.answer.calls && s.answer.ending == r.answer.ending
    ensures s.addressed == r.addressed && s.refused == r.refused
  {
    if usage.None? then r
    else r.(answer := r.answer.(usage := r.answer.usage.Merge(ReadPromptUsage(usage.value))))
  }

  function ReadText(r: Reading, text: Option<Text>): (s: Reading)
    ensures s.answer.calls == r.answer.calls && s.answer.usage == r.answer.usage && s.answer.ending == r.answer.ending
    ensures s.addressed == r.addressed
  {
    if NonEmpty(text).None? then r
    else r.(answer := r.answer.(text := r.answer.text + text.value),
            floor := |r.answer.calls|, quiet := r.quiet && !r.finished)
  }

  function ReadReasoning(r: Reading, text: Option<Text>): (s: Reading)
    ensures s.answer.calls == r.answer.calls && s.answer.usage == r.answer.usage && s.answer.ending == r.answer.ending
    ensures s.addressed == r.addressed
  {
    if NonEmpty(text).None? then r
    else r.(answer := r.answer.(thinking := r.answer.thinking + text.value),
            floor := |r.answer.calls|, quiet := r.quiet && !r.finished)
  }

  /** An entry that announces an id opens the next call; any other adds to the call at its index. */
  function ReadEntry(names: NameMap, r: Reading, call: ToolCallDelta): Reading {
    var calls, args := r.answer.calls, OrEmpty(call.arguments);
    if Announced(call).Some? then
      var id := Announced(call).value;
      r.(answer := r.answer.(calls := calls + [Call(id, names.Original(OrEmpty(call.name)), args)]),
         addressed := r.addressed && id !in Ids(calls) && call.index == Some(|calls|),
         quiet := r.quiet && !r.finished)
    else if args == [] then r
    else if call.index.Some? && call.index.value < |calls| then
      var i := call.index.value;
      r.(answer := r.answer.(calls := calls[i := calls[i].(args := calls[i].args + args)]),
         onTime := r.onTime && r.floor <= i)
    else r.(addressed := false)
  }

  function ReadEntries(names: NameMap, r: Reading, calls: seq<ToolCallDelta>): Reading {
    if calls == [] then r else ReadEntry(names, ReadEntries(names, r, calls[..|calls| - 1]), calls[|calls| - 1])
  }

  function ReadFinish(r: Reading, finish: Option<string>): Reading {
    if finish.None? || finish.value == "" then r
    else
      var reason := FinishReason(finish.value, r.answer.calls != [], r.refused);
      r.(answer := r.answer.(ending := if r.answer.ending.None? then Some(Ending(reason, r.answer.usage))
                                       else r.answer.ending),
         finished := true, floor := |r.answer.calls|)
  }

  function ReadProse(r: Reading, d: Delta): (s: Reading)
    ensures s.answer.calls == r.answer.calls && s.answer.usage == r.answer.usage && s.answer.ending == r.answer.ending
    ensures s.addressed == r.addressed && s.refused == (r.refused || NonEmpty(d.refusal).Some?)
  {
    var said := ReadText(ReadText(r, d.content), d.refusal);
    ReadReasoning(said, ReasoningOf(d)).(refused := r.refused || NonEmpty(d.refusal).Some?)
  }

  function ReadChoice(names: NameMap, r: Reading, choice: Choice): Reading {
    ReadFinish(ReadEntries(names, ReadProse(r, choice.delta), choice.delta.toolCalls), choice.finish)
  }

  function ReadChunk(names: NameMap, r: Reading, chunk: Chunk): Reading {
    if chunk.ErrorChunk? then r
    else if chunk.choice.None? then ReadUsage(r, chunk.usage)
    else ReadChoice(names, ReadUsage(r, chunk.usage), chunk.choice.value)
  }

  function ReadChunks(names: NameMap, chunks: seq<Chunk>): Reading {
    if chunks == [] then UNREAD
    else ReadChunk(names, ReadChunks(names, chunks[..|chunks| - 1]), chunks[|chunks| - 1])
  }

  // ── the parser reads what the reference reads ───────────────────────────────

  ghost predicate Match(m: Monitor, r: Reading) {
    && m.answer == r.answer && m.wellNamed
    && m.timely == r.onTime && m.stopped == r.finished && m.quiet == r.quiet
    && (r.answer.ending.Some? <==> r.finished)
    && r.floor <= |r.answer.calls|
    && Distinct(Ids(r.answer.calls))
    && (forall id :: id in m.open <==> id in Ids(r.answer.calls)[r.floor..])
  }

  lemma MatchUsage(m: Monitor, r: Reading, usage: Option<PromptUsage>)
    requires Match(m, r)
    ensures Match(MonitorRun(m, UsageEvent(usage)), ReadUsage(r, usage))
  {
    if usage.Some? {
      MonitorOne(m, UsageUpdate(ReadPromptUsage(usage.value)));
    }
  }

  lemma MatchText(m: Monitor, r: Reading, text: Option<Text>)
    requires Match(m, r)
    ensures Match(MonitorRun(m, TextEvent(text)), ReadText(r, text))
  {
    if NonEmpty(text).Some? {
      MonitorOne(m, TextDelta(text.value));
    }
  }

  lemma MatchReasoning(m: Monitor, r: Reading, d: Delta)
    requires Match(m, r)
    ensures Match(MonitorRun(m, ReasoningEvent(d)), ReadReasoning(r, ReasoningOf(d)))
  {
    if ReasoningOf(d).Some? {
      MonitorOne(m, ThinkingDelta(ReasoningOf(d).value));
    }
  }

  /** Opening a call, then adding its first fragment. */
  lemma MatchStart(m: Monitor, r: Reading, id: Text, name: Text)
    requires Match(m, r) && id !in Ids(r.answer.calls)
    ensures Match(MonitorStep(m, ToolUseStart(id, name)),
                  r.(answer := r.answer.(calls := r.answer.calls + [Call(id, name, [])]), quiet := r.quiet && !r.finished))
  {
    var ids := Ids(r.answer.calls);
    assert Ids(r.answer.calls + [Call(id, name, [])]) == ids + [id];
    assert (ids + [id])[r.floor..] == ids[r.floor..] + [id];
  }

  lemma HeldFromFloor(ids: seq<Text>, floor: nat, i: nat)
    requires Distinct(ids) && floor <= |ids| && i < |ids|
    ensures ids[i] in ids[floor..] <==> floor <= i
  {
    if floor <= i {
      assert ids[floor..][i - floor] == ids[i];
    }
  }

  lemma MatchFragment(m: Monitor, r: Reading, i: nat, args: Text)
    requires Match(m, r) && i < |r.answer.calls| && args != []
    ensures var calls := r.answer.calls;
            Match(MonitorStep(m, ToolUseDelta(calls[i].id, args)),
                  r.(answer := r.answer.(calls := calls[i := calls[i].(args := calls[i].args + args)]),
                     onTime := r.onTime && r.floor <= i))
  {
    var calls := r.answer.calls;
    PositionUnique(Ids(calls), i);
    HeldFromFloor(Ids(calls), r.floor, i);
    AddFragmentKeepsIds(calls, calls[i].id, args);
  }

  lemma MatchEntry(names: NameMap, known: seq<Text>, began: seq<Text>, m: Monitor, r: Reading, call: ToolCallDelta)
    requires Match(m, r) && ReadEntry(names, r, call).addressed
    requires Announced(call).None? ==> known + began == Ids(r.answer.calls)
    ensures Match(MonitorRun(m, CallEvents(names, known, began, call)), ReadEntry(names, r, call))
  {
    var args := OrEmpty(call.arguments);
    if Announced(call).Some? {
      var id, name := Announced(call).value, names.Original(OrEmpty(call.name));
      var start := ToolUseStart(id, name);
      MonitorOne(m, start);
      MatchStart(m, r, id, name);
      var m1 := MonitorStep(m, start);
      var r1 := r.(answer := r.answer.(calls := r.answer.calls + [Call(id, name, [])]), quiet := r.quiet && !r.finished);
      if args == [] {
        assert CallEvents(names, known, began, call) == [start];
      } else {
        var delta := ToolUseDelta(id, args);
        assert CallEvents(names, known, began, call) == [start] + [delta];
        MonitorConcat(m, [start], [delta]);
        MonitorOne(m1, delta);
        MatchFragment(m1, r1, |r.answer.calls|, args);
        assert [] + args == args;
      }
    } else if args != [] {
      var i := call.index.value;
      assert ResolveOpened(known, began, i) == Some((known + began)[i]);
      MonitorOne(m, ToolUseDelta(r.answer.calls[i].id, args));
      assert CallEvents(names, known, began, call) == [ToolUseDelta(r.answer.calls[i].id, args)];
      MatchFragment(m, r, i, args);
    } else {
      assert CallEvents(names, known, began, call) == [];
    }
  }

  lemma EntryStep(names: NameMap, r: Reading, call: ToolCallDelta)
    ensures var r' := ReadEntry(names, r, call);
            && Ids(r'.answer.calls) == Ids(r.answer.calls) + (if Announced(call).Some? then [Announced(call).value] else [])
            && (r'.addressed ==> r.addressed)
            && r'.refused == r.refused && r'.answer.usage == r.answer.usage && r'.answer.ending == r.answer.ending
  {
  }

  /** What the tool-call entries of a payload leave alone, and the ids they add. */
  lemma {:induction false} EntryIds(names: NameMap, r: Reading, calls: seq<ToolCallDelta>)
    ensures var r' := ReadEntries(names, r, calls);
            && Ids(r'.answer.calls) == Ids(r.answer.calls) + OpenedBy(calls)
            && (r'.addressed ==> r.addressed)
            && r'.refused == r.refused && r'.answer.usage == r.answer.usage && r'.answer.ending == r.answer.ending
  {
    if calls == [] {
      assert Ids(r.answer.calls) + [] == Ids(r.answer.calls);
    } else {
      var init, call := calls[..|calls| - 1], calls[|calls| - 1];
      EntryIds(names, r, init);
      EntryStep(names, ReadEntries(names, r, init), call);
    }
  }

  lemma {:induction false} MatchEntries(names: NameMap, m: Monitor, r: Reading, calls: seq<ToolCallDelta>)
    requires Match(m, r) && ReadEntries(names, r, calls).addressed
    ensures Match(MonitorRun(m, AllCallEvents(names, Ids(r.answer.calls), calls)), ReadEntries(names, r, calls))
  {
    if calls != [] {
      var init, call := calls[..|calls| - 1], calls[|calls| - 1];
      var known := Ids(r.answer.calls);
      MatchEntries(names, m, r, init);
      EntryIds(names, r, init);
      var m1, r1 := MonitorRun(m, AllCallEvents(names, known, init)), ReadEntries(names, r, init);
      MonitorConcat(m, AllCallEvents(names, known, init), CallEvents(names, known, OpenedBy(calls), call));
      MatchEntry(names, known, OpenedBy(calls), m1, r1, call);
    }
  }

  lemma {:induction false} EndsRun(m: Monitor, ids: seq<Text>)
    ensures exists open :: MonitorRun(m, Ends(ids)) == m.(open := open)
  {
    if ids == [] {
      assert MonitorRun(m, Ends(ids)) == m.(open := m.open);
    } else {
      var init, last := ids[..|ids| - 1], ids[|ids| - 1];
      EndsRun(m, init);
      var open :| MonitorRun(m, Ends(init)) == m.(open := open);
      MonitorConcat(m, Ends(init), [ToolUseEnd(last)]);
      MonitorOne(m.(open := open), ToolUseEnd(last));
      assert MonitorRun(m, Ends(ids)) == m.(open := open - {last});
    }
  }

  lemma MergeNothing(u: Usage)
    ensures u.Merge(NO_USAGE) == u && NO_USAGE.Merge(u) == u
  {
  }

  lemma MatchStop(m: Monitor, r: Reading, open: set<Text>, word: string)
    requires Match(m, r) && word != ""
    ensures Match(MonitorStep(m.(open := open), Stop(FinishReason(word, r.answer.calls != [], r.refused), NO_USAGE)),
                  ReadFinish(r, Some(word)))
  {
    MergeNothing(m.answer.usage);
  }

  lemma MatchFinish(acc: Acc, m: Monitor, r: Reading, choice: Choice)
    requires Match(m, r) && acc.sawRefusal == r.refused && acc.toolCalls == |acc.buffers|
    requires ToolIds(acc.buffers) + OpenedBy(choice.delta.toolCalls) == Ids(r.answer.calls)
    ensures Match(MonitorRun(m, FinishEvents(acc, choice)), ReadFinish(r, choice.finish))
  {
    if choice.finish.Some? && choice.finish.value != "" {
      var known, began := ToolIds(acc.buffers), OpenedBy(choice.delta.toolCalls);
      var ended := known + NotKnown(known, began);
      EndsRun(m, ended);
      var open :| MonitorRun(m, Ends(ended)) == m.(open := open);
      assert |known| + |began| == |r.answer.calls|;
      var stop := Stop(FinishReason(choice.finish.value, r.answer.calls != [], r.refused), NO_USAGE);
      MonitorConcat(m, Ends(ended), [stop]);
      MonitorOne(m.(open := open), stop);
      MatchStop(m, r, open, choice.finish.value);
    }
  }

  lemma MatchProse(m: Monitor, r: Reading, d: Delta)
    requires Match(m, r)
    ensures Match(MonitorRun(m, ProseEvents(d)), ReadProse(r, d))
  {
    var e1, e2, e3 := TextEvent(d.content), TextEvent(d.refusal), ReasoningEvent(d);
    var r1 := ReadText(r, d.content);
    var r2 := ReadText(r1, d.refusal);
    var r3 := ReadReasoning(r2, ReasoningOf(d));
    MatchText(m, r, d.content);
    var m1 := MonitorRun(m, e1);
    MatchText(m1, r1, d.refusal);
    var m2 := MonitorRun(m1, e2);
    MatchReasoning(m2, r2, d);
    MatchIgnoresRefusal(MonitorRun(m2, e3), r3, ReadProse(r, d).refused);
    MonitorConcat(m, e1, e2);
    MonitorConcat(m, e1 + e2, e3);
  }

  lemma MatchIgnoresRefusal(m: Monitor, r: Reading, refused: bool)
    requires Match(m, r)
    ensures Match(m, r.(refused := refused))
  {
  }

  lemma MatchChoice(names: NameMap, acc: Acc, m: Monitor, r: Reading, choice: Choice)
    requires Match(m, r) && ToolIds(acc.buffers) == Ids(r.answer.calls) && acc.toolCalls == |acc.buffers|
    requires acc.sawRefusal == (r.refused || NonEmpty(choice.delta.refusal).Some?)
    requires ReadChoice(names, r, choice).addressed
    ensures Match(MonitorRun(m, ProseEvents(choice.delta) +
                                AllCallEvents(names, ToolIds(acc.buffers), choice.delta.toolCalls) +
                                FinishEvents(acc, choice)),
                  ReadChoice(names, r, choice))
  {
    var prose := ProseEvents(choice.delta);
    var called := AllCallEvents(names, ToolIds(acc.buffers), choice.delta.toolCalls);
    MatchProse(m, r, choice.delta);
    var m1, r1 := MonitorRun(m, prose), ReadProse(r, choice.delta);
    EntryIds(names, r1, choice.delta.toolCalls);
    MatchEntries(names, m1, r1, choice.delta.toolCalls);
    var m2, r2 := MonitorRun(m1, called), ReadEntries(names, r1, choice.delta.toolCalls);
    MatchFinish(acc, m2, r2, choice);
    MonitorConcat(m, prose, called);
    MonitorConcat(m, prose + called, FinishEvents(acc, choice));
  }

  /** One payload. */
  lemma MatchChunk(names: NameMap, acc: Acc, m: Monitor, r: Reading, chunk: Chunk)
    requires Match(m, r) && Agrees(acc, r.answer) && acc.names == names && acc.sawRefusal == r.refused
    requires ReadChunk(names, r, chunk).addressed
    ensures Match(MonitorRun(m, Parsed(acc, chunk)), ReadChunk(names, r, chunk))
    ensures Noted(acc, chunk).sawRefusal == ReadChunk(names, r, chunk).refused
  {
    if chunk.Chunk? {
      MatchUsage(m, r, chunk.usage);
      if chunk.choice.Some? {
        var choice, r1 := chunk.choice.value, ReadUsage(r, chunk.usage);
        ParsedSplits(m, acc, chunk);
        ChoiceRefused(names, r1, choice);
        AgreeingIds(acc, r.answer);
        MatchChoice(names, Noted(acc, chunk), MonitorRun(m, UsageEvent(chunk.usage)), r1, choice);
      }
    }
  }

  lemma AgreeingIds(acc: Acc, a: Answer)
    requires Agrees(acc, a)
    ensures ToolIds(acc.buffers) == Ids(a.calls)
  {
  }

  lemma ParsedSplits(m: Monitor, acc: Acc, chunk: Chunk)
    requires chunk.Chunk? && chunk.choice.Some?
    ensures var choice := chunk.choice.value;
            MonitorRun(m, Parsed(acc, chunk)) ==
            MonitorRun(MonitorRun(m, UsageEvent(chunk.usage)),
                       ProseEvents(choice.delta) + AllCallEvents(acc.names, ToolIds(acc.buffers), choice.delta.toolCalls) +
                       FinishEvents(Noted(acc, chunk), choice))
  {
    var choice := chunk.choice.value;
    var rest := ProseEvents(choice.delta) + AllCallEvents(acc.names, ToolIds(acc.buffers), choice.delta.toolCalls) +
                FinishEvents(Noted(acc, chunk), choice);
    FirstApart(UsageEvent(chunk.usage), ProseEvents(choice.delta),
               AllCallEvents(acc.names, ToolIds(acc.buffers), choice.delta.toolCalls),
               FinishEvents(Noted(acc, chunk), choice));
    MonitorConcat(m, UsageEvent(chunk.usage), rest);
  }

  lemma ChoiceRefused(names: NameMap, r: Reading, choice: Choice)
    ensures ReadChoice(names, r, choice).refused == (r.refused || NonEmpty(choice.delta.refusal).Some?)
    ensures ReadChoice(names, r, choice).addressed ==> r.addressed
  {
    EntryIds(names, ReadProse(r, choice.delta), choice.delta.toolCalls);
  }

  lemma {:induction false} RelayMatches(names: NameMap, chunks: seq<Chunk>)
    requires ReadChunks(names, chunks).addressed
    ensures var relay, r := RelayChunks(names, chunks), ReadChunks(names, chunks);
            && Match(MonitorRun(UNWATCHED, relay.events), r)
            && Agrees(relay.acc, r.answer)
            && relay.acc.names == names && relay.acc.sawRefusal == r.refused
            && MonitorRun(UNWATCHED, relay.events).answer == Read(relay.events)
  {
    MonitorMeans(RelayChunks(names, chunks).events);
    if chunks != [] {
      var init, chunk := chunks[..|chunks| - 1], chunks[|chunks| - 1];
      var before, r := RelayChunks(names, init), ReadChunks(names, init);
      ChunkAddressed(names, r, chunk);
      RelayMatches(names, init);
      var events := Parsed(before.acc, chunk);
      MatchChunk(names, before.acc, MonitorRun(UNWATCHED, before.events), r, chunk);
      MonitorConcat(UNWATCHED, before.events, events);
      AgreementHolds(Noted(before.acc, chunk), r.answer, events);
      NotesHold(Noted(before.acc, chunk), events);
      ReadConcat(NOTHING, before.events, events);
      MonitorMeans(before.events);
    }
  }

  lemma ChunkAddressed(names: NameMap, r: Reading, chunk: Chunk)
    requires ReadChunk(names, r, chunk).addressed
    ensures r.addressed
  {
    if chunk.Chunk? && chunk.choice.Some? {
      ChoiceRefused(names, ReadUsage(r, chunk.usage), chunk.choice.value);
    }
  }

  /** For every stream whose calls announce distinct ids in index order and whose fragments name
      calls already announced, within the payload or before it: the canonical events amount to
      the answer an index-addressed client reads, and carry its calls under distinct ids. */
  lemma ParserReadsByIndex(names: NameMap, chunks: seq<Chunk>)
    requires ReadChunks(names, chunks).addressed
    ensures var events, r := RelayChunks(names, chunks).events, ReadChunks(names, chunks);
            && Read(events) == r.answer
            && WellNamed(events)
            && Timely(events) == r.onTime
            && NoContentAfterStop(events) == r.quiet
  {
    RelayMatches(names, chunks);
    MonitorMeans(RelayChunks(names, chunks).events);
  }

  /** Chat Completions in, Anthropic out: an Anthropic client that reassembles by block index
      reads the text, reasoning and ending an index-addressed client reads, and recovers each
      call's id, name and exact arguments exactly when no fragment comes after text, reasoning or
      the finish has closed its call. */
  lemma AnthropicClientReadsChatStream(names: NameMap, model: Text, chunks: seq<Chunk>)
    requires ReadChunks(names, chunks).addressed && ReadChunks(names, chunks).quiet
    ensures AnthropicClient.Watch(false, model, RelayChunks(names, chunks).events).Some?
    ensures var c, r := AnthropicClient.Watch(false, model, RelayChunks(names, chunks).events).value, ReadChunks(names, chunks);
            && c.text == r.answer.text && c.thinking == r.answer.thinking && c.ending == r.answer.ending
            && (r.finished ==> AnthropicClient.AllStopped(c.blocks))
            && (AnthropicTheorems.ToolsOf(c.blocks) == r.answer.calls <==> r.onTime)
  {
    ParserReadsByIndex(names, chunks);
    RelayMatches(names, chunks);
    AnthropicTheorems.ClientRecoversExactlyWhen(model, RelayChunks(names, chunks).events);
  }
}
