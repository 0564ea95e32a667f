/** Chat Completions in, Gemini out: when each call is delivered once and whole. */
module ChatToGemini {
  import opened Bytes
  import opened Finite
  import opened TokenUsage
  import opened Hub
  import opened FunctionNames
  import opened Accumulator
  import opened ChatStream
  import opened ChatTheorems
  import opened GeminiTheorems
  import ChatBill
  import GeminiStream

  /** Some tool-call entry of the chunk carries arguments. */
  predicate HasFragment(chunk: Chunk) {
    && chunk.Chunk? && chunk.choice.Some?
    && exists k :: 0 <= k < |chunk.choice.value.delta.toolCalls| &&
                   NonEmpty(chunk.choice.value.delta.toolCalls[k].arguments).Some?
  }

  /** Some chunk finishes and a later one carries arguments. */
  predicate LateFragment(chunks: seq<Chunk>) {
    exists i, k :: 0 <= i < k < |chunks| && ChatBill.Finishes(chunks[i]) && HasFragment(chunks[k])
  }

  // ── runs cut in two ─────────────────────────────────────────────────────────

  lemma {:induction false} NamedPrefix(x: seq<StreamEvent>, y: seq<StreamEvent>)
    requires WellNamed(x + y)
    ensures WellNamed(x)
    decreases |y|
  {
    if y == [] {
      assert x + y == x;
    } else {
      assert (x + y)[..|x + y| - 1] == x + y[..|y| - 1];
      NamedPrefix(x, y[..|y| - 1]);
    }
  }

  lemma QuietPrefix(x: seq<StreamEvent>, y: seq<StreamEvent>)
    requires NoContentAfterStop(x + y)
    ensures NoContentAfterStop(x)
    ensures HasStop(x) ==> forall k :: 0 <= k < |y| ==> !IsContent(y[k])
  {
    assert forall k :: 0 <= k < |x| ==> (x + y)[k] == x[k];
    assert forall k :: 0 <= k < |y| ==> (x + y)[|x| + k] == y[k];
  }

  predicate Opens(e: StreamEvent) { !e.ToolUseEnd? && !e.Stop? }

  function IdSet(events: seq<StreamEvent>): set<Text> { set id | id in Ids(Read(events).calls) }

  lemma IdSetStep(events: seq<StreamEvent>)
    requires events != []
    ensures IdSet(events) == IdSet(events[..|events| - 1]) +
                             if events[|events| - 1].ToolUseStart? then {events[|events| - 1].id} else {}
  {
    var a, e := Read(events[..|events| - 1]), events[|events| - 1];
    if e.ToolUseDelta? {
      AddFragmentKeepsIds(a.calls, e.id, e.partialJson);
    } else if e.ToolUseStart? {
      assert Ids(a.calls + [Call(e.id, e.name, [])]) == Ids(a.calls) + [e.id];
    }
  }

  /** While nothing ends, every call opened is pending and no fragment is late. */
  lemma {:induction false} AllPending(x: seq<StreamEvent>, y: seq<StreamEvent>)
    requires WellNamed(x + y) && PendingCalls(x) == IdSet(x) && forall k :: 0 <= k < |y| ==> Opens(y[k])
    ensures PendingCalls(x + y) == IdSet(x + y) && (BeforeEnd(x + y) <==> BeforeEnd(x))
    decreases |y|
  {
    if y == [] {
      assert x + y == x;
    } else {
      var init := x + y[..|y| - 1];
      assert (x + y)[..|x + y| - 1] == init;
      AllPending(x, y[..|y| - 1]);
      IdSetStep(x + y);
    }
  }

  predicate AnyFragment(events: seq<StreamEvent>) { exists k :: 0 <= k < |events| && events[k].ToolUseDelta? }

  /** Once nothing is pending and no call opens, every fragment is late. */
  lemma {:induction false} NonePending(x: seq<StreamEvent>, y: seq<StreamEvent>)
    requires PendingCalls(x) == {} && forall k :: 0 <= k < |y| ==> !y[k].ToolUseStart?
    ensures PendingCalls(x + y) == {} && (BeforeEnd(x + y) <==> BeforeEnd(x) && !AnyFragment(y))
    decreases |y|
  {
    if y == [] {
      assert x + y == x;
    } else {
      var init, last := y[..|y| - 1], y[|y| - 1];
      assert (x + y)[..|x + y| - 1] == x + init;
      NonePending(x, init);
      FragmentMore(y);
    }
  }

  lemma FragmentMore(y: seq<StreamEvent>)
    requires y != []
    ensures AnyFragment(y) <==> AnyFragment(y[..|y| - 1]) || y[|y| - 1].ToolUseDelta?
  {
    var init := y[..|y| - 1];
    if k :| 0 <= k < |init| && init[k].ToolUseDelta? {
      assert y[k].ToolUseDelta?;
    }
    if k :| 0 <= k < |y| && y[k].ToolUseDelta? {
      assert k < |init| ==> init[k].ToolUseDelta?;
    }
  }

  /** What ends and stops carries no fragment. */
  lemma {:induction false} Closing(x: seq<StreamEvent>, z: seq<StreamEvent>)
    requires forall k :: 0 <= k < |z| ==> z[k].ToolUseEnd? || z[k].Stop?
    ensures BeforeEnd(x + z) <==> BeforeEnd(x)
    ensures z != [] && z[|z| - 1].Stop? ==> PendingCalls(x + z) == {}
    decreases |z|
  {
    if z == [] {
      assert x + z == x;
    } else {
      assert (x + z)[..|x + z| - 1] == x + z[..|z| - 1];
      Closing(x, z[..|z| - 1]);
    }
  }

  // ── one payload ─────────────────────────────────────────────────────────────

  /** Everything a payload says before its finish. */
  function Saying(acc: Acc, chunk: Chunk): seq<StreamEvent> {
    if chunk.ErrorChunk? then []
    else if chunk.choice.None? then UsageEvent(chunk.usage)
    else
      UsageEvent(chunk.usage) + ProseEvents(chunk.choice.value.delta) +
      AllCallEvents(acc.names, ToolIds(acc.buffers), chunk.choice.value.delta.toolCalls)
  }

  function Finishing(acc: Acc, chunk: Chunk): seq<StreamEvent> {
    if chunk.Chunk? && chunk.choice.Some? then FinishEvents(Noted(acc, chunk), chunk.choice.value) else []
  }

  lemma {:induction false} CallsOpen(names: NameMap, known: seq<Text>, calls: seq<ToolCallDelta>)
    ensures forall k :: 0 <= k < |AllCallEvents(names, known, calls)| ==> Opens(AllCallEvents(names, known, calls)[k])
    ensures AnyFragment(AllCallEvents(names, known, calls)) <==>
            exists k :: 0 <= k < |calls| && NonEmpty(calls[k].arguments).Some?
  {
    if calls != [] {
      var init, last := calls[..|calls| - 1], calls[|calls| - 1];
      CallsOpen(names, known, init);
      var before, more := AllCallEvents(names, known, init), CallEvents(names, known, OpenedBy(calls), last);
      FragmentConcat(before, more);
      OneCallFragment(names, known, OpenedBy(calls), last);
      if k :| 0 <= k < |init| && NonEmpty(init[k].arguments).Some? {
        assert NonEmpty(calls[k].arguments).Some?;
      }
      if k :| 0 <= k < |calls| && NonEmpty(calls[k].arguments).Some? {
        assert k < |init| ==> NonEmpty(init[k].arguments).Some?;
      }
    }
  }

  lemma OneCallFragment(names: NameMap, known: seq<Text>, began: seq<Text>, call: ToolCallDelta)
    ensures AnyFragment(CallEvents(names, known, began, call)) <==> NonEmpty(call.arguments).Some?
  {
    var events := CallEvents(names, known, began, call);
    if NonEmpty(call.arguments).Some? {
      assert events[|events| - 1].ToolUseDelta?;
    }
  }

  lemma FragmentConcat(x: seq<StreamEvent>, y: seq<StreamEvent>)
    ensures AnyFragment(x + y) <==> AnyFragment(x) || AnyFragment(y)
  {
    assert forall k :: 0 <= k < |x| ==> (x + y)[k] == x[k];
    assert forall k :: 0 <= k < |y| ==> (x + y)[|x| + k] == y[k];
    if k :| 0 <= k < |x| && x[k].ToolUseDelta? {
      assert (x + y)[k].ToolUseDelta?;
    }
    if k :| 0 <= k < |y| && y[k].ToolUseDelta? {
      assert (x + y)[|x| + k].ToolUseDelta?;
    }
    if k :| 0 <= k < |x + y| && (x + y)[k].ToolUseDelta? {
      assert k < |x| ==> x[k].ToolUseDelta?;
      assert k >= |x| ==> y[k - |x|].ToolUseDelta?;
    }
  }

  ghost predicate AllOpen(events: seq<StreamEvent>) { forall k :: 0 <= k < |events| ==> Opens(events[k]) }

  lemma OpenConcat(x: seq<StreamEvent>, y: seq<StreamEvent>)
    requires AllOpen(x) && AllOpen(y)
    ensures AllOpen(x + y)
  {
  }

  lemma ProseOpens(usage: Option<PromptUsage>, d: Delta)
    ensures AllOpen(UsageEvent(usage)) && !AnyFragment(UsageEvent(usage))
    ensures AllOpen(ProseEvents(d)) && !AnyFragment(ProseEvents(d))
  {
  }

  lemma SayingOpens(acc: Acc, chunk: Chunk)
    ensures AllOpen(Saying(acc, chunk)) && (AnyFragment(Saying(acc, chunk)) <==> HasFragment(chunk))
  {
    if chunk.Chunk? {
      ProseOpens(chunk.usage, if chunk.choice.Some? then chunk.choice.value.delta else EMPTY_DELTA);
      if chunk.choice.Some? {
        var d := chunk.choice.value.delta;
        var calls := AllCallEvents(acc.names, ToolIds(acc.buffers), d.toolCalls);
        CallsOpen(acc.names, ToolIds(acc.buffers), d.toolCalls);
        OpenConcat(UsageEvent(chunk.usage), ProseEvents(d));
        OpenConcat(UsageEvent(chunk.usage) + ProseEvents(d), calls);
        FragmentConcat(UsageEvent(chunk.usage), ProseEvents(d));
        FragmentConcat(UsageEvent(chunk.usage) + ProseEvents(d), calls);
      }
    }
  }

  lemma {:induction false} EndsOnlyEnd(ids: seq<Text>)
    ensures forall k :: 0 <= k < |Ends(ids)| ==> Ends(ids)[k].ToolUseEnd?
  {
    if ids != [] {
      EndsOnlyEnd(ids[..|ids| - 1]);
    }
  }

  lemma FinishingCloses(acc: Acc, chunk: Chunk)
    ensures OnlyCloses(Finishing(acc, chunk), ChatBill.Finishes(chunk))
  {
    if ChatBill.Finishes(chunk) {
      var known, began := ToolIds(acc.buffers), OpenedBy(chunk.choice.value.delta.toolCalls);
      EndsOnlyEnd(known + NotKnown(known, began));
    }
  }

  // ── the whole stream ────────────────────────────────────────────────────────

  lemma LateMore(chunks: seq<Chunk>, chunk: Chunk)
    ensures LateFragment(chunks + [chunk]) <==> LateFragment(chunks) || (ChatBill.AnyFinish(chunks) && HasFragment(chunk))
  {
    var more := chunks + [chunk];
    assert forall k :: 0 <= k < |chunks| ==> more[k] == chunks[k];
    assert more[|chunks|] == chunk;
  }

  /** The run so far, told whether it has finished. */
  ghost predicate PendingUntil(events: seq<StreamEvent>, finished: bool) {
    PendingCalls(events) == (if finished then {} else IdSet(events)) && HasStop(events) == finished
  }

  ghost predicate OnlyCloses(z: seq<StreamEvent>, finishes: bool) {
    && (forall k :: 0 <= k < |z| ==> z[k].ToolUseEnd? || z[k].Stop?)
    && (if finishes then z != [] && z[|z| - 1].Stop? else z == [])
  }

  /** One payload: `y` said, then `z` closing. */
  lemma PayloadRun(x: seq<StreamEvent>, y: seq<StreamEvent>, z: seq<StreamEvent>, finished: bool, finishes: bool)
    requires PendingUntil(x, finished) && AllOpen(y) && OnlyCloses(z, finishes)
    requires WellNamed(x + y + z) && NoContentAfterStop(x + y + z)
    ensures PendingCalls(x + y + z) == if finished || finishes then {} else IdSet(x + y + z)
    ensures BeforeEnd(x + y + z) <==> BeforeEnd(x) && !(finished && AnyFragment(y))
  {
    Closing(x + y, z);
    NamedPrefix(x + y, z);
    QuietPrefix(x + y, z);
    QuietPrefix(x, y);
    if finished {
      NonePending(x, y);
    } else {
      AllPending(x, y);
    }
    if z == [] {
      assert x + y + z == x + y;
    }
  }

  /** Before any finish every call is pending, after one none is; and a fragment is late exactly when
      it comes in a chunk behind a finish. */
  ghost predicate Stands(names: NameMap, chunks: seq<Chunk>) {
    var events := RelayChunks(names, chunks).events;
    PendingUntil(events, ChatBill.AnyFinish(chunks)) && (BeforeEnd(events) <==> !LateFragment(chunks))
  }

  lemma ParsedIs(names: NameMap, chunks: seq<Chunk>, chunk: Chunk)
    ensures var before := RelayChunks(names, chunks);
            && RelayChunks(names, chunks + [chunk]).events == before.events + Parsed(before.acc, chunk)
            && before.events + Parsed(before.acc, chunk) ==
               before.events + Saying(before.acc, chunk) + Finishing(before.acc, chunk)
  {
    var before := RelayChunks(names, chunks);
    ChatBill.RelayMore(names, chunks, chunk);
    assert Parsed(before.acc, chunk) == Saying(before.acc, chunk) + Finishing(before.acc, chunk);
    Associates(before.events, Saying(before.acc, chunk), Finishing(before.acc, chunk));
  }

  lemma StoppedExactlyWhenFinished(names: NameMap, chunks: seq<Chunk>)
    ensures HasStop(RelayChunks(names, chunks).events) <==> ChatBill.AnyFinish(chunks)
  {
    ChatBill.EndedExactlyWhenFinished(names, chunks);
    EndedExactlyWhenStopped(RelayChunks(names, chunks).events);
  }

  lemma PayloadStands(names: NameMap, chunks: seq<Chunk>, chunk: Chunk)
    requires Stands(names, chunks)
    requires WellFormed(names, chunks + [chunk])
    ensures Stands(names, chunks + [chunk])
  {
    var before := RelayChunks(names, chunks);
    ParsedIs(names, chunks, chunk);
    LateMore(chunks, chunk);
    ChatBill.FinishMore(chunks, chunk);
    SayingOpens(before.acc, chunk);
    FinishingCloses(before.acc, chunk);
    StoppedExactlyWhenFinished(names, chunks + [chunk]);
    PayloadRun(before.events, Saying(before.acc, chunk), Finishing(before.acc, chunk), ChatBill.AnyFinish(chunks), ChatBill.Finishes(chunk));
  }

  lemma EventsBefore(names: NameMap, chunks: seq<Chunk>, chunk: Chunk)
    requires WellFormed(names, chunks + [chunk])
    ensures WellFormed(names, chunks)
  {
    var x, y := RelayChunks(names, chunks).events, Parsed(RelayChunks(names, chunks).acc, chunk);
    ParsedIs(names, chunks, chunk);
    NamedPrefix(x, y);
    QuietPrefix(x, y);
  }

  lemma NothingStands(names: NameMap)
    ensures Stands(names, [])
  {
    assert RelayChunks(names, []).events == [];
    assert IdSet([]) == {};
  }

  ghost predicate WellFormed(names: NameMap, chunks: seq<Chunk>) {
    var events := RelayChunks(names, chunks).events;
    WellNamed(events) && NoContentAfterStop(events)
  }

  lemma {:induction false} StreamStands(names: NameMap, chunks: seq<Chunk>)
    requires WellFormed(names, chunks)
    ensures Stands(names, chunks)
  {
    if chunks == [] {
      NothingStands(names);
    } else {
      var init, chunk := chunks[..|chunks| - 1], chunks[|chunks| - 1];
      assert init + [chunk] == chunks;
      EventsBefore(names, init, chunk);
      StreamStands(names, init);
      PayloadStands(names, init, chunk);
    }
  }

  /** For every stream whose entries can be addressed, with nothing said after its finish: what the
      Gemini renderer has delivered and what it still holds are the calls an index-addressed reader
      reads, each once and whole, exactly when no chunk behind a finish carries arguments; and after
      the finish it holds none. */
  lemma CallsDeliveredOnceExactlyWhen(names: NameMap, chunks: seq<Chunk>)
    requires ReadChunks(names, chunks).addressed && ReadChunks(names, chunks).quiet
    ensures var events, calls := RelayChunks(names, chunks).events, ReadChunks(names, chunks).answer.calls;
            var st := GeminiStream.RunState(events);
            && (Conserved(GeminiStream.Emitted(events), st.pending, calls) <==> !LateFragment(chunks))
            && (!LateFragment(chunks) && ChatBill.AnyFinish(chunks) ==>
                  st.pending == [] && multiset(GeminiStream.Emitted(events)) == multiset(calls))
  {
    ParserReadsByIndex(names, chunks);
    StreamStands(names, chunks);
    GeminiTheorems.CallsDeliveredOnceExactlyWhen(RelayChunks(names, chunks).events);
  }
}
