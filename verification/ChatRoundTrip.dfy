/** Canonical events rendered as Chat Completions chunks and read back. */
module ChatRoundTrip {
  import opened Bytes
  import opened TokenUsage
  import opened Hub
  import opened FunctionNames
  import opened ChatStream
  import opened ChatTheorems

  const IDENTITY: NameMap := NameMap(map[], map[])

  /** What a stop reason becomes on this wire: it has no word for a stop sequence, and a turn that
      called a tool and merely ended is read as a tool turn. */
  function FoldedReason(reason: StopReason, called: bool): StopReason {
    match reason
    case MaxTokens => MaxTokens
    case ToolUse => ToolUse
    case Refusal => Refusal
    case EndTurn => if called then ToolUse else EndTurn
    case StopSequence => if called then ToolUse else EndTurn
  }

  function FoldedEnding(ending: Option<Ending>, called: bool): Option<Ending> {
    if ending.None? then None
    else Some(Ending(FoldedReason(ending.value.reason, called), ReadPromptUsage(ChatUsage(ending.value.usage))))
  }

  /** Every call opens under an id that is not empty. */
  predicate NonEmptyIds(events: seq<StreamEvent>) {
    forall i :: 0 <= i < |events| && events[i].ToolUseStart? ==> events[i].id != []
  }

  /** How the chunks rendered so far read, against the run they were rendered from. */
  ghost predicate Mirrors(st: Renderer, r: Reading, a: Answer) {
    && r.addressed && !r.refused
    && r.answer.text == a.text && r.answer.thinking == a.thinking && r.answer.calls == a.calls
    && r.answer.ending == FoldedEnding(a.ending, a.calls != [])
    && st.toolIds == Ids(a.calls) && Distinct(st.toolIds)
    && r.finished == st.finished == a.ending.Some?
    && (st.finished || (st.usage == a.usage && r.answer.usage == NO_USAGE))
  }

  lemma ReadSays(r: Reading, d: Delta)
    ensures ReadChunk(IDENTITY, r, Says(d)) == ReadEntries(IDENTITY, ReadProse(r, d), d.toolCalls)
  {
  }

  lemma NoEntries(r: Reading)
    ensures ReadEntries(IDENTITY, r, []) == r
  {
  }

  lemma OneEntry(r: Reading, call: ToolCallDelta)
    ensures ReadEntries(IDENTITY, r, [call]) == ReadEntry(IDENTITY, r, call)
  {
    assert [call][..0] == [];
    NoEntries(r);
  }

  lemma MirrorText(st: Renderer, r: Reading, a: Answer, e: StreamEvent)
    requires Mirrors(st, r, a) && (e.TextDelta? || e.ThinkingDelta? || e.Start?)
    ensures Mirrors(After(st, e), ReadChunk(IDENTITY, r, Rendered(st, e)[0]), Observe(a, e))
  {
    var d := Rendered(st, e)[0].choice.value.delta;
    ReadSays(r, d);
    NoEntries(ReadProse(r, d));
    assert a.text + [] == a.text && a.thinking + [] == a.thinking;
  }

  lemma MirrorToolStart(st: Renderer, r: Reading, a: Answer, id: Text, name: Text)
    requires Mirrors(st, r, a) && !st.finished && id != [] && id !in Ids(a.calls)
    ensures Mirrors(After(st, ToolUseStart(id, name)), ReadChunk(IDENTITY, r, Rendered(st, ToolUseStart(id, name))[0]),
                    Observe(a, ToolUseStart(id, name)))
  {
    var d := Rendered(st, ToolUseStart(id, name))[0].choice.value.delta;
    ReadSays(r, d);
    OneEntry(r, d.toolCalls[0]);
    assert Ids(a.calls + [Call(id, name, [])]) == Ids(a.calls) + [id];
  }

  lemma MirrorFragment(st: Renderer, r: Reading, a: Answer, id: Text, fragment: Text)
    requires Mirrors(st, r, a) && id in Ids(a.calls)
    ensures Mirrors(After(st, ToolUseDelta(id, fragment)),
                    ReadChunk(IDENTITY, r, Rendered(st, ToolUseDelta(id, fragment))[0]),
                    Observe(a, ToolUseDelta(id, fragment)))
  {
    var d := Rendered(st, ToolUseDelta(id, fragment))[0].choice.value.delta;
    ReadSays(r, d);
    OneEntry(r, d.toolCalls[0]);
    AddFragmentKeepsIds(a.calls, id, fragment);
    var at := Position(Ids(a.calls), id);
    assert fragment == [] ==> a.calls[at].args + fragment == a.calls[at].args;
  }

  lemma MirrorStop(st: Renderer, r: Reading, a: Answer, reason: StopReason, usage: Usage)
    requires Mirrors(st, r, a) && !st.finished
    ensures Mirrors(After(st, Stop(reason, usage)), ReadChunk(IDENTITY, r, Rendered(st, Stop(reason, usage))[0]),
                    Observe(a, Stop(reason, usage)))
  {
    var w := ChatUsage(st.usage.Merge(usage));
    MergeNothing(ReadPromptUsage(w));
    var r1 := ReadUsage(r, Some(w));
    assert ReadProse(r1, EMPTY_DELTA) == r1;
    NoEntries(r1);
  }

  lemma FinishedStep(st: Renderer, e: StreamEvent)
    ensures After(st, e).finished == (st.finished || e.Stop?)
  {
  }

  /** Each event renders to at most one chunk, which reads as the event does. */
  lemma MirrorStep(st: Renderer, r: Reading, a: Answer, e: StreamEvent)
    requires Mirrors(st, r, a) && !(st.finished && IsContent(e))
    requires e.ToolUseStart? ==> e.id != [] && e.id !in Ids(a.calls)
    requires e.ToolUseDelta? ==> e.id in Ids(a.calls)
    ensures |Rendered(st, e)| <= 1
    ensures Mirrors(After(st, e), if Rendered(st, e) == [] then r else ReadChunk(IDENTITY, r, Rendered(st, e)[0]),
                    Observe(a, e))
  {
    match e {
      case TextDelta(_) => MirrorText(st, r, a, e);
      case ThinkingDelta(_) => MirrorText(st, r, a, e);
      case Start(_, _) => MirrorText(st, r, a, e);
      case ToolUseStart(id, name) => MirrorToolStart(st, r, a, id, name);
      case ToolUseDelta(id, fragment) => MirrorFragment(st, r, a, id, fragment);
      case Stop(reason, usage) =>
        if !st.finished {
          MirrorStop(st, r, a, reason, usage);
        }
      case _ =>
    }
  }

  lemma {:induction false} RenderedMirrors(events: seq<StreamEvent>)
    requires WellNamed(events) && NoContentAfterStop(events) && NonEmptyIds(events)
    ensures Mirrors(RunState(events), ReadChunks(IDENTITY, RunChunks(events)), Read(events))
    ensures RunState(events).finished == HasStop(events)
    decreases |events|
  {
    if events != [] {
      var init, e := events[..|events| - 1], events[|events| - 1];
      NoContentStep(events);
      RenderedMirrors(init);
      var st := RunState(init);
      assert e.ToolUseStart? ==> e.id != [];
      MirrorStep(st, ReadChunks(IDENTITY, RunChunks(init)), Read(init), e);
      ReadOneMore(RunChunks(init), Rendered(st, e));
      FinishedStep(st, e);
    }
  }

  lemma ReadOneMore(chunks: seq<Chunk>, more: seq<Chunk>)
    requires |more| <= 1
    ensures ReadChunks(IDENTITY, chunks + more) ==
            if more == [] then ReadChunks(IDENTITY, chunks) else ReadChunk(IDENTITY, ReadChunks(IDENTITY, chunks), more[0])
  {
    if more == [] {
      assert chunks + more == chunks;
    } else {
      assert (chunks + more)[..|chunks|] == chunks;
    }
  }

  /** Rendering a run to Chat Completions and parsing the chunks back recovers the same text, the
      same reasoning, each call's id, name and argument string, and the ending up to the folding
      of stop reasons and of cache writes into the prompt. */
  lemma ChatRoundTrips(events: seq<StreamEvent>)
    requires WellNamed(events) && NoContentAfterStop(events) && NonEmptyIds(events)
    ensures var a, b := Read(events), Read(RelayChunks(IDENTITY, RunChunks(events)).events);
            && b.text == a.text && b.thinking == a.thinking && b.calls == a.calls
            && b.ending == FoldedEnding(a.ending, a.calls != [])
  {
    RenderedMirrors(events);
    ParserReadsByIndex(IDENTITY, RunChunks(events));
  }

  predicate AnyOpening(events: seq<StreamEvent>) {
    exists k :: 0 <= k < |events| && (events[k].Start? || events[k].TextDelta?)
  }

  lemma {:induction false} RoleSentIs(events: seq<StreamEvent>)
    ensures RunState(events).roleSent <==> AnyOpening(events)
  {
    if events != [] {
      var init, e := events[..|events| - 1], events[|events| - 1];
      RoleSentIs(init);
      if k :| 0 <= k < |init| && (init[k].Start? || init[k].TextDelta?) {
        assert events[k] == init[k];
      }
      if k :| 0 <= k < |events| && (events[k].Start? || events[k].TextDelta?) {
        assert k < |init| ==> events[k] == init[k];
      }
    }
  }

  /** The role goes out with every start, and with a text exactly when no start and no text came before. */
  lemma RoleIsAnnounced(events: seq<StreamEvent>, e: StreamEvent)
    requires e.Start? || e.TextDelta?
    ensures var chunks := Rendered(RunState(events), e);
            && |chunks| == 1 && chunks[0].Chunk? && chunks[0].choice.Some?
            && (chunks[0].choice.value.delta.role <==> e.Start? || !AnyOpening(events))
  {
    RoleSentIs(events);
  }
}
