/** Whole runs of the Gemini renderer: that no call is lost or doubled. */
module GeminiTheorems {
  import opened Bytes
  import opened Finite
  import opened TokenUsage
  import opened JsonTree
  import opened Hub
  import opened Accumulator
  import opened GeminiStream

  // ── every call once ─────────────────────────────────────────────────────────

  /** The calls a run has opened and neither ended nor stopped. */
  function PendingAfter(pending: set<Text>, e: StreamEvent): set<Text> {
    match e
    case ToolUseStart(id, _) => pending + {id}
    case ToolUseEnd(id) => pending - {id}
    case Stop(_, _) => {}
    case _ => pending
  }

  function PendingCalls(events: seq<StreamEvent>): set<Text> {
    if events == [] then {} else PendingAfter(PendingCalls(events[..|events| - 1]), events[|events| - 1])
  }

  /** Every fragment comes before its call has ended. */
  predicate BeforeEnd(events: seq<StreamEvent>)
    decreases |events|
  {
    events == [] ||
    var init, last := events[..|events| - 1], events[|events| - 1];
    BeforeEnd(init) && (last.ToolUseDelta? ==> last.id in PendingCalls(init))
  }

  /** Emitted and pending calls together are the run's calls, each once. */
  ghost predicate Conserved(emitted: seq<Call>, pending: seq<Call>, calls: seq<Call>) {
    multiset(emitted) + multiset(pending) == multiset(calls)
  }

  ghost predicate PendingTracked(st: Renderer, pending: set<Text>) {
    && Distinct(Ids(st.pending))
    && (forall id :: id in Ids(st.pending) <==> id in pending)
    && (st.finished ==> st.pending == [])
  }

  lemma MultisetUpdate(s: seq<Call>, i: nat, x: Call)
    requires i < |s|
    ensures s[i] in multiset(s)
    ensures multiset(s[i := x]) == multiset(s) - multiset{s[i]} + multiset{x}
  {
  }

  lemma MultisetRemove(s: seq<Call>, i: nat)
    requires i < |s|
    ensures multiset(Removed(s, i)) + multiset{s[i]} == multiset(s)
  {
    assert s == s[..i] + [s[i]] + s[i + 1..];
  }

  /** A call is found under its id in the run exactly as it is held pending. */
  lemma PendingIsCall(emitted: seq<Call>, pending: seq<Call>, calls: seq<Call>, at: nat)
    requires Conserved(emitted, pending, calls) && Distinct(Ids(calls)) && at < |pending|
    ensures var k := Position(Ids(calls), pending[at].id);
            k < |calls| && calls[k] == pending[at]
  {
    assert pending[at] in multiset(pending);
    assert pending[at] in multiset(calls);
    var k :| 0 <= k < |calls| && calls[k] == pending[at];
    PositionUnique(Ids(calls), k);
  }

  lemma FragmentConserves(emitted: seq<Call>, pending: seq<Call>, calls: seq<Call>, id: Text, fragment: Text)
    requires Conserved(emitted, pending, calls) && Distinct(Ids(calls)) && id in Ids(pending)
    ensures Conserved(emitted, AddFragment(pending, id, fragment), AddFragment(calls, id, fragment))
  {
    var at, k := Position(Ids(pending), id), Position(Ids(calls), id);
    PendingIsCall(emitted, pending, calls, at);
    var x := pending[at];
    var y := x.(args := x.args + fragment);
    MultisetUpdate(pending, at, y);
    MultisetUpdate(calls, k, y);
  }

  lemma StepConserves(st: Renderer, emitted: seq<Call>, a: Answer, e: StreamEvent)
    requires Conserved(emitted, st.pending, a.calls) && Distinct(Ids(a.calls))
    requires e.ToolUseDelta? ==> e.id in Ids(st.pending)
    ensures Conserved(emitted + Emits(st, e), After(st, e).pending, Observe(a, e).calls)
  {
    assert emitted + [] == emitted;
    match e
    case ToolUseDelta(id, fragment) => FragmentConserves(emitted, st.pending, a.calls, id, fragment);
    case ToolUseEnd(id) =>
      if Emits(st, e) != [] {
        EndConserves(emitted, st.pending, a.calls, Position(Ids(st.pending), id));
      }
    case ToolUseStart(id, name) => StartConserves(emitted, st.pending, a.calls, Call(id, name, []));
    case _ =>
  }

  lemma StartConserves(emitted: seq<Call>, pending: seq<Call>, calls: seq<Call>, call: Call)
    requires Conserved(emitted, pending, calls)
    ensures Conserved(emitted, pending + [call], calls + [call])
  {
    assert multiset(pending + [call]) == multiset(pending) + multiset{call};
  }

  lemma EndConserves(emitted: seq<Call>, pending: seq<Call>, calls: seq<Call>, at: nat)
    requires Conserved(emitted, pending, calls) && at < |pending|
    ensures Conserved(emitted + [pending[at]], Removed(pending, at), calls)
  {
    MultisetRemove(pending, at);
  }

  lemma TrackingStep(st: Renderer, pending: set<Text>, e: StreamEvent)
    requires PendingTracked(st, pending) && !(st.finished && IsContent(e))
    requires e.ToolUseDelta? ==> e.id in pending
    requires e.ToolUseStart? ==> e.id !in pending
    ensures PendingTracked(After(st, e), PendingAfter(pending, e))
  {
    match e {
      case ToolUseStart(id, name) =>
        assert Ids(st.pending + [Call(id, name, [])]) == Ids(st.pending) + [id];
      case ToolUseDelta(id, fragment) => AddFragmentKeepsIds(st.pending, id, fragment);
      case ToolUseEnd(id) =>
        if id in Ids(st.pending) {
          RemovedIds(st.pending, id);
        }
      case _ =>
    }
  }

  lemma RemovedIds(pending: seq<Call>, id: Text)
    requires Distinct(Ids(pending)) && id in Ids(pending)
    ensures var rest := Removed(pending, Position(Ids(pending), id));
            Distinct(Ids(rest)) && forall x :: x in Ids(rest) <==> x in Ids(pending) && x != id
  {
    var at := Position(Ids(pending), id);
    RemovingAt(Ids(pending), Ids(Removed(pending, at)), at);
  }

  ghost predicate PendingAmongCalls(events: seq<StreamEvent>) {
    forall id :: id in PendingCalls(events) ==> id in Ids(Read(events).calls)
  }

  lemma AmongStep(events: seq<StreamEvent>)
    requires events != [] && PendingAmongCalls(events[..|events| - 1])
    ensures PendingAmongCalls(events)
  {
    var a, e := Read(events[..|events| - 1]), events[|events| - 1];
    if e.ToolUseDelta? {
      AddFragmentKeepsIds(a.calls, e.id, e.partialJson);
    } else if e.ToolUseStart? {
      assert Ids(a.calls + [Call(e.id, e.name, [])]) == Ids(a.calls) + [e.id];
    }
  }

  lemma {:induction false} FinishedExactlyWhenStopped(events: seq<StreamEvent>)
    ensures RunState(events).finished == HasStop(events)
  {
    if events != [] {
      FinishedExactlyWhenStopped(events[..|events| - 1]);
      NoContentStep(events);
    }
  }

  lemma {:induction false} AlwaysAmongCalls(events: seq<StreamEvent>)
    ensures PendingAmongCalls(events)
  {
    if events != [] {
      AlwaysAmongCalls(events[..|events| - 1]);
      AmongStep(events);
    }
  }

  lemma {:induction false} PendingIsTracked(events: seq<StreamEvent>)
    requires WellNamed(events) && NoContentAfterStop(events) && BeforeEnd(events)
    ensures PendingTracked(RunState(events), PendingCalls(events))
    decreases |events|
  {
    if events != [] {
      var init, e := events[..|events| - 1], events[|events| - 1];
      NoContentStep(events);
      PendingIsTracked(init);
      AlwaysAmongCalls(init);
      FinishedExactlyWhenStopped(init);
      TrackingStep(RunState(init), PendingCalls(init), e);
    }
  }

  lemma {:induction false} RunConserves(events: seq<StreamEvent>)
    requires WellNamed(events) && NoContentAfterStop(events) && BeforeEnd(events)
    ensures Conserved(Emitted(events), RunState(events).pending, Read(events).calls)
    ensures PendingTracked(RunState(events), PendingCalls(events))
    ensures RunState(events).finished == HasStop(events)
    decreases |events|
  {
    PendingIsTracked(events);
    FinishedExactlyWhenStopped(events);
    if events != [] {
      var init, e := events[..|events| - 1], events[|events| - 1];
      NoContentStep(events);
      RunConserves(init);
      WellNamedIds(init);
      StepConserves(RunState(init), Emitted(init), Read(init), e);
    }
  }

  /** A fragment after its call ended opens a call of its own, under the id for a name, so the
      calls delivered outnumber the calls made from then on. */
  lemma {:induction false} LateFragmentsDouble(events: seq<StreamEvent>)
    requires WellNamed(events) && NoContentAfterStop(events)
    ensures |Emitted(events)| + |RunState(events).pending| >= |Read(events).calls|
    ensures !BeforeEnd(events) ==> |Emitted(events)| + |RunState(events).pending| > |Read(events).calls|
    decreases |events|
  {
    if events != [] {
      var init, e := events[..|events| - 1], events[|events| - 1];
      NoContentStep(events);
      LateFragmentsDouble(init);
      CountStep(RunState(init), Read(init), e);
      if e.ToolUseDelta? && BeforeEnd(init) {
        RunConserves(init);
      }
    }
  }

  /** Only opening a call, or a fragment that finds none pending, adds to the calls to deliver. */
  lemma CountStep(st: Renderer, a: Answer, e: StreamEvent)
    ensures |Emits(st, e)| + |After(st, e).pending| ==
            |st.pending| + if e.ToolUseStart? || (e.ToolUseDelta? && e.id !in Ids(st.pending)) then 1 else 0
    ensures |Observe(a, e).calls| == |a.calls| + if e.ToolUseStart? then 1 else 0
  {
  }

  /** Each opened call is delivered exactly once, whole, exactly when no fragment follows its
      call's end; and a stop leaves nothing pending. */
  lemma CallsDeliveredOnceExactlyWhen(events: seq<StreamEvent>)
    requires WellNamed(events) && NoContentAfterStop(events)
    ensures Conserved(Emitted(events), RunState(events).pending, Read(events).calls) <==> BeforeEnd(events)
    ensures BeforeEnd(events) && HasStop(events) ==>
              RunState(events).pending == [] && multiset(Emitted(events)) == multiset(Read(events).calls)
  {
    if BeforeEnd(events) {
      RunConserves(events);
    } else {
      LateFragmentsDouble(events);
      assert |multiset(Emitted(events)) + multiset(RunState(events).pending)| ==
             |Emitted(events)| + |RunState(events).pending|;
    }
  }

  // ── reading the frames back ─────────────────────────────────────────────────

  /** The `functionCall` parts of some frames, in order. */
  function CallParts(parts: seq<Part>): seq<Part> {
    if parts == [] then [] else (if parts[0].call.Some? then [parts[0]] else []) + CallParts(parts[1..])
  }

  function FrameCalls(frame: Frame): seq<Part> {
    if frame.Chunk? && frame.candidate.Some? then CallParts(frame.candidate.value.parts) else []
  }

  function FramesCalls(frames: seq<Frame>): seq<Part> {
    if frames == [] then [] else FramesCalls(frames[..|frames| - 1]) + FrameCalls(frames[|frames| - 1])
  }

  lemma {:induction false} PartsAreCalls(codec: Codec, calls: seq<Call>)
    ensures CallParts(PartsOf(codec, calls)) == PartsOf(codec, calls)
  {
    if calls != [] {
      PartsAreCalls(codec, calls[1..]);
      assert PartsOf(codec, calls)[1..] == PartsOf(codec, calls[1..]);
    }
  }

  lemma {:induction false} PartsOfConcat(codec: Codec, x: seq<Call>, y: seq<Call>)
    ensures PartsOf(codec, x + y) == PartsOf(codec, x) + PartsOf(codec, y)
  {
    if x == [] {
      assert x + y == y;
    } else {
      PartsOfConcat(codec, x[1..], y);
      assert (x + y)[0] == x[0] && (x + y)[1..] == x[1..] + y;
      Associates([PartOf(codec, x[0])], PartsOf(codec, x[1..]), PartsOf(codec, y));
    }
  }

  lemma NoCallPart(part: Part)
    requires part.call.None?
    ensures CallParts([part]) == []
  {
    assert CallParts([part][1..]) == [];
  }

  lemma RenderedCalls(codec: Codec, st: Renderer, e: StreamEvent)
    ensures var more := Rendered(codec, st, e);
            |more| <= 1 && (if more == [] then [] else FrameCalls(more[0])) == PartsOf(codec, Emits(st, e))
  {
    PartsAreCalls(codec, Emits(st, e));
    if e.TextDelta? || e.ThinkingDelta? {
      NoCallPart(Part(Some(e.text), e.ThinkingDelta?, None));
    }
  }

  lemma StepCallParts(codec: Codec, frames: seq<Frame>, st: Renderer, e: StreamEvent)
    ensures FramesCalls(frames + Rendered(codec, st, e)) == FramesCalls(frames) + PartsOf(codec, Emits(st, e))
  {
    var more := Rendered(codec, st, e);
    RenderedCalls(codec, st, e);
    if more == [] {
      assert frames + more == frames;
    } else {
      assert (frames + more)[..|frames + more| - 1] == frames;
    }
  }

  /** The frames of any run carry the emitted calls, each as one `functionCall` part, and no other. */
  lemma {:induction false} FramesCarryEmitted(codec: Codec, events: seq<StreamEvent>)
    ensures FramesCalls(RunFrames(codec, events)) == PartsOf(codec, Emitted(events))
  {
    if events != [] {
      var init, e := events[..|events| - 1], events[|events| - 1];
      FramesCarryEmitted(codec, init);
      StepCallParts(codec, RunFrames(codec, init), RunState(init), e);
      PartsOfConcat(codec, Emitted(init), Emits(RunState(init), e));
    }
  }
}
