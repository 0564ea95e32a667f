/** The relay loop: each payload parsed, each event folded in and rendered
    (`fold_payloads` in `crates/oag-server/src/gateway/sse.rs`), for a Chat Completions upstream and
    an Anthropic client. */
module Gateway {
  import opened Bytes
  import opened Finite
  import opened Hub
  import opened Accumulator
  import opened AnthropicStream
  import FunctionNames
  import ChatStream
  import ChatBill

  predicate AnyContent(events: seq<StreamEvent>) {
    exists k :: 0 <= k < |events| && IsContent(events[k])
  }

  /** The first error's message, unless one was noted before. */
  function FirstError(noted: Option<Text>, events: seq<StreamEvent>): Option<Text> {
    if events == [] then noted
    else
      var before, e := FirstError(noted, events[..|events| - 1]), events[|events| - 1];
      if before.None? && e.Error? then Some(e.message) else before
  }

  lemma {:induction false} FirstErrorConcat(noted: Option<Text>, x: seq<StreamEvent>, y: seq<StreamEvent>)
    ensures FirstError(noted, x + y) == FirstError(FirstError(noted, x), y)
    decreases |y|
  {
    if y == [] {
      assert x + y == x;
    } else {
      assert (x + y)[..|x + y| - 1] == x + y[..|y| - 1];
      FirstErrorConcat(noted, x, y[..|y| - 1]);
    }
  }

  /** What rendering some more events adds. */
  lemma RenderMore(st: Renderer, events: seq<StreamEvent>, e: StreamEvent)
    ensures RunState(st, events + [e]) == After(RunState(st, events), e)
    ensures RunFrames(st, events + [e]) == RunFrames(st, events) + Frames(RunState(st, events), e)
  {
    assert (events + [e])[..|events|] == events;
  }

  lemma {:induction false} StateConcat(st: Renderer, x: seq<StreamEvent>, y: seq<StreamEvent>)
    ensures RunState(st, x + y) == RunState(RunState(st, x), y)
    decreases |y|
  {
    if y == [] {
      assert x + y == x;
    } else {
      StateConcat(st, x, y[..|y| - 1]);
      assert (x + y)[..|x + y| - 1] == x + y[..|y| - 1];
    }
  }

  lemma {:induction false} FramesConcat(st: Renderer, x: seq<StreamEvent>, y: seq<StreamEvent>)
    ensures RunFrames(st, x + y) == RunFrames(st, x) + RunFrames(RunState(st, x), y)
    decreases |y|
  {
    if y == [] {
      assert x + y == x;
    } else {
      var init, e := y[..|y| - 1], y[|y| - 1];
      OneMore(x, y, |y| - 1);
      FramesConcat(st, x, init);
      FramesConcatStep(st, x, init, e);
    }
  }

  lemma FramesConcatStep(st: Renderer, x: seq<StreamEvent>, y: seq<StreamEvent>, e: StreamEvent)
    requires RunFrames(st, x + y) == RunFrames(st, x) + RunFrames(RunState(st, x), y)
    ensures RunFrames(st, x + y + [e]) == RunFrames(st, x) + RunFrames(RunState(st, x), y + [e])
  {
    StateConcat(st, x, y);
    RenderMore(st, x + y, e);
    RenderMore(RunState(st, x), y, e);
    Associates(RunFrames(st, x), RunFrames(RunState(st, x), y), Frames(RunState(st, x + y), e));
  }

  /** Accumulator, renderer, frames and notes after some events. */
  ghost predicate Folded(acc: Acc, st: Renderer, noted: Option<Text>, events: seq<StreamEvent>,
                         acc': Acc, st': Renderer, sawContent: bool, out: seq<Frame>, inBand: Option<Text>) {
    && acc' == ObservedAll(acc, events)
    && st' == RunState(st, events) && out == RunFrames(st, events)
    && sawContent == AnyContent(events) && inBand == FirstError(noted, events)
  }

  lemma FoldStep(acc: Acc, st: Renderer, noted: Option<Text>, events: seq<StreamEvent>, e: StreamEvent,
                 acc': Acc, st': Renderer, sawContent: bool, out: seq<Frame>, inBand: Option<Text>)
    requires Folded(acc, st, noted, events, acc', st', sawContent, out, inBand)
    ensures Folded(acc, st, noted, events + [e], Observed(acc', e), After(st', e), sawContent || IsContent(e),
                   out + Frames(st', e), if inBand.None? && e.Error? then Some(e.message) else inBand)
  {
    RenderMore(st, events, e);
    assert (events + [e])[..|events|] == events;
    ContentConcat(events, [e]);
    assert AnyContent([e]) <==> IsContent(e) by {
      assert [e][0] == e;
    }
  }

  method FoldEvents(events: seq<StreamEvent>, acc: StreamAccumulator, render: RenderState, noted: Option<Text>)
    returns (sawContent: bool, out: seq<Frame>, inBand: Option<Text>)
    modifies acc, render
    ensures acc.View() == ObservedAll(old(acc.View()), events)
    ensures render.View() == RunState(old(render.View()), events) && out == RunFrames(old(render.View()), events)
    ensures sawContent == AnyContent(events) && inBand == FirstError(noted, events)
  {
    sawContent, out, inBand := false, [], noted;
    for k := 0 to |events|
      invariant Folded(old(acc.View()), old(render.View()), noted, events[..k], acc.View(), render.View(), sawContent, out, inBand)
    {
      FoldStep(old(acc.View()), old(render.View()), noted, events[..k], events[k], acc.View(), render.View(), sawContent, out, inBand);
      assert events[..k + 1] == events[..k] + [events[k]];
      if IsContent(events[k]) {
        sawContent := true;
      }
      if events[k].Error? && inBand.None? {
        inBand := Some(events[k].message);
      }
      acc.Observe(events[k]);
      var frames := render.RenderEvent(events[k]);
      out := out + frames;
    }
    assert events[..|events|] == events;
  }

  function Events(names: FunctionNames.NameMap, chunks: seq<ChatStream.Chunk>): seq<StreamEvent> {
    ChatStream.RelayChunks(names, chunks).events
  }

  /** Everything sent for a stream. */
  function Sent(names: FunctionNames.NameMap, model: Text, chunks: seq<ChatStream.Chunk>): seq<Frame> {
    RunFrames(Fresh(model), Events(names, chunks))
  }

  /** Accumulator and renderer stand where the payloads so far have brought them. */
  ghost predicate InRelay(acc: StreamAccumulator, render: RenderState, model: Text, chunks: seq<ChatStream.Chunk>)
    reads acc, render
  {
    && acc.View() == ChatStream.RelayChunks(acc.names, chunks).acc
    && render.View() == RunState(Fresh(model), Events(acc.names, chunks))
  }

  method FoldPayload(chunk: ChatStream.Chunk, acc: StreamAccumulator, render: RenderState, noted: Option<Text>,
                     ghost model: Text, ghost prior: seq<ChatStream.Chunk>)
    returns (sawContent: bool, out: seq<Frame>, inBand: Option<Text>, ghost added: seq<StreamEvent>)
    requires InRelay(acc, render, model, prior)
    modifies acc, render
    ensures InRelay(acc, render, model, prior + [chunk])
    ensures Sent(acc.names, model, prior + [chunk]) == Sent(acc.names, model, prior) + out
    ensures Events(acc.names, prior + [chunk]) == Events(acc.names, prior) + added
    ensures sawContent == AnyContent(added) && inBand == FirstError(noted, added)
  {
    ChatBill.RelayMore(acc.names, prior, chunk);
    var events := ChatStream.ParseEvent(chunk, acc);
    added := events;
    StateConcat(Fresh(model), Events(acc.names, prior), events);
    FramesConcat(Fresh(model), Events(acc.names, prior), events);
    sawContent, out, inBand := FoldEvents(events, acc, render, noted);
  }

  /** However a stream is cut into batches of payloads, what has been sent is the rendering of the
      whole stream so far, and the accumulator has seen all of it. */
  method FoldPayloads(chunks: seq<ChatStream.Chunk>, acc: StreamAccumulator, render: RenderState, noted: Option<Text>,
                      ghost model: Text, ghost prior: seq<ChatStream.Chunk>)
    returns (sawContent: bool, out: seq<Frame>, inBand: Option<Text>, ghost added: seq<StreamEvent>)
    requires InRelay(acc, render, model, prior)
    modifies acc, render
    ensures InRelay(acc, render, model, prior + chunks)
    ensures Sent(acc.names, model, prior + chunks) == Sent(acc.names, model, prior) + out
    ensures Events(acc.names, prior + chunks) == Events(acc.names, prior) + added
    ensures sawContent == AnyContent(added) && inBand == FirstError(noted, added)
  {
    sawContent, out, inBand, added := false, [], noted, [];
    assert prior + chunks[..0] == prior;
    for k := 0 to |chunks|
      invariant InRelay(acc, render, model, prior + chunks[..k])
      invariant Sent(acc.names, model, prior + chunks[..k]) == Sent(acc.names, model, prior) + out
      invariant Events(acc.names, prior + chunks[..k]) == Events(acc.names, prior) + added
      invariant sawContent == AnyContent(added) && inBand == FirstError(noted, added)
    {
      OneMore(prior, chunks, k);
      var content, frames, error, more := FoldPayload(chunks[k], acc, render, inBand, model, prior + chunks[..k]);
      FirstErrorConcat(noted, added, more);
      ContentConcat(added, more);
      Associates(Sent(acc.names, model, prior), out, frames);
      Associates(Events(acc.names, prior), added, more);
      sawContent, out, inBand, added := sawContent || content, out + frames, error, added + more;
    }
    assert chunks[..|chunks|] == chunks;
  }

  lemma ContentConcat(x: seq<StreamEvent>, y: seq<StreamEvent>)
    ensures AnyContent(x + y) <==> AnyContent(x) || AnyContent(y)
  {
    assert forall k :: 0 <= k < |x| ==> (x + y)[k] == x[k];
    assert forall k :: 0 <= k < |y| ==> (x + y)[|x| + k] == y[k];
    if AnyContent(x) {
      var k :| 0 <= k < |x| && IsContent(x[k]);
      assert IsContent((x + y)[k]);
    }
    if AnyContent(y) {
      var k :| 0 <= k < |y| && IsContent(y[k]);
      assert IsContent((x + y)[|x| + k]);
    }
  }
}
