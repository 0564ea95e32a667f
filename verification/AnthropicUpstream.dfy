/** Anthropic as upstream: its block-addressed stream read into canonical events by a parser that
    gives every fragment to the call opened last (`parse_event` in
    `crates/oag-proto/src/anthropic.rs`). */
module AnthropicUpstream {
  import opened Bytes
  import opened TokenUsage
  import opened Hub
  import opened FunctionNames
  import opened Accumulator
  import opened AnthropicStream
  import opened AnthropicClient
  import opened AnthropicTheorems
  import opened BlockAddressing

  function Parsed(acc: Acc, frame: Frame): seq<StreamEvent> {
    match frame
    case MessageStart(model, usage) => [Start(model, usage)]
    case BlockStart(_, kind) => if kind.ToolKind? then [ToolUseStart(kind.id, kind.name)] else []
    case BodyDelta(_, thinking, text) => [if thinking then ThinkingDelta(text) else TextDelta(text)]
    case InputDelta(_, partialJson) => [ToolUseDelta(CurrentTool(acc), partialJson)]
    case BlockStop(_) => if acc.openTool.Some? then [ToolUseEnd(acc.openTool.value)] else []
    case MessageDelta(reason, usage) => [UsageUpdate(usage), Stop(reason, usage)]
    case MessageStop => []
    case ErrorFrame(message) => [Error(message)]
  }

  function RelayFrames(names: NameMap, frames: seq<Frame>): Relay {
    if frames == [] then Relay(Begun(names), [])
    else
      var before := RelayFrames(names, frames[..|frames| - 1]);
      var events := Parsed(before.acc, frames[|frames| - 1]);
      Relayed(before, before.acc, events)
  }

  // ── the parser against the client that reassembles by block index ───────────

  /** The block of the tool opened last. */
  function LastToolStart(frames: seq<Frame>): Option<nat> {
    if frames == [] then None
    else
      var f := frames[|frames| - 1];
      if f.BlockStart? && f.kind.ToolKind? then Some(f.index) else LastToolStart(frames[..|frames| - 1])
  }

  /** Every fragment that says anything names the block of the tool opened last. */
  predicate Ordered(frames: seq<Frame>) {
    frames == [] ||
    var init, f := frames[..|frames| - 1], frames[|frames| - 1];
    Ordered(init) && (f.InputDelta? && f.partialJson != [] ==> LastToolStart(init) == Some(f.index))
  }

  /** `at` is the last tool block, if there is one. */
  ghost predicate IsLastTool(blocks: seq<Block>, at: Option<nat>) {
    match at
    case Some(i) => i < |blocks| && Rank(blocks, i) == |ToolsOf(blocks)| - 1 && blocks[i].kind.ToolKind?
    case None => ToolsOf(blocks) == []
  }

  ghost predicate Reads(a: Answer, c: Client) {
    && a.text == c.text && a.thinking == c.thinking
    && a.ending.Some? == c.ending.Some? && (a.ending.Some? ==> a.ending.value.reason == c.ending.value.reason)
  }

  lemma {:induction false} RankInjective(blocks: seq<Block>, i: nat, j: nat)
    requires i < j < |blocks| && blocks[i].kind.ToolKind?
    ensures Rank(blocks, i) < Rank(blocks, j)
    decreases j
  {
    assert blocks[..j][..j - 1] == blocks[..j - 1];
    if i < j - 1 {
      RankInjective(blocks, i, j - 1);
    }
  }

  /** A fragment's block is the last tool block exactly when its rank is the last. */
  lemma LastRank(blocks: seq<Block>, at: Option<nat>, i: nat)
    requires IsLastTool(blocks, at) && i < |blocks| && blocks[i].kind.ToolKind?
    ensures at == Some(i) <==> Rank(blocks, i) == |ToolsOf(blocks)| - 1
  {
    ToolAtRank(blocks, i);
    if at.Some? && at.value < i {
      RankInjective(blocks, at.value, i);
    } else if at.Some? && i < at.value {
      RankInjective(blocks, i, at.value);
    }
  }

  lemma LastToolStays(x: seq<Block>, y: seq<Block>, at: Option<nat>)
    requires IsLastTool(x, at) && SameKinds(x, y) && |x| == |y| && |ToolsOf(x)| == |ToolsOf(y)|
    ensures IsLastTool(y, at)
  {
    if at.Some? {
      SameRank(x, y, at.value);
    }
  }

  /** What the client holds after a frame, in terms of its calls. */
  lemma ToolsAfter(c: Client, f: Frame)
    requires Accept(false, c, f).Some?
    ensures var x, y := ToolsOf(c.blocks), ToolsOf(Accept(false, c, f).value.blocks);
            if f.BlockStart? && f.kind.ToolKind? then y == x + [Call(f.kind.id, f.kind.name, [])]
            else if f.InputDelta? then
              Rank(c.blocks, f.index) < |x| && y == Addressed(x, Some(Rank(c.blocks, f.index)), f.partialJson)
            else y == x
  {
    var blocks := c.blocks;
    match f
    case BlockStart(_, kind) => ToolsOfAppend(blocks, Block(kind, [], false));
    case InputDelta(i, partialJson) => ToolsAfterAppend(blocks, i, partialJson);
    case BodyDelta(i, _, text) => SameTools(blocks, AppendBody(blocks, i, text));
    case BlockStop(i) => SameTools(blocks, StopAt(blocks, i));
    case _ =>
  }

  lemma KindsAfter(c: Client, f: Frame)
    requires Accept(false, c, f).Some? && !f.BlockStart?
    ensures var y := Accept(false, c, f).value.blocks; |y| == |c.blocks| && SameKinds(c.blocks, y)
  {
  }

  lemma BlockAdded(x: seq<Block>, b: Block, at: Option<nat>)
    requires IsLastTool(x, at)
    ensures IsLastTool(x + [b], if b.kind.ToolKind? then Some(|x|) else at)
  {
    var y := x + [b];
    ToolsOfAppend(x, b);
    assert y[..|x|] == x;
    if !b.kind.ToolKind? && at.Some? {
      assert y[..at.value] == x[..at.value];
    }
  }

  lemma LastToolAfter(c: Client, f: Frame, at: Option<nat>)
    requires Accept(false, c, f).Some? && IsLastTool(c.blocks, at)
    ensures IsLastTool(Accept(false, c, f).value.blocks, if f.BlockStart? && f.kind.ToolKind? then Some(f.index) else at)
  {
    if f.BlockStart? {
      BlockAdded(c.blocks, Block(f.kind, [], false), at);
    } else {
      ToolsAfter(c, f);
      KindsAfter(c, f);
      LastToolStays(c.blocks, Accept(false, c, f).value.blocks, at);
    }
  }

  lemma {:induction false} LastToolTracked(frames: seq<Frame>)
    requires Feed(false, UNSTARTED, frames).Some?
    ensures IsLastTool(Feed(false, UNSTARTED, frames).value.blocks, LastToolStart(frames))
  {
    if frames != [] {
      FeedLast(frames);
      LastToolTracked(frames[..|frames| - 1]);
      LastToolAfter(Feed(false, UNSTARTED, frames[..|frames| - 1]).value, frames[|frames| - 1],
                    LastToolStart(frames[..|frames| - 1]));
    }
  }

  lemma FeedLast(frames: seq<Frame>)
    requires frames != [] && Feed(false, UNSTARTED, frames).Some?
    ensures var c := Feed(false, UNSTARTED, frames[..|frames| - 1]);
            c.Some? && Accept(false, c.value, frames[|frames| - 1]) == Feed(false, UNSTARTED, frames)
  {
    var init, f := frames[..|frames| - 1], frames[|frames| - 1];
    assert init + [f] == frames;
    FeedConcat(false, UNSTARTED, init, [f]);
    if Feed(false, UNSTARTED, init).Some? {
      FeedOne(false, Feed(false, UNSTARTED, init).value, f);
    }
  }

  // ── one frame ───────────────────────────────────────────────────────────────

  lemma ProseReads(acc: Acc, a: Answer, c: Client, f: Frame)
    requires Reads(a, c) && Accept(false, c, f).Some?
    ensures Reads(ReadFrom(a, Parsed(acc, f)), Accept(false, c, f).value)
  {
    var events := Parsed(acc, f);
    if |events| == 1 {
      assert events == [events[0]];
      ReadOne(a, events[0]);
    } else if f.MessageDelta? {
      TwoEvents(a, events[0], events[1]);
    }
  }

  lemma TwoEvents(a: Answer, x: StreamEvent, y: StreamEvent)
    ensures ReadFrom(a, [x, y]) == Observe(Observe(a, x), y)
  {
    assert [x, y] == [x] + [y];
    ReadConcat(a, [x], [y]);
    ReadOne(a, x);
    ReadOne(Observe(a, x), y);
  }

  lemma InputAfter(acc: Acc, a: Answer, f: Frame)
    requires Agrees(acc, a) && f.InputDelta? && a.calls != []
    ensures ReadFrom(a, Parsed(acc, f)).calls == AddFragment(a.calls, LastId(a.calls), f.partialJson)
  {
    CurrentIsLast(acc, a);
    ReadOne(a, ToolUseDelta(CurrentTool(acc), f.partialJson));
    FragmentObserved(a, CurrentTool(acc), f.partialJson);
  }

  /** The parser's calls after a frame. */
  lemma CallsAfter(acc: Acc, a: Answer, f: Frame)
    requires Agrees(acc, a) && (f.InputDelta? ==> a.calls != [])
    ensures ReadFrom(a, Parsed(acc, f)).calls ==
            if f.BlockStart? && f.kind.ToolKind? then a.calls + [Call(f.kind.id, f.kind.name, [])]
            else if f.InputDelta? then AddFragment(a.calls, LastId(a.calls), f.partialJson)
            else a.calls
  {
    match f
    case MessageStart(model, usage) => ReadOne(a, Start(model, usage));
    case BlockStart(_, kind) =>
      if kind.ToolKind? {
        ReadOne(a, ToolUseStart(kind.id, kind.name));
      }
    case BodyDelta(_, thinking, text) => ReadOne(a, if thinking then ThinkingDelta(text) else TextDelta(text));
    case InputDelta(_, _) => InputAfter(acc, a, f);
    case BlockStop(_) =>
      if acc.openTool.Some? {
        ReadOne(a, ToolUseEnd(acc.openTool.value));
      }
    case MessageDelta(reason, usage) => TwoEvents(a, UsageUpdate(usage), Stop(reason, usage));
    case MessageStop =>
    case ErrorFrame(message) => ReadOne(a, Error(message));
  }

  lemma AlikeFrame(acc: Acc, a: Answer, c: Client, f: Frame, inPlace: bool, at: Option<nat>)
    requires Agrees(acc, a) && Accept(false, c, f).Some? && IsLastTool(c.blocks, at)
    requires Alike(a.calls, ToolsOf(c.blocks), inPlace)
    requires f.BlockStart? && f.kind.ToolKind? ==> f.kind.id !in Ids(a.calls)
    ensures Alike(ReadFrom(a, Parsed(acc, f)).calls, ToolsOf(Accept(false, c, f).value.blocks),
                  inPlace && (f.InputDelta? && f.partialJson != [] ==> at == Some(f.index)))
  {
    var x, y := a.calls, ToolsOf(c.blocks);
    assert |Ids(x)| == |Ids(y)|;
    ToolsAfter(c, f);
    CallsAfter(acc, a, f);
    if f.BlockStart? && f.kind.ToolKind? {
      AlikeOpening(x, y, inPlace, f.kind.id, f.kind.name);
    } else if f.InputDelta? {
      LastRank(c.blocks, at, f.index);
      AlikeFragment(x, y, inPlace, Some(Rank(c.blocks, f.index)), f.partialJson);
    }
  }

  // ── whole streams ───────────────────────────────────────────────────────────

  lemma RelayLast(names: NameMap, frames: seq<Frame>)
    requires frames != []
    ensures var before, after := RelayFrames(names, frames[..|frames| - 1]), RelayFrames(names, frames);
            var events := Parsed(before.acc, frames[|frames| - 1]);
            && after == Relayed(before, before.acc, events)
            && Read(after.events) == ReadFrom(Read(before.events), events)
            && (Agrees(before.acc, Read(before.events)) ==> Agrees(after.acc, Read(after.events)))
  {
    var before := RelayFrames(names, frames[..|frames| - 1]);
    RelayedReads(before, before.acc, Parsed(before.acc, frames[|frames| - 1]));
  }

  lemma {:induction false} RelayAgrees(names: NameMap, frames: seq<Frame>)
    ensures Agrees(RelayFrames(names, frames).acc, Read(RelayFrames(names, frames).events))
  {
    if frames != [] {
      RelayAgrees(names, frames[..|frames| - 1]);
      RelayLast(names, frames);
    }
  }

  lemma {:induction false} RelayReads(names: NameMap, frames: seq<Frame>)
    requires Feed(false, UNSTARTED, frames).Some?
    ensures Reads(Read(RelayFrames(names, frames).events), Feed(false, UNSTARTED, frames).value)
  {
    if frames != [] {
      var init := frames[..|frames| - 1];
      FeedLast(frames);
      RelayReads(names, init);
      RelayLast(names, frames);
      ProseReads(RelayFrames(names, init).acc, Read(RelayFrames(names, init).events), Feed(false, UNSTARTED, init).value,
                 frames[|frames| - 1]);
    }
  }

  /** Ids of the calls before a frame are ids of the calls after it, and a new one is new. */
  lemma IdsBefore(c: Client, f: Frame)
    requires Accept(false, c, f).Some? && Distinct(Ids(ToolsOf(Accept(false, c, f).value.blocks)))
    ensures Distinct(Ids(ToolsOf(c.blocks)))
    ensures f.BlockStart? && f.kind.ToolKind? ==> f.kind.id !in Ids(ToolsOf(c.blocks))
  {
    var x, y := ToolsOf(c.blocks), ToolsOf(Accept(false, c, f).value.blocks);
    ToolsAfter(c, f);
    if f.BlockStart? && f.kind.ToolKind? {
      assert Ids(y) == Ids(x) + [f.kind.id];
      assert forall k :: 0 <= k < |x| ==> Ids(y)[k] == Ids(x)[k];
      assert Ids(y)[|x|] == f.kind.id;
    } else if f.InputDelta? {
      AddressedIds(x, Some(Rank(c.blocks, f.index)), f.partialJson);
    }
  }

  lemma {:induction false} RelayAlike(names: NameMap, frames: seq<Frame>)
    requires Feed(false, UNSTARTED, frames).Some?
    requires Distinct(Ids(ToolsOf(Feed(false, UNSTARTED, frames).value.blocks)))
    ensures Alike(Read(RelayFrames(names, frames).events).calls, ToolsOf(Feed(false, UNSTARTED, frames).value.blocks),
                  Ordered(frames))
  {
    if frames != [] {
      var init, f := frames[..|frames| - 1], frames[|frames| - 1];
      FeedLast(frames);
      var before, c := RelayFrames(names, init), Feed(false, UNSTARTED, init).value;
      IdsBefore(c, f);
      RelayAlike(names, init);
      RelayAgrees(names, init);
      RelayLast(names, frames);
      LastToolTracked(init);
      AlikeFrame(before.acc, Read(before.events), c, f, Ordered(init), LastToolStart(init));
    }
  }

  /** For every frame stream that obeys the block protocol, with distinct call ids: the parser reads
      the text, reasoning and stop reason a client reassembling by block index reads, and its calls
      exactly when every fragment that says anything names the tool block opened last. */
  lemma ParserReadsByBlockExactlyWhen(names: NameMap, frames: seq<Frame>)
    requires Feed(false, UNSTARTED, frames).Some?
    requires Distinct(Ids(ToolsOf(Feed(false, UNSTARTED, frames).value.blocks)))
    ensures var c, relay := Feed(false, UNSTARTED, frames).value, RelayFrames(names, frames);
            && Reads(Read(relay.events), c) && Agrees(relay.acc, Read(relay.events))
            && (Read(relay.events).calls == ToolsOf(c.blocks) <==> Ordered(frames))
  {
    RelayReads(names, frames);
    RelayAgrees(names, frames);
    RelayAlike(names, frames);
    AlikeExactlyWhen(Read(RelayFrames(names, frames).events).calls, ToolsOf(Feed(false, UNSTARTED, frames).value.blocks),
                     Ordered(frames));
  }

  function ReportIn(frame: Frame): seq<Usage> {
    if frame.MessageStart? || frame.MessageDelta? then [frame.usage] else []
  }

  lemma FrameBills(acc: Acc, a: Answer, f: Frame)
    ensures ReadFrom(a, Parsed(acc, f)).usage == if ReportIn(f) == [] then a.usage else a.usage.Merge(ReportIn(f)[0])
  {
    var events := Parsed(acc, f);
    if |events| == 1 {
      assert events == [events[0]];
      ReadOne(a, events[0]);
    } else if f.MessageDelta? {
      TwoEvents(a, events[0], events[1]);
      assert a.usage.Merge(f.usage).Merge(f.usage) == a.usage.Merge(f.usage);
    }
  }

  /** The bill of any frame stream is the merge of what its opening and closing frames report. */
  lemma {:induction false} BillIsMerged(names: NameMap, frames: seq<Frame>)
    ensures var relay := RelayFrames(names, frames);
            relay.acc.usage == Read(relay.events).usage == MergeAll(Gathered(frames, ReportIn))
  {
    RelayAgrees(names, frames);
    if frames != [] {
      var init, f := frames[..|frames| - 1], frames[|frames| - 1];
      assert init + [f] == frames;
      BillIsMerged(names, init);
      RelayLast(names, frames);
      FrameBills(RelayFrames(names, init).acc, Read(RelayFrames(names, init).events), f);
      GatheredMore(init, f, ReportIn);
    }
  }

  // ── what the gateway itself rendered, read back ─────────────────────────────

  /** The call a run opened last. */
  function LastStarted(events: seq<StreamEvent>): Option<Text> {
    if events == [] then None
    else if events[|events| - 1].ToolUseStart? then Some(events[|events| - 1].id) else LastStarted(events[..|events| - 1])
  }

  /** Every fragment that says anything is for the call opened last: calls are not interleaved. */
  predicate Sequential(events: seq<StreamEvent>) {
    events == [] ||
    var init, e := events[..|events| - 1], events[|events| - 1];
    Sequential(init) && (e.ToolUseDelta? && e.partialJson != [] ==> LastStarted(init) == Some(e.id))
  }

  predicate Inert(f: Frame) { !f.InputDelta? && !(f.BlockStart? && f.kind.ToolKind?) }

  lemma {:induction false} InertFrames(x: seq<Frame>, y: seq<Frame>)
    requires forall k :: 0 <= k < |y| ==> Inert(y[k])
    ensures LastToolStart(x + y) == LastToolStart(x) && Ordered(x + y) == Ordered(x)
    decreases |y|
  {
    if y == [] {
      assert x + y == x;
    } else {
      InertFrames(x, y[..|y| - 1]);
      assert (x + y)[..|x + y| - 1] == x + y[..|y| - 1];
    }
  }

  lemma OneFrame(x: seq<Frame>, f: Frame)
    ensures LastToolStart(x + [f]) == if f.BlockStart? && f.kind.ToolKind? then Some(f.index) else LastToolStart(x)
    ensures Ordered(x + [f]) == (Ordered(x) && (f.InputDelta? && f.partialJson != [] ==> LastToolStart(x) == Some(f.index)))
  {
    assert (x + [f])[..|x|] == x;
  }

  lemma QuietFrames(st: Renderer, e: StreamEvent)
    requires !e.ToolUseStart? && !e.ToolUseDelta?
    ensures forall k :: 0 <= k < |Frames(st, e)| ==> Inert(Frames(st, e)[k])
  {
    StopsOnlyStop(st.openTools);
  }

  /** The renderer's open blocks against the block and the call opened last. */
  ghost predicate LastKnown(st: Renderer, at: Option<nat>, id: Option<Text>) {
    && (at.Some? ==> at.value < st.nextIndex)
    && forall k :: 0 <= k < |st.openTools| ==>
                     st.openTools[k].index < st.nextIndex && (at == Some(st.openTools[k].index) <==> id == Some(st.openTools[k].id))
  }

  lemma StartFramesAre(st: Renderer, x: seq<Frame>, id: Text, name: Text)
    ensures var y := x + Frames(st, ToolUseStart(id, name));
            LastToolStart(y) == Some(st.nextIndex) && Ordered(y) == Ordered(x)
  {
    var opening, block := StartFrames(st) + TextStops(st), BlockStart(st.nextIndex, ToolKind(id, name));
    InertFrames(x, opening);
    OneFrame(x + opening, block);
    assert x + Frames(st, ToolUseStart(id, name)) == x + opening + [block];
  }

  lemma LastKnownStep(st: Renderer, e: StreamEvent, at: Option<nat>, id: Option<Text>)
    requires LastKnown(st, at, id) && (e.ToolUseStart? ==> e.id !in OpenIds(st.openTools))
    ensures LastKnown(After(st, e), if e.ToolUseStart? then Some(st.nextIndex) else at, if e.ToolUseStart? then Some(e.id) else id)
  {
    if e.ToolUseStart? {
      assert forall k :: 0 <= k < |st.openTools| ==> OpenIds(st.openTools)[k] == st.openTools[k].id;
    }
  }

  lemma {:induction false} OrderedExactlyWhenSequential(model: Text, events: seq<StreamEvent>)
    requires WellNamed(events) && NoContentAfterStop(events) && Timely(events)
    ensures var frames := RunFrames(Fresh(model), events);
            && (Ordered(frames) <==> Sequential(events))
            && LastKnown(RunState(Fresh(model), events), LastToolStart(frames), LastStarted(events))
    decreases |events|
  {
    if events != [] {
      var init, e := events[..|events| - 1], events[|events| - 1];
      var st, frames := RunState(Fresh(model), init), RunFrames(Fresh(model), init);
      NoContentStep(events);
      OrderedExactlyWhenSequential(model, init);
      TracksOpenCalls(model, init);
      LastKnownStep(st, e, LastToolStart(frames), LastStarted(init));
      if e.ToolUseStart? {
        StartFramesAre(st, frames, e.id, e.name);
      } else if e.ToolUseDelta? {
        DeltaOrdered(st, frames, e, LastStarted(init));
      } else {
        QuietFrames(st, e);
        InertFrames(frames, Frames(st, e));
      }
    }
  }

  lemma DeltaOrdered(st: Renderer, x: seq<Frame>, e: StreamEvent, id: Option<Text>)
    requires e.ToolUseDelta? && LastKnown(st, LastToolStart(x), id)
    requires e.partialJson != [] ==> e.id in OpenIds(st.openTools)
    ensures var y := x + Frames(st, e);
            && LastToolStart(y) == LastToolStart(x)
            && (Ordered(y) <==> Ordered(x) && (e.partialJson != [] ==> id == Some(e.id)))
  {
    if Frames(st, e) == [] {
      assert x + Frames(st, e) == x;
    } else {
      OneFrame(x, Frames(st, e)[0]);
      assert Frames(st, e) == [Frames(st, e)[0]];
    }
  }

  /** Rendered for an Anthropic client and read back from Anthropic: for every run with distinct call
      ids whose fragments all reach their calls, the calls come back exactly when no fragment is for
      a call other than the one opened last. */
  lemma RenderedCallsComeBackExactlyWhen(names: NameMap, model: Text, events: seq<StreamEvent>)
    requires WellNamed(events) && NoContentAfterStop(events) && Timely(events)
    ensures var back := Read(RelayFrames(names, RunFrames(Fresh(model), events)).events);
            && back.text == Read(events).text && back.thinking == Read(events).thinking
            && (back.calls == Read(events).calls <==> Sequential(events))
  {
    ClientRecoversExactlyWhen(model, events);
    WellNamedIds(events);
    ParserReadsByBlockExactlyWhen(names, RunFrames(Fresh(model), events));
    OrderedExactlyWhenSequential(model, events);
  }

  /** Two calls open at once, and a fragment for the first. */
  function Interleaved(a: Call, b: Call, fragment: Text): seq<StreamEvent> {
    [Opening(a), Opening(b)] + [ToolUseDelta(a.id, fragment)]
  }

  lemma InterleavedIsWellFormed(a: Call, b: Call, fragment: Text)
    requires a.id != b.id && a.args == [] == b.args && fragment != []
    ensures var events := Interleaved(a, b, fragment);
            WellNamed(events) && NoContentAfterStop(events) && Timely(events) && !Sequential(events)
  {
    var events := Interleaved(a, b, fragment);
    TwoOpenings(a, b);
    MonitorMore(UNWATCHED, [Opening(a), Opening(b)], ToolUseDelta(a.id, fragment));
    MonitorMeans(events);
    assert Ids([a, b])[0] == a.id;
    assert events[..2] == [Opening(a), Opening(b)];
  }

  /** Rendered and read back, the fragment has changed hands. */
  lemma InterleavedCallsDoNotComeBack(names: NameMap, model: Text, a: Call, b: Call, fragment: Text)
    requires a.id != b.id && a.args == [] == b.args && fragment != []
    ensures var events := Interleaved(a, b, fragment);
            Read(RelayFrames(names, RunFrames(Fresh(model), events)).events).calls != Read(events).calls
  {
    InterleavedIsWellFormed(a, b, fragment);
    RenderedCallsComeBackExactlyWhen(names, model, Interleaved(a, b, fragment));
  }

  // ── the parser itself ───────────────────────────────────────────────────────

  method ParseEvent(frame: Frame, acc: StreamAccumulator) returns (events: seq<StreamEvent>)
    ensures events == Parsed(acc.View(), frame)
  {
    match frame {
      case MessageStart(model, usage) => events := [Start(model, usage)];
      case BlockStart(_, kind) => events := if kind.ToolKind? then [ToolUseStart(kind.id, kind.name)] else [];
      case BodyDelta(_, thinking, text) => events := [if thinking then ThinkingDelta(text) else TextDelta(text)];
      case InputDelta(_, partialJson) =>
        var id := if acc.buffers == [] then [] else acc.buffers[|acc.buffers| - 1].id;
        events := [ToolUseDelta(id, partialJson)];
      case BlockStop(_) => events := if acc.openTool.Some? then [ToolUseEnd(acc.openTool.value)] else [];
      case MessageDelta(reason, usage) => events := [UsageUpdate(usage), Stop(reason, usage)];
      case MessageStop => events := [];
      case ErrorFrame(message) => events := [Error(message)];
    }
  }
}
