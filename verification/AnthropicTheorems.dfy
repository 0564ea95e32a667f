/** Whole runs of the Anthropic renderer: when its frames obey the block protocol, and when a
    client recovers every call. Both conditions are exact and are read off the events alone. */
module AnthropicTheorems {
  import opened Bytes
  import opened Finite
  import opened TokenUsage
  import opened Hub
  import opened AnthropicStream
  import opened AnthropicClient

  // ── the block protocol ──────────────────────────────────────────────────────

  /** Whether a run leaves a text-like block open, and whether it was opened by reasoning. */
  function OpenKind(events: seq<StreamEvent>): Option<bool>
    decreases |events|
  {
    if events == [] then None else KindAfter(OpenKind(events[..|events| - 1]), events[|events| - 1])
  }

  function KindAfter(open: Option<bool>, e: StreamEvent): Option<bool> {
    match e
    case TextDelta(_) => if open.None? then Some(false) else open
    case ThinkingDelta(_) => if open.None? then Some(true) else open
    case ToolUseStart(_, _) => None
    case Stop(_, _) => None
    case _ => open
  }

  /** Text never follows reasoning, nor reasoning text, without a call opening in between. */
  predicate KindsAgree(events: seq<StreamEvent>)
    decreases |events|
  {
    events == [] ||
    var init, last := events[..|events| - 1], events[|events| - 1];
    KindsAgree(init) && KindFollows(OpenKind(init), last)
  }

  predicate KindFollows(open: Option<bool>, e: StreamEvent) {
    (e.TextDelta? || e.ThinkingDelta?) && open.Some? ==> open.value == e.ThinkingDelta?
  }

  ghost predicate KindTracked(open: Option<bool>, st: Renderer, c: Client) {
    && (open.None? <==> st.openText.None?)
    && (open.Some? ==>
          && st.openText.value < |c.blocks|
          && c.blocks[st.openText.value].kind == BodyKind(open.value))
  }

  /** The client has read what the run says, calls aside. */
  ghost predicate ReadsAlike(st: Renderer, c: Client, a: Answer) {
    c.text == a.text && c.thinking == a.thinking && c.ending == a.ending && (st.finished || st.usage == a.usage)
  }

  ghost predicate InStep(model: Text, events: seq<StreamEvent>, c: Client) {
    var st := RunState(Fresh(model), events);
    && Coupled(st, c)
    && KindTracked(OpenKind(events), st, c)
    && st.finished == HasStop(events)
    && ReadsAlike(st, c, Read(events))
  }

  lemma KindStep(st: Renderer, c: Client, open: Option<bool>, e: StreamEvent)
    requires Coupled(st, c) && KindTracked(open, st, c)
    ensures KindTracked(KindAfter(open, e), After(st, e), Next(st, c, e))
  {
    StopAllKeeps(c.blocks, st.openTools);
  }

  lemma ReadStep(st: Renderer, c: Client, a: Answer, e: StreamEvent)
    requires Coupled(st, c) && ReadsAlike(st, c, a)
    ensures ReadsAlike(After(st, e), Next(st, c, e), Observe(a, e))
    ensures After(st, e).finished == (st.finished || e.Stop?)
  {
  }

  lemma {:induction false} StayInStep(strict: bool, model: Text, events: seq<StreamEvent>)
    requires NoContentAfterStop(events) && (strict ==> KindsAgree(events))
    ensures Watch(strict, model, events).Some? && InStep(model, events, Watch(strict, model, events).value)
    ensures events != [] ==>
              var init := events[..|events| - 1];
              && Watch(strict, model, init).Some?
              && Watch(strict, model, events).value ==
                 Next(RunState(Fresh(model), init), Watch(strict, model, init).value, events[|events| - 1])
    decreases |events|
  {
    if events != [] {
      var init, e := events[..|events| - 1], events[|events| - 1];
      NoContentStep(events);
      StayInStep(strict, model, init);
      var st, c := RunState(Fresh(model), init), Watch(strict, model, init).value;
      FeedConcat(strict, UNSTARTED, RunFrames(Fresh(model), init), Frames(st, e));
      StepAccepted(strict, st, c, e);
      KindStep(st, c, OpenKind(init), e);
      ReadStep(st, c, Read(init), e);
    }
  }

  /** The frames of a run obey the block protocol exactly when nothing but bookkeeping follows the
      first stop; and, for a client that checks the kinds of deltas, when text and reasoning do
      not follow one another directly. */
  lemma {:induction false} ProtocolHoldsExactlyWhen(strict: bool, model: Text, events: seq<StreamEvent>)
    ensures Watch(strict, model, events).Some? <==>
            NoContentAfterStop(events) && (strict ==> KindsAgree(events))
    decreases |events|
  {
    if events != [] {
      var init, e := events[..|events| - 1], events[|events| - 1];
      NoContentStep(events);
      ProtocolHoldsExactlyWhen(strict, model, init);
      var st := RunState(Fresh(model), init);
      FeedConcat(strict, UNSTARTED, RunFrames(Fresh(model), init), Frames(st, e));
      if NoContentAfterStop(events) && (strict ==> KindsAgree(events)) {
        StayInStep(strict, model, events);
      } else if Watch(strict, model, init).Some? {
        StayInStep(strict, model, init);
        StepRefused(strict, st, Watch(strict, model, init).value, e);
      }
    }
  }

  /** Text after a stop opens a block that the client refuses. */
  lemma TextAfterStopIsRefused(model: Text, reason: StopReason, usage: Usage, t: Text)
    ensures Watch(false, model, [Stop(reason, usage), TextDelta(t)]).None?
  {
    var events := [Stop(reason, usage), TextDelta(t)];
    assert events[0].Stop? && IsContent(events[1]);
    ProtocolHoldsExactlyWhen(false, model, events);
  }

  /** Reasoning after text is written into the text block: the client that checks kinds refuses
      the second delta, the one that does not reads both. */
  lemma ReasoningAfterTextIsMisfiled(model: Text, t: Text, r: Text)
    ensures Watch(true, model, [TextDelta(t), ThinkingDelta(r)]).None?
    ensures Watch(false, model, [TextDelta(t), ThinkingDelta(r)]).Some?
  {
    var events := [TextDelta(t), ThinkingDelta(r)];
    assert events[..1] == [TextDelta(t)] && [TextDelta(t)][..0] == [];
    assert OpenKind([TextDelta(t)]) == Some(false);
    ProtocolHoldsExactlyWhen(true, model, events);
    ProtocolHoldsExactlyWhen(false, model, events);
  }

  /** Once finished, always finished. */
  lemma {:induction false} FinishedExactlyWhenStopped(model: Text, events: seq<StreamEvent>)
    ensures RunState(Fresh(model), events).finished == HasStop(events)
  {
    if events != [] {
      FinishedExactlyWhenStopped(model, events[..|events| - 1]);
      NoContentStep(events);
    }
  }

  /** Once a run has stopped, a further stop renders nothing and changes nothing. */
  lemma SecondStopIsSilent(model: Text, events: seq<StreamEvent>, e: StreamEvent)
    requires HasStop(events) && e.Stop?
    ensures Frames(RunState(Fresh(model), events), e) == []
    ensures RunState(Fresh(model), events + [e]) == RunState(Fresh(model), events)
  {
    FinishedExactlyWhenStopped(model, events);
    assert (events + [e])[..|events|] == events;
  }

  // ── the terminal frame ──────────────────────────────────────────────────────

  /** The frames that close a message with a stop reason and a bill. */
  function Terminals(frames: seq<Frame>): seq<Frame> {
    if frames == [] then []
    else (if frames[0].MessageDelta? then [frames[0]] else []) + Terminals(frames[1..])
  }

  lemma {:induction false} TerminalsConcat(x: seq<Frame>, y: seq<Frame>)
    ensures Terminals(x + y) == Terminals(x) + Terminals(y)
  {
    if x == [] {
      assert x + y == y;
    } else {
      TerminalsConcat(x[1..], y);
      assert (x + y)[0] == x[0] && (x + y)[1..] == x[1..] + y;
      Associates(if x[0].MessageDelta? then [x[0]] else [], Terminals(x[1..]), Terminals(y));
    }
  }

  lemma {:induction false} NoTerminals(frames: seq<Frame>)
    requires forall k :: 0 <= k < |frames| ==> !frames[k].MessageDelta?
    ensures Terminals(frames) == []
  {
    if frames != [] {
      NoTerminals(frames[1..]);
    }
  }

  lemma {:induction false} StopsOnlyStop(open: seq<OpenTool>)
    ensures forall k :: 0 <= k < |Stops(open)| ==> Stops(open)[k].BlockStop?
  {
    if open != [] {
      StopsOnlyStop(open[1..]);
    }
  }

  lemma StepTerminals(st: Renderer, e: StreamEvent)
    ensures Terminals(Frames(st, e)) ==
            if e.Stop? && !st.finished then [MessageDelta(e.reason, st.usage.Merge(e.usage))] else []
  {
    StopsOnlyStop(st.openTools);
    if e.Stop? && !st.finished {
      var merged := st.(usage := st.usage.Merge(e.usage));
      var closing, end := StartFrames(merged) + TextStops(st) + Stops(st.openTools), MessageDelta(e.reason, merged.usage);
      NoTerminals(closing);
      TerminalsConcat(closing, [end, MessageStop]);
      assert [end, MessageStop][1..] == [MessageStop] && [MessageStop][1..] == [];
    } else {
      NoTerminals(Frames(st, e));
    }
  }

  lemma UsageUntilStop(st: Renderer, a: Answer, e: StreamEvent)
    requires st.finished == a.ending.Some? && (!st.finished ==> st.usage == a.usage)
    ensures After(st, e).finished == Observe(a, e).ending.Some?
    ensures !After(st, e).finished ==> After(st, e).usage == Observe(a, e).usage
  {
  }

  lemma {:induction false} UsageAtStop(model: Text, events: seq<StreamEvent>)
    ensures var st, a := RunState(Fresh(model), events), Read(events);
            st.finished == a.ending.Some? && (!st.finished ==> st.usage == a.usage)
  {
    if events != [] {
      var init := events[..|events| - 1];
      UsageAtStop(model, init);
      UsageUntilStop(RunState(Fresh(model), init), Read(init), events[|events| - 1]);
    }
  }

  function TerminalFor(ending: Option<Ending>): seq<Frame> {
    if ending.Some? then [MessageDelta(ending.value.reason, ending.value.usage)] else []
  }

  lemma TerminalStep(st: Renderer, a: Answer, e: StreamEvent)
    requires st.finished == a.ending.Some? && (!st.finished ==> st.usage == a.usage)
    ensures TerminalFor(Observe(a, e).ending) == TerminalFor(a.ending) + Terminals(Frames(st, e))
  {
    StepTerminals(st, e);
  }

  /** For every run whatever, the one terminal frame is the run's ending: the reason of its first
      stop, with the bill as of that stop. */
  lemma {:induction false} TerminalFrameIsTheEnding(model: Text, events: seq<StreamEvent>)
    ensures Terminals(RunFrames(Fresh(model), events)) == TerminalFor(Read(events).ending)
  {
    if events != [] {
      var init, e := events[..|events| - 1], events[|events| - 1];
      TerminalFrameIsTheEnding(model, init);
      UsageAtStop(model, init);
      TerminalStep(RunState(Fresh(model), init), Read(init), e);
      TerminalsConcat(RunFrames(Fresh(model), init), Frames(RunState(Fresh(model), init), e));
    }
  }

  // ── the opening frame ───────────────────────────────────────────────────────

  function Openings(frames: seq<Frame>): seq<Frame> {
    if frames == [] then []
    else (if frames[0].MessageStart? then [frames[0]] else []) + Openings(frames[1..])
  }

  lemma {:induction false} OpeningsConcat(x: seq<Frame>, y: seq<Frame>)
    ensures Openings(x + y) == Openings(x) + Openings(y)
  {
    if x == [] {
      assert x + y == y;
    } else {
      OpeningsConcat(x[1..], y);
      assert (x + y)[0] == x[0] && (x + y)[1..] == x[1..] + y;
      Associates(if x[0].MessageStart? then [x[0]] else [], Openings(x[1..]), Openings(y));
    }
  }

  lemma {:induction false} NoOpenings(frames: seq<Frame>)
    requires forall k :: 0 <= k < |frames| ==> !frames[k].MessageStart?
    ensures Openings(frames) == []
  {
    if frames != [] {
      NoOpenings(frames[1..]);
    }
  }

  /** Events that make the message begin. */
  predicate Begins(e: StreamEvent) { e.Start? || IsContent(e) || e.Stop? }

  /** The frames of one event: an opening, if it makes one, then none. */
  lemma FirstThenRest(st: Renderer, e: StreamEvent)
    requires !st.started && !st.finished && Begins(e)
    ensures var frames := Frames(st, e);
            && frames != [] && frames[0] == MessageStart(After(st, e).model, After(st, e).usage)
            && forall k :: 1 <= k < |frames| ==> !frames[k].MessageStart?
  {
    StopsOnlyStop(st.openTools);
  }

  lemma NoneOpen(st: Renderer, e: StreamEvent)
    requires st.started || !Begins(e)
    ensures forall k :: 0 <= k < |Frames(st, e)| ==> !Frames(st, e)[k].MessageStart?
  {
    StopsOnlyStop(st.openTools);
  }

  lemma StepOpenings(st: Renderer, e: StreamEvent)
    requires st.finished ==> st.started
    ensures Openings(Frames(st, e)) ==
            if st.started || !Begins(e) then [] else [MessageStart(After(st, e).model, After(st, e).usage)]
  {
    if st.started || !Begins(e) {
      NoneOpen(st, e);
      NoOpenings(Frames(st, e));
    } else {
      FirstThenRest(st, e);
      NoOpenings(Frames(st, e)[1..]);
    }
  }

  lemma {:induction false} StartedExactlyWhen(model: Text, events: seq<StreamEvent>)
    ensures var st := RunState(Fresh(model), events);
            && (st.started <==> exists k :: 0 <= k < |events| && Begins(events[k]))
            && (st.finished ==> st.started)
            && (!st.started ==> st.model == model && st.usage == Read(events).usage && !st.finished)
  {
    if events != [] {
      var init, e := events[..|events| - 1], events[|events| - 1];
      StartedExactlyWhen(model, init);
      BeginsMore(events);
      StartedStep(RunState(Fresh(model), init), Read(init), e);
    }
  }

  lemma BeginsMore(events: seq<StreamEvent>)
    requires events != []
    ensures var init := events[..|events| - 1];
            (exists k :: 0 <= k < |events| && Begins(events[k])) <==>
            (exists k :: 0 <= k < |init| && Begins(init[k])) || Begins(events[|events| - 1])
  {
    var init := events[..|events| - 1];
    if k :| 0 <= k < |init| && Begins(init[k]) {
      assert Begins(events[k]);
    }
    if k :| 0 <= k < |events| && Begins(events[k]) {
      assert k < |init| ==> Begins(init[k]);
    }
  }

  lemma StartedStep(st: Renderer, a: Answer, e: StreamEvent)
    requires st.finished ==> st.started
    ensures After(st, e).started == (st.started || Begins(e)) && (After(st, e).finished ==> After(st, e).started)
    ensures !After(st, e).started ==> After(st, e).model == st.model && After(st, e).finished == st.finished
    ensures !After(st, e).started && st.usage == a.usage ==> After(st, e).usage == Observe(a, e).usage
  {
    match e
    case Start(_, _) =>
    case Stop(_, _) =>
    case UsageUpdate(_) =>
    case _ =>
  }

  lemma {:induction false} OpeningsAfter(model: Text, events: seq<StreamEvent>, more: seq<StreamEvent>)
    requires RunState(Fresh(model), events).started
    ensures Openings(RunFrames(Fresh(model), events + more)) == Openings(RunFrames(Fresh(model), events))
    ensures RunState(Fresh(model), events + more).started
    decreases |more|
  {
    if more == [] {
      assert events + more == events;
    } else {
      var init := events + more[..|more| - 1];
      assert (events + more)[..|events + more| - 1] == init;
      OpeningsAfter(model, events, more[..|more| - 1]);
      StartedExactlyWhen(model, init);
      var st, e := RunState(Fresh(model), init), more[|more| - 1];
      StepOpenings(st, e);
      StartedStep(st, Read(init), e);
      OpeningsConcat(RunFrames(Fresh(model), init), Frames(st, e));
    }
  }

  lemma {:induction false} NothingOpened(model: Text, events: seq<StreamEvent>)
    requires forall k :: 0 <= k < |events| ==> !Begins(events[k])
    ensures Openings(RunFrames(Fresh(model), events)) == []
  {
    if events != [] {
      var init, e := events[..|events| - 1], events[|events| - 1];
      NothingOpened(model, init);
      StartedExactlyWhen(model, init);
      StepOpenings(RunState(Fresh(model), init), e);
      OpeningsConcat(RunFrames(Fresh(model), init), Frames(RunState(Fresh(model), init), e));
    }
  }

  /** For every run that says anything: one `message_start`, with the model its first such event announced,
      or else the one asked for, and the merge of the usage reported up to that event. */
  lemma OpeningFrameIs(model: Text, before: seq<StreamEvent>, e: StreamEvent, after: seq<StreamEvent>)
    requires Begins(e) && forall k :: 0 <= k < |before| ==> !Begins(before[k])
    ensures Openings(RunFrames(Fresh(model), before + [e] + after)) ==
            [MessageStart(if e.Start? && e.model != [] then e.model else model, MergeAll(ReportsOf(before + [e])))]
  {
    var st, events := RunState(Fresh(model), before), before + [e];
    assert events[..|events| - 1] == before;
    NothingOpened(model, before);
    StartedExactlyWhen(model, before);
    StepOpenings(st, e);
    StartedStep(st, Read(before), e);
    OpeningsConcat(RunFrames(Fresh(model), before), Frames(st, e));
    OpeningUsage(st, Read(before), e);
    BillOfRun(events);
    OpeningsAfter(model, events, after);
  }

  lemma OpeningUsage(st: Renderer, a: Answer, e: StreamEvent)
    requires !st.started && !st.finished && st.usage == a.usage && Begins(e)
    ensures After(st, e).usage == Observe(a, e).usage
    ensures After(st, e).model == if e.Start? && e.model != [] then e.model else st.model
  {
    match e
    case Start(_, _) =>
    case Stop(_, _) =>
    case _ =>
  }

  // ── the calls a client reassembles ──────────────────────────────────────────

  function CallOf(b: Block): Call
    requires b.kind.ToolKind?
  {
    Call(b.kind.id, b.kind.name, b.body)
  }

  /** The tool blocks, in order, as calls. */
  function ToolsOf(blocks: seq<Block>): seq<Call> {
    if blocks == [] then []
    else
      var last := blocks[|blocks| - 1];
      ToolsOf(blocks[..|blocks| - 1]) + if last.kind.ToolKind? then [CallOf(last)] else []
  }

  /** How many tool blocks come before block `i`. */
  function Rank(blocks: seq<Block>, i: nat): nat
    requires i <= |blocks|
  {
    |ToolsOf(blocks[..i])|
  }

  lemma ToolsOfAppend(blocks: seq<Block>, b: Block)
    ensures ToolsOf(blocks + [b]) == ToolsOf(blocks) + if b.kind.ToolKind? then [CallOf(b)] else []
  {
    assert (blocks + [b])[..|blocks|] == blocks;
  }

  ghost predicate SameKinds(x: seq<Block>, y: seq<Block>) {
    |x| <= |y| && forall i :: 0 <= i < |x| ==> x[i].kind == y[i].kind
  }

  lemma {:induction false} SameRank(x: seq<Block>, y: seq<Block>, i: nat)
    requires SameKinds(x, y) && i <= |x|
    ensures Rank(x, i) == Rank(y, i)
  {
    if i > 0 {
      SameRank(x, y, i - 1);
      assert x[..i][..i - 1] == x[..i - 1] && y[..i][..i - 1] == y[..i - 1];
    }
  }

  /** Changes to whether blocks are stopped, or to text bodies, do not show in the calls. */
  lemma {:induction false} SameTools(x: seq<Block>, y: seq<Block>)
    requires |x| == |y| && SameKinds(x, y)
    requires forall i :: 0 <= i < |x| && x[i].kind.ToolKind? ==> x[i].body == y[i].body
    ensures ToolsOf(x) == ToolsOf(y)
  {
    if x != [] {
      SameTools(x[..|x| - 1], y[..|y| - 1]);
    }
  }

  lemma {:induction false} ToolAtRank(blocks: seq<Block>, i: nat)
    requires i < |blocks| && blocks[i].kind.ToolKind?
    ensures Rank(blocks, i) < |ToolsOf(blocks)|
    ensures ToolsOf(blocks)[Rank(blocks, i)] == CallOf(blocks[i])
  {
    var init := blocks[..|blocks| - 1];
    if i < |init| {
      ToolAtRank(init, i);
      assert blocks[..i] == init[..i];
    } else {
      assert blocks[..i] == init;
    }
  }

  lemma {:induction false} BlockAtRank(blocks: seq<Block>, r: nat) returns (i: nat)
    requires r < |ToolsOf(blocks)|
    ensures i < |blocks| && blocks[i].kind.ToolKind? && Rank(blocks, i) == r
  {
    var init := blocks[..|blocks| - 1];
    if r < |ToolsOf(init)| {
      i := BlockAtRank(init, r);
      assert blocks[..i] == init[..i];
    } else {
      i := |init|;
    }
  }

  lemma {:induction false} ToolsAfterAppend(blocks: seq<Block>, i: nat, text: Text)
    requires i < |blocks| && blocks[i].kind.ToolKind?
    ensures var r := Rank(blocks, i);
            && r < |ToolsOf(blocks)|
            && ToolsOf(AppendBody(blocks, i, text)) ==
               ToolsOf(blocks)[r := ToolsOf(blocks)[r].(args := ToolsOf(blocks)[r].args + text)]
  {
    ToolAtRank(blocks, i);
    var init, more := blocks[..|blocks| - 1], AppendBody(blocks, i, text);
    if i < |init| {
      ToolsAfterAppend(init, i, text);
      assert more[..|more| - 1] == AppendBody(init, i, text);
      assert blocks[..i] == init[..i];
      ToolAtRank(init, i);
    } else {
      assert more[..|more| - 1] == init && blocks[..i] == init;
    }
  }

  // ── which calls the renderer holds open ─────────────────────────────────────

  ghost predicate OpenTracked(open: seq<Text>, openCalls: set<Text>, callIds: seq<Text>) {
    && Distinct(open)
    && (forall id :: id in open <==> id in openCalls)
    && (forall id :: id in open ==> id in callIds)
  }

  lemma {:induction false} TracksOpenCalls(model: Text, events: seq<StreamEvent>)
    requires WellNamed(events) && NoContentAfterStop(events)
    ensures OpenTracked(OpenIds(RunState(Fresh(model), events).openTools), OpenCalls(events), Ids(Read(events).calls))
    decreases |events|
  {
    if events != [] {
      var init, e := events[..|events| - 1], events[|events| - 1];
      NoContentStep(events);
      TracksOpenCalls(model, init);
      StayInStep(false, model, init);
      OpenStep(RunState(Fresh(model), init), OpenCalls(init), Read(init), e);
    }
  }

  lemma OpenStep(st: Renderer, open: set<Text>, a: Answer, e: StreamEvent)
    requires OpenTracked(OpenIds(st.openTools), open, Ids(a.calls)) && (st.finished ==> st.openTools == [])
    requires e.ToolUseStart? ==> e.id !in Ids(a.calls)
    ensures OpenTracked(OpenIds(After(st, e).openTools), OpenAfter(open, e), Ids(Observe(a, e).calls))
  {
    match e {
      case ToolUseStart(id, name) => TrackedStart(st, open, a.calls, id, name);
      case ToolUseDelta(id, fragment) => AddFragmentKeepsIds(a.calls, id, fragment);
      case ToolUseEnd(id) => RemovingId(st.openTools, id);
      case _ =>
    }
  }

  lemma TrackedStart(st: Renderer, open: set<Text>, calls: seq<Call>, id: Text, name: Text)
    requires OpenTracked(OpenIds(st.openTools), open, Ids(calls)) && id !in Ids(calls)
    ensures OpenTracked(OpenIds(st.openTools + [OpenTool(id, st.nextIndex)]), open + {id}, Ids(calls + [Call(id, name, [])]))
  {
    assert Ids(calls + [Call(id, name, [])]) == Ids(calls) + [id];
    assert OpenIds(st.openTools + [OpenTool(id, st.nextIndex)]) == OpenIds(st.openTools) + [id];
  }

  lemma RemovingId(open: seq<OpenTool>, id: Text)
    requires Distinct(OpenIds(open))
    ensures Distinct(OpenIds(Without(open, id)))
    ensures forall x :: x in OpenIds(Without(open, id)) <==> x in OpenIds(open) && x != id
  {
    var at := Position(OpenIds(open), id);
    if at < |open| {
      RemovingAt(OpenIds(open), OpenIds(RemoveAt(open, at)), at);
    }
  }

  // ── recovery ────────────────────────────────────────────────────────────────

  /** Some call's block was stopped short of what its call was sent. */
  ghost predicate CutShort(blocks: seq<Block>, calls: seq<Call>) {
    exists i :: 0 <= i < |blocks| && CutShortAt(blocks, calls, i)
  }

  ghost predicate CutShortAt(blocks: seq<Block>, calls: seq<Call>, i: nat)
    requires i < |blocks|
  {
    && blocks[i].kind.ToolKind? && blocks[i].stopped
    && Rank(blocks, i) < |calls| && |blocks[i].body| < |calls[Rank(blocks, i)].args|
  }

  lemma CutShortDiffers(blocks: seq<Block>, calls: seq<Call>)
    requires CutShort(blocks, calls)
    ensures ToolsOf(blocks) != calls
  {
    var i :| 0 <= i < |blocks| && CutShortAt(blocks, calls, i);
    ToolAtRank(blocks, i);
  }

  /** `after` keeps the kind of every block of `before`, and every stopped block whole. */
  ghost predicate Frozen(before: seq<Block>, after: seq<Block>) {
    && SameKinds(before, after)
    && forall i :: 0 <= i < |before| && before[i].stopped ==> after[i] == before[i]
  }

  /** No event touches a block that was stopped, or the kind of any block. */
  lemma StoppedBlocksStay(st: Renderer, c: Client, e: StreamEvent)
    requires Coupled(st, c)
    ensures Frozen(c.blocks, Next(st, c, e).blocks)
  {
    match e {
      case TextDelta(text) => TextLeavesStopped(st, c, text, false);
      case ThinkingDelta(text) => TextLeavesStopped(st, c, text, true);
      case ToolUseDelta(id, fragment) => FragmentLeavesStopped(st, c, id, fragment);
      case ToolUseStart(_, _) =>
      case ToolUseEnd(_) =>
      case Stop(_, _) => StopLeavesStopped(st, c);
      case _ =>
    }
  }

  lemma FragmentLeavesStopped(st: Renderer, c: Client, id: Text, fragment: Text)
    requires Coupled(st, c)
    ensures Frozen(c.blocks, Next(st, c, ToolUseDelta(id, fragment)).blocks)
  {
    if ToolBlock(st.openTools, id).Some? {
      OpenBlockIsUnstopped(st, c, id);
    }
  }

  lemma StopLeavesStopped(st: Renderer, c: Client)
    ensures Frozen(c.blocks, StopAll(StopText(st, c.blocks), st.openTools))
  {
    StopAllKeeps(StopText(st, c.blocks), st.openTools);
  }

  lemma TextLeavesStopped(st: Renderer, c: Client, text: Text, thinking: bool)
    requires Coupled(st, c)
    ensures Frozen(c.blocks, TextNext(st, c, text, thinking).blocks)
  {
    StopAllKeeps(c.blocks, st.openTools);
    if st.openText.Some? {
      assert IsOpen(st, st.openText.value);
    }
  }

  lemma OpenBlockIsUnstopped(st: Renderer, c: Client, id: Text)
    requires Coupled(st, c) && ToolBlock(st.openTools, id).Some?
    ensures var i := ToolBlock(st.openTools, id).value;
            i < |c.blocks| && !c.blocks[i].stopped && c.blocks[i].kind.ToolKind?
    ensures id in OpenIds(st.openTools) ==> c.blocks[ToolBlock(st.openTools, id).value].kind.id == id
  {
    var i := ToolBlock(st.openTools, id).value;
    var k :| 0 <= k < |st.openTools| && st.openTools[k].index == i;
    assert IsOpen(st, i);
  }

  lemma CallsGrow(a: Answer, e: StreamEvent)
    ensures |a.calls| <= |Observe(a, e).calls|
    ensures forall r :: 0 <= r < |a.calls| ==> |a.calls[r].args| <= |Observe(a, e).calls[r].args|
  {
  }

  lemma CutShortStays(st: Renderer, c: Client, a: Answer, e: StreamEvent)
    requires Coupled(st, c) && CutShort(c.blocks, a.calls)
    ensures CutShort(Next(st, c, e).blocks, Observe(a, e).calls)
  {
    var i :| 0 <= i < |c.blocks| && CutShortAt(c.blocks, a.calls, i);
    StoppedBlocksStay(st, c, e);
    CallsGrow(a, e);
    SameRank(c.blocks, Next(st, c, e).blocks, i);
    assert CutShortAt(Next(st, c, e).blocks, Observe(a, e).calls, i);
  }

  /** A fragment that reaches its own open block keeps client and run alike. */
  lemma FragmentArrives(st: Renderer, c: Client, calls: seq<Call>, id: Text, fragment: Text)
    requires Coupled(st, c) && ToolsOf(c.blocks) == calls && Distinct(Ids(calls))
    requires id in OpenIds(st.openTools)
    ensures ToolsOf(Next(st, c, ToolUseDelta(id, fragment)).blocks) == AddFragment(calls, id, fragment)
  {
    OpenBlockIsUnstopped(st, c, id);
    var i := ToolBlock(st.openTools, id).value;
    FragmentBlocks(st, c, id, fragment);
    GrowingCall(c.blocks, i, fragment);
  }

  lemma FragmentBlocks(st: Renderer, c: Client, id: Text, fragment: Text)
    requires ToolBlock(st.openTools, id).Some?
    ensures Next(st, c, ToolUseDelta(id, fragment)).blocks == AppendBody(c.blocks, ToolBlock(st.openTools, id).value, fragment)
  {
  }

  /** A fragment whose own block is closed goes to the call of the most recently opened block that is
      still open. */
  lemma FragmentFallsBack(st: Renderer, c: Client, id: Text, fragment: Text)
    requires Coupled(st, c) && Distinct(Ids(ToolsOf(c.blocks)))
    requires id !in OpenIds(st.openTools) && st.openTools != []
    ensures var heir := st.openTools[|st.openTools| - 1].id;
            ToolsOf(Next(st, c, ToolUseDelta(id, fragment)).blocks) == AddFragment(ToolsOf(c.blocks), heir, fragment)
  {
    var heir := st.openTools[|st.openTools| - 1];
    FragmentBlocks(st, c, id, fragment);
    OpenBlockIsUnstopped(st, c, id);
    assert ToolBlock(st.openTools, id) == Some(heir.index) && c.blocks[heir.index].kind.id == heir.id;
    GrowingCall(c.blocks, heir.index, fragment);
  }

  /** Under distinct ids, adding to a tool block is adding a fragment to the call it holds. */
  lemma GrowingCall(blocks: seq<Block>, i: nat, fragment: Text)
    requires i < |blocks| && blocks[i].kind.ToolKind? && Distinct(Ids(ToolsOf(blocks)))
    ensures ToolsOf(AppendBody(blocks, i, fragment)) == AddFragment(ToolsOf(blocks), blocks[i].kind.id, fragment)
  {
    ToolAtRank(blocks, i);
    PositionUnique(Ids(ToolsOf(blocks)), Rank(blocks, i));
    ToolsAfterAppend(blocks, i, fragment);
  }

  /** An empty fragment changes nothing, wherever it goes. */
  lemma EmptyFragment(st: Renderer, c: Client, calls: seq<Call>, id: Text)
    requires Coupled(st, c) && ToolsOf(c.blocks) == calls
    ensures ToolsOf(Next(st, c, ToolUseDelta(id, [])).blocks) == calls == AddFragment(calls, id, [])
  {
    AppendNothing(c.blocks);
    var at := Position(Ids(calls), id);
    if at < |calls| {
      assert calls[at].args + [] == calls[at].args;
    }
  }

  lemma AppendNothing(blocks: seq<Block>)
    ensures forall i :: AppendBody(blocks, i, []) == blocks
  {
    forall i: nat | i < |blocks| ensures AppendBody(blocks, i, []) == blocks {
      assert blocks[i].body + [] == blocks[i].body;
    }
  }

  /** A fragment for a call whose block is already stopped is lost to that call for good. */
  lemma FragmentIsLost(st: Renderer, c: Client, calls: seq<Call>, id: Text, fragment: Text)
    requires Coupled(st, c) && ToolsOf(c.blocks) == calls
    requires id in Ids(calls) && id !in OpenIds(st.openTools) && fragment != []
    ensures CutShort(Next(st, c, ToolUseDelta(id, fragment)).blocks, AddFragment(calls, id, fragment))
  {
    var e := ToolUseDelta(id, fragment);
    var r := Position(Ids(calls), id);
    var i := BlockAtRank(c.blocks, r);
    ToolAtRank(c.blocks, i);
    assert forall k :: 0 <= k < |st.openTools| ==> OpenIds(st.openTools)[k] != id;
    assert !IsOpen(st, i);
    StoppedBlocksStay(st, c, e);
    SameRank(c.blocks, Next(st, c, e).blocks, i);
    assert CutShortAt(Next(st, c, e).blocks, AddFragment(calls, id, fragment), i);
  }

  /** Events other than fragments carry the calls over as they are. */
  lemma OtherEvents(st: Renderer, c: Client, a: Answer, e: StreamEvent)
    requires Coupled(st, c) && !e.ToolUseDelta? && ToolsOf(c.blocks) == a.calls
    ensures ToolsOf(Next(st, c, e).blocks) == Observe(a, e).calls
  {
    match e {
      case ToolUseStart(id, name) => StartAddsTool(st, c, id, name);
      case TextDelta(text) => TextKeepsTools(st, c, text, false);
      case ThinkingDelta(text) => TextKeepsTools(st, c, text, true);
      case ToolUseEnd(id) => EndKeepsTools(st, c, id);
      case Stop(reason, usage) => StoppingKeepsTools(st, c, reason, usage);
      case Start(_, _) =>
      case UsageUpdate(_) =>
      case Error(_) =>
    }
  }

  lemma StoppingKeepsTools(st: Renderer, c: Client, reason: StopReason, usage: Usage)
    ensures ToolsOf(Next(st, c, Stop(reason, usage)).blocks) == ToolsOf(c.blocks)
  {
    StopKeepsTools(st, c);
  }

  lemma StartAddsTool(st: Renderer, c: Client, id: Text, name: Text)
    ensures ToolsOf(Next(st, c, ToolUseStart(id, name)).blocks) == ToolsOf(c.blocks) + [Call(id, name, [])]
  {
    SameTools(c.blocks, StopText(st, c.blocks));
    ToolsOfAppend(StopText(st, c.blocks), Block(ToolKind(id, name), [], false));
  }

  lemma EndKeepsTools(st: Renderer, c: Client, id: Text)
    ensures ToolsOf(Next(st, c, ToolUseEnd(id)).blocks) == ToolsOf(c.blocks)
  {
    SameTools(c.blocks, Next(st, c, ToolUseEnd(id)).blocks);
  }

  lemma StopKeepsTools(st: Renderer, c: Client)
    ensures ToolsOf(StopAll(StopText(st, c.blocks), st.openTools)) == ToolsOf(c.blocks)
  {
    StopAllKeeps(StopText(st, c.blocks), st.openTools);
    SameTools(c.blocks, StopAll(StopText(st, c.blocks), st.openTools));
  }

  lemma TextKeepsTools(st: Renderer, c: Client, text: Text, thinking: bool)
    requires Coupled(st, c)
    ensures ToolsOf(TextNext(st, c, text, thinking).blocks) == ToolsOf(c.blocks)
  {
    var blocks := StopAll(c.blocks, st.openTools);
    StopAllKeeps(c.blocks, st.openTools);
    if st.openText.Some? {
      SameTools(c.blocks, TextNext(st, c, text, thinking).blocks);
    } else {
      SameTools(c.blocks, blocks);
      ToolsOfAppend(blocks, Block(BodyKind(thinking), text, false));
    }
  }

  lemma {:induction false} RecoveryInvariant(model: Text, events: seq<StreamEvent>)
    requires NoContentAfterStop(events) && WellNamed(events)
    ensures Watch(false, model, events).Some?
    ensures var blocks := Watch(false, model, events).value.blocks;
            if Timely(events) then ToolsOf(blocks) == Read(events).calls else CutShort(blocks, Read(events).calls)
    decreases |events|
  {
    StayInStep(false, model, events);
    if events != [] {
      var init, e := events[..|events| - 1], events[|events| - 1];
      NoContentStep(events);
      RecoveryInvariant(model, init);
      StayInStep(false, model, init);
      var st, c, a := RunState(Fresh(model), init), Watch(false, model, init).value, Read(init);
      if !Timely(init) {
        CutShortStays(st, c, a, e);
      } else if !e.ToolUseDelta? {
        OtherEvents(st, c, a, e);
      } else {
        TracksOpenCalls(model, init);
        WellNamedIds(init);
        if e.partialJson == [] {
          EmptyFragment(st, c, a.calls, e.id);
        } else if e.id in OpenCalls(init) {
          FragmentArrives(st, c, a.calls, e.id, e.partialJson);
        } else {
          FragmentIsLost(st, c, a.calls, e.id, e.partialJson);
        }
      }
    }
  }

  /** A client of any run with distinct call ids reads the run's own text, reasoning and ending,
      with every block stopped once the message ended; and it recovers every call's id, name and
      exact arguments exactly when each fragment came while its call was still open. */
  lemma ClientRecoversExactlyWhen(model: Text, events: seq<StreamEvent>)
    requires NoContentAfterStop(events) && WellNamed(events)
    ensures Watch(false, model, events).Some?
    ensures var c, a := Watch(false, model, events).value, Read(events);
            && c.text == a.text && c.thinking == a.thinking && c.ending == a.ending
            && (c.ending.Some? ==> AllStopped(c.blocks))
            && (ToolsOf(c.blocks) == a.calls <==> Timely(events))
  {
    StayInStep(false, model, events);
    RecoveryInvariant(model, events);
    var st, c := RunState(Fresh(model), events), Watch(false, model, events).value;
    if !Timely(events) {
      CutShortDiffers(c.blocks, Read(events).calls);
    }
    if c.ending.Some? {
      assert forall i :: !IsOpen(st, i);
    }
  }
}
