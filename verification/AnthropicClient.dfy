/** A client of the Anthropic stream, which reassembles blocks by index and refuses any frame the
    block protocol does not allow, run against the renderer. */
module AnthropicClient {
  import opened Bytes
  import opened TokenUsage
  import opened Hub
  import opened AnthropicStream

  datatype Block = Block(kind: BlockKind, body: Text, stopped: bool)

  datatype Client = Client(
    started: bool,
    blocks: seq<Block>,
    text: Text,
    thinking: Text,
    ending: Option<Ending>,
    done: bool)

  const UNSTARTED: Client := Client(false, [], [], [], None, false)

  predicate AllStopped(blocks: seq<Block>) {
    forall i :: 0 <= i < |blocks| ==> blocks[i].stopped
  }

  predicate NoTextOpen(blocks: seq<Block>) {
    forall i :: 0 <= i < |blocks| && !blocks[i].stopped ==> blocks[i].kind.ToolKind?
  }

  function BodyKind(thinking: bool): BlockKind { if thinking then ThinkingKind else TextKind }

  function StopAt(blocks: seq<Block>, i: nat): (r: seq<Block>)
    ensures |r| == |blocks|
  {
    if i < |blocks| then blocks[i := blocks[i].(stopped := true)] else blocks
  }

  function AppendBody(blocks: seq<Block>, i: nat, text: Text): (r: seq<Block>)
    ensures |r| == |blocks|
  {
    if i < |blocks| then blocks[i := blocks[i].(body := blocks[i].body + text)] else blocks
  }

  /** The block protocol: `None` is a frame the client cannot place. A `strict` client also wants
      the kind of every text or reasoning delta to be the kind its block was opened with. */
  function Accept(strict: bool, c: Client, f: Frame): Option<Client> {
    match f
    case MessageStart(_, _) =>
      if !c.started then Some(c.(started := true)) else None
    case BlockStart(i, kind) =>
      if && c.started && c.ending.None? && i == |c.blocks|
         && (if kind.ToolKind? then NoTextOpen(c.blocks) else AllStopped(c.blocks))
      then Some(c.(blocks := c.blocks + [Block(kind, [], false)])) else None
    case BodyDelta(i, thinking, text) =>
      if && i < |c.blocks| && !c.blocks[i].stopped && !c.blocks[i].kind.ToolKind?
         && (strict ==> c.blocks[i].kind == BodyKind(thinking))
      then Some(c.(blocks := AppendBody(c.blocks, i, text),
                   text := if thinking then c.text else c.text + text,
                   thinking := if thinking then c.thinking + text else c.thinking))
      else None
    case InputDelta(i, partialJson) =>
      if i < |c.blocks| && !c.blocks[i].stopped && c.blocks[i].kind.ToolKind?
      then Some(c.(blocks := AppendBody(c.blocks, i, partialJson))) else None
    case BlockStop(i) =>
      if i < |c.blocks| && !c.blocks[i].stopped then Some(c.(blocks := StopAt(c.blocks, i))) else None
    case MessageDelta(reason, usage) =>
      if c.started && c.ending.None? && AllStopped(c.blocks)
      then Some(c.(ending := Some(Ending(reason, usage)))) else None
    case MessageStop =>
      if c.ending.Some? && !c.done then Some(c.(done := true)) else None
    case ErrorFrame(_) => Some(c)
  }

  function Feed(strict: bool, c: Client, frames: seq<Frame>): Option<Client>
    decreases |frames|
  {
    if frames == [] then Some(c)
    else match Accept(strict, c, frames[0])
      case None => None
      case Some(next) => Feed(strict, next, frames[1..])
  }

  /** What a client makes of everything rendered for a run. */
  function Watch(strict: bool, model: Text, events: seq<StreamEvent>): Option<Client> {
    Feed(strict, UNSTARTED, RunFrames(Fresh(model), events))
  }

  lemma {:induction false} FeedConcat(strict: bool, c: Client, x: seq<Frame>, y: seq<Frame>)
    ensures Feed(strict, c, x + y) ==
            match Feed(strict, c, x) case None => None case Some(next) => Feed(strict, next, y)
    decreases |x|
  {
    if x == [] {
      assert x + y == y;
    } else {
      assert (x + y)[0] == x[0] && (x + y)[1..] == x[1..] + y;
      if Accept(strict, c, x[0]).Some? {
        FeedConcat(strict, Accept(strict, c, x[0]).value, x[1..], y);
      }
    }
  }

  lemma FeedOne(strict: bool, c: Client, f: Frame)
    ensures Feed(strict, c, [f]) == Accept(strict, c, f)
  {
    assert [f][1..] == [];
  }

  // ── how renderer and client stay in step ────────────────────────────────────

  ghost predicate InOpen(open: seq<OpenTool>, i: nat) {
    exists k :: 0 <= k < |open| && open[k].index == i
  }

  ghost predicate IsOpen(st: Renderer, i: nat) {
    st.openText == Some(i) || InOpen(st.openTools, i)
  }

  /** A block is stopped exactly when the renderer does not hold it open. */
  ghost predicate StoppedUnlessOpen(st: Renderer, blocks: seq<Block>) {
    forall i :: 0 <= i < |blocks| ==> (blocks[i].stopped <==> !IsOpen(st, i))
  }

  ghost predicate ToolsPlaced(open: seq<OpenTool>, blocks: seq<Block>) {
    && (forall k :: 0 <= k < |open| ==>
          && open[k].index < |blocks|
          && blocks[open[k].index].kind.ToolKind?
          && blocks[open[k].index].kind.id == open[k].id)
    && (forall j, k :: 0 <= j < k < |open| ==> open[j].index < open[k].index)
  }

  ghost predicate Coupled(st: Renderer, c: Client) {
    && c.started == st.started
    && |c.blocks| == st.nextIndex
    && (c.blocks != [] || st.finished ==> c.started)
    && c.ending.Some? == st.finished && c.done == st.finished
    && (st.openText.Some? ==>
          st.openTools == [] && st.openText.value < |c.blocks| && !c.blocks[st.openText.value].kind.ToolKind?)
    && ToolsPlaced(st.openTools, c.blocks)
    && StoppedUnlessOpen(st, c.blocks)
    && (st.finished ==> st.openText.None? && st.openTools == [])
  }

  lemma Starting(strict: bool, st: Renderer, c: Client)
    requires Coupled(st, c)
    ensures Feed(strict, c, StartFrames(st)) == Some(c.(started := true))
    ensures Coupled(st.(started := true), c.(started := true))
  {
    FeedOne(strict, c, MessageStart(st.model, st.usage));
    assert forall i :: IsOpen(st.(started := true), i) == IsOpen(st, i);
  }

  function StopText(st: Renderer, blocks: seq<Block>): seq<Block> {
    if st.openText.Some? then StopAt(blocks, st.openText.value) else blocks
  }

  lemma ClosingText(strict: bool, st: Renderer, c: Client)
    requires Coupled(st, c)
    ensures Feed(strict, c, TextStops(st)) == Some(c.(blocks := StopText(st, c.blocks)))
    ensures Coupled(st.(openText := None), c.(blocks := StopText(st, c.blocks)))
  {
    if st.openText.Some? {
      FeedOne(strict, c, BlockStop(st.openText.value));
      var st' := st.(openText := None);
      assert forall i :: IsOpen(st', i) <==> IsOpen(st, i) && i != st.openText.value;
    } else {
      assert st.(openText := None) == st;
    }
  }

  lemma OpenAfterRemoval(open: seq<OpenTool>, at: nat, i: nat)
    requires at < |open|
    requires forall j, k :: 0 <= j < k < |open| ==> open[j].index < open[k].index
    ensures InOpen(RemoveAt(open, at), i) <==> InOpen(open, i) && i != open[at].index
  {
    var rest := RemoveAt(open, at);
    if InOpen(open, i) && i != open[at].index {
      var k :| 0 <= k < |open| && open[k].index == i;
      assert rest[if k < at then k else k - 1].index == i;
    }
    if InOpen(rest, i) {
      var k :| 0 <= k < |rest| && rest[k].index == i;
      assert open[if k < at then k else k + 1].index == i;
    }
  }

  lemma OpenAfterAppend(open: seq<OpenTool>, t: OpenTool, i: nat)
    ensures InOpen(open + [t], i) <==> InOpen(open, i) || i == t.index
  {
    var more := open + [t];
    if InOpen(open, i) {
      var k :| 0 <= k < |open| && open[k].index == i;
      assert more[k].index == i;
    }
    assert more[|open|].index == t.index;
  }

  /** Closing one tool block, wherever it stands in the list. */
  lemma ClosingOne(strict: bool, st: Renderer, c: Client, at: nat)
    requires Coupled(st, c) && at < |st.openTools|
    ensures Accept(strict, c, BlockStop(st.openTools[at].index)) ==
            Some(c.(blocks := StopAt(c.blocks, st.openTools[at].index)))
    ensures Coupled(st.(openTools := RemoveAt(st.openTools, at)),
                    c.(blocks := StopAt(c.blocks, st.openTools[at].index)))
  {
    var open, index := st.openTools, st.openTools[at].index;
    assert InOpen(open, index) && IsOpen(st, index);
    var rest, blocks := RemoveAt(open, at), StopAt(c.blocks, index);
    var st' := st.(openTools := rest);
    assert ToolsPlaced(rest, blocks);
    forall i | 0 <= i < |blocks| ensures blocks[i].stopped <==> !IsOpen(st', i) {
      OpenAfterRemoval(open, at, i);
      assert c.blocks[i].stopped <==> !IsOpen(st, i);
    }
  }

  function StopAll(blocks: seq<Block>, open: seq<OpenTool>): (r: seq<Block>)
    ensures |r| == |blocks|
    decreases |open|
  {
    if open == [] then blocks else StopAll(StopAt(blocks, open[0].index), open[1..])
  }

  lemma {:induction false} ClosingTools(strict: bool, st: Renderer, c: Client)
    requires Coupled(st, c)
    ensures Feed(strict, c, Stops(st.openTools)) == Some(c.(blocks := StopAll(c.blocks, st.openTools)))
    ensures Coupled(st.(openTools := []), c.(blocks := StopAll(c.blocks, st.openTools)))
    decreases |st.openTools|
  {
    if st.openTools == [] {
      assert st.(openTools := []) == st;
    } else {
      ClosingOne(strict, st, c, 0);
      var rest := RemoveAt(st.openTools, 0);
      assert rest == st.openTools[1..];
      ClosingTools(strict, st.(openTools := rest), c.(blocks := StopAt(c.blocks, st.openTools[0].index)));
    }
  }

  // ── one event ───────────────────────────────────────────────────────────────

  function TextNext(st: Renderer, c: Client, text: Text, thinking: bool): Client {
    var blocks := StopAll(c.blocks, st.openTools);
    c.(started := true,
       blocks := if st.openText.Some? then AppendBody(blocks, st.openText.value, text)
                 else blocks + [Block(BodyKind(thinking), text, false)],
       text := if thinking then c.text else c.text + text,
       thinking := if thinking then c.thinking + text else c.thinking)
  }

  /** Where a client in step with the renderer stands after one event. */
  function Next(st: Renderer, c: Client, e: StreamEvent): Client {
    match e
    case Start(_, _) => c.(started := true)
    case TextDelta(text) => TextNext(st, c, text, false)
    case ThinkingDelta(text) => TextNext(st, c, text, true)
    case ToolUseStart(id, name) =>
      c.(started := true, blocks := StopText(st, c.blocks) + [Block(ToolKind(id, name), [], false)])
    case ToolUseDelta(id, fragment) =>
      if ToolBlock(st.openTools, id).Some?
      then c.(blocks := AppendBody(c.blocks, ToolBlock(st.openTools, id).value, fragment)) else c
    case ToolUseEnd(id) =>
      var at := Position(OpenIds(st.openTools), id);
      if at < |st.openTools| then c.(blocks := StopAt(c.blocks, st.openTools[at].index)) else c
    case Stop(reason, usage) =>
      if st.finished then c
      else c.(started := true, blocks := StopAll(StopText(st, c.blocks), st.openTools),
              ending := Some(Ending(reason, st.usage.Merge(usage))), done := true)
    case _ => c
  }

  /** A text or reasoning delta goes into a block of its own kind. */
  predicate KindFits(st: Renderer, c: Client, e: StreamEvent) {
    (e.TextDelta? || e.ThinkingDelta?) && st.openText.Some? && st.openText.value < |c.blocks| ==>
      c.blocks[st.openText.value].kind == BodyKind(e.ThinkingDelta?)
  }

  /** Adding to a block's body leaves renderer and client in step. */
  lemma GrowingBody(st: Renderer, c: Client, i: nat, text: Text)
    requires Coupled(st, c)
    ensures Coupled(st, c.(blocks := AppendBody(c.blocks, i, text)))
  {
    var blocks := AppendBody(c.blocks, i, text);
    assert forall j :: 0 <= j < |blocks| ==> blocks[j].stopped == c.blocks[j].stopped && blocks[j].kind == c.blocks[j].kind;
    assert ToolsPlaced(st.openTools, blocks);
    assert StoppedUnlessOpen(st, blocks);
  }

  lemma DeltaIntoOpenText(strict: bool, st: Renderer, c: Client, text: Text, thinking: bool)
    requires Coupled(st, c) && st.openText.Some?
    requires strict ==> c.blocks[st.openText.value].kind == BodyKind(thinking)
    ensures var c' := c.(blocks := AppendBody(c.blocks, st.openText.value, text),
                         text := if thinking then c.text else c.text + text,
                         thinking := if thinking then c.thinking + text else c.thinking);
            && Feed(strict, c, [BodyDelta(st.openText.value, thinking, text)]) == Some(c')
            && Coupled(st, c')
  {
    var i := st.openText.value;
    FeedOne(strict, c, BodyDelta(i, thinking, text));
    assert IsOpen(st, i);
    GrowingBody(st, c, i, text);
  }

  lemma OpeningText(strict: bool, st: Renderer, c: Client, kind: BlockKind)
    requires Coupled(st, c) && st.started && !st.finished && st.openText.None? && st.openTools == []
    requires !kind.ToolKind?
    ensures var c' := c.(blocks := c.blocks + [Block(kind, [], false)]);
            && Feed(strict, c, [BlockStart(st.nextIndex, kind)]) == Some(c')
            && Coupled(st.(openText := Some(st.nextIndex), nextIndex := st.nextIndex + 1), c')
  {
    FeedOne(strict, c, BlockStart(st.nextIndex, kind));
    assert AllStopped(c.blocks) by { assert forall i :: !IsOpen(st, i); }
    var st' := st.(openText := Some(st.nextIndex), nextIndex := st.nextIndex + 1);
    assert forall i :: IsOpen(st', i) <==> i == st.nextIndex;
  }

  lemma TextAccepted(strict: bool, st: Renderer, c: Client, text: Text, thinking: bool)
    requires Coupled(st, c) && !st.finished
    requires strict && st.openText.Some? ==> c.blocks[st.openText.value].kind == BodyKind(thinking)
    ensures Feed(strict, c, TextFrames(st, text, thinking)) == Some(TextNext(st, c, text, thinking))
    ensures Coupled(AfterText(st), TextNext(st, c, text, thinking))
  {
    Starting(strict, st, c);
    var st1, c1 := st.(started := true), c.(started := true);
    ClosingTools(strict, st1, c1);
    var st2, c2 := st1.(openTools := []), c1.(blocks := StopAll(c1.blocks, st1.openTools));
    var closing := StartFrames(st) + Stops(st.openTools);
    FeedConcat(strict, c, StartFrames(st), Stops(st.openTools));
    StopAllKeeps(c.blocks, st.openTools);
    var delta := BodyDelta(if st.openText.Some? then st.openText.value else st.nextIndex, thinking, text);
    if st.openText.Some? {
      FeedConcat(strict, c, closing, [delta]);
      DeltaIntoOpenText(strict, st2, c2, text, thinking);
    } else {
      FeedConcat(strict, c, closing, [BlockStart(st.nextIndex, BodyKind(thinking)), delta]);
      OpeningWithText(strict, st2, c2, text, thinking);
    }
  }

  lemma OpeningWithText(strict: bool, st: Renderer, c: Client, text: Text, thinking: bool)
    requires Coupled(st, c) && st.started && !st.finished && st.openText.None? && st.openTools == []
    ensures var c' := TextNext(st, c, text, thinking);
            && Feed(strict, c, [BlockStart(st.nextIndex, BodyKind(thinking)), BodyDelta(st.nextIndex, thinking, text)])
               == Some(c')
            && Coupled(AfterText(st), c')
  {
    var start, delta := BlockStart(st.nextIndex, BodyKind(thinking)), BodyDelta(st.nextIndex, thinking, text);
    assert [start, delta] == [start] + [delta];
    FeedConcat(strict, c, [start], [delta]);
    OpeningText(strict, st, c, BodyKind(thinking));
    var begun := c.(blocks := c.blocks + [Block(BodyKind(thinking), [], false)]);
    DeltaIntoOpenText(strict, AfterText(st), begun, text, thinking);
    AppendToLast(c.blocks, BodyKind(thinking), text);
  }

  lemma AppendToLast(blocks: seq<Block>, kind: BlockKind, text: Text)
    ensures AppendBody(blocks + [Block(kind, [], false)], |blocks|, text) == blocks + [Block(kind, text, false)]
  {
    assert [] + text == text;
  }

  /** Stopping blocks changes nothing but whether they are stopped. */
  lemma {:induction false} StopAllKeeps(blocks: seq<Block>, open: seq<OpenTool>)
    ensures forall i :: 0 <= i < |blocks| ==>
                          && StopAll(blocks, open)[i].kind == blocks[i].kind
                          && StopAll(blocks, open)[i].body == blocks[i].body
                          && (blocks[i].stopped ==> StopAll(blocks, open)[i].stopped)
    decreases |open|
  {
    if open != [] {
      StopAllKeeps(StopAt(blocks, open[0].index), open[1..]);
    }
  }

  lemma ToolStartAccepted(strict: bool, st: Renderer, c: Client, id: Text, name: Text)
    requires Coupled(st, c) && !st.finished
    ensures var e := ToolUseStart(id, name);
            Feed(strict, c, Frames(st, e)) == Some(Next(st, c, e)) && Coupled(After(st, e), Next(st, c, e))
  {
    var e := ToolUseStart(id, name);
    Starting(strict, st, c);
    var st1, c1 := st.(started := true), c.(started := true);
    ClosingText(strict, st1, c1);
    var st2, c2 := st1.(openText := None), c1.(blocks := StopText(st1, c1.blocks));
    FeedConcat(strict, c, StartFrames(st), TextStops(st));
    FeedConcat(strict, c, StartFrames(st) + TextStops(st), [BlockStart(st.nextIndex, ToolKind(id, name))]);
    OpeningTool(strict, st2, c2, id, name);
  }

  lemma OpeningTool(strict: bool, st: Renderer, c: Client, id: Text, name: Text)
    requires Coupled(st, c) && st.started && !st.finished && st.openText.None?
    ensures var c' := c.(blocks := c.blocks + [Block(ToolKind(id, name), [], false)]);
            && Feed(strict, c, [BlockStart(st.nextIndex, ToolKind(id, name))]) == Some(c')
            && Coupled(st.(openTools := st.openTools + [OpenTool(id, st.nextIndex)], nextIndex := st.nextIndex + 1), c')
  {
    FeedOne(strict, c, BlockStart(st.nextIndex, ToolKind(id, name)));
    assert NoTextOpen(c.blocks) by {
      forall i | 0 <= i < |c.blocks| && !c.blocks[i].stopped ensures c.blocks[i].kind.ToolKind? {
        assert IsOpen(st, i);
      }
    }
    var tool := OpenTool(id, st.nextIndex);
    var st' := st.(openTools := st.openTools + [tool], nextIndex := st.nextIndex + 1);
    var blocks := c.blocks + [Block(ToolKind(id, name), [], false)];
    assert ToolsPlaced(st'.openTools, blocks);
    forall i | 0 <= i < |blocks| ensures blocks[i].stopped <==> !IsOpen(st', i) {
      OpenAfterAppend(st.openTools, tool, i);
      if i < |c.blocks| {
        assert c.blocks[i].stopped <==> !IsOpen(st, i);
      }
    }
  }

  lemma ToolEndAccepted(strict: bool, st: Renderer, c: Client, id: Text)
    requires Coupled(st, c)
    ensures var e := ToolUseEnd(id);
            Feed(strict, c, Frames(st, e)) == Some(Next(st, c, e)) && Coupled(After(st, e), Next(st, c, e))
  {
    var at := Position(OpenIds(st.openTools), id);
    if at < |st.openTools| {
      ClosingOne(strict, st, c, at);
      FeedOne(strict, c, BlockStop(st.openTools[at].index));
    }
  }

  lemma ToolDeltaAccepted(strict: bool, st: Renderer, c: Client, id: Text, fragment: Text)
    requires Coupled(st, c)
    ensures var e := ToolUseDelta(id, fragment);
            Feed(strict, c, Frames(st, e)) == Some(Next(st, c, e)) && Coupled(After(st, e), Next(st, c, e))
  {
    var at := ToolBlock(st.openTools, id);
    if at.Some? {
      var k :| 0 <= k < |st.openTools| && st.openTools[k].index == at.value;
      assert IsOpen(st, at.value);
      FeedOne(strict, c, InputDelta(at.value, fragment));
      GrowingBody(st, c, at.value, fragment);
    }
  }

  lemma StopAccepted(strict: bool, st: Renderer, c: Client, reason: StopReason, usage: Usage)
    requires Coupled(st, c)
    ensures var e := Stop(reason, usage);
            Feed(strict, c, Frames(st, e)) == Some(Next(st, c, e)) && Coupled(After(st, e), Next(st, c, e))
  {
    if !st.finished {
      var st0 := st.(usage := st.usage.Merge(usage));
      assert Coupled(st0, c) by { assert forall i :: IsOpen(st0, i) == IsOpen(st, i); }
      Starting(strict, st0, c);
      var st1, c1 := st0.(started := true), c.(started := true);
      ClosingText(strict, st1, c1);
      var st2, c2 := st1.(openText := None), c1.(blocks := StopText(st1, c1.blocks));
      ClosingTools(strict, st2, c2);
      var st3, c3 := st2.(openTools := []), c2.(blocks := StopAll(c2.blocks, st2.openTools));
      FeedConcat(strict, c, StartFrames(st0), TextStops(st));
      FeedConcat(strict, c, StartFrames(st0) + TextStops(st), Stops(st.openTools));
      FeedConcat(strict, c, StartFrames(st0) + TextStops(st) + Stops(st.openTools),
                 [MessageDelta(reason, st0.usage), MessageStop]);
      Finishing(strict, st3, c3, reason);
    }
  }

  lemma Finishing(strict: bool, st: Renderer, c: Client, reason: StopReason)
    requires Coupled(st, c) && st.started && !st.finished && st.openText.None? && st.openTools == []
    ensures var c' := c.(ending := Some(Ending(reason, st.usage)), done := true);
            && Feed(strict, c, [MessageDelta(reason, st.usage), MessageStop]) == Some(c')
            && Coupled(st.(finished := true), c')
  {
    var delta := MessageDelta(reason, st.usage);
    assert [delta, MessageStop] == [delta] + [MessageStop];
    FeedConcat(strict, c, [delta], [MessageStop]);
    FeedOne(strict, c, delta);
    assert forall i :: !IsOpen(st, i);
    FeedOne(strict, c.(ending := Some(Ending(reason, st.usage))), MessageStop);
  }

  lemma StepAccepted(strict: bool, st: Renderer, c: Client, e: StreamEvent)
    requires Coupled(st, c)
    requires !(st.finished && IsContent(e))
    requires strict ==> KindFits(st, c, e)
    ensures Feed(strict, c, Frames(st, e)) == Some(Next(st, c, e))
    ensures Coupled(After(st, e), Next(st, c, e))
  {
    match e {
      case TextDelta(text) => TextAccepted(strict, st, c, text, false);
      case ThinkingDelta(text) => TextAccepted(strict, st, c, text, true);
      case ToolUseStart(id, name) => ToolStartAccepted(strict, st, c, id, name);
      case ToolUseDelta(id, fragment) => ToolDeltaAccepted(strict, st, c, id, fragment);
      case ToolUseEnd(id) => ToolEndAccepted(strict, st, c, id);
      case Stop(reason, usage) => StopAccepted(strict, st, c, reason, usage);
      case Start(_, _) => StartAccepted(strict, st, c, e);
      case UsageUpdate(_) => assert forall i :: IsOpen(After(st, e), i) == IsOpen(st, i);
      case Error(message) => FeedOne(strict, c, ErrorFrame(message));
    }
  }

  lemma StartAccepted(strict: bool, st: Renderer, c: Client, e: StreamEvent)
    requires Coupled(st, c) && e.Start?
    ensures Feed(strict, c, Frames(st, e)) == Some(Next(st, c, e)) && Coupled(After(st, e), Next(st, c, e))
  {
    var st0 := After(st, e).(started := st.started);
    assert Coupled(st0, c) by { assert forall i :: IsOpen(st0, i) == IsOpen(st, i); }
    Starting(strict, st0, c);
  }

  /** An event the conditions rule out is an event the client refuses. */
  lemma StepRefused(strict: bool, st: Renderer, c: Client, e: StreamEvent)
    requires Coupled(st, c)
    requires (st.finished && IsContent(e)) || (strict && !KindFits(st, c, e))
    ensures Feed(strict, c, Frames(st, e)).None?
  {
    if st.finished {
      var kind := if e.ToolUseStart? then ToolKind(e.id, e.name) else BodyKind(e.ThinkingDelta?);
      var start := BlockStart(st.nextIndex, kind);
      assert Frames(st, e)[0] == start;
      assert Accept(strict, c, start).None?;
    } else {
      var text := if e.TextDelta? then e.text else e.text;
      var delta := BodyDelta(st.openText.value, e.ThinkingDelta?, text);
      assert Frames(st, e) == [delta];
      FeedOne(strict, c, delta);
    }
  }
}
