/** The hub for whole answers: canonical events collected into an Anthropic body, and a body read
    back into events (`render_from_events` and `parse_response` in
    `crates/oag-proto/src/anthropic.rs`). */
module AnthropicBody {
  import opened Bytes
  import opened TokenUsage
  import opened JsonTree
  import opened Hub

  datatype BodyBlock =
    | TextBlock(text: Text)
    | ThinkingBlock(text: Text)
    | ToolBlock(id: Text, name: Text, input: Json)
    | OtherBlock

  datatype Body = Body(content: seq<BodyBlock>, stopReason: Option<string>, usage: Usage)

  function StopReasonStr(r: StopReason): string {
    match r
    case MaxTokens => "max_tokens"
    case StopSequence => "stop_sequence"
    case ToolUse => "tool_use"
    case Refusal => "refusal"
    case EndTurn => "end_turn"
  }

  function ParseStopReason(raw: string): StopReason {
    if raw == "max_tokens" then MaxTokens
    else if raw == "stop_sequence" then StopSequence
    else if raw == "tool_use" then ToolUse
    else if raw == "refusal" then Refusal
    else EndTurn
  }

  lemma StopWordsRoundTrip(r: StopReason)
    ensures ParseStopReason(StopReasonStr(r)) == r
  {
  }

  /** The words themselves, and what any other is read as. */
  lemma StopWordsAre(raw: string)
    ensures ParseStopReason(raw) == MaxTokens <==> raw == "max_tokens"
    ensures ParseStopReason(raw) == StopSequence <==> raw == "stop_sequence"
    ensures ParseStopReason(raw) == ToolUse <==> raw == "tool_use"
    ensures ParseStopReason(raw) == Refusal <==> raw == "refusal"
    ensures StopReasonStr(EndTurn) == "end_turn"
    ensures ParseStopReason(raw) != EndTurn ==> StopReasonStr(ParseStopReason(raw)) == raw
  {
  }

  // ── a body read into events ─────────────────────────────────────────────────

  function BlockEvents(codec: Codec, b: BodyBlock): seq<StreamEvent> {
    match b
    case TextBlock(text) => [TextDelta(text)]
    case ThinkingBlock(text) => [ThinkingDelta(text)]
    case ToolBlock(id, name, input) => [ToolUseStart(id, name), ToolUseDelta(id, codec.print_(input)), ToolUseEnd(id)]
    case OtherBlock => []
  }

  function BlocksEvents(codec: Codec, blocks: seq<BodyBlock>): seq<StreamEvent> {
    if blocks == [] then [] else BlockEvents(codec, blocks[0]) + BlocksEvents(codec, blocks[1..])
  }

  function StopEvents(body: Body): seq<StreamEvent> {
    if body.stopReason.Some? then [Stop(ParseStopReason(body.stopReason.value), body.usage)] else []
  }

  function Parsed(codec: Codec, body: Body): seq<StreamEvent> {
    [UsageUpdate(body.usage)] + BlocksEvents(codec, body.content) + StopEvents(body)
  }

  method ParseResponse(codec: Codec, body: Body) returns (events: seq<StreamEvent>)
    ensures events == Parsed(codec, body)
  {
    events := [UsageUpdate(body.usage)];
    var content := body.content;
    assert content[0..] == content;
    for i := 0 to |content|
      invariant events + BlocksEvents(codec, content[i..]) == [UsageUpdate(body.usage)] + BlocksEvents(codec, content)
    {
      assert content[i..][1..] == content[i + 1..];
      ghost var rest := BlocksEvents(codec, content[i + 1..]);
      assert events + (BlockEvents(codec, content[i]) + rest) == (events + BlockEvents(codec, content[i])) + rest;
      events := events + BlockEvents(codec, content[i]);
    }
    if body.stopReason.Some? {
      events := events + [Stop(ParseStopReason(body.stopReason.value), body.usage)];
    }
  }

  // ── events collected into a body ────────────────────────────────────────────

  /** A content block under assembly. */
  datatype OpenBlock = OpenText(text: Text) | OpenThinking(text: Text) | OpenTool(id: Text, name: Text, input: Text)

  function IntoJson(codec: Codec, open: OpenBlock): BodyBlock {
    match open
    case OpenText(text) => TextBlock(text)
    case OpenThinking(text) => ThinkingBlock(text)
    case OpenTool(id, name, input) => ToolBlock(id, name, codec.ReadArguments(input))
  }

  datatype Collector = Collector(content: seq<BodyBlock>, open: Option<OpenBlock>, usage: Usage, stop: Option<StopReason>)

  const EMPTY: Collector := Collector([], None, NO_USAGE, None)

  /** The finished blocks with the open one, if any, closed behind them. */
  function Closed(codec: Codec, content: seq<BodyBlock>, open: Option<OpenBlock>): seq<BodyBlock> {
    if open.Some? then content + [IntoJson(codec, open.value)] else content
  }

  function Opening(codec: Codec, c: Collector, open: OpenBlock): Collector {
    c.(content := Closed(codec, c.content, c.open), open := Some(open))
  }

  function Step(codec: Codec, c: Collector, e: StreamEvent): Collector {
    match e
    case Start(_, usage) => c.(usage := c.usage.Merge(usage))
    case UsageUpdate(usage) => c.(usage := c.usage.Merge(usage))
    case TextDelta(text) =>
      if c.open.Some? && c.open.value.OpenText? then c.(open := Some(OpenText(c.open.value.text + text)))
      else Opening(codec, c, OpenText(text))
    case ThinkingDelta(text) =>
      if c.open.Some? && c.open.value.OpenThinking? then c.(open := Some(OpenThinking(c.open.value.text + text)))
      else Opening(codec, c, OpenThinking(text))
    case ToolUseStart(id, name) => Opening(codec, c, OpenTool(id, name, []))
    case ToolUseDelta(id, fragment) =>
      if c.open.Some? && c.open.value.OpenTool? && c.open.value.id == id
      then c.(open := Some(c.open.value.(input := c.open.value.input + fragment)))
      else Opening(codec, c, OpenTool(id, id, fragment))
    case ToolUseEnd(_) => c.(content := Closed(codec, c.content, c.open), open := None)
    case Stop(reason, usage) => c.(usage := c.usage.Merge(usage), stop := Some(reason))
    case Error(_) => c
  }

  function Collect(codec: Codec, c: Collector, events: seq<StreamEvent>): Collector
    decreases |events|
  {
    if events == [] then c else Collect(codec, Step(codec, c, events[0]), events[1..])
  }

  predicate HasTool(content: seq<BodyBlock>) {
    exists i :: 0 <= i < |content| && content[i].ToolBlock?
  }

  /** An answer that carries a tool call ended for it. */
  function Normalised(stop: Option<StopReason>, tool: bool): Option<StopReason> {
    if stop == Some(EndTurn) && tool then Some(ToolUse) else stop
  }

  function Finished(codec: Codec, c: Collector): Body {
    var content := Closed(codec, c.content, c.open);
    var stop := Normalised(c.stop, HasTool(content));
    Body(content, if stop.Some? then Some(StopReasonStr(stop.value)) else None, c.usage)
  }

  function Rendered(codec: Codec, events: seq<StreamEvent>): Body {
    Finished(codec, Collect(codec, EMPTY, events))
  }

  /** `content` with whatever was under assembly finished behind it. */
  method CloseBlock(codec: Codec, open: Option<OpenBlock>, content: seq<BodyBlock>) returns (closed: seq<BodyBlock>)
    ensures closed == Closed(codec, content, open)
  {
    closed := content;
    if open.Some? {
      closed := closed + [IntoJson(codec, open.value)];
    }
  }

  method CollectEvent(codec: Codec, c: Collector, e: StreamEvent) returns (r: Collector)
    ensures r == Step(codec, c, e)
  {
    var content, open, usage, stop := c.content, c.open, c.usage, c.stop;
    match e {
      case Start(_, u) => usage := usage.Merge(u);
      case UsageUpdate(u) => usage := usage.Merge(u);
      case TextDelta(text) =>
        if open.Some? && open.value.OpenText? {
          open := Some(OpenText(open.value.text + text));
        } else {
          content := CloseBlock(codec, open, content);
          open := Some(OpenText(text));
        }
      case ThinkingDelta(text) =>
        if open.Some? && open.value.OpenThinking? {
          open := Some(OpenThinking(open.value.text + text));
        } else {
          content := CloseBlock(codec, open, content);
          open := Some(OpenThinking(text));
        }
      case ToolUseStart(id, name) =>
        content := CloseBlock(codec, open, content);
        open := Some(OpenTool(id, name, []));
      case ToolUseDelta(id, fragment) =>
        if open.Some? && open.value.OpenTool? && open.value.id == id {
          open := Some(OpenTool(id, open.value.name, open.value.input + fragment));
        } else {
          content := CloseBlock(codec, open, content);
          open := Some(OpenTool(id, id, fragment));
        }
      case ToolUseEnd(_) =>
        content := CloseBlock(codec, open, content);
        open := None;
      case Stop(reason, u) =>
        usage := usage.Merge(u);
        stop := Some(reason);
      case Error(_) =>
    }
    r := Collector(content, open, usage, stop);
  }

  method RenderFromEvents(codec: Codec, events: seq<StreamEvent>) returns (body: Body)
    ensures body == Rendered(codec, events)
  {
    var c := EMPTY;
    assert events[0..] == events;
    for i := 0 to |events|
      invariant Collect(codec, c, events[i..]) == Collect(codec, EMPTY, events)
    {
      assert events[i..][1..] == events[i + 1..];
      c := CollectEvent(codec, c, events[i]);
    }
    var content := CloseBlock(codec, c.open, c.content);
    var stop := c.stop;
    if stop == Some(EndTurn) && HasTool(content) {
      stop := Some(ToolUse);
    }
    body := Body(content, if stop.Some? then Some(StopReasonStr(stop.value)) else None, c.usage);
  }

  // ── a body through events and back ──────────────────────────────────────────

  /** Whether `b` would be run together with an open block of `a`'s kind. */
  predicate RunsOn(a: BodyBlock, b: BodyBlock) {
    (a.TextBlock? && b.TextBlock?) || (a.ThinkingBlock? && b.ThinkingBlock?)
  }

  /** No unknown block, no two text blocks and no two reasoning blocks in a row. */
  predicate NormalContent(content: seq<BodyBlock>) {
    content == [] ||
    (&& !content[0].OtherBlock?
     && (|content| > 1 ==> !RunsOn(content[0], content[1]))
     && NormalContent(content[1..]))
  }

  predicate Follows(codec: Codec, open: Option<OpenBlock>, content: seq<BodyBlock>) {
    open.Some? && content != [] ==> !RunsOn(IntoJson(codec, open.value), content[0])
  }

  /** A known stop word, and not a plain end beside a tool call. */
  predicate NormalStop(body: Body) {
    body.stopReason.Some? ==>
      && body.stopReason.value == StopReasonStr(ParseStopReason(body.stopReason.value))
      && !(ParseStopReason(body.stopReason.value) == EndTurn && HasTool(body.content))
  }

  predicate Normal(body: Body) { NormalContent(body.content) && NormalStop(body) }

  lemma {:induction false} CollectConcat(codec: Codec, c: Collector, x: seq<StreamEvent>, y: seq<StreamEvent>)
    ensures Collect(codec, c, x + y) == Collect(codec, Collect(codec, c, x), y)
    decreases |x|
  {
    if x == [] {
      assert x + y == y;
    } else {
      assert (x + y)[0] == x[0] && (x + y)[1..] == x[1..] + y;
      CollectConcat(codec, Step(codec, c, x[0]), x[1..], y);
    }
  }

  lemma CollectOne(codec: Codec, c: Collector, e: StreamEvent)
    ensures Collect(codec, c, [e]) == Step(codec, c, e)
  {
    assert [e][1..] == [];
  }

  /** A whole call collects into one block with its own input, and leaves nothing open. */
  lemma CollectTool(codec: Codec, c: Collector, b: BodyBlock)
    requires b.ToolBlock? && codec.Lawful()
    ensures Collect(codec, c, BlockEvents(codec, b)) ==
            c.(content := Closed(codec, c.content, c.open) + [b], open := None)
  {
    var e1, e2, e3 := ToolUseStart(b.id, b.name), ToolUseDelta(b.id, codec.print_(b.input)), ToolUseEnd(b.id);
    assert BlockEvents(codec, b) == [e1] + [e2] + [e3];
    CollectConcat(codec, c, [e1] + [e2], [e3]);
    CollectConcat(codec, c, [e1], [e2]);
    CollectOne(codec, c, e1);
    var c1 := Step(codec, c, e1);
    CollectOne(codec, c1, e2);
    assert [] + codec.print_(b.input) == codec.print_(b.input);
    CollectOne(codec, Step(codec, c1, e2), e3);
    assert codec.parse(codec.print_(b.input)) == Some(b.input);
  }

  /** A call with all its arguments in one fragment collects with the value they parse to, or with an
      empty object when they do not parse. */
  lemma ArgumentsCollect(codec: Codec, id: Text, name: Text, args: Text)
    ensures var body := Rendered(codec, [ToolUseStart(id, name), ToolUseDelta(id, args), ToolUseEnd(id)]);
            body.content == [ToolBlock(id, name, if codec.parse(args).Some? then codec.parse(args).value else Object(map[]))]
  {
    var events := [ToolUseStart(id, name), ToolUseDelta(id, args), ToolUseEnd(id)];
    assert events[1..] == [ToolUseDelta(id, args), ToolUseEnd(id)] && events[1..][1..] == [ToolUseEnd(id)];
    var c1 := EMPTY.(open := Some(OpenTool(id, name, [])));
    var c2 := EMPTY.(open := Some(OpenTool(id, name, args)));
    assert [] + args == args;
    assert Step(codec, EMPTY, events[0]) == c1 && Step(codec, c1, events[1]) == c2;
    CollectOne(codec, c2, ToolUseEnd(id));
    assert Closed(codec, [], c2.open) == [IntoJson(codec, c2.open.value)];
    assert Collect(codec, EMPTY, events) == EMPTY.(content := Closed(codec, [], c2.open));
  }

  /** One block of a body: how many blocks stand once it is collected, and what they are when it
      does not run on from the open one. */
  lemma CollectBlock(codec: Codec, c: Collector, b: BodyBlock)
    requires codec.Lawful()
    ensures var r := Collect(codec, c, BlockEvents(codec, b));
            var before, after := Closed(codec, c.content, c.open), Closed(codec, r.content, r.open);
            && r.usage == c.usage && r.stop == c.stop
            && |after| <= |before| + 1
            && (b.OtherBlock? || !Follows(codec, c.open, [b]) ==> |after| == |before|)
            && (!b.OtherBlock? && Follows(codec, c.open, [b]) ==> after == before + [b])
            && (!b.OtherBlock? ==> r.open.Some? == !b.ToolBlock?)
            && (r.open.Some? && !b.OtherBlock? ==> (forall x :: RunsOn(IntoJson(codec, r.open.value), x) <==> RunsOn(b, x)))
  {
    match b {
      case TextBlock(text) => CollectOne(codec, c, TextDelta(text));
      case ThinkingBlock(text) => CollectOne(codec, c, ThinkingDelta(text));
      case ToolBlock(_, _, _) => CollectTool(codec, c, b);
      case OtherBlock =>
    }
  }

  /** Collecting a body's blocks behind what stands already gives exactly those blocks when they are
      normal and do not run on, and strictly fewer otherwise. */
  lemma {:induction false} CollectBlocks(codec: Codec, c: Collector, content: seq<BodyBlock>)
    requires codec.Lawful()
    ensures var r := Collect(codec, c, BlocksEvents(codec, content));
            var before, after := Closed(codec, c.content, c.open), Closed(codec, r.content, r.open);
            && r.usage == c.usage && r.stop == c.stop
            && (if NormalContent(content) && Follows(codec, c.open, content) then after == before + content
                else |after| < |before| + |content|)
    decreases |content|
  {
    if content == [] {
      assert Closed(codec, c.content, c.open) + [] == Closed(codec, c.content, c.open);
    } else {
      var b, rest := content[0], content[1..];
      CollectBlock(codec, c, b);
      var c1 := Collect(codec, c, BlockEvents(codec, b));
      CollectBlocks(codec, c1, rest);
      CollectConcat(codec, c, BlockEvents(codec, b), BlocksEvents(codec, rest));
      var before := Closed(codec, c.content, c.open);
      assert before + content == (before + [b]) + rest;
      assert Follows(codec, c.open, content) <==> Follows(codec, c.open, [b]);
    }
  }

  lemma MergeTwice(u: Usage)
    ensures NO_USAGE.Merge(u) == u && u.Merge(u) == u
  {
  }

  lemma CollectParsed(codec: Codec, body: Body)
    requires codec.Lawful()
    ensures var r := Collect(codec, EMPTY, Parsed(codec, body));
            var after := Closed(codec, r.content, r.open);
            && r.usage == body.usage
            && r.stop == (if body.stopReason.Some? then Some(ParseStopReason(body.stopReason.value)) else None)
            && (if NormalContent(body.content) then after == body.content else |after| < |body.content|)
  {
    var u, blocks := [UsageUpdate(body.usage)], BlocksEvents(codec, body.content);
    MergeTwice(body.usage);
    CollectOne(codec, EMPTY, u[0]);
    var c1 := EMPTY.(usage := body.usage);
    CollectConcat(codec, EMPTY, u, blocks);
    CollectBlocks(codec, c1, body.content);
    assert [] + body.content == body.content;
    CollectConcat(codec, EMPTY, u + blocks, StopEvents(body));
    CollectStop(codec, Collect(codec, c1, blocks), body);
  }

  lemma CollectStop(codec: Codec, c: Collector, body: Body)
    requires c.usage == body.usage && c.stop.None?
    ensures Collect(codec, c, StopEvents(body)) ==
            c.(stop := if body.stopReason.Some? then Some(ParseStopReason(body.stopReason.value)) else None)
  {
    if body.stopReason.Some? {
      CollectOne(codec, c, Stop(ParseStopReason(body.stopReason.value), body.usage));
      MergeTwice(body.usage);
    }
  }

  /** Rendering what was parsed from a body gives the body back exactly when it is normal. */
  lemma BodyRoundTripsExactlyWhen(codec: Codec, body: Body)
    requires codec.Lawful()
    ensures Rendered(codec, Parsed(codec, body)) == body <==> Normal(body)
  {
    CollectParsed(codec, body);
    if body.stopReason.Some? {
      StopWordsRoundTrip(ToolUse);
    }
  }

  // ── events through a body and back ──────────────────────────────────────────

  /** Where an event run stands: the kind of its last block, and whether it is still open. */
  datatype Last = NoBlock | TextLast(open: bool) | ThinkingLast(open: bool) | ToolLast

  function LastAfter(last: Last, e: StreamEvent): Last {
    match e
    case TextDelta(_) => TextLast(true)
    case ThinkingDelta(_) => ThinkingLast(true)
    case ToolUseStart(_, _) => ToolLast
    case ToolUseDelta(_, _) => ToolLast
    case ToolUseEnd(_) => if last.TextLast? then TextLast(false) else if last.ThinkingLast? then ThinkingLast(false) else last
    case _ => last
  }

  /** The event opens a block of the kind an end has just closed. */
  predicate Splits(last: Last, e: StreamEvent) {
    (e.TextDelta? && last == TextLast(false)) || (e.ThinkingDelta? && last == ThinkingLast(false))
  }

  /** No text or reasoning is split in two by a tool end that had no tool block to close. */
  predicate Unsplit(last: Last, events: seq<StreamEvent>)
    decreases |events|
  {
    events == [] || (!Splits(last, events[0]) && Unsplit(LastAfter(last, events[0]), events[1..]))
  }

  ghost predicate Stands(codec: Codec, c: Collector, last: Last) {
    var blocks := Closed(codec, c.content, c.open);
    match last
    case NoBlock => blocks == [] && c.open.None?
    case TextLast(open) =>
      blocks != [] && blocks[|blocks| - 1].TextBlock? && (c.open.Some? <==> open) && (open ==> c.open.value.OpenText?)
    case ThinkingLast(open) =>
      blocks != [] && blocks[|blocks| - 1].ThinkingBlock? && (c.open.Some? <==> open) && (open ==> c.open.value.OpenThinking?)
    case ToolLast => blocks != [] && blocks[|blocks| - 1].ToolBlock? && (c.open.Some? ==> c.open.value.OpenTool?)
  }

  lemma {:induction false} NormalSnoc(content: seq<BodyBlock>, b: BodyBlock)
    ensures NormalContent(content + [b]) <==>
            NormalContent(content) && !b.OtherBlock? && (content != [] ==> !RunsOn(content[|content| - 1], b))
  {
    if content == [] {
      assert content + [b] == [b] && [b][1..] == [];
    } else {
      assert (content + [b])[1..] == content[1..] + [b];
      NormalSnoc(content[1..], b);
    }
  }

  /** Growing the last block changes nothing about being normal. */
  lemma NormalGrown(content: seq<BodyBlock>, a: BodyBlock, b: BodyBlock)
    requires !a.OtherBlock? && !b.OtherBlock? && (forall x :: RunsOn(x, a) <==> RunsOn(x, b))
    ensures NormalContent(content + [a]) <==> NormalContent(content + [b])
  {
    NormalSnoc(content, a);
    NormalSnoc(content, b);
  }

  lemma StandingStep(codec: Codec, c: Collector, last: Last, e: StreamEvent)
    requires Stands(codec, c, last)
    ensures var c' := Step(codec, c, e);
            && Stands(codec, c', LastAfter(last, e))
            && (NormalContent(Closed(codec, c'.content, c'.open)) <==>
                NormalContent(Closed(codec, c.content, c.open)) && !Splits(last, e))
  {
    var blocks, c' := Closed(codec, c.content, c.open), Step(codec, c, e);
    var after := Closed(codec, c'.content, c'.open);
    if after == blocks {
    } else if c.open.Some? && c'.content == c.content {
      NormalGrown(c.content, IntoJson(codec, c.open.value), IntoJson(codec, c'.open.value));
    } else {
      NormalSnoc(blocks, IntoJson(codec, c'.open.value));
    }
  }

  lemma {:induction false} StandingRun(codec: Codec, c: Collector, last: Last, events: seq<StreamEvent>)
    requires Stands(codec, c, last)
    ensures var r := Collect(codec, c, events);
            NormalContent(Closed(codec, r.content, r.open)) <==>
            NormalContent(Closed(codec, c.content, c.open)) && Unsplit(last, events)
    decreases |events|
  {
    if events != [] {
      StandingStep(codec, c, last, events[0]);
      StandingRun(codec, Step(codec, c, events[0]), LastAfter(last, events[0]), events[1..]);
    }
  }

  /** What is rendered always ends with a stop word of its own kind. */
  lemma RenderedStopIsNormal(codec: Codec, c: Collector)
    ensures NormalStop(Finished(codec, c))
  {
    var stop := Normalised(c.stop, HasTool(Closed(codec, c.content, c.open)));
    if stop.Some? {
      StopWordsRoundTrip(stop.value);
    }
  }

  /** Render, parse, render is a single render exactly when no end splits text or reasoning. */
  lemma RenderIsStableExactlyWhen(codec: Codec, events: seq<StreamEvent>)
    requires codec.Lawful()
    ensures Rendered(codec, Parsed(codec, Rendered(codec, events))) == Rendered(codec, events)
            <==> Unsplit(NoBlock, events)
  {
    StandingRun(codec, EMPTY, NoBlock, events);
    RenderedStopIsNormal(codec, Collect(codec, EMPTY, events));
    BodyRoundTripsExactlyWhen(codec, Rendered(codec, events));
  }

  /** In particular when a tool end comes only while a tool block is the last one. */
  lemma {:induction false} EndsOnToolsAreEnough(last: Last, events: seq<StreamEvent>)
    requires last != TextLast(false) && last != ThinkingLast(false)
    requires EndsOnlyTools(last, events)
    ensures Unsplit(last, events)
    decreases |events|
  {
    if events != [] {
      EndsOnToolsAreEnough(LastAfter(last, events[0]), events[1..]);
    }
  }

  predicate EndsOnlyTools(last: Last, events: seq<StreamEvent>)
    decreases |events|
  {
    events == [] ||
    (&& (events[0].ToolUseEnd? ==> last.ToolLast?)
     && EndsOnlyTools(LastAfter(last, events[0]), events[1..]))
  }

  /** A tool end with no tool open splits a text in two, and the two are run together again when the
      body is read and rendered once more. */
  lemma StrayEndSplitsText(codec: Codec, x: Text, y: Text, id: Text)
    ensures var body := Rendered(codec, [TextDelta(x), ToolUseEnd(id), TextDelta(y)]);
            && body.content == [TextBlock(x), TextBlock(y)]
            && Rendered(codec, Parsed(codec, body)).content == [TextBlock(x + y)]
  {
    var events := [TextDelta(x), ToolUseEnd(id), TextDelta(y)];
    assert events[1..] == [ToolUseEnd(id), TextDelta(y)] && events[1..][1..] == [TextDelta(y)];
    var c1 := EMPTY.(open := Some(OpenText(x)));
    var c2 := EMPTY.(content := [TextBlock(x)]);
    assert Closed(codec, [], Some(OpenText(x))) == [TextBlock(x)];
    assert Step(codec, EMPTY, TextDelta(x)) == c1 && Step(codec, c1, ToolUseEnd(id)) == c2;
    var c3 := c2.(open := Some(OpenText(y)));
    assert Step(codec, c2, TextDelta(y)) == c3;
    CollectOne(codec, c2, TextDelta(y));
    assert Collect(codec, EMPTY, events) == c3;
    var body := Body([TextBlock(x), TextBlock(y)], None, NO_USAGE);
    assert Rendered(codec, events) == body;
    TwoTextsRunOn(codec, x, y);
  }

  lemma TwoTextsRunOn(codec: Codec, x: Text, y: Text)
    ensures Rendered(codec, Parsed(codec, Body([TextBlock(x), TextBlock(y)], None, NO_USAGE))).content == [TextBlock(x + y)]
  {
    var body := Body([TextBlock(x), TextBlock(y)], None, NO_USAGE);
    assert body.content[..1] == [TextBlock(x)] && body.content[1..] == [TextBlock(y)];
    assert [TextBlock(y)][1..] == [] && [TextBlock(x)][..0] == [];
    var u := UsageUpdate(NO_USAGE);
    assert BlocksEvents(codec, [TextBlock(y)]) == [TextDelta(y)];
    assert BlocksEvents(codec, body.content) == [TextDelta(x)] + [TextDelta(y)];
    assert Parsed(codec, body) == [u] + [TextDelta(x)] + [TextDelta(y)];
    var c0 := Step(codec, EMPTY, u);
    assert c0 == EMPTY;
    CollectConcat(codec, EMPTY, [u] + [TextDelta(x)], [TextDelta(y)]);
    CollectConcat(codec, EMPTY, [u], [TextDelta(x)]);
    CollectOne(codec, EMPTY, u);
    CollectOne(codec, EMPTY, TextDelta(x));
    var c1 := EMPTY.(open := Some(OpenText(x)));
    CollectOne(codec, c1, TextDelta(y));
  }
}
