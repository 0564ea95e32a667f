/** Whole Converse streams: what a client that addresses blocks by index reads in them, when the
    gateway's parser reads the same, and what reaches an Anthropic client at the far end. */
module ConverseTheorems {
  import opened Bytes
  import opened Finite
  import opened TokenUsage
  import opened Hub
  import opened FunctionNames
  import opened ToolUseIds
  import opened Accumulator
  import opened ConverseStream
  import opened BlockAddressing
  import AnthropicStream
  import AnthropicClient
  import AnthropicTheorems

  // ── the reference: a client that keeps a map from block index to call ───────

  /** `blocks` says which call each tool block opened; a block keeps its call after it stops.
      `ended` are the calls whose own block has stopped. The rest are conditions on the stream:
      `named`, calls open under distinct ids and fragments follow some call; `inPlace`, every fragment
      that says anything names the block of the call opened last; `onTime`, it comes while that call
      is `open`, with no stop, text, reasoning or bill since it opened; `stopsFit`, a block stops
      while its call is the one opened last and not ended (`running`), or holds no call to end;
      `quiet`, nothing is said after the ending. */
  datatype Reading = Reading(
    answer: Answer,
    blocks: map<nat, nat>,
    held: Option<StopReason>,
    ended: set<Text>,
    running: bool,
    open: bool,
    named: bool,
    inPlace: bool,
    onTime: bool,
    stopsFit: bool,
    quiet: bool)

  const UNREAD: Reading := Reading(NOTHING, map[], None, {}, false, false, true, true, true, true, true)

  /** The call a block holds. */
  function CallAt(r: Reading, index: nat): (at: Option<nat>)
    ensures at.Some? ==> at.value < |r.answer.calls|
  {
    if index in r.blocks && r.blocks[index] < |r.answer.calls| then Some(r.blocks[index]) else None
  }

  function ReadOpening(r: Reading, index: nat, id: Text, name: Text): Reading {
    var calls := r.answer.calls;
    r.(answer := r.answer.(calls := calls + [Call(id, name, [])]), blocks := r.blocks[index := |calls|],
       running := true, open := true,
       named := r.named && id !in Ids(calls), quiet := r.quiet && r.answer.ending.None?)
  }

  function ReadFragment(r: Reading, index: nat, fragment: Text): Reading {
    var calls, target := r.answer.calls, CallAt(r, index);
    r.(answer := r.answer.(calls := Addressed(calls, target, fragment)),
       named := r.named && calls != [],
       inPlace := r.inPlace && InPlace(calls, target, fragment),
       onTime := r.onTime && (r.open || fragment == []))
  }

  function ReadProse(r: Reading, text: Text, thinking: bool): Reading {
    r.(answer := if thinking then r.answer.(thinking := r.answer.thinking + text) else r.answer.(text := r.answer.text + text),
       open := false, quiet := r.quiet && r.answer.ending.None?)
  }

  /** The id of the call a stop ends, by its index. */
  function Ends(r: Reading, index: nat): set<Text> {
    if CallAt(r, index).Some? then {r.answer.calls[CallAt(r, index).value].id} else {}
  }

  predicate StopFits(r: Reading, index: nat) {
    if r.running then CallAt(r, index) == Some(|r.answer.calls| - 1) else Ends(r, index) <= r.ended
  }

  function ReadStop(r: Reading, index: nat): Reading {
    r.(ended := r.ended + Ends(r, index), running := false, open := false, stopsFit := r.stopsFit && StopFits(r, index))
  }

  function ReadBill(r: Reading, usage: Usage): Reading {
    var bill := r.answer.usage.Merge(usage);
    if r.held.None? then r.(answer := r.answer.(usage := bill))
    else
      var ending := if r.answer.ending.None? then Some(Ending(r.held.value, bill)) else r.answer.ending;
      r.(answer := r.answer.(usage := bill, ending := ending), held := None, open := false)
  }

  /** What a message says, with names and ids restored. */
  datatype Act =
    | Open(index: nat, id: Text, name: Text)
    | Add(index: nat, fragment: Text)
    | Say(text: Text, thinking: bool)
    | Close(index: nat)
    | Hold(reason: StopReason)
    | Bill(usage: Usage)
    | Pass

  function ActOf(names: NameMap, ids: Spellings, message: Message): Act {
    match message
    case ContentBlockStart(index, Some(call)) => Open(index, ids.Original(call.id), names.Original(call.name))
    case ContentBlockDelta(_, Some(text), _, _) => Say(text, false)
    case ContentBlockDelta(index, None, Some(fragment), _) => Add(index, fragment)
    case ContentBlockDelta(_, None, None, Some(reasoning)) => Say(reasoning, true)
    case ContentBlockStop(index) => Close(index)
    case MessageStop(raw) => Hold(ParseStopReason(raw))
    case Metadata(usage) => Bill(usage)
    case _ => Pass
  }

  function ReadAct(r: Reading, act: Act): Reading {
    match act
    case Open(index, id, name) => ReadOpening(r, index, id, name)
    case Add(index, fragment) => ReadFragment(r, index, fragment)
    case Say(text, thinking) => ReadProse(r, text, thinking)
    case Close(index) => ReadStop(r, index)
    case Hold(reason) => r.(held := Some(reason))
    case Bill(usage) => ReadBill(r, usage)
    case Pass => r
  }

  function ReadMessages(names: NameMap, ids: Spellings, messages: seq<Message>): Reading {
    if messages == [] then UNREAD
    else ReadAct(ReadMessages(names, ids, messages[..|messages| - 1]), ActOf(names, ids, messages[|messages| - 1]))
  }

  // ── the parser against the reference ────────────────────────────────────────

  ghost predicate SameButCalls(a: Answer, b: Answer) {
    a.text == b.text && a.thinking == b.thinking && a.usage == b.usage && a.ending == b.ending
  }

  ghost predicate Match(m: Monitor, r: Reading) {
    && SameButCalls(m.answer, r.answer) && Alike(m.answer.calls, r.answer.calls, r.inPlace)
    && m.wellNamed && m.timely == r.onTime && m.stopped == r.answer.ending.Some? && m.quiet == r.quiet
    && (r.open <==> m.answer.calls != [] && LastId(m.answer.calls) in m.open)
  }

  /** What the accumulator holds as the call still running. */
  ghost predicate TracksRunning(openTool: Option<Text>, calls: seq<Call>, running: bool) {
    && (openTool.Some? <==> running)
    && (running ==> calls != [] && openTool == Some(LastId(calls)))
  }

  ghost predicate Keeps(acc: Acc, names: NameMap, a: Answer, r: Reading) {
    && Agrees(acc, a) && acc.names == names && acc.heldStop == r.held
    && TracksRunning(acc.openTool, a.calls, r.running) && (r.open ==> r.running)
  }

  lemma SameIds(x: seq<Call>, y: seq<Call>)
    requires Ids(x) == Ids(y)
    ensures |x| == |y| && (x != [] ==> LastId(x) == LastId(y))
  {
    assert |Ids(x)| == |Ids(y)|;
    if x != [] {
      assert Ids(x)[|x| - 1] == Ids(y)[|y| - 1];
    }
  }

  lemma MatchFragment(m: Monitor, r: Reading, index: nat, fragment: Text)
    requires Match(m, r) && r.answer.calls != []
    ensures m.answer.calls != [] &&
            Match(MonitorStep(m, ToolUseDelta(LastId(m.answer.calls), fragment)), ReadFragment(r, index, fragment))
  {
    var x, y := m.answer.calls, r.answer.calls;
    SameIds(x, y);
    LastKept(x, fragment);
    AlikeFragment(x, y, r.inPlace, CallAt(r, index), fragment);
    FragmentStep(m, LastId(x), fragment);
  }

  /** What a fragment for a known call changes. */
  lemma FragmentStep(m: Monitor, id: Text, fragment: Text)
    requires m.wellNamed && id in Ids(m.answer.calls)
    ensures MonitorStep(m, ToolUseDelta(id, fragment)) ==
            m.(answer := m.answer.(calls := AddFragment(m.answer.calls, id, fragment)),
               timely := m.timely && (fragment != [] ==> id in m.open))
  {
  }

  lemma LastKept(calls: seq<Call>, fragment: Text)
    requires calls != []
    ensures var grown := AddFragment(calls, LastId(calls), fragment); grown != [] && LastId(grown) == LastId(calls)
    ensures LastId(calls) in Ids(calls)
  {
    AddFragmentKeepsIds(calls, LastId(calls), fragment);
    SameIds(AddFragment(calls, LastId(calls), fragment), calls);
    assert Ids(calls)[|calls| - 1] == LastId(calls);
  }

  lemma MatchOpening(m: Monitor, r: Reading, index: nat, id: Text, name: Text)
    requires Match(m, r) && id !in Ids(r.answer.calls)
    ensures Match(MonitorStep(m, ToolUseStart(id, name)), ReadOpening(r, index, id, name))
  {
    AlikeOpening(m.answer.calls, r.answer.calls, r.inPlace, id, name);
  }

  lemma MatchProse(m: Monitor, r: Reading, text: Text, thinking: bool)
    requires Match(m, r)
    ensures Match(MonitorStep(m, if thinking then ThinkingDelta(text) else TextDelta(text)), ReadProse(r, text, thinking))
  {
  }

  lemma MatchBill(m: Monitor, r: Reading, usage: Usage)
    requires Match(m, r)
    ensures Match(MonitorStep(m, if r.held.Some? then Stop(r.held.value, usage) else UsageUpdate(usage)), ReadBill(r, usage))
  {
  }

  lemma MatchStart(m: Monitor, r: Reading)
    requires Match(m, r)
    ensures Match(MonitorStep(m, Start([], NO_USAGE)), r)
  {
    assert r.answer.usage.Merge(NO_USAGE) == r.answer.usage;
  }

  lemma MatchStop(m: Monitor, r: Reading, index: nat)
    requires Match(m, r) && (r.open ==> r.running)
    ensures r.running && m.answer.calls != [] ==>
              Match(MonitorStep(m, ToolUseEnd(LastId(m.answer.calls))), ReadStop(r, index))
    ensures !r.running ==> Match(m, ReadStop(r, index))
  {
  }

  /** The events the parser makes of an act. */
  function ActEvents(acc: Acc, act: Act): seq<StreamEvent> {
    match act
    case Open(_, id, name) => [ToolUseStart(id, name)]
    case Add(_, fragment) => [ToolUseDelta(CurrentTool(acc), fragment)]
    case Say(text, thinking) => [if thinking then ThinkingDelta(text) else TextDelta(text)]
    case Close(_) => if acc.openTool.Some? then [ToolUseEnd(acc.openTool.value)] else []
    case Hold(_) => []
    case Bill(usage) => [if acc.heldStop.Some? then Stop(acc.heldStop.value, usage) else UsageUpdate(usage)]
    case Pass => []
  }

  predicate Idle(events: seq<StreamEvent>) {
    events == [] || (|events| == 1 && (events[0] == Start([], NO_USAGE) || events[0].Error?))
  }

  lemma ParsedIs(ids: Spellings, acc: Acc, message: Message)
    ensures var act, events := ActOf(acc.names, ids, message), Parsed(ids, acc, message);
            if act.Pass? then Idle(events) else events == ActEvents(acc, act)
  {
  }

  lemma MatchIdle(m: Monitor, r: Reading, events: seq<StreamEvent>)
    requires Match(m, r) && Idle(events)
    ensures Match(MonitorRun(m, events), r)
  {
    if events != [] {
      assert events == [events[0]];
      MonitorOne(m, events[0]);
      if events[0].Start? {
        MatchStart(m, r);
      }
    }
  }

  lemma MatchAct(names: NameMap, acc: Acc, m: Monitor, r: Reading, act: Act)
    requires Match(m, r) && Keeps(acc, names, m.answer, r) && ReadAct(r, act).named
    ensures Match(MonitorRun(m, ActEvents(acc, act)), ReadAct(r, act))
  {
    match act
    case Open(index, id, name) =>
      MonitorOne(m, ToolUseStart(id, name));
      MatchOpening(m, r, index, id, name);
    case Add(index, fragment) =>
      CurrentIsLast(acc, m.answer);
      MonitorOne(m, ToolUseDelta(CurrentTool(acc), fragment));
      MatchFragment(m, r, index, fragment);
    case Say(text, thinking) =>
      MonitorOne(m, if thinking then ThinkingDelta(text) else TextDelta(text));
      MatchProse(m, r, text, thinking);
    case Close(index) =>
      MatchStop(m, r, index);
      if r.running {
        MonitorOne(m, ToolUseEnd(acc.openTool.value));
      }
    case Bill(usage) =>
      MonitorOne(m, if r.held.Some? then Stop(r.held.value, usage) else UsageUpdate(usage));
      MatchBill(m, r, usage);
    case _ =>
  }

  /** The events of one message read as the message does. */
  lemma MatchMessage(names: NameMap, ids: Spellings, acc: Acc, m: Monitor, r: Reading, message: Message)
    requires Match(m, r) && Keeps(acc, names, m.answer, r) && ReadAct(r, ActOf(names, ids, message)).named
    ensures Match(MonitorRun(m, Parsed(ids, acc, message)), ReadAct(r, ActOf(names, ids, message)))
  {
    ParsedIs(ids, acc, message);
    if ActOf(names, ids, message).Pass? {
      MatchIdle(m, r, Parsed(ids, acc, message));
    } else {
      MatchAct(names, acc, m, r, ActOf(names, ids, message));
    }
  }

  // ── the accumulator keeps up ────────────────────────────────────────────────

  /** The stop held after an act. */
  function HeldNext(held: Option<StopReason>, act: Act): Option<StopReason> {
    if act.Hold? then Some(act.reason) else if act.Bill? then None else held
  }

  lemma HeldStep(ids: Spellings, acc: Acc, message: Message)
    ensures var acc' := ObservedAll(Noted(acc, message), Parsed(ids, acc, message));
            acc'.heldStop == HeldNext(acc.heldStop, ActOf(acc.names, ids, message)) && acc'.names == acc.names
  {
    NotesHold(Noted(acc, message), Parsed(ids, acc, message));
  }

  lemma HeldIsRead(r: Reading, act: Act)
    ensures ReadAct(r, act).held == HeldNext(r.held, act)
  {
    match act
    case Open(_, _, _) =>
    case Add(_, _) =>
    case Say(_, _) =>
    case Close(_) =>
    case Bill(_) =>
    case _ =>
  }

  /** The call the accumulator holds as running after an act. */
  function RunningNext(openTool: Option<Text>, act: Act): Option<Text> {
    if act.Open? then Some(act.id) else if act.Close? then None else openTool
  }

  lemma ObservedOne(acc: Acc, e: StreamEvent)
    ensures ObservedAll(acc, [e]) == Observed(acc, e)
    ensures Observed(acc, e).openTool ==
            match e case ToolUseStart(id, _) => Some(id) case ToolUseEnd(_) => None case _ => acc.openTool
  {
    assert [e][..0] == [];
    assert ObservedAll(acc, []) == acc;
  }

  lemma RunningStep(ids: Spellings, acc: Acc, message: Message)
    ensures ObservedAll(Noted(acc, message), Parsed(ids, acc, message)).openTool ==
            RunningNext(acc.openTool, ActOf(acc.names, ids, message))
  {
    var events := Parsed(ids, acc, message);
    ParsedIs(ids, acc, message);
    if events != [] {
      assert events == [events[0]];
      ObservedOne(Noted(acc, message), events[0]);
    }
  }

  lemma RunningAfter(r: Reading, act: Act)
    requires r.open ==> r.running
    ensures var s := ReadAct(r, act); s.running == (act.Open? || (r.running && !act.Close?)) && (s.open ==> s.running)
  {
    match act
    case Open(_, _, _) =>
    case Add(_, _) =>
    case Say(_, _) =>
    case Close(_) =>
    case Bill(_) =>
    case _ =>
  }

  lemma RunningIsRead(openTool: Option<Text>, calls: seq<Call>, calls': seq<Call>, r: Reading, act: Act)
    requires TracksRunning(openTool, calls, r.running) && (r.open ==> r.running)
    requires Ids(calls) == Ids(r.answer.calls) && Ids(calls') == Ids(ReadAct(r, act).answer.calls)
    ensures var s := ReadAct(r, act);
            TracksRunning(RunningNext(openTool, act), calls', s.running) && (s.open ==> s.running)
  {
    RunningAfter(r, act);
    IdsAfter(r, act);
    SameIds(calls', ReadAct(r, act).answer.calls);
    SameIds(calls, r.answer.calls);
    if !act.Open? {
      SameIds(ReadAct(r, act).answer.calls, r.answer.calls);
    }
  }

  lemma IdsAfter(r: Reading, act: Act)
    ensures var calls := ReadAct(r, act).answer.calls;
            if act.Open? then calls == r.answer.calls + [Call(act.id, act.name, [])] else Ids(calls) == Ids(r.answer.calls)
  {
    if act.Add? {
      AddressedIds(r.answer.calls, CallAt(r, act.index), act.fragment);
    }
  }

  lemma KeepMessage(names: NameMap, ids: Spellings, acc: Acc, a: Answer, a': Answer, r: Reading, message: Message)
    requires Keeps(acc, names, a, r) && Ids(a.calls) == Ids(r.answer.calls)
    requires a' == ReadFrom(a, Parsed(ids, acc, message))
    requires Ids(a'.calls) == Ids(ReadAct(r, ActOf(names, ids, message)).answer.calls)
    ensures Keeps(ObservedAll(Noted(acc, message), Parsed(ids, acc, message)), names, a', ReadAct(r, ActOf(names, ids, message)))
  {
    AgreementHolds(Noted(acc, message), a, Parsed(ids, acc, message));
    HeldStep(ids, acc, message);
    HeldIsRead(r, ActOf(names, ids, message));
    RunningStep(ids, acc, message);
    RunningIsRead(acc.openTool, a.calls, a'.calls, r, ActOf(names, ids, message));
  }

  lemma {:induction false} MonitorReads(m: Monitor, events: seq<StreamEvent>)
    ensures MonitorRun(m, events).answer == ReadFrom(m.answer, events)
  {
    if events != [] {
      MonitorReads(m, events[..|events| - 1]);
    }
  }

  lemma NamedBefore(r: Reading, act: Act)
    requires ReadAct(r, act).named
    ensures r.named
  {
    match act
    case Open(_, _, _) =>
    case Add(_, _) =>
    case Say(_, _) =>
    case Close(_) =>
    case Bill(_) =>
    case _ =>
  }

  /** After every message, events and accumulator stand against the reading by block as `Match` and
      `Keeps` say. */
  lemma {:induction false} RelayMatches(names: NameMap, ids: Spellings, messages: seq<Message>)
    requires ReadMessages(names, ids, messages).named
    ensures var relay, r := RelayMessages(names, ids, messages), ReadMessages(names, ids, messages);
            var m := MonitorRun(UNWATCHED, relay.events);
            Match(m, r) && Keeps(relay.acc, names, m.answer, r) && m.answer == Read(relay.events)
  {
    MonitorReads(UNWATCHED, RelayMessages(names, ids, messages).events);
    if messages != [] {
      var init, message := messages[..|messages| - 1], messages[|messages| - 1];
      var before, r := RelayMessages(names, ids, init), ReadMessages(names, ids, init);
      NamedBefore(r, ActOf(names, ids, message));
      RelayMatches(names, ids, init);
      var m, events := MonitorRun(UNWATCHED, before.events), Parsed(ids, before.acc, message);
      MatchMessage(names, ids, before.acc, m, r, message);
      MonitorConcat(UNWATCHED, before.events, events);
      MonitorReads(m, events);
      KeepMessage(names, ids, before.acc, m.answer, MonitorRun(m, events).answer, r, message);
    }
  }

  /** The parser's answer is the one read by block index exactly when every fragment that says
      anything names the block of the call opened last. Text, reasoning, bill, ending and the calls'
      ids agree in any case. */
  lemma ParserReadsByBlockExactlyWhen(names: NameMap, ids: Spellings, messages: seq<Message>)
    requires ReadMessages(names, ids, messages).named
    ensures var relay, r := RelayMessages(names, ids, messages), ReadMessages(names, ids, messages);
            && (Read(relay.events) == r.answer <==> r.inPlace)
            && SameButCalls(Read(relay.events), r.answer) && Ids(Read(relay.events).calls) == Ids(r.answer.calls)
            && Agrees(relay.acc, Read(relay.events))
  {
    RelayMatches(names, ids, messages);
    AlikeExactlyWhen(Read(RelayMessages(names, ids, messages).events).calls, ReadMessages(names, ids, messages).answer.calls,
                     ReadMessages(names, ids, messages).inPlace);
  }

  /** Converse in, Anthropic out: a client reads the text, reasoning and ending the stream says; of
      the calls as their blocks give them it recovers ids, names and exact arguments, given
      fragments in place, exactly when each was on time, and given fragments on time, exactly when each was in
      place. */
  lemma AnthropicClientReadsConverseStream(names: NameMap, ids: Spellings, model: Text, messages: seq<Message>)
    requires ReadMessages(names, ids, messages).named && ReadMessages(names, ids, messages).quiet
    ensures AnthropicClient.Watch(false, model, RelayMessages(names, ids, messages).events).Some?
    ensures var c := AnthropicClient.Watch(false, model, RelayMessages(names, ids, messages).events).value;
            var r := ReadMessages(names, ids, messages);
            && c.text == r.answer.text && c.thinking == r.answer.thinking && c.ending == r.answer.ending
            && (r.answer.ending.Some? ==> AnthropicClient.AllStopped(c.blocks))
            && (r.inPlace ==> (AnthropicTheorems.ToolsOf(c.blocks) == r.answer.calls <==> r.onTime))
            && (r.onTime ==> (AnthropicTheorems.ToolsOf(c.blocks) == r.answer.calls <==> r.inPlace))
  {
    RelayMatches(names, ids, messages);
    ParserReadsByBlockExactlyWhen(names, ids, messages);
    MonitorMeans(RelayMessages(names, ids, messages).events);
    AnthropicTheorems.ClientRecoversExactlyWhen(model, RelayMessages(names, ids, messages).events);
  }

  /** Two blocks open at once. */
  function TwoOpen(a: ToolOpening, b: ToolOpening): seq<Message> { [ContentBlockStart(0, Some(a)), ContentBlockStart(1, Some(b))] }

  function Opened(names: NameMap, ids: Spellings, call: ToolOpening): Call {
    Call(ids.Original(call.id), names.Original(call.name), [])
  }

  lemma ReadTwoOpen(names: NameMap, ids: Spellings, a: ToolOpening, b: ToolOpening)
    requires ids.Original(a.id) != ids.Original(b.id)
    ensures var r := ReadMessages(names, ids, TwoOpen(a, b));
            && r.answer.calls == [Opened(names, ids, a), Opened(names, ids, b)]
            && r.blocks == map[0 := 0, 1 := 1] && r.named && r.inPlace && r.onTime && r.quiet && r.answer.ending.None?
  {
    var first, second := ContentBlockStart(0, Some(a)), ContentBlockStart(1, Some(b));
    assert TwoOpen(a, b) == [] + [first] + [second];
    ReadMore(names, ids, [], first);
    ReadMore(names, ids, [] + [first], second);
    var r := ReadOpening(UNREAD, 0, ids.Original(a.id), names.Original(a.name));
    assert r.answer.calls == [Opened(names, ids, a)];
    assert Ids([Opened(names, ids, a)]) == [ids.Original(a.id)];
  }

  /** Whatever block a fragment names, the parser adds it to the call opened last. */
  lemma FragmentGoesToLast(names: NameMap, ids: Spellings, messages: seq<Message>, index: nat, fragment: Text)
    requires Read(RelayMessages(names, ids, messages).events).calls != []
    ensures var calls := Read(RelayMessages(names, ids, messages).events).calls;
            Read(RelayMessages(names, ids, messages + [ContentBlockDelta(index, None, Some(fragment), None)]).events).calls ==
            AddFragment(calls, LastId(calls), fragment)
  {
    var relay, message := RelayMessages(names, ids, messages), ContentBlockDelta(index, None, Some(fragment), None);
    var a := Read(relay.events);
    RelayMore(names, ids, messages, message);
    RelayAgrees(names, ids, messages);
    CurrentIsLast(relay.acc, a);
    FragmentReads(ids, relay.acc, a, index, fragment);
  }

  lemma FragmentReads(ids: Spellings, acc: Acc, a: Answer, index: nat, fragment: Text)
    ensures ReadFrom(a, Parsed(ids, acc, ContentBlockDelta(index, None, Some(fragment), None))).calls ==
            AddFragment(a.calls, CurrentTool(acc), fragment)
  {
    var e := ToolUseDelta(CurrentTool(acc), fragment);
    assert Parsed(ids, acc, ContentBlockDelta(index, None, Some(fragment), None)) == [e];
    ReadOne(a, e);
  }

  lemma TwoOpenParsed(names: NameMap, ids: Spellings, a: ToolOpening, b: ToolOpening)
    requires ids.Original(a.id) != ids.Original(b.id)
    ensures Read(RelayMessages(names, ids, TwoOpen(a, b)).events).calls == [Opened(names, ids, a), Opened(names, ids, b)]
  {
    ReadTwoOpen(names, ids, a, b);
    ParserReadsByBlockExactlyWhen(names, ids, TwoOpen(a, b));
  }

  /** With two blocks open, a fragment for the first: its block's call should have it, the parser
      gives it to the other. */
  lemma InterleavedFragmentChangesHands(names: NameMap, ids: Spellings, a: ToolOpening, b: ToolOpening, fragment: Text)
    requires fragment != [] && ids.Original(a.id) != ids.Original(b.id)
    ensures var messages := TwoOpen(a, b) + [ContentBlockDelta(0, None, Some(fragment), None)];
            var r, parsed := ReadMessages(names, ids, messages), Read(RelayMessages(names, ids, messages).events);
            var first, second := Opened(names, ids, a), Opened(names, ids, b);
            && r.named && !r.inPlace
            && r.answer.calls == [first.(args := fragment), second]
            && parsed.calls == [first, second.(args := fragment)]
  {
    var first, second := Opened(names, ids, a), Opened(names, ids, b);
    TwoOpenParsed(names, ids, a, b);
    FragmentGoesToLast(names, ids, TwoOpen(a, b), 0, fragment);
    SecondGrows(first, second, fragment);
    ReadTwoOpen(names, ids, a, b);
    ReadMore(names, ids, TwoOpen(a, b), ContentBlockDelta(0, None, Some(fragment), None));
    FirstIsAddressed(ReadMessages(names, ids, TwoOpen(a, b)), first, second, fragment);
  }

  lemma FirstIsAddressed(r: Reading, first: Call, second: Call, fragment: Text)
    requires r.answer.calls == [first, second] && r.blocks == map[0 := 0, 1 := 1] && first.args == [] && fragment != []
    ensures var s := ReadFragment(r, 0, fragment);
            s.answer.calls == [first.(args := fragment), second] && s.named == r.named && !s.inPlace
  {
    assert CallAt(r, 0) == Some(0) && first.args + fragment == fragment;
  }

  lemma SecondGrows(a: Call, b: Call, fragment: Text)
    requires a.id != b.id && b.args == []
    ensures AddFragment([a, b], b.id, fragment) == [a, b.(args := fragment)]
  {
    assert Ids([a, b]) == [a.id, b.id];
    assert Ids([a, b])[1] == b.id && Ids([a, b])[0] != b.id;
    assert b.args + fragment == fragment;
  }

  // ── two faults that cancel ──────────────────────────────────────────────────

  /** A run whose one call still open is `heir`. */
  ghost predicate OneOpen(events: seq<StreamEvent>, heir: Text) {
    WellNamed(events) && NoContentAfterStop(events) && Timely(events) && OpenCalls(events) == {heir}
  }

  /** After it, a fragment for a call that has ended goes to the one still open. */
  lemma LateFragmentFallsTo(model: Text, events: seq<StreamEvent>, heir: Text, id: Text, fragment: Text)
    requires OneOpen(events, heir) && id != heir && NoContentAfterStop(events + [ToolUseDelta(id, fragment)])
    ensures var c := AnthropicClient.Watch(false, model, events + [ToolUseDelta(id, fragment)]);
            c.Some? && AnthropicTheorems.ToolsOf(c.value.blocks) == AddFragment(Read(events).calls, heir, fragment)
  {
    var more := events + [ToolUseDelta(id, fragment)];
    assert more[..|more| - 1] == events && more[|more| - 1] == ToolUseDelta(id, fragment);
    AnthropicTheorems.StayInStep(false, model, more);
    HeirIsOpen(model, events, heir, id);
    AnthropicTheorems.FragmentFallsBack(AnthropicStream.RunState(AnthropicStream.Fresh(model), events),
                                        AnthropicClient.Watch(false, model, events).value, id, fragment);
  }

  lemma HeirIsOpen(model: Text, events: seq<StreamEvent>, heir: Text, id: Text)
    requires OneOpen(events, heir) && id != heir
    ensures AnthropicClient.Watch(false, model, events).Some?
    ensures var st, c := AnthropicStream.RunState(AnthropicStream.Fresh(model), events), AnthropicClient.Watch(false, model, events).value;
            && AnthropicClient.Coupled(st, c) && AnthropicTheorems.ToolsOf(c.blocks) == Read(events).calls
            && Distinct(Ids(AnthropicTheorems.ToolsOf(c.blocks)))
            && id !in AnthropicStream.OpenIds(st.openTools)
            && st.openTools != [] && st.openTools[|st.openTools| - 1].id == heir
  {
    AnthropicTheorems.StayInStep(false, model, events);
    AnthropicTheorems.ClientRecoversExactlyWhen(model, events);
    WellNamedIds(events);
    OnlyOneOpen(model, events, heir);
    LastIsHeir(AnthropicStream.OpenIds(AnthropicStream.RunState(AnthropicStream.Fresh(model), events).openTools), heir);
  }

  lemma OnlyOneOpen(model: Text, events: seq<StreamEvent>, heir: Text)
    requires OneOpen(events, heir)
    ensures forall x :: x in AnthropicStream.OpenIds(AnthropicStream.RunState(AnthropicStream.Fresh(model), events).openTools) <==> x == heir
  {
    AnthropicTheorems.TracksOpenCalls(model, events);
  }

  lemma LastIsHeir(open: seq<Text>, heir: Text)
    requires forall x :: x in open <==> x == heir
    ensures open != [] && open[|open| - 1] == heir
  {
    assert heir in open;
    assert open[|open| - 1] in open;
  }

  function SecondEnded(a: Call, b: Call): seq<StreamEvent> { [Opening(a), Opening(b)] + [ToolUseEnd(b.id)] }

  lemma SecondEndedIs(a: Call, b: Call)
    requires a.id != b.id && a.args == [] == b.args
    ensures OneOpen(SecondEnded(a, b), a.id) && Read(SecondEnded(a, b)).calls == [a, b]
  {
    TwoOpenings(a, b);
    MonitorMore(UNWATCHED, [Opening(a), Opening(b)], ToolUseEnd(b.id));
    MonitorMeans(SecondEnded(a, b));
  }

  /** Two blocks opened, and a stop for the second. */
  function SecondStopped(a: ToolOpening, b: ToolOpening): seq<Message> { TwoOpen(a, b) + [ContentBlockStop(1)] }

  lemma SecondStoppedIs(names: NameMap, ids: Spellings, a: ToolOpening, b: ToolOpening)
    requires ids.Original(a.id) != ids.Original(b.id)
    ensures var r := ReadMessages(names, ids, SecondStopped(a, b));
            && r.answer.calls == [Opened(names, ids, a), Opened(names, ids, b)] && r.blocks == map[0 := 0, 1 := 1]
            && r.named && r.inPlace && r.onTime && !r.open && r.quiet && r.answer.ending.None?
    ensures RelayMessages(names, ids, SecondStopped(a, b)).events == SecondEnded(Opened(names, ids, a), Opened(names, ids, b))
  {
    var first, second := Opened(names, ids, a), Opened(names, ids, b);
    ReadTwoOpen(names, ids, a, b);
    ReadMore(names, ids, TwoOpen(a, b), ContentBlockStop(1));
    TwoOpenEvents(names, ids, a, b);
    RelayMore(names, ids, TwoOpen(a, b), ContentBlockStop(1));
    assert Parsed(ids, RelayMessages(names, ids, TwoOpen(a, b)).acc, ContentBlockStop(1)) == [ToolUseEnd(second.id)];
  }

  lemma TwoOpenEvents(names: NameMap, ids: Spellings, a: ToolOpening, b: ToolOpening)
    requires ids.Original(a.id) != ids.Original(b.id)
    ensures var relay, first, second := RelayMessages(names, ids, TwoOpen(a, b)), Opened(names, ids, a), Opened(names, ids, b);
            relay.events == [Opening(first), Opening(second)] && relay.acc.openTool == Some(second.id)
  {
    var m1, m2 := ContentBlockStart(0, Some(a)), ContentBlockStart(1, Some(b));
    assert TwoOpen(a, b) == [] + [m1] + [m2];
    RelayNames(names, ids, []);
    OpeningMore(names, ids, [], 0, a);
    RelayNames(names, ids, [] + [m1]);
    OpeningMore(names, ids, [] + [m1], 1, b);
  }

  lemma {:induction false} RelayNames(names: NameMap, ids: Spellings, messages: seq<Message>)
    ensures RelayMessages(names, ids, messages).acc.names == names
  {
    if messages != [] {
      var init, message := messages[..|messages| - 1], messages[|messages| - 1];
      RelayNames(names, ids, init);
      HeldStep(ids, RelayMessages(names, ids, init).acc, message);
    }
  }

  lemma OpeningMore(names: NameMap, ids: Spellings, messages: seq<Message>, index: nat, call: ToolOpening)
    requires RelayMessages(names, ids, messages).acc.names == names
    ensures var before := RelayMessages(names, ids, messages);
            var after := RelayMessages(names, ids, messages + [ContentBlockStart(index, Some(call))]);
            after.events == before.events + [Opening(Opened(names, ids, call))] && after.acc.openTool == Some(ids.Original(call.id))
  {
    var message := ContentBlockStart(index, Some(call));
    RelayMore(names, ids, messages, message);
    RunningStep(ids, RelayMessages(names, ids, messages).acc, message);
  }

  /** A fragment both misplaced and late, and a client that has it where its block says all the same. */
  lemma TwoFaultsCanCancel(names: NameMap, ids: Spellings, model: Text, a: ToolOpening, b: ToolOpening, fragment: Text)
    requires fragment != [] && ids.Original(a.id) != ids.Original(b.id)
    ensures var messages := SecondStopped(a, b) + [ContentBlockDelta(0, None, Some(fragment), None)];
            var r, c := ReadMessages(names, ids, messages), AnthropicClient.Watch(false, model, RelayMessages(names, ids, messages).events);
            && r.named && !r.inPlace && !r.onTime
            && c.Some? && AnthropicTheorems.ToolsOf(c.value.blocks) == r.answer.calls
  {
    var first, second, delta := Opened(names, ids, a), Opened(names, ids, b), ContentBlockDelta(0, None, Some(fragment), None);
    SecondStoppedIs(names, ids, a, b);
    LateDeltaEvents(names, ids, a, b, fragment);
    LateDeltaFalls(model, first, second, fragment);
    ReadMore(names, ids, SecondStopped(a, b), delta);
    LateFirst(ReadMessages(names, ids, SecondStopped(a, b)), first, second, fragment);
  }

  lemma LateDeltaEvents(names: NameMap, ids: Spellings, a: ToolOpening, b: ToolOpening, fragment: Text)
    requires ids.Original(a.id) != ids.Original(b.id)
    ensures var first, second := Opened(names, ids, a), Opened(names, ids, b);
            RelayMessages(names, ids, SecondStopped(a, b) + [ContentBlockDelta(0, None, Some(fragment), None)]).events ==
            SecondEnded(first, second) + [ToolUseDelta(second.id, fragment)]
  {
    var first, second, delta := Opened(names, ids, a), Opened(names, ids, b), ContentBlockDelta(0, None, Some(fragment), None);
    SecondStoppedIs(names, ids, a, b);
    SecondEndedIs(first, second);
    var relay := RelayMessages(names, ids, SecondStopped(a, b));
    RelayIs(names, ids, SecondStopped(a, b), delta);
    RelayAgrees(names, ids, SecondStopped(a, b));
    CurrentIsLast(relay.acc, Read(relay.events));
  }

  lemma LateDeltaFalls(model: Text, first: Call, second: Call, fragment: Text)
    requires first.id != second.id && first.args == [] == second.args
    ensures var c := AnthropicClient.Watch(false, model, SecondEnded(first, second) + [ToolUseDelta(second.id, fragment)]);
            c.Some? && AnthropicTheorems.ToolsOf(c.value.blocks) == [first.(args := fragment), second]
  {
    SecondEndedIs(first, second);
    LateFragmentFallsTo(model, SecondEnded(first, second), first.id, second.id, fragment);
    FirstGrows(first, second, fragment);
  }

  lemma FirstGrows(a: Call, b: Call, fragment: Text)
    requires a.args == []
    ensures AddFragment([a, b], a.id, fragment) == [a.(args := fragment), b]
  {
    assert Ids([a, b])[0] == a.id;
    assert a.args + fragment == fragment;
  }

  lemma LateFirst(r: Reading, first: Call, second: Call, fragment: Text)
    requires r.answer.calls == [first, second] && r.blocks == map[0 := 0, 1 := 1] && first.args == [] && fragment != [] && !r.open
    ensures var s := ReadFragment(r, 0, fragment);
            s.answer.calls == [first.(args := fragment), second] && s.named == r.named && !s.inPlace && !s.onTime
  {
    assert CallAt(r, 0) == Some(0) && first.args + fragment == fragment;
  }

  lemma ReadMore(names: NameMap, ids: Spellings, messages: seq<Message>, message: Message)
    ensures ReadMessages(names, ids, messages + [message]) ==
            ReadAct(ReadMessages(names, ids, messages), ActOf(names, ids, message))
  {
    assert (messages + [message])[..|messages|] == messages;
  }

  lemma RelayIs(names: NameMap, ids: Spellings, messages: seq<Message>, message: Message)
    ensures var before := RelayMessages(names, ids, messages);
            RelayMessages(names, ids, messages + [message]) ==
            Relayed(before, Noted(before.acc, message), Parsed(ids, before.acc, message))
  {
    assert (messages + [message])[..|messages|] == messages;
  }

  lemma RelayMore(names: NameMap, ids: Spellings, messages: seq<Message>, message: Message)
    ensures var before, after := RelayMessages(names, ids, messages), RelayMessages(names, ids, messages + [message]);
            var events := Parsed(ids, before.acc, message);
            && after == Relayed(before, Noted(before.acc, message), events)
            && Read(after.events) == ReadFrom(Read(before.events), events)
            && (Agrees(before.acc, Read(before.events)) ==> Agrees(after.acc, Read(after.events)))
  {
    var before := RelayMessages(names, ids, messages);
    RelayIs(names, ids, messages, message);
    NotedAgrees(before.acc, Read(before.events), message);
    RelayedReads(before, Noted(before.acc, message), Parsed(ids, before.acc, message));
  }

  lemma NotedAgrees(acc: Acc, a: Answer, message: Message)
    ensures Agrees(acc, a) ==> Agrees(Noted(acc, message), a)
  {
  }

  // ── which calls have ended ──────────────────────────────────────────────────

  /** The calls a run of events has ended. */
  function EndedIds(events: seq<StreamEvent>): set<Text> {
    if events == [] then {}
    else EndedIds(events[..|events| - 1]) + if events[|events| - 1].ToolUseEnd? then {events[|events| - 1].id} else {}
  }

  lemma EndedMore(events: seq<StreamEvent>, more: seq<StreamEvent>)
    requires |more| <= 1
    ensures EndedIds(events + more) == EndedIds(events) + if more != [] && more[0].ToolUseEnd? then {more[0].id} else {}
  {
    if more == [] {
      assert events + more == events;
    } else {
      assert (events + more)[..|events|] == events;
    }
  }

  /** The last call is running exactly while no event has ended it, and only opened calls end. */
  ghost predicate EndsTracked(ended: set<Text>, calls: seq<Call>, running: bool) {
    && (forall id :: id in ended ==> id in Ids(calls))
    && (running <==> calls != [] && LastId(calls) !in ended)
  }

  function EndedNext(ended: set<Text>, openTool: Option<Text>, act: Act): set<Text> {
    if act.Close? && openTool.Some? then ended + {openTool.value} else ended
  }

  lemma ParsedEnds(ids: Spellings, acc: Acc, message: Message, ended: set<Text>)
    ensures var events := Parsed(ids, acc, message);
            && |events| <= 1
            && EndedNext(ended, acc.openTool, ActOf(acc.names, ids, message)) ==
               ended + if events != [] && events[0].ToolUseEnd? then {events[0].id} else {}
  {
    ParsedIs(ids, acc, message);
  }

  lemma EndedStep(names: NameMap, ids: Spellings, messages: seq<Message>, message: Message)
    requires RelayMessages(names, ids, messages).acc.names == names
    ensures var before := RelayMessages(names, ids, messages);
            EndedIds(RelayMessages(names, ids, messages + [message]).events) ==
            EndedNext(EndedIds(before.events), before.acc.openTool, ActOf(names, ids, message))
  {
    var before := RelayMessages(names, ids, messages);
    RelayIs(names, ids, messages, message);
    ParsedEnds(ids, before.acc, message, EndedIds(before.events));
    EndedMore(before.events, Parsed(ids, before.acc, message));
  }

  lemma EndsStayTracked(ended: set<Text>, openTool: Option<Text>, calls: seq<Call>, r: Reading, act: Act)
    requires EndsTracked(ended, r.answer.calls, r.running) && (r.open ==> r.running)
    requires TracksRunning(openTool, calls, r.running) && Ids(calls) == Ids(r.answer.calls)
    requires act.Open? ==> act.id !in Ids(r.answer.calls)
    ensures EndsTracked(EndedNext(ended, openTool, act), ReadAct(r, act).answer.calls, ReadAct(r, act).running)
  {
    var after := ReadAct(r, act).answer.calls;
    SameIds(calls, r.answer.calls);
    RunningAfter(r, act);
    IdsAfter(r, act);
    if act.Open? {
      assert Ids(after) == Ids(r.answer.calls) + [act.id];
    } else {
      SameIds(after, r.answer.calls);
      if r.answer.calls != [] {
        assert Ids(r.answer.calls)[|r.answer.calls| - 1] == LastId(r.answer.calls);
      }
    }
  }

  lemma NamedOpening(r: Reading, act: Act)
    requires ReadAct(r, act).named && act.Open?
    ensures act.id !in Ids(r.answer.calls)
  {
  }

  ghost predicate RelayEndsTracked(names: NameMap, ids: Spellings, messages: seq<Message>) {
    var r := ReadMessages(names, ids, messages);
    EndsTracked(EndedIds(RelayMessages(names, ids, messages).events), r.answer.calls, r.running)
  }

  lemma EndsHoldStep(names: NameMap, ids: Spellings, messages: seq<Message>, message: Message)
    requires ReadMessages(names, ids, messages + [message]).named && RelayEndsTracked(names, ids, messages)
    ensures RelayEndsTracked(names, ids, messages + [message])
  {
    var r, act, before := ReadMessages(names, ids, messages), ActOf(names, ids, message), RelayMessages(names, ids, messages);
    ReadMore(names, ids, messages, message);
    NamedBefore(r, act);
    RelayMatches(names, ids, messages);
    if act.Open? {
      NamedOpening(r, act);
    }
    EndsStayTracked(EndedIds(before.events), before.acc.openTool, Read(before.events).calls, r, act);
    EndedStep(names, ids, messages, message);
  }

  lemma {:induction false} EndsHold(names: NameMap, ids: Spellings, messages: seq<Message>)
    requires ReadMessages(names, ids, messages).named
    ensures RelayEndsTracked(names, ids, messages)
  {
    if messages != [] {
      var init, message := messages[..|messages| - 1], messages[|messages| - 1];
      assert init + [message] == messages;
      NamedBefore(ReadMessages(names, ids, init), ActOf(names, ids, message));
      EndsHold(names, ids, init);
      EndsHoldStep(names, ids, init, message);
    }
  }

  /** At a stop, the parser ends the same call the block index does exactly when the stop fits. */
  lemma StopEndsItsOwn(ended: set<Text>, openTool: Option<Text>, calls: seq<Call>, r: Reading, act: Act)
    requires ended == r.ended && EndsTracked(ended, r.answer.calls, r.running) && Distinct(Ids(r.answer.calls))
    requires TracksRunning(openTool, calls, r.running) && Ids(calls) == Ids(r.answer.calls)
    ensures EndedNext(ended, openTool, act) == ReadAct(r, act).ended <==> (act.Close? ==> StopFits(r, act.index))
  {
    SameIds(calls, r.answer.calls);
    if act.Close? {
      var at := CallAt(r, act.index);
      if r.running && at.Some? && at.value != |calls| - 1 {
        assert Ids(r.answer.calls)[at.value] != Ids(r.answer.calls)[|calls| - 1];
      }
    } else {
      EndedAfter(r, act);
    }
  }

  lemma EndedAfter(r: Reading, act: Act)
    ensures ReadAct(r, act).ended == if act.Close? then r.ended + Ends(r, act.index) else r.ended
    ensures ReadAct(r, act).stopsFit == (r.stopsFit && (act.Close? ==> StopFits(r, act.index)))
  {
    match act
    case Open(_, _, _) =>
    case Add(_, _) =>
    case Say(_, _) =>
    case Close(_) =>
    case Bill(_) =>
    case _ =>
  }

  ghost predicate EndsAgree(names: NameMap, ids: Spellings, messages: seq<Message>) {
    EndedIds(RelayMessages(names, ids, messages).events) == ReadMessages(names, ids, messages).ended
  }

  ghost predicate EndsAgreeThroughout(names: NameMap, ids: Spellings, messages: seq<Message>) {
    EndsAgree(names, ids, messages) && (messages == [] || EndsAgreeThroughout(names, ids, messages[..|messages| - 1]))
  }

  /** After every message the calls the parser has ended are those whose own block has stopped,
      exactly when every stop fits: it names the block of the call running, or, with none running,
      no call still to end. */
  lemma {:induction false} EndsAgreeExactlyWhen(names: NameMap, ids: Spellings, messages: seq<Message>)
    requires ReadMessages(names, ids, messages).named
    ensures EndsAgreeThroughout(names, ids, messages) <==> ReadMessages(names, ids, messages).stopsFit
  {
    if messages != [] {
      var init, message := messages[..|messages| - 1], messages[|messages| - 1];
      var r, act := ReadMessages(names, ids, init), ActOf(names, ids, message);
      assert init + [message] == messages;
      NamedBefore(r, act);
      EndsAgreeExactlyWhen(names, ids, init);
      EndedAfter(r, act);
      if EndsAgree(names, ids, init) {
        StepAgrees(names, ids, init, message);
      } else {
        assert !EndsAgreeThroughout(names, ids, init);
      }
    }
  }

  lemma StepAgrees(names: NameMap, ids: Spellings, messages: seq<Message>, message: Message)
    requires ReadMessages(names, ids, messages).named && EndsAgree(names, ids, messages)
    ensures var r, act := ReadMessages(names, ids, messages), ActOf(names, ids, message);
            EndsAgree(names, ids, messages + [message]) <==> (act.Close? ==> StopFits(r, act.index))
  {
    var r, act, relay := ReadMessages(names, ids, messages), ActOf(names, ids, message), RelayMessages(names, ids, messages);
    RelayMatches(names, ids, messages);
    EndsHold(names, ids, messages);
    EndedStep(names, ids, messages, message);
    ReadMore(names, ids, messages, message);
    StopEndsItsOwn(EndedIds(relay.events), relay.acc.openTool, Read(relay.events).calls, r, act);
  }

  // ── the stop goes out with its bill, whatever the messages ──────────────────

  function Reports(messages: seq<Message>): seq<Usage> { Gathered(messages, ReportIn) }

  function ReportIn(message: Message): seq<Usage> { if message.Metadata? then [message.usage] else [] }

  /** What one message adds to the answer: a bill, and the ending when a stop was held. */
  lemma MessageBills(ids: Spellings, acc: Acc, a: Answer, message: Message)
    ensures var b := ReadFrom(a, Parsed(ids, acc, message));
            && b.usage == (if message.Metadata? then a.usage.Merge(message.usage) else a.usage)
            && b.ending == (if message.Metadata? && acc.heldStop.Some? && a.ending.None?
                            then Some(Ending(acc.heldStop.value, b.usage)) else a.ending)
  {
    var events := Parsed(ids, acc, message);
    ParsedIs(ids, acc, message);
    if events != [] {
      assert events == [events[0]];
      ReadOne(a, events[0]);
    }
    assert a.usage.Merge(NO_USAGE) == a.usage;
  }

  lemma HeldIs(ids: Spellings, acc: Acc, message: Message)
    ensures ObservedAll(Noted(acc, message), Parsed(ids, acc, message)).heldStop ==
            if message.MessageStop? then Some(ParseStopReason(message.reason)) else if message.Metadata? then None else acc.heldStop
  {
    HeldStep(ids, acc, message);
  }

  /** Where the relay stands on stop and bill. */
  datatype Account = Account(held: Option<StopReason>, usage: Usage, ending: Option<Ending>)

  function AccountOf(names: NameMap, ids: Spellings, messages: seq<Message>): Account {
    var relay := RelayMessages(names, ids, messages);
    Account(relay.acc.heldStop, Read(relay.events).usage, Read(relay.events).ending)
  }

  lemma AccountStep(names: NameMap, ids: Spellings, messages: seq<Message>, message: Message)
    ensures var x, y := AccountOf(names, ids, messages), AccountOf(names, ids, messages + [message]);
            && y.usage == (if message.Metadata? then x.usage.Merge(message.usage) else x.usage)
            && y.held == (if message.MessageStop? then Some(ParseStopReason(message.reason))
                          else if message.Metadata? then None else x.held)
            && y.ending == (if message.Metadata? && x.held.Some? && x.ending.None? then Some(Ending(x.held.value, y.usage))
                            else x.ending)
  {
    var relay := RelayMessages(names, ids, messages);
    RelayMore(names, ids, messages, message);
    MessageBills(ids, relay.acc, Read(relay.events), message);
    HeldIs(ids, relay.acc, message);
  }

  lemma {:induction false} RelayAgrees(names: NameMap, ids: Spellings, messages: seq<Message>)
    ensures Agrees(RelayMessages(names, ids, messages).acc, Read(RelayMessages(names, ids, messages).events))
  {
    if messages != [] {
      assert messages[..|messages| - 1] + [messages[|messages| - 1]] == messages;
      RelayAgrees(names, ids, messages[..|messages| - 1]);
      RelayMore(names, ids, messages[..|messages| - 1], messages[|messages| - 1]);
    }
  }

  lemma {:induction false} BillIsMerged(names: NameMap, ids: Spellings, messages: seq<Message>)
    ensures AccountOf(names, ids, messages).usage == MergeAll(Reports(messages))
  {
    if messages != [] {
      var init, message := messages[..|messages| - 1], messages[|messages| - 1];
      assert init + [message] == messages;
      BillIsMerged(names, ids, init);
      AccountStep(names, ids, init, message);
      GatheredMore(init, message, ReportIn);
    }
  }

  /** Until a stop is announced nothing is held and nothing has ended. */
  lemma {:induction false} NothingHeld(names: NameMap, ids: Spellings, messages: seq<Message>)
    requires forall k :: 0 <= k < |messages| ==> !messages[k].MessageStop?
    ensures AccountOf(names, ids, messages).held.None? && AccountOf(names, ids, messages).ending.None?
  {
    if messages != [] {
      var init, message := messages[..|messages| - 1], messages[|messages| - 1];
      assert init + [message] == messages;
      NothingHeld(names, ids, init);
      AccountStep(names, ids, init, message);
    }
  }

  /** The reason announced last. */
  function LastReason(messages: seq<Message>): Option<StopReason> {
    if messages == [] then None
    else
      var message := messages[|messages| - 1];
      if message.MessageStop? then Some(ParseStopReason(message.reason)) else LastReason(messages[..|messages| - 1])
  }

  /** Until the next bill the stop announced last stays held. */
  lemma {:induction false} StopIsHeld(names: NameMap, ids: Spellings, before: seq<Message>, between: seq<Message>)
    requires forall k :: 0 <= k < |between| ==> !between[k].Metadata?
    ensures var x, y := AccountOf(names, ids, before), AccountOf(names, ids, before + between);
            y.held == (if LastReason(between).Some? then LastReason(between) else x.held) && y.ending == x.ending
  {
    if between == [] {
      assert before + between == before;
    } else {
      var init := between[..|between| - 1];
      StopIsHeld(names, ids, before, init);
      OneMore(before, between, |between| - 1);
      AccountStep(names, ids, before + init, between[|between| - 1]);
    }
  }

  /** Once ended, further messages change nothing about the ending. */
  lemma {:induction false} EndingIsKept(names: NameMap, ids: Spellings, before: seq<Message>, after: seq<Message>)
    requires AccountOf(names, ids, before).ending.Some?
    ensures AccountOf(names, ids, before + after).ending == AccountOf(names, ids, before).ending
  {
    if after == [] {
      assert before + after == before;
    } else {
      var init := after[..|after| - 1];
      EndingIsKept(names, ids, before, init);
      OneMore(before, after, |after| - 1);
      AccountStep(names, ids, before + init, after[|after| - 1]);
    }
  }

  /** The messages from the first stop on, with no bill among them. */
  predicate Awaiting(held: seq<Message>) {
    held != [] && held[0].MessageStop? && forall k :: 0 <= k < |held| ==> !held[k].Metadata?
  }

  lemma {:induction false} AwaitingHasReason(held: seq<Message>)
    requires Awaiting(held)
    ensures LastReason(held).Some?
  {
    if |held| > 1 {
      AwaitingHasReason(held[..|held| - 1]);
    }
  }

  /** As long as no bill has come since the first stop, the stop announced last stays on the accumulator
      and none is passed on. */
  lemma StopWithoutBill(names: NameMap, ids: Spellings, before: seq<Message>, held: seq<Message>)
    requires Awaiting(held) && forall k :: 0 <= k < |before| ==> !before[k].MessageStop?
    ensures var relay := RelayMessages(names, ids, before + held);
            && LastReason(held).Some? && relay.acc.heldStop == LastReason(held)
            && !HasStop(relay.events) && Read(relay.events).ending.None?
  {
    NothingHeld(names, ids, before);
    StopIsHeld(names, ids, before, held);
    AwaitingHasReason(held);
    EndedExactlyWhenStopped(RelayMessages(names, ids, before + held).events);
  }

  /** For every message sequence whatever in which a bill follows a stop: one terminal frame goes out,
      with the reason announced last before that bill and the merge of the reports up to it; the
      accumulator bills the merge of all reports; and the two bills are equal exactly when nothing
      reported later exceeds what was shown: always, when the metadata comes last. */
  lemma BillShownExactlyWhen(names: NameMap, ids: Spellings, model: Text, before: seq<Message>, held: seq<Message>,
                             bill: Message, after: seq<Message>)
    requires Awaiting(held) && bill.Metadata? && forall k :: 0 <= k < |before| ==> !before[k].MessageStop?
    ensures var until := before + held + [bill];
            var relay, shown := RelayMessages(names, ids, until + after), MergeAll(Reports(until));
            && LastReason(held).Some?
            && AnthropicTheorems.Terminals(AnthropicStream.RunFrames(AnthropicStream.Fresh(model), relay.events)) ==
               [AnthropicStream.MessageDelta(LastReason(held).value, shown)]
            && relay.acc.usage == MergeAll(Reports(until + after))
            && (shown == relay.acc.usage <==> forall r :: r in Reports(after) ==> r.AtMost(shown))
  {
    var until := before + held + [bill];
    StopWithoutBill(names, ids, before, held);
    AccountStep(names, ids, before + held, bill);
    BillIsMerged(names, ids, until);
    EndingIsKept(names, ids, until, after);
    BillIsMerged(names, ids, until + after);
    RelayAgrees(names, ids, until + after);
    GatheredConcat(until, after, ReportIn);
    LaterReports(Reports(until), Reports(after));
    AnthropicTheorems.TerminalFrameIsTheEnding(model, RelayMessages(names, ids, until + after).events);
  }

  /** The word announced last. */
  function LastWord(messages: seq<Message>): Option<string> {
    if messages == [] then None
    else if messages[|messages| - 1].MessageStop? then Some(messages[|messages| - 1].reason)
    else LastWord(messages[..|messages| - 1])
  }

  lemma {:induction false} ReasonIsOfTheWord(messages: seq<Message>)
    ensures LastReason(messages) == if LastWord(messages).Some? then Some(ParseStopReason(LastWord(messages).value)) else None
  {
    if messages != [] {
      ReasonIsOfTheWord(messages[..|messages| - 1]);
    }
  }

  ghost predicate ReasonFits(reason: StopReason, word: string) {
    && (reason == StopReason.ToolUse <==> word == "tool_use")
    && (reason == MaxTokens <==> word == "max_tokens" || word == "model_context_window_exceeded")
    && (reason == StopSequence <==> word == "stop_sequence")
    && (reason == StopReason.Refusal <==> word == "guardrail_intervened" || word == "content_filtered")
  }

  lemma WordsDecide(word: string)
    ensures ReasonFits(ParseStopReason(word), word)
  {
  }

  /** The reason in the terminal frame, on the word of the `messageStop` that came last before the bill. */
  lemma EndingOnWords(names: NameMap, ids: Spellings, model: Text, before: seq<Message>, held: seq<Message>,
                      bill: Message, after: seq<Message>)
    requires Awaiting(held) && bill.Metadata? && forall k :: 0 <= k < |before| ==> !before[k].MessageStop?
    ensures LastWord(held).Some?
    ensures var relay := RelayMessages(names, ids, before + held + [bill] + after);
            var ends := AnthropicTheorems.Terminals(AnthropicStream.RunFrames(AnthropicStream.Fresh(model), relay.events));
            |ends| == 1 && ends[0].MessageDelta? && ReasonFits(ends[0].reason, LastWord(held).value)
  {
    BillShownExactlyWhen(names, ids, model, before, held, bill, after);
    ReasonIsOfTheWord(held);
    WordsDecide(LastWord(held).value);
  }
}
