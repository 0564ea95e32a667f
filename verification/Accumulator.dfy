/** State carried across the events of one response
    (`StreamAccumulator` in `crates/oag-proto/src/stream.rs`). */
module Accumulator {
  import opened Bytes
  import opened TokenUsage
  import opened Hub
  import opened FunctionNames

  /** What has arrived of one call's arguments. */
  datatype Buffer = Buffer(id: Text, args: Text)

  datatype Acc = Acc(
    usage: Usage,
    committed: bool,
    textLen: nat,
    toolCalls: nat,
    stopReason: Option<StopReason>,
    buffers: seq<Buffer>,
    openTool: Option<Text>,
    unparsed: bool,
    sawRefusal: bool,
    heldStop: Option<StopReason>,
    names: NameMap)

  function Begun(names: NameMap): Acc {
    Acc(NO_USAGE, false, 0, 0, None, [], None, false, false, None, names)
  }

  function ToolIds(buffers: seq<Buffer>): (r: seq<Text>)
    ensures |r| == |buffers| && forall i :: 0 <= i < |buffers| ==> r[i] == buffers[i].id
  {
    seq(|buffers|, i requires 0 <= i < |buffers| => buffers[i].id)
  }

  function Observed(acc: Acc, e: StreamEvent): Acc {
    match e
    case Start(_, usage) => acc.(usage := acc.usage.Merge(usage))
    case UsageUpdate(usage) => acc.(usage := acc.usage.Merge(usage))
    case Stop(reason, usage) => acc.(usage := acc.usage.Merge(usage), stopReason := Some(reason))
    case TextDelta(text) => acc.(textLen := acc.textLen + |text|)
    case ThinkingDelta(text) => acc.(textLen := acc.textLen + |text|)
    case ToolUseStart(id, _) =>
      acc.(toolCalls := acc.toolCalls + 1, buffers := acc.buffers + [Buffer(id, [])], openTool := Some(id))
    case ToolUseDelta(id, fragment) =>
      var at := Position(ToolIds(acc.buffers), id);
      if at < |acc.buffers|
      then acc.(buffers := acc.buffers[at := Buffer(id, acc.buffers[at].args + fragment)]) else acc
    case ToolUseEnd(_) => acc.(openTool := None)
    case Error(_) => acc
  }

  function ObservedAll(acc: Acc, events: seq<StreamEvent>): Acc {
    if events == [] then acc else Observed(ObservedAll(acc, events[..|events| - 1]), events[|events| - 1])
  }

  /** The call that fragments without an id of their own go to: the last one opened. */
  function CurrentTool(acc: Acc): Text { if acc.buffers == [] then [] else acc.buffers[|acc.buffers| - 1].id }

  /** A stream folded in so far: the accumulator, and every event read. */
  datatype Relay = Relay(acc: Acc, events: seq<StreamEvent>)

  /** One more payload: its events observed by the accumulator its parser left. */
  function Relayed(before: Relay, noted: Acc, events: seq<StreamEvent>): Relay {
    Relay(ObservedAll(noted, events), before.events + events)
  }

  class StreamAccumulator {
    var usage: Usage
    var committed: bool
    var textLen: nat
    var toolCalls: nat
    var stopReason: Option<StopReason>
    var buffers: seq<Buffer>
    var openTool: Option<Text>
    var unparsed: bool
    var sawRefusal: bool
    var heldStop: Option<StopReason>
    const names: NameMap

    ghost function View(): Acc
      reads this
    {
      Acc(usage, committed, textLen, toolCalls, stopReason, buffers, openTool, unparsed, sawRefusal, heldStop, names)
    }

    constructor (names: NameMap)
      ensures View() == Begun(names)
    {
      this.names := names;
      usage, committed, textLen, toolCalls := NO_USAGE, false, 0, 0;
      stopReason, buffers, openTool := None, [], None;
      unparsed, sawRefusal, heldStop := false, false, None;
    }

    method Observe(e: StreamEvent)
      modifies this
      ensures View() == old(Observed(View(), e))
    {
      match e {
        case Start(_, reported) => usage := usage.Merge(reported);
        case UsageUpdate(reported) => usage := usage.Merge(reported);
        case Stop(reason, reported) =>
          usage := usage.Merge(reported);
          stopReason := Some(reason);
        case TextDelta(text) => textLen := textLen + |text|;
        case ThinkingDelta(text) => textLen := textLen + |text|;
        case ToolUseStart(id, _) =>
          toolCalls := toolCalls + 1;
          buffers := buffers + [Buffer(id, [])];
          openTool := Some(id);
        case ToolUseDelta(id, fragment) =>
          var at := FindBuffer(id);
          if at < |buffers| {
            buffers := buffers[at := Buffer(id, buffers[at].args + fragment)];
          }
        case ToolUseEnd(_) => openTool := None;
        case Error(_) =>
      }
    }

    /** The first buffer under `id`, or the number of buffers. */
    method FindBuffer(id: Text) returns (at: nat)
      ensures at == Position(ToolIds(buffers), id)
    {
      at := 0;
      while at < |buffers| && buffers[at].id != id
        invariant at <= |buffers|
        invariant forall k :: 0 <= k < at ==> ToolIds(buffers)[k] != id
      {
        at := at + 1;
      }
      assert at < |buffers| ==> ToolIds(buffers)[at] == id;
    }

    method NoteRefusal()
      modifies this`sawRefusal
      ensures View() == old(View()).(sawRefusal := true)
    {
      sawRefusal := true;
    }

    method HoldStop(reason: StopReason)
      modifies this`heldStop
      ensures View() == old(View()).(heldStop := Some(reason))
    {
      heldStop := Some(reason);
    }

    /** Hand over the stop being held, leaving none. */
    method TakeHeldStop() returns (reason: Option<StopReason>)
      modifies this`heldStop
      ensures reason == old(heldStop) && View() == old(View()).(heldStop := None)
    {
      reason := heldStop;
      heldStop := None;
    }
  }

  // ── what the accumulator holds, in terms of the run ─────────────────────────

  /** The accumulator agrees with the run's answer: one buffer per call, in order, holding its
      arguments; the bill; and whether anything was said. */
  ghost predicate Agrees(acc: Acc, a: Answer) {
    && acc.usage == a.usage
    && acc.toolCalls == |a.calls| == |acc.buffers|
    && (forall i :: 0 <= i < |a.calls| ==> acc.buffers[i] == Buffer(a.calls[i].id, a.calls[i].args))
    && acc.textLen == |a.text| + |a.thinking|
  }

  lemma AgreementStep(acc: Acc, a: Answer, e: StreamEvent)
    requires Agrees(acc, a)
    ensures Agrees(Observed(acc, e), Hub.Observe(a, e))
  {
    match e
    case ToolUseDelta(id, fragment) => FragmentAgrees(acc, a, id, fragment);
    case ToolUseStart(_, _) =>
    case _ =>
  }

  lemma FragmentAgrees(acc: Acc, a: Answer, id: Text, fragment: Text)
    requires Agrees(acc, a)
    ensures Agrees(Observed(acc, ToolUseDelta(id, fragment)), a.(calls := AddFragment(a.calls, id, fragment)))
  {
    assert ToolIds(acc.buffers) == Ids(a.calls);
  }

  lemma {:induction false} AgreementHolds(acc: Acc, a: Answer, events: seq<StreamEvent>)
    requires Agrees(acc, a)
    ensures Agrees(ObservedAll(acc, events), ReadFrom(a, events))
    decreases |events|
  {
    if events != [] {
      AgreementHolds(acc, a, events[..|events| - 1]);
      AgreementStep(ObservedAll(acc, events[..|events| - 1]), ReadFrom(a, events[..|events| - 1]), events[|events| - 1]);
    }
  }

  lemma CurrentIsLast(acc: Acc, a: Answer)
    requires Agrees(acc, a)
    ensures a.calls != [] ==> CurrentTool(acc) == LastId(a.calls)
  {
  }

  lemma RelayedReads(before: Relay, noted: Acc, events: seq<StreamEvent>)
    ensures var after := Relayed(before, noted, events);
            && Read(after.events) == ReadFrom(Read(before.events), events)
            && (Agrees(noted, Read(before.events)) ==> Agrees(after.acc, Read(after.events)))
  {
    ReadConcat(NOTHING, before.events, events);
    if Agrees(noted, Read(before.events)) {
      AgreementHolds(noted, Read(before.events), events);
    }
  }

  /** What observing never touches. */
  ghost predicate SameNotes(x: Acc, y: Acc) {
    x.names == y.names && x.sawRefusal == y.sawRefusal && x.heldStop == y.heldStop && x.unparsed == y.unparsed
  }

  lemma NotesStep(acc: Acc, e: StreamEvent)
    ensures SameNotes(Observed(acc, e), acc)
  {
  }

  lemma {:induction false} NotesHold(acc: Acc, events: seq<StreamEvent>)
    ensures SameNotes(ObservedAll(acc, events), acc)
  {
    if events != [] {
      NotesHold(acc, events[..|events| - 1]);
      NotesStep(ObservedAll(acc, events[..|events| - 1]), events[|events| - 1]);
    }
  }

  // ── the accumulated bill ────────────────────────────────────────────────────

  /** Over every run, the accumulated bill is the per-field maximum of the usage its events report,
      and the least usage that covers them all. */
  lemma BillIsMaximum(names: NameMap, events: seq<StreamEvent>, bound: Usage)
    ensures var bill, reports := ObservedAll(Begun(names), events).usage, ReportsOf(events);
            && IsBill((set r | r in reports), bill)
            && (bill.AtMost(bound) <==> forall r :: r in reports ==> r.AtMost(bound))
  {
    AgreementHolds(Begun(names), NOTHING, events);
    BillOfRun(events);
    MergeAllIsBill(ReportsOf(events));
    BillIsLeast(ReportsOf(events), bound);
  }

  /** Two runs that report the same, however often and in whatever order, leave the same bill. */
  lemma BillIgnoresOrderAndRepeats(names: NameMap, x: seq<StreamEvent>, names': NameMap, y: seq<StreamEvent>)
    requires (set r | r in ReportsOf(x)) == (set r | r in ReportsOf(y))
    ensures ObservedAll(Begun(names), x).usage == ObservedAll(Begun(names'), y).usage
  {
    AgreementHolds(Begun(names), NOTHING, x);
    AgreementHolds(Begun(names'), NOTHING, y);
    BillOfRun(x);
    BillOfRun(y);
    MergeAllIsBill(ReportsOf(x));
    MergeAllIsBill(ReportsOf(y));
  }

  // ── the quality gate ────────────────────────────────────────────────────────

  datatype Gate = EmptyResponse | Refused | Truncated | MalformedToolCall

  /** Arguments that are not blank and do not parse. */
  predicate Malformed(args: Text, blank: Text -> bool, parses: Text -> bool) {
    !blank(args) && !parses(args)
  }

  function QualityGate(acc: Acc, blank: Text -> bool, parses: Text -> bool): Option<Gate> {
    if acc.unparsed then None
    else if acc.textLen == 0 && acc.toolCalls == 0 then Some(EmptyResponse)
    else if acc.stopReason == Some(StopReason.Refusal) then Some(Refused)
    else if acc.stopReason == Some(MaxTokens) then Some(Truncated)
    else if exists b :: b in acc.buffers && Malformed(b.args, blank, parses) then Some(MalformedToolCall)
    else None
  }

  /** The reason of the run's last stop. */
  function LastStop(events: seq<StreamEvent>): Option<StopReason> {
    if events == [] then None
    else if events[|events| - 1].Stop? then Some(events[|events| - 1].reason)
    else LastStop(events[..|events| - 1])
  }

  lemma StopStep(acc: Acc, e: StreamEvent)
    ensures Observed(acc, e).stopReason == if e.Stop? then Some(e.reason) else acc.stopReason
  {
  }

  lemma {:induction false} StopIsLast(acc: Acc, events: seq<StreamEvent>)
    ensures ObservedAll(acc, events).stopReason == if LastStop(events).Some? then LastStop(events) else acc.stopReason
  {
    if events != [] {
      StopIsLast(acc, events[..|events| - 1]);
      StopStep(ObservedAll(acc, events[..|events| - 1]), events[|events| - 1]);
    }
  }

  ghost predicate AnyMalformed(calls: seq<Call>, blank: Text -> bool, parses: Text -> bool) {
    exists i :: 0 <= i < |calls| && Malformed(calls[i].args, blank, parses)
  }

  lemma BuffersAreArguments(acc: Acc, a: Answer, blank: Text -> bool, parses: Text -> bool)
    requires Agrees(acc, a)
    ensures (exists b :: b in acc.buffers && Malformed(b.args, blank, parses)) <==> AnyMalformed(a.calls, blank, parses)
  {
    if AnyMalformed(a.calls, blank, parses) {
      var i :| 0 <= i < |a.calls| && Malformed(a.calls[i].args, blank, parses);
      assert acc.buffers[i] in acc.buffers;
    }
  }

  /** The gate judges the answer the run amounts to and its last stop, each fault only where none
      before it applies: nothing said at all, a refusal, a truncation, and last some call whose
      whole argument string is malformed. */
  lemma GateJudgesTheAnswer(names: NameMap, events: seq<StreamEvent>, blank: Text -> bool, parses: Text -> bool)
    ensures var acc, a, stop := ObservedAll(Begun(names), events), Read(events), LastStop(events);
            var gate := QualityGate(acc, blank, parses);
            var said := a.text != [] || a.thinking != [] || a.calls != [];
            && acc.usage == a.usage
            && (gate == Some(EmptyResponse) <==> !said)
            && (gate == Some(Refused) <==> said && stop == Some(StopReason.Refusal))
            && (gate == Some(Truncated) <==> said && stop == Some(MaxTokens))
            && (gate == Some(MalformedToolCall) <==>
                said && stop != Some(StopReason.Refusal) && stop != Some(MaxTokens) && AnyMalformed(a.calls, blank, parses))
  {
    AgreementHolds(Begun(names), NOTHING, events);
    NotesHold(Begun(names), events);
    StopIsLast(Begun(names), events);
    BuffersAreArguments(ObservedAll(Begun(names), events), Read(events), blank, parses);
  }
}
