/** The hub every dialect is translated through (`crates/oag-proto/src/stream.rs`): canonical
    stream events, and what an event run amounts to.

    `Answer` is the meaning of a run: the text, the reasoning, each tool call with its argument
    fragments run together, and how it ended. Every parser and renderer is judged by it. */
module Hub {
  import opened Bytes
  import opened TokenUsage

  datatype StopReason = EndTurn | MaxTokens | StopSequence | ToolUse | Refusal

  datatype StreamEvent =
    | Start(model: Text, usage: Usage)
    | TextDelta(text: Text)
    | ThinkingDelta(text: Text)
    | ToolUseStart(id: Text, name: Text)
    | ToolUseDelta(id: Text, partialJson: Text)
    | ToolUseEnd(id: Text)
    | UsageUpdate(usage: Usage)
    | Stop(reason: StopReason, usage: Usage)
    | Error(message: Text)

  // ── the meaning of a run ────────────────────────────────────────────────────

  datatype Call = Call(id: Text, name: Text, args: Text)

  datatype Ending = Ending(reason: StopReason, usage: Usage)

  datatype Answer = Answer(text: Text, thinking: Text, calls: seq<Call>, usage: Usage, ending: Option<Ending>)

  const NOTHING: Answer := Answer([], [], [], NO_USAGE, None)

  function Ids(calls: seq<Call>): (r: seq<Text>)
    ensures |r| == |calls| && forall i :: 0 <= i < |calls| ==> r[i] == calls[i].id
  {
    seq(|calls|, i requires 0 <= i < |calls| => calls[i].id)
  }

  /** The id of the call opened last. */
  function LastId(calls: seq<Call>): Text
    requires calls != []
  {
    calls[|calls| - 1].id
  }

  /** The first position of `id`, or the length when it is absent. */
  function Position(ids: seq<Text>, id: Text): (at: nat)
    ensures at <= |ids| && (at < |ids| <==> id in ids)
    ensures at < |ids| ==> ids[at] == id
    ensures forall i :: 0 <= i < at ==> ids[i] != id
  {
    if ids == [] then 0 else if ids[0] == id then 0 else 1 + Position(ids[1..], id)
  }

  /** The fragment run onto the arguments of the call it names; one that names no call is lost. */
  function AddFragment(calls: seq<Call>, id: Text, fragment: Text): (r: seq<Call>)
    ensures |r| == |calls|
  {
    var at := Position(Ids(calls), id);
    if at < |calls| then calls[at := calls[at].(args := calls[at].args + fragment)] else calls
  }

  function Observe(a: Answer, e: StreamEvent): Answer {
    match e
    case Start(_, usage) => a.(usage := a.usage.Merge(usage))
    case UsageUpdate(usage) => a.(usage := a.usage.Merge(usage))
    case TextDelta(text) => a.(text := a.text + text)
    case ThinkingDelta(text) => a.(thinking := a.thinking + text)
    case ToolUseStart(id, name) => a.(calls := a.calls + [Call(id, name, [])])
    case ToolUseDelta(id, fragment) => a.(calls := AddFragment(a.calls, id, fragment))
    case Stop(reason, usage) =>
      var merged := a.usage.Merge(usage);
      a.(usage := merged, ending := if a.ending.None? then Some(Ending(reason, merged)) else a.ending)
    case _ => a
  }

  function ReadFrom(a: Answer, events: seq<StreamEvent>): Answer {
    if events == [] then a else Observe(ReadFrom(a, events[..|events| - 1]), events[|events| - 1])
  }

  function Read(events: seq<StreamEvent>): Answer { ReadFrom(NOTHING, events) }

  lemma {:induction false} ReadConcat(a: Answer, x: seq<StreamEvent>, y: seq<StreamEvent>)
    ensures ReadFrom(a, x + y) == ReadFrom(ReadFrom(a, x), y)
    decreases |y|
  {
    if y == [] {
      assert x + y == x;
    } else {
      assert (x + y)[..|x + y| - 1] == x + y[..|y| - 1];
      ReadConcat(a, x, y[..|y| - 1]);
    }
  }

  lemma ReadOne(a: Answer, e: StreamEvent)
    ensures ReadFrom(a, [e]) == Observe(a, e)
  {
    assert [e][..0] == [];
    assert ReadFrom(a, []) == a;
  }

  /** What has ended stays ended as it did. */
  lemma {:induction false} EndingStands(a: Answer, events: seq<StreamEvent>)
    requires a.ending.Some?
    ensures ReadFrom(a, events).ending == a.ending
  {
    if events != [] {
      EndingStands(a, events[..|events| - 1]);
    }
  }

  lemma FragmentObserved(a: Answer, id: Text, fragment: Text)
    ensures Observe(a, ToolUseDelta(id, fragment)) == a.(calls := AddFragment(a.calls, id, fragment))
  {
  }

  // ── the bill of a run ───────────────────────────────────────────────────────

  predicate Reporting(e: StreamEvent) { e.Start? || e.UsageUpdate? || e.Stop? }

  /** The usage reports of a run, in order. */
  function ReportsOf(events: seq<StreamEvent>): seq<Usage> {
    if events == [] then []
    else
      var e := events[|events| - 1];
      ReportsOf(events[..|events| - 1]) + if Reporting(e) then [e.usage] else []
  }

  /** The bill of a run is the merge of its reports. */
  lemma {:induction false} BillOfRun(events: seq<StreamEvent>)
    ensures Read(events).usage == MergeAll(ReportsOf(events))
  {
    if events != [] {
      var init, e := events[..|events| - 1], events[|events| - 1];
      BillOfRun(init);
      if Reporting(e) {
        MergeMore(ReportsOf(init), e.usage);
      } else {
        assert ReportsOf(events) == ReportsOf(init);
      }
    }
  }

  /** Events that report nothing leave bill and ending alone. */
  lemma {:induction false} UnreportedRun(a: Answer, events: seq<StreamEvent>)
    requires forall k :: 0 <= k < |events| ==> !Reporting(events[k])
    ensures ReadFrom(a, events).usage == a.usage && ReadFrom(a, events).ending == a.ending
  {
    if events != [] {
      UnreportedRun(a, events[..|events| - 1]);
    }
  }

  lemma PositionUnique(ids: seq<Text>, i: nat)
    requires Distinct(ids) && i < |ids|
    ensures Position(ids, ids[i]) == i
  {
  }

  /** Taking one of distinct ids out. */
  lemma RemovingAt(ids: seq<Text>, rest: seq<Text>, at: nat)
    requires Distinct(ids) && at < |ids| && |rest| == |ids| - 1
    requires forall k :: 0 <= k < |rest| ==> rest[k] == ids[if k < at then k else k + 1]
    ensures Distinct(rest)
    ensures forall x :: x in rest <==> x in ids && x != ids[at]
  {
    forall x | x in ids && x != ids[at] ensures x in rest {
      var k :| 0 <= k < |ids| && ids[k] == x;
      assert rest[if k < at then k else k - 1] == x;
    }
  }

  lemma AddFragmentKeepsIds(calls: seq<Call>, id: Text, fragment: Text)
    ensures Ids(AddFragment(calls, id, fragment)) == Ids(calls)
  {
  }

  // ── conditions on a run ─────────────────────────────────────────────────────

  predicate IsContent(e: StreamEvent) { e.TextDelta? || e.ThinkingDelta? || e.ToolUseStart? }

  predicate HasStop(events: seq<StreamEvent>) {
    exists i :: 0 <= i < |events| && events[i].Stop?
  }

  /** No text, reasoning or new call follows the first stop. */
  predicate NoContentAfterStop(events: seq<StreamEvent>) {
    forall i, j :: 0 <= i < j < |events| && events[i].Stop? ==> !IsContent(events[j])
  }

  /** Calls open under distinct ids, and every fragment names a call already opened. */
  ghost predicate WellNamed(events: seq<StreamEvent>)
    decreases |events|
  {
    events == [] ||
    var init, last := events[..|events| - 1], events[|events| - 1];
    && WellNamed(init)
    && (last.ToolUseStart? ==> last.id !in Ids(Read(init).calls))
    && (last.ToolUseDelta? ==> last.id in Ids(Read(init).calls))
  }

  /** The calls still able to take fragments: opened, not ended, and with no text since. */
  function OpenCalls(events: seq<StreamEvent>): set<Text>
    decreases |events|
  {
    if events == [] then {} else OpenAfter(OpenCalls(events[..|events| - 1]), events[|events| - 1])
  }

  function OpenAfter(open: set<Text>, e: StreamEvent): set<Text> {
    match e
    case TextDelta(_) => {}
    case ThinkingDelta(_) => {}
    case ToolUseStart(id, _) => open + {id}
    case ToolUseEnd(id) => open - {id}
    case Stop(_, _) => {}
    case _ => open
  }

  /** Every fragment that says anything arrives while its call is still open. */
  predicate Timely(events: seq<StreamEvent>)
    decreases |events|
  {
    events == [] ||
    var init, last := events[..|events| - 1], events[|events| - 1];
    && Timely(init)
    && (last.ToolUseDelta? && last.partialJson != [] ==> last.id in OpenCalls(init))
  }

  lemma {:induction false} WellNamedIds(events: seq<StreamEvent>)
    requires WellNamed(events)
    ensures Distinct(Ids(Read(events).calls))
  {
    if events != [] {
      var init := events[..|events| - 1];
      WellNamedIds(init);
      if events[|events| - 1].ToolUseDelta? {
        AddFragmentKeepsIds(Read(init).calls, events[|events| - 1].id, events[|events| - 1].partialJson);
      }
    }
  }

  /** A run has ended exactly when it has stopped. */
  lemma {:induction false} EndedExactlyWhenStopped(events: seq<StreamEvent>)
    ensures Read(events).ending.Some? <==> HasStop(events)
  {
    if events != [] {
      EndedExactlyWhenStopped(events[..|events| - 1]);
      NoContentStep(events);
    }
  }

  // ── the same conditions, kept by an automaton ───────────────────────────────

  /** Everything a run is judged by, gathered event by event. */
  datatype Monitor = Monitor(
    answer: Answer,
    open: set<Text>,
    wellNamed: bool,
    timely: bool,
    stopped: bool,
    quiet: bool)

  const UNWATCHED: Monitor := Monitor(NOTHING, {}, true, true, false, true)

  function MonitorStep(m: Monitor, e: StreamEvent): Monitor {
    Monitor(
      Observe(m.answer, e),
      OpenAfter(m.open, e),
      && m.wellNamed
      && (e.ToolUseStart? ==> e.id !in Ids(m.answer.calls))
      && (e.ToolUseDelta? ==> e.id in Ids(m.answer.calls)),
      m.timely && (e.ToolUseDelta? && e.partialJson != [] ==> e.id in m.open),
      m.stopped || e.Stop?,
      m.quiet && !(m.stopped && IsContent(e)))
  }

  function MonitorRun(m: Monitor, events: seq<StreamEvent>): Monitor {
    if events == [] then m else MonitorStep(MonitorRun(m, events[..|events| - 1]), events[|events| - 1])
  }

  lemma {:induction false} MonitorConcat(m: Monitor, x: seq<StreamEvent>, y: seq<StreamEvent>)
    ensures MonitorRun(m, x + y) == MonitorRun(MonitorRun(m, x), y)
    decreases |y|
  {
    if y == [] {
      assert x + y == x;
    } else {
      assert (x + y)[..|x + y| - 1] == x + y[..|y| - 1];
      MonitorConcat(m, x, y[..|y| - 1]);
    }
  }

  lemma MonitorOne(m: Monitor, e: StreamEvent)
    ensures MonitorRun(m, [e]) == MonitorStep(m, e)
  {
    assert [e][..0] == [];
    assert MonitorRun(m, []) == m;
  }

  lemma {:induction false} MonitorMeans(events: seq<StreamEvent>)
    ensures MonitorRun(UNWATCHED, events) ==
            Monitor(Read(events), OpenCalls(events), WellNamed(events), Timely(events), HasStop(events),
                    NoContentAfterStop(events))
    decreases |events|
  {
    if events != [] {
      MonitorMeans(events[..|events| - 1]);
      NoContentStep(events);
    }
  }

  lemma MonitorMore(m: Monitor, events: seq<StreamEvent>, e: StreamEvent)
    ensures MonitorRun(m, events + [e]) == MonitorStep(MonitorRun(m, events), e)
  {
    MonitorConcat(m, events, [e]);
    MonitorOne(MonitorRun(m, events), e);
  }

  function Opening(c: Call): StreamEvent { ToolUseStart(c.id, c.name) }

  /** Two calls opened one behind the other. */
  lemma TwoOpenings(a: Call, b: Call)
    requires a.id != b.id && a.args == [] == b.args
    ensures MonitorRun(UNWATCHED, [Opening(a), Opening(b)]) ==
            UNWATCHED.(answer := NOTHING.(calls := [a, b]), open := {a.id, b.id})
  {
    assert [Opening(a), Opening(b)] == [Opening(a)] + [Opening(b)];
    MonitorOne(UNWATCHED, Opening(a));
    MonitorMore(UNWATCHED, [Opening(a)], Opening(b));
    FirstOpening(a);
    SecondOpening(a, b);
  }

  lemma FirstOpening(a: Call)
    requires a.args == []
    ensures MonitorStep(UNWATCHED, Opening(a)) == UNWATCHED.(answer := NOTHING.(calls := [a]), open := {a.id})
  {
  }

  lemma SecondOpening(a: Call, b: Call)
    requires a.id != b.id && b.args == []
    ensures MonitorStep(UNWATCHED.(answer := NOTHING.(calls := [a]), open := {a.id}), Opening(b)) ==
            UNWATCHED.(answer := NOTHING.(calls := [a, b]), open := {a.id, b.id})
  {
    assert Ids([a]) == [a.id];
    assert [a] + [b] == [a, b];
  }

  lemma NoContentStep(events: seq<StreamEvent>)
    requires events != []
    ensures var init, last := events[..|events| - 1], events[|events| - 1];
            && (NoContentAfterStop(events) <==> NoContentAfterStop(init) && !(HasStop(init) && IsContent(last)))
            && (HasStop(events) <==> HasStop(init) || last.Stop?)
  {
    var init, last := events[..|events| - 1], events[|events| - 1];
    assert forall i :: 0 <= i < |init| ==> init[i] == events[i];
    if HasStop(init) {
      var i :| 0 <= i < |init| && init[i].Stop?;
      assert events[i].Stop?;
    }
  }
}
