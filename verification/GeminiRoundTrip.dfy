/** Canonical events rendered as Gemini frames and read back: what is recovered of any run, and what
    of the bill. */
module GeminiRoundTrip {
  import opened Bytes
  import opened TokenUsage
  import opened Hub
  import opened JsonTree
  import opened Accumulator
  import opened GeminiStream
  import opened GeminiTheorems

  // ── frames read one on top of another ───────────────────────────────────────

  /** At most one frame, read on top of what was read before. */
  function ReadMore(codec: Codec, b: Answer, frames: seq<Frame>): Answer {
    if frames == [] then b else ReadFrom(b, Parsed(codec, frames[0], |b.calls|))
  }

  function ReadFrames(codec: Codec, frames: seq<Frame>): Answer {
    if frames == [] then NOTHING
    else ReadMore(codec, ReadFrames(codec, frames[..|frames| - 1]), [frames[|frames| - 1]])
  }

  lemma ReadFramesAppend(codec: Codec, frames: seq<Frame>, more: seq<Frame>)
    requires |more| <= 1
    ensures ReadFrames(codec, frames + more) == ReadMore(codec, ReadFrames(codec, frames), more)
  {
    if more == [] {
      assert frames + more == frames;
    } else {
      assert (frames + more)[..|frames|] == frames && [more[0]] == more;
    }
  }

  /** The ordinals the accumulator counts are the calls read so far, so folding frames in through it
      amounts to reading them one on top of another. */
  lemma {:induction false} RelayReads(codec: Codec, frames: seq<Frame>)
    ensures Read(RelayFrames(codec, frames).events) == ReadFrames(codec, frames)
    ensures Agrees(RelayFrames(codec, frames).acc, ReadFrames(codec, frames))
  {
    if frames != [] {
      var init, frame := frames[..|frames| - 1], frames[|frames| - 1];
      RelayReads(codec, init);
      var before, b := RelayFrames(codec, init), ReadFrames(codec, init);
      var events := Parsed(codec, frame, |b.calls|);
      ReadConcat(NOTHING, before.events, events);
      AgreementHolds(before.acc, b, events);
    }
  }

  lemma {:induction false} UsageApart(b: Answer, usage: Usage, events: seq<StreamEvent>)
    requires forall k :: 0 <= k < |events| ==> !Reporting(events[k])
    ensures ReadFrom(b.(usage := usage), events) == ReadFrom(b, events).(usage := usage)
  {
    if events != [] {
      UsageApart(b, usage, events[..|events| - 1]);
    }
  }

  lemma {:induction false} PartsReportNothing(codec: Codec, parts: seq<Part>, prior: nat)
    ensures forall k :: 0 <= k < |PartsEvents(codec, parts, prior)| ==> !Reporting(PartsEvents(codec, parts, prior)[k])
    decreases |parts|
  {
    if parts != [] {
      PartsReportNothing(codec, parts[1..], prior + CallsIn(parts[0]));
    }
  }

  /** What a rendered frame's usage reads as. */
  function Reported(usage: Usage): Usage { ReadPromptUsage(GeminiUsage(usage)) }

  function Finishing(b: Answer, finish: Option<Finish>, called: bool, usage: Usage): Option<Ending> {
    if b.ending.Some? || finish.None? || finish.value.Empty() then b.ending
    else Some(Ending(FinishReason(finish.value, called), b.usage.Merge(usage)))
  }

  /** One rendered frame: its parts on the words and calls, its usage on the bill, its finish on the
      ending. */
  lemma FrameReads(codec: Codec, b: Answer, usage: Usage, parts: seq<Part>, finish: Option<Finish>)
    ensures ReadFrom(b, Parsed(codec, Says(usage, parts, finish), |b.calls|)) ==
            ReadFrom(b, PartsEvents(codec, parts, |b.calls|)).(
              usage := b.usage.Merge(Reported(usage)),
              ending := Finishing(b, finish, |b.calls| + CallCount(parts) > 0, Reported(usage)))
  {
    var u, p := UsageUpdate(Reported(usage)), PartsEvents(codec, parts, |b.calls|);
    var tail := FinishEvents(finish, |b.calls| + CallCount(parts) > 0, Some(GeminiUsage(usage)));
    assert Parsed(codec, Says(usage, parts, finish), |b.calls|) == [u] + p + tail;
    PartsReportNothing(codec, parts, |b.calls|);
    UsageThenParts(b, Reported(usage), p);
    ReadConcat(b, [u] + p, tail);
    FinishReads(ReadFrom(b, [u] + p), b, finish, |b.calls| + CallCount(parts) > 0, usage);
  }

  lemma UsageThenParts(b: Answer, usage: Usage, p: seq<StreamEvent>)
    requires forall k :: 0 <= k < |p| ==> !Reporting(p[k])
    ensures ReadFrom(b, [UsageUpdate(usage)] + p) == ReadFrom(b, p).(usage := b.usage.Merge(usage))
    ensures ReadFrom(b, p).ending == b.ending
  {
    ReadOne(b, UsageUpdate(usage));
    ReadConcat(b, [UsageUpdate(usage)], p);
    UsageApart(b, b.usage.Merge(usage), p);
    UnreportedRun(b, p);
  }

  lemma FinishReads(c: Answer, b: Answer, finish: Option<Finish>, called: bool, usage: Usage)
    requires c.usage == b.usage.Merge(Reported(usage)) && c.ending == b.ending
    ensures ReadFrom(c, FinishEvents(finish, called, Some(GeminiUsage(usage)))) ==
            c.(ending := Finishing(b, finish, called, Reported(usage)))
  {
    var tail := FinishEvents(finish, called, Some(GeminiUsage(usage)));
    if tail != [] {
      assert tail == [tail[0]];
      ReadOne(c, tail[0]);
      MergeAgain(b.usage, Reported(usage));
    }
  }

  lemma MergeAgain(u: Usage, v: Usage)
    ensures u.Merge(v).Merge(v) == u.Merge(v)
  {
  }

  // ── calls ───────────────────────────────────────────────────────────────────

  /** The call a `functionCall` part reads back as: its ordinal's id, its name, and its arguments
      in the printed form of the value they parsed to. */
  function ReadBack(codec: Codec, call: Call, ordinal: nat): Call {
    Call(CallId(call.name, ordinal), call.name, Printed(codec, call))
  }

  function Printed(codec: Codec, call: Call): Text { codec.print_(codec.ReadArguments(call.args)) }

  function ReadBackAll(codec: Codec, calls: seq<Call>): (r: seq<Call>)
    ensures |r| == |calls|
  {
    if calls == [] then []
    else ReadBackAll(codec, calls[..|calls| - 1]) + [ReadBack(codec, calls[|calls| - 1], |calls| - 1)]
  }

  function NamesOf(calls: seq<Call>): (r: seq<Text>)
    ensures |r| == |calls| && forall k :: 0 <= k < |calls| ==> r[k] == calls[k].name
  {
    seq(|calls|, k requires 0 <= k < |calls| => calls[k].name)
  }

  /** One delivered call on top of those read: it opens under its ordinal's id and its arguments go
      to the first call of that id. */
  function Delivered(codec: Codec, read: seq<Call>, call: Call): seq<Call> {
    var id := CallId(call.name, |read|);
    AddFragment(read + [Call(id, call.name, [])], id, Printed(codec, call))
  }

  function DeliveredAll(codec: Codec, read: seq<Call>, calls: seq<Call>): (r: seq<Call>)
    ensures |r| == |read| + |calls|
    decreases |calls|
  {
    if calls == [] then read else DeliveredAll(codec, Delivered(codec, read, calls[0]), calls[1..])
  }

  lemma {:induction false} DeliveredConcat(codec: Codec, read: seq<Call>, x: seq<Call>, y: seq<Call>)
    ensures DeliveredAll(codec, read, x + y) == DeliveredAll(codec, DeliveredAll(codec, read, x), y)
    decreases |x|
  {
    if x == [] {
      assert x + y == y;
    } else {
      assert (x + y)[0] == x[0] && (x + y)[1..] == x[1..] + y;
      DeliveredConcat(codec, Delivered(codec, read, x[0]), x[1..], y);
    }
  }

  lemma ThreeEvents(b: Answer, x: StreamEvent, y: StreamEvent, z: StreamEvent)
    ensures ReadFrom(b, [x] + [y] + [z]) == Observe(Observe(Observe(b, x), y), z)
  {
    ReadConcat(b, [x] + [y], [z]);
    ReadConcat(b, [x], [y]);
    ReadOne(b, x);
    ReadOne(Observe(b, x), y);
    ReadOne(Observe(Observe(b, x), y), z);
  }

  lemma EndObserved(b: Answer, id: Text)
    ensures Observe(b, ToolUseEnd(id)) == b
  {
  }

  lemma WholeCallReads(b: Answer, id: Text, name: Text, args: Text)
    ensures ReadFrom(b, [ToolUseStart(id, name)] + [ToolUseDelta(id, args)] + [ToolUseEnd(id)]) ==
            b.(calls := AddFragment(b.calls + [Call(id, name, [])], id, args))
  {
    var b1 := b.(calls := b.calls + [Call(id, name, [])]);
    ThreeEvents(b, ToolUseStart(id, name), ToolUseDelta(id, args), ToolUseEnd(id));
    assert Observe(b, ToolUseStart(id, name)) == b1;
    FragmentObserved(b1, id, args);
    EndObserved(Observe(b1, ToolUseDelta(id, args)), id);
  }

  lemma PartReads(codec: Codec, b: Answer, call: Call)
    ensures ReadFrom(b, PartEvents(codec, PartOf(codec, call), |b.calls|)) == b.(calls := Delivered(codec, b.calls, call))
  {
    var id := CallId(call.name, |b.calls|);
    assert PartEvents(codec, PartOf(codec, call), |b.calls|) ==
           [ToolUseStart(id, call.name)] + [ToolUseDelta(id, Printed(codec, call))] + [ToolUseEnd(id)];
    WholeCallReads(b, id, call.name, Printed(codec, call));
  }

  lemma {:induction false} PartsRead(codec: Codec, b: Answer, calls: seq<Call>)
    ensures ReadFrom(b, PartsEvents(codec, PartsOf(codec, calls), |b.calls|)) ==
            b.(calls := DeliveredAll(codec, b.calls, calls))
    decreases |calls|
  {
    if calls != [] {
      var first, rest := calls[0], calls[1..];
      var b' := b.(calls := Delivered(codec, b.calls, first));
      PartReads(codec, b, first);
      PartsRead(codec, b', rest);
      assert PartsOf(codec, calls)[1..] == PartsOf(codec, rest);
      ReadConcat(b, PartEvents(codec, PartOf(codec, first), |b.calls|), PartsEvents(codec, PartsOf(codec, rest), |b'.calls|));
    }
  }

  lemma {:induction false} PartsCount(codec: Codec, calls: seq<Call>)
    ensures |PartsOf(codec, calls)| == |calls| && CallCount(PartsOf(codec, calls)) == |calls|
  {
    if calls != [] {
      PartsCount(codec, calls[1..]);
      assert PartsOf(codec, calls)[1..] == PartsOf(codec, calls[1..]);
    }
  }

  // ── when the ids clash ──────────────────────────────────────────────────────

  lemma NamesMore(calls: seq<Call>, next: Call)
    ensures NamesOf(calls + [next]) == NamesOf(calls) + [next.name]
    ensures IdsFor(NamesOf(calls + [next])) == IdsFor(NamesOf(calls)) + [CallId(next.name, |calls|)]
  {
    assert NamesOf(calls + [next]) == NamesOf(calls) + [next.name];
  }

  lemma ClashesMore(calls: seq<Call>, next: Call)
    ensures Clashes(NamesOf(calls + [next])) <==>
            Clashes(NamesOf(calls)) || (calls != [] && calls[0].name == CallId(next.name, |calls|))
  {
    var names, more := NamesOf(calls), NamesOf(calls + [next]);
    if k :| 1 <= k < |names| && names[0] == CallId(names[k], k) {
      assert more[0] == CallId(more[k], k);
    }
    if calls != [] && calls[0].name == CallId(next.name, |calls|) {
      assert more[0] == CallId(more[|calls|], |calls|);
    }
    if k :| 1 <= k < |more| && more[0] == CallId(more[k], k) {
      assert k < |names| ==> names[0] == CallId(names[k], k);
    }
  }

  /** A new call's id is taken only by the first call, and only when that clashes. */
  lemma TakenExactlyWhen(calls: seq<Call>, next: Call)
    ensures var ids, id := IdsFor(NamesOf(calls)), CallId(next.name, |calls|);
            && (id in ids <==> calls != [] && calls[0].name == id)
            && (id in ids ==> Position(ids, id) == 0)
  {
    var ids, id := IdsFor(NamesOf(calls)), CallId(next.name, |calls|);
    forall k | 1 <= k < |calls| ensures ids[k] != id {
      if ids[k] == id {
        OrdinalsSeparate(calls[k].name, k, next.name, |calls|);
      }
    }
    if calls != [] {
      assert ids[0] == calls[0].name;
    }
  }

  lemma DeliveredIds(codec: Codec, read: seq<Call>, call: Call)
    ensures Ids(Delivered(codec, read, call)) == Ids(read) + [CallId(call.name, |read|)]
  {
    var id := CallId(call.name, |read|);
    var more := read + [Call(id, call.name, [])];
    AddFragmentKeepsIds(more, id, Printed(codec, call));
    assert Ids(more) == Ids(read) + [id];
  }

  lemma DeliveredNew(codec: Codec, read: seq<Call>, call: Call)
    requires CallId(call.name, |read|) !in Ids(read)
    ensures Delivered(codec, read, call) == read + [ReadBack(codec, call, |read|)]
  {
    var id := CallId(call.name, |read|);
    var more := read + [Call(id, call.name, [])];
    assert Ids(more) == Ids(read) + [id];
    assert Position(Ids(more), id) == |read|;
    assert [] + Printed(codec, call) == Printed(codec, call);
  }

  lemma DeliveredTaken(codec: Codec, read: seq<Call>, call: Call)
    requires read != []
    ensures |Delivered(codec, read, call)[0].args| >= |read[0].args|
    ensures CallId(call.name, |read|) == read[0].id && Printed(codec, call) != [] ==>
              |Delivered(codec, read, call)[0].args| > |read[0].args|
  {
    var id := CallId(call.name, |read|);
    var more := read + [Call(id, call.name, [])];
    assert Ids(more)[0] == read[0].id;
  }

  lemma ReadBackMore(codec: Codec, calls: seq<Call>, next: Call)
    ensures ReadBackAll(codec, calls + [next]) == ReadBackAll(codec, calls) + [ReadBack(codec, next, |calls|)]
  {
    assert (calls + [next])[..|calls|] == calls;
  }

  /** How delivered calls read: each as sent while the ids are distinct; from a clash on, the first
      call has more arguments than its own. */
  ghost predicate ReadsAs(codec: Codec, calls: seq<Call>, read: seq<Call>) {
    && Ids(read) == IdsFor(NamesOf(calls)) && |read| == |calls|
    && if !Clashes(NamesOf(calls)) then read == ReadBackAll(codec, calls)
       else calls != [] && |read[0].args| >= |Printed(codec, calls[0])|
            && (Spoken(codec, calls) ==> |read[0].args| > |Printed(codec, calls[0])|)
  }

  /** No call's arguments print as nothing. */
  ghost predicate Spoken(codec: Codec, calls: seq<Call>) {
    forall k :: 0 <= k < |calls| ==> Printed(codec, calls[k]) != []
  }

  lemma {:induction false} FirstReadBack(codec: Codec, calls: seq<Call>)
    requires calls != []
    ensures ReadBackAll(codec, calls)[0] == ReadBack(codec, calls[0], 0)
  {
    if |calls| > 1 {
      FirstReadBack(codec, calls[..|calls| - 1]);
    }
  }

  lemma ReadsOneMore(codec: Codec, calls: seq<Call>, read: seq<Call>, next: Call)
    requires ReadsAs(codec, calls, read)
    ensures ReadsAs(codec, calls + [next], Delivered(codec, read, next))
  {
    var more := calls + [next];
    NamesMore(calls, next);
    ClashesMore(calls, next);
    TakenExactlyWhen(calls, next);
    DeliveredIds(codec, read, next);
    ReadBackMore(codec, calls, next);
    if calls != [] {
      DeliveredTaken(codec, read, next);
      FirstReadBack(codec, calls);
      assert Ids(read)[0] == IdsFor(NamesOf(calls))[0] == calls[0].name;
      assert more[0] == calls[0] && more[|calls|] == next;
      assert Spoken(codec, more) ==> Spoken(codec, calls) by {
        assert forall k :: 0 <= k < |calls| ==> more[k] == calls[k];
      }
    }
    if !Clashes(NamesOf(more)) {
      DeliveredNew(codec, read, next);
    }
  }

  lemma DeliveredSnoc(codec: Codec, calls: seq<Call>, next: Call)
    ensures DeliveredAll(codec, [], calls + [next]) == Delivered(codec, DeliveredAll(codec, [], calls), next)
  {
    DeliveredConcat(codec, [], calls, [next]);
    assert [next][1..] == [];
  }

  lemma DeliveredStep(codec: Codec, calls: seq<Call>, next: Call)
    requires ReadsAs(codec, calls, DeliveredAll(codec, [], calls))
    ensures ReadsAs(codec, calls + [next], DeliveredAll(codec, [], calls + [next]))
  {
    DeliveredSnoc(codec, calls, next);
    ReadsOneMore(codec, calls, DeliveredAll(codec, [], calls), next);
  }

  lemma {:induction false} DeliveredReads(codec: Codec, calls: seq<Call>)
    ensures ReadsAs(codec, calls, DeliveredAll(codec, [], calls))
  {
    if calls != [] {
      var init, next := calls[..|calls| - 1], calls[|calls| - 1];
      assert init + [next] == calls;
      DeliveredReads(codec, init);
      DeliveredStep(codec, init, next);
    }
  }

  // ── words and calls of any run ──────────────────────────────────────────────

  lemma OnePart(codec: Codec, part: Part, n: nat)
    ensures PartsEvents(codec, [part], n) == PartEvents(codec, part, n)
  {
    assert [part][1..] == [];
    assert PartEvents(codec, part, n) + [] == PartEvents(codec, part, n);
  }

  lemma TextPartReads(codec: Codec, b: Answer, text: Text, thought: bool)
    ensures ReadFrom(b, PartsEvents(codec, [Part(Some(text), thought, None)], |b.calls|)) ==
            if thought then b.(thinking := b.thinking + text) else b.(text := b.text + text)
  {
    var part := Part(Some(text), thought, None);
    OnePart(codec, part, |b.calls|);
    var e := if thought then ThinkingDelta(text) else TextDelta(text);
    if text == [] {
      assert b.text + text == b.text && b.thinking + text == b.thinking;
      assert PartEvents(codec, part, |b.calls|) == [];
    } else {
      assert PartEvents(codec, part, |b.calls|) == [e];
      ReadOne(b, e);
    }
  }

  ghost predicate SameWords(a: Answer, b: Answer) { a.text == b.text && a.thinking == b.thinking }

  lemma RenderedOnce(codec: Codec, st: Renderer, e: StreamEvent)
    ensures |Rendered(codec, st, e)| <= 1
  {
  }

  lemma WordsStep(codec: Codec, st: Renderer, b: Answer, a: Answer, e: StreamEvent)
    requires SameWords(b, a)
    ensures |Rendered(codec, st, e)| <= 1
    ensures var b' := ReadMore(codec, b, Rendered(codec, st, e));
            SameWords(b', Observe(a, e)) && b'.calls == DeliveredAll(codec, b.calls, Emits(st, e))
  {
    match e
    case TextDelta(text) =>
      FrameReads(codec, b, st.usage, [Part(Some(text), false, None)], None);
      TextPartReads(codec, b, text, false);
    case ThinkingDelta(text) =>
      FrameReads(codec, b, st.usage, [Part(Some(text), true, None)], None);
      TextPartReads(codec, b, text, true);
    case ToolUseEnd(_) =>
      FrameReads(codec, b, st.usage, PartsOf(codec, Emits(st, e)), None);
      PartsRead(codec, b, Emits(st, e));
    case Stop(reason, usage) =>
      FrameReads(codec, b, st.usage.Merge(usage), PartsOf(codec, st.pending), Some(FinishWord(reason)));
      PartsRead(codec, b, st.pending);
    case _ =>
  }

  lemma {:induction false} RunReads(codec: Codec, events: seq<StreamEvent>)
    ensures var b := ReadFrames(codec, RunFrames(codec, events));
            SameWords(b, Read(events)) && b.calls == DeliveredAll(codec, [], Emitted(events))
  {
    if events != [] {
      var init, e := events[..|events| - 1], events[|events| - 1];
      RunReads(codec, init);
      var st, frames := RunState(init), RunFrames(codec, init);
      WordsStep(codec, st, ReadFrames(codec, frames), Read(init), e);
      ReadFramesAppend(codec, frames, Rendered(codec, st, e));
      DeliveredConcat(codec, [], Emitted(init), Emits(st, e));
    }
  }

  // ── the bill and the ending ─────────────────────────────────────────────────

  /** What a stop reason becomes: only truncation and refusal have words of their own. */
  function FoldedReason(reason: StopReason, called: bool): StopReason {
    match reason
    case MaxTokens => MaxTokens
    case Refusal => Refusal
    case _ => if called then ToolUse else EndTurn
  }

  function FoldedEnding(ending: Option<Ending>, called: bool): Option<Ending> {
    if ending.None? then None
    else Some(Ending(FoldedReason(ending.value.reason, called), Folded(ending.value.usage)))
  }

  lemma WordsFold(reason: StopReason, called: bool)
    ensures FinishReason(FinishWord(reason), called) == FoldedReason(reason, called) && !FinishWord(reason).Empty()
  {
  }

  lemma Absorbs(u: Usage, v: Usage, w: Usage)
    requires u.AtMost(v) && v.AtMost(w)
    ensures u.AtMost(w) && u.Merge(w) == w
  {
  }

  lemma FoldedGrows(u: Usage, v: Usage)
    requires PromptFits(u.Merge(v))
    ensures PromptFits(u) && Folded(u).AtMost(Folded(u.Merge(v)))
  {
  }

  lemma ReportedIs(usage: Usage)
    requires PromptFits(usage)
    ensures Reported(usage) == Folded(usage)
  {
    PromptUsageRoundTrip(usage);
  }

  ghost predicate BillMirrors(st: Renderer, called: bool, b: Answer, a: Answer) {
    && b.ending == FoldedEnding(a.ending, called) && (a.ending.Some? <==> st.finished)
    && (!st.finished ==> st.usage == a.usage && b.usage.AtMost(Folded(st.usage)))
  }

  /** The usage an event adds to the renderer's. */
  lemma UsageAfter(st: Renderer, e: StreamEvent)
    requires !st.finished
    ensures After(st, e).usage == if Reporting(e) then st.usage.Merge(e.usage) else st.usage
    ensures After(st, e).finished == e.Stop?
  {
  }

  lemma BillQuiet(codec: Codec, st: Renderer, called: bool, b: Answer, a: Answer, e: StreamEvent)
    requires BillMirrors(st, called, b, a) && !st.finished && !e.Stop? && PromptFits(After(st, e).usage)
    ensures BillMirrors(After(st, e), called, ReadMore(codec, b, Rendered(codec, st, e)), Observe(a, e))
  {
    UsageAfter(st, e);
    if Reporting(e) {
      FoldedGrows(st.usage, e.usage);
      Absorbs(b.usage, Folded(st.usage), Folded(After(st, e).usage));
    } else {
      ReportedIs(st.usage);
      Absorbs(b.usage, Folded(st.usage), Folded(st.usage));
      FrameBills(codec, st, b, e);
    }
  }

  lemma FrameBills(codec: Codec, st: Renderer, b: Answer, e: StreamEvent)
    requires !Reporting(e)
    ensures var b' := ReadMore(codec, b, Rendered(codec, st, e));
            b'.ending == b.ending && (b'.usage == b.usage || b'.usage == b.usage.Merge(Reported(st.usage)))
  {
    match e
    case TextDelta(text) => FrameReads(codec, b, st.usage, [Part(Some(text), false, None)], None);
    case ThinkingDelta(text) => FrameReads(codec, b, st.usage, [Part(Some(text), true, None)], None);
    case ToolUseEnd(_) => FrameReads(codec, b, st.usage, PartsOf(codec, Emits(st, e)), None);
    case _ =>
  }

  lemma BillStop(codec: Codec, st: Renderer, called: bool, b: Answer, a: Answer, e: StreamEvent)
    requires BillMirrors(st, called, b, a) && !st.finished && e.Stop? && PromptFits(After(st, e).usage)
    ensures BillMirrors(After(st, e), |b.calls| + |st.pending| > 0, ReadMore(codec, b, Rendered(codec, st, e)), Observe(a, e))
  {
    var merged := st.usage.Merge(e.usage);
    UsageAfter(st, e);
    FoldedGrows(st.usage, e.usage);
    Absorbs(b.usage, Folded(st.usage), Folded(merged));
    ReportedIs(merged);
    PartsCount(codec, st.pending);
    WordsFold(e.reason, |b.calls| + |st.pending| > 0);
    FrameReads(codec, b, merged, PartsOf(codec, st.pending), Some(FinishWord(e.reason)));
  }

  /** Once stopped, a quiet run with nothing pending renders nothing that ends or bills. */
  lemma BillOver(codec: Codec, st: Renderer, called: bool, b: Answer, a: Answer, e: StreamEvent)
    requires BillMirrors(st, called, b, a) && st.finished && st.pending == [] && !IsContent(e) && !e.ToolUseDelta?
    ensures BillMirrors(After(st, e), called, ReadMore(codec, b, Rendered(codec, st, e)), Observe(a, e))
    ensures Emits(st, e) == []
  {
  }

  lemma UsageGrows(st: Renderer, e: StreamEvent)
    requires PromptFits(After(st, e).usage)
    ensures PromptFits(st.usage)
  {
  }

  lemma {:induction false} RunBills(codec: Codec, events: seq<StreamEvent>)
    requires WellNamed(events) && NoContentAfterStop(events) && BeforeEnd(events) && PromptFits(RunState(events).usage)
    ensures BillMirrors(RunState(events), Emitted(events) != [], ReadFrames(codec, RunFrames(codec, events)), Read(events))
    ensures RunState(events).finished ==> RunState(events).pending == []
    decreases |events|
  {
    RunConserves(events);
    if events != [] {
      var init, e := events[..|events| - 1], events[|events| - 1];
      var st, b := RunState(init), ReadFrames(codec, RunFrames(codec, init));
      NoContentStep(events);
      UsageGrows(st, e);
      RunBills(codec, init);
      RunConserves(init);
      RunReads(codec, init);
      RenderedOnce(codec, st, e);
      ReadFramesAppend(codec, RunFrames(codec, init), Rendered(codec, st, e));
      BillStep(codec, st, Emitted(init), b, Read(init), e);
    }
  }

  lemma BillStep(codec: Codec, st: Renderer, emitted: seq<Call>, b: Answer, a: Answer, e: StreamEvent)
    requires BillMirrors(st, emitted != [], b, a) && |b.calls| == |emitted| && PromptFits(After(st, e).usage)
    requires st.finished ==> st.pending == [] && !IsContent(e) && !e.ToolUseDelta?
    ensures BillMirrors(After(st, e), emitted + Emits(st, e) != [], ReadMore(codec, b, Rendered(codec, st, e)), Observe(a, e))
    ensures After(st, e).finished ==> After(st, e).pending == []
  {
    if st.finished {
      BillOver(codec, st, emitted != [], b, a, e);
    } else if e.Stop? {
      BillStop(codec, st, emitted != [], b, a, e);
    } else {
      UsageAfter(st, e);
      BillQuiet(codec, st, emitted != [], b, a, e);
      CalledLater(After(st, e), emitted != [], emitted + Emits(st, e) != [], ReadMore(codec, b, Rendered(codec, st, e)), Observe(a, e));
    }
  }

  /** Before the ending it does not matter who is told that a call was made. */
  lemma CalledLater(st: Renderer, before: bool, called: bool, b: Answer, a: Answer)
    requires BillMirrors(st, before, b, a) && !st.finished
    ensures BillMirrors(st, called, b, a)
  {
  }

  /** For every run whatever, reading its frames back recovers its text and reasoning, and calls
      under the ids of their ordinals; each delivered call comes back with its name and the printed value of
      its arguments when no id clashes and, if no arguments print as nothing, only then. The ending
      comes back up to the folding of stop reasons and of cache writes into the prompt when the
      prompt count fits. */
  lemma GeminiRoundTrips(codec: Codec, events: seq<StreamEvent>)
    ensures var a, b, sent := Read(events), Read(RelayFrames(codec, RunFrames(codec, events)).events), Emitted(events);
            && b.text == a.text && b.thinking == a.thinking && Ids(b.calls) == IdsFor(NamesOf(sent))
            && (!Clashes(NamesOf(sent)) ==> b.calls == ReadBackAll(codec, sent) && Distinct(Ids(b.calls)))
            && (Spoken(codec, sent) ==> (b.calls == ReadBackAll(codec, sent) <==> !Clashes(NamesOf(sent))))
            && (WellNamed(events) && NoContentAfterStop(events) && BeforeEnd(events) && PromptFits(RunState(events).usage) ==>
                  b.ending == FoldedEnding(a.ending, a.calls != []))
  {
    var sent := Emitted(events);
    RelayReads(codec, RunFrames(codec, events));
    RunReads(codec, events);
    DeliveredReads(codec, sent);
    IdsClashExactlyWhen(NamesOf(sent));
    if sent != [] {
      FirstReadBack(codec, sent);
    }
    if WellNamed(events) && NoContentAfterStop(events) && BeforeEnd(events) && PromptFits(RunState(events).usage) {
      RunBills(codec, events);
      RunConserves(events);
      assert |multiset(sent)| == |sent| && |multiset(Read(events).calls)| == |Read(events).calls|;
    }
  }

  /** A first call named like the second with its ordinal: the ids are one, and both calls'
      arguments go to the first. */
  lemma TwoCallsClash(codec: Codec, name: Text, x: Call, y: Call)
    requires x.name == name + [HASH] + Decimal(1) && y.name == name
    ensures Clashes(NamesOf([x, y]))
    ensures DeliveredAll(codec, [], [x, y]) ==
            [Call(x.name, x.name, Printed(codec, x) + Printed(codec, y)), Call(x.name, name, [])]
  {
    assert NamesOf([x, y])[0] == CallId(NamesOf([x, y])[1], 1);
    var first := ReadBack(codec, x, 0);
    DeliveredNew(codec, [], x);
    assert Delivered(codec, [], x) == [first];
    assert [x, y][1..] == [y] && [y][1..] == [] && first.id == x.name;
    SecondOfTwo(codec, first, y);
    assert DeliveredAll(codec, [first], [y]) == Delivered(codec, [first], y);
  }

  lemma SecondOfTwo(codec: Codec, first: Call, y: Call)
    requires first.id == CallId(y.name, 1)
    ensures Delivered(codec, [first], y) ==
            [first.(args := first.args + Printed(codec, y)), Call(first.id, y.name, [])]
  {
    var more := [first] + [Call(first.id, y.name, [])];
    assert Ids(more)[0] == first.id;
    assert Position(Ids(more), first.id) == 0;
  }

  /** Arguments that parse keep their value through the round trip. */
  lemma ArgumentsKeepTheirValue(codec: Codec, call: Call, ordinal: nat)
    requires codec.Lawful()
    ensures codec.ReadArguments(ReadBack(codec, call, ordinal).args) == codec.ReadArguments(call.args)
  {
    assert codec.parse(codec.print_(codec.ReadArguments(call.args))).Some?;
  }
}
