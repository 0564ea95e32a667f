/** The Gemini stream: calls delivered whole, under ids made from names and ordinals
    (`crates/oag-proto/src/gemini.rs`). */
module GeminiStream {
  import opened Bytes
  import opened Finite
  import opened TokenUsage
  import opened JsonTree
  import opened Hub
  import opened Accumulator
  import opened FunctionNames

  datatype FunctionCall = FunctionCall(name: Text, args: Json)

  datatype Part = Part(text: Option<Text>, thought: bool, call: Option<FunctionCall>)

  /** The values of `finishReason` this dialect's reader tells apart; any other word is `Other`. */
  datatype Finish = StopWord | MaxTokensWord | Safety | ProhibitedContent | Blocklist | Other(word: Text) {
    predicate Empty() { Other? && word == [] }
  }

  datatype Candidate = Candidate(parts: seq<Part>, finish: Option<Finish>)

  datatype Frame =
    | Chunk(usage: Option<PromptUsage>, candidate: Option<Candidate>)
    | ErrorFrame(message: Text)

  // ── ids ─────────────────────────────────────────────────────────────────────

  function CallId(name: Text, ordinal: nat): Text {
    if ordinal == 0 then name else name + [HASH] + Decimal(ordinal)
  }

  /** What comes before the first `#`. */
  function FunctionName(id: Text): Text {
    if id == [] || id[0] == HASH then [] else [id[0]] + FunctionName(id[1..])
  }

  lemma {:induction false} FunctionNameOfPlain(name: Text, rest: Text)
    requires HASH !in name && (rest == [] || rest[0] == HASH)
    ensures FunctionName(name + rest) == name
  {
    if name == [] {
      assert name + rest == rest;
    } else {
      assert (name + rest)[0] == name[0] && (name + rest)[1..] == name[1..] + rest;
      FunctionNameOfPlain(name[1..], rest);
    }
  }

  lemma {:induction false} FunctionNameHasNoHash(id: Text)
    ensures HASH !in FunctionName(id)
  {
    if id != [] && id[0] != HASH {
      FunctionNameHasNoHash(id[1..]);
    }
  }

  /** The name comes back out of the id exactly when it holds no `#`. */
  lemma CallIdInverts(name: Text, ordinal: nat)
    ensures FunctionName(CallId(name, ordinal)) == name <==> HASH !in name
  {
    FunctionNameHasNoHash(CallId(name, ordinal));
    if HASH !in name {
      if ordinal == 0 {
        assert name + [] == name;
        FunctionNameOfPlain(name, []);
      } else {
        assert CallId(name, ordinal) == name + ([HASH] + Decimal(ordinal));
        FunctionNameOfPlain(name, [HASH] + Decimal(ordinal));
      }
    }
  }

  function IdsFor(names: seq<Text>): (r: seq<Text>)
    ensures |r| == |names| && forall k :: 0 <= k < |names| ==> r[k] == CallId(names[k], k)
  {
    seq(|names|, k requires 0 <= k < |names| => CallId(names[k], k))
  }

  /** The first call's name is itself the id of a later call. */
  predicate Clashes(names: seq<Text>) {
    exists k :: 1 <= k < |names| && names[0] == CallId(names[k], k)
  }

  /** The ids of one response's calls are pairwise distinct exactly when the first call's name is
      not itself some later call's name with `#` and that call's ordinal. */
  lemma IdsClashExactlyWhen(names: seq<Text>)
    ensures Distinct(IdsFor(names)) <==> !Clashes(names)
  {
    var ids := IdsFor(names);
    if Clashes(names) {
      var k :| 1 <= k < |names| && names[0] == CallId(names[k], k);
      assert ids[0] == ids[k];
    } else {
      forall i, j | 0 <= i < j < |ids| ensures ids[i] != ids[j] {
        if i > 0 && ids[i] == ids[j] {
          OrdinalsSeparate(names[i], i, names[j], j);
        }
      }
    }
  }

  lemma OrdinalsSeparate(a: Text, i: nat, b: Text, j: nat)
    requires i > 0 && j > 0 && CallId(a, i) == CallId(b, j)
    ensures i == j
  {
    SuffixDigits(a, Decimal(i), b, Decimal(j), HASH);
    DecimalValue(i);
    DecimalValue(j);
  }

  /** In particular when the first name holds no `#` at all. */
  lemma PlainFirstNameIsEnough(names: seq<Text>)
    requires names != [] ==> HASH !in names[0]
    ensures Distinct(IdsFor(names))
  {
    IdsClashExactlyWhen(names);
    forall k | 1 <= k < |names| ensures names[0] != CallId(names[k], k) {
      assert (names[k] + [HASH] + Decimal(k))[|names[k]|] == HASH;
    }
  }

  // ── reading ─────────────────────────────────────────────────────────────────

  function CallsIn(part: Part): nat { if part.call.Some? then 1 else 0 }

  function CallCount(parts: seq<Part>): nat {
    if parts == [] then 0 else CallsIn(parts[0]) + CallCount(parts[1..])
  }

  function ProseEvents(part: Part): seq<StreamEvent> {
    if part.text.Some? && part.text.value != []
    then [if part.thought then ThinkingDelta(part.text.value) else TextDelta(part.text.value)] else []
  }

  function CallEvents(codec: Codec, call: FunctionCall, ordinal: nat): seq<StreamEvent> {
    var id := CallId(call.name, ordinal);
    [ToolUseStart(id, call.name)] + [ToolUseDelta(id, codec.print_(call.args))] + [ToolUseEnd(id)]
  }

  function PartEvents(codec: Codec, part: Part, ordinal: nat): seq<StreamEvent> {
    ProseEvents(part) + if part.call.Some? then CallEvents(codec, part.call.value, ordinal) else []
  }

  function PartsEvents(codec: Codec, parts: seq<Part>, prior: nat): seq<StreamEvent>
    decreases |parts|
  {
    if parts == [] then []
    else PartEvents(codec, parts[0], prior) + PartsEvents(codec, parts[1..], prior + CallsIn(parts[0]))
  }

  function FinishReason(raw: Finish, called: bool): StopReason {
    match raw
    case MaxTokensWord => MaxTokens
    case Safety => Refusal
    case ProhibitedContent => Refusal
    case Blocklist => Refusal
    case _ => if called then ToolUse else EndTurn
  }

  function UsageEvents(usage: Option<PromptUsage>): seq<StreamEvent> {
    if usage.Some? then [UsageUpdate(ReadPromptUsage(usage.value))] else []
  }

  function FinishEvents(finish: Option<Finish>, called: bool, usage: Option<PromptUsage>): seq<StreamEvent> {
    if finish.None? || finish.value.Empty() then []
    else [Stop(FinishReason(finish.value, called), if usage.Some? then ReadPromptUsage(usage.value) else NO_USAGE)]
  }

  function Parsed(codec: Codec, frame: Frame, prior: nat): seq<StreamEvent> {
    if frame.ErrorFrame? then []
    else if frame.candidate.None? then UsageEvents(frame.usage)
    else
      var c := frame.candidate.value;
      UsageEvents(frame.usage) + PartsEvents(codec, c.parts, prior) +
      FinishEvents(c.finish, prior + CallCount(c.parts) > 0, frame.usage)
  }

  method ParsePart(codec: Codec, part: Part, calls: nat) returns (events: seq<StreamEvent>)
    ensures events == PartEvents(codec, part, calls)
  {
    events := [];
    if part.text.Some? && part.text.value != [] {
      events := [if part.thought then ThinkingDelta(part.text.value) else TextDelta(part.text.value)];
    }
    if part.call.Some? {
      var id := CallId(part.call.value.name, calls);
      events := events + [ToolUseStart(id, part.call.value.name),
                          ToolUseDelta(id, codec.print_(part.call.value.args)), ToolUseEnd(id)];
    }
  }

  method ParseParts(codec: Codec, parts: seq<Part>, prior: nat) returns (events: seq<StreamEvent>, calls: nat)
    ensures events == PartsEvents(codec, parts, prior) && calls == prior + CallCount(parts)
  {
    events, calls := [], prior;
    assert parts[0..] == parts;
    for i := 0 to |parts|
      invariant events + PartsEvents(codec, parts[i..], calls) == PartsEvents(codec, parts, prior)
      invariant calls + CallCount(parts[i..]) == prior + CallCount(parts)
    {
      PartsStep(codec, parts, i, calls);
      ghost var rest := PartsEvents(codec, parts[i + 1..], calls + CallsIn(parts[i]));
      var added := ParsePart(codec, parts[i], calls);
      Associates(events, added, rest);
      if parts[i].call.Some? {
        calls := calls + 1;
      }
      events := events + added;
    }
  }

  lemma PartsStep(codec: Codec, parts: seq<Part>, i: nat, calls: nat)
    requires i < |parts|
    ensures PartsEvents(codec, parts[i..], calls) ==
            PartEvents(codec, parts[i], calls) + PartsEvents(codec, parts[i + 1..], calls + CallsIn(parts[i]))
    ensures CallCount(parts[i..]) == CallsIn(parts[i]) + CallCount(parts[i + 1..])
  {
    assert parts[i..][1..] == parts[i + 1..];
  }

  method ParseChunk(codec: Codec, frame: Frame, prior: nat) returns (events: seq<StreamEvent>)
    ensures events == Parsed(codec, frame, prior)
  {
    if frame.ErrorFrame? {
      return [];
    }
    if frame.candidate.None? {
      return UsageEvents(frame.usage);
    }
    var said, calls := ParseParts(codec, frame.candidate.value.parts, prior);
    events := UsageEvents(frame.usage) + said;
    var finish := frame.candidate.value.finish;
    if finish.Some? && !finish.value.Empty() {
      events := events + [Stop(FinishReason(finish.value, calls > 0),
                               if frame.usage.Some? then ReadPromptUsage(frame.usage.value) else NO_USAGE)];
    }
  }

  function RelayFrames(codec: Codec, frames: seq<Frame>): Relay {
    if frames == [] then Relay(Begun(NameMap(map[], map[])), [])
    else
      var before := RelayFrames(codec, frames[..|frames| - 1]);
      var events := Parsed(codec, frames[|frames| - 1], before.acc.toolCalls);
      Relayed(before, before.acc, events)
  }

  // ── rendering ───────────────────────────────────────────────────────────────

  /** `pending` holds calls opened but not yet ended, with their fragments so far. */
  datatype Renderer = Renderer(usage: Usage, finished: bool, pending: seq<Call>)

  const FRESH: Renderer := Renderer(NO_USAGE, false, [])

  function PartOf(codec: Codec, call: Call): Part {
    Part(None, false, Some(FunctionCall(call.name, codec.ReadArguments(call.args))))
  }

  function PartsOf(codec: Codec, calls: seq<Call>): seq<Part> {
    if calls == [] then [] else [PartOf(codec, calls[0])] + PartsOf(codec, calls[1..])
  }

  function FinishWord(reason: StopReason): Finish {
    match reason
    case MaxTokens => MaxTokensWord
    case Refusal => Safety
    case _ => StopWord
  }

  function Says(usage: Usage, parts: seq<Part>, finish: Option<Finish>): Frame {
    Chunk(Some(GeminiUsage(usage)), Some(Candidate(parts, finish)))
  }

  function Removed(calls: seq<Call>, at: nat): seq<Call>
    requires at < |calls|
  {
    calls[..at] + calls[at + 1..]
  }

  function After(st: Renderer, e: StreamEvent): Renderer {
    match e
    case Start(_, usage) => st.(usage := st.usage.Merge(usage))
    case UsageUpdate(usage) => st.(usage := st.usage.Merge(usage))
    case ToolUseStart(id, name) => st.(pending := st.pending + [Call(id, name, [])])
    case ToolUseDelta(id, fragment) =>
      if id in Ids(st.pending) then st.(pending := AddFragment(st.pending, id, fragment))
      else st.(pending := st.pending + [Call(id, id, fragment)])
    case ToolUseEnd(id) =>
      var at := Position(Ids(st.pending), id);
      if at < |st.pending| then st.(pending := Removed(st.pending, at)) else st
    case Stop(_, usage) =>
      if st.finished then st else Renderer(st.usage.Merge(usage), true, [])
    case _ => st
  }

  /** The calls an event makes the renderer emit. */
  function Emits(st: Renderer, e: StreamEvent): seq<Call> {
    match e
    case ToolUseEnd(id) =>
      var at := Position(Ids(st.pending), id);
      if at < |st.pending| then [st.pending[at]] else []
    case Stop(_, _) => if st.finished then [] else st.pending
    case _ => []
  }

  function Rendered(codec: Codec, st: Renderer, e: StreamEvent): seq<Frame> {
    match e
    case TextDelta(text) => [Says(st.usage, [Part(Some(text), false, None)], None)]
    case ThinkingDelta(text) => [Says(st.usage, [Part(Some(text), true, None)], None)]
    case ToolUseEnd(_) =>
      if Emits(st, e) == [] then [] else [Says(st.usage, PartsOf(codec, Emits(st, e)), None)]
    case Stop(reason, usage) =>
      if st.finished then []
      else [Says(st.usage.Merge(usage), PartsOf(codec, st.pending), Some(FinishWord(reason)))]
    case Error(message) => [ErrorFrame(message)]
    case _ => []
  }

  function RunState(events: seq<StreamEvent>): Renderer {
    if events == [] then FRESH else After(RunState(events[..|events| - 1]), events[|events| - 1])
  }

  /** Every call emitted by a run, in the order of emission. */
  function Emitted(events: seq<StreamEvent>): seq<Call> {
    if events == [] then []
    else Emitted(events[..|events| - 1]) + Emits(RunState(events[..|events| - 1]), events[|events| - 1])
  }

  function RunFrames(codec: Codec, events: seq<StreamEvent>): seq<Frame> {
    if events == [] then []
    else
      var init := events[..|events| - 1];
      RunFrames(codec, init) + Rendered(codec, RunState(init), events[|events| - 1])
  }

  class RenderState {
    var usage: Usage
    var finished: bool
    var pending: seq<Call>

    ghost function View(): Renderer
      reads this
    {
      Renderer(usage, finished, pending)
    }

    constructor ()
      ensures View() == FRESH
    {
      usage, finished, pending := NO_USAGE, false, [];
    }

    /** Where the call with this id stands among the pending ones, or their number. */
    method Find(id: Text) returns (at: nat)
      ensures at == Position(Ids(pending), id)
    {
      at := 0;
      while at < |pending| && pending[at].id != id
        invariant at <= |pending|
        invariant forall k :: 0 <= k < at ==> Ids(pending)[k] != id
      {
        at := at + 1;
      }
      assert at < |pending| ==> Ids(pending)[at] == id;
    }

    /** Drain the pending calls into parts. */
    method Drain(codec: Codec) returns (parts: seq<Part>)
      modifies this`pending
      ensures parts == PartsOf(codec, old(pending)) && View() == old(View()).(pending := [])
    {
      parts := [];
      ghost var all := pending;
      while pending != []
        invariant parts + PartsOf(codec, pending) == PartsOf(codec, all)
        invariant View() == old(View()).(pending := pending)
        decreases |pending|
      {
        Associates(parts, [PartOf(codec, pending[0])], PartsOf(codec, pending[1..]));
        parts := parts + [PartOf(codec, pending[0])];
        pending := pending[1..];
      }
    }

    method RenderEvent(codec: Codec, e: StreamEvent) returns (out: seq<Frame>)
      modifies this
      ensures View() == old(After(View(), e))
      ensures out == old(Rendered(codec, View(), e))
    {
      out := [];
      match e {
        case Start(_, reported) => usage := usage.Merge(reported);
        case UsageUpdate(reported) => usage := usage.Merge(reported);
        case TextDelta(text) => out := [Says(usage, [Part(Some(text), false, None)], None)];
        case ThinkingDelta(text) => out := [Says(usage, [Part(Some(text), true, None)], None)];
        case ToolUseStart(id, name) => pending := pending + [Call(id, name, [])];
        case ToolUseDelta(id, fragment) =>
          var at := Find(id);
          if at < |pending| {
            pending := pending[at := pending[at].(args := pending[at].args + fragment)];
          } else {
            pending := pending + [Call(id, id, fragment)];
          }
        case ToolUseEnd(id) =>
          var at := Find(id);
          if at < |pending| {
            out := RenderEnd(codec, at);
          }
        case Stop(reason, reported) =>
          if !finished {
            finished := true;
            usage := usage.Merge(reported);
            var parts := Drain(codec);
            out := [Says(usage, parts, Some(FinishWord(reason)))];
          }
        case Error(message) => out := [ErrorFrame(message)];
      }
    }

    method RenderEnd(codec: Codec, at: nat) returns (out: seq<Frame>)
      requires at < |pending|
      modifies this`pending
      ensures View() == old(View()).(pending := Removed(old(pending), at))
      ensures out == [Says(usage, PartsOf(codec, [old(pending)[at]]), None)]
    {
      var call := pending[at];
      pending := pending[..at] + pending[at + 1..];
      assert PartsOf(codec, [call]) == [PartOf(codec, call)] by { assert [call][1..] == []; }
      out := [Says(usage, [PartOf(codec, call)], None)];
    }
  }
}
