# Verified model of the gateway's translation and selection core

The gateway sits between clients and model providers that speak different streaming dialects. This
project models, in Dafny, the four layers of it that keep state or rewrite data without doing I/O,
and proves what they promise.

* **The stream hub** (`Hub`, `Accumulator`, `AnthropicStream`, `AnthropicClient`,
  `AnthropicTheorems`, `AnthropicUpstream`, `AnthropicBody`, `ChatStream`, `ChatTheorems`,
  `ChatRoundTrip`, `ChatBill`, `ChatEnding`, `ChatToGemini`, `TerminalFrames`, `GeminiStream`,
  `GeminiEnding`, `GeminiTheorems`, `GeminiRoundTrip`,
  `ConverseStream`, `ConverseTheorems`, `BlockAddressing`, `Gateway`). Provider chunks are parsed
  into canonical events and rendered as another dialect's frames. A run of events has a meaning, its
  `Answer`: text, reasoning, calls with their fragments run together, bill and ending. Chat
  Completions is compared with a reader that addresses calls by index, Converse and Anthropic with
  readers that address them by block, Gemini with one that numbers whole calls; and every renderer
  with a client of its wire, so that the same calls are followed through every way of addressing them.
* **Names and ids** (`FunctionNames`, `Underscores`, `Fnv`, `ToolUseIds`, `Restore`, `ConverseMessages`). What an
  upstream refuses is respelled, injectively and with a way back.
* **Selection** (`Schedule`, `CircuitBreaker`, `ModelCatalog`). A filter cascade against a
  lexicographic minimum, a state machine against its history, an index against a scan.
* **Trees and arithmetic** (`Passthrough`, `TokenUsage`). Fields captured by subtraction and merged
  back; a bill that is a least upper bound, carried through wire formats that lose part of it.

`Bytes`, `Finite`, `JsonTree` and `Canonical` hold what the others share. Code that changes state in
the original is a class or a loop here, specified by a function of the old state; the theorems are
about those functions. Strings are byte sequences, as every length, cut and hash in the original
takes them.

## Where the code and its documentation part

Each of these is proved of the model, which follows the code.

* A Chat Completions upstream reports its usage in a chunk after the finish
  (crates/oag-proto/src/openai.rs:532-538), and the Anthropic renderer's comment
  (crates/oag-proto/src/anthropic.rs:796-806) says the terminal frame carries that figure. The
  terminal frame has gone out with the finish by then: `ChatBill.UsageAfterFinishIsNotShown` is the
  witness and `ChatBill.BillShownExactlyWhen` the exact condition; the other two renderers do the
  same (`ChatBill.BillShownOnTheOtherWires`). Converse holds its stop for this
  very reason, and there `ConverseTheorems.BillShownExactlyWhen` gives the whole bill whenever the
  metadata comes last.
* Converse and Anthropic address fragments by block index, and a comment says the accumulator holds
  the mapping (crates/oag-proto/src/anthropic.rs:517-518). It holds the last call only: fragments of
  interleaved blocks change hands (`ConverseTheorems.InterleavedFragmentChangesHands`), exactly when
  one names a block other than the last opened
  (`ConverseTheorems.ParserReadsByBlockExactlyWhen`, `AnthropicUpstream.ParserReadsByBlockExactlyWhen`).
  The gateway's own Anthropic frames are such a stream when calls interleave
  (`AnthropicUpstream.RenderedCallsComeBackExactlyWhen`, `AnthropicUpstream.InterleavedCallsDoNotComeBack`).
  A fragment both misplaced and late can fall back into the right block by accident
  (`ConverseTheorems.TwoFaultsCanCancel`), which is why
  `ConverseTheorems.AnthropicClientReadsConverseStream` takes the two conditions one given the other.
* The block protocol holds over a whole run exactly when nothing is said after the first stop, since
  only a second stop is suppressed (`AnthropicTheorems.ProtocolHoldsExactlyWhen`,
  `AnthropicTheorems.TextAfterStopIsRefused`); and reasoning that
  follows text directly is written into the text block (`AnthropicTheorems.ReasoningAfterTextIsMisfiled`).
* `render_from_events` is called the inverse of `parse_response`; it is, exactly on normal bodies
  (`AnthropicBody.BodyRoundTripsExactlyWhen`), and a tool end with no tool block open can split a
  text in two (`AnthropicBody.RenderIsStableExactlyWhen`, `AnthropicBody.StrayEndSplitsText`).
* `prune` is said to drop objects that subtraction emptied. It drops every object without a leaf,
  also one nothing was subtracted from (`Passthrough.DropsUntouchedExactlyWhen`).
* The sanitiser is said to collapse consecutive underscores. It collapses only those it writes: an
  underscore of the original stands, behind another of its own or behind one written for a refused
  byte (`Underscores.SanitizedDoublesExactlyWhen`, `Underscores.DottedUnderscoreDoubles`).
* Gemini's ids can clash, but only through the first call: its id is its bare name, which may look
  like a later name with `#` and an ordinal. Other names may hold `#` freely
  (`GeminiStream.IdsClashExactlyWhen`, `GeminiRoundTrip.TwoCallsClash`).
* The order of loads is said to be exact. It follows the order of occupancies exactly as far as the
  load is still the rounded occupancy (`Schedule.EligibleLoadFollowsOccupancyExactlyWhen`); past
  429496 in flight the product saturates, and a nearly full credential can be selected ahead of a
  half empty one (`Schedule.SaturationSelectsTheFuller`).

## Model

| member | source | states |
|---|---|---|
| `ChatTheorems.AnthropicClientReadsChatStream` | crates/oag-proto/src/openai.rs:575-666 | Chat Completions in, Anthropic out, for every addressed stream with nothing said after its finish: a client that reassembles by block index reads the text, reasoning and ending an index-addressed reader of the chunks reads, all blocks are stopped once it finished, and each call's id, name and exact arguments are recovered if and only if no fragment comes after text, reasoning or the finish closed its call |
| `ChatTheorems.ParserReadsByIndex` | crates/oag-proto/src/openai.rs:521-666 | for every stream whose calls announce distinct ids and whose fragments point at announced calls, interleaved within or across payloads, the canonical events amount to the answer an index-addressed reader reads; they are well named, and timely and quiet exactly when the chunks are |
| `ChatEnding.EndingOnWords` | crates/oag-proto/src/openai.rs:763-774 | for every chunk sequence with a first finish, well formed or not, on the words of its chunks alone: the answer and the client's message_delta end for truncation if and only if the word is length; for a call if and only if it is tool_calls or function_call, or an unnamed one with a call announced and no refusal by then; as a refusal if and only if it is content_filter, or an unnamed one with refusal text in some chunk up to the finish; as a plain end otherwise |
| `ChatEnding.SaidOnWords` | crates/oag-proto/src/openai.rs:544-573 | for every chunk sequence: the text is its content and refusal fields run together in order, the reasoning its reasoning_content fields or, where absent, its reasoning fields |
| `ChatEnding.SeenIs` | crates/oag-proto/src/openai.rs:557-566 | over every chunk sequence the accumulator has seen a refusal if and only if some chunk carried refusal text, and a call if and only if some entry carried an id |
| `ChatBill.BillShownExactlyWhen` | crates/oag-proto/src/anthropic.rs:787-815 | for every chunk sequence that finishes, well formed or not: exactly one message_delta goes out, with the merge of the usage reports up to the first finish; the accumulator bills the merge of all of them; and the two are equal if and only if no later report exceeds what was shown |
| `ChatBill.BillShownOnTheOtherWires` | crates/oag-proto/src/openai.rs:852-948 | the same for the Chat Completions and Gemini renderers: one frame with a finish each, carrying in its own form the merge of the reports up to the first finish, and that is the accumulated bill under the same condition |
| `TerminalFrames.ChatClosesOnce` | crates/oag-proto/src/openai.rs:903-931 | for every run whatever, one chunk with a finish if it stopped and none if not, with the first stop's word and the bill as of it |
| `TerminalFrames.GeminiClosesOnce` | crates/oag-proto/src/gemini.rs:727-744 | for every run whatever, one frame with a finishReason if it stopped and none if not, with the first stop's word and the bill as of it |
| `ChatToGemini.CallsDeliveredOnceExactlyWhen` | crates/oag-proto/src/gemini.rs:698-744 | Chat Completions in, Gemini out, for every addressed stream with nothing said after its finish: calls delivered and still held are the calls an index-addressed reader reads, each once and whole, if and only if no chunk behind a finish carries arguments; and after the finish none is held |
| `ChatBill.UsageAfterFinishIsNotShown` | crates/oag-proto/src/openai.rs:532-538 | a usage chunk after any finish, which is where this dialect sends it, is billed in full while the terminal frame shows zero |
| `ChatBill.NoFinishNoTerminalFrame` | crates/oag-proto/src/openai.rs:612-652 | a stream that never finishes sends no terminal frame |
| `ConverseTheorems.ParserReadsByBlockExactlyWhen` | crates/oag-proto/src/converse.rs:699-720 | for every stream whose calls open under ids distinct once restored and whose fragments follow some call: the parser's answer is the one a reader by contentBlockIndex holds if and only if every fragment that says anything names the block of the call opened last; text, reasoning, bill, ending and ids agree in any case, and the accumulator agrees with the events |
| `ConverseTheorems.AnthropicClientReadsConverseStream` | crates/oag-proto/src/converse.rs:621-720 | Converse in, Anthropic out, with nothing said after the ending: the client reads the text, reasoning and ending; of the calls as block indexes give them it recovers ids, names and exact arguments, given fragments in place, if and only if each came while its call was open, and, given fragments on time, if and only if each was in place |
| `ConverseTheorems.TwoFaultsCanCancel` | crates/oag-proto/src/anthropic.rs:695-707 | a stream with a fragment both misplaced and late whose client has every call as its block gives it all the same |
| `ConverseTheorems.InterleavedFragmentChangesHands` | crates/oag-proto/src/stream.rs:229-238 | with two blocks open, a fragment that names the first is read on the first by block and credited to the second by the parser |
| `ConverseTheorems.EndsAgreeExactlyWhen` | crates/oag-proto/src/converse.rs:646-652 | after every message the calls the parser has ended are those whose own block has stopped, if and only if every stop names the block of the call running or, with none running, no call still to end |
| `ConverseTheorems.FragmentGoesToLast` | crates/oag-proto/src/stream.rs:229-238 | whatever block a fragment names, it is added to the call opened last |
| `ConverseTheorems.RelayMatches` | crates/oag-proto/src/converse.rs:621-720 | after every message events and accumulator stand against the reading by block: same calls while in place and parted for good after, held stop, running call, naming, timeliness |
| `ConverseTheorems.BillShownExactlyWhen` | crates/oag-proto/src/converse.rs:652-674 | for every message sequence in which metadata follows a stop: exactly one message_delta goes out, with the reason announced last before that metadata and the merge of the reports up to it; the accumulator bills the merge of all reports; and the two are equal if and only if nothing reported later exceeds what was shown |
| `ConverseTheorems.StopWithoutBill` | crates/oag-proto/src/stream.rs:280-293 | as long as no metadata has followed the first stop: the reason announced last stays held on the accumulator, no stop is among the events and the run has no ending |
| `ConverseTheorems.EndingOnWords` | crates/oag-proto/src/converse.rs:738-755 | the reason in the client's terminal frame, on the word of the messageStop that came last before the bill: each canonical reason for exactly its own words, and a plain end for any other |
| `AnthropicUpstream.ParserReadsByBlockExactlyWhen` | crates/oag-proto/src/anthropic.rs:481-568 | for every frame stream that obeys the block protocol, with distinct call ids: the parser reads the text, reasoning and stop reason a client by block index reads, and its calls if and only if every fragment that says anything names the tool block opened last |
| `AnthropicUpstream.BillIsMerged` | crates/oag-proto/src/anthropic.rs:485-553 | the bill of any frame stream is the merge of what its message_start and message_delta frames report |
| `AnthropicUpstream.RenderedCallsComeBackExactlyWhen` | crates/oag-proto/src/anthropic.rs:516-525 | what the gateway renders for an Anthropic client, read back as an Anthropic upstream: for every run whose fragments all reach their calls, the calls come back if and only if no fragment is for a call other than the one opened last |
| `AnthropicUpstream.InterleavedCallsDoNotComeBack` | crates/oag-proto/src/anthropic.rs:516-525 | two calls opened and a fragment for the first: rendered and read back, the calls are not the run's |
| `AnthropicUpstream.OrderedExactlyWhenSequential` | crates/oag-proto/src/anthropic.rs:749-775 | the rendered frames keep every fragment on the last tool block if and only if the run never interleaves calls |
| `BlockAddressing.AlikeFragment` | crates/oag-proto/src/stream.rs:236-238 | giving every fragment to the last call and giving each to its block's call are one while fragments are in place, and differ for good from the first that is not |
| `ConverseStream.ParseStreamEvent` | crates/oag-proto/src/converse.rs:621-697 | the events of one message and the accumulator's new state (a stop held, a held stop taken), nothing else changed |
| `Gateway.FoldPayloads` | crates/oag-server/src/gateway/sse.rs:613-654 | however a stream is cut into batches, everything sent so far is the rendering of the whole stream so far, the accumulator has observed every event, content is reported exactly when some event carries it, and the first in-band error is the one kept |
| `Gateway.FoldPayload` | crates/oag-server/src/gateway/sse.rs:613-654 | the same for one payload |
| `Gateway.FoldEvents` | crates/oag-server/src/gateway/sse.rs:626-646 | each event is observed and rendered in order |
| `AnthropicTheorems.ProtocolHoldsExactlyWhen` | crates/oag-proto/src/anthropic.rs:636-870 | for every event run, the frames obey the block protocol (one message_start first, blocks numbered 0,1,2,…, deltas only to started and unstopped blocks, no block stopped twice, text and tool blocks never open together, everything stopped before message_delta) if and only if no text, reasoning or new call follows the first stop; a client that also checks delta kinds accepts them if and only if, besides, text and reasoning never share a block |
| `AnthropicTheorems.TextAfterStopIsRefused` | crates/oag-proto/src/anthropic.rs:782-785 | a run that stops and then says something: the client refuses its frames |
| `AnthropicTheorems.ClientRecoversExactlyWhen` | crates/oag-proto/src/anthropic.rs:749-834 | for every run with distinct call ids and nothing said after the stop, the client reads the run's text, reasoning and ending, every block is stopped once it ended, and the calls are recovered exactly if and only if each fragment came while its call was open |
| `AnthropicTheorems.RecoveryInvariant` | crates/oag-proto/src/anthropic.rs:689-707 | after every prefix the client holds exactly the run's calls, or some call's block is stopped short of what it was sent, and that never heals |
| `AnthropicTheorems.ReasoningAfterTextIsMisfiled` | crates/oag-proto/src/anthropic.rs:845-869 | reasoning right after text goes into the text block: a kind-checking client refuses it |
| `AnthropicTheorems.SecondStopIsSilent` | crates/oag-proto/src/anthropic.rs:782-785 | once stopped, a further stop renders nothing and changes nothing |
| `AnthropicTheorems.TerminalFrameIsTheEnding` | crates/oag-proto/src/anthropic.rs:782-823 | for every run whatever there is one message_delta if it stopped and none if not: the reason of the first stop with the bill as of it |
| `AnthropicTheorems.OpeningFrameIs` | crates/oag-proto/src/anthropic.rs:709-729 | for every run that says anything: one message_start, with the model its first such event announced or else the one asked for, and the merge of the usage reported up to that event |
| `AnthropicTheorems.FragmentFallsBack` | crates/oag-proto/src/anthropic.rs:695-707 | a fragment whose own block is closed goes to the call of the most recently opened block still open |
| `AnthropicTheorems.TracksOpenCalls` | crates/oag-proto/src/anthropic.rs:749-775 | the renderer's open tool blocks are exactly the run's open calls, under distinct ids |
| `AnthropicTheorems.StayInStep` | crates/oag-proto/src/anthropic.rs:733-870 | renderer and client stay coupled over every run the protocol admits: a block is stopped exactly when the renderer does not hold it open |
| `AnthropicClient.StepAccepted` | crates/oag-proto/src/anthropic.rs:733-870 | one event's frames are all accepted by a coupled client and leave it coupled |
| `AnthropicClient.StepRefused` | crates/oag-proto/src/anthropic.rs:782-785 | an event the conditions rule out makes the client refuse its frames |
| `AnthropicTheorems.FragmentIsLost` | crates/oag-proto/src/anthropic.rs:701-707 | a fragment for a call whose block is stopped goes to another block or nowhere, and is lost to its call for good |
| `AnthropicStream.RenderState.RenderEvent` | crates/oag-proto/src/anthropic.rs:733-834 | the frames of one event and the whole new renderer state |
| `AnthropicStream.RenderState.RenderText` | crates/oag-proto/src/anthropic.rs:837-870 | open tools are closed first, a block is opened only when none is, and one delta goes to it |
| `AnthropicStream.RenderState.RenderStop` | crates/oag-proto/src/anthropic.rs:782-823 | a first stop closes everything and sends the merged usage; a second sends nothing |
| `AnthropicStream.RenderState.RenderToolStart` | crates/oag-proto/src/anthropic.rs:749-763 | text is closed, open tools are left alone, the next index is used |
| `AnthropicStream.RenderState.CloseTool` | crates/oag-proto/src/anthropic.rs:681-686 | only the first open block under that id is stopped |
| `AnthropicStream.RenderState.CloseTools` | crates/oag-proto/src/anthropic.rs:689-693 | every open tool block is stopped, in the order opened |
| `AnthropicStream.RenderState.CloseText` | crates/oag-proto/src/anthropic.rs:674-678 | the open text block, if any, is stopped |
| `AnthropicStream.RenderState.EnsureStarted` | crates/oag-proto/src/anthropic.rs:709-729 | message_start goes out once |
| `AnthropicStream.RenderState.constructor` | crates/oag-proto/src/anthropic.rs:653-659 | a renderer with nothing open and nothing sent |
| `ChatRoundTrip.ChatRoundTrips` | crates/oag-proto/src/openai.rs:852-948 | for every run with distinct non-empty ids and nothing said after the stop, rendering to chunks and parsing them back recovers the text, the reasoning, every call's id, name and arguments, and the ending up to the folding of stop reasons and of cache writes |
| `ChatRoundTrip.RenderedMirrors` | crates/oag-proto/src/openai.rs:826-948 | after every prefix the rendered chunks read as the run does, each call under the index it was first used at |
| `ChatRoundTrip.RoleIsAnnounced` | crates/oag-proto/src/openai.rs:852-878 | the role goes out with every start, and with a text if and only if no start and no text came before |
| `ChatStream.ParseEvent` | crates/oag-proto/src/openai.rs:521-655 | the events of one payload; only a noted refusal changes the accumulator |
| `ChatStream.ParseCalls` | crates/oag-proto/src/openai.rs:575-607 | entries are addressed by announced id, then by index over the accumulator's and this payload's calls, then by the last call |
| `ChatStream.ParseFinish` | crates/oag-proto/src/openai.rs:612-652 | every call is ended once, before the stop |
| `ChatStream.RenderState.RenderEvent` | crates/oag-proto/src/openai.rs:852-948 | the chunks of one event and the whole new renderer state |
| `ChatStream.RenderState.ToolIndex` | crates/oag-proto/src/openai.rs:826-832 | the first position of the id, given out on first use |
| `ChatStream.RenderState.constructor` | crates/oag-proto/src/openai.rs:816-824 | a renderer that has sent nothing |
| `Accumulator.AgreementHolds` | crates/oag-proto/src/stream.rs:176-206 | over every run the accumulator agrees with the run's answer: the bill, one buffer per call in order with its exact arguments, how much was said |
| `Accumulator.BillIsMaximum` | crates/oag-proto/src/stream.rs:176-192 | over every run the accumulated bill is the per-field maximum of the usage its events report, and the least usage covering them |
| `Accumulator.BillIgnoresOrderAndRepeats` | crates/oag-router/src/cost.rs:46-58 | two runs that report the same, however often and in whatever order, leave the same bill on the accumulator |
| `Accumulator.GateJudgesTheAnswer` | crates/oag-proto/src/stream.rs:331-362 | each gate fires if and only if its fault is the first in order: nothing said; a refusal; a truncation; some call whose whole argument string neither is blank nor parses |
| `Accumulator.StreamAccumulator.Observe` | crates/oag-proto/src/stream.rs:176-206 | one event folded in, the whole new state given |
| `Accumulator.StreamAccumulator.FindBuffer` | crates/oag-proto/src/stream.rs:198-202 | the first buffer under the id |
| `Accumulator.StreamAccumulator.HoldStop` | crates/oag-proto/src/stream.rs:286-288 | only the held stop changes |
| `Accumulator.StreamAccumulator.TakeHeldStop` | crates/oag-proto/src/stream.rs:291-293 | the held stop is handed out once |
| `Accumulator.StreamAccumulator.NoteRefusal` | crates/oag-proto/src/stream.rs:271-273 | only the refusal flag changes |
| `Accumulator.StreamAccumulator.constructor` | crates/oag-proto/src/stream.rs:142-156 | nothing observed, the given name map |
| `GeminiTheorems.CallsDeliveredOnceExactlyWhen` | crates/oag-proto/src/gemini.rs:676-751 | for every run with distinct call ids and nothing said after the stop: calls emitted and pending together are the run's calls, each once and whole, if and only if no fragment follows its call's end; and then a stop leaves nothing pending |
| `GeminiTheorems.FramesCarryEmitted` | crates/oag-proto/src/gemini.rs:635-751 | the functionCall parts of a run's frames are exactly the emitted calls, in order |
| `GeminiTheorems.LateFragmentsDouble` | crates/oag-proto/src/gemini.rs:707-720 | a fragment after its call's end adds a call that was never made |
| `GeminiRoundTrip.GeminiRoundTrips` | crates/oag-proto/src/gemini.rs:541-602 | for every run whatever, reading its frames back recovers text and reasoning, and the delivered calls under the ids of their ordinals; names and printed argument values come back when no id clashes and, if no arguments print as nothing, only then; for well-named runs whose prompt count fits, the ending comes back up to folding |
| `GeminiEnding.EndingOnWords` | crates/oag-proto/src/gemini.rs:589-599 | for every frame sequence with a first finish: truncation on exactly its word, a refusal on exactly three, and on any other word a tool turn if and only if some frame up to that one carries a call |
| `GeminiRoundTrip.RunReads` | crates/oag-proto/src/gemini.rs:676-751 | for every run whatever, the frames read as the run's words and as its emitted calls delivered one on top of another |
| `GeminiRoundTrip.RunBills` | crates/oag-proto/src/gemini.rs:803-830 | bill and ending of the frames read against the run's, after every prefix |
| `GeminiRoundTrip.DeliveredReads` | crates/oag-proto/src/gemini.rs:572-586 | delivered calls read as sent while ids are distinct; from a clash on the first call holds more than its own arguments |
| `GeminiRoundTrip.TwoCallsClash` | crates/oag-proto/src/gemini.rs:517-523 | a first call named like the second with # and its ordinal takes both calls' arguments |
| `GeminiRoundTrip.RelayReads` | crates/oag-proto/src/gemini.rs:489-495 | folding frames through the accumulator gives each call the ordinal of its place among all calls read |
| `GeminiTheorems.RunConserves` | crates/oag-proto/src/gemini.rs:676-751 | the conservation invariant over every prefix, with the renderer's pending calls tracked |
| `GeminiStream.IdsClashExactlyWhen` | crates/oag-proto/src/gemini.rs:517-523 | the ids of one response are pairwise distinct if and only if the first call's name is not a later call's name with # and its ordinal |
| `GeminiStream.PlainFirstNameIsEnough` | crates/oag-proto/src/gemini.rs:517-523 | in particular when the first name has no # |
| `GeminiStream.CallIdInverts` | crates/oag-proto/src/gemini.rs:517-530 | the name comes back out of the id if and only if it has no # |
| `GeminiStream.ParseChunk` | crates/oag-proto/src/gemini.rs:541-602 | the events of one frame, calls numbered on from those before it |
| `GeminiStream.ParseParts` | crates/oag-proto/src/gemini.rs:555-587 | the events of the parts in order and the call count after them |
| `GeminiStream.RenderState.RenderEvent` | crates/oag-proto/src/gemini.rs:676-751 | the frames of one event and the whole new renderer state |
| `GeminiStream.RenderState.RenderEnd` | crates/oag-proto/src/gemini.rs:722-725 | the ended call leaves the pending list and goes out alone |
| `GeminiStream.RenderState.Drain` | crates/oag-proto/src/gemini.rs:727-744 | every pending call goes out, in order, and none is left |
| `GeminiStream.RenderState.Find` | crates/oag-proto/src/gemini.rs:654-657 | the first pending call under the id |
| `AnthropicBody.BodyRoundTripsExactlyWhen` | crates/oag-proto/src/anthropic.rs:908-1021 | render_from_events(parse_response(body)) is the body if and only if it is normal: no unknown block, no two text or reasoning blocks in a row, and a known stop word that is no plain end beside a tool call |
| `AnthropicBody.RenderIsStableExactlyWhen` | crates/oag-proto/src/anthropic.rs:926-1021 | render, parse, render is a single render if and only if no tool end without a tool block splits text or reasoning in two |
| `AnthropicBody.EndsOnToolsAreEnough` | crates/oag-proto/src/anthropic.rs:989-989 | in particular when a tool end comes only while a tool block is open |
| `AnthropicBody.StrayEndSplitsText` | crates/oag-proto/src/anthropic.rs:989-989 | a tool end with no tool open splits a text into two blocks, which are one again after a parse and a render |
| `AnthropicBody.CollectBlocks` | crates/oag-proto/src/anthropic.rs:576-615 | a body's blocks collect back to exactly themselves, or to strictly fewer when they are not normal |
| `AnthropicBody.ArgumentsCollect` | crates/oag-proto/src/anthropic.rs:885-898 | a call collects with the value its arguments parse to, or with an empty object when they do not parse |
| `AnthropicBody.StopWordsRoundTrip` | crates/oag-proto/src/anthropic.rs:1032-1059 | every stop reason's word reads back as it |
| `AnthropicBody.StopWordsAre` | crates/oag-proto/src/anthropic.rs:1032-1059 | the five words themselves, and that any other reads as a plain end |
| `AnthropicBody.RenderFromEvents` | crates/oag-proto/src/anthropic.rs:926-1021 | the body collected from a run |
| `AnthropicBody.ParseResponse` | crates/oag-proto/src/anthropic.rs:576-615 | the events a body's stream would have carried |
| `ToolUseIds.WireIsLegal` | crates/oag-proto/src/converse.rs:348-376 | a history of at most 256 distinct ids is sent with ids of 1 to 64 allowed bytes only |
| `ToolUseIds.WireIsSpelled` | crates/oag-proto/src/converse.rs:418-432 | every id of a history is sent as it is, or byte for byte with an underscore for each byte refused, or as the first 47 bytes of that with an underscore and sixteen digits of a salted hash; and with at most 256 ids in the bytes the pattern lists |
| `ToolUseIds.WireIsInvertible` | crates/oag-proto/src/converse.rs:348-389 | for a history of any size, spelling is injective, a legal id keeps its own spelling, every id comes back as it was, and every spelling is legal or the id itself |
| `ToolUseIds.SpellingsAreStable` | crates/oag-proto/src/converse.rs:312-318 | when a conversation grows, every earlier id keeps its spelling if and only if no newly added legal id is a spelling already handed out |
| `ToolUseIds.LaterCallTakesTheSpelling` | crates/oag-proto/src/converse.rs:312-318 | for every refused id of 1 to 64 bytes: a later call whose own id is the spelling it was given makes it change |
| `ToolUseIds.RespellingIsLegal` | crates/oag-proto/src/converse.rs:399-432 | with fewer than 256 spellings taken the salted search finds a legal free one and never reaches its fallback |
| `ToolUseIds.CandidatesDiffer` | crates/oag-proto/src/converse.rs:427-431 | the candidates of one id under different salts below 256 differ |
| `ToolUseIds.SearchAnswers` | crates/oag-proto/src/converse.rs:428-431 | a legal free spelling, or the id itself only when every salt up to the number taken is taken |
| `ToolUseIds.RespellingIsFree` | crates/oag-proto/src/converse.rs:362-374 | even on the fallback path nobody else holds the spelling given out |
| `ToolUseIds.AssignIsSound` | crates/oag-proto/src/converse.rs:365-374 | the two maps stay inverse, cover exactly the illegal ids and avoid every legal one |
| `ToolUseIds.FromRequestBy` | crates/oag-proto/src/converse.rs:348-376 | the spellings of a history |
| `ToolUseIds.CollectIds` | crates/oag-proto/src/converse.rs:349-360 | the distinct ids of calls and results, in order of first appearance |
| `ToolUseIds.Respell` | crates/oag-proto/src/converse.rs:418-432 | the respelling, and that it is the id itself or legal and free |
| `ToolUseIds.FindFree` | crates/oag-proto/src/converse.rs:427-431 | the first free salted spelling, or the id |
| `Fnv.SaltsSeparate` | crates/oag-proto/src/converse.rs:405-413 | the hashes of one id under two salts below 256 differ |
| `Fnv.HashHexSeparates` | crates/oag-proto/src/converse.rs:428-442 | and so do their sixteen hexadecimal digits |
| `Fnv.StepInjective` | crates/oag-proto/src/converse.rs:435-442 | an FNV-1a step is injective on 64-bit words |
| `Fnv.StepSeparates` | crates/oag-proto/src/converse.rs:435-442 | and injective in the byte folded in |
| `Fnv.MultiplyInvertible` | crates/oag-proto/src/converse.rs:440-440 | multiplication by the FNV prime modulo 2^64 has an inverse |
| `Fnv.FoldInjective` | crates/oag-proto/src/converse.rs:435-442 | folding in the same bytes keeps different words different |
| `Fnv.KnownVector` | crates/oag-proto/src/converse.rs:435-442 | the published FNV-1a value of the string a |
| `FunctionNames.NamesAreInvertible` | crates/oag-proto/src/function_names.rs:115-154 | for every list of originals: the names sent are legal and pairwise distinct, a legal name keeps its own spelling, and every name comes back as declared |
| `FunctionNames.AssignIsFaithful` | crates/oag-proto/src/function_names.rs:115-129 | the assignment stays injective, legal and identity on legal names after every name |
| `FunctionNames.FreeNumberExists` | crates/oag-proto/src/function_names.rs:228-247 | among the first used.len()+1 numbered candidates one is free |
| `FunctionNames.NumberedInjective` | crates/oag-proto/src/function_names.rs:229-242 | candidates with different numbers differ wherever the base was cut |
| `FunctionNames.UniqueIsFreeAndLegal` | crates/oag-proto/src/function_names.rs:213-249 | the unique name is legal and free |
| `FunctionNames.UniqueIs` | crates/oag-proto/src/function_names.rs:213-249 | the name itself when it is free, and otherwise as much of it as fits before _n, for the least n from 2 that is free |
| `FunctionNames.RefusedNameIsSentAs` | crates/oag-proto/src/function_names.rs:124-131 | a refused name is sent as its sanitised form, made unique among the legal names and those assigned before it |
| `FunctionNames.NamesSentAreOfTheseBytes` | crates/oag-proto/src/function_names.rs:28-34 | 1 to 64 letters, digits, underscores and hyphens, byte range by byte range |
| `FunctionNames.Uniquify` | crates/oag-proto/src/function_names.rs:213-249 | the unique name, found free within used.len()+1 candidates |
| `FunctionNames.SanitizedKeepsMeaning` | crates/oag-proto/src/function_names.rs:44-61 | a sanitised name spells the original's letters, digits and hyphens in order, cut only at the end; a name with none is the fallback |
| `Underscores.SanitizedDoublesExactlyWhen` | crates/oag-proto/src/function_names.rs:36-61 | for every name, a sanitised name holds two underscores in a row if and only if an underscore of the original stands right behind a byte that is none of letter, digit and hyphen, between the first and the last of those, and early enough to survive the cut |
| `Underscores.ShortNameDoublesExactlyWhen` | crates/oag-proto/src/function_names.rs:36-61 | for a name within 64 bytes, if and only if such an underscore has a letter, digit or hyphen before it and another after it |
| `Underscores.DottedUnderscoreDoubles` | crates/oag-proto/src/function_names.rs:36-61 | a._b, which is not legal, is sanitised to a name with two underscores in a row |
| `Underscores.SqueezeDoublesExactlyWhen` | crates/oag-proto/src/function_names.rs:44-53 | before trimming and cutting, if and only if an underscore of the original follows another or a byte that becomes one |
| `Underscores.TrimmedIs` | crates/oag-proto/src/function_names.rs:54-55 | trimming underscores off what was squeezed is squeezing the name from its first to its last letter, digit or hyphen |
| `FunctionNames.Sanitize` | crates/oag-proto/src/function_names.rs:44-61 | the sanitised name |
| `FunctionNames.Sanitized` | crates/oag-proto/src/function_names.rs:44-61 | always legal |
| `FunctionNames.FromOriginals` | crates/oag-proto/src/function_names.rs:115-142 | the assignment of the list, with the way back its exact inverse |
| `FunctionNames.TakeSeats` | crates/oag-proto/src/function_names.rs:119-123 | every legal name takes its own spelling first |
| `FunctionNames.Inverted` | crates/oag-proto/src/function_names.rs:133-136 | the inverse map, whatever order the hash map is walked in |
| `Restore.RestoreInEvents` | crates/oag-proto/src/function_names.rs:197-210 | in place, every event restored and none moved |
| `Restore.RestoringKeepsTheAnswer` | crates/oag-proto/src/function_names.rs:190-210 | restoring then reading is reading then restoring: no fragment changes hands while no two ids become one |
| `Restore.RestoringKeepsOpenCalls` | crates/oag-proto/src/function_names.rs:204-206 | the calls open in a restored run are the calls open in the run, restored: an end closes the call it was for |
| `Restore.LegalIdsStayApart` | crates/oag-proto/src/converse.rs:348-389 | an upstream that answers within its own pattern never has two ids become one |
| `ConverseMessages.RenderMessages` | crates/oag-proto/src/converse.rs:172-202 | for every message list the turns strictly alternate, begin with the user, are never empty, and their blocks with their roles are exactly the rendered blocks in order, behind one inserted user turn if and only if the conversation would open with the assistant; and each block stands in an assistant turn if and only if the message it is of is the assistant's |
| `ConverseMessages.RolesAreTheMessages` | crates/oag-proto/src/converse.rs:173-182 | every block sent is of a definite message and is the assistant's if and only if that message is; those of user, tool and system messages are the user's |
| `ConverseMessages.BlocksKeepTheirContent` | crates/oag-proto/src/converse.rs:215-303 | nothing goes out for reasoning and blank text and for nothing else; text goes out as it is, a call under its wire id and name with its input, a result under its wire id with its flag and its words or that there are none, an image with its bytes and its format |
| `ConverseMessages.ResultsKeepTheirContent` | crates/oag-proto/src/converse.rs:267-290 | a result made of blocks says what its texts and images would say in a turn, in order, or that there is nothing |
| `ConverseMessages.TurnsAreDetermined` | crates/oag-proto/src/converse.rs:172-202 | turns meeting that contract are unique |
| `ConverseMessages.CallsPairWithTheirResults` | crates/oag-proto/src/converse.rs:215-254 | a call and a result anywhere in a history are sent under the same id if and only if they were written under the same id |
| `ConverseMessages.AddMessage` | crates/oag-proto/src/converse.rs:183-190 | a message's blocks join the last turn of the same role or open a new one |
| `ConverseMessages.CollectBlocks` | crates/oag-proto/src/converse.rs:175-182 | the blocks of a message this dialect can carry, in order |
| `ConverseMessages.ToolResultBlocks` | crates/oag-proto/src/converse.rs:267-290 | a tool result never goes out empty |
| `Passthrough.ResidueIsWhatIsLeft` | crates/oag-proto/src/canonical.rs:387-404 | the residue holds exactly the body's leaves no subtracted path covers in either spelling, each at its own path, and no empty object outside arrays |
| `Passthrough.NothingCapturedExactlyWhen` | crates/oag-proto/src/canonical.rs:387-404 | nothing is captured if and only if the body is no object or every leaf of it is subtracted |
| `Passthrough.ObjectIsLeftExactlyWhen` | crates/oag-proto/src/canonical.rs:387-447 | for every body, paths and object of the body: it is still there if and only if some leaf at or under it is not subtracted |
| `Passthrough.DropsUntouchedExactlyWhen` | crates/oag-proto/src/canonical.rs:435-447 | an object nothing was subtracted from is dropped if and only if it holds no leaf; so capture drops more than subtraction emptied if and only if the body holds a leafless object at a path that is not subtracted |
| `Passthrough.EmptyVendorFieldIsDropped` | crates/oag-proto/src/canonical.rs:435-447 | such a body: one vendor field whose value is an empty object |
| `Passthrough.VendorFieldsSurvive` | crates/oag-proto/src/canonical.rs:387-466 | captured and merged into its own dialect's rendering: what was rendered, and of the body exactly the leaves neither subtracted nor blocked |
| `Passthrough.MergedLeaves` | crates/oag-proto/src/canonical.rs:450-466 | a merged tree holds exactly the target's leaves and the extra ones nothing blocks |
| `Passthrough.MergeKeepsWhatStands` | crates/oag-proto/src/canonical.rs:450-466 | every value already there survives a merge |
| `Passthrough.RemovePathLeaves` | crates/oag-proto/src/canonical.rs:419-433 | removing a path removes exactly the leaves at or under it in either spelling |
| `Passthrough.OtherSpelling` | crates/oag-proto/src/canonical.rs:469-480 | the second spelling of a name holds no capital, is the name itself if and only if that holds none, and gives it back when it had no underscore |
| `Passthrough.SegmentsAre` | crates/oag-proto/src/canonical.rs:420-432 | a path is read at its dots and nowhere else |
| `Passthrough.BothSpellingsAreSubtracted` | crates/oag-proto/src/canonical.rs:419-433 | a field at a subtracted path of two segments is subtracted under all four spellings |
| `Passthrough.MaxOutputTokensIsSubtracted` | crates/oag-proto/src/canonical.rs:419-433 | so it is at generationConfig.maxOutputTokens |
| `Passthrough.PruneKeepsLeaves` | crates/oag-proto/src/canonical.rs:441-447 | pruning neither loses nor adds a leaf |
| `Passthrough.PruneLeavesNoneEmpty` | crates/oag-proto/src/canonical.rs:441-447 | pruning leaves no empty object outside arrays |
| `Passthrough.Capture` | crates/oag-proto/src/canonical.rs:387-404 | the residue of a body |
| `Passthrough.MergeInto` | crates/oag-proto/src/canonical.rs:411-415 | merged for its own dialect, untouched for any other |
| `Passthrough.Merge` | crates/oag-proto/src/canonical.rs:450-466 | the merge, whatever order fields are walked in |
| `TokenUsage.BillIsLeast` | crates/oag-router/src/cost.rs:53-58 | it is the least usage that covers every report |
| `TokenUsage.PromptUsageRoundTrip` | crates/oag-proto/src/openai.rs:776-792 | rendered and read back, output and cache reads are kept and cache writes move into input with the sum conserved, if and only if the prompt count fits in 64 bits |
| `TokenUsage.ReadOnFields` | crates/oag-proto/src/openai.rs:776-792 | input and cached prefix of any report add up to its prompt, input stopping at zero; completion and prefix are kept |
| `TokenUsage.TotalsAddUp` | crates/oag-proto/src/gemini.rs:803-830 | prompt + completion = total on both wires, with an unwrapped prompt, if and only if the four counts together fit in 64 bits |
| `Schedule.SelectIsLexicographicMinimum` | crates/oag-pool/src/schedule.rs:139-218 | nothing is selected if and only if nothing is eligible; otherwise the winner is the tie-breaker's pick, modulo their number, among the lexicographic minima of (priority, load, window, last use), and the stage is the first that left one candidate |
| `Schedule.WinnerOnFields` | crates/oag-pool/src/schedule.rs:150-212 | against any other usable candidate, field by field: the lower priority; at one priority the lower load; at one load the window that resets sooner, one still ahead before any other; at one window the one used longer ago |
| `Schedule.NothingSelectedExactlyWhen` | crates/oag-pool/src/schedule.rs:86-92 | nothing is selected if and only if every candidate is unschedulable, cooling down, rate limited, at or under its reserve, or full |
| `Schedule.WinnerIsUnbeaten` | crates/oag-pool/src/schedule.rs:139-218 | no eligible candidate beats the winner |
| `Schedule.CascadeIsBest` | crates/oag-pool/src/schedule.rs:145-205 | each stage's survivors are exactly the minima on one more component, in snapshot order |
| `Schedule.RoundedExactlyWhen` | crates/oag-pool/src/schedule.rs:98-104 | the load is the occupancy in basis points rounded down if and only if in flight and waiting are at most 429496 or their ten-thousandfold is still below the next multiple after the saturated quotient |
| `Schedule.LoadOnFields` | crates/oag-pool/src/schedule.rs:98-104 | up to 429496 in flight and waiting together, the load is their number per slot in basis points rounded down; without slots, the top of the scale |
| `Schedule.LoadFollowsOccupancyExactlyWhen` | crates/oag-pool/src/schedule.rs:94-104 | for a candidate whose load reads below 429496: no candidate no fuller than it ever reads a higher load, if and only if in flight and waiting are at most 429496 or their ten-thousandfold is still below the next multiple after the saturated quotient |
| `Schedule.EligibleLoadFollowsOccupancyExactlyWhen` | crates/oag-pool/src/schedule.rs:94-104 | for an eligible candidate nobody waits on: no eligible candidate of its tier that is no fuller is ranked behind it, under the same condition and no other |
| `Schedule.LoadNeverInverts` | crates/oag-pool/src/schedule.rs:98-104 | a candidate no fuller is never ranked behind one whose own load is rounded |
| `Schedule.RivalOutranks` | crates/oag-pool/src/schedule.rs:98-104 | whenever a load is not rounded, some candidate no fuller reads a higher load |
| `Schedule.LoadNeverOverstates` | crates/oag-pool/src/schedule.rs:98-104 | rounded or saturated, the load never overstates the occupancy |
| `Schedule.WinnerIsNearlyLeastOccupied` | crates/oag-pool/src/schedule.rs:150-172 | a winner whose load is rounded is less than one basis point above any other in its tier |
| `Schedule.SaturationInverts` | crates/oag-pool/src/schedule.rs:98-104 | past the bound a fuller credential can look the emptier |
| `Schedule.SaturationSelectsTheFuller` | crates/oag-pool/src/schedule.rs:159-172 | and is selected: of two credentials alike but for that, the nearly full one goes first whatever the tie-breaker |
| `CircuitBreaker.BreakerAnswersForItsHistory` | crates/oag-pool/src/breaker.rs:43-128 | over every run, what is granted is what the history of operations says: admitted below the threshold of failures since the last success, denied until the cooldown after the last failure ran, then one probe at a time; closed if and only if below the threshold |
| `CircuitBreaker.OneProbeBetweenRenewals` | crates/oag-pool/src/breaker.rs:86-127 | after a probe every request is denied until a release, a success or a tripping failure |
| `CircuitBreaker.StateIsItsHistory` | crates/oag-pool/src/breaker.rs:56-62 | over every run: closed below the threshold of failures since the last success; from then on open until the cooldown after the last failure has run, and half open after |
| `CircuitBreaker.OpenForTheCooldown` | crates/oag-pool/src/breaker.rs:119-127 | over every run at or past the threshold with the last failure at f: open and denying until f plus the cooldown in seconds, half open from then on; a cooldown or a sum past the largest clock value stops there |
| `CircuitBreaker.Breaker.Permits` | crates/oag-pool/src/breaker.rs:72-78 | asks without changing anything what begin_request would grant |
| `CircuitBreaker.Breaker.BeginRequest` | crates/oag-pool/src/breaker.rs:86-99 | the admission and the whole new state, in agreement with permits |
| `CircuitBreaker.Breaker.ReleaseProbe` | crates/oag-pool/src/breaker.rs:107-109 | only the probe is given back |
| `CircuitBreaker.Breaker.RecordSuccess` | crates/oag-pool/src/breaker.rs:113-117 | back to closed |
| `CircuitBreaker.Breaker.RecordFailure` | crates/oag-pool/src/breaker.rs:120-127 | a saturating count, and a trip at the threshold |
| `CircuitBreaker.Breaker.constructor` | crates/oag-pool/src/breaker.rs:45-53 | a closed breaker with a threshold of at least one |
| `ModelCatalog.LoadedAgrees` | crates/oag-router/src/catalog.rs:275-293 | after every sequence of inserts an id stands under an upstream name exactly once if and only if its model is spelled so, and each model is the last inserted under its id |
| `ModelCatalog.InsertKeepsAgreement` | crates/oag-router/src/catalog.rs:275-293 | one insert keeps that, including one that renames |
| `ModelCatalog.ResolveIsScan` | crates/oag-router/src/catalog.rs:330-349 | a lookup answers as a full scan: the id, else the only built-in row of that upstream name, else nothing |
| `ModelCatalog.DearestIsUnique` | crates/oag-router/src/catalog.rs:236-268 | there is at most one dearest row |
| `ModelCatalog.DearestOnFields` | crates/oag-router/src/catalog.rs:249-267 | the dearest row is served, able and priced on its own fields, and against every other such row has the higher sum of input and output price, or the same and the smaller id in byte order |
| `ModelCatalog.ByteOrderIs` | crates/oag-router/src/catalog.rs:266-266 | ids are ordered byte by byte, a prefix first |
| `ModelCatalog.Catalog.DearestServed` | crates/oag-router/src/catalog.rs:236-268 | whatever order the served set is walked in, the dearest row; nothing if and only if no row is served, able and priced on its fields |
| `ModelCatalog.Catalog.DearestUnder` | crates/oag-router/src/catalog.rs:251-267 | the dearer of the best so far and the rows under one name |
| `ModelCatalog.Catalog.Resolve` | crates/oag-router/src/catalog.rs:330-349 | the model of that id; else the one built-in model a full scan finds under that upstream name; else, with none or several, nothing |
| `ModelCatalog.Catalog.Insert` | crates/oag-router/src/catalog.rs:275-293 | the whole new catalogue, still consistent |
| `ModelCatalog.Catalog.FromEntries` | crates/oag-router/src/catalog.rs:352-358 | a catalogue of the entries inserted in order |
| `ModelCatalog.Catalog.Retain` | crates/oag-router/src/catalog.rs:279-284 | the other ids, in order |
| `ModelCatalog.Catalog.constructor` | crates/oag-router/src/catalog.rs:270-273 | an empty, consistent catalogue |

## Left out

- JSON text and SSE framing: frames and bodies are datatypes, and the text form of a JSON value is a `Codec`, a printer and parser of which only `parse(print(v)) == v` is used, and only where a lemma requires `Lawful`.
- AnthropicUpstream.ParseEvent: a `message_delta` always carries a stop reason and a block is of one of three kinds; a delta without a reason, `ping` and signature deltas, which add nothing to the answer but usage, are not part of the frames.
- `parse_request` and `render_request` of every dialect: field-by-field copying, effort and temperature tables, model-name tests.
- `crates/oag-proto/src/responses.rs`, and the whole-body converters `render_completion` and `render_message_response`.
- Header fields of frames and bodies (message id, role, object kind, timestamps), and the model name of a collected body.
- The words of Gemini's finish reasons are constructors of a datatype; an unknown word is `Other`.
- A Converse payload with more than one member, which the API does not send.
- ConverseStream.ParseStreamEvent: takes the id map as a parameter beside the accumulator, which in the original holds it inside its function-name map.
- Accumulator.StreamAccumulator.Observe: the text and call counters are unbounded; saturation at the machine word is not modelled, since it takes 2^64 bytes of answer.
- ChatStream.RenderState.RenderEvent: plain additions on the prompt count wrap modulo 2^64, as in a release build; a debug build would stop instead.
- Gateway.FoldPayloads: payloads that do not parse, which the loop skips, are not part of the list; the client bytes are frames.
- FunctionNames.FromOriginals: requires fewer than 2^64 - 2 originals, which every slice in memory satisfies.
- ConverseMessages.RenderMessages: whether a text is blank is a parameter, since trimming follows Unicode.
- Accumulator.GateJudgesTheAnswer: whether arguments are blank and whether they parse are parameters; a body marked unreadable, which is never judged, is outside the runs it speaks of.
- Passthrough.Merge: `remove_path`, `prune` and `merge` change a tree in place in the original; here they are functions on values, so sharing and field order are not captured.
- Schedule.SelectIsLexicographicMinimum: reserve percentages are real numbers rather than 96-bit decimals; the selection is given as the candidate, not only its account.
- Schedule.LoadFollowsOccupancyExactlyWhen: asks that the load read below 429496, which every eligible candidate that nobody waits on does; a candidate of small capacity with hundreds of thousands waiting is outside it.
- ConverseTheorems.AnthropicClientReadsConverseStream: says nothing of the calls when a stream has both a misplaced and a late fragment, because they can then come out right or wrong by accident of the bytes.
- ModelCatalog.Catalog.DearestServed: prices are real numbers rather than 96-bit decimals.
- CircuitBreaker.Breaker.RecordFailure: the cooldown is a whole number of seconds.
- GeminiRoundTrip.GeminiRoundTrips: arguments come back as the printed form of the value they parse to, not as the same string; calls come in the order they ended.
- Cryptography, configuration, provider and credential tables, storage, HTTP and the rest of the server.
