/** Canonical turns as Converse messages (`render_messages` and `render_block` in
    `crates/oag-proto/src/converse.rs`). */
module ConverseMessages {
  import opened Bytes
  import opened Finite
  import opened JsonTree
  import opened Canonical
  import opened ToolUseIds
  import FunctionNames

  datatype WireRole = UserTurn | AssistantTurn

  datatype WireBlock =
    | TextWire(text: Text)
    | ImageWire(format: Text, bytes: Text)
    | ToolUseWire(toolUseId: Text, name: Text, input: Json)
    | ToolResultWire(toolUseId: Text, content: seq<WireBlock>, error: bool)

  datatype Turn = Turn(role: WireRole, content: seq<WireBlock>)

  /** What a request is rendered with: its name and id maps, and the test for text that is nothing
      but whitespace. */
  datatype Context = Context(names: FunctionNames.NameMap, ids: Spellings, blank: Text -> bool)

  // "(continued)", "(no output)" and "image/"
  const CONTINUED: Text := [40, 99, 111, 110, 116, 105, 110, 117, 101, 100, 41]
  const NO_OUTPUT: Text := [40, 110, 111, 32, 111, 117, 116, 112, 117, 116, 41]
  const IMAGE_PREFIX: Text := [105, 109, 97, 103, 101, 47]

  function ImageBlock(mediaType: Text, data: Text): WireBlock {
    ImageWire(if IMAGE_PREFIX <= mediaType then mediaType[|IMAGE_PREFIX|..] else mediaType, data)
  }

  function TextIfSaid(ctx: Context, text: Text): Option<WireBlock> {
    if ctx.blank(text) then None else Some(TextWire(text))
  }

  /** The blocks of a tool result this dialect can carry. */
  function ResultBlocks(ctx: Context, blocks: seq<ContentBlock>): seq<WireBlock> {
    if blocks == [] then []
    else
      var b := match blocks[0]
        case TextBlock(text) => TextIfSaid(ctx, text)
        case Image(mediaType, data) => Some(ImageBlock(mediaType, data))
        case _ => None;
      (if b.Some? then [b.value] else []) + ResultBlocks(ctx, blocks[1..])
  }

  function ToolResultBlocks(ctx: Context, content: ToolResultContent): (r: seq<WireBlock>)
    ensures r != []
  {
    var blocks := match content
      case Words(text) => if TextIfSaid(ctx, text).Some? then [TextWire(text)] else []
      case Blocks(blocks) => ResultBlocks(ctx, blocks);
    if blocks == [] then [TextWire(NO_OUTPUT)] else blocks
  }

  function RenderBlock(ctx: Context, b: ContentBlock): Option<WireBlock> {
    match b
    case TextBlock(text) => TextIfSaid(ctx, text)
    case Image(mediaType, data) => Some(ImageBlock(mediaType, data))
    case ToolUse(id, name, input) => Some(ToolUseWire(ctx.ids.Wire(id), ctx.names.Wire(name), input))
    case ToolResult(id, content, isError) =>
      Some(ToolResultWire(ctx.ids.Wire(id), ToolResultBlocks(ctx, content), isError))
    case Thinking(_) => None
  }

  function RenderBlocks(ctx: Context, blocks: seq<ContentBlock>): seq<WireBlock> {
    if blocks == [] then []
    else
      var b := RenderBlock(ctx, blocks[|blocks| - 1]);
      RenderBlocks(ctx, blocks[..|blocks| - 1]) + if b.Some? then [b.value] else []
  }

  function WireRoleOf(role: Role): WireRole { if role == Assistant then AssistantTurn else UserTurn }

  // ── what a conversation says, turn boundaries aside ─────────────────────────

  datatype Entry = Entry(role: WireRole, block: WireBlock)

  function Tagged(role: WireRole, blocks: seq<WireBlock>): (r: seq<Entry>)
    ensures |r| == |blocks|
  {
    if blocks == [] then [] else Tagged(role, blocks[..|blocks| - 1]) + [Entry(role, blocks[|blocks| - 1])]
  }

  /** Every block of the turns, in order, with its role. */
  function Flat(turns: seq<Turn>): seq<Entry> {
    if turns == [] then []
    else Flat(turns[..|turns| - 1]) + Tagged(turns[|turns| - 1].role, turns[|turns| - 1].content)
  }

  /** Every block the messages render to, in order, with its role. */
  function Said(ctx: Context, messages: seq<Message>): seq<Entry> {
    if messages == [] then []
    else
      var m := messages[|messages| - 1];
      Said(ctx, messages[..|messages| - 1]) + Tagged(WireRoleOf(m.role), RenderBlocks(ctx, m.content))
  }

  /** Which message each of those blocks is of. */
  function Origins(ctx: Context, messages: seq<Message>): seq<nat> {
    if messages == [] then []
    else
      var i := |messages| - 1;
      Origins(ctx, messages[..i]) + seq(|RenderBlocks(ctx, messages[i].content)|, _ => i)
  }

  /** A block is the assistant's exactly when its message is; a user's, a tool's or the system's is not. */
  lemma {:induction false} RolesAreTheMessages(ctx: Context, messages: seq<Message>)
    ensures |Origins(ctx, messages)| == |Said(ctx, messages)|
    ensures forall k :: 0 <= k < |Said(ctx, messages)| ==>
              var i := Origins(ctx, messages)[k];
              && i < |messages|
              && (Said(ctx, messages)[k].role == AssistantTurn <==> messages[i].role == Assistant)
              && Rendering(ctx, messages[i].content, Said(ctx, messages)[k].block)
  {
    if messages != [] {
      var init, m := messages[..|messages| - 1], messages[|messages| - 1];
      RolesAreTheMessages(ctx, init);
      TaggedRole(WireRoleOf(m.role), RenderBlocks(ctx, m.content));
      BlocksAreOf(ctx, m.content);
      assert forall i :: 0 <= i < |init| ==> messages[i] == init[i];
    }
  }

  ghost predicate Rendering(ctx: Context, blocks: seq<ContentBlock>, block: WireBlock) {
    exists j :: 0 <= j < |blocks| && RenderBlock(ctx, blocks[j]) == Some(block)
  }

  lemma {:induction false} BlocksAreOf(ctx: Context, blocks: seq<ContentBlock>)
    ensures forall k :: 0 <= k < |RenderBlocks(ctx, blocks)| ==> Rendering(ctx, blocks, RenderBlocks(ctx, blocks)[k])
  {
    if blocks != [] {
      var init, last := blocks[..|blocks| - 1], blocks[|blocks| - 1];
      BlocksAreOf(ctx, init);
      var before, all := RenderBlocks(ctx, init), RenderBlocks(ctx, blocks);
      forall k | 0 <= k < |all| ensures Rendering(ctx, blocks, all[k]) {
        if k < |before| {
          assert Rendering(ctx, init, before[k]);
          var j :| 0 <= j < |init| && RenderBlock(ctx, init[j]) == Some(before[k]);
          assert blocks[j] == init[j];
        } else {
          assert RenderBlock(ctx, blocks[|blocks| - 1]) == Some(all[k]);
        }
      }
    }
  }

  /** What a tool result can hold: text and images. */
  function Carried(blocks: seq<ContentBlock>): seq<ContentBlock> {
    if blocks == [] then []
    else (if blocks[0].TextBlock? || blocks[0].Image? then [blocks[0]] else []) + Carried(blocks[1..])
  }

  /** A result made of blocks says what its texts and images would say in a turn, in order, or that there
      is nothing. */
  lemma {:induction false} ResultsKeepTheirContent(ctx: Context, blocks: seq<ContentBlock>)
    ensures ResultBlocks(ctx, blocks) == RenderBlocks(ctx, Carried(blocks))
    ensures ToolResultBlocks(ctx, Blocks(blocks)) ==
            if RenderBlocks(ctx, Carried(blocks)) == [] then [TextWire(NO_OUTPUT)] else RenderBlocks(ctx, Carried(blocks))
  {
    if blocks != [] {
      ResultsKeepTheirContent(ctx, blocks[1..]);
      if blocks[0].TextBlock? || blocks[0].Image? {
        RenderFirst(ctx, blocks[0], Carried(blocks[1..]));
      } else {
        assert ResultBlocks(ctx, blocks) == ResultBlocks(ctx, blocks[1..]) && Carried(blocks) == Carried(blocks[1..]);
      }
    }
  }

  lemma {:induction false} RenderFirst(ctx: Context, b: ContentBlock, rest: seq<ContentBlock>)
    ensures RenderBlocks(ctx, [b] + rest) ==
            (if RenderBlock(ctx, b).Some? then [RenderBlock(ctx, b).value] else []) + RenderBlocks(ctx, rest)
  {
    var all := [b] + rest;
    if rest == [] {
      assert all == [b] && [b][..0] == [];
    } else {
      assert all[..|all| - 1] == [b] + rest[..|rest| - 1];
      RenderFirst(ctx, b, rest[..|rest| - 1]);
    }
  }

  /** What goes out for a block: nothing for reasoning and blank text and for nothing else; text as it
      is; a call under its wire id and name with its input; a result under its wire id with its flag, and
      what it says, or that it says nothing. */
  lemma BlocksKeepTheirContent(ctx: Context, b: ContentBlock)
    ensures RenderBlock(ctx, b).None? <==> b.Thinking? || (b.TextBlock? && ctx.blank(b.text))
    ensures b.TextBlock? && !ctx.blank(b.text) ==> RenderBlock(ctx, b) == Some(TextWire(b.text))
    ensures b.ToolUse? ==>
              var w := RenderBlock(ctx, b);
              && w.Some? && w.value.ToolUseWire? && w.value.input == b.input
              && w.value.toolUseId == (if b.id in ctx.ids.toWire then ctx.ids.toWire[b.id] else b.id)
              && w.value.name == (if b.name in ctx.names.toWire then ctx.names.toWire[b.name] else b.name)
    ensures b.ToolResult? ==>
              var w := RenderBlock(ctx, b);
              && w.Some? && w.value.ToolResultWire? && w.value.error == b.isError
              && w.value.toolUseId == (if b.toolUseId in ctx.ids.toWire then ctx.ids.toWire[b.toolUseId] else b.toolUseId)
              && (b.content.Words? ==>
                    w.value.content == [TextWire(if ctx.blank(b.content.words) then NO_OUTPUT else b.content.words)])
    ensures b.Image? ==>
              var w := RenderBlock(ctx, b);
              && w.Some? && w.value.ImageWire? && w.value.bytes == b.data
              && (b.mediaType == w.value.format || b.mediaType == IMAGE_PREFIX + w.value.format)
              && !(IMAGE_PREFIX <= b.mediaType && b.mediaType == w.value.format)
  {
    if b.Image? && IMAGE_PREFIX <= b.mediaType {
      assert b.mediaType == IMAGE_PREFIX + b.mediaType[|IMAGE_PREFIX|..];
    }
  }

  predicate Alternates(turns: seq<Turn>) {
    forall i :: 0 <= i < |turns| - 1 ==> turns[i].role != turns[i + 1].role
  }

  predicate NoneEmpty(turns: seq<Turn>) {
    forall i :: 0 <= i < |turns| ==> turns[i].content != []
  }

  lemma {:induction false} TaggedConcat(role: WireRole, x: seq<WireBlock>, y: seq<WireBlock>)
    ensures Tagged(role, x + y) == Tagged(role, x) + Tagged(role, y)
    decreases |y|
  {
    if y == [] {
      assert x + y == x;
    } else {
      assert (x + y)[..|x + y| - 1] == x + y[..|y| - 1];
      TaggedConcat(role, x, y[..|y| - 1]);
    }
  }

  // ── the merge ───────────────────────────────────────────────────────────────

  method CollectBlocks(ctx: Context, content: seq<ContentBlock>) returns (blocks: seq<WireBlock>)
    ensures blocks == RenderBlocks(ctx, content)
  {
    blocks := [];
    for i := 0 to |content|
      invariant blocks == RenderBlocks(ctx, content[..i])
    {
      assert content[..i + 1][..i] == content[..i];
      var b := RenderBlock(ctx, content[i]);
      if b.Some? {
        blocks := blocks + [b.value];
      }
    }
    assert content[..|content|] == content;
  }

  /** One message's blocks added: to the last turn when the role repeats, as a new turn otherwise. */
  method AddMessage(turns: seq<Turn>, role: WireRole, blocks: seq<WireBlock>) returns (r: seq<Turn>)
    requires Alternates(turns) && NoneEmpty(turns) && blocks != []
    ensures Alternates(r) && NoneEmpty(r) && r != []
    ensures Flat(r) == Flat(turns) + Tagged(role, blocks)
  {
    if turns != [] && turns[|turns| - 1].role == role {
      var last := turns[|turns| - 1];
      TaggedConcat(role, last.content, blocks);
      r := turns[..|turns| - 1] + [Turn(role, last.content + blocks)];
      assert r[..|r| - 1] == turns[..|turns| - 1];
    } else {
      r := turns + [Turn(role, blocks)];
      assert r[..|r| - 1] == turns;
    }
  }

  /** For every message list the turns strictly alternate, start with the user, are never empty, and
      say exactly what the messages render to, block for block and role for role, behind at most one
      inserted user turn: that one only where the conversation would open with the assistant. */
  method RenderMessages(ctx: Context, messages: seq<Message>) returns (turns: seq<Turn>)
    ensures Alternates(turns) && NoneEmpty(turns)
    ensures turns != [] ==> turns[0].role == UserTurn
    ensures var said := Said(ctx, messages);
            Flat(turns) == if said != [] && said[0].role == AssistantTurn
                           then [Entry(UserTurn, TextWire(CONTINUED))] + said else said
    ensures RolesKept(ctx, messages, Flat(turns))
  {
    turns := [];
    for i := 0 to |messages|
      invariant Alternates(turns) && NoneEmpty(turns)
      invariant Flat(turns) == Said(ctx, messages[..i])
    {
      assert messages[..i + 1][..i] == messages[..i];
      var blocks := CollectBlocks(ctx, messages[i].content);
      if blocks != [] {
        turns := AddMessage(turns, WireRoleOf(messages[i].role), blocks);
      }
    }
    assert messages[..|messages|] == messages;
    FirstRole(turns);
    if turns != [] && turns[0].role == AssistantTurn {
      FlatPrepend(Turn(UserTurn, [TextWire(CONTINUED)]), turns);
      TaggedOne(UserTurn, TextWire(CONTINUED));
      turns := [Turn(UserTurn, [TextWire(CONTINUED)])] + turns;
    }
    FlatKeepsRoles(ctx, messages, Flat(turns));
  }

  /** Behind at most one entry that is nobody's, every block stands in an assistant turn exactly when the
      message it is of is the assistant's. */
  ghost predicate RolesKept(ctx: Context, messages: seq<Message>, flat: seq<Entry>) {
    var origins := Origins(ctx, messages);
    var offset := |flat| - |origins|;
    && 0 <= offset <= 1
    && forall k :: 0 <= k < |origins| ==>
         && origins[k] < |messages|
         && (flat[offset + k].role == AssistantTurn <==> messages[origins[k]].role == Assistant)
         && Rendering(ctx, messages[origins[k]].content, flat[offset + k].block)
  }

  lemma FlatKeepsRoles(ctx: Context, messages: seq<Message>, flat: seq<Entry>)
    requires flat == Said(ctx, messages) || flat == [Entry(UserTurn, TextWire(CONTINUED))] + Said(ctx, messages)
    ensures RolesKept(ctx, messages, flat)
  {
    RolesAreTheMessages(ctx, messages);
  }

  lemma TaggedOne(role: WireRole, b: WireBlock)
    ensures Tagged(role, [b]) == [Entry(role, b)]
  {
    assert [b][..0] == [];
  }

  lemma {:induction false} FirstRole(turns: seq<Turn>)
    requires NoneEmpty(turns)
    ensures turns == [] <==> Flat(turns) == []
    ensures turns != [] ==> Flat(turns)[0].role == turns[0].role
  {
    if turns != [] {
      var init, last := turns[..|turns| - 1], turns[|turns| - 1];
      FirstRole(init);
      TaggedRole(last.role, last.content);
    }
  }

  lemma {:induction false} TaggedRole(role: WireRole, blocks: seq<WireBlock>)
    ensures forall i :: 0 <= i < |blocks| ==> Tagged(role, blocks)[i] == Entry(role, blocks[i])
  {
    if blocks != [] {
      TaggedRole(role, blocks[..|blocks| - 1]);
    }
  }

  lemma FlatSnoc(turns: seq<Turn>, t: Turn)
    ensures Flat(turns + [t]) == Flat(turns) + Tagged(t.role, t.content)
  {
    assert (turns + [t])[..|turns|] == turns;
  }

  lemma {:induction false} FlatPrepend(t: Turn, turns: seq<Turn>)
    ensures Flat([t] + turns) == Tagged(t.role, t.content) + Flat(turns)
  {
    if turns == [] {
      assert [t] + turns == [] + [t];
      FlatSnoc([], t);
    } else {
      var init, last := turns[..|turns| - 1], turns[|turns| - 1];
      FlatPrepend(t, init);
      OneMore([t], turns, |turns| - 1);
      FlatSnoc([t] + init, last);
      FlatSnoc(init, last);
      Associates(Tagged(t.role, t.content), Flat(init), Tagged(last.role, last.content));
    }
  }

  // ── that is all there is to say about the turns ─────────────────────────────

  /** How many entries of `role` the list ends with. */
  function RunLength(entries: seq<Entry>, role: WireRole): nat {
    if entries == [] || entries[|entries| - 1].role != role then 0
    else 1 + RunLength(entries[..|entries| - 1], role)
  }

  lemma {:induction false} RunOfTagged(x: seq<Entry>, role: WireRole, blocks: seq<WireBlock>)
    ensures RunLength(x + Tagged(role, blocks), role) == RunLength(x, role) + |blocks|
  {
    if blocks == [] {
      assert x + [] == x;
    } else {
      var all := x + Tagged(role, blocks);
      assert all[..|all| - 1] == x + Tagged(role, blocks[..|blocks| - 1]);
      RunOfTagged(x, role, blocks[..|blocks| - 1]);
    }
  }

  /** The last turn is exactly the run of its role that the entries end with. */
  lemma LastTurnIsRun(turns: seq<Turn>)
    requires turns != [] && Alternates(turns) && NoneEmpty(turns)
    ensures var last := turns[|turns| - 1];
            && Flat(turns) != [] && Flat(turns)[|Flat(turns)| - 1].role == last.role
            && RunLength(Flat(turns), last.role) == |last.content|
  {
    var init, last := turns[..|turns| - 1], turns[|turns| - 1];
    RunOfTagged(Flat(init), last.role, last.content);
    TaggedRole(last.role, last.content);
    if init != [] {
      var prev := init[|init| - 1];
      TaggedRole(prev.role, prev.content);
      assert prev.role != last.role;
    }
  }

  ghost predicate WellFormed(turns: seq<Turn>) { Alternates(turns) && NoneEmpty(turns) }

  lemma FormedInit(turns: seq<Turn>)
    requires turns != [] && WellFormed(turns)
    ensures WellFormed(turns[..|turns| - 1])
  {
  }

  lemma LastTurnsAgree(a: seq<Turn>, b: seq<Turn>)
    requires a != [] && b != [] && WellFormed(a) && WellFormed(b) && Flat(a) == Flat(b)
    ensures a[|a| - 1] == b[|b| - 1]
    ensures Flat(a[..|a| - 1]) == Flat(b[..|b| - 1])
  {
    LastTurnIsRun(a);
    LastTurnIsRun(b);
    SameEnd(Flat(a[..|a| - 1]), a[|a| - 1], Flat(b[..|b| - 1]), b[|b| - 1]);
  }

  /** Strictly alternating turns without an empty one are determined by what they say: the
      rendering is the only one its contract allows. */
  lemma {:induction false} TurnsAreDetermined(a: seq<Turn>, b: seq<Turn>)
    requires WellFormed(a) && WellFormed(b) && Flat(a) == Flat(b)
    ensures a == b
  {
    FirstRole(a);
    FirstRole(b);
    if a != [] {
      LastTurnsAgree(a, b);
      FormedInit(a);
      FormedInit(b);
      TurnsAreDetermined(a[..|a| - 1], b[..|b| - 1]);
      OneMore([], a, |a| - 1);
      OneMore([], b, |b| - 1);
    }
  }

  lemma SameEnd(before: seq<Entry>, x: Turn, before': seq<Entry>, y: Turn)
    requires x.role == y.role && |x.content| == |y.content|
    requires before + Tagged(x.role, x.content) == before' + Tagged(y.role, y.content)
    ensures before == before' && x == y
  {
    var all, n := before + Tagged(x.role, x.content), |before|;
    assert before == all[..n] && before' == all[..n];
    assert Tagged(x.role, x.content) == all[n..] == Tagged(y.role, y.content);
    TaggedRole(x.role, x.content);
    TaggedRole(y.role, y.content);
    forall i | 0 <= i < |x.content| ensures x.content[i] == y.content[i] {
      assert Tagged(x.role, x.content)[i] == Tagged(y.role, y.content)[i];
    }
  }

  // ── calls and their results ─────────────────────────────────────────────────

  lemma {:induction false} BlockIdMentioned(blocks: seq<ContentBlock>, j: nat)
    requires j < |blocks|
    ensures forall id :: id in IdsIn(blocks[j]) ==> id in IdsOfBlocks(blocks)
  {
    if j < |blocks| - 1 {
      BlockIdMentioned(blocks[..|blocks| - 1], j);
    }
  }

  lemma {:induction false} MessageIdMentioned(messages: seq<Message>, i: nat, j: nat)
    requires i < |messages| && j < |messages[i].content|
    ensures forall id :: id in IdsIn(messages[i].content[j]) ==> id in Mentioned(messages)
  {
    if i < |messages| - 1 {
      MessageIdMentioned(messages[..|messages| - 1], i, j);
    } else {
      BlockIdMentioned(messages[i].content, j);
    }
  }

  lemma IdInHistory(messages: seq<Message>, i: nat, j: nat)
    requires i < |messages| && j < |messages[i].content|
    ensures forall id :: id in IdsIn(messages[i].content[j]) ==> id in History(messages)
  {
    MessageIdMentioned(messages, i, j);
    FirstsAreDistinct(Mentioned(messages));
  }

  /** Anywhere in a history, two blocks are sent under the same id exactly when they were written
      under the same id: a call still pairs with its own result and with no other. */
  lemma CallsPairWithTheirResults(p: Pattern, names: FunctionNames.NameMap, blank: Text -> bool,
                                  messages: seq<Message>, i: nat, j: nat, k: nat, l: nat)
    requires i < |messages| && j < |messages[i].content| && k < |messages| && l < |messages[k].content|
    requires messages[i].content[j].ToolUse? && messages[k].content[l].ToolResult?
    ensures var ctx := Context(names, Build(p, History(messages)), blank);
            var call, result := RenderBlock(ctx, messages[i].content[j]).value, RenderBlock(ctx, messages[k].content[l]).value;
            call.toolUseId == result.toolUseId <==> messages[i].content[j].id == messages[k].content[l].toolUseId
  {
    IdInHistory(messages, i, j);
    IdInHistory(messages, k, l);
    WireIsInvertible(p, messages);
    assert messages[i].content[j].id in IdsIn(messages[i].content[j]);
    assert messages[k].content[l].toolUseId in IdsIn(messages[k].content[l]);
  }
}
