/** Tool-call ids respelled for an upstream that holds them to a pattern, and the way back
    (`ToolUseIds` in `crates/oag-proto/src/converse.rs`). */
module ToolUseIds {
  import opened Bytes
  import opened Canonical
  import JsonTree
  import opened Finite
  import Fnv

  const ID_MAX := 64

  /** The two id patterns in use: Converse's, and Anthropic's, which has no `.` and no `:`. */
  datatype Pattern = ConversePattern | AnthropicPattern

  predicate Allowed(p: Pattern, b: Byte) {
    IsAlphanumeric(b) || b == UNDERSCORE || b == HYPHEN || (p.ConversePattern? && (b == 46 || b == 58))
  }

  predicate Legal(p: Pattern, id: Text) {
    1 <= |id| <= ID_MAX && forall i :: 0 <= i < |id| ==> Allowed(p, id[i])
  }

  // ── one respelling ──────────────────────────────────────────────────────────

  function Plain(p: Pattern, id: Text): (r: Text)
    ensures |r| == |id| && forall i :: 0 <= i < |r| ==> Allowed(p, r[i])
  {
    seq(|id|, i requires 0 <= i < |id| => if Allowed(p, id[i]) then id[i] else UNDERSCORE)
  }

  function Candidate(p: Pattern, id: Text, salt: nat): (r: Text)
    ensures Legal(p, r)
  {
    Truncate(Plain(p, id), ID_MAX - 17) + [UNDERSCORE] + Fnv.Hex(Fnv.Hash(id, salt), 16)
  }

  function Search(p: Pattern, id: Text, taken: set<Text>, salt: nat): Text
    decreases |taken| + 1 - salt
  {
    if salt > |taken| then id
    else if Candidate(p, id, salt) !in taken then Candidate(p, id, salt)
    else Search(p, id, taken, salt + 1)
  }

  function Respelled(p: Pattern, id: Text, taken: set<Text>): Text {
    var plain := Plain(p, id);
    if 1 <= |plain| <= ID_MAX && plain !in taken then plain else Search(p, id, taken, 0)
  }

  method Respell(p: Pattern, id: Text, taken: set<Text>) returns (wire: Text)
    ensures wire == Respelled(p, id, taken)
    ensures wire == id || (Legal(p, wire) && wire !in taken)
  {
    RespelledAnswers(p, id, taken);
    var plain := Plain(p, id);
    if 1 <= |plain| <= ID_MAX && plain !in taken {
      return plain;
    }
    wire := FindFree(p, id, plain, taken);
  }

  /** The first salt whose spelling is free, or the id itself when none up to `|taken|` is. */
  method FindFree(p: Pattern, id: Text, plain: Text, taken: set<Text>) returns (wire: Text)
    requires plain == Plain(p, id)
    ensures wire == Search(p, id, taken, 0)
  {
    var stem := Truncate(plain, ID_MAX - 17);
    for salt := 0 to |taken| + 1
      invariant Search(p, id, taken, 0) == Search(p, id, taken, salt)
    {
      var candidate := stem + [UNDERSCORE] + Fnv.Hex(Fnv.Hash(id, salt), 16);
      assert candidate == Candidate(p, id, salt);
      if candidate !in taken {
        return candidate;
      }
    }
    wire := id;
  }

  /** What the salted search answers: a legal spelling that is free, or, only when every salt up
      to `|taken|` was taken, the id itself. */
  lemma {:induction false} SearchAnswers(p: Pattern, id: Text, taken: set<Text>, salt: nat)
    ensures var w := Search(p, id, taken, salt);
            || (Legal(p, w) && w !in taken)
            || (w == id && forall s :: salt <= s <= |taken| ==> Candidate(p, id, s) in taken)
    decreases |taken| + 1 - salt
  {
    if salt <= |taken| && Candidate(p, id, salt) in taken {
      SearchAnswers(p, id, taken, salt + 1);
    }
  }

  lemma RespelledAnswers(p: Pattern, id: Text, taken: set<Text>)
    ensures var w := Respelled(p, id, taken); w == id || (Legal(p, w) && w !in taken)
  {
    SearchAnswers(p, id, taken, 0);
  }

  /** With at most 255 spellings taken one of the salts is free: the candidates are pairwise
      distinct, and there is one more of them than there are spellings taken. */
  lemma RespellingIsLegal(p: Pattern, id: Text, taken: set<Text>)
    requires |taken| < 256
    ensures Legal(p, Respelled(p, id, taken)) && Respelled(p, id, taken) !in taken
  {
    SearchAnswers(p, id, taken, 0);
    var tried := Candidates(p, id, |taken| + 1);
    CandidatesAreDistinct(p, id, |taken| + 1);
    var s := OneIsOutside(tried, taken);
    assert Candidate(p, id, s) !in taken;
  }

  /** The spellings under the first `count` salts. */
  ghost function Candidates(p: Pattern, id: Text, count: nat): (tried: seq<Text>)
    ensures |tried| == count && forall s :: 0 <= s < count ==> tried[s] == Candidate(p, id, s)
  {
    seq(count, s requires 0 <= s < count => Candidate(p, id, s))
  }

  lemma CandidatesAreDistinct(p: Pattern, id: Text, count: nat)
    requires count <= 256
    ensures Distinct(Candidates(p, id, count))
  {
    forall i, j | 0 <= i < j < count
      ensures Candidates(p, id, count)[i] != Candidates(p, id, count)[j]
    {
      CandidatesDiffer(p, id, i, j);
    }
  }

  lemma CandidatesDiffer(p: Pattern, id: Text, s1: nat, s2: nat)
    requires s1 < 256 && s2 < 256 && s1 != s2
    ensures Candidate(p, id, s1) != Candidate(p, id, s2)
  {
    var n := |Truncate(Plain(p, id), ID_MAX - 17)| + 1;
    assert Candidate(p, id, s1)[n..] == Fnv.Hex(Fnv.Hash(id, s1), 16);
    assert Candidate(p, id, s2)[n..] == Fnv.Hex(Fnv.Hash(id, s2), 16);
    if Candidate(p, id, s1) == Candidate(p, id, s2) {
      Fnv.HashHexSeparates(id, s1, s2);
    }
  }

  // ── the whole history ───────────────────────────────────────────────────────

  /** The id a block uses, call or result. */
  function IdsIn(b: ContentBlock): seq<Text> {
    match b
    case ToolUse(id, _, _) => [id]
    case ToolResult(id, _, _) => [id]
    case _ => []
  }

  function IdsOfBlocks(blocks: seq<ContentBlock>): seq<Text> {
    if blocks == [] then [] else IdsOfBlocks(blocks[..|blocks| - 1]) + IdsIn(blocks[|blocks| - 1])
  }

  function Mentioned(messages: seq<Message>): seq<Text> {
    if messages == [] then []
    else Mentioned(messages[..|messages| - 1]) + IdsOfBlocks(messages[|messages| - 1].content)
  }

  /** Each element once, where it first appears. */
  function Firsts(s: seq<Text>): seq<Text> {
    if s == [] then []
    else
      var prior, last := Firsts(s[..|s| - 1]), s[|s| - 1];
      if last in prior then prior else prior + [last]
  }

  lemma {:induction false} FirstsAreDistinct(s: seq<Text>)
    ensures Distinct(Firsts(s)) && forall x :: x in Firsts(s) <==> x in s
  {
    if s != [] {
      FirstsAreDistinct(s[..|s| - 1]);
      assert s == s[..|s| - 1] + [s[|s| - 1]];
    }
  }

  /** The distinct ids of a history, in the order they first appear. */
  function History(messages: seq<Message>): (ids: seq<Text>)
    ensures Distinct(ids)
  {
    FirstsAreDistinct(Mentioned(messages));
    Firsts(Mentioned(messages))
  }

  datatype Spellings = Spellings(toWire: map<Text, Text>, fromWire: map<Text, Text>) {
    function Wire(id: Text): Text { if id in toWire then toWire[id] else id }
    function Original(wire: Text): Text { if wire in fromWire then fromWire[wire] else wire }
    function Add(id: Text, wire: Text): Spellings { Spellings(toWire[id := wire], fromWire[wire := id]) }
  }

  function LegalOnes(p: Pattern, ids: seq<Text>): set<Text> {
    set id | id in ids && Legal(p, id)
  }

  /** The illegal ids respelled in order, none into a `reserved` spelling or an earlier one's. */
  function Assign(p: Pattern, ids: seq<Text>, reserved: set<Text>): Spellings {
    if ids == [] then Spellings(map[], map[])
    else
      var prior, id := Assign(p, ids[..|ids| - 1], reserved), ids[|ids| - 1];
      if Legal(p, id) then prior
      else prior.Add(id, Respelled(p, id, reserved + prior.toWire.Values))
  }

  function Build(p: Pattern, ids: seq<Text>): Spellings {
    Assign(p, ids, LegalOnes(p, ids))
  }

  /** Push each id a turn's blocks use, the first time it is seen. */
  method CollectFrom(blocks: seq<ContentBlock>, known: seq<Text>, knownSet: set<Text>, ghost before: seq<Text>)
    returns (ids: seq<Text>, seen: set<Text>)
    requires known == Firsts(before) && forall x :: x in knownSet <==> x in known
    ensures ids == Firsts(before + IdsOfBlocks(blocks)) && forall x :: x in seen <==> x in ids
  {
    ids, seen := known, knownSet;
    assert before + IdsOfBlocks(blocks[..0]) == before;
    for b := 0 to |blocks|
      invariant ids == Firsts(before + IdsOfBlocks(blocks[..b]))
      invariant forall x :: x in seen <==> x in ids
    {
      FirstsOfBlock(before, blocks, b);
      if blocks[b].ToolUse? || blocks[b].ToolResult? {
        var id := if blocks[b].ToolUse? then blocks[b].id else blocks[b].toolUseId;
        assert IdsIn(blocks[b]) == [id];
        if id !in seen {
          seen := seen + {id};
          ids := ids + [id];
        }
      }
    }
    assert blocks[..|blocks|] == blocks;
  }

  method CollectIds(messages: seq<Message>) returns (ids: seq<Text>)
    ensures ids == History(messages)
  {
    var seen: set<Text>;
    ids, seen := [], {};
    for m := 0 to |messages|
      invariant ids == Firsts(Mentioned(messages[..m]))
      invariant forall x :: x in seen <==> x in ids
    {
      assert messages[..m + 1][..m] == messages[..m];
      ids, seen := CollectFrom(messages[m].content, ids, seen, Mentioned(messages[..m]));
    }
    assert messages[..|messages|] == messages;
  }

  method FromRequestBy(p: Pattern, messages: seq<Message>) returns (map_: Spellings)
    ensures map_ == Build(p, History(messages))
  {
    var ids := CollectIds(messages);
    // Spellings that are somebody's own are out of reach from the start.
    ghost var reserved := LegalOnes(p, ids);
    var taken: set<Text> := set id | id in ids && Legal(p, id);
    map_ := Spellings(map[], map[]);
    for i := 0 to |ids|
      invariant map_ == Assign(p, ids[..i], reserved)
      invariant taken == reserved + map_.toWire.Values
    {
      AssignStep(p, ids, i, reserved);
      if !Legal(p, ids[i]) {
        var wire := Respell(p, ids[i], taken);
        taken := taken + {wire};
        map_ := map_.Add(ids[i], wire);
      }
    }
    assert ids[..|ids|] == ids;
  }

  lemma AssignStep(p: Pattern, ids: seq<Text>, i: nat, reserved: set<Text>)
    requires Distinct(ids) && i < |ids|
    requires forall w :: w in reserved ==> Legal(p, w)
    ensures var prior := Assign(p, ids[..i], reserved);
            var w := Respelled(p, ids[i], reserved + prior.toWire.Values);
            && Assign(p, ids[..i + 1], reserved) == (if Legal(p, ids[i]) then prior else prior.Add(ids[i], w))
            && (!Legal(p, ids[i]) ==>
                  && ids[i] !in prior.toWire
                  && prior.Add(ids[i], w).toWire.Values == prior.toWire.Values + {w})
  {
    assert ids[..i + 1][..i] == ids[..i];
    if !Legal(p, ids[i]) {
      AssignIsSound(p, ids[..i], reserved);
      var prior := Assign(p, ids[..i], reserved);
      ValuesOfUpdate(prior.toWire, ids[i], Respelled(p, ids[i], reserved + prior.toWire.Values));
    }
  }

  lemma FirstsOfBlock(before: seq<Text>, blocks: seq<ContentBlock>, b: nat)
    requires b < |blocks|
    ensures var known := Firsts(before + IdsOfBlocks(blocks[..b]));
            Firsts(before + IdsOfBlocks(blocks[..b + 1])) ==
            if IdsIn(blocks[b]) == [] || IdsIn(blocks[b])[0] in known then known else known + IdsIn(blocks[b])
  {
    var sofar := before + IdsOfBlocks(blocks[..b]);
    assert blocks[..b + 1][..b] == blocks[..b];
    assert before + IdsOfBlocks(blocks[..b + 1]) == sofar + IdsIn(blocks[b]);
    if IdsIn(blocks[b]) == [] {
      assert sofar + [] == sofar;
    } else {
      assert IdsIn(blocks[b]) == [IdsIn(blocks[b])[0]];
      FirstsStep(sofar, IdsIn(blocks[b])[0]);
    }
  }

  lemma FirstsStep(s: seq<Text>, x: Text)
    ensures Firsts(s + [x]) == if x in Firsts(s) then Firsts(s) else Firsts(s) + [x]
  {
    assert (s + [x])[..|s|] == s;
  }

  // ── what every assignment keeps ─────────────────────────────────────────────

  function IllegalOnes(p: Pattern, ids: seq<Text>): set<Text> {
    set id | id in ids && !Legal(p, id)
  }

  ghost predicate Sound(p: Pattern, illegal: set<Text>, reserved: set<Text>, s: Spellings) {
    && s.toWire.Keys == illegal
    && s.fromWire.Keys == s.toWire.Values
    && (forall id :: id in s.toWire ==> s.toWire[id] in s.fromWire && s.fromWire[s.toWire[id]] == id)
    && (forall id :: id in s.toWire ==> s.toWire[id] !in reserved)
    && (forall id :: id in s.toWire ==> Legal(p, s.toWire[id]) || s.toWire[id] == id)
  }

  lemma {:induction false} AssignIsSound(p: Pattern, ids: seq<Text>, reserved: set<Text>)
    requires Distinct(ids)
    requires forall w :: w in reserved ==> Legal(p, w)
    ensures Sound(p, IllegalOnes(p, ids), reserved, Assign(p, ids, reserved))
  {
    if ids != [] {
      var init, id := ids[..|ids| - 1], ids[|ids| - 1];
      AssignIsSound(p, init, reserved);
      IllegalStep(p, ids);
      if !Legal(p, id) {
        var prior := Assign(p, init, reserved);
        var w := Respelled(p, id, reserved + prior.toWire.Values);
        RespellingIsFree(p, id, IllegalOnes(p, init), reserved, prior);
        AddIsSound(p, IllegalOnes(p, init), reserved, prior, id, w);
      }
    }
  }

  lemma IllegalStep(p: Pattern, ids: seq<Text>)
    requires Distinct(ids) && ids != []
    ensures var init, id := ids[..|ids| - 1], ids[|ids| - 1];
            && id !in IllegalOnes(p, init)
            && IllegalOnes(p, ids) == IllegalOnes(p, init) + if Legal(p, id) then {} else {id}
  {
    assert ids == ids[..|ids| - 1] + [ids[|ids| - 1]];
  }

  /** Even on the fallback path the spelling given out is nobody else's: the id itself is
      outside the pattern, and every spelling taken is inside it or is another id's fallback. */
  lemma RespellingIsFree(p: Pattern, id: Text, illegal: set<Text>, reserved: set<Text>, prior: Spellings)
    requires Sound(p, illegal, reserved, prior) && id !in illegal && !Legal(p, id)
    requires forall w :: w in reserved ==> Legal(p, w)
    ensures var taken := reserved + prior.toWire.Values;
            var w := Respelled(p, id, taken);
            w !in taken && (Legal(p, w) || w == id)
  {
    var taken := reserved + prior.toWire.Values;
    assert forall x :: x in prior.toWire ==> prior.toWire[x] != id;
    SearchAnswers(p, id, taken, 0);
  }

  lemma AddIsSound(p: Pattern, illegal: set<Text>, reserved: set<Text>, s: Spellings, id: Text, w: Text)
    requires Sound(p, illegal, reserved, s) && id !in illegal
    requires w !in reserved + s.toWire.Values && (Legal(p, w) || w == id)
    ensures Sound(p, illegal + {id}, reserved, s.Add(id, w))
  {
    ValuesOfUpdate(s.toWire, id, w);
    var t := s.Add(id, w);
    assert t.toWire[id] == w && t.fromWire[w] == id;
    forall x | x in s.toWire ensures t.toWire[x] == s.toWire[x] && s.toWire[x] != w {
      assert s.toWire[x] in s.toWire.Values;
    }
  }

  /** For a history of any size: spelling is injective on its ids, a legal id keeps its own
      spelling, and every id sent is put back as the client sent it. */
  lemma WireIsInvertible(p: Pattern, messages: seq<Message>)
    ensures var ids, s := History(messages), Build(p, History(messages));
            && (forall a, b :: a in ids && b in ids && s.Wire(a) == s.Wire(b) ==> a == b)
            && (forall id :: id in ids && Legal(p, id) ==> s.Wire(id) == id)
            && (forall id :: id in ids ==> s.Original(s.Wire(id)) == id)
            && (forall id :: id in ids ==> Legal(p, s.Wire(id)) || s.Wire(id) == id)
  {
    var ids := History(messages);
    AssignIsSound(p, ids, LegalOnes(p, ids));
  }

  /** A history of at most 256 distinct ids is sent with legal ids only. */
  lemma WireIsLegal(p: Pattern, messages: seq<Message>)
    requires |History(messages)| <= 256
    ensures forall id :: id in History(messages) ==> Legal(p, Build(p, History(messages)).Wire(id))
  {
    var ids := History(messages);
    AssignIsLegal(p, ids, |ids|);
    assert ids[..|ids|] == ids;
    AssignIsSound(p, ids, LegalOnes(p, ids));
    var s := Build(p, ids);
    forall id | id in ids ensures Legal(p, s.Wire(id)) {
      assert !Legal(p, id) ==> id in IllegalOnes(p, ids);
    }
  }

  lemma {:induction false} AssignIsLegal(p: Pattern, ids: seq<Text>, n: nat)
    requires Distinct(ids) && |ids| <= 256 && n <= |ids|
    ensures AllLegal(p, Assign(p, ids[..n], LegalOnes(p, ids)))
  {
    if n > 0 {
      AssignIsLegal(p, ids, n - 1);
      assert ids[..n][..n - 1] == ids[..n - 1];
      if !Legal(p, ids[n - 1]) {
        var reserved := LegalOnes(p, ids);
        var prior := Assign(p, ids[..n - 1], reserved);
        TakenIsSmall(p, ids, n - 1);
        RespellingIsLegal(p, ids[n - 1], reserved + prior.toWire.Values);
        AddIsLegal(p, prior, ids[n - 1], Respelled(p, ids[n - 1], reserved + prior.toWire.Values));
      }
    }
  }

  ghost predicate AllLegal(p: Pattern, s: Spellings) {
    forall id :: id in s.toWire ==> Legal(p, s.toWire[id])
  }

  lemma AddIsLegal(p: Pattern, s: Spellings, id: Text, w: Text)
    requires AllLegal(p, s) && Legal(p, w)
    ensures AllLegal(p, s.Add(id, w))
  {
  }

  /** Before an illegal id is respelled, fewer spellings are taken than there are ids: each taken
      spelling belongs to a different id that is not this one. */
  lemma TakenIsSmall(p: Pattern, ids: seq<Text>, n: nat)
    requires Distinct(ids) && n < |ids| && !Legal(p, ids[n])
    ensures var reserved := LegalOnes(p, ids);
            |reserved + Assign(p, ids[..n], reserved).toWire.Values| < |ids|
  {
    var reserved, keys := LegalOnes(p, ids), IllegalOnes(p, ids[..n]);
    AssignIsSound(p, ids[..n], reserved);
    var prior := Assign(p, ids[..n], reserved);
    ValuesNoMoreThanKeys(prior.toWire);
    UnionSize(reserved, prior.toWire.Values);
    OthersAreFewer(p, ids, n);
  }

  lemma OthersAreFewer(p: Pattern, ids: seq<Text>, n: nat)
    requires Distinct(ids) && n < |ids| && !Legal(p, ids[n])
    ensures |LegalOnes(p, ids)| + |IllegalOnes(p, ids[..n])| < |ids|
  {
    var reserved, keys, all := LegalOnes(p, ids), IllegalOnes(p, ids[..n]), set id | id in ids;
    assert reserved !! keys;
    assert |reserved + keys| == |reserved| + |keys|;
    forall x | x in reserved + keys ensures x in all && x != ids[n] {
      assert x in ids[..n] ==> exists i :: 0 <= i < n && ids[i] == x;
    }
    SubsetSize(reserved + keys, all - {ids[n]});
    DistinctSize(ids);
  }

  // ── stability as a conversation grows ───────────────────────────────────────

  /** When a conversation grows, its earlier ids keep their spellings exactly when no newly added
      legal id is itself a spelling already handed out. */
  lemma SpellingsAreStable(p: Pattern, earlier: seq<Message>, extra: seq<Message>)
    requires |History(earlier)| <= 256
    ensures var before, after := History(earlier), History(earlier + extra);
            && before <= after
            && ((forall id :: id in before ==> Build(p, after).Wire(id) == Build(p, before).Wire(id))
                <==>
                (forall id :: id in after && id !in before && Legal(p, id) ==>
                                id !in Build(p, before).toWire.Values))
  {
    var before, after := History(earlier), History(earlier + extra);
    HistoryExtends(earlier, extra);
    var s1, s2 := Build(p, before), Build(p, after);
    var r1, r2 := LegalOnes(p, before), LegalOnes(p, after);
    AssignIsSound(p, before, r1);
    AssignIsSound(p, after, r2);
    if forall id :: id in after && id !in before && Legal(p, id) ==> id !in s1.toWire.Values {
      AssignIsLegal(p, before, |before|);
      assert before[..|before|] == before;
      assert r2 !! s1.toWire.Values by {
        forall w | w in s1.toWire.Values ensures w !in r2 {
          var id :| id in s1.toWire && s1.toWire[id] == w;
        }
      }
      SameUnderMoreReserved(p, before, r1, r2);
      AssignExtends(p, before, after, r2);
    } else {
      var w :| w in after && w !in before && Legal(p, w) && w in s1.toWire.Values;
      var id :| id in s1.toWire && s1.toWire[id] == w;
      assert s2.Wire(id) == s2.toWire[id] != w;
    }
  }

  function CallTurn(id: Text): Message { Message(Role.Assistant, [ToolUse(id, [], JsonTree.Null)]) }

  lemma OneCallHistory(id: Text)
    ensures History([CallTurn(id)]) == [id]
  {
    var blocks := CallTurn(id).content;
    assert blocks[..0] == [] && [CallTurn(id)][..0] == [];
    assert IdsOfBlocks(blocks) == [id] && Mentioned([CallTurn(id)]) == [id];
    assert [id][..0] == [];
    assert Firsts([id]) == [id];
  }

  /** A conversation that does respell: an id the pattern refuses, and later a call whose own id is what
      it was spelled as. */
  lemma LaterCallTakesTheSpelling(p: Pattern, id: Text)
    requires 1 <= |id| <= ID_MAX && !Legal(p, id)
    ensures var earlier := [CallTurn(id)];
            var later := earlier + [CallTurn(Build(p, History(earlier)).Wire(id))];
            Build(p, History(later)).Wire(id) != Build(p, History(earlier)).Wire(id) == Plain(p, id)
  {
    var earlier, plain := [CallTurn(id)], Plain(p, id);
    OneCallHistory(id);
    FirstSpelling(p, id);
    var extra := [CallTurn(plain)];
    SpellingsAreStable(p, earlier, extra);
    var before, after := History(earlier), History(earlier + extra);
    IdInLast(earlier, plain);
    assert plain in after && plain !in before && Legal(p, plain);
    assert Build(p, before).toWire[id] == plain;
    assert forall x :: x in before ==> x == id;
  }

  lemma FirstSpelling(p: Pattern, id: Text)
    requires 1 <= |id| <= ID_MAX && !Legal(p, id)
    ensures Build(p, [id]) == Spellings(map[id := Plain(p, id)], map[Plain(p, id) := id])
    ensures Legal(p, Plain(p, id)) && Plain(p, id) != id
  {
    assert [id][..0] == [];
    assert LegalOnes(p, [id]) == {};
    assert Assign(p, [], {}) == Spellings(map[], map[]);
    assert Assign(p, [], {}).toWire.Values == {};
    assert Respelled(p, id, {}) == Plain(p, id);
  }

  lemma IdInLast(earlier: seq<Message>, id: Text)
    ensures id in History(earlier + [CallTurn(id)])
  {
    var messages := earlier + [CallTurn(id)];
    assert messages[..|earlier|] == earlier;
    assert CallTurn(id).content[..0] == [];
    assert IdsOfBlocks(CallTurn(id).content) == [id];
    FirstsAreDistinct(Mentioned(messages));
  }

  lemma {:induction false} MentionedExtends(a: seq<Message>, b: seq<Message>)
    ensures Mentioned(a) <= Mentioned(a + b)
    decreases |b|
  {
    if b == [] {
      assert a + b == a;
    } else {
      MentionedExtends(a, b[..|b| - 1]);
      assert (a + b)[..|a + b| - 1] == a + b[..|b| - 1];
    }
  }

  lemma {:induction false} FirstsExtends(a: seq<Text>, b: seq<Text>)
    ensures Firsts(a) <= Firsts(a + b)
    decreases |b|
  {
    if b == [] {
      assert a + b == a;
    } else {
      FirstsExtends(a, b[..|b| - 1]);
      assert (a + b)[..|a + b| - 1] == a + b[..|b| - 1];
    }
  }

  lemma HistoryExtends(earlier: seq<Message>, extra: seq<Message>)
    ensures History(earlier) <= History(earlier + extra)
  {
    MentionedExtends(earlier, extra);
    var a, b := Mentioned(earlier), Mentioned(earlier + extra);
    FirstsExtends(a, b[|a|..]);
    assert a + b[|a|..] == b;
  }

  /** Reserving more spellings, none of which was handed out, changes no respelling. */
  lemma {:induction false} SameUnderMoreReserved(p: Pattern, ids: seq<Text>, r1: set<Text>, r2: set<Text>)
    requires Distinct(ids) && r1 <= r2
    requires forall w :: w in r1 ==> Legal(p, w)
    requires r2 !! Assign(p, ids, r1).toWire.Values && AllLegal(p, Assign(p, ids, r1))
    ensures Assign(p, ids, r2) == Assign(p, ids, r1)
  {
    if ids != [] {
      var init, id := ids[..|ids| - 1], ids[|ids| - 1];
      assert ids[..|ids|] == ids;
      AssignStep(p, ids, |ids| - 1, r1);
      var prior := Assign(p, init, r1);
      if Legal(p, id) {
        SameUnderMoreReserved(p, init, r1, r2);
      } else {
        var taken := prior.toWire.Values;
        var w := Respelled(p, id, r1 + taken);
        AddKeepsOthers(prior, id, w);
        SameUnderMoreReserved(p, init, r1, r2);
        AssignIsSound(p, init, r1);
        RespellingIsFree(p, id, IllegalOnes(p, init), r1, prior);
        assert prior.Add(id, w).toWire[id] == w;
        RespellSame(p, id, r1 + taken, r2 + taken);
      }
    }
  }

  lemma AddKeepsOthers(s: Spellings, id: Text, w: Text)
    requires id !in s.toWire
    ensures forall x :: x in s.toWire ==> s.Add(id, w).toWire[x] == s.toWire[x]
  {
  }

  lemma RespellSame(p: Pattern, id: Text, t1: set<Text>, t2: set<Text>)
    requires t1 <= t2 && !Legal(p, id)
    requires Legal(p, Respelled(p, id, t1)) && Respelled(p, id, t1) !in t2
    ensures Respelled(p, id, t2) == Respelled(p, id, t1)
  {
    SubsetSize(t1, t2);
    var plain := Plain(p, id);
    if !(1 <= |plain| <= ID_MAX && plain !in t1) {
      SearchSame(p, id, t1, t2, 0);
    }
  }

  lemma {:induction false} SearchSame(p: Pattern, id: Text, t1: set<Text>, t2: set<Text>, salt: nat)
    requires t1 <= t2 && |t1| <= |t2|
    ensures !Legal(p, id) && Legal(p, Search(p, id, t1, salt)) && Search(p, id, t1, salt) !in t2 ==>
              Search(p, id, t2, salt) == Search(p, id, t1, salt)
    decreases |t1| + 1 - salt
  {
    if salt <= |t1| && Candidate(p, id, salt) in t1 {
      SearchSame(p, id, t1, t2, salt + 1);
    }
  }

  /** Later ids do not disturb the spellings of earlier ones. */
  lemma {:induction false} AssignExtends(p: Pattern, before: seq<Text>, after: seq<Text>, reserved: set<Text>)
    requires before <= after && Distinct(after)
    ensures forall id :: id in before ==>
                           Assign(p, after, reserved).Wire(id) == Assign(p, before, reserved).Wire(id)
    decreases |after|
  {
    if |before| < |after| {
      var init := after[..|after| - 1];
      AssignExtends(p, before, init, reserved);
      assert forall id :: id in before ==> id != after[|after| - 1];
    } else {
      assert before == after;
    }
  }

  // ── what a spelling looks like ──────────────────────────────────────────────

  /** The first `n` bytes of `w` are those of `id`, with an underscore for each the pattern refuses. */
  ghost predicate Follows(p: Pattern, id: Text, w: Text, n: nat) {
    n <= |id| && n <= |w| && forall i :: 0 <= i < n ==> w[i] == if Allowed(p, id[i]) then id[i] else UNDERSCORE
  }

  /** Byte for byte; or its first 47 bytes, an underscore, and sixteen digits of a salted hash. */
  ghost predicate SpelledFrom(p: Pattern, id: Text, w: Text) {
    var n := if |id| < 47 then |id| else 47;
    || (|w| == |id| && Follows(p, id, w, |id|))
    || (|w| == n + 17 && Follows(p, id, w, n) && w[n] == UNDERSCORE && exists salt :: HashedTail(id, w, n, salt))
  }

  ghost predicate HashedTail(id: Text, w: Text, n: nat, salt: nat) {
    |w| == n + 17 && w[n + 1..] == Fnv.Hex(Fnv.Hash(id, salt), 16)
  }

  lemma CandidateIsSpelled(p: Pattern, id: Text, salt: nat)
    ensures SpelledFrom(p, id, Candidate(p, id, salt))
  {
    var w, n := Candidate(p, id, salt), if |id| < 47 then |id| else 47;
    assert w[n + 1..] == Fnv.Hex(Fnv.Hash(id, salt), 16);
    assert HashedTail(id, w, n, salt);
  }

  lemma {:induction false} SearchIsSpelled(p: Pattern, id: Text, taken: set<Text>, salt: nat)
    ensures var w := Search(p, id, taken, salt); w == id || SpelledFrom(p, id, w)
    decreases |taken| + 1 - salt
  {
    if salt <= |taken| {
      CandidateIsSpelled(p, id, salt);
      if Candidate(p, id, salt) in taken {
        SearchIsSpelled(p, id, taken, salt + 1);
      }
    }
  }

  lemma RespelledIsSpelled(p: Pattern, id: Text, taken: set<Text>)
    ensures var w := Respelled(p, id, taken);
            && (w == id || SpelledFrom(p, id, w))
            && (1 <= |id| <= 64 && Plain(p, id) !in taken ==> |w| == |id| && Follows(p, id, w, |id|))
  {
    SearchIsSpelled(p, id, taken, 0);
  }

  ghost predicate AllSpelled(p: Pattern, s: Spellings) {
    forall id :: id in s.toWire ==> s.toWire[id] == id || SpelledFrom(p, id, s.toWire[id])
  }

  lemma AddIsSpelled(p: Pattern, s: Spellings, id: Text, w: Text)
    requires AllSpelled(p, s) && (w == id || SpelledFrom(p, id, w))
    ensures AllSpelled(p, s.Add(id, w))
  {
  }

  lemma {:induction false} AssignIsSpelled(p: Pattern, ids: seq<Text>, reserved: set<Text>)
    ensures AllSpelled(p, Assign(p, ids, reserved))
  {
    if ids != [] {
      var init, id := ids[..|ids| - 1], ids[|ids| - 1];
      AssignIsSpelled(p, init, reserved);
      var prior := Assign(p, init, reserved);
      var w := Respelled(p, id, reserved + prior.toWire.Values);
      RespelledIsSpelled(p, id, reserved + prior.toWire.Values);
      AddIsSpelled(p, prior, id, w);
    }
  }

  /** 1 to 64 letters, digits, underscores and hyphens, and for Converse dots and colons. */
  ghost predicate OfTheseBytes(p: Pattern, w: Text) {
    && 1 <= |w| <= 64
    && forall i :: 0 <= i < |w| ==>
         || 48 <= w[i] <= 57 || 65 <= w[i] <= 90 || 97 <= w[i] <= 122 || w[i] == 95 || w[i] == 45
         || (p == ConversePattern && (w[i] == 46 || w[i] == 58))
  }

  lemma LegalBytes(p: Pattern, w: Text)
    ensures Legal(p, w) <==> OfTheseBytes(p, w)
  {
  }

  /** Every id of a history is sent as it is, or as `SpelledFrom` says; and with at most 256 of them, in
      the bytes the upstream takes. */
  lemma WireIsSpelled(p: Pattern, messages: seq<Message>, id: Text)
    requires id in History(messages)
    ensures var w := Build(p, History(messages)).Wire(id);
            (w == id || SpelledFrom(p, id, w)) && (|History(messages)| <= 256 ==> OfTheseBytes(p, w))
  {
    AssignIsSpelled(p, History(messages), LegalOnes(p, History(messages)));
    LegalBytes(p, Build(p, History(messages)).Wire(id));
    if |History(messages)| <= 256 {
      WireIsLegal(p, messages);
    }
  }
}
