/** Fields an ingress body carried that canonical has no name for: captured by subtraction, pruned,
    and merged back into what a renderer wrote (`Passthrough` in
    `crates/oag-proto/src/canonical.rs`). */
module Passthrough {
  import opened Bytes
  import opened Finite
  import opened JsonTree

  const DOT: Byte := 46

  datatype Dialect = AnthropicMessages | ChatCompletions | Responses | Gemini

  // ── paths ───────────────────────────────────────────────────────────────────

  /** `maxOutputTokens` as `max_output_tokens`. */
  function SnakeOf(camel: Text): Text {
    if camel == [] then []
    else (if 65 <= camel[0] <= 90 then [UNDERSCORE, camel[0] + 32] else [camel[0]]) + SnakeOf(camel[1..])
  }

  predicate IsUpper(b: Byte) { 65 <= b <= 90 }

  ghost predicate NoUpper(s: Text) { forall i :: 0 <= i < |s| ==> !IsUpper(s[i]) }

  /** The way back: an underscore and a small letter are the capital. */
  function CamelOf(snake: Text): Text {
    if snake == [] then []
    else if snake[0] == UNDERSCORE && |snake| > 1 && 97 <= snake[1] <= 122
    then [snake[1] - 32] + CamelOf(snake[2..])
    else [snake[0]] + CamelOf(snake[1..])
  }

  /** The other spelling holds no capital, is the name itself exactly when that holds none, and says no
      less: the name comes back out of it when it had no underscore. */
  lemma {:induction false} OtherSpelling(camel: Text)
    ensures NoUpper(SnakeOf(camel)) && |SnakeOf(camel)| >= |camel|
    ensures SnakeOf(camel) == camel <==> NoUpper(camel)
    ensures UNDERSCORE !in camel ==> CamelOf(SnakeOf(camel)) == camel
  {
    if camel != [] {
      var rest := camel[1..];
      OtherSpelling(rest);
      assert camel == [camel[0]] + rest;
      if IsUpper(camel[0]) {
        var snake := [UNDERSCORE, camel[0] + 32] + SnakeOf(rest);
        assert snake[2..] == SnakeOf(rest);
        assert |SnakeOf(camel)| > |camel| && IsUpper(camel[0]);
      } else {
        assert SnakeOf(camel)[1..] == SnakeOf(rest);
        assert forall i :: 0 <= i < |rest| ==> rest[i] == camel[i + 1];
        assert forall i :: 1 <= i < |camel| ==> camel[i] == rest[i - 1];
      }
    }
  }

  /** Segments put together again with dots. */
  function Joined(segments: seq<Text>): Text {
    if segments == [] then []
    else if |segments| == 1 then segments[0]
    else segments[0] + [DOT] + Joined(segments[1..])
  }

  /** A dotted path is read at its dots and nowhere else. */
  lemma {:induction false} SegmentsAre(path: Text)
    ensures Joined(Segments(path)) == path && forall i :: 0 <= i < |Segments(path)| ==> DOT !in Segments(path)[i]
  {
    if path != [] {
      var rest := Segments(path[1..]);
      SegmentsAre(path[1..]);
      assert path == [path[0]] + path[1..];
      if path[0] == DOT {
        assert ([[]] + rest)[1..] == rest;
      } else {
        var all := [[path[0]] + rest[0]] + rest[1..];
        assert all[1..] == rest[1..];
      }
    }
  }

  /** A dotted path as its segments. */
  function Segments(path: Text): (r: seq<Text>)
    ensures r != []
  {
    if path == [] then [[]]
    else
      var rest := Segments(path[1..]);
      if path[0] == DOT then [[]] + rest else [[path[0]] + rest[0]] + rest[1..]
  }

  /** A key matches a segment in either spelling. */
  predicate Spells(key: Text, segment: Text) { key == segment || key == SnakeOf(segment) }

  /** `p` lies at or under the subtracted path. */
  predicate Under(p: seq<Text>, path: seq<Text>) {
    |path| <= |p| && forall i :: 0 <= i < |path| ==> Spells(p[i], path[i])
  }

  /** The value at a path of object keys. */
  function Get(v: Json, p: seq<Text>): Option<Json>
    decreases |p|
  {
    if p == [] then Some(v)
    else if v.Object? && p[0] in v.fields then Get(v.fields[p[0]], p[1..]) else None
  }

  /** A value other than an object, at its own path. */
  predicate HasLeaf(v: Json, p: seq<Text>, x: Json) { Get(v, p) == Some(x) && !x.Object? }

  // ── subtraction ─────────────────────────────────────────────────────────────

  function RemoveUnder(fields: map<Text, Json>, key: Text, rest: seq<Text>): map<Text, Json>
    requires rest != []
    decreases |rest|, 1
  {
    if key in fields then fields[key := RemovePath(fields[key], rest)] else fields
  }

  /** Remove one path, in either spelling of each segment. */
  function RemovePath(v: Json, path: seq<Text>): Json
    requires path != []
    decreases |path|, 0
  {
    if !v.Object? then v
    else if |path| == 1 then Object(v.fields - {path[0], SnakeOf(path[0])})
    else Object(RemoveUnder(RemoveUnder(v.fields, path[0], path[1..]), SnakeOf(path[0]), path[1..]))
  }

  lemma {:induction false} RemoveUnderLeaves(fields: map<Text, Json>, key: Text, rest: seq<Text>, p: seq<Text>, x: Json)
    requires rest != [] && p != []
    ensures HasLeaf(Object(RemoveUnder(fields, key, rest)), p, x) <==>
            HasLeaf(Object(fields), p, x) && !(p[0] == key && Under(p[1..], rest))
    decreases |rest|, 1
  {
    if key in fields && p[0] == key {
      RemovePathLeaves(fields[key], rest, p[1..], x);
    }
  }

  /** Removing a path removes exactly the leaves at or under it. */
  lemma {:induction false} RemovePathLeaves(v: Json, path: seq<Text>, p: seq<Text>, x: Json)
    requires path != []
    ensures HasLeaf(RemovePath(v, path), p, x) <==> HasLeaf(v, p, x) && !Under(p, path)
    decreases |path|, 0
  {
    if v.Object? && p != [] {
      if |path| == 1 {
        assert Under(p, path) <==> Spells(p[0], path[0]);
      } else {
        var head, snake, rest := path[0], SnakeOf(path[0]), path[1..];
        RemoveUnderLeaves(v.fields, head, rest, p, x);
        RemoveUnderLeaves(RemoveUnder(v.fields, head, rest), snake, rest, p, x);
        UnderSplits(p, path);
      }
    }
  }

  lemma UnderSplits(p: seq<Text>, path: seq<Text>)
    requires p != [] && |path| > 1
    ensures Under(p, path) <==> Spells(p[0], path[0]) && Under(p[1..], path[1..])
  {
    if Under(p, path) {
      forall i | 0 <= i < |path[1..]| ensures Spells(p[1..][i], path[1..][i]) {
        assert Spells(p[i + 1], path[i + 1]);
      }
    }
    if Spells(p[0], path[0]) && Under(p[1..], path[1..]) {
      forall i | 0 <= i < |path| ensures Spells(p[i], path[i]) {
        if i > 0 {
          assert Spells(p[1..][i - 1], path[1..][i - 1]);
        }
      }
    }
  }

  // ── pruning ─────────────────────────────────────────────────────────────────

  /** Drop empty objects, depth first. */
  function Prune(v: Json): Json
    decreases v
  {
    if !v.Object? then v
    else Object(map k | k in v.fields && Prune(v.fields[k]) != EMPTY_OBJECT :: Prune(v.fields[k]))
  }

  /** No empty object below the top, arrays aside. */
  ghost predicate NoEmptyBelow(v: Json)
    decreases v
  {
    v.Object? ==> forall k :: k in v.fields ==> v.fields[k] != EMPTY_OBJECT && NoEmptyBelow(v.fields[k])
  }

  lemma {:induction false} PruneLeavesNoneEmpty(v: Json)
    ensures NoEmptyBelow(Prune(v))
    decreases v
  {
    if v.Object? {
      forall k | k in v.fields ensures NoEmptyBelow(Prune(v.fields[k])) {
        PruneLeavesNoneEmpty(v.fields[k]);
      }
    }
  }

  /** Pruning loses no leaf and adds none. */
  lemma {:induction false} PruneKeepsLeaves(v: Json, p: seq<Text>, x: Json)
    ensures HasLeaf(Prune(v), p, x) <==> HasLeaf(v, p, x)
    decreases |p|
  {
    if v.Object? && p != [] && p[0] in v.fields {
      PruneKeepsLeaves(v.fields[p[0]], p[1..], x);
      EmptyHasNoLeaf(p[1..], x);
    }
  }

  lemma EmptyHasNoLeaf(p: seq<Text>, x: Json)
    ensures !HasLeaf(EMPTY_OBJECT, p, x)
  {
  }

  /** An object left by pruning that is not empty holds a leaf. */
  lemma {:induction false} SomethingIsLeft(v: Json) returns (p: seq<Text>, x: Json)
    requires v.Object? && v != EMPTY_OBJECT && NoEmptyBelow(v)
    ensures p != [] && HasLeaf(v, p, x)
    decreases v
  {
    assert v.fields != map[];
    var k :| k in v.fields;
    var child := v.fields[k];
    if child.Object? {
      var q;
      q, x := SomethingIsLeft(child);
      p := [k] + q;
      assert p[1..] == q;
    } else {
      p, x := [k], child;
      assert p[1..] == [];
    }
  }

  // ── capture ─────────────────────────────────────────────────────────────────

  function RemoveAll(v: Json, paths: seq<Text>): Json {
    if paths == [] then v else RemovePath(RemoveAll(v, paths[..|paths| - 1]), Segments(paths[|paths| - 1]))
  }

  predicate Subtracted(paths: seq<Text>, p: seq<Text>) {
    exists i :: 0 <= i < |paths| && Under(p, Segments(paths[i]))
  }

  datatype Residue = Residue(dialect: Dialect, body: Json)

  function Captured(dialect: Dialect, body: Json, paths: seq<Text>): Option<Residue> {
    var residue := Prune(RemoveAll(body, paths));
    if residue.Object? && residue != EMPTY_OBJECT then Some(Residue(dialect, residue)) else None
  }

  method Capture(dialect: Dialect, body: Json, paths: seq<Text>) returns (r: Option<Residue>)
    ensures r == Captured(dialect, body, paths)
  {
    var residue := body;
    for i := 0 to |paths|
      invariant residue == RemoveAll(body, paths[..i])
    {
      assert paths[..i + 1][..i] == paths[..i];
      residue := RemovePath(residue, Segments(paths[i]));
    }
    assert paths[..|paths|] == paths;
    residue := Prune(residue);
    r := if residue.Object? && residue != EMPTY_OBJECT then Some(Residue(dialect, residue)) else None;
  }

  lemma {:induction false} RemoveAllLeaves(v: Json, paths: seq<Text>, p: seq<Text>, x: Json)
    ensures HasLeaf(RemoveAll(v, paths), p, x) <==> HasLeaf(v, p, x) && !Subtracted(paths, p)
  {
    if paths != [] {
      var init, last := paths[..|paths| - 1], paths[|paths| - 1];
      RemoveAllLeaves(v, init, p, x);
      RemovePathLeaves(RemoveAll(v, init), Segments(last), p, x);
      SubtractedSplits(paths, p);
    }
  }

  lemma SubtractedSplits(paths: seq<Text>, p: seq<Text>)
    requires paths != []
    ensures Subtracted(paths, p) <==> Subtracted(paths[..|paths| - 1], p) || Under(p, Segments(paths[|paths| - 1]))
  {
    var init := paths[..|paths| - 1];
    if Subtracted(init, p) {
      var i :| 0 <= i < |init| && Under(p, Segments(init[i]));
      assert Under(p, Segments(paths[i]));
    }
    if Subtracted(paths, p) && !Under(p, Segments(paths[|paths| - 1])) {
      var i :| 0 <= i < |paths| && Under(p, Segments(paths[i]));
      assert Under(p, Segments(init[i]));
    }
  }

  /** The residue holds exactly the leaves of the body that no subtracted path covers, each at its
      own path, and no empty object outside arrays. */
  lemma ResidueIsWhatIsLeft(dialect: Dialect, body: Json, paths: seq<Text>, p: seq<Text>, x: Json)
    requires Captured(dialect, body, paths).Some?
    ensures var r := Captured(dialect, body, paths).value;
            && (HasLeaf(r.body, p, x) <==> HasLeaf(body, p, x) && !Subtracted(paths, p))
            && r.body.Object? && r.body != EMPTY_OBJECT && NoEmptyBelow(r.body)
  {
    RemoveAllLeaves(body, paths, p, x);
    PruneKeepsLeaves(RemoveAll(body, paths), p, x);
    PruneLeavesNoneEmpty(RemoveAll(body, paths));
  }

  lemma {:induction false} RemoveAllKeepsKind(v: Json, paths: seq<Text>)
    ensures RemoveAll(v, paths).Object? == v.Object? && (!v.Object? ==> RemoveAll(v, paths) == v)
  {
    if paths != [] {
      RemoveAllKeepsKind(v, paths[..|paths| - 1]);
    }
  }

  /** Nothing is captured exactly when the body is no object or every leaf of it is subtracted. */
  lemma NothingCapturedExactlyWhen(dialect: Dialect, body: Json, paths: seq<Text>)
    ensures Captured(dialect, body, paths).None? <==>
            (body.Object? ==> forall p, x :: HasLeaf(body, p, x) ==> Subtracted(paths, p))
  {
    var left := RemoveAll(body, paths);
    RemoveAllKeepsKind(body, paths);
    if body.Object? {
      if Captured(dialect, body, paths).None? {
        forall p, x | HasLeaf(body, p, x) ensures Subtracted(paths, p) {
          RemoveAllLeaves(body, paths, p, x);
          PruneKeepsLeaves(left, p, x);
          EmptyHasNoLeaf(p, x);
        }
      } else {
        PruneLeavesNoneEmpty(left);
        var p, x := SomethingIsLeft(Prune(left));
        PruneKeepsLeaves(left, p, x);
        RemoveAllLeaves(body, paths, p, x);
      }
    }
  }

  // ── which objects are left ──────────────────────────────────────────────────

  lemma {:induction false} GetConcat(v: Json, p: seq<Text>, q: seq<Text>)
    ensures Get(v, p + q) == match Get(v, p) case None => None case Some(w) => Get(w, q)
    decreases |p|
  {
    if p == [] {
      assert p + q == q;
    } else {
      assert (p + q)[0] == p[0] && (p + q)[1..] == p[1..] + q;
      if v.Object? && p[0] in v.fields {
        GetConcat(v.fields[p[0]], p[1..], q);
      }
    }
  }

  lemma {:induction false} NoEmptyAt(v: Json, p: seq<Text>)
    requires NoEmptyBelow(v) && p != [] && Get(v, p).Some?
    ensures Get(v, p).value != EMPTY_OBJECT && NoEmptyBelow(Get(v, p).value)
    decreases |p|
  {
    if |p| > 1 {
      NoEmptyAt(v.fields[p[0]], p[1..]);
    }
  }

  ghost predicate LeafUnder(v: Json, p: seq<Text>, q: seq<Text>) { exists x :: HasLeaf(v, p + q, x) }

  /** Some leaf at or under `p` is not subtracted. */
  ghost predicate KeepsLeafUnder(body: Json, paths: seq<Text>, p: seq<Text>) {
    exists q :: LeafUnder(body, p, q) && !Subtracted(paths, p + q)
  }

  function Left(body: Json, paths: seq<Text>): Json { Prune(RemoveAll(body, paths)) }

  lemma LeavesLeft(body: Json, paths: seq<Text>, p: seq<Text>, x: Json)
    ensures HasLeaf(Left(body, paths), p, x) <==> HasLeaf(body, p, x) && !Subtracted(paths, p)
  {
    PruneKeepsLeaves(RemoveAll(body, paths), p, x);
    RemoveAllLeaves(body, paths, p, x);
  }

  /** An object of the body is still there exactly when some leaf under it is. */
  lemma ObjectIsLeftExactlyWhen(body: Json, paths: seq<Text>, p: seq<Text>)
    requires p != [] && Get(body, p).Some? && Get(body, p).value.Object?
    ensures Get(Left(body, paths), p).Some? <==> KeepsLeafUnder(body, paths, p)
  {
    var left := Left(body, paths);
    if Get(left, p).Some? {
      LeafIsLeft(body, paths, p);
    }
    if q :| LeafUnder(body, p, q) && !Subtracted(paths, p + q) {
      var x :| HasLeaf(body, p + q, x);
      LeavesLeft(body, paths, p + q, x);
      GetConcat(left, p, q);
    }
  }

  lemma LeafIsLeft(body: Json, paths: seq<Text>, p: seq<Text>)
    requires p != [] && Get(body, p).Some? && Get(body, p).value.Object? && Get(Left(body, paths), p).Some?
    ensures KeepsLeafUnder(body, paths, p)
  {
    var left := Left(body, paths);
    var y := Get(left, p).value;
    PruneLeavesNoneEmpty(RemoveAll(body, paths));
    NoEmptyAt(left, p);
    LeavesLeft(body, paths, p, y);
    assert y.Object?;
    var q, x := SomethingIsLeft(y);
    GetConcat(left, p, q);
    LeavesLeft(body, paths, p + q, x);
    assert LeafUnder(body, p, q);
  }

  ghost predicate ObjectAt(body: Json, paths: seq<Text>, p: seq<Text>) {
    p != [] && Get(body, p).Some? && Get(body, p).value.Object? && !Subtracted(paths, p)
  }

  /** No leaf under the object at `p` is subtracted, and neither is the object. */
  ghost predicate Untouched(body: Json, paths: seq<Text>, p: seq<Text>) {
    ObjectAt(body, paths, p) && forall q :: LeafUnder(body, p, q) ==> !Subtracted(paths, p + q)
  }

  ghost predicate Leafless(body: Json, p: seq<Text>) { forall q :: !LeafUnder(body, p, q) }

  /** The residue has nothing at `p`. */
  ghost predicate Dropped(dialect: Dialect, body: Json, paths: seq<Text>, p: seq<Text>) {
    match Captured(dialect, body, paths)
    case None => true
    case Some(r) => Get(r.body, p).None?
  }

  lemma DroppedMeansNotLeft(dialect: Dialect, body: Json, paths: seq<Text>, p: seq<Text>)
    requires p != []
    ensures Dropped(dialect, body, paths, p) <==> Get(Left(body, paths), p).None?
  {
  }

  /** An object from which nothing was subtracted is dropped all the same exactly when it holds no
      leaf at all; so capture drops more than subtraction emptied exactly when the body holds a leafless
      object at a path that is not subtracted. */
  lemma DropsUntouchedExactlyWhen(dialect: Dialect, body: Json, paths: seq<Text>)
    ensures forall p :: Untouched(body, paths, p) ==> (Dropped(dialect, body, paths, p) <==> Leafless(body, p))
    ensures (exists p :: Untouched(body, paths, p) && Dropped(dialect, body, paths, p)) <==>
            (exists p :: ObjectAt(body, paths, p) && Leafless(body, p))
  {
    forall p | ObjectAt(body, paths, p)
      ensures Dropped(dialect, body, paths, p) <==> !KeepsLeafUnder(body, paths, p)
    {
      DroppedMeansNotLeft(dialect, body, paths, p);
      ObjectIsLeftExactlyWhen(body, paths, p);
    }
    if p :| ObjectAt(body, paths, p) && Leafless(body, p) {
      assert Untouched(body, paths, p);
    }
  }

  /** Pruning also drops an object that was empty to begin with: a vendor field whose whole value
      is `{}` is not captured, though nothing subtracted it. */
  lemma EmptyVendorFieldIsDropped(dialect: Dialect, key: Text)
    ensures Captured(dialect, Object(map[key := EMPTY_OBJECT]), []).None?
  {
    var body := Object(map[key := EMPTY_OBJECT]);
    assert RemoveAll(body, []) == body;
    assert body.fields[key] == EMPTY_OBJECT && Prune(EMPTY_OBJECT) == EMPTY_OBJECT;
    assert Prune(body).fields.Keys == {};
    assert Prune(body).fields == map[];
  }

  // ── both spellings of a path ────────────────────────────────────────────────

  lemma {:induction false} OneSegment(name: Text)
    requires DOT !in name
    ensures Segments(name) == [name]
  {
    if name != [] {
      OneSegment(name[1..]);
      assert name == [name[0]] + name[1..];
    }
  }

  lemma {:induction false} TwoSegments(head: Text, tail: Text)
    requires DOT !in head && DOT !in tail
    ensures Segments(head + [DOT] + tail) == [head, tail]
  {
    var path := head + [DOT] + tail;
    if head == [] {
      OneSegment(tail);
      assert path[1..] == tail;
    } else {
      TwoSegments(head[1..], tail);
      assert path[1..] == head[1..] + [DOT] + tail;
      assert head == [head[0]] + head[1..];
    }
  }

  function Nested(outer: Text, inner: Text, x: Json): Json { Object(map[outer := Object(map[inner := x])]) }

  /** A field at a subtracted path of two segments is subtracted under all four spellings of it. */
  lemma BothSpellingsAreSubtracted(dialect: Dialect, head: Text, tail: Text, outer: Text, inner: Text, x: Json)
    requires DOT !in head && DOT !in tail && !x.Object?
    requires outer == head || outer == SnakeOf(head)
    requires inner == tail || inner == SnakeOf(tail)
    ensures Captured(dialect, Nested(outer, inner, x), [head + [DOT] + tail]).None?
  {
    var path, body := head + [DOT] + tail, Nested(outer, inner, x);
    TwoSegments(head, tail);
    NothingCapturedExactlyWhen(dialect, body, [path]);
    forall p, y | HasLeaf(body, p, y) ensures Subtracted([path], p) {
      LeafOfNested(outer, inner, x, p, y);
      assert Under(p, Segments([path][0]));
    }
  }

  lemma LeafOfNested(outer: Text, inner: Text, x: Json, p: seq<Text>, y: Json)
    requires HasLeaf(Nested(outer, inner, x), p, y) && !x.Object?
    ensures p == [outer, inner]
  {
    var within := Object(map[inner := x]);
    assert p != [] && p[0] == outer && Get(within, p[1..]) == Some(y);
    LeafOfOne(inner, x, p[1..], y);
    assert p == [p[0]] + p[1..];
  }

  lemma LeafOfOne(key: Text, x: Json, p: seq<Text>, y: Json)
    requires HasLeaf(Object(map[key := x]), p, y) && !x.Object?
    ensures p == [key]
  {
    assert p != [] && p[0] == key && Get(x, p[1..]) == Some(y);
    assert p[1..] == [];
    assert p == [p[0]] + p[1..];
  }

  lemma {:induction false} SnakeConcat(x: Text, y: Text)
    ensures SnakeOf(x + y) == SnakeOf(x) + SnakeOf(y)
  {
    if x == [] {
      assert x + y == y;
    } else {
      SnakeConcat(x[1..], y);
      assert (x + y)[0] == x[0] && (x + y)[1..] == x[1..] + y;
      Associates(if IsUpper(x[0]) then [UNDERSCORE, x[0] + 32] else [x[0]], SnakeOf(x[1..]), SnakeOf(y));
    }
  }

  /** A word, a capital, and the rest of the second word. */
  lemma SnakeWord(word: Text, capital: Byte, rest: Text)
    requires NoUpper(word) && NoUpper(rest) && IsUpper(capital)
    ensures SnakeOf(word + [capital] + rest) == word + [UNDERSCORE, capital + 32] + rest
  {
    SnakeConcat(word + [capital], rest);
    SnakeConcat(word, [capital]);
    OtherSpelling(word);
    OtherSpelling(rest);
    assert SnakeOf([capital][1..]) == [];
  }

  // "generation", "onfig", "max", "utput" and "okens"
  const GENERATION: Text := [103, 101, 110, 101, 114, 97, 116, 105, 111, 110]
  const ONFIG: Text := [111, 110, 102, 105, 103]
  const MAX: Text := [109, 97, 120]
  const UTPUT: Text := [117, 116, 112, 117, 116]
  const OKENS: Text := [111, 107, 101, 110, 115]

  /** `generationConfig`, with its capital or with an underscore. */
  function GenerationConfig(snake: bool): Text { GENERATION + (if snake then [UNDERSCORE, 99] else [67]) + ONFIG }

  /** `maxOutputTokens`, likewise. */
  function MaxOutputTokens(snake: bool): Text {
    (MAX + (if snake then [UNDERSCORE, 111] else [79]) + UTPUT) + ([] + (if snake then [UNDERSCORE, 116] else [84]) + OKENS)
  }

  /** Small letters only. */
  ghost predicate Small(s: Text) { forall i :: 0 <= i < |s| ==> 97 <= s[i] <= 122 }

  lemma WordsAreSmall()
    ensures Small(GENERATION) && Small(ONFIG) && Small(MAX) && Small(UTPUT) && Small(OKENS)
  {
  }

  lemma CapitalSpelling(word: Text, capital: Byte, rest: Text)
    requires Small(word) && Small(rest) && IsUpper(capital)
    ensures SnakeOf(word + [capital] + rest) == word + [UNDERSCORE, capital + 32] + rest
    ensures DOT !in word + [capital] + rest
  {
    SnakeWord(word, capital, rest);
  }

  lemma ConfigSpelling(snake: bool)
    requires !snake
    ensures SnakeOf(GenerationConfig(snake)) == GenerationConfig(true) && DOT !in GenerationConfig(snake)
  {
    WordsAreSmall();
    CapitalSpelling(GENERATION, 67, ONFIG);
  }

  lemma TokensSpelling(snake: bool)
    requires !snake
    ensures SnakeOf(MaxOutputTokens(snake)) == MaxOutputTokens(true) && DOT !in MaxOutputTokens(snake)
  {
    WordsAreSmall();
    ThreeWords(MAX, 79, UTPUT, 84, OKENS);
  }

  lemma ThreeWords(a: Text, x: Byte, b: Text, y: Byte, c: Text)
    requires Small(a) && Small(b) && Small(c) && IsUpper(x) && IsUpper(y)
    ensures SnakeOf((a + [x] + b) + ([] + [y] + c)) == (a + [UNDERSCORE, x + 32] + b) + ([] + [UNDERSCORE, y + 32] + c)
    ensures DOT !in (a + [x] + b) + ([] + [y] + c)
  {
    CapitalSpelling(a, x, b);
    CapitalSpelling([], y, c);
    SnakeConcat(a + [x] + b, [] + [y] + c);
  }

  /** So `generationConfig.maxOutputTokens` leaves nothing of a body that spells either part either way. */
  lemma MaxOutputTokensIsSubtracted(dialect: Dialect, x: Json, outer: bool, inner: bool)
    requires !x.Object?
    ensures Captured(dialect, Nested(GenerationConfig(outer), MaxOutputTokens(inner), x),
                     [GenerationConfig(false) + [DOT] + MaxOutputTokens(false)]).None?
  {
    ConfigSpelling(false);
    TokensSpelling(false);
    BothSpellingsAreSubtracted(dialect, GenerationConfig(false), MaxOutputTokens(false), GenerationConfig(outer),
                               MaxOutputTokens(inner), x);
  }

  // ── merging back ────────────────────────────────────────────────────────────

  /** `extra` filled in wherever `target` has nothing, object by object. */
  function Merged(target: Json, extra: Json): Json
    decreases extra
  {
    if !target.Object? || !extra.Object? then target
    else Object(map k | k in target.fields.Keys + extra.fields.Keys ::
                  if k !in extra.fields then target.fields[k]
                  else if k in target.fields then Merged(target.fields[k], extra.fields[k])
                  else extra.fields[k])
  }

  /** The extra fields are walked in whatever order the map gives them. */
  method Merge(target: Json, extra: Json) returns (r: Json)
    ensures r == Merged(target, extra)
    decreases extra
  {
    if !target.Object? || !extra.Object? {
      return target;
    }
    var fields := target.fields;
    var rest := extra.fields.Keys;
    while rest != {}
      invariant rest <= extra.fields.Keys
      invariant fields.Keys == target.fields.Keys + (extra.fields.Keys - rest)
      invariant forall k :: k in fields ==>
                  fields[k] == if k in rest || k !in extra.fields then (if k in target.fields then target.fields[k] else Null)
                               else Merged(target, extra).fields[k]
      decreases rest
    {
      var key :| key in rest;
      if key in fields {
        var merged := Merge(fields[key], extra.fields[key]);
        fields := fields[key := merged];
      } else {
        fields := fields[key := extra.fields[key]];
      }
      rest := rest - {key};
    }
    r := Object(fields);
  }

  method MergeInto(residue: Residue, dialect: Dialect, target: Json) returns (r: Json)
    ensures r == if residue.dialect == dialect then Merged(target, residue.body) else target
  {
    r := target;
    if residue.dialect == dialect {
      r := Merge(target, residue.body);
    }
  }

  /** Something already stands at `p` in the target, or a value other than an object on the way. */
  predicate Blocked(target: Json, p: seq<Text>)
    decreases |p|
  {
    p == [] || !target.Object? || (p[0] in target.fields && Blocked(target.fields[p[0]], p[1..]))
  }

  /** A merged tree holds exactly the target's leaves and the extra leaves nothing blocked. */
  lemma {:induction false} MergedLeaves(target: Json, extra: Json, p: seq<Text>, x: Json)
    ensures HasLeaf(Merged(target, extra), p, x) <==>
            HasLeaf(target, p, x) || (HasLeaf(extra, p, x) && !Blocked(target, p))
    decreases |p|
  {
    if target.Object? && extra.Object? && p != [] {
      var k := p[0];
      if k in target.fields && k in extra.fields {
        MergedLeaves(target.fields[k], extra.fields[k], p[1..], x);
      }
    }
  }

  /** Whatever the renderer wrote is still there: the same value, or an object still an object. */
  lemma {:induction false} MergeKeepsWhatStands(target: Json, extra: Json, p: seq<Text>)
    requires Get(target, p).Some?
    ensures var before, after := Get(target, p).value, Get(Merged(target, extra), p);
            after.Some? && (if before.Object? then after.value.Object? else after.value == before)
    decreases |p|
  {
    if target.Object? && extra.Object? && p != [] {
      var k := p[0];
      if k in extra.fields {
        MergeKeepsWhatStands(target.fields[k], extra.fields[k], p[1..]);
      }
    }
  }

  /** Captured from a body and merged into what was rendered for its own dialect: the result has
      what was rendered, and of the body exactly the leaves neither subtracted nor blocked. */
  lemma VendorFieldsSurvive(dialect: Dialect, body: Json, paths: seq<Text>, target: Json, p: seq<Text>, x: Json)
    requires Captured(dialect, body, paths).Some?
    ensures HasLeaf(Merged(target, Captured(dialect, body, paths).value.body), p, x) <==>
            || HasLeaf(target, p, x)
            || (HasLeaf(body, p, x) && !Subtracted(paths, p) && !Blocked(target, p))
  {
    ResidueIsWhatIsLeft(dialect, body, paths, p, x);
    MergedLeaves(target, Captured(dialect, body, paths).value.body, p, x);
  }
}
