/** The models the gateway knows, with an index by upstream name that every insert keeps up to date
    (`crates/oag-router/src/catalog.rs`). */
module ModelCatalog {
  import opened Bytes

  const U64_MAX: int := 0xffff_ffff_ffff_ffff

  datatype Provider = BuiltIn(vendor: nat) | Custom(endpoint: nat)

  datatype ModelSpec = ModelSpec(
    id: Text,
    provider: Provider,
    upstreamName: Text,
    inputPerMtok: real,
    outputPerMtok: real,
    contextWindow: nat,
    vision: bool,
    tools: bool,
    reasoning: bool)

  datatype Requirements = Requirements(promptTokens: nat, maxOutputTokens: nat, vision: bool, tools: bool, reasoning: bool)

  predicate Satisfies(spec: ModelSpec, need: Requirements) {
    && (need.vision ==> spec.vision)
    && (need.tools ==> spec.tools)
    && (need.reasoning ==> spec.reasoning)
    && (var sum := need.promptTokens + need.maxOutputTokens;
        (if sum <= U64_MAX then sum else U64_MAX) <= spec.contextWindow)
  }

  datatype Cat = Cat(models: map<Text, ModelSpec>, byUpstream: map<Text, seq<Text>>)

  /** The index agrees with the models: an id stands under an upstream name exactly when the model
      of that id is spelled so, and never twice. */
  ghost predicate Consistent(c: Cat) {
    && (forall id :: id in c.models ==> c.models[id].id == id)
    && (forall n :: n in c.byUpstream ==> Distinct(c.byUpstream[n]))
    && (forall n, id :: n in c.byUpstream && id in c.byUpstream[n] ==> id in c.models && c.models[id].upstreamName == n)
    && (forall id :: id in c.models ==> id in Under(c, c.models[id].upstreamName))
  }

  /** The ids indexed under a name. */
  function Under(c: Cat, name: Text): seq<Text> { if name in c.byUpstream then c.byUpstream[name] else [] }

  function Without(ids: seq<Text>, id: Text): seq<Text> {
    if ids == [] then [] else (if ids[0] == id then [] else [ids[0]]) + Without(ids[1..], id)
  }

  /** The index once the spec's id has been dropped from a name it no longer spells. */
  function Dropped(c: Cat, spec: ModelSpec): map<Text, seq<Text>> {
    if spec.id in c.models && c.models[spec.id].upstreamName != spec.upstreamName && c.models[spec.id].upstreamName in c.byUpstream
    then c.byUpstream[c.models[spec.id].upstreamName := Without(c.byUpstream[c.models[spec.id].upstreamName], spec.id)]
    else c.byUpstream
  }

  function Inserted(c: Cat, spec: ModelSpec): Cat {
    var index := Dropped(c, spec);
    var ids := if spec.upstreamName in index then index[spec.upstreamName] else [];
    Cat(c.models[spec.id := spec], index[spec.upstreamName := if spec.id in ids then ids else ids + [spec.id]])
  }

  lemma {:induction false} WithoutIs(ids: seq<Text>, id: Text)
    ensures forall x :: x in Without(ids, id) <==> x in ids && x != id
  {
    if ids != [] {
      WithoutIs(ids[1..], id);
      assert ids == [ids[0]] + ids[1..];
    }
  }

  lemma {:induction false} WithoutOnce(ids: seq<Text>, id: Text)
    requires Distinct(ids)
    ensures Distinct(Without(ids, id))
  {
    if ids != [] {
      var rest := ids[1..];
      assert forall k :: 0 <= k < |rest| ==> rest[k] == ids[k + 1] && ids[0] != ids[k + 1];
      WithoutOnce(rest, id);
      WithoutIs(rest, id);
      OncePrepended(ids[0], Without(rest, id));
    }
  }

  lemma OncePrepended(x: Text, ids: seq<Text>)
    requires Distinct(ids) && x !in ids
    ensures Distinct([x] + ids) && Distinct([] + ids)
  {
    assert [] + ids == ids;
  }

  /** What dropping leaves under each name. */
  lemma DroppedIs(c: Cat, spec: ModelSpec)
    requires Consistent(c)
    ensures var index := Dropped(c, spec);
            && index.Keys == c.byUpstream.Keys
            && (forall n :: n in index ==> Distinct(index[n]))
            && (forall n, id :: n in index ==>
                  (id in index[n] <==> id in c.byUpstream[n] && !(id == spec.id && n != spec.upstreamName)))
  {
    if spec.id in c.models {
      var was := c.models[spec.id].upstreamName;
      if was != spec.upstreamName && was in c.byUpstream {
        WithoutIs(c.byUpstream[was], spec.id);
        WithoutOnce(c.byUpstream[was], spec.id);
      }
    }
  }

  /** What an insert leaves under a name. */
  lemma IndexAfterInsert(c: Cat, spec: ModelSpec, n: Text)
    requires Consistent(c) && n in Inserted(c, spec).byUpstream
    ensures var ids := Inserted(c, spec).byUpstream[n];
            Distinct(ids) && forall id :: id in ids <==> if id == spec.id then n == spec.upstreamName else id in Under(c, n)
  {
    DroppedIs(c, spec);
    var index := Dropped(c, spec);
    if n == spec.upstreamName {
      var ids := if n in index then index[n] else [];
      assert forall id :: id in ids + [spec.id] <==> id in ids || id == spec.id;
    }
  }

  /** Every insert, including one that renames, keeps the index in agreement. */
  lemma InsertKeepsAgreement(c: Cat, spec: ModelSpec)
    requires Consistent(c)
    ensures Consistent(Inserted(c, spec))
    ensures Inserted(c, spec).models == c.models[spec.id := spec]
  {
    var r := Inserted(c, spec);
    forall n | n in r.byUpstream
      ensures Distinct(r.byUpstream[n])
      ensures forall id :: id in r.byUpstream[n] <==> if id == spec.id then n == spec.upstreamName else id in Under(c, n)
    {
      IndexAfterInsert(c, spec, n);
    }
    forall id | id in r.models ensures id in Under(r, r.models[id].upstreamName) {
      if id != spec.id {
        assert id in Under(c, c.models[id].upstreamName);
        KeysKept(c, spec, c.models[id].upstreamName);
      }
    }
  }

  lemma KeysKept(c: Cat, spec: ModelSpec, n: Text)
    requires n in c.byUpstream
    ensures n in Inserted(c, spec).byUpstream
  {
  }

  function Loaded(entries: seq<ModelSpec>): Cat {
    if entries == [] then Cat(map[], map[]) else Inserted(Loaded(entries[..|entries| - 1]), entries[|entries| - 1])
  }

  /** The last spec inserted under an id. */
  function LastFor(entries: seq<ModelSpec>, id: Text): Option<ModelSpec> {
    if entries == [] then None
    else if entries[|entries| - 1].id == id then Some(entries[|entries| - 1])
    else LastFor(entries[..|entries| - 1], id)
  }

  /** After any run of inserts the index agrees with the models, and each id's model is the last one
      inserted under it. */
  lemma {:induction false} LoadedAgrees(entries: seq<ModelSpec>)
    ensures Consistent(Loaded(entries))
    ensures forall id :: if id in Loaded(entries).models then LastFor(entries, id) == Some(Loaded(entries).models[id])
                         else LastFor(entries, id) == None
  {
    if entries != [] {
      LoadedAgrees(entries[..|entries| - 1]);
      InsertKeepsAgreement(Loaded(entries[..|entries| - 1]), entries[|entries| - 1]);
    }
  }

  // ── lookups ─────────────────────────────────────────────────────────────────

  /** The built-in rows among some ids, in order. */
  function BuiltIns(c: Cat, ids: seq<Text>): seq<ModelSpec> {
    if ids == [] then []
    else (if ids[0] in c.models && c.models[ids[0]].provider.BuiltIn? then [c.models[ids[0]]] else []) + BuiltIns(c, ids[1..])
  }

  function Resolved(c: Cat, name: Text): Option<ModelSpec> {
    if name in c.models then Some(c.models[name])
    else if name !in c.byUpstream then None
    else
      var rows := BuiltIns(c, c.byUpstream[name]);
      if |rows| == 1 then Some(rows[0]) else None
  }

  /** The built-in models a full scan finds under an upstream name. */
  ghost function Scan(c: Cat, name: Text): set<Text> {
    set id | id in c.models && c.models[id].upstreamName == name && c.models[id].provider.BuiltIn?
  }

  ghost predicate IsBuiltIn(c: Cat, id: Text) { id in c.models && c.models[id].provider.BuiltIn? }

  lemma {:induction false} BuiltInsAreRows(c: Cat, ids: seq<Text>)
    requires forall id :: id in c.models ==> c.models[id].id == id
    ensures forall r :: r in BuiltIns(c, ids) ==> r.id in ids && IsBuiltIn(c, r.id) && c.models[r.id] == r
  {
    if ids != [] {
      BuiltInsAreRows(c, ids[1..]);
    }
  }

  ghost function BuiltInIds(c: Cat, ids: seq<Text>): set<Text> { set id | id in ids && IsBuiltIn(c, id) }

  lemma BuiltInIdsStep(c: Cat, ids: seq<Text>)
    requires ids != []
    ensures BuiltInIds(c, ids) == BuiltInIds(c, ids[1..]) + (if IsBuiltIn(c, ids[0]) then {ids[0]} else {})
  {
    assert ids == [ids[0]] + ids[1..];
  }

  lemma {:induction false} BuiltInsCount(c: Cat, ids: seq<Text>)
    requires Distinct(ids)
    ensures |BuiltIns(c, ids)| == |BuiltInIds(c, ids)|
  {
    if ids != [] {
      var rest := ids[1..];
      assert forall k :: 0 <= k < |rest| ==> rest[k] == ids[k + 1];
      BuiltInsCount(c, rest);
      BuiltInIdsStep(c, ids);
      assert ids[0] !in rest;
    }
  }

  /** A lookup by index answers as a scan of the whole catalogue would: the model of that id, or
      else the only built-in model spelled so, or nothing. */
  lemma ResolveIsScan(c: Cat, name: Text)
    requires Consistent(c)
    ensures name in c.models ==> Resolved(c, name) == Some(c.models[name])
    ensures name !in c.models ==>
              && (|Scan(c, name)| == 1 ==> Resolved(c, name).Some? && Scan(c, name) == {Resolved(c, name).value.id}
                                           && c.models[Resolved(c, name).value.id] == Resolved(c, name).value)
              && (|Scan(c, name)| != 1 ==> Resolved(c, name).None?)
  {
    if name !in c.models {
      if name in c.byUpstream {
        var ids := c.byUpstream[name];
        BuiltInsAreRows(c, ids);
        BuiltInsCount(c, ids);
        assert Scan(c, name) == BuiltInIds(c, ids);
        var rows := BuiltIns(c, ids);
        if |rows| == 1 {
          assert rows[0] in rows && rows[0].id in Scan(c, name);
          OnlyElement(Scan(c, name), rows[0].id);
        }
      } else {
        assert Scan(c, name) == {};
      }
    }
  }

  lemma OnlyElement(s: set<Text>, x: Text)
    requires |s| == 1 && x in s
    ensures s == {x}
  {
    assert |s - {x}| == 0;
  }

  // ── the dearest model served ────────────────────────────────────────────────

  /** Byte order on ids. */
  predicate AtOrBefore(a: Text, b: Text) {
    a == [] || (b != [] && (a[0] < b[0] || (a[0] == b[0] && AtOrBefore(a[1..], b[1..]))))
  }

  lemma {:induction false} ByteOrderIsTotal(a: Text, b: Text)
    ensures AtOrBefore(a, b) || AtOrBefore(b, a)
    ensures AtOrBefore(a, b) && AtOrBefore(b, a) ==> a == b
  {
    if a != [] && b != [] && a[0] == b[0] {
      ByteOrderIsTotal(a[1..], b[1..]);
      assert a == [a[0]] + a[1..] && b == [b[0]] + b[1..];
    }
  }

  lemma {:induction false} ByteOrderIsTransitive(a: Text, b: Text, d: Text)
    requires AtOrBefore(a, b) && AtOrBefore(b, d)
    ensures AtOrBefore(a, d)
  {
    if a != [] && a[0] == b[0] && b[0] == d[0] {
      ByteOrderIsTransitive(a[1..], b[1..], d[1..]);
    }
  }

  function Price(s: ModelSpec): real { s.inputPerMtok + s.outputPerMtok }

  /** At least as dear, and the smaller id where the prices tie. */
  predicate Dearer(a: ModelSpec, b: ModelSpec) {
    Price(a) > Price(b) || (Price(a) == Price(b) && AtOrBefore(a.id, b.id))
  }

  predicate Priced(s: ModelSpec) { s.inputPerMtok > 0.0 || s.outputPerMtok > 0.0 }

  /** A row of the catalogue that is served, able and priced: what a full scan would consider. */
  predicate Counts(c: Cat, served: set<Text>, need: Requirements, s: ModelSpec) {
    s.id in c.models && c.models[s.id] == s && s.upstreamName in served && Satisfies(s, need) && Priced(s)
  }

  ghost predicate IsDearest(c: Cat, served: set<Text>, need: Requirements, s: ModelSpec) {
    Counts(c, served, need, s) && forall t :: Counts(c, served, need, t) ==> Dearer(s, t)
  }

  /** The order on ids is the order of bytes: a prefix first, else the smaller byte where they part. */
  lemma {:induction false} ByteOrderIs(a: Text, b: Text)
    ensures AtOrBefore(a, b) <==> a <= b || exists i :: PartsAt(a, b, i)
  {
    if a != [] && b != [] && a[0] == b[0] {
      ByteOrderIs(a[1..], b[1..]);
      assert a == [a[0]] + a[1..] && b == [b[0]] + b[1..];
      if i :| PartsAt(a[1..], b[1..], i) {
        assert a[..i + 1] == [a[0]] + a[1..][..i] && b[..i + 1] == [b[0]] + b[1..][..i];
        assert PartsAt(a, b, i + 1);
      }
      if i :| PartsAt(a, b, i) {
        assert a[1..][..i - 1] == a[..i][1..] && b[1..][..i - 1] == b[..i][1..];
        assert PartsAt(a[1..], b[1..], i - 1);
      }
    } else if a != [] && b != [] && a[0] < b[0] {
      assert PartsAt(a, b, 0);
    }
  }

  ghost predicate PartsAt(a: Text, b: Text, i: int) {
    0 <= i < |a| && i < |b| && a[..i] == b[..i] && a[i] < b[i]
  }

  /** What a dearest row is, on the fields: served, able, priced, and against every other row that is, the
      higher sum of its two prices, or the same and the smaller id. */
  lemma DearestOnFields(c: Cat, served: set<Text>, need: Requirements, s: ModelSpec, t: ModelSpec)
    requires IsDearest(c, served, need, s)
    requires t.id in c.models && c.models[t.id] == t && AbleAndPriced(served, need, t)
    ensures s.id in c.models && c.models[s.id] == s && AbleAndPriced(served, need, s)
    ensures s.inputPerMtok + s.outputPerMtok >= t.inputPerMtok + t.outputPerMtok
    ensures s.inputPerMtok + s.outputPerMtok == t.inputPerMtok + t.outputPerMtok ==>
              s.id <= t.id || exists i :: PartsAt(s.id, t.id, i)
  {
    assert Counts(c, served, need, t);
    ByteOrderIs(s.id, t.id);
  }

  predicate AbleAndPriced(served: set<Text>, need: Requirements, s: ModelSpec) {
    && s.upstreamName in served
    && (need.vision ==> s.vision) && (need.tools ==> s.tools) && (need.reasoning ==> s.reasoning)
    && (need.promptTokens + need.maxOutputTokens <= s.contextWindow ||
        (U64_MAX < need.promptTokens + need.maxOutputTokens && U64_MAX <= s.contextWindow))
    && (s.inputPerMtok > 0.0 || s.outputPerMtok > 0.0)
  }

  /** And there is one exactly when some row is served, able and priced. */
  lemma CountsOnFields(c: Cat, served: set<Text>, need: Requirements, s: ModelSpec)
    ensures Counts(c, served, need, s) <==> s.id in c.models && c.models[s.id] == s && AbleAndPriced(served, need, s)
  {
  }

  /** There is at most one dearest model. */
  lemma DearestIsUnique(c: Cat, served: set<Text>, need: Requirements, s: ModelSpec, t: ModelSpec)
    requires Consistent(c) && IsDearest(c, served, need, s) && IsDearest(c, served, need, t)
    ensures s == t
  {
    assert Dearer(s, t) && Dearer(t, s);
    ByteOrderIsTotal(s.id, t.id);
  }

  lemma DearerIsTransitive(a: ModelSpec, b: ModelSpec, d: ModelSpec)
    requires Dearer(a, b) && Dearer(b, d)
    ensures Dearer(a, d)
  {
    if Price(a) == Price(b) == Price(d) {
      ByteOrderIsTransitive(a.id, b.id, d.id);
    }
  }

  lemma DearerIsTotal(a: ModelSpec, b: ModelSpec)
    ensures Dearer(a, b) || Dearer(b, a)
  {
    ByteOrderIsTotal(a.id, b.id);
  }

  // ── the catalogue itself ────────────────────────────────────────────────────

  class Catalog {
    var models: map<Text, ModelSpec>
    var byUpstream: map<Text, seq<Text>>

    ghost function View(): Cat
      reads this
    {
      Cat(models, byUpstream)
    }

    ghost predicate Valid()
      reads this
    {
      Consistent(View())
    }

    constructor ()
      ensures Valid() && View() == Loaded([])
    {
      models, byUpstream := map[], map[];
    }

    /** Keep the ids other than `id`. */
    static method Retain(ids: seq<Text>, id: Text) returns (kept: seq<Text>)
      ensures kept == Without(ids, id)
    {
      kept := [];
      assert ids[0..] == ids;
      for i := 0 to |ids|
        invariant kept + Without(ids[i..], id) == Without(ids, id)
      {
        assert ids[i..][1..] == ids[i + 1..];
        if ids[i] != id {
          kept := kept + [ids[i]];
        }
      }
    }

    method Insert(spec: ModelSpec)
      requires Valid()
      modifies this
      ensures Valid() && View() == old(Inserted(View(), spec))
    {
      InsertKeepsAgreement(View(), spec);
      if spec.id in models && models[spec.id].upstreamName != spec.upstreamName
         && models[spec.id].upstreamName in byUpstream {
        var was := models[spec.id].upstreamName;
        var kept := Retain(byUpstream[was], spec.id);
        byUpstream := byUpstream[was := kept];
      }
      var ids := if spec.upstreamName in byUpstream then byUpstream[spec.upstreamName] else [];
      if spec.id !in ids {
        ids := ids + [spec.id];
      }
      byUpstream := byUpstream[spec.upstreamName := ids];
      models := models[spec.id := spec];
    }

    static method FromEntries(entries: seq<ModelSpec>) returns (c: Catalog)
      ensures fresh(c) && c.Valid() && c.View() == Loaded(entries)
    {
      c := new Catalog();
      for i := 0 to |entries|
        invariant fresh(c) && c.Valid() && c.View() == Loaded(entries[..i])
      {
        assert entries[..i + 1][..i] == entries[..i];
        c.Insert(entries[i]);
      }
      assert entries[..|entries|] == entries;
    }

    method Resolve(name: Text) returns (r: Option<ModelSpec>)
      requires Valid()
      ensures name in models ==> r == Some(models[name])
      ensures name !in models && |Scan(View(), name)| == 1 ==>
                r.Some? && Scan(View(), name) == {r.value.id} && models[r.value.id] == r.value
      ensures name !in models && |Scan(View(), name)| != 1 ==> r.None?
    {
      ResolveIsScan(View(), name);
      if name in models {
        return Some(models[name]);
      }
      if name !in byUpstream {
        return None;
      }
      var rows := BuiltIns(Cat(models, byUpstream), byUpstream[name]);
      r := if |rows| == 1 then Some(rows[0]) else None;
    }

    /** The dearer of the best row so far and the rows under one name. */
    method DearestUnder(ids: seq<Text>, need: Requirements, best: Option<ModelSpec>) returns (r: Option<ModelSpec>)
      requires forall id :: id in ids ==> id in models
      ensures r.Some? ==> r == best || (exists id :: id in ids && r.value == models[id] && Satisfies(models[id], need) && Priced(models[id]))
      ensures best.Some? ==> r.Some? && Dearer(r.value, best.value)
      ensures forall id :: id in ids && Satisfies(models[id], need) && Priced(models[id]) ==>
                             r.Some? && Dearer(r.value, models[id])
    {
      r := best;
      if best.Some? {
        DearerIsTotal(best.value, best.value);
      }
      for i := 0 to |ids|
        invariant r.Some? ==> r == best || (exists id :: id in ids && r.value == models[id] && Satisfies(models[id], need) && Priced(models[id]))
        invariant best.Some? ==> r.Some? && Dearer(r.value, best.value)
        invariant forall k :: 0 <= k < i && Satisfies(models[ids[k]], need) && Priced(models[ids[k]]) ==>
                                r.Some? && Dearer(r.value, models[ids[k]])
      {
        var spec := models[ids[i]];
        if Satisfies(spec, need) && Priced(spec) {
          DearerIsTotal(spec, spec);
          if r.None? || Dearer(spec, r.value) {
            forall x | r.Some? && Dearer(r.value, x) ensures Dearer(spec, x) {
              DearerIsTransitive(spec, r.value, x);
            }
            r := Some(spec);
          } else {
            DearerIsTotal(spec, r.value);
          }
        }
      }
    }

    /** Whatever order the served names are walked in, the answer is the one dearest row, or nothing
        when no row counts. */
    method DearestServed(served: set<Text>, need: Requirements) returns (r: Option<ModelSpec>)
      requires Valid()
      ensures r.Some? ==> IsDearest(View(), served, need, r.value)
      ensures r.None? ==> forall s :: !Counts(View(), served, need, s)
      ensures r.None? <==> forall id :: id in models ==> !AbleAndPriced(served, need, models[id])
    {
      r := None;
      var rest := served;
      while rest != {}
        invariant rest <= served
        invariant r.Some? ==> Counts(View(), served - rest, need, r.value)
        invariant forall s :: Counts(View(), served - rest, need, s) ==> r.Some? && Dearer(r.value, s)
        decreases rest
      {
        var name :| name in rest;
        var ids := if name in byUpstream then byUpstream[name] else [];
        ghost var before := r;
        r := DearestUnder(ids, need, r);
        forall s | Counts(View(), served - (rest - {name}), need, s) ensures r.Some? && Dearer(r.value, s) {
          if s.upstreamName == name {
            assert s.id in ids;
          } else {
            assert Counts(View(), served - rest, need, s);
            DearerIsTransitive(r.value, before.value, s);
          }
        }
        rest := rest - {name};
      }
      assert served - rest == served;
      forall id | id in models ensures Counts(View(), served, need, models[id]) <==> AbleAndPriced(served, need, models[id]) {
        CountsOnFields(View(), served, need, models[id]);
      }
      assert r.Some? ==> models[r.value.id] == r.value;
    }
  }
}
