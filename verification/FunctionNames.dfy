/** Function names as an OpenAI-shaped upstream must see them, and the way back
    (`crates/oag-proto/src/function_names.rs`). */
module FunctionNames {
  import opened Bytes
  import opened Finite

  const NAME_MAX := 64
  const USIZE_MAX: nat := 0xffff_ffff_ffff_ffff
  // "tool"
  const FALLBACK: Text := [116, 111, 111, 108]

  predicate NameByte(b: Byte) { IsAlphanumeric(b) || b == UNDERSCORE || b == HYPHEN }

  predicate AllNameBytes(s: Text) { forall i :: 0 <= i < |s| ==> NameByte(s[i]) }

  predicate Legal(name: Text) { 1 <= |name| <= NAME_MAX && AllNameBytes(name) }

  // ── sanitising one name ─────────────────────────────────────────────────────

  predicate EndsWithUnderscore(s: Text) { s != [] && s[|s| - 1] == UNDERSCORE }

  /** A refused byte becomes `_`, unless what is written so far already ends in one. */
  function Squeeze(name: Text): (r: Text)
    ensures AllNameBytes(r) && |r| <= |name|
  {
    if name == [] then []
    else
      var out, b := Squeeze(name[..|name| - 1]), name[|name| - 1];
      if NameByte(b) then out + [b]
      else if EndsWithUnderscore(out) then out else out + [UNDERSCORE]
  }

  function TrimLeft(s: Text): (r: Text)
    ensures |r| <= |s| && (AllNameBytes(s) ==> AllNameBytes(r))
  {
    if s != [] && s[0] == UNDERSCORE then TrimLeft(s[1..]) else s
  }

  function TrimRight(s: Text): (r: Text)
    ensures |r| <= |s| && (AllNameBytes(s) ==> AllNameBytes(r))
  {
    if EndsWithUnderscore(s) then TrimRight(s[..|s| - 1]) else s
  }

  function Sanitized(name: Text): (r: Text)
    ensures Legal(r)
  {
    var trimmed := TrimRight(TrimLeft(Squeeze(name)));
    Truncate(if trimmed == [] then FALLBACK else trimmed, NAME_MAX)
  }

  method Sanitize(name: Text) returns (wire: Text)
    ensures wire == Sanitized(name)
  {
    var out: Text := [];
    for i := 0 to |name|
      invariant out == Squeeze(name[..i])
    {
      assert name[..i + 1][..i] == name[..i];
      if NameByte(name[i]) {
        out := out + [name[i]];
      } else if !EndsWithUnderscore(out) {
        out := out + [UNDERSCORE];
      }
    }
    assert name[..|name|] == name;
    var trimmed := TrimRight(TrimLeft(out));
    wire := Truncate(if trimmed == [] then FALLBACK else trimmed, NAME_MAX);
  }

  /** The bytes of a name that carry meaning on the wire: letters, digits and hyphens. */
  function Kept(s: Text): Text {
    if s == [] then []
    else Kept(s[..|s| - 1]) + if NameByte(s[|s| - 1]) && s[|s| - 1] != UNDERSCORE then [s[|s| - 1]] else []
  }

  lemma {:induction false} KeptAppend(a: Text, b: Text)
    ensures Kept(a + b) == Kept(a) + Kept(b)
    decreases |b|
  {
    if b == [] {
      assert a + b == a;
    } else {
      assert (a + b)[..|a + b| - 1] == a + b[..|b| - 1];
      KeptAppend(a, b[..|b| - 1]);
    }
  }

  lemma {:induction false} SqueezeKeeps(name: Text)
    ensures Kept(Squeeze(name)) == Kept(name)
  {
    if name != [] {
      var out, b := Squeeze(name[..|name| - 1]), name[|name| - 1];
      SqueezeKeeps(name[..|name| - 1]);
      KeptAppend(out, [b]);
      KeptAppend(out, [UNDERSCORE]);
      assert [b][..0] == [];
    }
  }

  lemma {:induction false} TrimLeftKeeps(s: Text)
    ensures Kept(TrimLeft(s)) == Kept(s)
    decreases |s|
  {
    if s != [] && s[0] == UNDERSCORE {
      TrimLeftKeeps(s[1..]);
      KeptAppend([UNDERSCORE], s[1..]);
      assert [UNDERSCORE] + s[1..] == s;
    }
  }

  lemma {:induction false} TrimRightKeeps(s: Text)
    ensures Kept(TrimRight(s)) == Kept(s)
  {
    if EndsWithUnderscore(s) {
      TrimRightKeeps(s[..|s| - 1]);
    }
  }

  /** A sanitised name spells the letters, digits and hyphens of the original in order, cut only
      at the end; a name with nothing to keep is sent as the fallback. */
  lemma SanitizedKeepsMeaning(name: Text)
    ensures Kept(name) != [] ==> Kept(Sanitized(name)) <= Kept(name)
    ensures Kept(name) != [] && |name| <= NAME_MAX ==> Kept(Sanitized(name)) == Kept(name)
    ensures Kept(name) == [] ==> Sanitized(name) == [116, 111, 111, 108]
  {
    SqueezeKeeps(name);
    var left := TrimLeft(Squeeze(name));
    TrimLeftKeeps(Squeeze(name));
    TrimRightKeeps(left);
    if Kept(name) == [] {
      TrimmedIsEmpty(left);
    } else {
      var trimmed := TrimRight(left);
      assert trimmed != [];
      KeptOfTruncated(trimmed, NAME_MAX);
    }
  }

  lemma KeptOfTruncated(s: Text, max: nat)
    ensures Kept(Truncate(s, max)) <= Kept(s)
  {
    var cut := Truncate(s, max);
    KeptAppend(cut, s[|cut|..]);
    assert cut + s[|cut|..] == s;
  }

  /** A run of name bytes with nothing to keep is all underscores, and trims away. */
  lemma {:induction false} TrimmedIsEmpty(s: Text)
    requires Kept(s) == [] && AllNameBytes(s)
    ensures TrimRight(s) == []
  {
    if s != [] {
      TrimmedIsEmpty(s[..|s| - 1]);
    }
  }

  // ── telling two names apart ─────────────────────────────────────────────────

  function Numbered(base: Text, n: nat): Text {
    var suffix := [UNDERSCORE] + Decimal(n);
    var stemLength := if NAME_MAX < |suffix| then 0 else NAME_MAX - |suffix|;
    var candidate := Truncate(Truncate(base, stemLength) + suffix, NAME_MAX);
    if candidate == [] then FALLBACK else candidate
  }

  function Search(base: Text, used: set<Text>, n: nat): Text
    requires n <= USIZE_MAX
    decreases USIZE_MAX - n
  {
    if Numbered(base, n) !in used || n == USIZE_MAX then Numbered(base, n) else Search(base, used, n + 1)
  }

  function Unique(name: Text, used: set<Text>): Text {
    var base := if Truncate(name, NAME_MAX) == [] then FALLBACK else Truncate(name, NAME_MAX);
    if base !in used then base else Search(base, used, 2)
  }

  /** `base` cut to leave room for `_n`, followed by it. */
  method NumberName(base: Text, n: nat) returns (candidate: Text)
    ensures candidate == Numbered(base, n)
  {
    var suffix := [UNDERSCORE] + Decimal(n);
    var stemLength := if NAME_MAX < |suffix| then 0 else NAME_MAX - |suffix|;
    candidate := Truncate(Truncate(base, stemLength) + suffix, NAME_MAX);
    if candidate == [] {
      candidate := FALLBACK;
    }
  }

  /** Numbers are tried from 2 upwards. The search stops within one more try than there are
      names in use, and what it stops at is free. */
  method Uniquify(name: Text, used: set<Text>) returns (wire: Text, ghost tries: nat)
    ensures wire == Unique(name, used)
    ensures |used| < USIZE_MAX - 1 ==> wire !in used && tries <= |used| + 1
  {
    var base := Truncate(name, NAME_MAX);
    if base == [] {
      base := FALLBACK;
    }
    tries := 0;
    if base !in used {
      return base, tries;
    }
    ghost var free := USIZE_MAX;
    if |used| < USIZE_MAX - 1 {
      FreeNumberExists(base, used);
      free :| 2 <= free <= |used| + 2 && Numbered(base, free) !in used;
    }
    var n := 2;
    while true
      invariant 2 <= n <= free <= USIZE_MAX && tries == n - 2
      invariant Search(base, used, 2) == Search(base, used, n)
      decreases USIZE_MAX - n
    {
      var candidate := NumberName(base, n);
      tries := tries + 1;
      if candidate !in used || n == USIZE_MAX {
        return candidate, tries;
      }
      n := n + 1;
    }
  }

  lemma NumberedShape(base: Text, n: nat)
    requires n <= USIZE_MAX
    ensures |Decimal(n)| <= 20
    ensures Numbered(base, n) == Truncate(base, NAME_MAX - 1 - |Decimal(n)|) + [UNDERSCORE] + Decimal(n)
  {
    assert Power(10, 5) == 100_000;
    assert Power(10, 10) == 10_000_000_000;
    assert Power(10, 15) == 1_000_000_000_000_000;
    assert Power(10, 20) == 100_000_000_000_000_000_000;
    DecimalLength(n, 20);
    var suffix := [UNDERSCORE] + Decimal(n);
    var stem := Truncate(base, NAME_MAX - |suffix|);
    assert stem + suffix == stem + [UNDERSCORE] + Decimal(n);
  }

  /** Candidates under different numbers differ, wherever the base was cut to make room. */
  lemma NumberedInjective(base: Text, m: nat, n: nat)
    requires m <= USIZE_MAX && n <= USIZE_MAX
    requires Numbered(base, m) == Numbered(base, n)
    ensures m == n
  {
    NumberedShape(base, m);
    NumberedShape(base, n);
    var a, b := Truncate(base, NAME_MAX - 1 - |Decimal(m)|), Truncate(base, NAME_MAX - 1 - |Decimal(n)|);
    SuffixDigits(a, Decimal(m), b, Decimal(n), UNDERSCORE);
    DecimalValue(m);
    DecimalValue(n);
  }

  /** The first `count` candidates. */
  ghost function Candidates(base: Text, count: nat): (tried: seq<Text>)
    requires count < USIZE_MAX
    ensures |tried| == count && forall i :: 0 <= i < count ==> tried[i] == Numbered(base, i + 2)
  {
    seq(count, i requires 0 <= i < count => Numbered(base, i + 2))
  }

  lemma CandidatesDiffer(base: Text, count: nat)
    requires count < USIZE_MAX
    ensures forall i, j :: 0 <= i < j < count ==> Candidates(base, count)[i] != Candidates(base, count)[j]
  {
    forall i, j | 0 <= i < j < count
      ensures Candidates(base, count)[i] != Candidates(base, count)[j]
    {
      if Numbered(base, i + 2) == Numbered(base, j + 2) {
        NumberedInjective(base, i + 2, j + 2);
      }
    }
  }

  lemma FreeNumberExists(base: Text, used: set<Text>)
    requires |used| < USIZE_MAX - 1
    ensures exists n :: 2 <= n <= |used| + 2 && Numbered(base, n) !in used
  {
    CandidatesDiffer(base, |used| + 1);
    var i := OneIsOutside(Candidates(base, |used| + 1), used);
    assert Numbered(base, i + 2) !in used;
  }

  lemma {:induction false} SearchFindsFree(base: Text, used: set<Text>, from: nat, n: nat)
    requires from <= n <= USIZE_MAX && Numbered(base, n) !in used
    ensures Search(base, used, from) !in used
    decreases n - from
  {
    if from < n && Numbered(base, from) in used {
      SearchFindsFree(base, used, from + 1, n);
    }
  }

  lemma {:induction false} SearchIsLegal(base: Text, used: set<Text>, n: nat)
    requires n <= USIZE_MAX && AllNameBytes(base)
    ensures Legal(Search(base, used, n))
    decreases USIZE_MAX - n
  {
    if Numbered(base, n) in used && n < USIZE_MAX {
      SearchIsLegal(base, used, n + 1);
    } else {
      NumberedShape(base, n);
    }
  }

  lemma UniqueIsFreeAndLegal(name: Text, used: set<Text>)
    requires Legal(name) && |used| < USIZE_MAX - 1
    ensures Legal(Unique(name, used)) && Unique(name, used) !in used
  {
    if name in used {
      SearchIsLegal(name, used, 2);
      FreeNumberExists(name, used);
      var n :| 2 <= n <= |used| + 2 && Numbered(name, n) !in used;
      SearchFindsFree(name, used, 2, n);
    }
  }

  /** A name with `_n` behind it, cut so that both fit. */
  ghost function Suffixed(name: Text, n: nat): Text {
    var room := 63 - |Decimal(n)|;
    (if |name| <= room || room < 0 then name else name[..room]) + [UNDERSCORE] + Decimal(n)
  }

  lemma SuffixedIsNumbered(name: Text, n: nat)
    requires n <= USIZE_MAX
    ensures Suffixed(name, n) == Numbered(name, n)
  {
    NumberedShape(name, n);
  }

  /** The first number from which a candidate is free. */
  lemma {:induction false} LeastFree(base: Text, used: set<Text>, from: nat, n: nat) returns (least: nat)
    requires from <= n <= USIZE_MAX && Numbered(base, n) !in used
    ensures from <= least <= n && Search(base, used, from) == Suffixed(base, least) && Suffixed(base, least) !in used
    ensures forall m :: from <= m < least ==> Suffixed(base, m) in used
    decreases n - from
  {
    SuffixedIsNumbered(base, from);
    if Numbered(base, from) in used {
      least := LeastFree(base, used, from + 1, n);
    } else {
      least := from;
    }
  }

  /** A name is sent as itself when it is free, and otherwise with `_n` for the least free n from 2. */
  lemma UniqueIs(name: Text, used: set<Text>)
    requires Legal(name) && |used| < USIZE_MAX - 1
    ensures name !in used ==> Unique(name, used) == name
    ensures name in used ==>
              exists n :: 2 <= n <= |used| + 2 && Unique(name, used) == Suffixed(name, n) && Suffixed(name, n) !in used &&
                          forall m :: 2 <= m < n ==> Suffixed(name, m) in used
  {
    if name in used {
      FreeNumberExists(name, used);
      var n :| 2 <= n <= |used| + 2 && Numbered(name, n) !in used;
      var least := LeastFree(name, used, 2, n);
    }
  }

  // ── the names of one request ────────────────────────────────────────────────

  /** Names already legal, each its own spelling. */
  function Seats(originals: seq<Text>): map<Text, Text> {
    map name | name in originals && Legal(name) :: name
  }

  /** The rest, in order, each given a spelling nobody holds yet. */
  function Assign(names: seq<Text>, seats: map<Text, Text>): map<Text, Text> {
    if names == [] then seats
    else
      var prior, name := Assign(names[..|names| - 1], seats), names[|names| - 1];
      if name in prior then prior else prior[name := Unique(Sanitized(name), prior.Values)]
  }

  datatype NameMap = NameMap(toWire: map<Text, Text>, fromWire: map<Text, Text>) {
    function Wire(original: Text): Text { if original in toWire then toWire[original] else original }
    function Original(wire: Text): Text { if wire in fromWire then fromWire[wire] else wire }

    /** `fromWire` is `toWire` read backwards. */
    ghost predicate Inverse() {
      && fromWire.Keys == toWire.Values
      && forall name :: name in toWire ==> fromWire[toWire[name]] == name
    }
  }

  ghost predicate Faithful(toWire: map<Text, Text>) {
    && (forall a, b :: a in toWire && b in toWire && toWire[a] == toWire[b] ==> a == b)
    && (forall name :: name in toWire ==> Legal(toWire[name]))
    && (forall name :: name in toWire && Legal(name) ==> toWire[name] == name)
  }

  /** First pass: a legal name keeps its seat. */
  method TakeSeats(originals: seq<Text>) returns (toWire: map<Text, Text>, used: set<Text>)
    ensures toWire == Seats(originals) && used == toWire.Values
  {
    toWire, used := map[], {};
    for i := 0 to |originals|
      invariant toWire == Seats(originals[..i])
      invariant used == toWire.Keys == toWire.Values
    {
      var name := originals[i];
      assert originals[..i + 1] == originals[..i] + [name];
      if Legal(name) && name !in used {
        ValuesOfUpdate(toWire, name, name);
        used := used + {name};
        toWire := toWire[name := name];
      }
    }
    assert originals[..|originals|] == originals;
  }

  method FromOriginals(originals: seq<Text>) returns (names: NameMap)
    requires |originals| < USIZE_MAX - 1
    ensures names.toWire == Assign(originals, Seats(originals)) && names.Inverse()
  {
    var toWire, used := TakeSeats(originals);
    for i := 0 to |originals|
      invariant toWire == Assign(originals[..i], Seats(originals))
      invariant used == toWire.Values
    {
      var name := originals[i];
      assert originals[..i + 1][..i] == originals[..i];
      if name !in toWire {
        var base := Sanitize(name);
        var wire, _ := Uniquify(base, used);
        ValuesOfUpdate(toWire, name, wire);
        used := used + {wire};
        toWire := toWire[name := wire];
      }
    }
    assert originals[..|originals|] == originals;
    AssignIsFaithful(originals, originals);
    var fromWire := Inverted(toWire);
    names := NameMap(toWire, fromWire);
  }

  /** A hash map is walked in no particular order; for an injective map the order is immaterial. */
  method Inverted(toWire: map<Text, Text>) returns (fromWire: map<Text, Text>)
    requires Faithful(toWire)
    ensures NameMap(toWire, fromWire).Inverse()
  {
    fromWire := map[];
    var rest := toWire.Keys;
    while rest != {}
      invariant rest <= toWire.Keys
      invariant forall name :: name in toWire.Keys - rest ==>
                                 toWire[name] in fromWire && fromWire[toWire[name]] == name
      invariant forall wire :: wire in fromWire ==> fromWire[wire] in toWire && toWire[fromWire[wire]] == wire
      decreases rest
    {
      var name :| name in rest;
      fromWire := fromWire[toWire[name] := name];
      rest := rest - {name};
    }
  }

  lemma SeatsAreFaithful(originals: seq<Text>)
    ensures Faithful(Seats(originals))
  {
  }

  function Elements(s: seq<Text>): set<Text> { set x | x in s }

  lemma {:induction false} AssignKeys(names: seq<Text>, seats: map<Text, Text>)
    ensures Assign(names, seats).Keys == seats.Keys + Elements(names)
  {
    if names != [] {
      var init, name := names[..|names| - 1], names[|names| - 1];
      AssignKeys(init, seats);
      assert Elements(names) == Elements(init) + {name} by { assert names == init + [name]; }
    }
  }

  lemma {:induction false} AssignIsFaithful(names: seq<Text>, originals: seq<Text>)
    requires names <= originals && |originals| < USIZE_MAX - 1
    ensures Faithful(Assign(names, Seats(originals)))
  {
    if names == [] {
      SeatsAreFaithful(originals);
    } else {
      var init, name := names[..|names| - 1], names[|names| - 1];
      AssignIsFaithful(init, originals);
      var prior := Assign(init, Seats(originals));
      AssignKeys(init, Seats(originals));
      if name !in prior {
        UsedIsSmall(prior, originals);
        UniqueIsFreeAndLegal(Sanitized(name), prior.Values);
        FaithfulStep(prior, name, Unique(Sanitized(name), prior.Values));
      }
    }
  }

  lemma UsedIsSmall(m: map<Text, Text>, originals: seq<Text>)
    requires m.Keys <= Elements(originals)
    ensures |m.Values| <= |originals|
  {
    ValuesNoMoreThanKeys(m);
    SubsetSize(m.Keys, Elements(originals));
    ElementsAtMostLength(originals);
  }

  lemma {:induction false} ElementsAtMostLength(s: seq<Text>)
    ensures |Elements(s)| <= |s|
  {
    if s != [] {
      var init, last := s[..|s| - 1], s[|s| - 1];
      ElementsAtMostLength(init);
      assert s == init + [last];
      assert Elements(s) == Elements(init) + {last};
    }
  }

  lemma FaithfulStep(m: map<Text, Text>, name: Text, wire: Text)
    requires Faithful(m) && name !in m && !Legal(name) && Legal(wire) && wire !in m.Values
    ensures Faithful(m[name := wire])
  {
    assert forall a :: a in m ==> m[a] in m.Values;
  }

  /** For every list of originals: the names sent are legal and pairwise distinct, a legal name is
      sent as it is, and every name sent is put back as the client declared it. */
  lemma NamesAreInvertible(originals: seq<Text>, names: NameMap)
    requires |originals| < USIZE_MAX - 1
    requires names.toWire == Assign(originals, Seats(originals)) && names.Inverse()
    ensures forall n :: n in originals ==> Legal(names.Wire(n)) && names.Original(names.Wire(n)) == n
    ensures forall n :: n in originals && Legal(n) ==> names.Wire(n) == n
    ensures forall a, b :: a in originals && b in originals && names.Wire(a) == names.Wire(b) ==> a == b
  {
    forall n | n in originals
      ensures Legal(names.Wire(n)) && names.Original(names.Wire(n)) == n && (Legal(n) ==> names.Wire(n) == n)
    {
      NameIsInvertible(originals, names, n);
    }
    forall a, b | a in originals && b in originals && names.Wire(a) == names.Wire(b)
      ensures a == b
    {
      assert names.Original(names.Wire(a)) == a && names.Original(names.Wire(b)) == b;
    }
  }

  lemma NameIsInvertible(originals: seq<Text>, names: NameMap, n: Text)
    requires |originals| < USIZE_MAX - 1
    requires names.toWire == Assign(originals, Seats(originals)) && names.Inverse()
    ensures n in originals ==>
              Legal(names.Wire(n)) && names.Original(names.Wire(n)) == n && (Legal(n) ==> names.Wire(n) == n)
  {
    AssignIsFaithful(originals, originals);
    AssignKeys(originals, Seats(originals));
    assert n in originals ==> n in Elements(originals);
  }

  /** What was assigned stays assigned. */
  lemma {:induction false} AssignedStays(names: seq<Text>, seats: map<Text, Text>, k: nat, name: Text)
    requires k <= |names| && name in Assign(names[..k], seats)
    ensures name in Assign(names, seats) && Assign(names, seats)[name] == Assign(names[..k], seats)[name]
    decreases |names|
  {
    if k == |names| {
      assert names[..k] == names;
    } else {
      assert names[..|names| - 1][..k] == names[..k];
      AssignedStays(names[..|names| - 1], seats, k, name);
    }
  }

  /** A refused name, where it first comes up in the list, is sent as its sanitised form made unique among
      the legal names and those assigned before it. */
  lemma RefusedNameIsSentAs(originals: seq<Text>, k: nat)
    requires k < |originals| && !Legal(originals[k]) && originals[k] !in originals[..k]
    ensures var before := Assign(originals[..k], Seats(originals));
            var sent := Assign(originals, Seats(originals));
            originals[k] in sent && sent[originals[k]] == Unique(Sanitized(originals[k]), before.Values)
  {
    NotYetAssigned(originals, k);
    SentAs(originals, Seats(originals), k);
  }

  lemma SentAs(names: seq<Text>, seats: map<Text, Text>, k: nat)
    requires k < |names| && names[k] !in Assign(names[..k], seats)
    ensures names[k] in Assign(names, seats)
    ensures Assign(names, seats)[names[k]] == Unique(Sanitized(names[k]), Assign(names[..k], seats).Values)
  {
    AssignedNext(names, seats, k);
    AssignedStays(names, seats, k + 1, names[k]);
  }

  lemma AssignedNext(names: seq<Text>, seats: map<Text, Text>, k: nat)
    requires k < |names| && names[k] !in Assign(names[..k], seats)
    ensures var before, next := Assign(names[..k], seats), Assign(names[..k + 1], seats);
            names[k] in next && next[names[k]] == Unique(Sanitized(names[k]), before.Values)
  {
    assert names[..k + 1][..k] == names[..k] && names[..k + 1][k] == names[k];
  }

  lemma NotYetAssigned(originals: seq<Text>, k: nat)
    requires k < |originals| && !Legal(originals[k]) && originals[k] !in originals[..k]
    ensures originals[k] !in Assign(originals[..k], Seats(originals))
  {
    AssignKeys(originals[..k], Seats(originals));
    assert originals[k] !in Elements(originals[..k]);
  }

  /** The bytes of every name sent: 1 to 64 letters, digits, underscores and hyphens. */
  lemma NamesSentAreOfTheseBytes(originals: seq<Text>, names: NameMap, n: Text)
    requires |originals| < USIZE_MAX - 1 && n in originals
    requires names.toWire == Assign(originals, Seats(originals)) && names.Inverse()
    ensures var w := names.Wire(n);
            1 <= |w| <= 64 && forall i :: 0 <= i < |w| ==>
              48 <= w[i] <= 57 || 65 <= w[i] <= 90 || 97 <= w[i] <= 122 || w[i] == 95 || w[i] == 45
  {
    NameIsInvertible(originals, names, n);
  }
}
