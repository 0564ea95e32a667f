/** When a sanitised name still holds two underscores in a row. The sanitiser collapses only the
    underscores it writes (`sanitize_openai_function_name` in
    `crates/oag-proto/src/function_names.rs`). */
module Underscores {
  import opened Bytes
  import opened FunctionNames

  /** A letter, digit or hyphen. */
  predicate KeptByte(b: Byte) { NameByte(b) && b != UNDERSCORE }

  ghost predicate NoneKept(s: Text) { forall i :: 0 <= i < |s| ==> !KeptByte(s[i]) }

  ghost predicate AllUnderscores(s: Text) { forall i :: 0 <= i < |s| ==> s[i] == UNDERSCORE }

  ghost predicate Doubled(s: Text) {
    exists k :: 0 <= k < |s| - 1 && s[k] == UNDERSCORE == s[k + 1]
  }

  /** An underscore of the original right behind a byte that is none of letter, digit and hyphen:
      another underscore, or a byte that becomes one. */
  ghost predicate DoublesAt(name: Text, i: int) {
    1 <= i < |name| && name[i] == UNDERSCORE && !KeptByte(name[i - 1])
  }

  // ── before trimming and cutting ─────────────────────────────────────────────

  lemma SqueezeEnds(name: Text)
    requires name != []
    ensures Squeeze(name) != []
    ensures EndsWithUnderscore(Squeeze(name)) <==> !KeptByte(name[|name| - 1])
  {
  }

  lemma DoubledSnoc(s: Text, b: Byte)
    ensures Doubled(s + [b]) <==> Doubled(s) || (EndsWithUnderscore(s) && b == UNDERSCORE)
  {
    var t := s + [b];
    if Doubled(s) {
      var k :| 0 <= k < |s| - 1 && s[k] == UNDERSCORE == s[k + 1];
      assert t[k] == UNDERSCORE == t[k + 1];
    }
    if EndsWithUnderscore(s) && b == UNDERSCORE {
      assert t[|s| - 1] == UNDERSCORE == t[|s| - 1 + 1];
    }
    if Doubled(t) {
      var k :| 0 <= k < |t| - 1 && t[k] == UNDERSCORE == t[k + 1];
      assert k < |s| - 1 ==> s[k] == UNDERSCORE == s[k + 1];
    }
  }

  /** Squeezing leaves two underscores in a row exactly when an underscore of the original follows
      one, or follows a byte that becomes one. */
  lemma {:induction false} SqueezeDoublesExactlyWhen(name: Text)
    ensures Doubled(Squeeze(name)) <==> exists i :: DoublesAt(name, i)
  {
    if name != [] {
      var init, b := name[..|name| - 1], name[|name| - 1];
      SqueezeDoublesExactlyWhen(init);
      DoubledSnoc(Squeeze(init), b);
      DoubledSnoc(Squeeze(init), UNDERSCORE);
      if init != [] {
        SqueezeEnds(init);
      }
      assert forall i :: DoublesAt(init, i) ==> DoublesAt(name, i);
      assert forall i :: DoublesAt(name, i) && i < |init| ==> DoublesAt(init, i);
      assert DoublesAt(name, |init|) <==> init != [] && b == UNDERSCORE && !KeptByte(init[|init| - 1]);
    }
  }

  // ── trimming ────────────────────────────────────────────────────────────────

  lemma {:induction false} SqueezeConcat(x: Text, y: Text)
    requires y == [] || NameByte(y[0])
    ensures Squeeze(x + y) == Squeeze(x) + Squeeze(y)
    decreases |y|
  {
    if y == [] {
      assert x + y == x;
    } else {
      var init := y[..|y| - 1];
      assert (x + y)[..|x + y| - 1] == x + init;
      SqueezeConcat(x, init);
      if init != [] {
        SqueezeEnds(init);
      }
    }
  }

  lemma {:induction false} SqueezeJunk(s: Text)
    requires NoneKept(s)
    ensures AllUnderscores(Squeeze(s))
  {
    if s != [] {
      SqueezeJunk(s[..|s| - 1]);
    }
  }

  lemma {:induction false} SqueezeTail(core: Text, junk: Text)
    requires NoneKept(junk)
    ensures Squeeze(core) <= Squeeze(core + junk) && AllUnderscores(Squeeze(core + junk)[|Squeeze(core)|..])
  {
    if junk == [] {
      assert core + junk == core;
    } else {
      SqueezeTail(core, junk[..|junk| - 1]);
      assert (core + junk)[..|core + junk| - 1] == core + junk[..|junk| - 1];
    }
  }

  lemma {:induction false} TrimLeftOf(us: Text, z: Text)
    requires AllUnderscores(us) && z != [] && z[0] != UNDERSCORE
    ensures TrimLeft(us + z) == z
  {
    if us == [] {
      assert us + z == z;
    } else {
      TrimLeftOf(us[1..], z);
      assert (us + z)[1..] == us[1..] + z;
    }
  }

  lemma {:induction false} TrimRightOf(z: Text, us: Text)
    requires AllUnderscores(us) && z != [] && z[|z| - 1] != UNDERSCORE
    ensures TrimRight(z + us) == z
  {
    if us == [] {
      assert z + us == z;
    } else {
      TrimRightOf(z, us[..|us| - 1]);
      assert (z + us)[..|z + us| - 1] == z + us[..|us| - 1];
    }
  }

  /** How many bytes come before the first letter, digit or hyphen. */
  function Lead(name: Text): (l: nat)
    ensures l <= |name| && (forall i :: 0 <= i < l ==> !KeptByte(name[i])) && (l < |name| ==> KeptByte(name[l]))
  {
    if name == [] || KeptByte(name[0]) then 0 else 1 + Lead(name[1..])
  }

  /** And how many up to and with the last. */
  function Upto(name: Text): (r: nat)
    ensures r <= |name| && (forall i :: r <= i < |name| ==> !KeptByte(name[i])) && (r > 0 ==> KeptByte(name[r - 1]))
  {
    if name == [] || KeptByte(name[|name| - 1]) then |name| else Upto(name[..|name| - 1])
  }

  lemma TrimmedLeft(head: Text, rest: Text)
    requires NoneKept(head) && rest != [] && KeptByte(rest[0])
    ensures TrimLeft(Squeeze(head + rest)) == Squeeze(rest)
  {
    SqueezeConcat(head, rest);
    SqueezeJunk(head);
    FirstKept(rest);
    TrimLeftOf(Squeeze(head), Squeeze(rest));
  }

  lemma TrimmedRight(core: Text, junk: Text)
    requires NoneKept(junk) && core != [] && KeptByte(core[|core| - 1])
    ensures TrimRight(Squeeze(core + junk)) == Squeeze(core)
  {
    SqueezeTail(core, junk);
    SqueezeEnds(core);
    var z := Squeeze(core + junk);
    TrimRightOf(Squeeze(core), z[|Squeeze(core)|..]);
    assert z == Squeeze(core) + z[|Squeeze(core)|..];
  }

  lemma TrimLeftIs(name: Text)
    requires Lead(name) < |name|
    ensures TrimLeft(Squeeze(name)) == Squeeze(name[Lead(name)..])
  {
    var l := Lead(name);
    assert name == name[..l] + name[l..];
    TrimmedLeft(name[..l], name[l..]);
  }

  lemma TrimRightIs(name: Text, l: nat, r: nat)
    requires l < r <= |name| && KeptByte(name[r - 1]) && forall i :: r <= i < |name| ==> !KeptByte(name[i])
    ensures TrimRight(Squeeze(name[l..])) == Squeeze(name[l..r])
  {
    assert name[l..] == name[l..r] + name[r..];
    TrimmedRight(name[l..r], name[r..]);
  }

  /** Trimming what was squeezed is squeezing what was trimmed. */
  lemma TrimmedIs(name: Text)
    requires Lead(name) < |name|
    ensures Lead(name) < Upto(name)
    ensures TrimRight(TrimLeft(Squeeze(name))) == Squeeze(name[Lead(name)..Upto(name)])
  {
    LeadBelowUpto(name);
    TrimLeftIs(name);
    TrimRightIs(name, Lead(name), Upto(name));
  }

  lemma LeadBelowUpto(name: Text)
    requires Lead(name) < |name|
    ensures Lead(name) < Upto(name)
  {
  }

  lemma FirstKept(core: Text)
    requires core != [] && KeptByte(core[0])
    ensures Squeeze(core) != [] && Squeeze(core)[0] != UNDERSCORE
  {
    assert core == [core[0]] + core[1..];
    assert [core[0]][..0] == [];
    assert Squeeze([core[0]]) == [core[0]];
    PrefixSqueeze([core[0]], core[1..]);
  }

  lemma {:induction false} PrefixSqueeze(x: Text, y: Text)
    ensures Squeeze(x) <= Squeeze(x + y)
    ensures |Squeeze(x + y)| <= |Squeeze(x)| + |y|
    decreases |y|
  {
    if y == [] {
      assert x + y == x;
    } else {
      PrefixSqueeze(x, y[..|y| - 1]);
      assert (x + y)[..|x + y| - 1] == x + y[..|y| - 1];
    }
  }

  // ── cutting ─────────────────────────────────────────────────────────────────

  lemma SameCut(x: Text, y: Text, max: nat)
    requires x <= y && max <= |x|
    ensures Truncate(x, max) == Truncate(y, max)
  {
  }

  ghost predicate CutsAt(s: Text, max: nat, m: nat) {
    forall n :: 1 <= n <= |s| ==> (n <= m <==> |Squeeze(s[..n])| <= max)
  }

  /** How many bytes of `s` are squeezed into the first `max`. */
  lemma {:induction false} CutPoint(s: Text, max: nat) returns (m: nat)
    ensures m <= |s| && Squeeze(s[..m]) == Truncate(Squeeze(s), max) && CutsAt(s, max, m)
  {
    if |Squeeze(s)| <= max {
      m := |s|;
      assert s[..m] == s;
      forall n | 1 <= n <= |s| ensures |Squeeze(s[..n])| <= max {
        PrefixOf(s, n);
      }
    } else {
      var init := s[..|s| - 1];
      m := CutPoint(init, max);
      PrefixOf(s, |s| - 1);
      SameCut(Squeeze(init), Squeeze(s), max);
      assert init[..m] == s[..m];
      CutLater(s, max, m);
    }
  }

  lemma CutEarlier(s: Text, max: nat, m: nat, n: nat)
    requires 1 <= n < |s| && CutsAt(s[..|s| - 1], max, m)
    ensures n <= m <==> |Squeeze(s[..n])| <= max
  {
    assert s[..|s| - 1][..n] == s[..n];
  }

  lemma CutLater(s: Text, max: nat, m: nat)
    requires s != [] && |Squeeze(s)| > max && m < |s| && CutsAt(s[..|s| - 1], max, m)
    ensures CutsAt(s, max, m)
  {
    assert s[..|s|] == s;
    forall n | 1 <= n <= |s| ensures n <= m <==> |Squeeze(s[..n])| <= max {
      if n < |s| {
        CutEarlier(s, max, m, n);
      }
    }
  }

  lemma PrefixOf(s: Text, i: nat)
    requires i <= |s|
    ensures Squeeze(s[..i]) <= Squeeze(s) && |Squeeze(s)| <= |Squeeze(s[..i])| + |s| - i
  {
    PrefixSqueeze(s[..i], s[i..]);
    assert s[..i] + s[i..] == s;
  }

  /** The underscore at `i` doubles within `[l, r)` and is still there after the cut. */
  ghost predicate StandsDoubled(name: Text, l: nat, r: nat, i: int)
    requires r <= |name|
  {
    l < i < r && DoublesAt(name, i) && |Squeeze(name[l..i + 1])| <= NAME_MAX
  }

  /** For every name: a sanitised name holds two underscores in a row exactly when the original has
      an underscore right behind a byte that is none of letter, digit and hyphen, between its first
      and its last letter, digit or hyphen, and early enough to survive the cut. */
  lemma SanitizedDoublesExactlyWhen(name: Text)
    ensures Doubled(Sanitized(name)) <==> exists i :: StandsDoubled(name, Lead(name), Upto(name), i)
  {
    var l, r := Lead(name), Upto(name);
    if l == |name| {
      SqueezeJunk(name);
      NothingLeft(Squeeze(name));
      FallbackIsPlain();
    } else {
      TrimmedIs(name);
      SqueezeEnds(name[l..r]);
      CutDoubles(name, l, r);
    }
  }

  lemma FallbackIsPlain()
    ensures !Doubled(Truncate(FALLBACK, NAME_MAX))
  {
  }

  lemma {:induction false} NothingLeft(us: Text)
    requires AllUnderscores(us)
    ensures TrimLeft(us) == [] && TrimRight([]) == []
  {
    if us != [] {
      NothingLeft(us[1..]);
    }
  }

  lemma CutDoubles(name: Text, l: nat, r: nat)
    requires l < r <= |name|
    ensures Doubled(Truncate(Squeeze(name[l..r]), NAME_MAX)) <==> exists i :: StandsDoubled(name, l, r, i)
  {
    var core := name[l..r];
    var m := CutPoint(core, NAME_MAX);
    SqueezeDoublesExactlyWhen(core[..m]);
    if i :| DoublesAt(core[..m], i) {
      InCore(name, l, r, i);
      assert StandsDoubled(name, l, r, l + i);
    }
    if i :| StandsDoubled(name, l, r, i) {
      InCore(name, l, r, i - l);
      assert DoublesAt(core[..m], i - l);
    }
  }

  lemma InCore(name: Text, l: nat, r: nat, i: int)
    requires l < r <= |name| && 1 <= i < r - l
    ensures name[l..r][..i + 1] == name[l..l + i + 1]
    ensures DoublesAt(name[l..r], i) <==> DoublesAt(name, l + i)
  {
  }

  ghost predicate BetweenKept(name: Text, i: int, j: int, k: int) {
    0 <= j < i < k < |name| && DoublesAt(name, i) && KeptByte(name[j]) && KeptByte(name[k])
  }

  /** For a name within the limit: exactly when some letter, digit or hyphen stands before such an
      underscore and another after it. */
  lemma ShortNameDoublesExactlyWhen(name: Text)
    requires |name| <= NAME_MAX
    ensures Doubled(Sanitized(name)) <==> exists i, j, k :: BetweenKept(name, i, j, k)
  {
    SanitizedDoublesExactlyWhen(name);
    StandingIsBetween(name);
  }

  lemma StandingIsBetween(name: Text)
    requires |name| <= NAME_MAX
    ensures (exists i :: StandsDoubled(name, Lead(name), Upto(name), i)) <==> exists i, j, k :: BetweenKept(name, i, j, k)
  {
    forall i | StandsDoubled(name, Lead(name), Upto(name), i) ensures BetweenKept(name, i, Lead(name), Upto(name) - 1) {
      StandsBetween(name, i);
    }
    forall i, j, k | BetweenKept(name, i, j, k) ensures StandsDoubled(name, Lead(name), Upto(name), i) {
      BetweenStands(name, i, j, k);
    }
  }

  lemma StandsBetween(name: Text, i: int)
    requires StandsDoubled(name, Lead(name), Upto(name), i)
    ensures BetweenKept(name, i, Lead(name), Upto(name) - 1)
  {
  }

  lemma BetweenStands(name: Text, i: int, j: int, k: int)
    requires |name| <= NAME_MAX && BetweenKept(name, i, j, k)
    ensures StandsDoubled(name, Lead(name), Upto(name), i)
  {
  }

  /** `a._b`, which is no legal name, is sent as `a__b`. */
  lemma DottedUnderscoreDoubles()
    ensures var name := [97, 46, UNDERSCORE, 98]; !Legal(name) && Doubled(Sanitized(name))
  {
    var name: Text := [97, 46, UNDERSCORE, 98];
    assert !NameByte(name[1]);
    assert BetweenKept(name, 2, 0, 3);
    ShortNameDoublesExactlyWhen(name);
  }
}
