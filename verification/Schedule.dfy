/** Picking a credential: a cascade of filters (`crates/oag-pool/src/schedule.rs`). */
module Schedule {
  import opened Bytes

  const U32_MAX: int := 0xffff_ffff
  const I64_MAX: int := 0x7fff_ffff_ffff_ffff

  type U32 = n: int | 0 <= n <= U32_MAX
  type I64 = n: int | -I64_MAX - 1 <= n <= I64_MAX

  datatype Candidate = Candidate(
    account: nat,
    priority: nat,
    maxConcurrency: U32,
    inFlight: U32,
    waiting: U32,
    schedulable: bool,
    cooldownUntil: Option<I64>,
    rateLimitedUntil: Option<I64>,
    windowResetsAt: Option<I64>,
    usageRemaining: Option<real>,
    usageReserve: Option<real>,
    lastUsedAt: I64)

  predicate HeldByReserve(remaining: Option<real>, reserve: Option<real>) {
    remaining.Some? && reserve.Some? && remaining.value <= reserve.value
  }

  predicate Past(until: Option<I64>, now: I64) { until.Some? ==> until.value <= now }

  predicate Eligible(c: Candidate, now: I64) {
    && c.schedulable
    && Past(c.cooldownUntil, now)
    && Past(c.rateLimitedUntil, now)
    && !HeldByReserve(c.usageRemaining, c.usageReserve)
    && c.inFlight < c.maxConcurrency
  }

  function SaturatingAdd(a: U32, b: U32): U32 { if a + b <= U32_MAX then a + b else U32_MAX }

  function SaturatingMul(a: U32, b: U32): U32 { if a as int * b as int <= U32_MAX then a as int * b as int else U32_MAX }

  function Busy(c: Candidate): U32 { SaturatingAdd(c.inFlight, c.waiting) }

  /** Occupancy in basis points. */
  function LoadBp(c: Candidate): U32 {
    if c.maxConcurrency == 0 then U32_MAX else Quotient(SaturatingMul(Busy(c), 10_000), c.maxConcurrency)
  }

  function Quotient(a: U32, b: U32): U32
    requires b > 0
  {
    a / b
  }

  lemma QuotientIs(a: U32, b: U32)
    requires b > 0
    ensures Quotient(a, b) as int * b as int <= a < (Quotient(a, b) as int + 1) * b as int
  {
  }

  // ── the cascade ─────────────────────────────────────────────────────────────

  datatype Stage = OnlyCandidate | LeastLoaded | SoonestReset | LeastRecentlyUsed

  datatype Selection = Selection(winner: Candidate, stage: Stage)

  /** What a stage compares. */
  datatype Key = Priority | Load | Window(now: I64) | LastUse

  /** A reset still ahead of us. */
  function Ahead(c: Candidate, now: I64): Option<I64> {
    if c.windowResetsAt.Some? && c.windowResetsAt.value > now then c.windowResetsAt else None
  }

  /** The value compared. A window that is not ahead comes after every one that is. */
  function Of(key: Key, c: Candidate): int {
    match key
    case Priority => c.priority
    case Load => LoadBp(c)
    case Window(now) => if Ahead(c, now).Some? then Ahead(c, now).value else I64_MAX + 1
    case LastUse => c.lastUsedAt
  }

  /** The elements of `s` that are in `kept`, in order. */
  function Filter(s: seq<Candidate>, kept: set<Candidate>): seq<Candidate> {
    if s == [] then [] else (if s[0] in kept then [s[0]] else []) + Filter(s[1..], kept)
  }

  function MinOf(s: seq<Candidate>, key: Key): int
    requires s != []
  {
    if |s| == 1 then Of(key, s[0])
    else var rest := MinOf(s[1..], key); if Of(key, s[0]) <= rest then Of(key, s[0]) else rest
  }

  /** Those of `s` that attain the minimum of `key`. */
  function Least(s: seq<Candidate>, key: Key): seq<Candidate> {
    if s == [] then [] else Filter(s, set c | c in s && Of(key, c) == MinOf(s, key))
  }

  function Soonest(s: seq<Candidate>, now: I64): Option<I64> {
    if s == [] then None
    else
      var rest := Soonest(s[1..], now);
      match (Ahead(s[0], now), rest)
      case (None, _) => rest
      case (Some(t), None) => Some(t)
      case (Some(t), Some(u)) => Some(if t <= u then t else u)
  }

  function EligibleOnes(candidates: seq<Candidate>, now: I64): seq<Candidate> {
    Filter(candidates, set c | c in candidates && Eligible(c, now))
  }

  function Expiring(s: seq<Candidate>, soonest: Option<I64>): seq<Candidate> {
    Filter(s, set c | c in s && c.windowResetsAt == soonest)
  }

  function Select(candidates: seq<Candidate>, now: I64, tieBreaker: nat): Option<Selection> {
    var eligible := EligibleOnes(candidates, now);
    if eligible == [] then None
    else if |eligible| == 1 then Some(Selection(eligible[0], OnlyCandidate))
    else
      var leastLoaded := Least(Least(eligible, Priority), Load);
      if |leastLoaded| == 1 then Some(Selection(leastLoaded[0], LeastLoaded))
      else
        var soonest := Soonest(leastLoaded, now);
        var expiring := Expiring(leastLoaded, soonest);
        if soonest.Some? && |expiring| == 1 then Some(Selection(expiring[0], SoonestReset))
        else
          var coldest := Least(if soonest.Some? then expiring else leastLoaded, LastUse);
          if coldest == [] then None
          else Some(Selection(coldest[tieBreaker % |coldest|], LeastRecentlyUsed))
  }

  // ── the reference: a lexicographic minimum ──────────────────────────────────

  predicate Lower(a: int, b: int, rest: bool) { a < b || (a == b && rest) }

  /** When a window resets, as long as that is still to come; one that is past, or none, comes last. */
  function Resets(c: Candidate, now: I64): int {
    if c.windowResetsAt.Some? && now < c.windowResetsAt.value then c.windowResetsAt.value else I64_MAX + 1
  }

  /** No worse on the first `depth` of priority, load, window and last use, compared in turn. */
  predicate NoWorse(c: Candidate, d: Candidate, now: I64, depth: nat) {
    var last := depth >= 4 ==> c.lastUsedAt <= d.lastUsedAt;
    var window := depth >= 3 ==> Lower(Resets(c, now), Resets(d, now), last);
    var load := depth >= 2 ==> Lower(LoadBp(c), LoadBp(d), window);
    Lower(c.priority, d.priority, load)
  }

  /** Those of `s` that no other beats on the first `depth` components. */
  ghost predicate Unbeaten(s: seq<Candidate>, c: Candidate, now: I64, depth: nat) {
    forall d :: d in s ==> NoWorse(c, d, now, depth)
  }

  ghost function BestSet(s: seq<Candidate>, now: I64, depth: nat): set<Candidate> {
    set c | c in s && Unbeaten(s, c, now, depth)
  }

  /** The eligible candidates that no other beats on the first `depth` components, in the order
      of the snapshot. */
  ghost function Best(candidates: seq<Candidate>, now: I64, depth: nat): seq<Candidate> {
    var s := EligibleOnes(candidates, now);
    Filter(s, BestSet(s, now, depth))
  }

  function Members(s: seq<Candidate>): set<Candidate> { set c | c in s }

  // ── filters ─────────────────────────────────────────────────────────────────

  lemma {:induction false} FilterIs(s: seq<Candidate>, kept: set<Candidate>)
    ensures forall c :: c in Filter(s, kept) <==> c in s && c in kept
  {
    if s != [] {
      FilterIs(s[1..], kept);
      assert s == [s[0]] + s[1..];
    }
  }

  lemma {:induction false} FilterSame(s: seq<Candidate>, a: set<Candidate>, b: set<Candidate>)
    requires forall c :: c in s ==> (c in a <==> c in b)
    ensures Filter(s, a) == Filter(s, b)
  {
    if s != [] {
      FilterSame(s[1..], a, b);
    }
  }

  lemma {:induction false} FilterTwice(s: seq<Candidate>, a: set<Candidate>, b: set<Candidate>)
    ensures Filter(Filter(s, a), b) == Filter(s, a * b)
  {
    if s != [] {
      FilterTwice(s[1..], a, b);
      var rest := Filter(s[1..], a);
      if s[0] in a {
        assert ([s[0]] + rest)[1..] == rest;
      } else {
        assert [] + rest == rest;
      }
    }
  }

  lemma {:induction false} FilterAll(s: seq<Candidate>, kept: set<Candidate>)
    requires forall c :: c in s ==> c in kept
    ensures Filter(s, kept) == s
  {
    if s != [] {
      FilterAll(s[1..], kept);
      assert s == [s[0]] + s[1..];
    }
  }

  /** Filtering again, by whatever is in the filtered list. */
  lemma FilterOfFilter(s: seq<Candidate>, a: set<Candidate>, b: set<Candidate>, c: set<Candidate>)
    requires forall x :: x in s && x in a ==> (x in b <==> x in c)
    requires c <= a
    ensures Filter(Filter(s, a), b) == Filter(s, c)
  {
    FilterTwice(s, a, b);
    FilterSame(s, a * b, c);
  }

  lemma {:induction false} MinIs(s: seq<Candidate>, key: Key)
    requires s != []
    ensures forall c :: c in s ==> MinOf(s, key) <= Of(key, c)
    ensures exists c :: c in s && Of(key, c) == MinOf(s, key)
  {
    if |s| == 1 {
      assert s[0] in s;
    } else {
      MinIs(s[1..], key);
      assert s == [s[0]] + s[1..];
      var c :| c in s[1..] && Of(key, c) == MinOf(s[1..], key);
      assert c in s && s[0] in s;
    }
  }

  /** What one stage keeps: those no other beats on its key. */
  lemma LeastIs(s: seq<Candidate>, key: Key)
    ensures forall c :: c in Least(s, key) <==> c in s && forall d :: d in s ==> Of(key, c) <= Of(key, d)
    ensures s != [] ==> Least(s, key) != []
  {
    if s != [] {
      MinIs(s, key);
      FilterIs(s, set c | c in s && Of(key, c) == MinOf(s, key));
      var c :| c in s && Of(key, c) == MinOf(s, key);
      assert c in Least(s, key);
    }
  }

  lemma {:induction false} SoonestIs(s: seq<Candidate>, now: I64)
    ensures Soonest(s, now).Some? ==> now < Soonest(s, now).value
    ensures forall c :: c in s ==>
              Of(Window(now), c) >= if Soonest(s, now).Some? then Soonest(s, now).value as int else I64_MAX + 1
    ensures Soonest(s, now).Some? ==> exists c :: c in s && Of(Window(now), c) == Soonest(s, now).value
  {
    if s != [] {
      SoonestIs(s[1..], now);
      assert s == [s[0]] + s[1..];
      if Soonest(s[1..], now).Some? {
        var c :| c in s[1..] && Of(Window(now), c) == Soonest(s[1..], now).value;
        assert c in s;
      }
      assert s[0] in s;
    }
  }

  /** The stage on windows keeps those with the least window, whether or not any is ahead. */
  lemma WindowStage(s: seq<Candidate>, now: I64)
    requires s != []
    ensures (if Soonest(s, now).Some? then Expiring(s, Soonest(s, now)) else s) == Least(s, Window(now))
    ensures Soonest(s, now).None? ==> Least(s, Window(now)) == s
  {
    var soonest, least := Soonest(s, now), MinOf(s, Window(now));
    SoonestIs(s, now);
    MinIs(s, Window(now));
    var kept := set c | c in s && Of(Window(now), c) == least;
    if soonest.Some? {
      assert least == soonest.value;
      FilterSame(s, (set c | c in s && c.windowResetsAt == soonest), kept);
    } else {
      FilterAll(s, kept);
    }
  }

  // ── the cascade is the lexicographic minimum ────────────────────────────────

  function KeyAt(depth: nat, now: I64): Key {
    if depth == 0 then Priority else if depth == 1 then Load else if depth == 2 then Window(now) else LastUse
  }

  lemma NoWorseDeeper(c: Candidate, d: Candidate, now: I64, depth: nat)
    requires 1 <= depth < 4
    ensures NoWorse(c, d, now, depth + 1) <==>
            NoWorse(c, d, now, depth) && (NoWorse(d, c, now, depth) ==> Of(KeyAt(depth, now), c) <= Of(KeyAt(depth, now), d))
  {
  }

  /** One more stage is one more component. */
  lemma StageDeepens(s: seq<Candidate>, now: I64, depth: nat)
    requires 1 <= depth < 4 && BestSet(s, now, depth) != {}
    ensures Least(Filter(s, BestSet(s, now, depth)), KeyAt(depth, now)) == Filter(s, BestSet(s, now, depth + 1))
    ensures BestSet(s, now, depth + 1) != {}
  {
    var best, deeper, key := BestSet(s, now, depth), BestSet(s, now, depth + 1), KeyAt(depth, now);
    var stage := Filter(s, best);
    LeastIsDeeper(s, now, depth);
    LeastIsFilter(stage, key);
    DeeperIsBest(s, now, depth);
    FilterOfFilter(s, best, Members(Least(stage, key)), deeper);
    var c :| c in best;
    FilterIs(s, best);
    assert c in stage;
    LeastIs(stage, key);
    assert Least(stage, key)[0] in Least(stage, key);
  }

  lemma LeastIsDeeper(s: seq<Candidate>, now: I64, depth: nat)
    requires 1 <= depth < 4
    ensures forall c :: c in Least(Filter(s, BestSet(s, now, depth)), KeyAt(depth, now)) <==> c in BestSet(s, now, depth + 1)
  {
    var best := BestSet(s, now, depth);
    FilterIs(s, best);
    LeastIs(Filter(s, best), KeyAt(depth, now));
    DeeperIsBest(s, now, depth);
    forall c | c in best
      ensures c in Least(Filter(s, best), KeyAt(depth, now)) <==> c in BestSet(s, now, depth + 1)
    {
      DeepensAt(s, now, depth, c);
    }
  }

  lemma DeeperIsBest(s: seq<Candidate>, now: I64, depth: nat)
    requires 1 <= depth < 4
    ensures BestSet(s, now, depth + 1) <= BestSet(s, now, depth)
  {
    forall c | c in BestSet(s, now, depth + 1) ensures Unbeaten(s, c, now, depth) {
      forall d | d in s ensures NoWorse(c, d, now, depth) {
        NoWorseDeeper(c, d, now, depth);
      }
    }
  }

  /** A stage's result is a filter by membership in it. */
  lemma LeastIsFilter(s: seq<Candidate>, key: Key)
    ensures Least(s, key) == Filter(s, Members(Least(s, key)))
  {
    if s != [] {
      var kept := set c | c in s && Of(key, c) == MinOf(s, key);
      FilterIs(s, kept);
      FilterSame(s, kept, Members(Least(s, key)));
    }
  }

  /** Among minima on the first components, beating all on the next is beating all on one more. */
  lemma DeepensAt(s: seq<Candidate>, now: I64, depth: nat, c: Candidate)
    requires 1 <= depth < 4 && c in BestSet(s, now, depth)
    ensures (forall d :: d in BestSet(s, now, depth) ==> Of(KeyAt(depth, now), c) <= Of(KeyAt(depth, now), d))
            <==> c in BestSet(s, now, depth + 1)
  {
    var best, key := BestSet(s, now, depth), KeyAt(depth, now);
    forall d | d in s ensures NoWorse(c, d, now, depth + 1) <==>
                              (d in best ==> Of(key, c) <= Of(key, d)) {
      NoWorseDeeper(c, d, now, depth);
      if NoWorse(d, c, now, depth) {
        TiedWithBest(s, now, depth, c, d);
      }
    }
  }

  lemma TiedWithBest(s: seq<Candidate>, now: I64, depth: nat, c: Candidate, d: Candidate)
    requires c in BestSet(s, now, depth) && d in s && NoWorse(d, c, now, depth)
    ensures d in BestSet(s, now, depth)
  {
    forall x | x in s ensures NoWorse(d, x, now, depth) {
      assert NoWorse(c, x, now, depth);
    }
  }

  lemma FirstComponent(c: Candidate, d: Candidate, now: I64)
    ensures NoWorse(c, d, now, 1) <==> Of(Priority, c) <= Of(Priority, d)
  {
  }

  lemma FirstStage(s: seq<Candidate>, now: I64)
    requires s != []
    ensures Least(s, Priority) == Filter(s, BestSet(s, now, 1)) && BestSet(s, now, 1) != {}
  {
    LeastIs(s, Priority);
    LeastIsFilter(s, Priority);
    forall c | c in s ensures c in Least(s, Priority) <==> c in BestSet(s, now, 1) {
      forall d | d in s ensures NoWorse(c, d, now, 1) <==> Of(Priority, c) <= Of(Priority, d) {
        FirstComponent(c, d, now);
      }
    }
    FilterSame(s, Members(Least(s, Priority)), BestSet(s, now, 1));
    assert Least(s, Priority)[0] in Least(s, Priority);
  }

  /** The stages, component by component, over the eligible candidates. */
  lemma CascadeIsBest(candidates: seq<Candidate>, now: I64)
    requires EligibleOnes(candidates, now) != []
    ensures Least(Least(EligibleOnes(candidates, now), Priority), Load) == Best(candidates, now, 2) != []
    ensures Least(Best(candidates, now, 2), Window(now)) == Best(candidates, now, 3) != []
    ensures Least(Best(candidates, now, 3), LastUse) == Best(candidates, now, 4) != []
  {
    FirstStage(EligibleOnes(candidates, now), now);
    NextStage(candidates, now, 1);
    NextStage(candidates, now, 2);
    NextStage(candidates, now, 3);
  }

  lemma NextStage(candidates: seq<Candidate>, now: I64, depth: nat)
    requires 1 <= depth < 4 && BestSet(EligibleOnes(candidates, now), now, depth) != {}
    ensures Least(Best(candidates, now, depth), KeyAt(depth, now)) == Best(candidates, now, depth + 1) != []
    ensures BestSet(EligibleOnes(candidates, now), now, depth + 1) != {}
  {
    var s := EligibleOnes(candidates, now);
    StageDeepens(s, now, depth);
    NotEmpty(s, BestSet(s, now, depth + 1));
  }

  lemma NotEmpty(s: seq<Candidate>, kept: set<Candidate>)
    requires kept != {} && forall c :: c in kept ==> c in s
    ensures Filter(s, kept) != []
  {
    FilterIs(s, kept);
    var c :| c in kept;
    assert c in Filter(s, kept);
  }

  lemma LeastOfOne(s: seq<Candidate>, key: Key)
    requires |s| == 1
    ensures Least(s, key) == s
  {
    assert s[1..] == [];
    FilterAll(s, set c | c in s && Of(key, c) == MinOf(s, key));
  }

  /** The cascade answers with nothing exactly when nothing is eligible; otherwise with one of the
      lexicographic minima over the eligible candidates, the one the tie-breaker counts to, so that
      tie-breakers 0 to k-1 reach the k of them once each; and the stage it names is the first at
      which a single candidate was left. */
  lemma SelectIsLexicographicMinimum(candidates: seq<Candidate>, now: I64, tieBreaker: nat)
    ensures Select(candidates, now, tieBreaker).None? <==> forall c :: c in candidates ==> !Eligible(c, now)
    ensures Select(candidates, now, tieBreaker).Some? ==>
              var r, ties := Select(candidates, now, tieBreaker).value, Best(candidates, now, 4);
              && ties != [] && r.winner == ties[tieBreaker % |ties|]
              && r.stage == (if |EligibleOnes(candidates, now)| == 1 then OnlyCandidate
                             else if |Best(candidates, now, 2)| == 1 then LeastLoaded
                             else if |Best(candidates, now, 3)| == 1 then SoonestReset
                             else LeastRecentlyUsed)
  {
    NoneExactlyWhen(candidates, now);
    var s := EligibleOnes(candidates, now);
    if s != [] {
      CascadeIsBest(candidates, now);
      var loaded, pool := Best(candidates, now, 2), Best(candidates, now, 3);
      WindowStage(loaded, now);
      if |s| == 1 {
        LeastOfOne(s, Priority);
        LeastOfOne(s, Load);
      }
      if |loaded| == 1 {
        LeastOfOne(loaded, Window(now));
      }
      if |pool| == 1 {
        LeastOfOne(pool, LastUse);
      }
    }
  }

  lemma NoneExactlyWhen(candidates: seq<Candidate>, now: I64)
    ensures EligibleOnes(candidates, now) == [] <==> forall c :: c in candidates ==> !Eligible(c, now)
  {
    var s := EligibleOnes(candidates, now);
    FilterIs(candidates, set c | c in candidates && Eligible(c, now));
    if s != [] {
      assert s[0] in s;
    } else {
      assert forall c :: c in candidates ==> c !in s;
    }
  }

  /** A winner is eligible and no eligible candidate beats it. */
  lemma WinnerIsUnbeaten(candidates: seq<Candidate>, now: I64, tieBreaker: nat, d: Candidate)
    requires Select(candidates, now, tieBreaker).Some? && d in candidates && Eligible(d, now)
    ensures var w := Select(candidates, now, tieBreaker).value.winner;
            w in candidates && Eligible(w, now) && NoWorse(w, d, now, 4)
  {
    SelectIsLexicographicMinimum(candidates, now, tieBreaker);
    var s, ties := EligibleOnes(candidates, now), Best(candidates, now, 4);
    FilterIs(candidates, set c | c in candidates && Eligible(c, now));
    FilterIs(s, BestSet(s, now, 4));
    assert ties[tieBreaker % |ties|] in ties && d in s;
  }

  /** Why a candidate cannot be used now, on its own fields. */
  predicate Barred(c: Candidate, now: I64) {
    || !c.schedulable
    || (c.cooldownUntil.Some? && now < c.cooldownUntil.value)
    || (c.rateLimitedUntil.Some? && now < c.rateLimitedUntil.value)
    || (c.usageRemaining.Some? && c.usageReserve.Some? && c.usageRemaining.value <= c.usageReserve.value)
    || c.maxConcurrency <= c.inFlight
  }

  /** Nothing is selected exactly when every candidate is barred. */
  lemma NothingSelectedExactlyWhen(candidates: seq<Candidate>, now: I64, tieBreaker: nat)
    ensures Select(candidates, now, tieBreaker).None? <==> forall c :: c in candidates ==> Barred(c, now)
  {
    SelectIsLexicographicMinimum(candidates, now, tieBreaker);
    assert forall c :: Eligible(c, now) <==> !Barred(c, now);
  }

  /** The winner against any other candidate that is not barred, field by field: the lower tier; in one
      tier the lower load; at one load the window that resets sooner, one still ahead before any other;
      and then the one used longer ago. */
  lemma WinnerOnFields(candidates: seq<Candidate>, now: I64, tieBreaker: nat, d: Candidate)
    requires Select(candidates, now, tieBreaker).Some? && d in candidates && !Barred(d, now)
    ensures var w := Select(candidates, now, tieBreaker).value.winner;
            && w in candidates && !Barred(w, now)
            && w.priority <= d.priority
            && (w.priority == d.priority ==>
                  && LoadBp(w) <= LoadBp(d)
                  && (LoadBp(w) == LoadBp(d) ==>
                        var ahead := d.windowResetsAt.Some? && now < d.windowResetsAt.value;
                        var first := w.windowResetsAt.Some? && now < w.windowResetsAt.value;
                        && (ahead ==> first && w.windowResetsAt.value <= d.windowResetsAt.value)
                        && ((first == ahead && (ahead ==> w.windowResetsAt == d.windowResetsAt)) ==>
                              w.lastUsedAt <= d.lastUsedAt)))
  {
    WinnerIsUnbeaten(candidates, now, tieBreaker, d);
  }

  // ── load against exact occupancy ────────────────────────────────────────────

  const BUSY_BOUND: int := 429_496

  /** The load is the occupancy in basis points, rounded down. */
  predicate Rounded(c: Candidate) {
    LoadBp(c) as int * c.maxConcurrency as int <= Busy(c) as int * 10_000 < (LoadBp(c) as int + 1) * c.maxConcurrency as int
  }

  /** Exactly up to the bound, or as long past it as the saturated product still rounds the same. */
  lemma RoundedExactlyWhen(c: Candidate)
    requires c.maxConcurrency > 0
    ensures var m := c.maxConcurrency as int;
            Rounded(c) <==> Busy(c) <= BUSY_BOUND || Busy(c) as int * 10_000 < (Quotient(U32_MAX, m) as int + 1) * m
  {
    QuotientIs(SaturatingMul(Busy(c), 10_000), c.maxConcurrency);
  }

  /** The load on the fields: requests in flight and waiting against the slots there are. */
  lemma LoadOnFields(c: Candidate)
    ensures c.maxConcurrency == 0 ==> LoadBp(c) == 0xffff_ffff
    ensures c.maxConcurrency > 0 && c.inFlight + c.waiting <= 429_496 ==>
              var all, slots := (c.inFlight as int + c.waiting as int) * 10_000, c.maxConcurrency as int;
              LoadBp(c) as int * slots <= all < (LoadBp(c) as int + 1) * slots
  {
    if c.maxConcurrency > 0 {
      RoundedExactlyWhen(c);
    }
  }

  /** Rounded or not, the load never overstates the occupancy. */
  lemma LoadNeverOverstates(c: Candidate)
    requires c.maxConcurrency > 0
    ensures LoadBp(c) as int * c.maxConcurrency as int <= Busy(c) as int * 10_000
  {
    QuotientIs(SaturatingMul(Busy(c), 10_000), c.maxConcurrency);
  }

  /** `c` is no more occupied than `d`, exactly. */
  predicate NoFuller(c: Candidate, d: Candidate) {
    Busy(c) as int * d.maxConcurrency as int <= Busy(d) as int * c.maxConcurrency as int
  }

  /** The order of loads follows the order of occupancies up to `d`: nobody no fuller looks busier. */
  ghost predicate NeverOutranked(d: Candidate) {
    forall c: Candidate :: c.maxConcurrency > 0 && NoFuller(c, d) ==> LoadBp(c) <= LoadBp(d)
  }

  ghost predicate NeverOutrankedByEligible(d: Candidate, now: I64) {
    forall c: Candidate :: Eligible(c, now) && c.priority == d.priority && NoFuller(c, d) ==> LoadBp(c) <= LoadBp(d)
  }

  /** Load never ranks a candidate no fuller behind one whose own load is rounded. */
  lemma LoadNeverInverts(c: Candidate, d: Candidate)
    requires c.maxConcurrency > 0 && d.maxConcurrency > 0 && Rounded(d) && NoFuller(c, d)
    ensures LoadBp(c) <= LoadBp(d)
  {
    LoadNeverOverstates(c);
    FloorMonotone(Busy(c), c.maxConcurrency, LoadBp(c), Busy(d), d.maxConcurrency, LoadBp(d));
  }

  /** A candidate one basis point above what `d` looks like. */
  function Rival(d: Candidate): Candidate
    requires LoadBp(d) < BUSY_BOUND
  {
    d.(inFlight := LoadBp(d) + 1, waiting := 0, maxConcurrency := 10_000)
  }

  /** When `d`'s load is not rounded its rival is no fuller and looks busier. */
  lemma RivalOutranks(d: Candidate)
    requires d.maxConcurrency > 0 && LoadBp(d) < BUSY_BOUND && !Rounded(d)
    ensures NoFuller(Rival(d), d) && LoadBp(Rival(d)) == LoadBp(d) + 1
  {
    LoadNeverOverstates(d);
    QuotientIs((LoadBp(d) + 1) * 10_000, 10_000);
  }

  /** Load order follows occupancy order up to a candidate exactly when its own load is rounded, which
      is a check on its fields. */
  lemma LoadFollowsOccupancyExactlyWhen(d: Candidate)
    requires d.maxConcurrency > 0 && LoadBp(d) < BUSY_BOUND
    ensures var m := d.maxConcurrency as int;
            NeverOutranked(d) <==> Busy(d) <= BUSY_BOUND || Busy(d) as int * 10_000 < (Quotient(U32_MAX, m) as int + 1) * m
  {
    RoundedExactlyWhen(d);
    if Rounded(d) {
      forall c: Candidate | c.maxConcurrency > 0 && NoFuller(c, d) ensures LoadBp(c) <= LoadBp(d) {
        LoadNeverInverts(c, d);
      }
    } else {
      RivalOutranks(d);
      assert NoFuller(Rival(d), d);
    }
  }

  /** Among candidates that can be selected in its tier, for one that nobody waits on: the same. */
  lemma EligibleLoadFollowsOccupancyExactlyWhen(d: Candidate, now: I64)
    requires Eligible(d, now) && d.waiting == 0
    ensures var m := d.maxConcurrency as int;
            NeverOutrankedByEligible(d, now) <==>
            Busy(d) <= BUSY_BOUND || Busy(d) as int * 10_000 < (Quotient(U32_MAX, m) as int + 1) * m
  {
    LoadNeverOverstates(d);
    FreeSlotLoad(d.inFlight, d.maxConcurrency, LoadBp(d));
    RoundedExactlyWhen(d);
    if Rounded(d) {
      forall c: Candidate | Eligible(c, now) && c.priority == d.priority && NoFuller(c, d) ensures LoadBp(c) <= LoadBp(d) {
        LoadNeverInverts(c, d);
      }
    } else {
      RivalOutranks(d);
      FreeSlotRival(d.inFlight, d.maxConcurrency, LoadBp(d));
      assert Eligible(Rival(d), now) && Rival(d).priority == d.priority;
    }
  }

  lemma FreeSlotLoad(a: int, m: int, p: int)
    requires 0 <= a < m && p * m <= a * 10_000
    ensures p < 10_000
  {
    if p >= 10_000 {
      MultiplyBoth(10_000, p, m);
    }
  }

  lemma FreeSlotRival(a: int, m: int, p: int)
    requires 0 <= a < m && p < 10_000 && !(p * m <= a * 10_000 < (p + 1) * m) && p * m <= a * 10_000
    ensures p + 1 < 10_000
  {
    assert p == 9_999 ==> (p + 1) * m == 10_000 * m;
  }

  lemma FloorMonotone(a: int, m: int, p: int, b: int, n: int, q: int)
    requires m > 0 && n > 0 && a * n <= b * m
    requires p * m <= a * 10_000 && b * 10_000 < (q + 1) * n
    ensures p <= q
  {
    if p > q {
      calc {
        p * m * n;
      <= { MultiplyBoth(p * m, a * 10_000, n); }
        a * 10_000 * n;
      <= { MultiplyBoth(a * n, b * m, 10_000); }
        b * m * 10_000;
      < { MultiplyStrictly(b * 10_000, (q + 1) * n, m); }
        (q + 1) * n * m;
      <= { MultiplyBoth(q + 1, p, n * m); }
        p * (n * m);
      }
    }
  }

  lemma MultiplyBoth(a: int, b: int, k: int)
    requires a <= b && 0 <= k
    ensures a * k <= b * k
  {
  }

  /** A winner whose load is rounded is less than one basis point above any other in its tier. */
  lemma WinnerIsNearlyLeastOccupied(candidates: seq<Candidate>, now: I64, tieBreaker: nat, d: Candidate)
    requires Select(candidates, now, tieBreaker).Some? && d in candidates && Eligible(d, now)
    requires var w := Select(candidates, now, tieBreaker).value.winner; w.priority == d.priority && Rounded(w)
    ensures var w := Select(candidates, now, tieBreaker).value.winner;
            Busy(w) as int * 10_000 * d.maxConcurrency as int <
            (Busy(d) as int * 10_000 + d.maxConcurrency as int) * w.maxConcurrency as int
  {
    var w := Select(candidates, now, tieBreaker).value.winner;
    WinnerIsUnbeaten(candidates, now, tieBreaker, d);
    LoadNeverOverstates(d);
    NearlyLeast(Busy(w), w.maxConcurrency, LoadBp(w), Busy(d), d.maxConcurrency, LoadBp(d));
  }

  lemma NearlyLeast(a: int, m: int, p: int, b: int, n: int, q: int)
    requires m > 0 && n > 0 && p <= q
    requires a * 10_000 < (p + 1) * m && q * n <= b * 10_000
    ensures a * 10_000 * n < (b * 10_000 + n) * m
  {
    calc {
      a * 10_000 * n;
    < { MultiplyStrictly(a * 10_000, (p + 1) * m, n); }
      (p + 1) * m * n;
    <= { MultiplyBoth(p + 1, q + 1, m * n); Regroup(p + 1, m, n); }
      (q + 1) * (m * n);
    == { Regroup(q + 1, n, m); }
      (q * n + n) * m;
    <= { MultiplyBoth(q * n + n, b * 10_000 + n, m); }
      (b * 10_000 + n) * m;
    }
  }

  lemma MultiplyStrictly(a: int, b: int, k: int)
    requires a < b && 0 < k
    ensures a * k < b * k
  {
  }

  lemma Regroup(a: int, b: int, c: int)
    ensures a * b * c == a * (b * c) == a * (c * b)
  {
  }

  /** Past the bound the product saturates and a fuller credential can look the emptier one. */
  lemma SaturationInverts(c: Candidate)
    requires c.waiting == 0
    ensures NoFuller(Half(c), Full(c)) && LoadBp(Full(c)) < LoadBp(Half(c)) && !Rounded(Full(c))
  {
    QuotientIs(U32_MAX, 1_000_001);
  }

  /** `c` with one slot of a million free, and with half of ten thousand. */
  function Full(c: Candidate): Candidate { c.(inFlight := 1_000_000, maxConcurrency := 1_000_001) }

  function Half(c: Candidate): Candidate { c.(inFlight := 5_000, maxConcurrency := 10_000) }

  /** And is selected: of two credentials alike but for that, the nearly full one goes first. */
  lemma SaturationSelectsTheFuller(c: Candidate, now: I64, tieBreaker: nat)
    requires c.waiting == 0 && Eligible(Full(c), now)
    ensures var r := Select([Half(c), Full(c)], now, tieBreaker); r.Some? && r.value.winner == Full(c)
  {
    var candidates := [Half(c), Full(c)];
    SaturationInverts(c);
    assert Full(c) in candidates;
    SelectIsLexicographicMinimum(candidates, now, tieBreaker);
    WinnerIsUnbeaten(candidates, now, tieBreaker, Full(c));
  }
}
