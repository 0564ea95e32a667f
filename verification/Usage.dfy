/** Token accounting (`crates/oag-router/src/cost.rs`) and the lossy wire forms it is carried in. */
module TokenUsage {
  const U64_LIMIT: int := 0x1_0000_0000_0000_0000

  type U64 = n: int | 0 <= n < U64_LIMIT

  function Max(a: U64, b: U64): U64 { if a < b then b else a }

  function SaturatingAdd(a: U64, b: U64): U64 {
    if a + b < U64_LIMIT then a + b else U64_LIMIT - 1
  }

  function SaturatingSub(a: U64, b: U64): U64 { if a < b then 0 else a - b }

  /** Plain `+` on `u64` in a release build: the sum modulo 2^64. */
  function WrappingAdd(a: U64, b: U64): U64 { (a as int + b as int) % U64_LIMIT }

  datatype Usage = Usage(input: U64, output: U64, cacheRead: U64, cacheWrite: U64) {
    function Total(): U64 {
      SaturatingAdd(SaturatingAdd(SaturatingAdd(input, output), cacheRead), cacheWrite)
    }

    function Merge(patch: Usage): Usage {
      Usage(Max(input, patch.input), Max(output, patch.output),
            Max(cacheRead, patch.cacheRead), Max(cacheWrite, patch.cacheWrite))
    }

    /** The exact sum of the four counts. */
    ghost function Sum(): nat { input as nat + output + cacheRead + cacheWrite }

    /** Field by field no more than `other`. */
    ghost predicate AtMost(other: Usage) {
      input <= other.input && output <= other.output && cacheRead <= other.cacheRead && cacheWrite <= other.cacheWrite
    }
  }

  const NO_USAGE: Usage := Usage(0, 0, 0, 0)

  function MergeAll(reports: seq<Usage>): Usage {
    if reports == [] then NO_USAGE else MergeAll(reports[..|reports| - 1]).Merge(reports[|reports| - 1])
  }

  // ── the bill is the per-field maximum ───────────────────────────────────────

  /** `m` is the maximum of one count over the reports, with zero standing in for none. */
  ghost predicate IsMaximum(reports: set<Usage>, count: Usage -> U64, m: U64) {
    && (forall r :: r in reports ==> count(r) <= m)
    && (m == 0 || exists r :: r in reports && count(r) == m)
  }

  ghost predicate IsBill(reports: set<Usage>, bill: Usage) {
    && IsMaximum(reports, (u: Usage) => u.input, bill.input)
    && IsMaximum(reports, (u: Usage) => u.output, bill.output)
    && IsMaximum(reports, (u: Usage) => u.cacheRead, bill.cacheRead)
    && IsMaximum(reports, (u: Usage) => u.cacheWrite, bill.cacheWrite)
  }

  lemma {:induction false} MergeAllIsBill(reports: seq<Usage>)
    ensures IsBill((set r | r in reports), MergeAll(reports))
  {
    if reports != [] {
      var init, last := reports[..|reports| - 1], reports[|reports| - 1];
      MergeAllIsBill(init);
      assert (set r | r in reports) == (set r | r in init) + {last} by { assert reports == init + [last]; }
      var before, bill := MergeAll(init), MergeAll(reports);
      var known := set r | r in init;
      MaximumStep(known, last, (u: Usage) => u.input, before.input);
      MaximumStep(known, last, (u: Usage) => u.output, before.output);
      MaximumStep(known, last, (u: Usage) => u.cacheRead, before.cacheRead);
      MaximumStep(known, last, (u: Usage) => u.cacheWrite, before.cacheWrite);
    }
  }

  lemma MaximumStep(reports: set<Usage>, r: Usage, count: Usage -> U64, m: U64)
    requires IsMaximum(reports, count, m)
    ensures IsMaximum(reports + {r}, count, Max(m, count(r)))
  {
    if count(r) < m {
      var x :| x in reports && count(x) == m;
      assert x in reports + {r};
    } else {
      assert r in reports + {r};
    }
  }

  lemma MergeMore(reports: seq<Usage>, last: Usage)
    ensures MergeAll(reports + [last]) == MergeAll(reports).Merge(last)
  {
    assert (reports + [last])[..|reports|] == reports;
  }

  lemma CoversMore(reports: seq<Usage>, last: Usage, bound: Usage)
    ensures (forall r :: r in reports + [last] ==> r.AtMost(bound)) <==>
            (forall r :: r in reports ==> r.AtMost(bound)) && last.AtMost(bound)
  {
    assert last in reports + [last] && forall r :: r in reports ==> r in reports + [last];
  }

  /** The bill is the least usage that covers every report. */
  lemma {:induction false} BillIsLeast(reports: seq<Usage>, bound: Usage)
    ensures MergeAll(reports).AtMost(bound) <==> forall r :: r in reports ==> r.AtMost(bound)
  {
    if reports != [] {
      var init, last := reports[..|reports| - 1], reports[|reports| - 1];
      BillIsLeast(init, bound);
      CoversMore(init, last, bound);
      assert reports == init + [last];
    }
  }

  /** Further reports leave the bill as it is exactly when none of them exceeds it. */
  lemma LaterReports(a: seq<Usage>, b: seq<Usage>)
    ensures MergeAll(a) == MergeAll(a + b) <==> forall r :: r in b ==> r.AtMost(MergeAll(a))
  {
    BillIsLeast(a, MergeAll(a));
    BillIsLeast(a, MergeAll(a + b));
    BillIsLeast(a + b, MergeAll(a));
    BillIsLeast(a + b, MergeAll(a + b));
  }

  /** What the elements of a stream report, in order. */
  function Gathered<T>(stream: seq<T>, report: T -> seq<Usage>): seq<Usage> {
    if stream == [] then [] else Gathered(stream[..|stream| - 1], report) + report(stream[|stream| - 1])
  }

  lemma {:induction false} GatheredConcat<T>(x: seq<T>, y: seq<T>, report: T -> seq<Usage>)
    ensures Gathered(x + y, report) == Gathered(x, report) + Gathered(y, report)
    decreases |y|
  {
    if y == [] {
      assert x + y == x;
    } else {
      var init, last := y[..|y| - 1], y[|y| - 1];
      GatheredConcat(x, init, report);
      assert (x + y)[..|x + y| - 1] == x + init;
      assert (Gathered(x, report) + Gathered(init, report)) + report(last) ==
             Gathered(x, report) + (Gathered(init, report) + report(last));
    }
  }

  lemma GatheredOne<T>(x: T, report: T -> seq<Usage>)
    ensures Gathered([x], report) == report(x)
  {
    assert [x][..0] == [];
  }

  /** One more element, reporting at most once. */
  lemma GatheredMore<T>(stream: seq<T>, x: T, report: T -> seq<Usage>)
    requires |report(x)| <= 1
    ensures MergeAll(Gathered(stream + [x], report)) ==
            if report(x) == [] then MergeAll(Gathered(stream, report)) else MergeAll(Gathered(stream, report)).Merge(report(x)[0])
  {
    assert (stream + [x])[..|stream|] == stream;
    if report(x) == [] {
      assert Gathered(stream, report) + report(x) == Gathered(stream, report);
    } else {
      assert report(x) == [report(x)[0]];
      MergeMore(Gathered(stream, report), report(x)[0]);
    }
  }

  // ── wire forms that report the whole prompt ─────────────────────────────────

  /** Chat Completions' `usage`, and Gemini's `usageMetadata` under other names: the prompt count
      includes the cached prefix. */
  datatype PromptUsage = PromptUsage(prompt: U64, completion: U64, cached: U64, total: U64)

  function PromptTokens(u: Usage): U64 { WrappingAdd(WrappingAdd(u.input, u.cacheRead), u.cacheWrite) }

  function ChatUsage(u: Usage): PromptUsage {
    PromptUsage(PromptTokens(u), u.output, u.cacheRead, WrappingAdd(PromptTokens(u), u.output))
  }

  function GeminiUsage(u: Usage): PromptUsage {
    PromptUsage(PromptTokens(u), u.output, u.cacheRead, u.Total())
  }

  function ReadPromptUsage(w: PromptUsage): Usage {
    Usage(SaturatingSub(w.prompt, w.cached), w.completion, w.cached, 0)
  }

  /** Cache writes counted as plain input, saturating where they cannot be. */
  function Folded(u: Usage): Usage {
    Usage(SaturatingAdd(u.input, u.cacheWrite), u.output, u.cacheRead, 0)
  }

  ghost predicate PromptFits(u: Usage) { u.input as nat + u.cacheRead + u.cacheWrite < U64_LIMIT }

  /** Reading a rendered usage back keeps output and cache reads and moves cache writes into
      input exactly when the prompt count fits in 64 bits. */
  lemma PromptUsageRoundTrip(u: Usage)
    ensures ReadPromptUsage(ChatUsage(u)) == ReadPromptUsage(GeminiUsage(u))
    ensures ReadPromptUsage(ChatUsage(u)) == Folded(u) && Folded(u).Sum() == u.Sum() <==> PromptFits(u)
  {
    PromptTokensIs(u);
  }

  /** What is read from any report: the prompt without its cached prefix, as far as there is one, the
      completion, and the prefix. */
  lemma ReadOnFields(w: PromptUsage)
    ensures var u := ReadPromptUsage(w);
            && (w.cached <= w.prompt ==> u.input + u.cacheRead == w.prompt) && (w.cached > w.prompt ==> u.input == 0)
            && u.output == w.completion && u.cacheRead == w.cached && u.cacheWrite == 0
  {
  }

  lemma WrapOnce(a: U64, b: U64)
    ensures WrappingAdd(a, b) == if a + b < U64_LIMIT then a + b else a + b - U64_LIMIT
  {
  }

  lemma PromptTokensIs(u: Usage)
    ensures var s := u.input as int + u.cacheRead as int + u.cacheWrite as int;
            PromptTokens(u) == if s < U64_LIMIT then s else if s < 2 * U64_LIMIT then s - U64_LIMIT else s - 2 * U64_LIMIT
  {
    WrapOnce(u.input, u.cacheRead);
    WrapOnce(WrappingAdd(u.input, u.cacheRead), u.cacheWrite);
  }

  /** `prompt + completion == total` on both wires exactly when the four counts together fit. */
  lemma TotalsAddUp(u: Usage)
    ensures (var w := ChatUsage(u); w.prompt as nat + w.completion == w.total) && PromptFits(u)
            <==> u.Sum() < U64_LIMIT
    ensures (var w := GeminiUsage(u); w.prompt as nat + w.completion == w.total) && PromptFits(u)
            <==> u.Sum() < U64_LIMIT
    ensures u.Sum() < U64_LIMIT ==> Folded(u).Total() == u.Total() == u.Sum()
  {
    PromptTokensIs(u);
    WrapOnce(PromptTokens(u), u.output);
  }
}
