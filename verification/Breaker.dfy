/** Per-credential circuit breaking (`crates/oag-pool/src/breaker.rs`). */
module CircuitBreaker {
  import opened Bytes

  const U32_MAX: int := 0xffff_ffff
  const I64_MAX: int := 0x7fff_ffff_ffff_ffff
  const I64_MIN: int := -0x8000_0000_0000_0000

  type U32 = n: int | 0 <= n <= U32_MAX
  type I64 = n: int | I64_MIN <= n <= I64_MAX

  datatype Admission = Denied | Admitted | Probe

  datatype BreakerState = Closed | Open(until: I64) | HalfOpen

  function SaturatingIncrement(n: U32): U32 { if n < U32_MAX then n + 1 else n }

  /** `now` plus a non-negative number of seconds, stopping at the largest clock value. */
  function Later(now: I64, seconds: nat): I64 {
    var secs := if seconds <= I64_MAX then seconds else I64_MAX;
    if now as int + secs <= I64_MAX then now as int + secs else I64_MAX
  }

  // ── what callers do to a breaker, and what the doing amounts to ─────────────

  datatype Op = Begin(now: I64) | Release | Success | Failure(now: I64)

  /** A breaker's own fields. */
  datatype Fields = Fields(failures: U32, threshold: U32, cooldown: nat, openedUntil: Option<I64>, probeSent: bool)

  function Fresh(threshold: U32, cooldown: nat): Fields {
    Fields(0, if threshold < 1 then 1 else threshold, cooldown, None, false)
  }

  function StateOf(f: Fields, now: I64): BreakerState {
    match f.openedUntil
    case None => Closed
    case Some(until) => if until > now then Open(until) else HalfOpen
  }

  function Granted(f: Fields, now: I64): Admission {
    match StateOf(f, now)
    case Closed => Admitted
    case Open(_) => Denied
    case HalfOpen => if f.probeSent then Denied else Probe
  }

  function After(f: Fields, op: Op): Fields {
    match op
    case Begin(now) => if Granted(f, now) == Probe then f.(probeSent := true) else f
    case Release => f.(probeSent := false)
    case Success => f.(failures := 0, openedUntil := None, probeSent := false)
    case Failure(now) =>
      var failures := SaturatingIncrement(f.failures);
      if failures >= f.threshold
      then f.(failures := failures, openedUntil := Some(Later(now, f.cooldown)), probeSent := false)
      else f.(failures := failures)
  }

  function Run(f: Fields, ops: seq<Op>): Fields {
    if ops == [] then f else After(Run(f, ops[..|ops| - 1]), ops[|ops| - 1])
  }

  class Breaker {
    var failures: U32
    const threshold: U32
    const cooldown: nat
    var openedUntil: Option<I64>
    var probeSent: bool

    ghost function View(): Fields
      reads this
    {
      Fields(failures, threshold, cooldown, openedUntil, probeSent)
    }

    constructor (threshold: U32, cooldown: nat)
      ensures View() == Fresh(threshold, cooldown)
      ensures this.threshold == (if threshold == 0 then 1 else threshold) && this.cooldown == cooldown
      ensures failures == 0 && openedUntil == None && !probeSent
    {
      failures, openedUntil, probeSent := 0, None, false;
      this.threshold := if threshold < 1 then 1 else threshold;
      this.cooldown := cooldown;
    }

    function State(now: I64): (s: BreakerState)
      reads this
      ensures s == StateOf(View(), now)
    {
      if openedUntil.Some? && openedUntil.value > now then Open(openedUntil.value)
      else if openedUntil.Some? then HalfOpen else Closed
    }

    /** Whether a request may be sent, asked without sending one: exactly when beginning one now
        would not be denied. */
    predicate Permits(now: I64)
      reads this
      ensures Permits(now) <==> Granted(View(), now) != Denied
    {
      match State(now)
      case Closed => true
      case Open(_) => false
      case HalfOpen => !probeSent
    }

    method BeginRequest(now: I64) returns (a: Admission)
      modifies this`probeSent
      ensures a == old(Granted(View(), now)) && View() == old(After(View(), Begin(now)))
      ensures old(Permits(now)) <==> a != Denied
    {
      match State(now) {
        case Closed => a := Admitted;
        case Open(_) => a := Denied;
        case HalfOpen =>
          if probeSent {
            a := Denied;
          } else {
            probeSent := true;
            a := Probe;
          }
      }
    }

    method ReleaseProbe()
      modifies this`probeSent
      ensures View() == old(After(View(), Release))
    {
      probeSent := false;
    }

    method RecordSuccess()
      modifies this
      ensures View() == old(After(View(), Success))
    {
      failures := 0;
      openedUntil := None;
      probeSent := false;
    }

    method RecordFailure(now: I64)
      modifies this
      ensures View() == old(After(View(), Failure(now)))
      ensures old(failures) < U32_MAX ==> failures == old(failures) + 1
      ensures failures < threshold ==> openedUntil == old(openedUntil) && probeSent == old(probeSent)
      ensures failures >= threshold ==>
                !probeSent && openedUntil.Some? && (now as int + cooldown <= I64_MAX && cooldown <= I64_MAX ==>
                                                      openedUntil == Some(now + cooldown))
    {
      failures := SaturatingIncrement(failures);
      if failures >= threshold {
        openedUntil := Some(Later(now, cooldown));
        probeSent := false;
      }
    }
  }

  // ── the history a breaker answers for ───────────────────────────────────────

  /** Failures since the last success, counted without saturation. */
  function FailuresSince(ops: seq<Op>): nat {
    if ops == [] then 0
    else match ops[|ops| - 1]
      case Success => 0
      case Failure(_) => 1 + FailuresSince(ops[..|ops| - 1])
      case _ => FailuresSince(ops[..|ops| - 1])
  }

  /** When the last failure since the last success was recorded. */
  function LastFailure(ops: seq<Op>): Option<I64> {
    if ops == [] then None
    else match ops[|ops| - 1]
      case Success => None
      case Failure(now) => Some(now)
      case _ => LastFailure(ops[..|ops| - 1])
  }

  /** The operation gives back or outdates a probe: a release, a success, a failure that trips. */
  predicate Renews(threshold: nat, before: seq<Op>, op: Op) {
    op.Release? || op.Success? || (op.Failure? && FailuresSince(before) + 1 >= threshold)
  }

  /** Whether a probe has been granted and nothing has renewed it since. */
  predicate ProbeOut(threshold: nat, cooldown: nat, ops: seq<Op>)
    decreases |ops|, 1
  {
    if ops == [] then false
    else
      var before, op := ops[..|ops| - 1], ops[|ops| - 1];
      if Renews(threshold, before, op) then false
      else ProbeOut(threshold, cooldown, before) || (op.Begin? && Verdict(threshold, cooldown, before, op.now) == Probe)
  }

  /** What a history of operations says about a request at `now`: admitted below the threshold of
      failures since the last success; past it, denied until the cooldown after the last failure
      has run, and then let through one at a time. */
  function Verdict(threshold: nat, cooldown: nat, ops: seq<Op>, now: I64): Admission
    decreases |ops|, 2
  {
    if FailuresSince(ops) < threshold then Admitted
    else if LastFailure(ops).Some? && Later(LastFailure(ops).value, cooldown) > now then Denied
    else if ProbeOut(threshold, cooldown, ops) then Denied
    else Probe
  }

  ghost predicate Remembers(f: Fields, threshold: nat, cooldown: nat, ops: seq<Op>) {
    && f.threshold == threshold && f.cooldown == cooldown && 1 <= threshold
    && f.failures == (if FailuresSince(ops) < U32_MAX then FailuresSince(ops) else U32_MAX)
    && (FailuresSince(ops) > 0 <==> LastFailure(ops).Some?)
    && f.openedUntil == (if FailuresSince(ops) >= threshold then Some(Later(LastFailure(ops).value, cooldown)) else None)
    && f.probeSent == ProbeOut(threshold, cooldown, ops)
  }

  lemma GrantedIsVerdict(f: Fields, threshold: nat, cooldown: nat, ops: seq<Op>, now: I64)
    requires Remembers(f, threshold, cooldown, ops)
    ensures Granted(f, now) == Verdict(threshold, cooldown, ops, now)
  {
  }

  lemma RememberStep(f: Fields, threshold: nat, cooldown: nat, ops: seq<Op>)
    requires ops != [] && Remembers(f, threshold, cooldown, ops[..|ops| - 1])
    ensures Remembers(After(f, ops[|ops| - 1]), threshold, cooldown, ops)
  {
    var before, op := ops[..|ops| - 1], ops[|ops| - 1];
    if op.Begin? {
      GrantedIsVerdict(f, threshold, cooldown, before, op.now);
    }
  }

  lemma {:induction false} RunRemembers(threshold: U32, cooldown: nat, ops: seq<Op>)
    ensures Remembers(Run(Fresh(threshold, cooldown), ops), Fresh(threshold, cooldown).threshold, cooldown, ops)
  {
    if ops != [] {
      RunRemembers(threshold, cooldown, ops[..|ops| - 1]);
      RememberStep(Run(Fresh(threshold, cooldown), ops[..|ops| - 1]), Fresh(threshold, cooldown).threshold, cooldown, ops);
    }
  }

  /** Over every run, what the breaker grants is what its history says, and it is closed exactly
      when the failures since the last success fall short of the threshold. */
  lemma BreakerAnswersForItsHistory(threshold: U32, cooldown: nat, ops: seq<Op>, now: I64)
    ensures var f, t := Run(Fresh(threshold, cooldown), ops), if threshold == 0 then 1 else threshold;
            && Granted(f, now) == Verdict(t, cooldown, ops, now)
            && (StateOf(f, now) == Closed <==> FailuresSince(ops) < t)
            && (FailuresSince(ops) >= t ==> Granted(f, now) != Admitted)
  {
    RunRemembers(threshold, cooldown, ops);
    GrantedIsVerdict(Run(Fresh(threshold, cooldown), ops), Fresh(threshold, cooldown).threshold, cooldown, ops, now);
  }

  /** Over every run: closed below the threshold of failures since the last success; from then on
      open until the cooldown after the last failure has run, and half open after. */
  lemma StateIsItsHistory(threshold: U32, cooldown: nat, ops: seq<Op>, now: I64)
    ensures var s, t := StateOf(Run(Fresh(threshold, cooldown), ops), now), if threshold == 0 then 1 else threshold;
            if FailuresSince(ops) < t then s == Closed
            else LastFailure(ops).Some? &&
                 var until := Later(LastFailure(ops).value, cooldown);
                 s == if now < until then Open(until) else HalfOpen
  {
    RunRemembers(threshold, cooldown, ops);
  }

  /** How long it stays open, in seconds: over every run at or past the threshold, with the last failure
      at `f`, every request before `f` plus the cooldown is denied, and from then on the breaker is half
      open. A cooldown counts up to the largest clock value, and so does the sum. */
  lemma OpenForTheCooldown(threshold: U32, cooldown: nat, ops: seq<Op>, now: I64)
    requires FailuresSince(ops) >= if threshold == 0 then 1 else threshold
    ensures LastFailure(ops).Some?
    ensures var f, b := LastFailure(ops).value as int, Run(Fresh(threshold, cooldown), ops);
            && (cooldown <= I64_MAX && f + cooldown <= I64_MAX ==>
                  && (now < f + cooldown ==> StateOf(b, now) == Open(f + cooldown) && Granted(b, now) == Denied)
                  && (now >= f + cooldown ==> StateOf(b, now) == HalfOpen))
            && (cooldown <= I64_MAX && f + cooldown > I64_MAX ==>
                  StateOf(b, now) == if now < I64_MAX then Open(I64_MAX) else HalfOpen)
            && (cooldown > I64_MAX && f > 0 ==> StateOf(b, now) == if now < I64_MAX then Open(I64_MAX) else HalfOpen)
            && (cooldown > I64_MAX && f <= 0 ==>
                  StateOf(b, now) == if now < f + I64_MAX then Open(f + I64_MAX) else HalfOpen)
  {
    RunRemembers(threshold, cooldown, ops);
  }

  lemma {:induction false} RunConcat(f: Fields, x: seq<Op>, y: seq<Op>)
    ensures Run(f, x + y) == Run(Run(f, x), y)
    decreases |y|
  {
    if y == [] {
      assert x + y == x;
    } else {
      assert (x + y)[..|x + y| - 1] == x + y[..|y| - 1];
      RunConcat(f, x, y[..|y| - 1]);
    }
  }

  /** No operation in `ops`, carried out from `f` on, gives back or outdates a probe. */
  ghost predicate NothingRenews(f: Fields, ops: seq<Op>)
    decreases |ops|
  {
    ops == [] ||
    var before, op := ops[..|ops| - 1], ops[|ops| - 1];
    && NothingRenews(f, before)
    && !op.Release? && !op.Success?
    && (op.Failure? ==> SaturatingIncrement(Run(f, before).failures) < f.threshold)
  }

  lemma {:induction false} ProbeStaysOut(f: Fields, ops: seq<Op>)
    requires f.probeSent && f.openedUntil.Some? && NothingRenews(f, ops)
    ensures Run(f, ops).probeSent && Run(f, ops).openedUntil == f.openedUntil && Run(f, ops).threshold == f.threshold
  {
    if ops != [] {
      ProbeStaysOut(f, ops[..|ops| - 1]);
    }
  }

  /** Between two renewals at most one probe is granted: after one, whatever else happens short of
      a release, a success or a tripping failure, every request is denied. */
  lemma OneProbeBetweenRenewals(threshold: U32, cooldown: nat, before: seq<Op>, first: I64, between: seq<Op>, second: I64)
    requires var f := Run(Fresh(threshold, cooldown), before);
             Granted(f, first) == Probe && NothingRenews(After(f, Begin(first)), between)
    ensures Granted(Run(Fresh(threshold, cooldown), before + [Begin(first)] + between), second) == Denied
  {
    var f := Run(Fresh(threshold, cooldown), before);
    RunConcat(Fresh(threshold, cooldown), before + [Begin(first)], between);
    assert (before + [Begin(first)])[..|before|] == before;
    ProbeStaysOut(After(f, Begin(first)), between);
  }
}
