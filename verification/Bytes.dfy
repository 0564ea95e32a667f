/** Strings as the gateway holds them: Rust strings are UTF-8 byte sequences, and every
    length, truncation and hash in the source is taken over those bytes. */
module Bytes {
  type Byte = b: int | 0 <= b < 256
  type Text = seq<Byte>

  const UNDERSCORE: Byte := 95
  const HYPHEN: Byte := 45
  const HASH: Byte := 35

  datatype Option<+T> = None | Some(value: T)

  predicate IsDigit(b: Byte) { 48 <= b <= 57 }

  predicate IsAlphanumeric(b: Byte) {
    IsDigit(b) || 65 <= b <= 90 || 97 <= b <= 122
  }

  /** No string occurs twice. */
  ghost predicate Distinct(ids: seq<Text>) {
    forall i, j :: 0 <= i < j < |ids| ==> ids[i] != ids[j]
  }

  /** The first `max` bytes of `s`, or all of it when it is shorter. */
  function Truncate(s: Text, max: nat): (r: Text)
    ensures |r| <= max && r <= s
    ensures |s| <= max ==> r == s
  {
    if |s| <= max then s else s[..max]
  }

  /** `n` in decimal, without leading zeros. */
  function Decimal(n: nat): (r: Text)
    ensures |r| >= 1
    ensures forall i :: 0 <= i < |r| ==> IsDigit(r[i])
  {
    if n < 10 then [48 + n] else Decimal(n / 10) + [48 + n % 10]
  }

  /** The number a string of decimal digits spells. */
  function ValueOf(s: Text): int {
    if s == [] then 0 else 10 * ValueOf(s[..|s| - 1]) + (s[|s| - 1] as int - 48)
  }

  lemma {:induction false} DecimalValue(n: nat)
    ensures ValueOf(Decimal(n)) == n
  {
    var d := Decimal(n);
    if n >= 10 {
      DecimalValue(n / 10);
      assert d[..|d| - 1] == Decimal(n / 10);
    } else {
      assert d[..0] == [];
    }
  }

  /** A number below ten to the k takes at most k digits. */
  lemma {:induction false} DecimalLength(n: nat, k: nat)
    requires k >= 1 && n < Power(10, k)
    ensures |Decimal(n)| <= k
    decreases k
  {
    assert Power(10, k) == 10 * Power(10, k - 1);
    if n >= 10 {
      DecimalLength(n / 10, k - 1);
    }
  }

  /** How many digits `s` ends with. */
  function TrailingDigits(s: Text): nat {
    if s == [] || !IsDigit(s[|s| - 1]) then 0 else 1 + TrailingDigits(s[..|s| - 1])
  }

  lemma {:induction false} TrailingDigitsAfterMark(a: Text, mark: Byte, x: Text)
    requires !IsDigit(mark)
    requires forall i :: 0 <= i < |x| ==> IsDigit(x[i])
    ensures TrailingDigits(a + [mark] + x) == |x|
  {
    var s := a + [mark] + x;
    if x != [] {
      assert s[..|s| - 1] == a + [mark] + x[..|x| - 1];
      TrailingDigitsAfterMark(a, mark, x[..|x| - 1]);
    }
  }

  /** Two strings that end in the same marker followed by digits agree on the digits, when the
      marker is not itself a digit: whatever precedes it does not matter. */
  lemma SuffixDigits(a: Text, x: Text, b: Text, y: Text, mark: Byte)
    requires !IsDigit(mark)
    requires forall i :: 0 <= i < |x| ==> IsDigit(x[i])
    requires forall i :: 0 <= i < |y| ==> IsDigit(y[i])
    requires a + [mark] + x == b + [mark] + y
    ensures x == y && a == b
  {
    var s, t := a + [mark] + x, b + [mark] + y;
    TrailingDigitsAfterMark(a, mark, x);
    TrailingDigitsAfterMark(b, mark, y);
    assert x == s[|s| - |x|..] && y == t[|t| - |y|..];
    assert a == s[..|a|] && b == t[..|b|];
  }

  ghost function Power(base: nat, e: nat): nat {
    if e == 0 then 1 else base * Power(base, e - 1)
  }
}
