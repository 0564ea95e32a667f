/** 64-bit FNV-1a as `crates/oag-proto/src/converse.rs` computes it, and the arithmetic that makes
    a salted hash of one id land on a different word for every salt below 256. */
module Fnv {
  import opened Bytes

  const U64: int := 0x1_0000_0000_0000_0000
  const OFFSET: int := 0xcbf2_9ce4_8422_2325
  const PRIME: int := 0x0000_0100_0000_01b3
  // The multiplicative inverse of PRIME modulo 2^64; it exists because PRIME is odd.
  const INVERSE: int := 0xce96_5057_aff6_957b

  /** Bitwise exclusive or on naturals. */
  function Xor(a: nat, b: nat): nat
    decreases a + b
  {
    if a == 0 && b == 0 then 0 else 2 * Xor(a / 2, b / 2) + (a + b) % 2
  }

  /** One FNV-1a step: fold a byte in, multiply, keep 64 bits. */
  function Step(hash: nat, b: Byte): nat {
    Xor(hash, b) * PRIME % U64
  }

  function Fold(hash: nat, bytes: Text): nat
    decreases |bytes|
  {
    if bytes == [] then hash else Fold(Step(hash, bytes[0]), bytes[1..])
  }

  /** The low `n` bytes of `salt`, least significant first. */
  function LittleEndian(salt: nat, n: nat): Text {
    if n == 0 then [] else [salt % 256] + LittleEndian(salt / 256, n - 1)
  }

  function Hash(bytes: Text, salt: nat): nat {
    Fold(Fold(OFFSET, bytes), LittleEndian(salt, 8))
  }

  function HexDigit(d: nat): Byte
    requires d < 16
  {
    if d < 10 then 48 + d else 87 + d
  }

  /** `h` as exactly `n` lower-case hexadecimal digits. */
  function Hex(h: nat, n: nat): (r: Text)
    ensures |r| == n
    ensures forall i :: 0 <= i < n ==> IsAlphanumeric(r[i])
  {
    if n == 0 then [] else Hex(h / 16, n - 1) + [HexDigit(h % 16)]
  }

  lemma {:induction false} HexInjective(a: nat, b: nat, n: nat)
    requires a < Power(16, n) && b < Power(16, n)
    requires Hex(a, n) == Hex(b, n)
    ensures a == b
  {
    if n > 0 {
      var x, y := Hex(a, n), Hex(b, n);
      assert x[n - 1] == y[n - 1];
      assert x[..n - 1] == Hex(a / 16, n - 1) && y[..n - 1] == Hex(b / 16, n - 1);
      HexInjective(a / 16, b / 16, n - 1);
    }
  }

  lemma XorUnfold(a: nat, b: nat)
    ensures Xor(a, b) / 2 == Xor(a / 2, b / 2)
    ensures Xor(a, b) % 2 == (a + b) % 2
  {
  }

  /** Adding the same bit twice leaves the parity alone. */
  lemma ParityCancels(a: nat, b: nat, x: nat)
    requires x % 2 == (a + b) % 2
    ensures (x + b) % 2 == a % 2 && (b + x) % 2 == a % 2
  {
  }

  lemma SameHalves(a: nat, b: nat)
    requires a / 2 == b / 2 && a % 2 == b % 2
    ensures a == b
  {
  }

  lemma {:induction false} XorCancelsRight(a: nat, b: nat)
    ensures Xor(Xor(a, b), b) == a
    decreases a + b
  {
    if a != 0 || b != 0 {
      var x := Xor(a, b);
      XorUnfold(a, b);
      XorUnfold(x, b);
      ParityCancels(a, b, x);
      XorCancelsRight(a / 2, b / 2);
      SameHalves(Xor(x, b), a);
    }
  }

  lemma {:induction false} XorCancelsLeft(a: nat, b: nat)
    ensures Xor(a, Xor(a, b)) == b
    decreases a + b
  {
    if a != 0 || b != 0 {
      var x := Xor(a, b);
      XorUnfold(a, b);
      XorUnfold(a, x);
      ParityCancels(b, a, x);
      XorCancelsLeft(a / 2, b / 2);
      SameHalves(Xor(a, x), b);
    }
  }

  lemma {:induction false} XorZero(a: nat)
    ensures Xor(a, 0) == a
  {
    if a > 0 {
      XorZero(a / 2);
    }
  }

  /** One bit more. */
  lemma XorMore(a: nat, b: nat, half: nat)
    requires Xor(a / 2, b / 2) == half
    ensures Xor(a, b) == 2 * half + (a + b) % 2
  {
    XorUnfold(a, b);
  }

  /** The published 64-bit FNV-1a value of the one-byte string `a`. */
  lemma KnownVector(hash: nat, b: Byte)
    requires hash == OFFSET && b == 97
    ensures Fold(hash, [b]) == 0xaf63dc4c8601ec8c
  {
    KnownXor(hash, b);
    assert [b][1..] == [];
    KnownProduct(Xor(hash, b));
  }

  lemma KnownProduct(x: nat)
    requires x == 0xcbf29ce484222344
    ensures x * PRIME % U64 == 0xaf63dc4c8601ec8c
  {
  }

  lemma KnownXor(h0: nat, b0: nat)
    requires h0 == OFFSET && b0 == 97
    ensures Xor(h0, b0) == 0xcbf29ce484222344
  {
    var h1, b1 := h0 / 2, b0 / 2;
    assert h1 == 0x65f94e7242111192 && b1 == 48;
    var h2, b2 := h1 / 2, b1 / 2;
    assert h2 == 0x32fca739210888c9 && b2 == 24;
    var h3, b3 := h2 / 2, b2 / 2;
    assert h3 == 0x197e539c90844464 && b3 == 12;
    var h4, b4 := h3 / 2, b3 / 2;
    assert h4 == 0xcbf29ce48422232 && b4 == 6;
    var h5, b5 := h4 / 2, b4 / 2;
    assert h5 == 0x65f94e724211119 && b5 == 3;
    var h6, b6 := h5 / 2, b5 / 2;
    assert h6 == 0x32fca739210888c && b6 == 1;
    var h7, b7 := h6 / 2, b6 / 2;
    assert h7 == 0x197e539c9084446 && b7 == 0;
    XorZero(h7);
    XorMore(h6, b6, 0x197e539c9084446);
    XorMore(h5, b5, 0x32fca739210888d);
    XorMore(h4, b4, 0x65f94e72421111a);
    XorMore(h3, b3, 0xcbf29ce48422234);
    XorMore(h2, b2, 0x197e539c90844468);
    XorMore(h1, b1, 0x32fca739210888d1);
    XorMore(h0, b0, 0x65f94e72421111a2);
  }

  lemma {:induction false} XorBound(a: nat, b: nat, k: nat)
    requires a < Power(2, k) && b < Power(2, k)
    ensures Xor(a, b) < Power(2, k)
    decreases k
  {
    if k > 0 {
      XorBound(a / 2, b / 2, k - 1);
    }
  }

  lemma XorBound64(a: nat, b: Byte)
    requires a < U64
    ensures Xor(a, b) < U64
  {
    assert Power(2, 8) == 0x100;
    assert Power(2, 16) == 0x1_0000;
    assert Power(2, 24) == 0x100_0000;
    assert Power(2, 32) == 0x1_0000_0000;
    assert Power(2, 40) == 0x100_0000_0000;
    assert Power(2, 48) == 0x1_0000_0000_0000;
    assert Power(2, 56) == 0x100_0000_0000_0000;
    assert Power(2, 64) == U64;
    XorBound(a, b, 64);
  }

  /** Scaling a remainder and reducing again is scaling first and reducing once. */
  lemma ScaleRemainder(a: nat, c: nat)
    ensures (a % U64) * c % U64 == a * c % U64
  {
    var q, r := a / U64, a % U64;
    assert a * c == U64 * (q * c) + r * c by {
      assert a == U64 * q + r;
    }
    ShiftByMultiples(r * c, q * c);
  }

  lemma ShiftByMultiples(x: nat, k: nat)
    ensures (U64 * k + x) % U64 == x % U64
  {
    var q, r := x / U64, x % U64;
    assert U64 * k + x == U64 * (k + q) + r;
  }

  /** Multiplication by PRIME modulo 2^64 is undone by multiplication by INVERSE. */
  lemma MultiplyInvertible(x: nat)
    requires x < U64
    ensures (x * PRIME % U64) * INVERSE % U64 == x
  {
    ScaleRemainder(x * PRIME, INVERSE);
    var k := PRIME * INVERSE / U64;
    assert PRIME * INVERSE == U64 * k + 1;
    assert x * PRIME * INVERSE == U64 * (k * x) + x;
    ShiftByMultiples(x, k * x);
  }

  /** A step is injective in the word it starts from: on 64-bit words, a bijection. */
  lemma StepInjective(h1: nat, h2: nat, b: Byte)
    requires h1 < U64 && h2 < U64
    requires Step(h1, b) == Step(h2, b)
    ensures h1 == h2
  {
    XorBound64(h1, b);
    XorBound64(h2, b);
    MultiplyInvertible(Xor(h1, b));
    MultiplyInvertible(Xor(h2, b));
    XorCancelsRight(h1, b);
    XorCancelsRight(h2, b);
  }

  /** And in the byte it folds in. */
  lemma StepSeparates(h: nat, b1: Byte, b2: Byte)
    requires h < U64
    requires Step(h, b1) == Step(h, b2)
    ensures b1 == b2
  {
    XorBound64(h, b1);
    XorBound64(h, b2);
    MultiplyInvertible(Xor(h, b1));
    MultiplyInvertible(Xor(h, b2));
    XorCancelsLeft(h, b1);
    XorCancelsLeft(h, b2);
  }

  lemma {:induction false} FoldBound(h: nat, bytes: Text)
    requires h < U64
    ensures Fold(h, bytes) < U64
    decreases |bytes|
  {
    if bytes != [] {
      FoldBound(Step(h, bytes[0]), bytes[1..]);
    }
  }

  lemma {:induction false} FoldInjective(h1: nat, h2: nat, bytes: Text)
    requires h1 < U64 && h2 < U64
    ensures Fold(h1, bytes) == Fold(h2, bytes) ==> h1 == h2
    decreases |bytes|
  {
    if bytes != [] && Fold(h1, bytes) == Fold(h2, bytes) {
      FoldInjective(Step(h1, bytes[0]), Step(h2, bytes[0]), bytes[1..]);
      StepInjective(h1, h2, bytes[0]);
    }
  }

  /** The hashes of one id under two different salts below 256 differ. */
  lemma SaltsSeparate(bytes: Text, s1: nat, s2: nat)
    requires s1 < 256 && s2 < 256
    requires Hash(bytes, s1) == Hash(bytes, s2)
    ensures s1 == s2
  {
    var h := Fold(OFFSET, bytes);
    FoldBound(OFFSET, bytes);
    var zeros := LittleEndian(0, 7);
    SaltBytes(s1);
    SaltBytes(s2);
    assert LittleEndian(s1, 8)[1..] == zeros && LittleEndian(s2, 8)[1..] == zeros;
    FoldInjective(Step(h, s1), Step(h, s2), zeros);
    StepSeparates(h, s1, s2);
  }

  lemma SaltBytes(salt: nat)
    requires salt < 256
    ensures LittleEndian(salt, 8) == [salt] + LittleEndian(0, 7)
  {
    assert salt % 256 == salt && salt / 256 == 0;
  }

  lemma HashHexSeparates(bytes: Text, s1: nat, s2: nat)
    requires s1 < 256 && s2 < 256
    requires Hex(Hash(bytes, s1), 16) == Hex(Hash(bytes, s2), 16)
    ensures s1 == s2
  {
    assert Power(16, 8) == 0x1_0000_0000;
    assert Power(16, 16) == U64;
    FoldBound(OFFSET, bytes);
    FoldBound(Fold(OFFSET, bytes), LittleEndian(s1, 8));
    FoldBound(Fold(OFFSET, bytes), LittleEndian(s2, 8));
    HexInjective(Hash(bytes, s1), Hash(bytes, s2), 16);
    SaltsSeparate(bytes, s1, s2);
  }
}
