/**
 SplitMix64 with rejection sampling. 64-bit words are naturals below 2^64: wrapping operations are
 taken modulo 2^64, and exclusive or is defined bit by bit.
 */
module SplitMix {
  import opened Counting

  const M: nat := 0x1_0000_0000_0000_0000
  const INCREMENT: nat := 0x9E37_79B9_7F4A_7C15
  const FIRST: nat := 0xBF58_476D_1CE4_E5B9
  const SECOND: nat := 0x94D0_49BB_1331_11EB

  // ----- words

  function Xor(a: nat, b: nat): nat
    decreases a + b
  {
    if a == 0 && b == 0 then 0 else (a % 2 + b % 2) % 2 + 2 * Xor(a / 2, b / 2)
  }

  function Shr(a: nat, k: nat): nat {
    if k == 0 then a else Shr(a / 2, k - 1)
  }

  lemma {:induction false} XorFits(a: nat, b: nat, n: nat)
    requires a < Pow2(n) && b < Pow2(n)
    ensures Xor(a, b) < Pow2(n)
    decreases n
  {
    if n > 0 && !(a == 0 && b == 0) {
      XorFits(a / 2, b / 2, n - 1);
    }
  }

  lemma {:induction false} ShrShrinks(a: nat, k: nat)
    ensures Shr(a, k) <= a
    ensures k > 0 && a > 0 ==> Shr(a, k) < a
    decreases k
  {
    if k > 0 {
      ShrShrinks(a / 2, k - 1);
    }
  }

  lemma {:induction false} ShrDistributes(a: nat, b: nat, k: nat)
    ensures Shr(Xor(a, b), k) == Xor(Shr(a, k), Shr(b, k))
    decreases k
  {
    if k > 0 {
      assert Xor(a, b) / 2 == Xor(a / 2, b / 2);
      ShrDistributes(a / 2, b / 2, k - 1);
    }
  }

  lemma XorParts(a: nat, b: nat)
    ensures Xor(a, b) % 2 == (a % 2 + b % 2) % 2
    ensures Xor(a, b) / 2 == Xor(a / 2, b / 2)
  {
  }

  lemma ParityExchange(a: nat, b: nat, c: nat, d: nat)
    requires (a % 2 + b % 2) % 2 == (c % 2 + d % 2) % 2
    ensures (a % 2 + c % 2) % 2 == (b % 2 + d % 2) % 2
  {
  }

  lemma SameParts(x: nat, y: nat)
    requires x % 2 == y % 2 && x / 2 == y / 2
    ensures x == y
  {
  }

  lemma {:induction false} XorExchange(a: nat, b: nat, c: nat, d: nat)
    requires Xor(a, b) == Xor(c, d)
    ensures Xor(a, c) == Xor(b, d)
    decreases a + b + c + d
  {
    if a + b + c + d > 0 {
      XorParts(a, b);
      XorParts(c, d);
      XorExchange(a / 2, b / 2, c / 2, d / 2);
      XorParts(a, c);
      XorParts(b, d);
      ParityExchange(a, b, c, d);
      SameParts(Xor(a, c), Xor(b, d));
    }
  }

  lemma {:induction false} XorZeroMeansEqual(a: nat, b: nat)
    requires Xor(a, b) == 0
    ensures a == b
    decreases a + b
  {
    if a + b > 0 {
      XorZeroMeansEqual(a / 2, b / 2);
    }
  }

  /** z ^ (z >> k) loses nothing: the difference of two preimages would equal its own shift. */
  lemma XorShiftInjective(a: nat, b: nat, k: nat)
    requires k > 0 && Xor(a, Shr(a, k)) == Xor(b, Shr(b, k))
    ensures a == b
  {
    XorExchange(a, Shr(a, k), b, Shr(b, k));
    ShrDistributes(a, b, k);
    ShrShrinks(Xor(a, b), k);
    XorZeroMeansEqual(a, b);
  }

  lemma Pow2Of64()
    ensures Pow2(64) == M
  {
    var eight, sixteen, thirtyTwo := 8, 16, 32;
    assert Pow2(8) == 0x100;
    Pow2Adds(eight, eight);
    assert Pow2(sixteen) == 0x1_0000;
    Pow2Adds(sixteen, sixteen);
    assert Pow2(thirtyTwo) == 0x1_0000_0000;
    Pow2Adds(thirtyTwo, thirtyTwo);
  }

  lemma {:induction false} Pow2Adds(m: nat, n: nat)
    ensures Pow2(m + n) == Pow2(m) * Pow2(n)
  {
    if m > 0 {
      Pow2Adds(m - 1, n);
    }
  }

  function XorShift(z: nat, k: nat): (r: nat)
    requires z < M
    ensures r < M
  {
    Pow2Of64();
    ShrShrinks(z, k);
    XorFits(z, Shr(z, k), 64);
    Xor(z, Shr(z, k))
  }

  // ----- multiplication by an odd constant

  lemma ModOfSum(x: nat, k: int)
    requires x < M
    ensures (x + k * M) % M == x
  {
  }

  /** A constant with an inverse modulo 2^64 can be divided out again. */
  lemma MulUndone(z: nat, c: nat, inverse: nat, q: nat)
    requires z < M && c * inverse == 1 + q * M
    ensures ((z * c) % M * inverse) % M == z
  {
    var m, t := z * c, (z * c) / M;
    assert m == t * M + m % M;
    calc {
      (m % M) * inverse;
      (m - t * M) * inverse;
      m * inverse - t * M * inverse;
      { assert m * inverse == z * (c * inverse); }
      z * (1 + q * M) - t * inverse * M;
      { assert z * (q * M) == (z * q) * M; }
      z + (z * q) * M - (t * inverse) * M;
      z + (z * q - t * inverse) * M;
    }
    ModOfSum(z, z * q - t * inverse);
  }

  lemma MulInjective(a: nat, b: nat, c: nat, inverse: nat, q: nat)
    requires a < M && b < M && c * inverse == 1 + q * M
    requires (a * c) % M == (b * c) % M
    ensures a == b
  {
    MulUndone(a, c, inverse, q);
    MulUndone(b, c, inverse, q);
  }

  // ----- the generator

  /** The output function: two multiply-xorshift rounds and a last xorshift. */
  function Mix(z: nat): (r: nat)
    requires z < M
    ensures r < M
  {
    var z1 := (XorShift(z, 30) * FIRST) % M;
    var z2 := (XorShift(z1, 27) * SECOND) % M;
    XorShift(z2, 31)
  }

  /** No two words have the same output. */
  lemma MixInjective(a: nat, b: nat)
    requires a < M && b < M && Mix(a) == Mix(b)
    ensures a == b
  {
    var a0, b0 := XorShift(a, 30), XorShift(b, 30);
    var a1, b1 := (a0 * FIRST) % M, (b0 * FIRST) % M;
    var a2, b2 := XorShift(a1, 27), XorShift(b1, 27);
    var a3, b3 := (a2 * SECOND) % M, (b2 * SECOND) % M;
    XorShiftInjective(a3, b3, 31);
    MulInjective(a2, b2, SECOND, 0x3196_42B2_D24D_8EC3, 2077064247507883091);
    XorShiftInjective(a1, b1, 27);
    MulInjective(a0, b0, FIRST, 0x96DE_1B17_3F11_9089, 8125545580553827436);
    XorShiftInjective(a, b, 30);
  }

  /** The state after k draws from a seed. */
  function StateAt(seed: nat, k: nat): (r: nat)
    ensures r < M
  {
    (seed + k * INCREMENT) % M
  }

  /** The k-th output after a seed. */
  function Output(seed: nat, k: nat): (r: nat)
    ensures r < M
  {
    Mix(StateAt(seed, k))
  }

  /** The increment is odd, so the state does not come back within 2^64 steps. */
  lemma StatesDistinct(seed: nat, j: nat, k: nat)
    requires j < k < j + M
    ensures StateAt(seed, j) != StateAt(seed, k)
  {
    if StateAt(seed, j) == StateAt(seed, k) {
      var x, y := seed + j * INCREMENT, seed + k * INCREMENT;
      var d := k - j;
      var t := y / M - x / M;
      assert y - x == d * INCREMENT;
      assert d * INCREMENT == t * M;
      var inverse: int := 0xF1DE_83E1_9937_733D;
      var q: int := 10771413168148108919;
      assert INCREMENT * inverse == 1 + q * M;
      calc {
        d * (1 + q * M);
        d * (INCREMENT * inverse);
        (d * INCREMENT) * inverse;
        t * M * inverse;
      }
      assert d == (t * inverse - d * q) * M;
      MultipleOfM(d, t * inverse - d * q);
    }
  }

  lemma MultipleOfM(d: nat, c: int)
    requires d == c * M && d < M
    ensures d == 0
  {
  }

  lemma OutputsDistinct(seed: nat, j: nat, k: nat)
    requires j < k < j + M
    ensures Output(seed, j) != Output(seed, k)
  {
    StatesDistinct(seed, j, k);
    if Output(seed, j) == Output(seed, k) {
      MixInjective(StateAt(seed, j), StateAt(seed, k));
    }
  }
}
