/**
 What the generator computes, said without its own definition: each round bit by bit with the shifts and
 multipliers written out, and the first outputs of seed 0.
 */
module SplitMixReference {
  import opened Counting
  import opened SplitMix

  // ----- bit by bit

  function Bit(z: nat, i: nat): nat { Shr(z, i) % 2 }

  lemma {:induction false} ShrAdds(z: nat, j: nat, k: nat)
    ensures Shr(Shr(z, j), k) == Shr(z, j + k)
    decreases j
  {
    if j > 0 {
      ShrAdds(z / 2, j - 1, k);
    }
  }

  /** A shift divides by a power of two. */
  lemma {:induction false} ShrDivides(z: nat, k: nat)
    ensures Shr(z, k) == z / Pow2(k)
    decreases k
  {
    if k > 0 {
      ShrDivides(z / 2, k - 1);
      DivideTwice(z, 2, Pow2(k - 1));
    }
  }

  lemma XorBit(a: nat, b: nat, i: nat)
    ensures Bit(Xor(a, b), i) == (Bit(a, i) + Bit(b, i)) % 2
  {
    ShrDistributes(a, b, i);
    XorParts(Shr(a, i), Shr(b, i));
  }

  /** Bit i of z ^ (z >> k) is bit i of z plus bit i + k of z, modulo two. */
  lemma XorShiftBit(z: nat, k: nat, i: nat)
    requires z < M
    ensures Bit(XorShift(z, k), i) == (Bit(z, i) + Bit(z, i + k)) % 2
  {
    XorBit(z, Shr(z, k), i);
    ShrAdds(z, k, i);
  }

  /** `w` is z ^ (z >> k). */
  ghost predicate IsXorShift(z: nat, k: nat, w: nat) {
    forall i: nat :: Bit(w, i) == (Bit(z, i) + Bit(z, i + k)) % 2
  }

  lemma XorShiftIs(z: nat, k: nat)
    requires z < M
    ensures IsXorShift(z, k, XorShift(z, k))
  {
    forall i: nat
      ensures Bit(XorShift(z, k), i) == (Bit(z, i) + Bit(z, i + k)) % 2
    {
      XorShiftBit(z, k, i);
    }
  }

  /** Bits determine a number, so the rounds determine the output. */
  lemma {:induction false} BitsDetermine(a: nat, b: nat)
    requires forall i: nat :: Bit(a, i) == Bit(b, i)
    ensures a == b
    decreases a + b
  {
    if a + b > 0 {
      assert Bit(a, 0) == Bit(b, 0);
      forall i: nat
        ensures Bit(a / 2, i) == Bit(b / 2, i)
      {
        assert Bit(a, i + 1) == Bit(b, i + 1);
      }
      BitsDetermine(a / 2, b / 2);
    }
  }

  // ----- the generator, from the published constants alone

  lemma XorShiftIsOnly(z: nat, k: nat, w: nat)
    requires z < M && IsXorShift(z, k, w)
    ensures w == XorShift(z, k)
  {
    forall i: nat
      ensures Bit(w, i) == Bit(XorShift(z, k), i)
    {
      XorShiftBit(z, k, i);
    }
    BitsDetermine(w, XorShift(z, k));
  }

  /** The k-th output after a seed is the one word that these rounds lead to from seed + k * increment. */
  ghost predicate IsOutput(seed: nat, k: nat, a: nat, b: nat, c: nat, d: nat, word: nat) {
    && IsXorShift((seed + k * 0x9E37_79B9_7F4A_7C15) % 0x1_0000_0000_0000_0000, 30, a)
    && b == a * 0xBF58_476D_1CE4_E5B9 % 0x1_0000_0000_0000_0000
    && IsXorShift(b, 27, c)
    && d == c * 0x94D0_49BB_1331_11EB % 0x1_0000_0000_0000_0000
    && IsXorShift(d, 31, word)
  }

  lemma OutputIsOnly(seed: nat, k: nat, a: nat, b: nat, c: nat, d: nat, word: nat)
    requires IsOutput(seed, k, a, b, c, d, word)
    ensures word == Output(seed, k)
  {
    XorShiftIsOnly(StateAt(seed, k), 30, a);
    XorShiftIsOnly(b, 27, c);
    XorShiftIsOnly(d, 31, word);
  }

  lemma OutputIs(seed: nat, k: nat) returns (a: nat, b: nat, c: nat, d: nat)
    ensures IsOutput(seed, k, a, b, c, d, Output(seed, k))
  {
    var z := StateAt(seed, k);
    a := XorShift(z, 30);
    b := a * FIRST % M;
    c := XorShift(b, 27);
    d := c * SECOND % M;
    XorShiftIs(z, 30);
    XorShiftIs(b, 27);
    XorShiftIs(d, 31);
  }
}
