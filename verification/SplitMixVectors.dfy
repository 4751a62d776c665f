/** Known answers: the first three outputs of seed 0, derived from the rounds of the generator digit by digit. */
module SplitMixVectors {
  import opened Counting
  import opened SplitMix
  import opened SplitMixReference

  /** A bit position; quantifiers over bits are instantiated only where one is named. */
  predicate Position(i: nat) { i >= 0 }

  /** `x` is the exclusive or of a and b. */
  ghost predicate IsXor(a: nat, b: nat, x: nat) {
    forall i: nat {:trigger Position(i)} :: Position(i) ==> Bit(x, i) == (Bit(a, i) + Bit(b, i)) % 2
  }

  lemma XorWithZero(a: nat, b: nat)
    requires b == 0
    ensures IsXor(a, b, a)
  {
    forall i: nat
      ensures Bit(a, i) == (Bit(a, i) + Bit(b, i)) % 2
    {
      ShrShrinks(b, i);
    }
  }

  // ----- digits are put on one after the other

  lemma BitOfDouble(a: nat, r: nat, i: nat)
    requires r < 2
    ensures Bit(2 * a + r, i) == if i == 0 then r else Bit(a, i - 1)
  {
    assert (2 * a + r) / 2 == a;
  }

  lemma NextBitAt(a: nat, b: nat, x: nat, r: nat, t: nat, u: nat, i: nat)
    requires IsXor(a, b, x) && r < 2 && t < 2 && u == if r != t then 1 else 0
    ensures Bit(2 * x + u, i) == (Bit(2 * a + r, i) + Bit(2 * b + t, i)) % 2
  {
    BitOfDouble(a, r, i);
    BitOfDouble(b, t, i);
    BitOfDouble(x, u, i);
    if i > 0 {
      assert Position(i - 1);
    }
  }

  lemma NextBit(a: nat, b: nat, x: nat, r: nat, t: nat, u: nat)
    requires IsXor(a, b, x) && r < 2 && t < 2 && u == if r != t then 1 else 0
    ensures IsXor(2 * a + r, 2 * b + t, 2 * x + u)
  {
    var a', b', x' := 2 * a + r, 2 * b + t, 2 * x + u;
    forall i: nat
      ensures Bit(x', i) == (Bit(a', i) + Bit(b', i)) % 2
    {
      NextBitAt(a, b, x, r, t, u, i);
    }
  }

  /** The part of r that is a multiple of p, counted in p, when there are at most four of them. */
  function High(r: nat, p: nat): nat {
    if r >= 3 * p then 3 else if r >= 2 * p then 2 else if r >= p then 1 else 0
  }

  /** Exclusive or of two bits. */
  function PairXor(r: nat, t: nat): nat {
    2 * (if (r >= 2) != (t >= 2) then 1 else 0) + if (r == 1 || r == 3) != (t == 1 || t == 3) then 1 else 0
  }

  lemma NextPair(a: nat, b: nat, x: nat, r: nat, t: nat)
    requires IsXor(a, b, x) && r < 4 && t < 4
    ensures IsXor(4 * a + r, 4 * b + t, 4 * x + PairXor(r, t))
  {
    var r1, t1 := if r >= 2 then 1 else 0, if t >= 2 then 1 else 0;
    var u1 := if r1 != t1 then 1 else 0;
    NextBit(a, b, x, r1, t1, u1);
    NextBit(2 * a + r1, 2 * b + t1, 2 * x + u1, r - 2 * r1, t - 2 * t1, PairXor(r, t) - 2 * u1);
  }

  /** Exclusive or of one digit to the base 16. */
  function DigitXor(r: nat, t: nat): nat
    requires r < 16 && t < 16
  {
    4 * PairXor(High(r, 4), High(t, 4)) + PairXor(r - 4 * High(r, 4), t - 4 * High(t, 4))
  }

  lemma NextDigit(a: nat, b: nat, x: nat, r: nat, t: nat)
    requires IsXor(a, b, x) && r < 16 && t < 16
    ensures IsXor(16 * a + r, 16 * b + t, 16 * x + DigitXor(r, t))
  {
    var h, k := High(r, 4), High(t, 4);
    NextPair(a, b, x, h, k);
    NextPair(4 * a + h, 4 * b + k, 4 * x + PairXor(h, k), r - 4 * h, t - 4 * k);
  }

  /** A digit put on two words and on their exclusive or, all three written out. */
  lemma Put(a: nat, b: nat, x: nat, a': nat, b': nat, x': nat)
    requires 16 * a <= a' < 16 * a + 16 && 16 * b <= b' < 16 * b + 16
    requires x' == 16 * x + DigitXor(a' - 16 * a, b' - 16 * b)
    ensures IsXor(a, b, x) ==> IsXor(a', b', x')
  {
    if IsXor(a, b, x) {
      NextDigit(a, b, x, a' - 16 * a, b' - 16 * b);
    }
  }

  /** One round: what is shifted out is left over, the rest is the word to combine with. */
  lemma Round(z: nat, k: nat, p: nat, w: nat, rest: nat, x: nat)
    requires p == Pow2(k) && z == p * w + rest && rest < p && IsXor(z, w, x)
    ensures IsXorShift(z, k, x)
  {
    ShrDivides(z, k);
    DivUndone(w, p, rest);
    forall i: nat
      ensures Bit(x, i) == (Bit(z, i) + Bit(z, i + k)) % 2
    {
      ShrAdds(z, k, i);
      assert Position(i);
    }
  }

  lemma Powers(n27: nat, n30: nat, n31: nat)
    requires n27 == 27 && n30 == 30 && n31 == 31
    ensures Pow2(n27) == 0x800_0000 && Pow2(n30) == 0x4000_0000 && Pow2(n31) == 0x8000_0000
  {
    var three, twelve := 3, 12;
    assert Pow2(3) == 8 && Pow2(12) == 0x1000;
    Pow2Adds(twelve, twelve);
    Pow2Adds(24, three);
    Pow2Adds(n27, three);
  }

  // ----- the first draw

  lemma FirstXor30()
    ensures IsXor(0x9E37_79B9_7F4A_7C15, 0x2_78DD_E6E5, 0x9E37_79BB_0797_9AF0)
  {
    XorWithZero(0x9E3_779B, 0);
    Put(0x9E3_779B, 0, 0x9E3_779B,
        0x9E37_79B9, 0x2, 0x9E37_79BB);
    Put(0x9E37_79B9, 0x2, 0x9E37_79BB,
        0x9_E377_9B97, 0x27, 0x9_E377_9BB0);
    Put(0x9_E377_9B97, 0x27, 0x9_E377_9BB0,
        0x9E_3779_B97F, 0x278, 0x9E_3779_BB07);
    Put(0x9E_3779_B97F, 0x278, 0x9E_3779_BB07,
        0x9E3_779B_97F4, 0x278D, 0x9E3_779B_B079);
    Put(0x9E3_779B_97F4, 0x278D, 0x9E3_779B_B079,
        0x9E37_79B9_7F4A, 0x2_78DD, 0x9E37_79BB_0797);
    Put(0x9E37_79B9_7F4A, 0x2_78DD, 0x9E37_79BB_0797,
        0x9_E377_9B97_F4A7, 0x27_8DDE, 0x9_E377_9BB0_7979);
    Put(0x9_E377_9B97_F4A7, 0x27_8DDE, 0x9_E377_9BB0_7979,
        0x9E_3779_B97F_4A7C, 0x278_DDE6, 0x9E_3779_BB07_979A);
    Put(0x9E_3779_B97F_4A7C, 0x278_DDE6, 0x9E_3779_BB07_979A,
        0x9E3_779B_97F4_A7C1, 0x278D_DE6E, 0x9E3_779B_B079_79AF);
    Put(0x9E3_779B_97F4_A7C1, 0x278D_DE6E, 0x9E3_779B_B079_79AF,
        0x9E37_79B9_7F4A_7C15, 0x2_78DD_E6E5, 0x9E37_79BB_0797_9AF0);
  }

  lemma FirstXor27()
    ensures IsXor(0x6F68_261B_57E7_A770, 0xD_ED04_C36A, 0x6F68_2616_BAE3_641A)
  {
    XorWithZero(0x6F6_8261, 0);
    Put(0x6F6_8261, 0, 0x6F6_8261,
        0x6F68_261B, 0xD, 0x6F68_2616);
    Put(0x6F68_261B, 0xD, 0x6F68_2616,
        0x6_F682_61B5, 0xDE, 0x6_F682_616B);
    Put(0x6_F682_61B5, 0xDE, 0x6_F682_616B,
        0x6F_6826_1B57, 0xDED, 0x6F_6826_16BA);
    Put(0x6F_6826_1B57, 0xDED, 0x6F_6826_16BA,
        0x6F6_8261_B57E, 0xDED0, 0x6F6_8261_6BAE);
    Put(0x6F6_8261_B57E, 0xDED0, 0x6F6_8261_6BAE,
        0x6F68_261B_57E7, 0xD_ED04, 0x6F68_2616_BAE3);
    Put(0x6F68_261B_57E7, 0xD_ED04, 0x6F68_2616_BAE3,
        0x6_F682_61B5_7E7A, 0xDE_D04C, 0x6_F682_616B_AE36);
    Put(0x6_F682_61B5_7E7A, 0xDE_D04C, 0x6_F682_616B_AE36,
        0x6F_6826_1B57_E7A7, 0xDED_04C3, 0x6F_6826_16BA_E364);
    Put(0x6F_6826_1B57_E7A7, 0xDED_04C3, 0x6F_6826_16BA_E364,
        0x6F6_8261_B57E_7A77, 0xDED0_4C36, 0x6F6_8261_6BAE_3641);
    Put(0x6F6_8261_B57E_7A77, 0xDED0_4C36, 0x6F6_8261_6BAE_3641,
        0x6F68_261B_57E7_A770, 0xD_ED04_C36A, 0x6F68_2616_BAE3_641A);
  }

  lemma FirstXor31()
    ensures IsXor(0xE220_A838_BF5C_9DDE, 0x1_C441_5071, 0xE220_A839_7B1D_CDAF)
  {
    XorWithZero(0xE22_0A83, 0);
    Put(0xE22_0A83, 0, 0xE22_0A83,
        0xE220_A838, 0x1, 0xE220_A839);
    Put(0xE220_A838, 0x1, 0xE220_A839,
        0xE_220A_838B, 0x1C, 0xE_220A_8397);
    Put(0xE_220A_838B, 0x1C, 0xE_220A_8397,
        0xE2_20A8_38BF, 0x1C4, 0xE2_20A8_397B);
    Put(0xE2_20A8_38BF, 0x1C4, 0xE2_20A8_397B,
        0xE22_0A83_8BF5, 0x1C44, 0xE22_0A83_97B1);
    Put(0xE22_0A83_8BF5, 0x1C44, 0xE22_0A83_97B1,
        0xE220_A838_BF5C, 0x1_C441, 0xE220_A839_7B1D);
    Put(0xE220_A838_BF5C, 0x1_C441, 0xE220_A839_7B1D,
        0xE_220A_838B_F5C9, 0x1C_4415, 0xE_220A_8397_B1DC);
    Put(0xE_220A_838B_F5C9, 0x1C_4415, 0xE_220A_8397_B1DC,
        0xE2_20A8_38BF_5C9D, 0x1C4_4150, 0xE2_20A8_397B_1DCD);
    Put(0xE2_20A8_38BF_5C9D, 0x1C4_4150, 0xE2_20A8_397B_1DCD,
        0xE22_0A83_8BF5_C9DD, 0x1C44_1507, 0xE22_0A83_97B1_DCDA);
    Put(0xE22_0A83_8BF5_C9DD, 0x1C44_1507, 0xE22_0A83_97B1_DCDA,
        0xE220_A838_BF5C_9DDE, 0x1_C441_5071, 0xE220_A839_7B1D_CDAF);
  }

  lemma FirstOutput(seed: nat, k: nat, n27: nat, n30: nat, n31: nat)
    requires seed == 0 && k == 1 && n27 == 27 && n30 == 30 && n31 == 31
    ensures Output(seed, k) == 0xE220_A839_7B1D_CDAF
  {
    var z, a, b := 0x9E37_79B9_7F4A_7C15, 0x9E37_79BB_0797_9AF0, 0x6F68_261B_57E7_A770;
    var c, d, word := 0x6F68_2616_BAE3_641A, 0xE220_A838_BF5C_9DDE, 0xE220_A839_7B1D_CDAF;
    Powers(n27, n30, n31);
    FirstXor30();
    Round(z, n30, 0x4000_0000, 0x2_78DD_E6E5, 0x3F4A_7C15, a);
    FirstXor27();
    Round(b, n27, 0x800_0000, 0xD_ED04_C36A, 0x7E7_A770, c);
    FirstXor31();
    Round(d, n31, 0x8000_0000, 0x1_C441_5071, 0x3F5C_9DDE, word);
    OutputIsOnly(seed, k, a, b, c, d, word);
  }

  // ----- the second draw

  lemma SecondXor30High()
    ensures IsXor(0x3C6E_F372_FE94, 0xF1BB, 0x3C6E_F372_0F2F)
  {
    XorWithZero(0x3C6E_F372, 0);
    Put(0x3C6E_F372, 0, 0x3C6E_F372,
        0x3_C6EF_372F, 0xF, 0x3_C6EF_3720);
    Put(0x3_C6EF_372F, 0xF, 0x3_C6EF_3720,
        0x3C_6EF3_72FE, 0xF1, 0x3C_6EF3_720F);
    Put(0x3C_6EF3_72FE, 0xF1, 0x3C_6EF3_720F,
        0x3C6_EF37_2FE9, 0xF1B, 0x3C6_EF37_20F2);
    Put(0x3C6_EF37_2FE9, 0xF1B, 0x3C6_EF37_20F2,
        0x3C6E_F372_FE94, 0xF1BB, 0x3C6E_F372_0F2F);
  }

  lemma SecondXor30()
    ensures IsXor(0x3C6E_F372_FE94_F82A, 0xF1BB_CDCB, 0x3C6E_F372_0F2F_35E1)
  {
    SecondXor30High();
    Put(0x3C6E_F372_FE94, 0xF1BB, 0x3C6E_F372_0F2F,
        0x3_C6EF_372F_E94F, 0xF_1BBC, 0x3_C6EF_3720_F2F3);
    Put(0x3_C6EF_372F_E94F, 0xF_1BBC, 0x3_C6EF_3720_F2F3,
        0x3C_6EF3_72FE_94F8, 0xF1_BBCD, 0x3C_6EF3_720F_2F35);
    Put(0x3C_6EF3_72FE_94F8, 0xF1_BBCD, 0x3C_6EF3_720F_2F35,
        0x3C6_EF37_2FE9_4F82, 0xF1B_BCDC, 0x3C6_EF37_20F2_F35E);
    Put(0x3C6_EF37_2FE9_4F82, 0xF1B_BCDC, 0x3C6_EF37_20F2_F35E,
        0x3C6E_F372_FE94_F82A, 0xF1BB_CDCB, 0x3C6E_F372_0F2F_35E1);
  }

  lemma SecondXor27High()
    ensures IsXor(0x2A9_4FCB_FCCB, 0x5529, 0x2A9_4FCB_A9E2)
  {
    XorWithZero(0x2A9_4FCB, 0);
    Put(0x2A9_4FCB, 0, 0x2A9_4FCB,
        0x2A94_FCBF, 0x5, 0x2A94_FCBA);
    Put(0x2A94_FCBF, 0x5, 0x2A94_FCBA,
        0x2_A94F_CBFC, 0x55, 0x2_A94F_CBA9);
    Put(0x2_A94F_CBFC, 0x55, 0x2_A94F_CBA9,
        0x2A_94FC_BFCC, 0x552, 0x2A_94FC_BA9E);
    Put(0x2A_94FC_BFCC, 0x552, 0x2A_94FC_BA9E,
        0x2A9_4FCB_FCCB, 0x5529, 0x2A9_4FCB_A9E2);
  }

  lemma SecondXor27()
    ensures IsXor(0x2A94_FCBF_CCB4_3499, 0x5_529F_97F9, 0x2A94_FCBA_9E2B_A360)
  {
    SecondXor27High();
    Put(0x2A9_4FCB_FCCB, 0x5529, 0x2A9_4FCB_A9E2,
        0x2A94_FCBF_CCB4, 0x5_529F, 0x2A94_FCBA_9E2B);
    Put(0x2A94_FCBF_CCB4, 0x5_529F, 0x2A94_FCBA_9E2B,
        0x2_A94F_CBFC_CB43, 0x55_29F9, 0x2_A94F_CBA9_E2BA);
    Put(0x2_A94F_CBFC_CB43, 0x55_29F9, 0x2_A94F_CBA9_E2BA,
        0x2A_94FC_BFCC_B434, 0x552_9F97, 0x2A_94FC_BA9E_2BA3);
    Put(0x2A_94FC_BFCC_B434, 0x552_9F97, 0x2A_94FC_BA9E_2BA3,
        0x2A9_4FCB_FCCB_4349, 0x5529_F97F, 0x2A9_4FCB_A9E2_BA36);
    Put(0x2A9_4FCB_FCCB_4349, 0x5529_F97F, 0x2A9_4FCB_A9E2_BA36,
        0x2A94_FCBF_CCB4_3499, 0x5_529F_97F9, 0x2A94_FCBA_9E2B_A360);
  }

  lemma SecondXor31High()
    ensures IsXor(0x6E78_9E6A_7D48, 0xDCF1, 0x6E78_9E6A_A1B9)
  {
    XorWithZero(0x6E78_9E6A, 0);
    Put(0x6E78_9E6A, 0, 0x6E78_9E6A,
        0x6_E789_E6A7, 0xD, 0x6_E789_E6AA);
    Put(0x6_E789_E6A7, 0xD, 0x6_E789_E6AA,
        0x6E_789E_6A7D, 0xDC, 0x6E_789E_6AA1);
    Put(0x6E_789E_6A7D, 0xDC, 0x6E_789E_6AA1,
        0x6E7_89E6_A7D4, 0xDCF, 0x6E7_89E6_AA1B);
    Put(0x6E7_89E6_A7D4, 0xDCF, 0x6E7_89E6_AA1B,
        0x6E78_9E6A_7D48, 0xDCF1, 0x6E78_9E6A_A1B9);
  }

  lemma SecondXor31()
    ensures IsXor(0x6E78_9E6A_7D48_5920, 0xDCF1_3CD4, 0x6E78_9E6A_A1B9_65F4)
  {
    SecondXor31High();
    Put(0x6E78_9E6A_7D48, 0xDCF1, 0x6E78_9E6A_A1B9,
        0x6_E789_E6A7_D485, 0xD_CF13, 0x6_E789_E6AA_1B96);
    Put(0x6_E789_E6A7_D485, 0xD_CF13, 0x6_E789_E6AA_1B96,
        0x6E_789E_6A7D_4859, 0xDC_F13C, 0x6E_789E_6AA1_B965);
    Put(0x6E_789E_6A7D_4859, 0xDC_F13C, 0x6E_789E_6AA1_B965,
        0x6E7_89E6_A7D4_8592, 0xDCF_13CD, 0x6E7_89E6_AA1B_965F);
    Put(0x6E7_89E6_A7D4_8592, 0xDCF_13CD, 0x6E7_89E6_AA1B_965F,
        0x6E78_9E6A_7D48_5920, 0xDCF1_3CD4, 0x6E78_9E6A_A1B9_65F4);
  }

  lemma SecondOutput(seed: nat, k: nat, n27: nat, n30: nat, n31: nat)
    requires seed == 0 && k == 2 && n27 == 27 && n30 == 30 && n31 == 31
    ensures Output(seed, k) == 0x6E78_9E6A_A1B9_65F4
  {
    var z, a, b := 0x3C6E_F372_FE94_F82A, 0x3C6E_F372_0F2F_35E1, 0x2A94_FCBF_CCB4_3499;
    var c, d, word := 0x2A94_FCBA_9E2B_A360, 0x6E78_9E6A_7D48_5920, 0x6E78_9E6A_A1B9_65F4;
    Powers(n27, n30, n31);
    SecondXor30();
    Round(z, n30, 0x4000_0000, 0xF1BB_CDCB, 0x3E94_F82A, a);
    SecondXor27();
    Round(b, n27, 0x800_0000, 0x5_529F_97F9, 0x4B4_3499, c);
    SecondXor31();
    Round(d, n31, 0x8000_0000, 0xDCF1_3CD4, 0x7D48_5920, word);
    OutputIsOnly(seed, k, a, b, c, d, word);
  }

  // ----- the third draw

  lemma ThirdXor30High()
    ensures IsXor(0xDAA_66D2_C7DD, 0x36A9, 0xDAA_66D2_F174)
  {
    XorWithZero(0xDAA_66D2, 0);
    Put(0xDAA_66D2, 0, 0xDAA_66D2,
        0xDAA6_6D2C, 0x3, 0xDAA6_6D2F);
    Put(0xDAA6_6D2C, 0x3, 0xDAA6_6D2F,
        0xD_AA66_D2C7, 0x36, 0xD_AA66_D2F1);
    Put(0xD_AA66_D2C7, 0x36, 0xD_AA66_D2F1,
        0xDA_A66D_2C7D, 0x36A, 0xDA_A66D_2F17);
    Put(0xDA_A66D_2C7D, 0x36A, 0xDA_A66D_2F17,
        0xDAA_66D2_C7DD, 0x36A9, 0xDAA_66D2_F174);
  }

  lemma ThirdXor30()
    ensures IsXor(0xDAA6_6D2C_7DDF_743F, 0x3_6A99_B4B1, 0xDAA6_6D2F_1746_C08E)
  {
    ThirdXor30High();
    Put(0xDAA_66D2_C7DD, 0x36A9, 0xDAA_66D2_F174,
        0xDAA6_6D2C_7DDF, 0x3_6A99, 0xDAA6_6D2F_1746);
    Put(0xDAA6_6D2C_7DDF, 0x3_6A99, 0xDAA6_6D2F_1746,
        0xD_AA66_D2C7_DDF7, 0x36_A99B, 0xD_AA66_D2F1_746C);
    Put(0xD_AA66_D2C7_DDF7, 0x36_A99B, 0xD_AA66_D2F1_746C,
        0xDA_A66D_2C7D_DF74, 0x36A_99B4, 0xDA_A66D_2F17_46C0);
    Put(0xDA_A66D_2C7D_DF74, 0x36A_99B4, 0xDA_A66D_2F17_46C0,
        0xDAA_66D2_C7DD_F743, 0x36A9_9B4B, 0xDAA_66D2_F174_6C08);
    Put(0xDAA_66D2_C7DD_F743, 0x36A9_9B4B, 0xDAA_66D2_F174_6C08,
        0xDAA6_6D2C_7DDF_743F, 0x3_6A99_B4B1, 0xDAA6_6D2F_1746_C08E);
  }

  lemma ThirdXor27High()
    ensures IsXor(0xF1C_3DD6_322D, 0x1_E387, 0xF1C_3DD7_D1AA)
  {
    XorWithZero(0xF1_C3DD, 0);
    Put(0xF1_C3DD, 0, 0xF1_C3DD,
        0xF1C_3DD6, 0x1, 0xF1C_3DD7);
    Put(0xF1C_3DD6, 0x1, 0xF1C_3DD7,
        0xF1C3_DD63, 0x1E, 0xF1C3_DD7D);
    Put(0xF1C3_DD63, 0x1E, 0xF1C3_DD7D,
        0xF_1C3D_D632, 0x1E3, 0xF_1C3D_D7D1);
    Put(0xF_1C3D_D632, 0x1E3, 0xF_1C3D_D7D1,
        0xF1_C3DD_6322, 0x1E38, 0xF1_C3DD_7D1A);
    Put(0xF1_C3DD_6322, 0x1E38, 0xF1_C3DD_7D1A,
        0xF1C_3DD6_322D, 0x1_E387, 0xF1C_3DD7_D1AA);
  }

  lemma ThirdXor27()
    ensures IsXor(0xF1C3_DD63_22D8_2C9E, 0x1E_387B_AC64, 0xF1C3_DD7D_1AA3_80FA)
  {
    ThirdXor27High();
    Put(0xF1C_3DD6_322D, 0x1_E387, 0xF1C_3DD7_D1AA,
        0xF1C3_DD63_22D8, 0x1E_387B, 0xF1C3_DD7D_1AA3);
    Put(0xF1C3_DD63_22D8, 0x1E_387B, 0xF1C3_DD7D_1AA3,
        0xF_1C3D_D632_2D82, 0x1E3_87BA, 0xF_1C3D_D7D1_AA38);
    Put(0xF_1C3D_D632_2D82, 0x1E3_87BA, 0xF_1C3D_D7D1_AA38,
        0xF1_C3DD_6322_D82C, 0x1E38_7BAC, 0xF1_C3DD_7D1A_A380);
    Put(0xF1_C3DD_6322_D82C, 0x1E38_7BAC, 0xF1_C3DD_7D1A_A380,
        0xF1C_3DD6_322D_82C9, 0x1_E387_BAC6, 0xF1C_3DD7_D1AA_380F);
    Put(0xF1C_3DD6_322D_82C9, 0x1_E387_BAC6, 0xF1C_3DD7_D1AA_380F,
        0xF1C3_DD63_22D8_2C9E, 0x1E_387B_AC64, 0xF1C3_DD7D_1AA3_80FA);
  }

  lemma ThirdXor31High()
    ensures IsXor(0x6C4_5D18_8D81, 0xD88, 0x6C4_5D18_8009)
  {
    XorWithZero(0x6C45_D188, 0);
    Put(0x6C45_D188, 0, 0x6C45_D188,
        0x6_C45D_188D, 0xD, 0x6_C45D_1880);
    Put(0x6_C45D_188D, 0xD, 0x6_C45D_1880,
        0x6C_45D1_88D8, 0xD8, 0x6C_45D1_8800);
    Put(0x6C_45D1_88D8, 0xD8, 0x6C_45D1_8800,
        0x6C4_5D18_8D81, 0xD88, 0x6C4_5D18_8009);
  }

  lemma ThirdXor31()
    ensures IsXor(0x6C4_5D18_8D81_FF7E, 0xD88_BA31, 0x6C4_5D18_8009_454F)
  {
    ThirdXor31High();
    Put(0x6C4_5D18_8D81, 0xD88, 0x6C4_5D18_8009,
        0x6C45_D188_D81F, 0xD88B, 0x6C45_D188_0094);
    Put(0x6C45_D188_D81F, 0xD88B, 0x6C45_D188_0094,
        0x6_C45D_188D_81FF, 0xD_88BA, 0x6_C45D_1880_0945);
    Put(0x6_C45D_188D_81FF, 0xD_88BA, 0x6_C45D_1880_0945,
        0x6C_45D1_88D8_1FF7, 0xD8_8BA3, 0x6C_45D1_8800_9454);
    Put(0x6C_45D1_88D8_1FF7, 0xD8_8BA3, 0x6C_45D1_8800_9454,
        0x6C4_5D18_8D81_FF7E, 0xD88_BA31, 0x6C4_5D18_8009_454F);
  }

  lemma ThirdOutput(seed: nat, k: nat, n27: nat, n30: nat, n31: nat)
    requires seed == 0 && k == 3 && n27 == 27 && n30 == 30 && n31 == 31
    ensures Output(seed, k) == 0x6C4_5D18_8009_454F
  {
    var z, a, b := 0xDAA6_6D2C_7DDF_743F, 0xDAA6_6D2F_1746_C08E, 0xF1C3_DD63_22D8_2C9E;
    var c, d, word := 0xF1C3_DD7D_1AA3_80FA, 0x6C4_5D18_8D81_FF7E, 0x6C4_5D18_8009_454F;
    Powers(n27, n30, n31);
    ThirdXor30();
    Round(z, n30, 0x4000_0000, 0x3_6A99_B4B1, 0x3DDF_743F, a);
    ThirdXor27();
    Round(b, n27, 0x800_0000, 0x1E_387B_AC64, 0x2D8_2C9E, c);
    ThirdXor31();
    Round(d, n31, 0x8000_0000, 0xD88_BA31, 0xD81_FF7E, word);
    OutputIsOnly(seed, k, a, b, c, d, word);
  }
}
