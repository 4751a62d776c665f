/**
 The exact McNemar test. Probabilities are exact: a term exp(log_binomial + log_half_n) of the
 source is n! / (i! (n - i)!) / 2^n here. The reference is the experiment itself: every way the n
 discordant pairs could have fallen, each as likely as any other.
 */
module McNemar {
  import opened Counting
  import opened Options

  function Factorial(n: nat): (r: nat)
    ensures r >= 1
  {
    if n == 0 then 1 else n * Factorial(n - 1)
  }

  function Choose(n: nat, i: nat): nat {
    if i == 0 then 1 else if n == 0 then 0 else Choose(n - 1, i - 1) + Choose(n - 1, i)
  }

  /** The number of ways at most k of n pairs fall on one side. */
  function Tail(n: nat, k: nat): nat {
    Choose(n, k) + if k == 0 then 0 else Tail(n, k - 1)
  }

  // ----- binomials

  lemma {:induction false} ChooseBeyond(n: nat, i: nat)
    requires i > n
    ensures Choose(n, i) == 0
  {
    if n > 0 {
      ChooseBeyond(n - 1, i - 1);
      ChooseBeyond(n - 1, i);
    }
  }

  lemma {:induction false} ChooseAll(n: nat)
    ensures Choose(n, n) == 1
  {
    if n > 0 {
      ChooseAll(n - 1);
      ChooseBeyond(n - 1, n);
    }
  }

  lemma {:induction false} ChoosePositive(n: nat, i: nat)
    requires i <= n
    ensures Choose(n, i) >= 1
  {
    if 0 < i {
      ChoosePositive(n - 1, i - 1);
    }
  }

  lemma {:induction false} ChooseSymmetric(n: nat, i: nat)
    requires i <= n
    ensures Choose(n, i) == Choose(n, n - i)
  {
    if i == 0 || i == n {
      ChooseAll(n);
    } else {
      ChooseSymmetric(n - 1, i - 1);
      ChooseSymmetric(n - 1, i);
    }
  }

  /** The quotient of factorials the source computes in logarithms is the binomial coefficient. */
  lemma {:induction false} ChooseIsQuotient(n: nat, i: nat)
    requires i <= n
    ensures Choose(n, i) * (Factorial(i) * Factorial(n - i)) == Factorial(n)
  {
    if i == 0 {
    } else if i == n {
      ChooseAll(n);
    } else {
      ChooseIsQuotient(n - 1, i - 1);
      ChooseIsQuotient(n - 1, i);
      PascalStep(
        Choose(n - 1, i - 1), Choose(n - 1, i), Factorial(i - 1), Factorial(n - i - 1), Factorial(n - 1), i, n - i);
    }
  }

  lemma PascalStep(a: int, b: int, f: int, g: int, h: int, i: int, j: int)
    requires a * (f * (j * g)) == h && b * ((i * f) * g) == h
    ensures (a + b) * ((i * f) * (j * g)) == (i + j) * h
  {
    var x, y := f * (j * g), (i * f) * g;
    var d := (i * f) * (j * g);
    assert d == i * x;
    assert d == j * y by { Swap(i * f, j, g); }
    assert a * d == i * (a * x) by { Swap(a, i, x); }
    assert b * d == j * (b * y) by { Swap(b, j, y); }
    assert (a + b) * d == a * d + b * d;
    assert (i + j) * h == i * h + j * h;
  }

  lemma Swap(a: int, b: int, c: int)
    ensures a * (b * c) == b * (a * c)
  {
  }

  // ----- the experiment

  function Prepend(side: bool, s: set<seq<bool>>): set<seq<bool>> {
    set flips | flips in s :: [side] + flips
  }

  /** Every way n discordant pairs can fall: true is a win of the baseline. */
  function Flips(n: nat): set<seq<bool>> {
    if n == 0 then {[]} else Prepend(true, Flips(n - 1)) + Prepend(false, Flips(n - 1))
  }

  function Wins(flips: seq<bool>): nat {
    if flips == [] then 0 else (if flips[0] then 1 else 0) + Wins(flips[1..])
  }

  function WithWins(n: nat, i: int): set<seq<bool>> {
    set flips | flips in Flips(n) && Wins(flips) == i
  }

  /** The outcomes at least as lopsided as one where the weaker arm won k pairs. */
  function Extreme(n: nat, k: nat): set<seq<bool>> {
    set flips | flips in Flips(n) && (Wins(flips) <= k || n - Wins(flips) <= k)
  }

  lemma {:induction false} PrependSize(side: bool, s: set<seq<bool>>)
    ensures |Prepend(side, s)| == |s|
  {
    if s != {} {
      var x :| x in s;
      PrependSize(side, s - {x});
      assert Prepend(side, s) == Prepend(side, s - {x}) + {[side] + x};
      assert [side] + x !in Prepend(side, s - {x}) by {
        forall y | y in s - {x}
          ensures [side] + y != [side] + x
        {
          assert ([side] + y)[1..] == y && ([side] + x)[1..] == x;
        }
      }
    } else {
      assert Prepend(side, s) == {};
    }
  }

  lemma PrependWins(side: bool, flips: seq<bool>)
    ensures Wins([side] + flips) == (if side then 1 else 0) + Wins(flips)
  {
    assert ([side] + flips)[1..] == flips;
  }

  lemma PrependsDisjoint(s: set<seq<bool>>, t: set<seq<bool>>)
    ensures Prepend(true, s) !! Prepend(false, t)
  {
    forall x | x in Prepend(true, s)
      ensures x !in Prepend(false, t)
    {
      assert x[0];
    }
  }

  lemma {:induction false} FlipsSize(n: nat)
    ensures |Flips(n)| == Pow2(n)
  {
    if n > 0 {
      FlipsSize(n - 1);
      PrependSize(true, Flips(n - 1));
      PrependSize(false, Flips(n - 1));
      PrependsDisjoint(Flips(n - 1), Flips(n - 1));
    }
  }

  lemma {:induction false} WinsBounded(n: nat, flips: seq<bool>)
    requires flips in Flips(n)
    ensures Wins(flips) <= n
  {
    if n > 0 {
      assert |flips| > 0 && flips[1..] in Flips(n - 1);
      WinsBounded(n - 1, flips[1..]);
    }
  }

  lemma WithWinsSplits(n: nat, i: int)
    requires n > 0
    ensures WithWins(n, i) == Prepend(true, WithWins(n - 1, i - 1)) + Prepend(false, WithWins(n - 1, i))
  {
    forall flips | flips in WithWins(n, i)
      ensures flips in Prepend(true, WithWins(n - 1, i - 1)) + Prepend(false, WithWins(n - 1, i))
    {
      var rest := flips[1..];
      assert flips == [flips[0]] + rest;
      PrependWins(flips[0], rest);
      assert rest in WithWins(n - 1, if flips[0] then i - 1 else i);
    }
    forall side, rest | rest in WithWins(n - 1, if side then i - 1 else i)
      ensures [side] + rest in WithWins(n, i)
    {
      PrependWins(side, rest);
    }
  }

  lemma WithWinsRecurs(n: nat, i: int)
    requires n > 0
    ensures |WithWins(n, i)| == |WithWins(n - 1, i - 1)| + |WithWins(n - 1, i)|
  {
    WithWinsSplits(n, i);
    PrependSize(true, WithWins(n - 1, i - 1));
    PrependSize(false, WithWins(n - 1, i));
    PrependsDisjoint(WithWins(n - 1, i - 1), WithWins(n - 1, i));
  }

  lemma WithWinsOfNone(i: nat)
    ensures |WithWins(0, i)| == Choose(0, i)
  {
    assert Wins([]) == 0;
    if i == 0 {
      assert WithWins(0, i) == {[]};
    } else {
      assert WithWins(0, i) == {};
    }
  }

  /** The binomial coefficient counts outcomes. */
  lemma {:induction false} WithWinsSize(n: nat, i: nat)
    ensures |WithWins(n, i)| == Choose(n, i)
  {
    if n == 0 {
      WithWinsOfNone(i);
    } else {
      WithWinsRecurs(n, i);
      WithWinsSize(n - 1, i);
      if i == 0 {
        NoNegativeWins(n - 1);
      } else {
        WithWinsSize(n - 1, i - 1);
      }
    }
  }

  lemma NoNegativeWins(n: nat)
    ensures |WithWins(n, -1)| == 0 && Choose(n, 0) == 1
  {
    assert WithWins(n, -1) == {};
  }

  function Few(n: nat, k: nat): set<seq<bool>> {
    set flips | flips in Flips(n) && Wins(flips) <= k
  }

  function Many(n: nat, k: nat): set<seq<bool>> {
    set flips | flips in Flips(n) && n - Wins(flips) <= k
  }

  lemma {:induction false} FewSize(n: nat, k: nat)
    ensures |Few(n, k)| == Tail(n, k)
  {
    WithWinsSize(n, k);
    if k == 0 {
      assert Few(n, 0) == WithWins(n, 0);
    } else {
      FewSize(n, k - 1);
      assert Few(n, k) == Few(n, k - 1) + WithWins(n, k);
      assert Few(n, k - 1) !! WithWins(n, k);
    }
  }

  lemma ManyGrows(n: nat, k: nat)
    requires 0 < k <= n
    ensures |Many(n, k)| == |Many(n, k - 1)| + |WithWins(n, n - k)|
  {
    assert Many(n, k) == Many(n, k - 1) + WithWins(n, n - k);
    assert Many(n, k - 1) !! WithWins(n, n - k);
  }

  lemma ManyOfNone(n: nat)
    ensures Many(n, 0) == WithWins(n, n)
  {
    forall flips | flips in Flips(n)
      ensures Wins(flips) <= n
    {
      WinsBounded(n, flips);
    }
  }

  lemma {:induction false} ManySize(n: nat, k: nat)
    requires k <= n
    ensures |Many(n, k)| == Tail(n, k)
  {
    WithWinsSize(n, n - k);
    ChooseSymmetric(n, k);
    if k == 0 {
      ManyOfNone(n);
    } else {
      ManySize(n, k - 1);
      ManyGrows(n, k);
    }
  }

  /** Doubling one tail and capping at all outcomes counts the extreme ones exactly. */
  lemma ExtremeSize(n: nat, k: nat)
    requires 2 * k <= n
    ensures |Extreme(n, k)| == if 2 * Tail(n, k) <= Pow2(n) then 2 * Tail(n, k) else Pow2(n)
    ensures |Extreme(n, k)| <= Pow2(n)
  {
    FewSize(n, k);
    ManySize(n, k);
    FlipsSize(n);
    assert Extreme(n, k) == Few(n, k) + Many(n, k);
    SubsetSize(Extreme(n, k), Flips(n));
    if 2 * k < n {
      assert Few(n, k) !! Many(n, k);
    } else {
      assert Extreme(n, k) == Flips(n);
      assert |Few(n, k) + Many(n, k)| <= |Few(n, k)| + |Many(n, k)|;
    }
  }

  // ----- the test

  function Min(a: nat, b: nat): nat { if a <= b then a else b }

  /** The chance of an outcome at least as lopsided as the one observed. */
  function PValue(baselineOnly: nat, candidateOnly: nat): real {
    var n := baselineOnly + candidateOnly;
    |Extreme(n, Min(baselineOnly, candidateOnly))| as real / Pow2(n) as real
  }

  method McNemarExact(baselineOnly: nat, candidateOnly: nat) returns (p: Option<real>)
    ensures p.None? <==> baselineOnly + candidateOnly == 0
    ensures p.Some? ==> p.value == PValue(baselineOnly, candidateOnly)
  {
    var n := baselineOnly + candidateOnly;
    if n == 0 {
      return None;
    }
    var k := Min(baselineOnly, candidateOnly);
    var tail := 0.0;
    for i := 0 to k + 1
      invariant tail == (if i == 0 then 0 else Tail(n, i - 1)) as real / Pow2(n) as real
    {
      TermIsProbability(n, i);
      AddFractions(if i == 0 then 0 else Tail(n, i - 1), Choose(n, i), Pow2(n));
      tail := tail + Factorial(n) as real / (Factorial(i) * Factorial(n - i)) as real / Pow2(n) as real;
    }
    ExtremeSize(n, k);
    CapFraction(Tail(n, k), Pow2(n));
    p := Some(if 2.0 * tail < 1.0 then 2.0 * tail else 1.0);
  }

  lemma TermIsProbability(n: nat, i: nat)
    requires i <= n
    ensures Factorial(i) * Factorial(n - i) >= 1
    ensures Factorial(n) as real / (Factorial(i) * Factorial(n - i)) as real == Choose(n, i) as real
  {
    ChooseIsQuotient(n, i);
    Product(Factorial(i), Factorial(n - i));
    Quotient(Choose(n, i), Factorial(i) * Factorial(n - i), Factorial(n));
  }

  lemma Product(x: nat, y: nat)
    requires x >= 1 && y >= 1
    ensures x * y >= 1
  {
  }

  lemma Quotient(c: nat, d: nat, m: nat)
    requires d >= 1 && c * d == m
    ensures m as real / d as real == c as real
  {
    var x, y := c as real, d as real;
    assert x * y == m as real;
  }

  lemma AddFractions(a: nat, b: nat, d: nat)
    requires d >= 1
    ensures a as real / d as real + b as real / d as real == (a + b) as real / d as real
  {
  }

  lemma CapFraction(t: nat, d: nat)
    requires d >= 1
    ensures 2.0 * (t as real / d as real) == (2 * t) as real / d as real
    ensures 2.0 * (t as real / d as real) < 1.0 <==> 2 * t < d
    ensures d as real / d as real == 1.0
  {
    DoubleFraction(t as real, d as real);
  }

  lemma DoubleFraction(t: real, d: real)
    requires d >= 1.0
    ensures 2.0 * (t / d) == (2.0 * t) / d && d / d == 1.0
    ensures 2.0 * (t / d) < 1.0 <==> 2.0 * t < d
  {
    var x := t / d;
    assert x * d == t;
    if 2.0 * x < 1.0 {
      assert (1.0 - 2.0 * x) * d > 0.0;
    } else {
      assert (2.0 * x - 1.0) * d >= 0.0;
    }
  }

  lemma PValueSymmetric(a: nat, b: nat)
    ensures PValue(a, b) == PValue(b, a)
  {
    assert a + b == b + a;
  }

  lemma ExtremeIsAllIffBalanced(n: nat, k: nat)
    requires 2 * k <= n
    ensures 1 <= |Extreme(n, k)| <= Pow2(n)
    ensures |Extreme(n, k)| == Pow2(n) <==> n - 2 * k <= 1
  {
    ExtremeSize(n, k);
    FlipsSize(n);
    if n - 2 * k <= 1 {
      forall flips | flips in Flips(n)
        ensures flips in Extreme(n, k)
      {
        WinsBounded(n, flips);
      }
      assert Extreme(n, k) == Flips(n);
    } else {
      UnbalancedLeavesSome(n, k);
    }
    TailPositive(n, k);
  }

  lemma UnbalancedLeavesSome(n: nat, k: nat)
    requires n - 2 * k > 1
    ensures |Extreme(n, k)| < |Flips(n)|
  {
    WithWinsSize(n, k + 1);
    ChoosePositive(n, k + 1);
    assert WithWins(n, k + 1) != {};
    var between :| between in WithWins(n, k + 1);
    assert between in Flips(n) && between !in Extreme(n, k);
    SubsetSize(Extreme(n, k), Flips(n));
  }

  lemma TailPositive(n: nat, k: nat)
    requires k <= n
    ensures Tail(n, k) >= 1
  {
    ChoosePositive(n, k);
  }

  /** The p-value is a probability, and is 1 exactly when the discordant counts differ by at most one. */
  lemma PValueRange(a: nat, b: nat)
    ensures 0.0 < PValue(a, b) <= 1.0
    ensures PValue(a, b) == 1.0 <==> -1 <= a - b <= 1
  {
    ExtremeIsAllIffBalanced(a + b, Min(a, b));
    Ratio(|Extreme(a + b, Min(a, b))|, Pow2(a + b));
  }

  lemma Ratio(x: nat, d: nat)
    requires 1 <= x <= d
    ensures 0.0 < x as real / d as real <= 1.0
    ensures x as real / d as real == 1.0 <==> x == d
  {
    var y := d as real;
    var r := x as real / y;
    assert r * y == x as real;
  }
}
