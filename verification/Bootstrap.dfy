/**
 The bootstrap interval for the ratio of costs per pass. Costs and ratios are exact; the draws are those of
 the seeded generator, one after the other, none skipped and none used twice.
 */
module Bootstrap {
  import opened Options
  import opened Counting
  import opened Sequences
  import opened Sorting
  import opened SplitMix
  import opened Sampling
  import opened PairedComparison

  // ----- the ratio

  /** What one arm spent and how often it passed; one unknown cost makes the sum unknown. */
  datatype Arm = Arm(cost: Option<real>, passes: nat)

  function Join(arm: Arm, trial: Trial): Arm {
    Arm(if arm.cost.Some? && trial.cost.Some? then Some(arm.cost.value + trial.cost.value) else None,
        arm.passes + if trial.passed then 1 else 0)
  }

  function Sum(trials: seq<Trial>): Arm {
    if trials == [] then Arm(Some(0.0), 0) else Join(Sum(trials[..|trials| - 1]), trials[|trials| - 1])
  }

  lemma {:induction false} CostKnownIff(trials: seq<Trial>)
    ensures Sum(trials).cost.Some? <==> forall i | 0 <= i < |trials| :: trials[i].cost.Some?
    ensures Sum(trials).passes > 0 <==> exists i :: 0 <= i < |trials| && trials[i].passed
  {
    if trials != [] {
      CostKnownIff(trials[..|trials| - 1]);
    }
  }

  // ----- sums do not depend on the order of the trials

  function Plus(a: Arm, b: Arm): Arm {
    Arm(if a.cost.Some? && b.cost.Some? then Some(a.cost.value + b.cost.value) else None, a.passes + b.passes)
  }

  /** One trial's sum is its own cost and verdict; together with SumAdds this fixes every sum. */
  lemma SumOfOne(t: Trial)
    ensures Sum([t]).cost == t.cost && Sum([t]).passes == if t.passed then 1 else 0
  {
    assert [t][..0] == [];
  }

  lemma {:induction false} SumPasses(trials: seq<Trial>)
    ensures Sum(trials).passes == Passes(trials)
  {
    if trials != [] {
      SumPasses(trials[..|trials| - 1]);
    }
  }

  lemma SumAppends(a: seq<Trial>, t: Trial)
    ensures Sum(a + [t]) == Join(Sum(a), t)
  {
    assert (a + [t])[..|a|] == a;
  }

  lemma JoinPlus(x: Arm, y: Arm, t: Trial)
    ensures Join(Plus(x, y), t) == Plus(x, Join(y, t))
  {
  }

  lemma SumAddsOne(a: seq<Trial>, b: seq<Trial>, t: Trial)
    requires Sum(a + b) == Plus(Sum(a), Sum(b))
    ensures Sum(a + (b + [t])) == Plus(Sum(a), Sum(b + [t]))
  {
    SumAppends(b, t);
    SumAppends(a + b, t);
    Associate(a, b, [t]);
    JoinPlus(Sum(a), Sum(b), t);
  }

  lemma {:induction false} SumAdds(a: seq<Trial>, b: seq<Trial>)
    ensures Sum(a + b) == Plus(Sum(a), Sum(b))
  {
    if b == [] {
      assert a + b == a;
    } else {
      var init, last := b[..|b| - 1], b[|b| - 1];
      assert Sum(a + (init + [last])) == Plus(Sum(a), Sum(init + [last])) by {
        SumAdds(a, init);
        SumAddsOne(a, init, last);
      }
      assert b == init + [last];
    }
  }

  lemma SumAround(before: seq<Trial>, t: Trial, after: seq<Trial>)
    ensures Sum(before + [t] + after) == Join(Sum(before + after), t)
  {
    SumAdds(before + [t], after);
    SumAppends(before, t);
    SumAdds(before, after);
  }

  lemma {:induction false} SumOfPermutation(a: seq<Trial>, b: seq<Trial>)
    requires multiset(a) == multiset(b)
    ensures Sum(a) == Sum(b)
  {
    if a == [] {
      assert |multiset(b)| == |b|;
    } else {
      var init, last := a[..|a| - 1], a[|a| - 1];
      assert a == init + [last];
      assert last in multiset(b);
      var i :| 0 <= i < |b| && b[i] == last;
      DropOne(b, i);
      assert multiset(init) == multiset(a) - multiset{last};
      SumOfPermutation(init, b[..i] + b[i + 1..]);
      SplitAt(b, i);
      SumAround(b[..i], b[i], b[i + 1..]);
    }
  }

  /** Both arms passed something at a known cost, and the baseline's is positive. */
  predicate HasRatio(baseline: Arm, candidate: Arm) {
    && baseline.passes > 0 && candidate.passes > 0
    && baseline.cost.Some? && candidate.cost.Some?
    && baseline.cost.value > 0.0
  }

  function PerPass(arm: Arm): real
    requires arm.cost.Some? && arm.passes > 0
  {
    arm.cost.value / arm.passes as real
  }

  lemma PerPassPositive(arm: Arm)
    requires arm.cost.Some? && arm.passes > 0
    ensures PerPass(arm) > 0.0 <==> arm.cost.value > 0.0
  {
    SignOfProduct(PerPass(arm), arm.passes as real);
  }

  function ArmRatio(baseline: Arm, candidate: Arm): real
    requires HasRatio(baseline, candidate)
  {
    PerPassPositive(baseline);
    PerPass(candidate) / PerPass(baseline)
  }

  function Ratio(pairs: seq<TrialPair>): Option<real> {
    var baseline, candidate := Sum(Baselines(pairs)), Sum(Candidates(pairs));
    if HasRatio(baseline, candidate) then Some(ArmRatio(baseline, candidate)) else None
  }

  method CostPerPassRatio(pairs: seq<TrialPair>) returns (ratio: Option<real>)
    ensures ratio == Ratio(pairs)
  {
    var baselineCost, baselinePasses := Some(0.0), 0;
    var candidateCost, candidatePasses := Some(0.0), 0;
    for i := 0 to |pairs|
      invariant Arm(baselineCost, baselinePasses) == Sum(Baselines(pairs[..i]))
      invariant Arm(candidateCost, candidatePasses) == Sum(Candidates(pairs[..i]))
    {
      SumsGrow(pairs, i);
      var baseline, candidate := pairs[i].baseline, pairs[i].candidate;
      baselineCost :=
        if baselineCost.Some? && baseline.cost.Some? then Some(baselineCost.value + baseline.cost.value) else None;
      candidateCost :=
        if candidateCost.Some? && candidate.cost.Some? then Some(candidateCost.value + candidate.cost.value) else None;
      baselinePasses := baselinePasses + if baseline.passed then 1 else 0;
      candidatePasses := candidatePasses + if candidate.passed then 1 else 0;
    }
    assert pairs[..|pairs|] == pairs;
    ratio := RatioOf(Arm(baselineCost, baselinePasses), Arm(candidateCost, candidatePasses));
  }

  method RatioOf(baseline: Arm, candidate: Arm) returns (ratio: Option<real>)
    ensures ratio.Some? <==> HasRatio(baseline, candidate)
    ensures ratio.Some? ==> ratio.value == ArmRatio(baseline, candidate)
    ensures ratio.Some? ==>
              ratio.value * baseline.cost.value * candidate.passes as real ==
              candidate.cost.value * baseline.passes as real
  {
    if baseline.passes == 0 || candidate.passes == 0 || baseline.cost.None? || candidate.cost.None? {
      return None;
    }
    PerPassPositive(baseline);
    if PerPass(baseline) <= 0.0 {
      return None;
    }
    ratio := Some(PerPass(candidate) / PerPass(baseline));
    RatioBalances(baseline, candidate);
  }

  /** The ratio, without division: its cost for a pass of the baseline is what the candidate pays for one. */
  lemma RatioBalances(baseline: Arm, candidate: Arm)
    requires HasRatio(baseline, candidate)
    ensures ArmRatio(baseline, candidate) * baseline.cost.value * candidate.passes as real ==
            candidate.cost.value * baseline.passes as real
  {
    var b, m, c, n := baseline.cost.value, baseline.passes as real, candidate.cost.value, candidate.passes as real;
    PerPassPositive(baseline);
    CrossMultiply(b / m, b, m, c / n, c, n, (c / n) / (b / m));
  }

  lemma CrossMultiply(x: real, b: real, m: real, y: real, c: real, n: real, q: real)
    requires x * m == b && y * n == c && q * x == y
    ensures q * b * n == c * m
  {
    calc {
      q * b * n;
      { assert q * (x * m) == (q * x) * m; }
      y * m * n;
      { assert y * m * n == (y * n) * m; }
      c * m;
    }
  }

  /** When there is a ratio at all, said of the trials themselves. */
  lemma RatioExistsIff(pairs: seq<TrialPair>)
    ensures Ratio(pairs).Some? <==>
              && (exists i :: 0 <= i < |pairs| && pairs[i].baseline.passed)
              && (exists i :: 0 <= i < |pairs| && pairs[i].candidate.passed)
              && (forall i | 0 <= i < |pairs| :: pairs[i].baseline.cost.Some? && pairs[i].candidate.cost.Some?)
              && Sum(Baselines(pairs)).cost.Some? && Sum(Baselines(pairs)).cost.value > 0.0
  {
    var left, right := Baselines(pairs), Candidates(pairs);
    CostKnownIff(left);
    CostKnownIff(right);
    assert forall i | 0 <= i < |pairs| :: left[i] == pairs[i].baseline && right[i] == pairs[i].candidate;
    if i :| 0 <= i < |left| && left[i].passed { assert pairs[i].baseline.passed; }
    if i :| 0 <= i < |right| && right[i].passed { assert pairs[i].candidate.passed; }
    if i :| 0 <= i < |pairs| && pairs[i].baseline.passed { assert left[i].passed; }
    if i :| 0 <= i < |pairs| && pairs[i].candidate.passed { assert right[i].passed; }
  }

  lemma SumsGrow(pairs: seq<TrialPair>, i: nat)
    requires i < |pairs|
    ensures Sum(Baselines(pairs[..i + 1])) == Join(Sum(Baselines(pairs[..i])), pairs[i].baseline)
    ensures Sum(Candidates(pairs[..i + 1])) == Join(Sum(Candidates(pairs[..i])), pairs[i].candidate)
  {
    assert Baselines(pairs[..i + 1])[..i] == Baselines(pairs[..i]);
    assert Candidates(pairs[..i + 1])[..i] == Candidates(pairs[..i]);
  }

  lemma SignOfProduct(x: real, m: real)
    requires m > 0.0
    ensures x * m > 0.0 <==> x > 0.0
  {
  }

  lemma Divide(q: real, d: real, n: real)
    requires d > 0.0 && q * d == n
    ensures q == n / d
  {
  }

  /** The ratio of the pairs a comparison makes is the ratio of the two jobs' own costs per pass. */
  lemma RatioOfJobs(baseline: seq<Trial>, candidate: seq<Trial>)
    requires AllOk(baseline, candidate, KeysOf(baseline + candidate))
    ensures var ratio := Ratio(PairsOf(baseline, candidate, KeysOf(baseline + candidate)));
            && (ratio.Some? <==> HasRatio(Sum(baseline), Sum(candidate)))
            && (ratio.Some? ==>
                  ratio.value * Sum(baseline).cost.value * Passes(candidate) as real ==
                  Sum(candidate).cost.value * Passes(baseline) as real)
  {
    var pairs := PairsOf(baseline, candidate, KeysOf(baseline + candidate));
    PairingIsBijection(baseline, candidate);
    SumOfPermutation(Baselines(pairs), baseline);
    SumOfPermutation(Candidates(pairs), candidate);
    SumPasses(baseline);
    SumPasses(candidate);
    if HasRatio(Sum(baseline), Sum(candidate)) {
      RatioBalances(Sum(baseline), Sum(candidate));
    }
  }

  /** Swapping the arms inverts the ratio. */
  lemma RatioInverts(baseline: Arm, candidate: Arm)
    requires HasRatio(baseline, candidate) && HasRatio(candidate, baseline)
    ensures ArmRatio(baseline, candidate) * ArmRatio(candidate, baseline) == 1.0
  {
    PerPassPositive(baseline);
    PerPassPositive(candidate);
    Reciprocal(PerPass(candidate), PerPass(baseline));
  }

  lemma Reciprocal(x: real, y: real)
    requires x > 0.0 && y > 0.0
    ensures (x / y) * (y / x) == 1.0
  {
    var p, q := x / y, y / x;
    assert p * y == x && q * x == y;
    calc {
      (p * q) * x;
      p * (q * x);
      p * y;
      x;
    }
    Divide(p * q, x, x);
    Divide(1.0, x, x);
  }

  // ----- the draws

  /** `to` is the first accepted output after `from`. */
  ghost predicate NextAccepted(seed: nat, bound: nat, from: nat, to: nat)
    requires 1 <= bound <= U64_MAX
  {
    from < to && Output(seed, to) < Zone(bound) && forall k | from < k < to :: Output(seed, k) >= Zone(bound)
  }

  lemma StatesCompose(seed: nat, n: nat, k: nat)
    ensures StateAt(StateAt(seed, n), k) == StateAt(seed, n + k)
    ensures Output(StateAt(seed, n), k) == Output(seed, n + k)
  {
    var a, b := seed + n * INCREMENT, k * INCREMENT;
    assert seed + (n + k) * INCREMENT == a + b;
    var q := a / M;
    assert a == q * M + a % M;
    ModShift(a % M + b, q);
  }

  lemma ModShift(x: nat, q: nat)
    ensures (q * M + x) % M == x % M
  {
  }

  /** There is always a next accepted output. */
  lemma SomeAccepted(seed: nat, bound: nat, from: nat, n: nat) returns (to: nat)
    requires 1 <= bound <= U64_MAX && n <= M - Zone(bound)
    requires forall k | from < k <= from + n :: Output(seed, k) >= Zone(bound)
    ensures NextAccepted(seed, bound, from, to)
    decreases M - Zone(bound) - n
  {
    if Output(seed, from + n + 1) < Zone(bound) {
      to := from + n + 1;
    } else {
      var base := StateAt(seed, from);
      forall k | 1 <= k <= n + 1
        ensures Output(base, k) >= Zone(bound)
      {
        StatesCompose(seed, from, k);
      }
      RejectionsBounded(base, Zone(bound), n + 1);
      to := SomeAccepted(seed, bound, from, n + 1);
    }
  }

  ghost function NextDraw(seed: nat, bound: nat, from: nat): (to: nat)
    requires 1 <= bound <= U64_MAX
    ensures NextAccepted(seed, bound, from, to)
  {
    assert exists to :: NextAccepted(seed, bound, from, to) by {
      var to := SomeAccepted(seed, bound, from, 0);
    }
    var to :| NextAccepted(seed, bound, from, to);
    to
  }

  lemma NextDrawIs(seed: nat, bound: nat, from: nat, to: nat)
    requires 1 <= bound <= U64_MAX && NextAccepted(seed, bound, from, to)
    ensures NextDraw(seed, bound, from) == to
  {
  }

  /** Where the generator stands after `count` indices. */
  ghost function Position(seed: nat, bound: nat, from: nat, count: nat): nat
    requires 1 <= bound <= U64_MAX
  {
    Iterate(DrawAfter(seed, bound), from, count)
  }

  ghost function DrawAfter(seed: nat, bound: nat): nat -> nat
    requires 1 <= bound <= U64_MAX
  {
    (from: nat) => NextDraw(seed, bound, from)
  }

  ghost function Iterate(next: nat -> nat, from: nat, count: nat): nat {
    if count == 0 then from else next(Iterate(next, from, count - 1))
  }

  lemma {:induction false} IterateAdds(next: nat -> nat, from: nat, a: nat, b: nat)
    ensures Iterate(next, Iterate(next, from, a), b) == Iterate(next, from, a + b)
    decreases b
  {
    if b > 0 {
      IterateAdds(next, from, a, b - 1);
    }
  }

  /** The members of one resample. */
  ghost function SampleAt(pairs: seq<TrialPair>, seed: nat, from: nat, count: nat): seq<TrialPair>
    requires 1 <= |pairs| <= U64_MAX
  {
    if count == 0 then []
    else SampleAt(pairs, seed, from, count - 1) +
         [pairs[Reduced(Output(seed, Position(seed, |pairs|, from, count)), |pairs|)]]
  }

  /** Each member is the pair at the remainder of the accepted output at its position. */
  lemma {:induction false} SampleMembers(pairs: seq<TrialPair>, seed: nat, from: nat, count: nat, j: nat)
    requires 1 <= |pairs| <= U64_MAX && j < count
    ensures |SampleAt(pairs, seed, from, count)| == count
    ensures SampleAt(pairs, seed, from, count)[j] == pairs[Output(seed, Position(seed, |pairs|, from, j + 1)) % |pairs|]
  {
    if j < count - 1 {
      SampleMembers(pairs, seed, from, count - 1, j);
    } else if count > 1 {
      SampleMembers(pairs, seed, from, count - 1, 0);
    }
  }

  /** Where the generator stands before the resample with this number. */
  ghost function StartOf(pairs: seq<TrialPair>, seed: nat, resample: nat): nat
    requires 1 <= |pairs| <= U64_MAX
  {
    StartFrom(DrawAfter(seed, |pairs|), |pairs|, resample)
  }

  ghost function StartFrom(next: nat -> nat, n: nat, resample: nat): nat {
    if resample == 0 then 0 else Iterate(next, StartFrom(next, n, resample - 1), n)
  }

  ghost function ResampleAt(pairs: seq<TrialPair>, seed: nat, resample: nat): seq<TrialPair>
    requires 1 <= |pairs| <= U64_MAX
  {
    SampleAt(pairs, seed, StartOf(pairs, seed, resample), |pairs|)
  }

  /** The stream is read from its start, every accepted output once: those in between are the rejected ones. */
  lemma PositionsFollow(seed: nat, bound: nat, count: nat)
    requires 1 <= bound <= U64_MAX
    ensures Position(seed, bound, 0, 0) == 0
    ensures var from, to := Position(seed, bound, 0, count), Position(seed, bound, 0, count + 1);
            && from < to && Output(seed, to) < U64_MAX - U64_MAX % bound
            && forall k | from < k < to :: Output(seed, k) >= U64_MAX - U64_MAX % bound
  {
  }

  /** The indices drawn before a resample: as many for each earlier one as there are pairs. */
  ghost function DrawnBefore(n: nat, resample: nat): nat {
    if resample == 0 then 0 else DrawnBefore(n, resample - 1) + n
  }

  lemma {:induction false} DrawnBeforeIs(n: nat, resample: nat)
    ensures DrawnBefore(n, resample) == resample * n
  {
    if resample > 0 {
      DrawnBeforeIs(n, resample - 1);
    }
  }

  lemma {:induction false} StartFromIs(next: nat -> nat, n: nat, resample: nat)
    ensures StartFrom(next, n, resample) == Iterate(next, 0, DrawnBefore(n, resample))
  {
    if resample > 0 {
      StartFromIs(next, n, resample - 1);
      IterateAdds(next, 0, DrawnBefore(n, resample - 1), n);
    }
  }

  /** All resamples together read one stream: each starts where all those before have drawn their indices. */
  lemma ResamplesFollow(pairs: seq<TrialPair>, seed: nat, resample: nat)
    requires 1 <= |pairs| <= U64_MAX
    ensures StartOf(pairs, seed, resample) == Position(seed, |pairs|, 0, DrawnBefore(|pairs|, resample))
  {
    StartFromIs(DrawAfter(seed, |pairs|), |pairs|, resample);
  }

  /** The ratios of the resamples that have one. */
  ghost function RatiosAt(pairs: seq<TrialPair>, seed: nat, resamples: nat): seq<real>
    requires 1 <= |pairs| <= U64_MAX
  {
    Somes(RatioOfResample(pairs, seed), resamples)
  }

  ghost function RatioOfResample(pairs: seq<TrialPair>, seed: nat): nat -> Option<real>
    requires 1 <= |pairs| <= U64_MAX
  {
    (k: nat) => Ratio(ResampleAt(pairs, seed, k))
  }

  /** The values among the first n. */
  ghost function Somes(f: nat -> Option<real>, n: nat): seq<real> {
    if n == 0 then [] else Somes(f, n - 1) + Listed(f(n - 1))
  }

  function Listed(ratio: Option<real>): seq<real> {
    if ratio.Some? then [ratio.value] else []
  }

  /** They stand in order: `at` lists exactly the places that have a value. */
  lemma {:induction false} SomesAt(f: nat -> Option<real>, n: nat) returns (at: seq<nat>)
    ensures |at| == |Somes(f, n)|
    ensures forall i, j | 0 <= i < j < |at| :: at[i] < at[j]
    ensures forall k :: k in at <==> 0 <= k < n && f(k).Some?
    ensures forall j | 0 <= j < |at| :: f(at[j]) == Some(Somes(f, n)[j])
  {
    if n == 0 {
      at := [];
    } else {
      at := SomesAt(f, n - 1);
      forall j | 0 <= j < |at|
        ensures at[j] < n - 1
      {
        assert at[j] in at;
      }
      if f(n - 1).Some? {
        at := at + [n - 1];
      }
    }
  }

  method Sample(pairs: seq<TrialPair>, rng: SplitMix64, ghost seed: nat, ghost from: nat)
    returns (sample: seq<TrialPair>)
    requires 1 <= |pairs| <= U64_MAX && rng.state == StateAt(seed, from)
    modifies rng
    ensures sample == SampleAt(pairs, seed, from, |pairs|)
    ensures rng.state == StateAt(seed, Position(seed, |pairs|, from, |pairs|))
  {
    sample := [];
    for i := 0 to |pairs|
      invariant sample == SampleAt(pairs, seed, from, i)
      invariant rng.state == StateAt(seed, Position(seed, |pairs|, from, i))
    {
      var index := NextIndex(rng, |pairs|, seed, Position(seed, |pairs|, from, i));
      sample := sample + [pairs[index]];
    }
  }

  /** One index, as the reduction of the next accepted output of the seed's stream. */
  method NextIndex(rng: SplitMix64, bound: nat, ghost seed: nat, ghost from: nat) returns (index: nat)
    requires 1 <= bound <= U64_MAX && rng.state == StateAt(seed, from)
    modifies rng
    ensures rng.state == StateAt(seed, NextDraw(seed, bound, from))
    ensures index == Reduced(Output(seed, NextDraw(seed, bound, from)), bound)
  {
    ghost var rejected;
    index, rejected := rng.Below(bound);
    DrawnNext(seed, bound, from, rejected);
  }

  lemma DrawnNext(seed: nat, bound: nat, from: nat, rejected: nat)
    requires 1 <= bound <= U64_MAX
    requires AllRejected(StateAt(seed, from), Zone(bound), rejected)
    requires Output(StateAt(seed, from), rejected + 1) < Zone(bound)
    ensures NextDraw(seed, bound, from) == from + rejected + 1
    ensures Output(StateAt(seed, from), rejected + 1) == Output(seed, from + rejected + 1)
    ensures StateAt(StateAt(seed, from), rejected + 1) == StateAt(seed, from + rejected + 1)
  {
    StatesCompose(seed, from, rejected + 1);
    forall k | from < k < from + rejected + 1
      ensures Output(seed, k) >= Zone(bound)
    {
      StatesCompose(seed, from, k - from);
    }
    NextDrawIs(seed, bound, from, from + rejected + 1);
  }

  // ----- the interval

  const BY_SIZE := (a: real, b: real) => a <= b

  function Sorted(ratios: seq<real>): (r: seq<real>)
    ensures |r| == |ratios|
  {
    Sort(ratios, BY_SIZE)
  }

  ghost predicate Ascending(s: seq<real>) {
    forall i, j | 0 <= i < j < |s| :: s[i] <= s[j]
  }

  /** Sorting orders the ratios and keeps how many satisfy any property. */
  lemma SortedAscends(ratios: seq<real>, p: real -> bool)
    ensures Ascending(Sorted(ratios)) && CountIf(Sorted(ratios), p) == CountIf(ratios, p)
  {
    SortSorts(ratios, BY_SIZE);
    SortCounts(ratios, BY_SIZE, p);
    forall i, j | 0 <= i < j < |ratios|
      ensures Sorted(ratios)[i] <= Sorted(ratios)[j]
    {
      assert BY_SIZE(Sorted(ratios)[i], Sorted(ratios)[j]);
    }
  }

  /** floor(n * 0.025) and ceil(n * 0.975) - 1, saturating. */
  function LowIndex(n: nat): nat { n / 40 }

  function HighIndex(n: nat): nat { if n == 0 then 0 else (39 * n + 39) / 40 - 1 }

  lemma {:induction false} CountsBelow(s: seq<real>, x: real, k: nat)
    requires Ascending(s) && k <= |s| && (k < |s| ==> x <= s[k])
    ensures CountIf(s, y => y < x) <= k
  {
    if |s| > 0 {
      var init := s[..|s| - 1];
      if k < |s| {
        assert x <= s[|s| - 1];
        CountsBelow(init, x, k);
      } else {
        CountsBelow(init, x, |init|);
      }
    }
  }

  lemma {:induction false} CountsAbove(s: seq<real>, x: real, k: nat)
    requires Ascending(s) && k < |s| && s[k] <= x
    ensures CountIf(s, y => y > x) <= |s| - 1 - k
  {
    if k == |s| - 1 {
      NoneAbove(s, x);
    } else {
      CountsAbove(s[..|s| - 1], x, k);
    }
  }

  lemma {:induction false} NoneAbove(s: seq<real>, x: real)
    requires forall i | 0 <= i < |s| :: s[i] <= x
    ensures CountIf(s, y => y > x) == 0
  {
    if s != [] {
      NoneAbove(s[..|s| - 1], x);
    }
  }

  lemma {:induction false} CountsUpTo(s: seq<real>, x: real, k: nat)
    requires Ascending(s) && k < |s| && s[k] <= x
    ensures CountIf(s, y => y <= x) > k
  {
    if k < |s| - 1 {
      CountsUpTo(s[..|s| - 1], x, k);
    } else if k > 0 {
      assert s[k - 1] <= s[k];
      CountsUpTo(s[..|s| - 1], x, k - 1);
    }
  }

  lemma {:induction false} CountsFrom(s: seq<real>, x: real, k: nat)
    requires Ascending(s) && k < |s| && x <= s[k]
    ensures CountIf(s, y => y >= x) >= |s| - k
  {
    assert s[|s| - 1] >= x;
    if k < |s| - 1 {
      CountsFrom(s[..|s| - 1], x, k);
    }
  }

  /**
   At least 19 in 20 ratios lie in the interval, and no tighter one does it: at most n / 40 are below it and as
   many above, and more than n / 40 are at or below the low end and as many at or above the high end.
   */
  ghost predicate Covers(ratios: seq<real>, low: real, high: real) {
    && low <= high
    && CountIf(ratios, y => y < low) <= |ratios| / 40 < CountIf(ratios, y => y <= low)
    && CountIf(ratios, y => y > high) <= |ratios| / 40 < CountIf(ratios, y => y >= high)
  }

  lemma {:induction false} CountGrows(s: seq<real>, p: real -> bool, q: real -> bool)
    requires forall y :: p(y) ==> q(y)
    ensures CountIf(s, p) <= CountIf(s, q)
  {
    if s != [] {
      CountGrows(s[..|s| - 1], p, q);
    }
  }

  /** There is only one such interval. */
  lemma IntervalIsUnique(ratios: seq<real>, low: real, high: real, low': real, high': real)
    requires Covers(ratios, low, high) && Covers(ratios, low', high')
    ensures low == low' && high == high'
  {
    if low < low' { CountGrows(ratios, y => y <= low, y => y < low'); }
    if low' < low { CountGrows(ratios, y => y <= low', y => y < low); }
    if high < high' { CountGrows(ratios, y => y >= high', y => y > high); }
    if high' < high { CountGrows(ratios, y => y >= high, y => y > high'); }
  }

  lemma IndicesFit(n: nat)
    requires n > 0
    ensures LowIndex(n) <= HighIndex(n) < n && LowIndex(n) == n / 40 && n - 1 - HighIndex(n) == n / 40
  {
  }

  lemma IntervalCovers(ratios: seq<real>)
    requires ratios != []
    ensures LowIndex(|ratios|) < |ratios| && HighIndex(|ratios|) < |ratios|
    ensures Covers(ratios, Sorted(ratios)[LowIndex(|ratios|)], Sorted(ratios)[HighIndex(|ratios|)])
  {
    var n, sorted := |ratios|, Sorted(ratios);
    IndicesFit(n);
    var low, high := sorted[LowIndex(n)], sorted[HighIndex(n)];
    SortedAscends(ratios, y => true);
    LowEnd(ratios, LowIndex(n));
    HighEnd(ratios, HighIndex(n));
  }

  lemma LowEnd(ratios: seq<real>, k: nat)
    requires k < |ratios|
    ensures var low := Sorted(ratios)[k]; CountIf(ratios, y => y < low) <= k < CountIf(ratios, y => y <= low)
  {
    var low := Sorted(ratios)[k];
    SortedAscends(ratios, y => y < low);
    SortedAscends(ratios, y => y <= low);
    CountsBelow(Sorted(ratios), low, k);
    CountsUpTo(Sorted(ratios), low, k);
  }

  lemma HighEnd(ratios: seq<real>, k: nat)
    requires k < |ratios|
    ensures var high := Sorted(ratios)[k];
            CountIf(ratios, y => y > high) <= |ratios| - 1 - k < CountIf(ratios, y => y >= high)
  {
    var high := Sorted(ratios)[k];
    SortedAscends(ratios, y => y > high);
    SortedAscends(ratios, y => y >= high);
    CountsAbove(Sorted(ratios), high, k);
    CountsFrom(Sorted(ratios), high, k);
  }

  method NextRatio(pairs: seq<TrialPair>, rng: SplitMix64, ghost seed: nat, ghost resample: nat)
    returns (ratio: Option<real>)
    requires 1 <= |pairs| <= U64_MAX && rng.state == StateAt(seed, StartOf(pairs, seed, resample))
    modifies rng
    ensures ratio == Ratio(ResampleAt(pairs, seed, resample))
    ensures rng.state == StateAt(seed, StartOf(pairs, seed, resample + 1))
  {
    var sample := Sample(pairs, rng, seed, StartOf(pairs, seed, resample));
    ratio := CostPerPassRatio(sample);
  }

  method CollectRatios(pairs: seq<TrialPair>, resamples: nat, seed: nat) returns (ratios: seq<real>)
    requires seed < M && 1 <= |pairs| <= U64_MAX
    ensures ratios == RatiosAt(pairs, seed, resamples)
  {
    var rng := new SplitMix64(seed);
    ratios := [];
    for r := 0 to resamples
      invariant ratios == RatiosAt(pairs, seed, r)
      invariant rng.state == StateAt(seed, StartOf(pairs, seed, r))
    {
      var ratio := NextRatio(pairs, rng, seed, r);
      ratios := ratios + Listed(ratio);
    }
  }

  /**
   The interval of the seeded resamples, given only when at least half of them have a ratio. The command
   line admits no fewer than 100 resamples; with none at all the source would index an empty vector.
   */
  method BootstrapRatioInterval(pairs: seq<TrialPair>, resamples: nat, seed: nat)
    returns (interval: Option<(real, real)>)
    requires resamples >= 1 && seed < M && |pairs| <= U64_MAX
    ensures pairs == [] ==> interval.None?
    ensures pairs != [] ==>
              var ratios := RatiosAt(pairs, seed, resamples);
              && (interval.Some? <==> 2 * |ratios| >= resamples)
              && (interval.Some? ==>
                    && LowIndex(|ratios|) < |ratios| && HighIndex(|ratios|) < |ratios|
                    && interval.value == (Sorted(ratios)[LowIndex(|ratios|)], Sorted(ratios)[HighIndex(|ratios|)])
                    && Covers(ratios, interval.value.0, interval.value.1))
  {
    if pairs == [] {
      return None;
    }
    var ratios := CollectRatios(pairs, resamples, seed);
    if |ratios| * 2 < resamples {
      return None;
    }
    IntervalCovers(ratios);
    var sorted := Sorted(ratios);
    interval := Some((sorted[LowIndex(|ratios|)], sorted[HighIndex(|ratios|)]));
  }
}
