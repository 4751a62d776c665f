/** Drawing an index below a bound: termination of the rejection loop, and no bias over a full cycle. */
module Sampling {
  import opened Counting
  import opened SplitMix

  // ----- counting

  predicate InRange(lo: nat, i: nat, hi: nat) { lo <= i < hi }

  function Between(lo: nat, hi: nat): set<nat> {
    set i: nat | lo <= i < hi && InRange(lo, i, hi)
  }

  lemma {:induction false} BetweenSize(lo: nat, hi: nat)
    requires lo <= hi
    ensures |Between(lo, hi)| == hi - lo
    decreases hi - lo
  {
    if lo == hi {
      assert Between(lo, hi) == {};
    } else {
      BetweenSize(lo, hi - 1);
      assert Between(lo, hi) == Between(lo, hi - 1) + {hi - 1};
    }
  }

  ghost predicate InjectiveOn(s: set<nat>, f: nat -> nat) {
    forall x, y | x in s && y in s && f(x) == f(y) :: x == y
  }

  function Image(s: set<nat>, f: nat -> nat): set<nat> {
    set x | x in s :: f(x)
  }

  lemma {:induction false} ImageSize(s: set<nat>, f: nat -> nat)
    requires InjectiveOn(s, f)
    ensures |Image(s, f)| == |s|
  {
    if s != {} {
      var x :| x in s;
      ImageSize(s - {x}, f);
      assert Image(s, f) == Image(s - {x}, f) + {f(x)};
      assert f(x) !in Image(s - {x}, f);
    } else {
      assert Image(s, f) == {};
    }
  }

  // ----- the outputs of one seed

  lemma OutputsInjective(seed: nat, lo: nat, hi: nat)
    requires hi <= lo + M
    ensures InjectiveOn(Between(lo, hi), (k: nat) => Output(seed, k))
  {
    forall j, k | j in Between(lo, hi) && k in Between(lo, hi) && Output(seed, j) == Output(seed, k)
      ensures j == k
    {
      if j < k { OutputsDistinct(seed, j, k); }
      if k < j { OutputsDistinct(seed, k, j); }
    }
  }

  /** Over 2^64 draws every word comes out: the generator has one full cycle. */
  lemma FullCycle(seed: nat)
    ensures Image(Between(1, M + 1), (k: nat) => Output(seed, k)) == Between(0, M)
  {
    var f := (k: nat) => Output(seed, k);
    OutputsInjective(seed, 1, M + 1);
    ImageSize(Between(1, M + 1), f);
    BetweenSize(1, M + 1);
    BetweenSize(0, M);
    SubsetSize(Image(Between(1, M + 1), f), Between(0, M));
  }

  /** Consecutive rejected draws are distinct words of the rejected zone, so there are not more than its size. */
  lemma RejectionsBounded(seed: nat, zone: nat, n: nat)
    requires zone <= M && n <= M
    requires forall k | 1 <= k <= n :: Output(seed, k) >= zone
    ensures n <= M - zone
  {
    var f := (k: nat) => Output(seed, k);
    OutputsInjective(seed, 1, n + 1);
    ImageSize(Between(1, n + 1), f);
    BetweenSize(1, n + 1);
    BetweenSize(zone, M);
    SubsetSize(Image(Between(1, n + 1), f), Between(zone, M));
  }

  // ----- sampling below a bound

  function Zone(bound: nat): (z: nat)
    requires 1 <= bound <= U64_MAX
    ensures z <= U64_MAX && z > 0
  {
    U64_MAX - U64_MAX % bound
  }

  /** The accepted zone is a whole number of rounds through the indices. */
  lemma ZoneIsMultiple(bound: nat)
    requires 1 <= bound <= U64_MAX
    ensures Zone(bound) == (U64_MAX / bound) * bound
    ensures Zone(bound) / bound == U64_MAX / bound
  {
    DivUndone(U64_MAX / bound, bound, 0);
  }

  /** The index a word is reduced to. */
  function Reduced(v: nat, bound: nat): (index: nat)
    requires bound >= 1
    ensures index < bound
  {
    v % bound
  }

  /** The first n draws after a seed are all rejected. */
  ghost predicate AllRejected(seed: nat, zone: nat, n: nat) {
    forall k | 1 <= k <= n :: Output(seed, k) >= zone
  }

  lemma OneMoreRejected(seed: nat, zone: nat, n: nat)
    requires n <= M - zone <= M && AllRejected(seed, zone, n) && Output(seed, n + 1) >= zone
    requires 0 < zone
    ensures AllRejected(seed, zone, n + 1) && n + 1 <= M - zone
  {
    RejectionsBounded(seed, zone, n + 1);
  }

  lemma RejectedZone(bound: nat)
    requires 1 <= bound <= U64_MAX
    ensures M - Zone(bound) == U64_MAX % bound + 1
  {
  }

  lemma StartState(seed: nat)
    requires seed < M
    ensures StateAt(seed, 0) == seed
  {
  }

  lemma StateAdvances(seed: nat, n: nat)
    ensures (StateAt(seed, n) + INCREMENT) % M == StateAt(seed, n + 1)
  {
    assert (n + 1) * INCREMENT == n * INCREMENT + INCREMENT;
  }

  class SplitMix64 {
    var state: nat

    constructor (seed: nat)
      requires seed < M
      ensures state == seed
    {
      state := seed;
    }

    method Next() returns (z: nat)
      requires state < M
      modifies this
      ensures state == (old(state) + INCREMENT) % M
      ensures z == Mix(state)
    {
      state := (state + INCREMENT) % M;
      z := state;
      z := (XorShift(z, 30) * FIRST) % M;
      z := (XorShift(z, 27) * SECOND) % M;
      z := XorShift(z, 31);
    }

    /** The next word, as the output after n earlier draws from a seed. */
    method Draw(ghost seed: nat, ghost n: nat) returns (value: nat)
      requires state == StateAt(seed, n)
      modifies this
      ensures state == StateAt(seed, n + 1) && value == Output(seed, n + 1)
    {
      StateAdvances(seed, n);
      value := Next();
    }

    /** Returns after at most U64_MAX % bound + 1 rejected draws, with the first accepted one reduced. */
    method Below(bound: nat) returns (index: nat, ghost rejected: nat)
      requires 1 <= bound <= U64_MAX && state < M
      modifies this
      ensures index < bound
      ensures rejected <= U64_MAX % bound + 1
      ensures AllRejected(old(state), Zone(bound), rejected)
      ensures Output(old(state), rejected + 1) < Zone(bound)
      ensures index == Reduced(Output(old(state), rejected + 1), bound)
      ensures state == StateAt(old(state), rejected + 1)
    {
      var zone := Zone(bound);
      ghost var seed, limit := state, M - zone;
      RejectedZone(bound);
      StartState(seed);
      rejected := 0;
      while true
        invariant state == StateAt(seed, rejected)
        invariant rejected <= limit
        invariant AllRejected(seed, zone, rejected)
        decreases limit - rejected
      {
        var value := Draw(seed, rejected);
        if value < zone {
          return Reduced(value, bound), rejected;
        }
        OneMoreRejected(seed, zone, rejected);
        rejected := rejected + 1;
      }
    }
  }

  /** The words below `zone` that reduce to one index. */
  function WordsOf(zone: nat, bound: nat, index: nat): set<nat>
    requires bound >= 1
  {
    set v: nat | v < zone && Reduced(v, bound) == index
  }

  /** The draws of a full cycle that yield one index. */
  ghost function DrawsOf(seed: nat, bound: nat, index: nat): set<nat>
    requires 1 <= bound <= U64_MAX
  {
    set k: nat | 1 <= k <= M && Output(seed, k) < Zone(bound) && Reduced(Output(seed, k), bound) == index
  }

  lemma WordOfRound(q: nat, bound: nat, index: nat, rounds: nat)
    requires index < bound && q < rounds
    ensures (q * bound + index) % bound == index && q * bound + index < rounds * bound
  {
    DivUndone(q, bound, index);
    MulMonotone(q + 1, rounds, bound);
    assert (q + 1) * bound == q * bound + bound;
  }

  lemma RoundOfWord(v: nat, bound: nat, rounds: nat)
    requires bound >= 1 && v < rounds * bound
    ensures v / bound < rounds && v == v / bound * bound + v % bound
  {
    if v / bound >= rounds {
      MulMonotone(rounds, v / bound, bound);
    }
  }

  function WordAt(bound: nat, index: nat): nat -> nat {
    (q: nat) => q * bound + index
  }

  lemma WordsAreRounds(rounds: nat, bound: nat, index: nat)
    requires index < bound
    ensures WordsOf(rounds * bound, bound, index) == Image(Between(0, rounds), WordAt(bound, index))
  {
    var f := WordAt(bound, index);
    forall v | v in WordsOf(rounds * bound, bound, index)
      ensures v in Image(Between(0, rounds), f)
    {
      RoundOfWord(v, bound, rounds);
      var q := v / bound;
      assert InRange(0, q, rounds) && f(q) == v;
    }
    forall v | v in Image(Between(0, rounds), f)
      ensures v in WordsOf(rounds * bound, bound, index)
    {
      var q :| q in Between(0, rounds) && v == f(q);
      WordOfRound(q, bound, index, rounds);
    }
  }

  lemma WordAtInjective(rounds: nat, bound: nat, index: nat)
    requires index < bound
    ensures InjectiveOn(Between(0, rounds), WordAt(bound, index))
  {
    var f := WordAt(bound, index);
    forall q, r | q in Between(0, rounds) && r in Between(0, rounds) && f(q) == f(r)
      ensures q == r
    {
      DivUndone(q, bound, index);
      DivUndone(r, bound, index);
    }
  }

  /** Each index has exactly zone / bound accepted preimages. */
  lemma AcceptedPreimages(bound: nat, index: nat)
    requires 1 <= bound <= U64_MAX && index < bound
    ensures |WordsOf(Zone(bound), bound, index)| == Zone(bound) / bound
  {
    var rounds := U64_MAX / bound;
    ZoneIsMultiple(bound);
    WordsAreRounds(rounds, bound, index);
    WordAtInjective(rounds, bound, index);
    ImageSize(Between(0, rounds), WordAt(bound, index));
    BetweenSize(0, rounds);
  }

  lemma DrawsReachWords(seed: nat, bound: nat, index: nat)
    requires 1 <= bound <= U64_MAX
    ensures Image(DrawsOf(seed, bound, index), (k: nat) => Output(seed, k)) == WordsOf(Zone(bound), bound, index)
  {
    var f := (k: nat) => Output(seed, k);
    FullCycle(seed);
    forall v | v in WordsOf(Zone(bound), bound, index)
      ensures v in Image(DrawsOf(seed, bound, index), f)
    {
      assert InRange(0, v, M);
      assert v in Image(Between(1, M + 1), f);
      var k :| k in Between(1, M + 1) && v == f(k);
      assert k in DrawsOf(seed, bound, index);
    }
  }

  /** Over the generator's full cycle every index is drawn equally often. */
  lemma Unbiased(seed: nat, bound: nat, index: nat)
    requires 1 <= bound <= U64_MAX && index < bound
    ensures |DrawsOf(seed, bound, index)| == Zone(bound) / bound
  {
    var f := (k: nat) => Output(seed, k);
    var draws := DrawsOf(seed, bound, index);
    assert InjectiveOn(draws, f) by {
      OutputsInjective(seed, 1, M + 1);
      forall x, y | x in draws && y in draws && f(x) == f(y)
        ensures x == y
      {
        assert InRange(1, x, M + 1) && InRange(1, y, M + 1);
      }
    }
    ImageSize(draws, f);
    DrawsReachWords(seed, bound, index);
    AcceptedPreimages(bound, index);
  }
}
