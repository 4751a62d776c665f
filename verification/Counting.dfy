/** Facts about finite sets, powers of two and division that several models count with. */
module Counting {
  const U64_MAX: nat := 0xFFFF_FFFF_FFFF_FFFF

  function Pow2(n: nat): (r: nat)
    ensures r >= 1
  {
    if n == 0 then 1 else 2 * Pow2(n - 1)
  }

  lemma {:induction false} SubsetSize<T>(a: set<T>, b: set<T>)
    requires a <= b
    ensures |a| <= |b|
    ensures |a| == |b| ==> a == b
  {
    if a != {} {
      var x :| x in a;
      SubsetSize(a - {x}, b - {x});
    }
  }

  lemma MulMonotone(x: nat, y: nat, bound: nat)
    requires x <= y
    ensures x * bound <= y * bound
  {
  }

  /** Quotient and remainder are unique. */
  lemma DivUndone(q: nat, bound: nat, index: nat)
    requires index < bound
    ensures (q * bound + index) / bound == q && (q * bound + index) % bound == index
  {
    var n := q * bound + index;
    var p := n / bound;
    assert n == p * bound + n % bound;
    if p < q {
      MulMonotone(p + 1, q, bound);
    } else if q < p {
      MulMonotone(q + 1, p, bound);
    }
  }

  lemma DivideTwice(n: nat, c: nat, p: nat)
    requires c >= 1 && p >= 1
    ensures c * p >= 1 && n / c / p == n / (c * p)
  {
    var a, b := n / c, n % c;
    var d, e := a / p, a % p;
    Nested(n, c, p, a, b, d, e);
    MulMonotone(1, c, p);
    DivUndone(d, c * p, c * e + b);
  }

  lemma Nested(n: nat, c: nat, p: nat, a: nat, b: nat, d: nat, e: nat)
    requires n == c * a + b && b < c && a == p * d + e && e < p
    ensures n == d * (c * p) + (c * e + b) && c * e + b < c * p
  {
    assert c * (p * d) == d * (c * p);
    assert c * (p * d + e) == c * (p * d) + c * e;
    MulMonotone(e + 1, p, c);
    assert (e + 1) * c == c * e + c && p * c == c * p;
  }
}
