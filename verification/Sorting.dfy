/** A stable sort by a total order, with what callers need of it: order, the same elements, the same counts. */
module Sorting {
  ghost predicate TotalOrder<T(!new)>(le: (T, T) -> bool) {
    && (forall a, b :: le(a, b) || le(b, a))
    && (forall a, b, c :: le(a, b) && le(b, c) ==> le(a, c))
  }

  ghost predicate Ordered<T>(s: seq<T>, le: (T, T) -> bool) {
    forall i, j | 0 <= i < j < |s| :: le(s[i], s[j])
  }

  /** Each element goes after those that are not greater. */
  function Insert<T>(s: seq<T>, x: T, le: (T, T) -> bool): (r: seq<T>)
    ensures |r| == |s| + 1
  {
    if s == [] || le(s[|s| - 1], x) then s + [x] else Insert(s[..|s| - 1], x, le) + [s[|s| - 1]]
  }

  function Sort<T>(s: seq<T>, le: (T, T) -> bool): (r: seq<T>)
    ensures |r| == |s|
  {
    if s == [] then [] else Insert(Sort(s[..|s| - 1], le), s[|s| - 1], le)
  }

  function CountIf<T>(s: seq<T>, p: T -> bool): nat {
    if s == [] then 0 else CountIf(s[..|s| - 1], p) + if p(s[|s| - 1]) then 1 else 0
  }

  lemma {:induction false} InsertKeeps<T>(s: seq<T>, x: T, le: (T, T) -> bool)
    ensures multiset(Insert(s, x, le)) == multiset(s) + multiset{x}
  {
    if !(s == [] || le(s[|s| - 1], x)) {
      InsertKeeps(s[..|s| - 1], x, le);
      assert s == s[..|s| - 1] + [s[|s| - 1]];
    }
  }

  lemma {:induction false} InsertCounts<T>(s: seq<T>, x: T, le: (T, T) -> bool, p: T -> bool)
    ensures CountIf(Insert(s, x, le), p) == CountIf(s, p) + if p(x) then 1 else 0
  {
    if s == [] || le(s[|s| - 1], x) {
      assert (s + [x])[..|s|] == s;
    } else {
      InsertCounts(s[..|s| - 1], x, le, p);
      assert Insert(s, x, le)[..|s|] == Insert(s[..|s| - 1], x, le);
    }
  }

  lemma {:induction false} InsertOrders<T(!new)>(s: seq<T>, x: T, le: (T, T) -> bool)
    requires TotalOrder(le) && Ordered(s, le)
    ensures Ordered(Insert(s, x, le), le)
  {
    if s != [] {
      var init, last := s[..|s| - 1], s[|s| - 1];
      if le(last, x) {
        forall i | 0 <= i < |s|
          ensures le(s[i], x)
        {
          assert i < |s| - 1 ==> le(s[i], last);
        }
      } else {
        assert le(x, last);
        InsertOrders(init, x, le);
        InsertKeeps(init, x, le);
        var r := Insert(init, x, le);
        forall i | 0 <= i < |r|
          ensures le(r[i], last)
        {
          assert r[i] in multiset(init) + multiset{x};
          assert r[i] in init || r[i] == x;
        }
      }
    }
  }

  /** Sorting gives the same elements in order. */
  lemma {:induction false} SortSorts<T(!new)>(s: seq<T>, le: (T, T) -> bool)
    requires TotalOrder(le)
    ensures Ordered(Sort(s, le), le) && multiset(Sort(s, le)) == multiset(s)
  {
    if s != [] {
      var init := s[..|s| - 1];
      SortSorts(init, le);
      InsertKeeps(Sort(init, le), s[|s| - 1], le);
      InsertOrders(Sort(init, le), s[|s| - 1], le);
      assert s == init + [s[|s| - 1]];
    }
  }

  /** As many elements as before satisfy any property. */
  lemma {:induction false} SortCounts<T>(s: seq<T>, le: (T, T) -> bool, p: T -> bool)
    ensures CountIf(Sort(s, le), p) == CountIf(s, p)
  {
    if s != [] {
      SortCounts(s[..|s| - 1], le, p);
      InsertCounts(Sort(s[..|s| - 1], le), s[|s| - 1], le, p);
    }
  }

  /** What is in order already stays as it is. */
  lemma {:induction false} SortKeepsOrdered<T>(s: seq<T>, le: (T, T) -> bool)
    requires Ordered(s, le)
    ensures Sort(s, le) == s
  {
    if s != [] {
      SortKeepsOrdered(s[..|s| - 1], le);
      assert |s| > 1 ==> le(s[|s| - 2], s[|s| - 1]);
    }
  }

  // ----- stability

  function Filter<T>(s: seq<T>, p: T -> bool): seq<T> {
    if s == [] then [] else Filter(s[..|s| - 1], p) + if p(s[|s| - 1]) then [s[|s| - 1]] else []
  }

  function Ties<T>(k: T, le: (T, T) -> bool): T -> bool { x => le(x, k) && le(k, x) }

  lemma {:induction false} InsertIsStable<T(!new)>(s: seq<T>, x: T, le: (T, T) -> bool, k: T)
    requires TotalOrder(le)
    ensures Filter(Insert(s, x, le), Ties(k, le)) == Filter(s, Ties(k, le)) + if Ties(k, le)(x) then [x] else []
  {
    var p := Ties(k, le);
    if s == [] || le(s[|s| - 1], x) {
      assert (s + [x])[..|s|] == s;
    } else {
      var init, last := s[..|s| - 1], s[|s| - 1];
      InsertIsStable(init, x, le, k);
      assert Insert(s, x, le)[..|s|] == Insert(init, x, le);
      assert le(last, k) && le(k, x) ==> le(last, x);
    }
  }

  /** Elements that tie keep their order. */
  lemma {:induction false} SortIsStable<T(!new)>(s: seq<T>, le: (T, T) -> bool, k: T)
    requires TotalOrder(le)
    ensures Filter(Sort(s, le), Ties(k, le)) == Filter(s, Ties(k, le))
  {
    if s != [] {
      SortIsStable(s[..|s| - 1], le, k);
      InsertIsStable(Sort(s[..|s| - 1], le), s[|s| - 1], le, k);
    }
  }
}
