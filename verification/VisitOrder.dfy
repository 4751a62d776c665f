/** The order in which the selection visits packages: always the one found last of those still to be visited. */
module VisitOrder {
  datatype Package = Package(name: string, dir: string, deps: set<string>)

  /** Some package named `a` depends on `b`. */
  ghost predicate Edge(packages: seq<Package>, a: string, b: string) {
    exists i :: 0 <= i < |packages| && packages[i].name == a && b in packages[i].deps
  }

  /** The packages that depend on `name`, in the order they are listed. */
  ghost function DependentsOf(packages: seq<Package>, name: string): seq<string> {
    if packages == [] then []
    else
      var last := packages[|packages| - 1];
      DependentsOf(packages[..|packages| - 1], name) + if name in last.deps then [last.name] else []
  }

  /** All that was found by the time these packages were visited: the first ones, then the dependents of each. */
  ghost function Findings(packages: seq<Package>, first: seq<string>, order: seq<string>): seq<string> {
    if order == [] then first
    else
      var n := |order| - 1;
      Findings(packages, first, order[..n]) + DependentsOf(packages, order[n])
  }

  /** What is left of a list without some names. */
  ghost function Without(found: seq<string>, visited: set<string>): seq<string> {
    if found == [] then []
    else
      var n := |found| - 1;
      Without(found[..n], visited) + if found[n] in visited then [] else [found[n]]
  }

  ghost function Members(order: seq<string>): set<string> { set n | n in order }

  lemma MembersGrow(order: seq<string>, name: string)
    ensures Members(order + [name]) == Members(order) + {name}
  {
  }

  ghost function ToVisit(packages: seq<Package>, first: seq<string>, order: seq<string>): seq<string> {
    Without(Findings(packages, first, order), Members(order))
  }

  ghost predicate IsNext(packages: seq<Package>, first: seq<string>, order: seq<string>, name: string) {
    var left := ToVisit(packages, first, order);
    left != [] && name == left[|left| - 1]
  }

  /** Each visited package is the last found of those not visited before. */
  ghost predicate DepthFirst(packages: seq<Package>, first: seq<string>, order: seq<string>) {
    forall k {:trigger IsNext(packages, first, order[..k], order[k])} | 0 <= k < |order| ::
      IsNext(packages, first, order[..k], order[k])
  }

  /** And the visit goes on until nothing is left. */
  ghost predicate IsVisit(packages: seq<Package>, first: seq<string>, order: seq<string>) {
    DepthFirst(packages, first, order) && ToVisit(packages, first, order) == []
  }

  lemma {:induction false} SamePrefix(
    packages: seq<Package>, first: seq<string>, order: seq<string>, other: seq<string>, k: nat)
    requires DepthFirst(packages, first, order) && DepthFirst(packages, first, other)
    requires k <= |order| && k <= |other|
    ensures order[..k] == other[..k]
  {
    if k > 0 {
      SamePrefix(packages, first, order, other, k - 1);
      assert IsNext(packages, first, order[..k - 1], order[k - 1]);
      assert IsNext(packages, first, other[..k - 1], other[k - 1]);
      assert order[..k] == order[..k - 1] + [order[k - 1]] && other[..k] == other[..k - 1] + [other[k - 1]];
    }
  }

  lemma VisitIsLongest(packages: seq<Package>, first: seq<string>, order: seq<string>, other: seq<string>)
    requires IsVisit(packages, first, order) && DepthFirst(packages, first, other)
    ensures |other| <= |order|
  {
    assert order[..|order|] == order;
    if |order| < |other| {
      assert IsNext(packages, first, other[..|order|], other[|order|]);
      SamePrefix(packages, first, order, other, |order|);
    }
  }

  /** The first packages determine the whole visit. */
  lemma VisitIsUnique(packages: seq<Package>, first: seq<string>, order: seq<string>, other: seq<string>)
    requires IsVisit(packages, first, order) && IsVisit(packages, first, other)
    ensures order == other
  {
    VisitIsLongest(packages, first, order, other);
    VisitIsLongest(packages, first, other, order);
    SamePrefix(packages, first, order, other, |order|);
  }

  // ----- a stack finds that order

  lemma {:induction false} WithoutAdds(a: seq<string>, b: seq<string>, visited: set<string>)
    ensures Without(a + b, visited) == Without(a, visited) + Without(b, visited)
  {
    if b == [] {
      assert a + b == a;
    } else {
      assert (a + b)[..|a + b| - 1] == a + b[..|b| - 1];
      WithoutAdds(a, b[..|b| - 1], visited);
    }
  }

  lemma {:induction false} WithoutOneMore(found: seq<string>, visited: set<string>, name: string)
    ensures Without(found, visited + {name}) == Without(Without(found, visited), {name})
  {
    if found != [] {
      var n := |found| - 1;
      WithoutOneMore(found[..n], visited, name);
      WithoutAdds(Without(found[..n], visited), if found[n] in visited then [] else [found[n]], {name});
      WithoutOne(found[n], {name});
    }
  }

  lemma WithoutOne(name: string, visited: set<string>)
    ensures Without([name], visited) == if name in visited then [] else [name]
  {
    assert [name][..0] == [];
  }

  /** The stack holds what is left to visit, last found on top, and names that have been visited since. */
  ghost predicate Stacked(packages: seq<Package>, first: seq<string>, order: seq<string>, queue: seq<string>) {
    && DepthFirst(packages, first, order)
    && Without(queue, Members(order)) == ToVisit(packages, first, order)
  }

  lemma StackStarts(packages: seq<Package>, first: seq<string>)
    ensures Stacked(packages, first, [], first)
  {
  }

  lemma Extended(packages: seq<Package>, first: seq<string>, order: seq<string>, name: string)
    requires DepthFirst(packages, first, order) && IsNext(packages, first, order, name)
    ensures DepthFirst(packages, first, order + [name])
  {
    var more := order + [name];
    assert more[..|order|] == order;
    forall k | 0 <= k < |more|
      ensures IsNext(packages, first, more[..k], more[k])
    {
      if k < |order| {
        assert IsNext(packages, first, order[..k], order[k]);
        assert more[..k] == order[..k] && more[k] == order[k];
      }
    }
  }

  /** A name on top that was visited already is dropped; nothing else changes. */
  lemma StackDrops(packages: seq<Package>, first: seq<string>, order: seq<string>, queue: seq<string>)
    requires Stacked(packages, first, order, queue) && queue != [] && queue[|queue| - 1] in order
    ensures Stacked(packages, first, order, queue[..|queue| - 1])
  {
  }

  lemma StackLeaves(found: seq<string>, rest: seq<string>, visited: set<string>, name: string)
    requires Without(found, visited) == Without(rest, visited) + [name]
    ensures Without(found, visited + {name}) == Without(rest, visited + {name})
  {
    WithoutOneMore(found, visited, name);
    WithoutOneMore(rest, visited, name);
    WithoutAdds(Without(rest, visited), [name], {name});
    WithoutOne(name, {name});
  }

  /** Any other is the one to visit next, and its dependents go on top. */
  lemma StackVisits(packages: seq<Package>, first: seq<string>, order: seq<string>, queue: seq<string>)
    requires Stacked(packages, first, order, queue) && queue != [] && queue[|queue| - 1] !in order
    ensures var name := queue[|queue| - 1];
            Stacked(packages, first, order + [name], queue[..|queue| - 1] + DependentsOf(packages, name))
  {
    var name, rest := queue[|queue| - 1], queue[..|queue| - 1];
    var visited, found, more := Members(order), Findings(packages, first, order), DependentsOf(packages, name);
    assert Without(queue, visited) == Without(rest, visited) + [name];
    Extended(packages, first, order, name);
    MembersGrow(order, name);
    assert (order + [name])[..|order|] == order;
    assert Findings(packages, first, order + [name]) == found + more;
    StackLeaves(found, rest, visited, name);
    WithoutAdds(found, more, visited + {name});
    WithoutAdds(rest, more, visited + {name});
  }
}
