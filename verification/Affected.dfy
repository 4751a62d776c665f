/** Which packages a change affects: the direct ones, and everything that depends on them. */
module Affected {
  import opened Counting
  import opened Options
  import opened Text
  import opened Keys
  import opened VisitOrder

  datatype Reason =
    | ReadByTests(path: string)
    | Changed(path: string)
    | Forced
    | DependsOn(name: string)
    | AffectsAll(path: string)

  datatype Scope = Nothing | Packages(names: set<string>) | Full

  datatype Selection = Selection(scope: Scope, reasons: map<string, Reason>, minimalProvider: bool)

  // ----- dependency paths

  /** `path` leads through dependencies to a direct package. */
  ghost predicate LeadsTo(packages: seq<Package>, direct: set<string>, path: seq<string>) {
    && path != []
    && path[|path| - 1] in direct
    && forall i | 0 < i < |path| :: Edge(packages, path[i - 1], path[i])
  }

  ghost predicate Reaches(packages: seq<Package>, direct: set<string>, name: string) {
    exists path :: LeadsTo(packages, direct, path) && path[0] == name
  }

  lemma DirectReaches(packages: seq<Package>, direct: set<string>, name: string)
    requires name in direct
    ensures Reaches(packages, direct, name)
  {
    assert LeadsTo(packages, direct, [name]);
  }

  lemma DependentReaches(packages: seq<Package>, direct: set<string>, a: string, b: string)
    requires Edge(packages, a, b) && Reaches(packages, direct, b)
    ensures Reaches(packages, direct, a)
  {
    var path :| LeadsTo(packages, direct, path) && path[0] == b;
    var longer := [a] + path;
    forall i | 0 < i < |longer|
      ensures Edge(packages, longer[i - 1], longer[i])
    {
      if i > 1 { assert longer[i - 1] == path[i - 2] && longer[i] == path[i - 1]; }
    }
    assert LeadsTo(packages, direct, longer);
  }

  ghost predicate Closed(packages: seq<Package>, selected: set<string>) {
    forall a, b :: b in selected && Edge(packages, a, b) ==> a in selected
  }

  lemma {:induction false} ClosedHoldsReaching(
    packages: seq<Package>, direct: set<string>, selected: set<string>, path: seq<string>)
    requires direct <= selected && Closed(packages, selected) && LeadsTo(packages, direct, path)
    ensures path[0] in selected
    decreases |path|
  {
    if |path| > 1 {
      var rest := path[1..];
      forall i | 0 < i < |rest|
        ensures Edge(packages, rest[i - 1], rest[i])
      {
        assert rest[i - 1] == path[i] && rest[i] == path[i + 1];
      }
      ClosedHoldsReaching(packages, direct, selected, rest);
      assert Edge(packages, path[0], path[1]);
    }
  }

  // ----- reasons

  /** Following the recorded dependencies from a package to a direct one. */
  ghost predicate Explains(
    packages: seq<Package>, direct: map<string, Reason>, reasons: map<string, Reason>, path: seq<string>)
  {
    && path != [] && path[|path| - 1] in direct
    && (forall i | 0 <= i < |path| :: path[i] in reasons)
    && reasons[path[|path| - 1]] == direct[path[|path| - 1]]
    && (forall i | 0 < i < |path| ::
          reasons[path[i - 1]] == DependsOn(path[i]) && Edge(packages, path[i - 1], path[i]))
  }

  /** The chain of reasons from `name` is finite and ends at a direct package. */
  ghost predicate Explained(
    packages: seq<Package>, direct: map<string, Reason>, reasons: map<string, Reason>, name: string)
  {
    exists path :: Explains(packages, direct, reasons, path) && path[0] == name
  }

  ghost predicate AllExplained(packages: seq<Package>, direct: map<string, Reason>, reasons: map<string, Reason>) {
    forall name {:trigger Explained(packages, direct, reasons, name)} ::
      name in reasons ==> Explained(packages, direct, reasons, name)
  }

  lemma DirectExplained(packages: seq<Package>, direct: map<string, Reason>)
    ensures AllExplained(packages, direct, direct)
  {
    forall name | name in direct
      ensures Explained(packages, direct, direct, name)
    {
      assert Explains(packages, direct, direct, [name]);
    }
  }

  lemma StillExplained(
    packages: seq<Package>, direct: map<string, Reason>, reasons: map<string, Reason>, more: map<string, Reason>,
    name: string)
    requires Explained(packages, direct, reasons, name)
    requires reasons.Keys <= more.Keys && forall n | n in reasons :: more[n] == reasons[n]
    ensures Explained(packages, direct, more, name)
  {
    var path :| Explains(packages, direct, reasons, path) && path[0] == name;
    assert Explains(packages, direct, more, path);
  }

  lemma DependentExplained(
    packages: seq<Package>, direct: map<string, Reason>, reasons: map<string, Reason>, a: string, b: string)
    requires Explained(packages, direct, reasons, b) && Edge(packages, a, b)
    requires a in reasons && reasons[a] == DependsOn(b)
    ensures Explained(packages, direct, reasons, a)
  {
    var path :| Explains(packages, direct, reasons, path) && path[0] == b;
    var longer := [a] + path;
    forall i | 0 < i < |longer|
      ensures reasons[longer[i - 1]] == DependsOn(longer[i]) && Edge(packages, longer[i - 1], longer[i])
    {
      if i > 1 { assert longer[i - 1] == path[i - 2] && longer[i] == path[i - 1]; }
    }
    assert Explains(packages, direct, reasons, longer);
  }

  // ----- the worklist

  function Dependents(packages: seq<Package>, name: string): set<string> {
    set i | 0 <= i < |packages| && name in packages[i].deps :: packages[i].name
  }

  lemma DependentsAreEdges(packages: seq<Package>, name: string)
    ensures forall a :: a in Dependents(packages, name) <==> Edge(packages, a, name)
  {
  }

  ghost function Names(packages: seq<Package>): set<string> {
    set i | 0 <= i < |packages| :: packages[i].name
  }

  ghost function Queued(queue: seq<string>): set<string> { set n | n in queue }

  /** `more` adds to `reasons` that every dependent of `name` not yet there depends on it. */
  ghost predicate Extends(
    packages: seq<Package>, name: string, reasons: map<string, Reason>, more: map<string, Reason>)
  {
    && more.Keys == reasons.Keys + Dependents(packages, name)
    && (forall n | n in reasons :: more[n] == reasons[n])
    && (forall n | n in more && n !in reasons :: more[n] == DependsOn(name))
  }

  /** Records a reason for every package that depends on `name` and puts it on the queue. */
  method AddDependents(packages: seq<Package>, name: string, reasons: map<string, Reason>, queue: seq<string>)
    returns (more: map<string, Reason>, longer: seq<string>)
    ensures Extends(packages, name, reasons, more)
    ensures longer == queue + DependentsOf(packages, name)
  {
    more, longer := reasons, queue;
    assert Dependents(packages[..0], name) == {};
    for i := 0 to |packages|
      invariant Extends(packages[..i], name, reasons, more)
      invariant longer == queue + DependentsOf(packages[..i], name)
    {
      DependentsGrow(packages, name, i);
      assert packages[..i + 1][..i] == packages[..i];
      if name in packages[i].deps {
        if packages[i].name !in more {
          more := more[packages[i].name := DependsOn(name)];
        }
        longer := longer + [packages[i].name];
      }
    }
    assert packages[..|packages|] == packages;
  }

  lemma {:induction false} DependentsAreQueued(packages: seq<Package>, name: string, queue: seq<string>)
    ensures Queued(queue + DependentsOf(packages, name)) == Queued(queue) + Dependents(packages, name)
  {
    if packages == [] {
      assert queue + DependentsOf(packages, name) == queue;
    } else {
      var i := |packages| - 1;
      var before := DependentsOf(packages[..i], name);
      DependentsAreQueued(packages[..i], name, queue);
      DependentsGrow(packages, name, i);
      assert packages[..i + 1] == packages;
      if name in packages[i].deps {
        assert queue + (before + [packages[i].name]) == (queue + before) + [packages[i].name];
        QueuedGrows(queue + before, packages[i].name);
      } else {
        assert before + [] == before;
      }
    }
  }

  lemma QueuedInserts(queue: seq<string>, name: string)
    ensures Queued(InsertKey(queue, name)) == Queued(queue) + {name}
  {
    InsertKeyKeeps(queue, name);
  }

  lemma QueuedGrows(queue: seq<string>, name: string)
    ensures Queued(queue + [name]) == Queued(queue) + {name}
  {
  }

  lemma DependentsGrow(packages: seq<Package>, name: string, i: nat)
    requires i < |packages|
    ensures Dependents(packages[..i + 1], name) ==
            Dependents(packages[..i], name) + (if name in packages[i].deps then {packages[i].name} else {})
  {
    var before, after := packages[..i], packages[..i + 1];
    forall n | n in Dependents(after, name)
      ensures n in Dependents(before, name) + (if name in packages[i].deps then {packages[i].name} else {})
    {
      var j :| 0 <= j < |after| && name in after[j].deps && after[j].name == n;
      assert j < i ==> before[j] == after[j];
    }
    forall n | n in Dependents(before, name)
      ensures n in Dependents(after, name)
    {
      var j :| 0 <= j < |before| && name in before[j].deps && before[j].name == n;
      assert after[j] == before[j];
    }
    assert after[i] == packages[i];
  }

  /** The direct packages as a worklist, in the order of the map they are the keys of. */
  method Start(direct: set<string>) returns (queue: seq<string>)
    ensures Queued(queue) == direct && Ascending(queue)
  {
    queue := [];
    var left := direct;
    while left != {}
      invariant left <= direct
      invariant Queued(queue) == direct - left && Ascending(queue)
      decreases |left|
    {
      var n :| n in left;
      QueuedInserts(queue, n);
      InsertKeyAscends(queue, n);
      queue, left := InsertKey(queue, n), left - {n};
    }
  }

  /** Direct packages keep their reasons, and all others depend on something. */
  ghost predicate KeepsDirect(direct: map<string, Reason>, reasons: map<string, Reason>) {
    && (forall n | n in direct :: n in reasons && reasons[n] == direct[n])
    && (forall n | n in reasons && n !in direct :: reasons[n].DependsOn?)
  }

  lemma KeepsDirectStep(
    packages: seq<Package>, direct: map<string, Reason>, reasons: map<string, Reason>, more: map<string, Reason>,
    name: string)
    requires KeepsDirect(direct, reasons) && Extends(packages, name, reasons, more)
    ensures KeepsDirect(direct, more)
  {
  }

  /** The reason of a package that is not direct names the first visited one it depends on. */
  ghost predicate NamesFirst(
    packages: seq<Package>, direct: map<string, Reason>, order: seq<string>, reasons: map<string, Reason>)
  {
    forall n {:trigger FirstFound(packages, order, n, reasons[n])} ::
      n in reasons && n !in direct ==> FirstFound(packages, order, n, reasons[n])
  }

  ghost predicate FirstFound(packages: seq<Package>, order: seq<string>, name: string, reason: Reason) {
    exists i :: && 0 <= i < |order| && reason == DependsOn(order[i]) && Edge(packages, name, order[i])
                && forall j | 0 <= j < i :: !Edge(packages, name, order[j])
  }

  lemma StillFirst(packages: seq<Package>, order: seq<string>, next: string, name: string, reason: Reason)
    requires FirstFound(packages, order, name, reason)
    ensures FirstFound(packages, order + [next], name, reason)
  {
    var i :| 0 <= i < |order| && reason == DependsOn(order[i]) && Edge(packages, name, order[i]) &&
             forall j | 0 <= j < i :: !Edge(packages, name, order[j]);
    var more := order + [next];
    assert more[i] == order[i] && forall j | 0 <= j < i :: more[j] == order[j];
  }

  lemma NewlyFirst(packages: seq<Package>, order: seq<string>, next: string, name: string)
    requires Edge(packages, name, next) && forall j | 0 <= j < |order| :: !Edge(packages, name, order[j])
    ensures FirstFound(packages, order + [next], name, DependsOn(next))
  {
    var more := order + [next];
    assert more[|order|] == next && forall j | 0 <= j < |order| :: more[j] == order[j];
  }

  lemma NamesFirstStep(
    packages: seq<Package>, direct: map<string, Reason>, order: seq<string>, reasons: map<string, Reason>,
    more: map<string, Reason>, name: string)
    requires NamesFirst(packages, direct, order, reasons) && Extends(packages, name, reasons, more)
    requires forall a, b | b in order && Edge(packages, a, b) :: a in reasons
    ensures NamesFirst(packages, direct, order + [name], more)
  {
    DependentsAreEdges(packages, name);
    forall n | n in more && n !in direct
      ensures FirstFound(packages, order + [name], n, more[n])
    {
      if n in reasons {
        assert FirstFound(packages, order, n, reasons[n]);
        StillFirst(packages, order, name, n, reasons[n]);
      } else {
        NewlyFirst(packages, order, name, n);
      }
    }
  }

  /** What the worklist keeps: all that is known is selected or queued, and dependents of the selected are known. */
  ghost predicate Work(
    packages: seq<Package>, direct: map<string, Reason>, selected: set<string>, reasons: map<string, Reason>,
    queue: seq<string>)
  {
    && reasons.Keys == selected + Queued(queue)
    && direct.Keys <= reasons.Keys <= direct.Keys + Names(packages)
    && (forall n {:trigger Reaches(packages, direct.Keys, n)} :: n in reasons ==> Reaches(packages, direct.Keys, n))
    && (forall a, b | b in selected && Edge(packages, a, b) :: a in reasons)
  }

  lemma InitialWork(packages: seq<Package>, direct: map<string, Reason>, queue: seq<string>)
    requires Queued(queue) == direct.Keys
    ensures Work(packages, direct, {}, direct, queue)
  {
    forall n | n in direct
      ensures Reaches(packages, direct.Keys, n)
    {
      DirectReaches(packages, direct.Keys, n);
    }
  }

  lemma PopQueue(queue: seq<string>)
    requires queue != []
    ensures Queued(queue) == Queued(queue[..|queue| - 1]) + {queue[|queue| - 1]}
  {
    QueuedGrows(queue[..|queue| - 1], queue[|queue| - 1]);
    assert queue == queue[..|queue| - 1] + [queue[|queue| - 1]];
  }

  lemma ReachesStep(
    packages: seq<Package>, direct: set<string>, name: string, reasons: map<string, Reason>, more: map<string, Reason>)
    requires Extends(packages, name, reasons, more) && Reaches(packages, direct, name)
    requires forall n {:trigger Reaches(packages, direct, n)} :: n in reasons ==> Reaches(packages, direct, n)
    ensures forall n {:trigger Reaches(packages, direct, n)} :: n in more ==> Reaches(packages, direct, n)
  {
    DependentsAreEdges(packages, name);
    forall n | n in more
      ensures Reaches(packages, direct, n)
    {
      if n !in reasons { DependentReaches(packages, direct, n, name); }
    }
  }

  lemma WorkStep(
    packages: seq<Package>, direct: map<string, Reason>, selected: set<string>, reasons: map<string, Reason>,
    queue: seq<string>, name: string, more: map<string, Reason>, longer: seq<string>)
    requires Work(packages, direct, selected, reasons, queue)
    requires queue != [] && name == queue[|queue| - 1]
    requires Extends(packages, name, reasons, more)
    requires Queued(longer) == Queued(queue[..|queue| - 1]) + Dependents(packages, name)
    ensures Work(packages, direct, selected + {name}, more, longer)
  {
    PopQueue(queue);
    assert name in reasons;
    ReachesStep(packages, direct.Keys, name, reasons, more);
    DependentsAreEdges(packages, name);
  }

  lemma ExplainedStep(
    packages: seq<Package>, direct: map<string, Reason>, reasons: map<string, Reason>, more: map<string, Reason>,
    name: string)
    requires AllExplained(packages, direct, reasons) && name in reasons
    requires Extends(packages, name, reasons, more)
    ensures AllExplained(packages, direct, more)
  {
    DependentsAreEdges(packages, name);
    assert Explained(packages, direct, reasons, name);
    StillExplained(packages, direct, reasons, more, name);
    forall n | n in more
      ensures Explained(packages, direct, more, n)
    {
      if n in reasons {
        assert Explained(packages, direct, reasons, n);
        StillExplained(packages, direct, reasons, more, n);
      } else {
        DependentExplained(packages, direct, more, n, name);
      }
    }
  }

  lemma WorkDone(
    packages: seq<Package>, direct: map<string, Reason>, selected: set<string>, reasons: map<string, Reason>)
    requires Work(packages, direct, selected, reasons, [])
    ensures reasons.Keys == selected
    ensures forall n :: n in selected <==> Reaches(packages, direct.Keys, n)
  {
    assert Queued([]) == {};
    forall n | Reaches(packages, direct.Keys, n)
      ensures n in selected
    {
      var path :| LeadsTo(packages, direct.Keys, path) && path[0] == n;
      ClosedHoldsReaching(packages, direct.Keys, selected, path);
    }
  }

  lemma Fewer(universe: set<string>, selected: set<string>, name: string)
    requires name in universe && name !in selected
    ensures |universe - (selected + {name})| < |universe - selected|
  {
    assert universe - selected == (universe - (selected + {name})) + {name};
  }

  /** The packages in the order they were selected, the direct ones being found in ascending order. */
  ghost predicate Visits(packages: seq<Package>, direct: set<string>, order: seq<string>) {
    exists first :: Ascending(first) && Queued(first) == direct && IsVisit(packages, first, order)
  }

  /**
   Exactly the packages that reach a direct one. Direct packages keep their reasons; any other's names the first
   visited package it depends on; so every reason leads back to a direct package.
   */
  ghost predicate IsClosure(packages: seq<Package>, direct: map<string, Reason>, reasons: map<string, Reason>) {
    && (forall n {:trigger Reaches(packages, direct.Keys, n)} :: n in reasons <==> Reaches(packages, direct.Keys, n))
    && AllExplained(packages, direct, reasons)
    && KeepsDirect(direct, reasons)
    && (exists order :: Visits(packages, direct.Keys, order) && NamesFirst(packages, direct, order, reasons))
  }

  /** What every turn of the worklist keeps. */
  ghost predicate Turning(
    packages: seq<Package>, direct: map<string, Reason>, first: seq<string>, order: seq<string>,
    reasons: map<string, Reason>, queue: seq<string>)
  {
    && Work(packages, direct, Members(order), reasons, queue)
    && AllExplained(packages, direct, reasons) && KeepsDirect(direct, reasons)
    && Stacked(packages, first, order, queue) && NamesFirst(packages, direct, order, reasons)
  }

  lemma TurnDrops(
    packages: seq<Package>, direct: map<string, Reason>, first: seq<string>, order: seq<string>,
    reasons: map<string, Reason>, queue: seq<string>)
    requires Turning(packages, direct, first, order, reasons, queue)
    requires queue != [] && queue[|queue| - 1] in order
    ensures Turning(packages, direct, first, order, reasons, queue[..|queue| - 1])
  {
    PopQueue(queue);
    StackDrops(packages, first, order, queue);
  }

  lemma TurnVisits(
    packages: seq<Package>, direct: map<string, Reason>, first: seq<string>, order: seq<string>,
    reasons: map<string, Reason>, queue: seq<string>, more: map<string, Reason>, longer: seq<string>)
    requires Turning(packages, direct, first, order, reasons, queue)
    requires queue != [] && queue[|queue| - 1] !in order
    requires Extends(packages, queue[|queue| - 1], reasons, more)
    requires longer == queue[..|queue| - 1] + DependentsOf(packages, queue[|queue| - 1])
    ensures Turning(packages, direct, first, order + [queue[|queue| - 1]], more, longer)
  {
    var name := queue[|queue| - 1];
    PopQueue(queue);
    DependentsAreQueued(packages, name, queue[..|queue| - 1]);
    WorkStep(packages, direct, Members(order), reasons, queue, name, more, longer);
    MembersGrow(order, name);
    ExplainedStep(packages, direct, reasons, more, name);
    KeepsDirectStep(packages, direct, reasons, more, name);
    StackVisits(packages, first, order, queue);
    assert forall b | b in order :: b in Members(order);
    NamesFirstStep(packages, direct, order, reasons, more, name);
  }

  lemma TurnStarts(packages: seq<Package>, direct: map<string, Reason>, first: seq<string>)
    requires Queued(first) == direct.Keys
    ensures Turning(packages, direct, first, [], direct, first)
  {
    assert Members([]) == {};
    InitialWork(packages, direct, first);
    DirectExplained(packages, direct);
    StackStarts(packages, first);
  }

  lemma TurnEnds(
    packages: seq<Package>, direct: map<string, Reason>, first: seq<string>, order: seq<string>,
    reasons: map<string, Reason>)
    requires Turning(packages, direct, first, order, reasons, [])
    requires Ascending(first) && Queued(first) == direct.Keys
    ensures IsClosure(packages, direct, reasons) && reasons.Keys == Members(order)
    ensures reasons.Keys <= direct.Keys + Names(packages)
  {
    WorkDone(packages, direct, Members(order), reasons);
    assert IsVisit(packages, first, order);
    assert Visits(packages, direct.Keys, order);
  }

  /** Visits one package that is not selected yet: a turn of the loop. */
  method Visit(
    packages: seq<Package>, ghost direct: map<string, Reason>, ghost first: seq<string>, ghost order: seq<string>,
    reasons: map<string, Reason>, queue: seq<string>)
    returns (more: map<string, Reason>, longer: seq<string>)
    requires queue != [] && queue[|queue| - 1] !in order
    ensures || !Turning(packages, direct, first, order, reasons, queue)
            || Turning(packages, direct, first, order + [queue[|queue| - 1]], more, longer)
  {
    more, longer := AddDependents(packages, queue[|queue| - 1], reasons, queue[..|queue| - 1]);
    if Turning(packages, direct, first, order, reasons, queue) {
      TurnVisits(packages, direct, first, order, reasons, queue, more, longer);
    }
  }

  method Close(packages: seq<Package>, direct: map<string, Reason>)
    returns (selected: set<string>, reasons: map<string, Reason>)
    ensures IsClosure(packages, direct, reasons)
    ensures direct.Keys <= reasons.Keys == selected <= direct.Keys + Names(packages)
  {
    var queue := Start(direct.Keys);
    selected, reasons := {}, direct;
    ghost var universe, first, order: seq<string> := direct.Keys + Names(packages), queue, [];
    TurnStarts(packages, direct, first);
    while queue != []
      invariant selected == Members(order) && Turning(packages, direct, first, order, reasons, queue)
      decreases |universe - selected|, |queue|
    {
      var name := queue[|queue| - 1];
      if name in selected {
        TurnDrops(packages, direct, first, order, reasons, queue);
        queue := queue[..|queue| - 1];
      } else {
        InUniverse(packages, direct, first, order, reasons, queue);
        reasons, queue := Visit(packages, direct, first, order, reasons, queue);
        Fewer(universe, selected, name);
        MembersGrow(order, name);
        selected, order := selected + {name}, order + [name];
      }
    }
    TurnEnds(packages, direct, first, order, reasons);
  }

  lemma InUniverse(
    packages: seq<Package>, direct: map<string, Reason>, first: seq<string>, order: seq<string>,
    reasons: map<string, Reason>, queue: seq<string>)
    requires Turning(packages, direct, first, order, reasons, queue) && queue != []
    ensures queue[|queue| - 1] in direct.Keys + Names(packages)
  {
    PopQueue(queue);
  }

  // ----- direct packages

  predicate MatchesInput(path: string, input: string) {
    if input != "" && input[|input| - 1] == '/' then input <= path else path == input
  }

  predicate IsRootPackagePath(path: string) {
    "src/" <= path || "tests/" <= path || "benches/" <= path || "examples/" <= path
  }

  predicate Owns(package: Package, path: string) {
    if package.dir == "" then IsRootPackagePath(path) else package.dir + "/" <= path
  }

  /** The owner with the longest directory; of several, the last one listed. */
  function OwnerOf(packages: seq<Package>, path: string): (owner: Option<Package>)
    ensures owner.None? <==> forall i | 0 <= i < |packages| :: !Owns(packages[i], path)
    ensures owner.Some? ==> owner.value in packages && Owns(owner.value, path)
    ensures owner.Some? ==>
              forall i | 0 <= i < |packages| && Owns(packages[i], path) :: |packages[i].dir| <= |owner.value.dir|
  {
    if packages == [] then None
    else
      var last := packages[|packages| - 1];
      var before := OwnerOf(packages[..|packages| - 1], path);
      if Owns(last, path) && (before.None? || |before.value.dir| <= |last.dir|) then Some(last) else before
  }

  /** Where the package at `i` has the longest directory of all owners, and is the last such, it is the owner. */
  lemma {:induction false} OwnerIsLast(packages: seq<Package>, path: string, i: nat)
    requires i < |packages| && Owns(packages[i], path)
    requires forall j | 0 <= j < i && Owns(packages[j], path) :: |packages[j].dir| <= |packages[i].dir|
    requires forall j | i < j < |packages| && Owns(packages[j], path) :: |packages[j].dir| < |packages[i].dir|
    ensures OwnerOf(packages, path) == Some(packages[i])
  {
    var init := packages[..|packages| - 1];
    if i < |init| {
      OwnerIsLast(init, path, i);
    }
  }

  ghost predicate IsFullInput(inputs: seq<string>, path: string) {
    exists i :: 0 <= i < |inputs| && MatchesInput(path, inputs[i])
  }

  ghost predicate IsReadBy(cross: seq<(string, string)>, path: string, name: string) {
    exists i :: 0 <= i < |cross| && cross[i].1 == name && MatchesInput(path, cross[i].0)
  }

  /** That its tests read the path counts before that it owns it. */
  ghost function ReasonFor(cross: seq<(string, string)>, path: string, name: string): Reason {
    if IsReadBy(cross, path, name) then ReadByTests(path) else Changed(path)
  }

  /** The reason names the first of the first `n` changed paths that makes the package direct. */
  ghost predicate FirstReason(
    packages: seq<Package>, cross: seq<(string, string)>, changed: seq<string>, n: nat, name: string, reason: Reason)
    requires n <= |changed|
  {
    exists i :: && 0 <= i < n && MakesDirect(packages, cross, changed[i], name)
                && (forall j | 0 <= j < i :: !MakesDirect(packages, cross, changed[j], name))
                && reason == ReasonFor(cross, changed[i], name)
  }

  /** The reason of a direct package: its first changed path, or the request when there is none. */
  ghost predicate DirectReason(
    packages: seq<Package>, cross: seq<(string, string)>, changed: seq<string>, name: string, reason: Reason)
  {
    || FirstReason(packages, cross, changed, |changed|, name, reason)
    || (reason == Forced && !SomeMakesDirect(packages, cross, changed, |changed|, name))
  }

  /** A changed path makes a package direct: its tests read the path, or it owns it. */
  ghost predicate MakesDirect(packages: seq<Package>, cross: seq<(string, string)>, path: string, name: string) {
    || IsReadBy(cross, path, name)
    || (OwnerOf(packages, path).Some? && OwnerOf(packages, path).value.name == name)
  }

  function OrInsert(direct: map<string, Reason>, name: string, reason: Reason): (more: map<string, Reason>)
    ensures more.Keys == direct.Keys + {name}
    ensures forall n | n in direct :: more[n] == direct[n]
  {
    if name in direct then direct else direct[name := reason]
  }

  method MatchesAny(inputs: seq<string>, path: string) returns (found: bool)
    ensures found <==> IsFullInput(inputs, path)
  {
    found := false;
    for i := 0 to |inputs|
      invariant found <==> exists j :: 0 <= j < i && MatchesInput(path, inputs[j])
    {
      if MatchesInput(path, inputs[i]) { found := true; }
    }
  }

  /** One changed path outside the full-scope case. */
  method DirectOf(packages: seq<Package>, cross: seq<(string, string)>, path: string, direct: map<string, Reason>)
    returns (more: map<string, Reason>)
    ensures forall n :: n in more <==> n in direct || MakesDirect(packages, cross, path, n)
    ensures forall n | n in direct :: more[n] == direct[n]
    ensures forall n | n in more && n !in direct :: more[n] == ReasonFor(cross, path, n)
  {
    more := direct;
    for i := 0 to |cross|
      invariant forall n :: n in more <==>
                  n in direct || exists j :: 0 <= j < i && cross[j].1 == n && MatchesInput(path, cross[j].0)
      invariant forall n | n in direct :: more[n] == direct[n]
      invariant forall n | n in more && n !in direct :: more[n] == ReadByTests(path)
    {
      if MatchesInput(path, cross[i].0) {
        more := OrInsert(more, cross[i].1, ReadByTests(path));
      }
    }
    var owner := OwnerOf(packages, path);
    if owner.Some? {
      more := OrInsert(more, owner.value.name, Changed(path));
    }
  }

  /** `path` is the first changed path that affects everything. */
  ghost predicate FirstFull(inputs: seq<string>, changed: seq<string>, path: string) {
    exists i :: 0 <= i < |changed| && changed[i] == path && IsFullInput(inputs, path) &&
                forall j | 0 <= j < i :: !IsFullInput(inputs, changed[j])
  }

  /** The repository's input tables, and the package whose minimal build has checks of its own. */
  datatype Tables = Tables(
    full: seq<string>, cross: seq<(string, string)>, minimalInput: string, minimalPackage: string)

  ghost predicate SomeFull(t: Tables, changed: seq<string>) {
    exists i :: 0 <= i < |changed| && IsFullInput(t.full, changed[i])
  }

  ghost predicate SomeMakesDirect(
    packages: seq<Package>, cross: seq<(string, string)>, changed: seq<string>, i: nat, name: string)
    requires i <= |changed|
  {
    exists j :: 0 <= j < i && MakesDirect(packages, cross, changed[j], name)
  }

  ghost predicate IsDirect(t: Tables, packages: seq<Package>, changed: seq<string>, forced: seq<string>, name: string) {
    name in forced || SomeMakesDirect(packages, t.cross, changed, |changed|, name)
  }

  /** Every direct package has its first changed path as the reason. */
  ghost predicate AllFirst(
    packages: seq<Package>, cross: seq<(string, string)>, changed: seq<string>, i: nat, direct: map<string, Reason>)
    requires i <= |changed|
  {
    && (forall n {:trigger SomeMakesDirect(packages, cross, changed, i, n)} ::
          n in direct <==> SomeMakesDirect(packages, cross, changed, i, n))
    && (forall n {:trigger FirstReason(packages, cross, changed, i, n, direct[n])} ::
          n in direct ==> FirstReason(packages, cross, changed, i, n, direct[n]))
  }

  lemma AllFirstStep(
    packages: seq<Package>, cross: seq<(string, string)>, changed: seq<string>, i: nat,
    direct: map<string, Reason>, more: map<string, Reason>)
    requires i < |changed| && AllFirst(packages, cross, changed, i, direct)
    requires forall n :: n in more <==> n in direct || MakesDirect(packages, cross, changed[i], n)
    requires forall n | n in direct :: more[n] == direct[n]
    requires forall n | n in more && n !in direct :: more[n] == ReasonFor(cross, changed[i], n)
    ensures AllFirst(packages, cross, changed, i + 1, more)
  {
    forall n
      ensures n in more <==> SomeMakesDirect(packages, cross, changed, i + 1, n)
    {
      assert n in direct <==> SomeMakesDirect(packages, cross, changed, i, n);
    }
    forall n | n in more
      ensures FirstReason(packages, cross, changed, i + 1, n, more[n])
    {
      assert n in direct <==> SomeMakesDirect(packages, cross, changed, i, n);
      if n in direct {
        assert FirstReason(packages, cross, changed, i, n, direct[n]);
      }
    }
  }

  method DirectNext(
    packages: seq<Package>, cross: seq<(string, string)>, changed: seq<string>, i: nat, direct: map<string, Reason>)
    returns (more: map<string, Reason>)
    requires i < |changed|
    ensures !AllFirst(packages, cross, changed, i, direct) || AllFirst(packages, cross, changed, i + 1, more)
  {
    more := DirectOf(packages, cross, changed[i], direct);
    if AllFirst(packages, cross, changed, i, direct) {
      AllFirstStep(packages, cross, changed, i, direct, more);
    }
  }

  /** `full` is the first full-scope input among the first i changed paths, if there is one. */
  ghost predicate FullSoFar(inputs: seq<string>, changed: seq<string>, i: nat, full: Option<string>)
    requires i <= |changed|
  {
    match full
    case None => forall j | 0 <= j < i :: !IsFullInput(inputs, changed[j])
    case Some(path) => FirstFull(inputs, changed, path) && exists j :: 0 <= j < i && IsFullInput(inputs, changed[j])
  }

  /** What the next changed path does to the first full-scope input. */
  method FullNext(inputs: seq<string>, changed: seq<string>, i: nat, full: Option<string>)
    returns (next: Option<string>)
    requires i < |changed| && FullSoFar(inputs, changed, i, full)
    ensures FullSoFar(inputs, changed, i + 1, next) && (full.Some? ==> next == full)
  {
    next := full;
    if full.None? {
      var isFull := MatchesAny(inputs, changed[i]);
      if isFull { next := Some(changed[i]); }
    }
  }

  /** One changed path: it is the first full-scope input, or may make packages direct. */
  method PathNext(
    t: Tables, packages: seq<Package>, changed: seq<string>, i: nat, full: Option<string>, direct: map<string, Reason>)
    returns (next: Option<string>, more: map<string, Reason>)
    requires i < |changed| && FullSoFar(t.full, changed, i, full)
    requires full.Some? || AllFirst(packages, t.cross, changed, i, direct)
    ensures FullSoFar(t.full, changed, i + 1, next)
    ensures next.Some? || AllFirst(packages, t.cross, changed, i + 1, more)
  {
    next := FullNext(t.full, changed, i, full);
    if next == full {
      more := DirectNext(packages, t.cross, changed, i, direct);
    } else {
      more := direct;
    }
  }

  /** The packages direct by a changed path, and the first full-scope input among the changed paths. */
  method ClassifyChanged(t: Tables, packages: seq<Package>, changed: seq<string>)
    returns (direct: map<string, Reason>, full: Option<string>, minimal: bool)
    ensures FullSoFar(t.full, changed, |changed|, full)
    ensures full.Some? || AllFirst(packages, t.cross, changed, |changed|, direct)
    ensures minimal <==> exists i :: 0 <= i < |changed| && t.minimalInput <= changed[i]
  {
    direct, full, minimal := map[], None, false;
    for i := 0 to |changed|
      invariant FullSoFar(t.full, changed, i, full)
      invariant full.Some? || AllFirst(packages, t.cross, changed, i, direct)
      invariant minimal <==> exists j :: 0 <= j < i && t.minimalInput <= changed[j]
    {
      if t.minimalInput <= changed[i] { minimal := true; }
      full, direct := PathNext(t, packages, changed, i, full, direct);
    }
  }

  /** The requested packages are direct as well, with a reason of their own only where there is none. */
  method AddForced(changedOnly: map<string, Reason>, forced: seq<string>) returns (direct: map<string, Reason>)
    ensures forall n :: n in direct <==> n in changedOnly || n in forced
    ensures forall n | n in direct :: direct[n] == if n in changedOnly then changedOnly[n] else Forced
  {
    direct := changedOnly;
    for i := 0 to |forced|
      invariant forall n :: n in direct <==> n in changedOnly || n in forced[..i]
      invariant forall n | n in direct :: direct[n] == if n in changedOnly then changedOnly[n] else Forced
    {
      direct := OrInsert(direct, forced[i], Forced);
    }
    assert forced[..|forced|] == forced;
  }

  /** The direct packages with their reasons, exactly. */
  ghost predicate DirectOk(
    t: Tables, packages: seq<Package>, changed: seq<string>, forced: seq<string>, direct: map<string, Reason>)
  {
    && (forall n :: n in direct <==> IsDirect(t, packages, changed, forced, n))
    && (forall n {:trigger direct[n]} :: n in direct ==> DirectReason(packages, t.cross, changed, n, direct[n]))
  }

  method Classify(t: Tables, packages: seq<Package>, changed: seq<string>, forced: seq<string>)
    returns (direct: map<string, Reason>, full: Option<string>, minimal: bool)
    ensures full.None? <==> !SomeFull(t, changed)
    ensures full.Some? ==> FirstFull(t.full, changed, full.value)
    ensures full.Some? || DirectOk(t, packages, changed, forced, direct)
    ensures minimal <==> exists i :: 0 <= i < |changed| && t.minimalInput <= changed[i]
  {
    var changedOnly;
    changedOnly, full, minimal := ClassifyChanged(t, packages, changed);
    direct := AddForced(changedOnly, forced);
    if full.None? {
      forall n
        ensures n in direct <==> IsDirect(t, packages, changed, forced, n)
        ensures n in direct ==> DirectReason(packages, t.cross, changed, n, direct[n])
      {
        assert n in changedOnly <==> SomeMakesDirect(packages, t.cross, changed, |changed|, n);
        if n in changedOnly {
          assert FirstReason(packages, t.cross, changed, |changed|, n, changedOnly[n]);
        }
      }
    }
  }

  // ----- the selection

  ghost predicate UniqueNames(packages: seq<Package>) {
    forall i, j | 0 <= i < j < |packages| :: packages[i].name != packages[j].name
  }

  lemma NamesSplit(packages: seq<Package>)
    requires packages != []
    ensures Names(packages) == Names(packages[..|packages| - 1]) + {packages[|packages| - 1].name}
  {
    var init, last := packages[..|packages| - 1], packages[|packages| - 1];
    forall n | n in Names(packages)
      ensures n in Names(init) + {last.name}
    {
      var i :| 0 <= i < |packages| && packages[i].name == n;
      assert i < |init| ==> init[i].name == n;
    }
    forall n | n in Names(init)
      ensures n in Names(packages)
    {
      var i :| 0 <= i < |init| && init[i].name == n;
      assert packages[i].name == n;
    }
  }

  lemma {:induction false} NamesCount(packages: seq<Package>)
    requires UniqueNames(packages)
    ensures |Names(packages)| == |packages|
  {
    if packages != [] {
      NamesCount(packages[..|packages| - 1]);
      NamesSplit(packages);
      assert packages[|packages| - 1].name !in Names(packages[..|packages| - 1]);
    } else {
      assert Names(packages) == {};
    }
  }

  /** Counting is enough to see that everything is selected, when names are unique and direct ones known. */
  lemma FullMeansAll(packages: seq<Package>, selected: set<string>)
    requires UniqueNames(packages) && selected <= Names(packages)
    ensures |selected| == |packages| <==> selected == Names(packages)
  {
    NamesCount(packages);
    SubsetSize(selected, Names(packages));
  }

  /** A full-scope input was changed: everything is selected, with the first such input as the reason. */
  ghost predicate FullSelection(t: Tables, changed: seq<string>, s: Selection) {
    && s.scope == Full && s.minimalProvider
    && exists path :: FirstFull(t.full, changed, path) && s.reasons == map["*" := AffectsAll(path)]
  }

  /** Otherwise: exactly the packages that reach a direct one, each for a reason that leads back to a direct one. */
  ghost predicate ClosedSelection(
    t: Tables, packages: seq<Package>, changed: seq<string>, direct: map<string, Reason>, s: Selection)
  {
    && IsClosure(packages, direct, s.reasons)
    && s.scope == (if s.reasons == map[] then Nothing
                   else if |s.reasons.Keys| == |packages| then Full
                   else Packages(s.reasons.Keys))
    && (s.minimalProvider <==>
          t.minimalPackage in s.reasons && exists i :: 0 <= i < |changed| && t.minimalInput <= changed[i])
  }

  method Select(t: Tables, packages: seq<Package>, changed: seq<string>, forced: seq<string>)
    returns (s: Selection, ghost direct: map<string, Reason>)
    ensures SomeFull(t, changed) ==> FullSelection(t, changed, s)
    ensures !SomeFull(t, changed) ==>
              && DirectOk(t, packages, changed, forced, direct)
              && ClosedSelection(t, packages, changed, direct, s)
  {
    var d, full, minimal := Classify(t, packages, changed, forced);
    direct := d;
    if full.Some? {
      return Selection(Full, map["*" := AffectsAll(full.value)], true), direct;
    }
    var selected, reasons := Close(packages, d);
    var scope :=
      if selected == {} then Nothing
      else if |selected| == |packages| then Full
      else Packages(selected);
    s := Selection(scope, reasons, minimal && t.minimalPackage in selected);
  }

  lemma VisitsAreUnique(packages: seq<Package>, direct: set<string>, order: seq<string>, other: seq<string>)
    requires Visits(packages, direct, order) && Visits(packages, direct, other)
    ensures order == other
  {
    var first :| Ascending(first) && Queued(first) == direct && IsVisit(packages, first, order);
    var second :| Ascending(second) && Queued(second) == direct && IsVisit(packages, second, other);
    forall k
      ensures k in first <==> k in second
    {
      assert k in Queued(first) <==> k in Queued(second);
    }
    AscendingIsUnique(first, second);
    VisitIsUnique(packages, first, order, other);
  }

  lemma FirstFoundIsUnique(packages: seq<Package>, order: seq<string>, name: string, reason: Reason, other: Reason)
    requires FirstFound(packages, order, name, reason) && FirstFound(packages, order, name, other)
    ensures reason == other
  {
  }

  lemma ClosureIsUnique(
    packages: seq<Package>, direct: map<string, Reason>, reasons: map<string, Reason>, other: map<string, Reason>)
    requires IsClosure(packages, direct, reasons) && IsClosure(packages, direct, other)
    ensures reasons == other
  {
    var a :| Visits(packages, direct.Keys, a) && NamesFirst(packages, direct, a, reasons);
    var b :| Visits(packages, direct.Keys, b) && NamesFirst(packages, direct, b, other);
    VisitsAreUnique(packages, direct.Keys, a, b);
    SameNames(packages, direct, reasons, other);
    SameReasons(packages, direct, a, reasons, other);
  }

  lemma SameReasons(
    packages: seq<Package>, direct: map<string, Reason>, order: seq<string>, reasons: map<string, Reason>,
    other: map<string, Reason>)
    requires KeepsDirect(direct, reasons) && NamesFirst(packages, direct, order, reasons)
    requires KeepsDirect(direct, other) && NamesFirst(packages, direct, order, other)
    requires reasons.Keys == other.Keys
    ensures reasons == other
  {
    forall n | n in reasons && n !in direct
      ensures reasons[n] == other[n]
    {
      assert FirstFound(packages, order, n, reasons[n]) && FirstFound(packages, order, n, other[n]);
      FirstFoundIsUnique(packages, order, n, reasons[n], other[n]);
    }
  }

  lemma SameNames(
    packages: seq<Package>, direct: map<string, Reason>, reasons: map<string, Reason>, other: map<string, Reason>)
    requires IsClosure(packages, direct, reasons) && IsClosure(packages, direct, other)
    ensures reasons.Keys == other.Keys
  {
    forall n
      ensures n in reasons <==> n in other
    {
      assert n in reasons <==> Reaches(packages, direct.Keys, n);
    }
  }

  /** The direct packages and their reasons determine the whole selection, the order of the worklist included. */
  lemma SelectionIsUnique(
    t: Tables, packages: seq<Package>, changed: seq<string>, direct: map<string, Reason>, s: Selection,
    other: Selection)
    requires ClosedSelection(t, packages, changed, direct, s) && ClosedSelection(t, packages, changed, direct, other)
    ensures s == other
  {
    ClosureIsUnique(packages, direct, s.reasons, other.reasons);
  }

  /** And the changed paths and requests determine those. */
  lemma DirectIsUnique(
    t: Tables, packages: seq<Package>, changed: seq<string>, forced: seq<string>, direct: map<string, Reason>,
    other: map<string, Reason>)
    requires DirectOk(t, packages, changed, forced, direct) && DirectOk(t, packages, changed, forced, other)
    ensures direct == other
  {
    forall n
      ensures n in direct <==> n in other
      ensures n in direct ==> direct[n] == other[n]
    {
      assert n in direct <==> IsDirect(t, packages, changed, forced, n);
      assert n in other <==> IsDirect(t, packages, changed, forced, n);
      if n in direct {
        DirectReasonIsUnique(packages, t.cross, changed, n, direct[n], other[n]);
      }
    }
  }

  lemma DirectReasonIsUnique(
    packages: seq<Package>, cross: seq<(string, string)>, changed: seq<string>, name: string, reason: Reason,
    other: Reason)
    requires DirectReason(packages, cross, changed, name, reason) && DirectReason(packages, cross, changed, name, other)
    ensures reason == other
  {
  }

  /** So a chain of reasons stops exactly at the direct packages. */
  lemma ChainsStopAtDirect(
    t: Tables, packages: seq<Package>, changed: seq<string>, forced: seq<string>, direct: map<string, Reason>,
    reasons: map<string, Reason>, name: string)
    requires DirectOk(t, packages, changed, forced, direct) && KeepsDirect(direct, reasons) && name in reasons
    ensures reasons[name].DependsOn? <==> !IsDirect(t, packages, changed, forced, name)
  {
    if name in direct {
      NoDependency(packages, t.cross, changed, name, direct[name]);
    }
  }

  /** The reason of a direct package can be taken at its word; that tests read the path counts before ownership. */
  lemma {:induction false} DirectReasonHolds(
    t: Tables, packages: seq<Package>, changed: seq<string>, forced: seq<string>, direct: map<string, Reason>,
    name: string)
    requires DirectOk(t, packages, changed, forced, direct) && name in direct
    ensures match direct[name]
            case ReadByTests(path) =>
              && path in changed
              && exists k :: 0 <= k < |t.cross| && t.cross[k].1 == name && MatchesInput(path, t.cross[k].0)
            case Changed(path) =>
              && path in changed
              && (exists k :: 0 <= k < |packages| && packages[k].name == name && Owns(packages[k], path))
              && forall k | 0 <= k < |t.cross| :: !(t.cross[k].1 == name && MatchesInput(path, t.cross[k].0))
            case Forced => name in forced
            case _ => false
  {
    assert DirectReason(packages, t.cross, changed, name, direct[name]);
    assert IsDirect(t, packages, changed, forced, name);
    if FirstReason(packages, t.cross, changed, |changed|, name, direct[name]) {
      var i :| 0 <= i < |changed| && MakesDirect(packages, t.cross, changed[i], name) &&
               direct[name] == ReasonFor(t.cross, changed[i], name);
      assert changed[i] in changed;
      var owner := OwnerOf(packages, changed[i]);
      if owner.Some? && owner.value.name == name {
        var k :| 0 <= k < |packages| && packages[k] == owner.value;
        assert packages[k].name == name && Owns(packages[k], changed[i]);
      }
    }
  }

  lemma NoDependency(
    packages: seq<Package>, cross: seq<(string, string)>, changed: seq<string>, name: string, reason: Reason)
    requires DirectReason(packages, cross, changed, name, reason)
    ensures !reason.DependsOn?
  {
  }

  // ----- which paths belong to what

  /** A package owns what is below its directory and nothing that merely starts with the same letters. */
  lemma OwnsBelow(package: Package, path: string)
    requires package.dir != ""
    ensures Owns(package, path) <==> exists rest :: path == package.dir + "/" + rest
  {
    if Owns(package, path) {
      assert path == package.dir + "/" + path[|package.dir| + 1..];
    }
  }

  /** The root package owns the four source directories at the top. */
  lemma RootOwns(package: Package, path: string)
    requires package.dir == ""
    ensures Owns(package, path) <==>
              exists top, rest :: top in ["src", "tests", "benches", "examples"] && path == top + "/" + rest
  {
    if Owns(package, path) {
      var n := if "src/" <= path then 3 else if "tests/" <= path then 5 else if "benches/" <= path then 7 else 8;
      var top, rest := path[..n], path[n + 1..];
      assert path == top + "/" + rest;
      assert top == "src" || top == "tests" || top == "benches" || top == "examples";
      assert ["src", "tests", "benches", "examples"][0] == "src";
      assert ["src", "tests", "benches", "examples"][1] == "tests";
      assert ["src", "tests", "benches", "examples"][2] == "benches";
      assert ["src", "tests", "benches", "examples"][3] == "examples";
    }
    if top, rest :| top in ["src", "tests", "benches", "examples"] && path == top + "/" + rest {
      assert top + "/" <= path;
    }
  }

  /** An input that ends in a slash stands for everything below it, any other for itself alone. */
  lemma InputsMatch(path: string, input: string)
    ensures MatchesInput(path, input + "/") <==> exists rest :: path == input + "/" + rest
    ensures (input == "" || input[|input| - 1] != '/') ==> (MatchesInput(path, input) <==> path == input)
  {
    if MatchesInput(path, input + "/") {
      assert path == input + "/" + path[|input| + 1..];
    }
  }
}
