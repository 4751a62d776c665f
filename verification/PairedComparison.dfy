/**
 Pairing two evaluation jobs trial by trial and counting the four outcome cells. Trials are
 grouped by task, each arm is sorted by trial name within its task, and the k-th trial of one arm
 meets the k-th of the other.
 */
module PairedComparison {
  import opened Options
  import opened Sorting
  import opened Text
  import opened Keys

  datatype Trial = Trial(
    task: string, name: string, checksum: string, workspace: Option<string>, passed: bool, cost: Option<real>)

  datatype TrialPair = TrialPair(baseline: Trial, candidate: Trial)

  datatype Mismatch = AttemptCounts(task: string) | Checksums(task: string) | Workspaces(task: string)

  datatype Result<T> = Ok(value: T) | Err(error: Mismatch)

  datatype Cells = Cells(bothPassed: nat, bothFailed: nat, baselineOnly: nat, candidateOnly: nat)

  // ----- order of names

  const BY_NAME := (a: Trial, b: Trial) => Le(a.name, b.name)

  /** Sorting by trial name is stable, as the library's sort is. */
  function SortByName(s: seq<Trial>): seq<Trial> { Sort(s, BY_NAME) }

  lemma NamesAreOrdered()
    ensures TotalOrder(BY_NAME)
  {
    forall a: Trial, b: Trial
      ensures BY_NAME(a, b) || BY_NAME(b, a)
    {
      LeTotal(a.name, b.name);
    }
    forall a: Trial, b: Trial, c: Trial | BY_NAME(a, b) && BY_NAME(b, c)
      ensures BY_NAME(a, c)
    {
      LeTransitive(a.name, b.name, c.name);
    }
  }

  /** Sorting gives the same trials in order. */
  lemma SortByNameSorts(s: seq<Trial>)
    ensures forall i, j | 0 <= i < j < |s| :: Le(SortByName(s)[i].name, SortByName(s)[j].name)
    ensures |SortByName(s)| == |s| && multiset(SortByName(s)) == multiset(s)
  {
    NamesAreOrdered();
    SortSorts(s, BY_NAME);
    forall i, j | 0 <= i < j < |s|
      ensures Le(SortByName(s)[i].name, SortByName(s)[j].name)
    {
      assert BY_NAME(Sort(s, BY_NAME)[i], Sort(s, BY_NAME)[j]);
    }
  }

  // ----- grouping by task

  function Of(trials: seq<Trial>, task: string): seq<Trial> {
    if trials == [] then []
    else Of(trials[..|trials| - 1], task) +
         if trials[|trials| - 1].task == task then [trials[|trials| - 1]] else []
  }

  function Among(trials: seq<Trial>, tasks: set<string>): seq<Trial> {
    if trials == [] then []
    else Among(trials[..|trials| - 1], tasks) +
         if trials[|trials| - 1].task in tasks then [trials[|trials| - 1]] else []
  }

  lemma {:induction false} OfHasTask(trials: seq<Trial>, task: string)
    ensures forall t | t in Of(trials, task) :: t.task == task && t in trials
  {
    if trials != [] {
      OfHasTask(trials[..|trials| - 1], task);
    }
  }

  lemma {:induction false} AmongGrows(trials: seq<Trial>, tasks: set<string>, task: string)
    requires task !in tasks
    ensures multiset(Among(trials, tasks + {task})) == multiset(Among(trials, tasks)) + multiset(Of(trials, task))
  {
    if trials != [] {
      AmongGrows(trials[..|trials| - 1], tasks, task);
    }
  }

  lemma {:induction false} AmongAll(trials: seq<Trial>, tasks: set<string>)
    requires forall t | t in trials :: t.task in tasks
    ensures Among(trials, tasks) == trials
  {
    if trials != [] {
      AmongAll(trials[..|trials| - 1], tasks);
      assert trials == trials[..|trials| - 1] + [trials[|trials| - 1]];
    }
  }

  lemma {:induction false} AmongNone(trials: seq<Trial>)
    ensures Among(trials, {}) == []
  {
    if trials != [] {
      AmongNone(trials[..|trials| - 1]);
    }
  }

  // ----- pairing

  predicate Comparable(a: Trial, b: Trial) {
    a.checksum == b.checksum && (a.workspace.Some? && b.workspace.Some? ==> a.workspace == b.workspace)
  }

  /** The two arms of one task can be paired: as many attempts, and every pair comparable. */
  ghost predicate TaskOk(baseline: seq<Trial>, candidate: seq<Trial>, task: string) {
    var left, right := SortByName(Of(baseline, task)), SortByName(Of(candidate, task));
    |left| == |right| && forall i | 0 <= i < |left| :: Comparable(left[i], right[i])
  }

  function Zip(left: seq<Trial>, right: seq<Trial>): (pairs: seq<TrialPair>)
    requires |left| == |right|
    ensures |pairs| == |left|
    ensures forall i | 0 <= i < |pairs| :: pairs[i] == TrialPair(left[i], right[i])
  {
    seq(|left|, i requires 0 <= i < |left| && |left| == |right| => TrialPair(left[i], right[i]))
  }

  function Baselines(pairs: seq<TrialPair>): (s: seq<Trial>)
    ensures |s| == |pairs| && forall i | 0 <= i < |s| :: s[i] == pairs[i].baseline
  {
    seq(|pairs|, i requires 0 <= i < |pairs| => pairs[i].baseline)
  }

  function Candidates(pairs: seq<TrialPair>): (s: seq<Trial>)
    ensures |s| == |pairs| && forall i | 0 <= i < |s| :: s[i] == pairs[i].candidate
  {
    seq(|pairs|, i requires 0 <= i < |pairs| => pairs[i].candidate)
  }

  /** The error names the task and what is wrong with it: the counts, or what the first pair that differs differs in. */
  ghost predicate IsFirstMismatch(left: seq<Trial>, right: seq<Trial>, task: string, error: Mismatch) {
    match error
    case AttemptCounts(named) => named == task && |left| != |right|
    case Checksums(named) =>
      && named == task && |left| == |right|
      && exists i :: && 0 <= i < |left| && left[i].checksum != right[i].checksum
                     && forall j | 0 <= j < i :: Comparable(left[j], right[j])
    case Workspaces(named) =>
      && named == task && |left| == |right|
      && exists i :: && 0 <= i < |left| && left[i].checksum == right[i].checksum
                     && left[i].workspace.Some? && right[i].workspace.Some?
                     && left[i].workspace.value != right[i].workspace.value
                     && forall j | 0 <= j < i :: Comparable(left[j], right[j])
  }

  method PairTask(left: seq<Trial>, right: seq<Trial>, task: string) returns (r: Result<seq<TrialPair>>)
    ensures r.Ok? <==> |left| == |right| && forall i | 0 <= i < |left| :: Comparable(left[i], right[i])
    ensures r.Ok? ==> r.value == Zip(left, right)
    ensures r.Err? ==> IsFirstMismatch(left, right, task, r.error)
  {
    if |left| != |right| {
      return Err(AttemptCounts(task));
    }
    var pairs: seq<TrialPair> := [];
    for i := 0 to |left|
      invariant pairs == Zip(left, right)[..i]
      invariant forall j | 0 <= j < i :: Comparable(left[j], right[j])
    {
      if left[i].checksum != right[i].checksum {
        return Err(Checksums(task));
      }
      if left[i].workspace.Some? && right[i].workspace.Some? && left[i].workspace != right[i].workspace {
        return Err(Workspaces(task));
      }
      pairs := pairs + [TrialPair(left[i], right[i])];
    }
    return Ok(pairs);
  }

  // ----- task keys in ascending order

  function KeysOf(trials: seq<Trial>): seq<string> {
    if trials == [] then [] else InsertKey(KeysOf(trials[..|trials| - 1]), trials[|trials| - 1].task)
  }

  lemma {:induction false} KeysOfTrials(trials: seq<Trial>)
    ensures Ascending(KeysOf(trials))
    ensures forall k :: k in KeysOf(trials) <==> exists i :: 0 <= i < |trials| && trials[i].task == k
  {
    if trials != [] {
      var init, last := trials[..|trials| - 1], trials[|trials| - 1];
      KeysOfTrials(init);
      InsertKeyAscends(KeysOf(init), last.task);
      InsertKeyKeeps(KeysOf(init), last.task);
      forall k | k in KeysOf(trials)
        ensures exists i :: 0 <= i < |trials| && trials[i].task == k
      {
        if k == last.task {
          assert trials[|trials| - 1].task == k;
        } else {
          var i :| 0 <= i < |init| && init[i].task == k;
          assert trials[i].task == k;
        }
      }
      forall i | 0 <= i < |trials|
        ensures trials[i].task in KeysOf(trials)
      {
        if i < |init| { assert init[i].task in KeysOf(init); }
      }
    }
  }

  // ----- the whole comparison

  ghost predicate AllOk(baseline: seq<Trial>, candidate: seq<Trial>, keys: seq<string>) {
    forall i | 0 <= i < |keys| :: TaskOk(baseline, candidate, keys[i])
  }

  ghost function PairsOf(baseline: seq<Trial>, candidate: seq<Trial>, keys: seq<string>): seq<TrialPair>
    requires AllOk(baseline, candidate, keys)
  {
    if keys == [] then []
    else
      var task := keys[|keys| - 1];
      PairsOf(baseline, candidate, keys[..|keys| - 1]) +
      Zip(SortByName(Of(baseline, task)), SortByName(Of(candidate, task)))
  }

  lemma OfGrows(trials: seq<Trial>, i: nat)
    requires i < |trials|
    ensures forall k :: Of(trials[..i + 1], k) == Of(trials[..i], k) + if trials[i].task == k then [trials[i]] else []
  {
    assert trials[..i + 1][..i] == trials[..i];
  }

  /** One arm by task: what the entries of the task map hold for it. */
  method Group(trials: seq<Trial>) returns (byTask: map<string, seq<Trial>>)
    ensures forall k | k in byTask :: byTask[k] == Of(trials, k)
    ensures forall k | k !in byTask :: Of(trials, k) == []
  {
    byTask := map[];
    for i := 0 to |trials|
      invariant forall k | k in byTask :: byTask[k] == Of(trials[..i], k)
      invariant forall k | k !in byTask :: Of(trials[..i], k) == []
    {
      OfGrows(trials, i);
      var t := trials[i];
      byTask := byTask[t.task := (if t.task in byTask then byTask[t.task] else []) + [t]];
    }
    assert trials[..|trials|] == trials;
  }

  lemma OneMoreTask(baseline: seq<Trial>, candidate: seq<Trial>, keys: seq<string>, i: nat)
    requires i < |keys| && AllOk(baseline, candidate, keys[..i])
    ensures AllOk(baseline, candidate, keys[..i + 1]) <==> TaskOk(baseline, candidate, keys[i])
    ensures TaskOk(baseline, candidate, keys[i]) ==>
              PairsOf(baseline, candidate, keys[..i + 1]) ==
              PairsOf(baseline, candidate, keys[..i]) +
              Zip(SortByName(Of(baseline, keys[i])), SortByName(Of(candidate, keys[i])))
  {
    var more := keys[..i + 1];
    assert more[..i] == keys[..i] && more[i] == keys[i];
    if TaskOk(baseline, candidate, keys[i]) {
      forall j | 0 <= j < |more|
        ensures TaskOk(baseline, candidate, more[j])
      {
        assert j < i ==> more[j] == keys[..i][j];
      }
    }
  }

  /** Succeeds exactly when every task's arms can be paired; then the pairs are the tasks' zips in key order. */
  method PairTrials(baseline: seq<Trial>, candidate: seq<Trial>) returns (r: Result<seq<TrialPair>>)
    ensures r.Ok? <==> AllOk(baseline, candidate, KeysOf(baseline + candidate))
    ensures r.Ok? ==> r.value == PairsOf(baseline, candidate, KeysOf(baseline + candidate))
    ensures r.Err? ==>
              var keys := KeysOf(baseline + candidate);
              exists i :: && 0 <= i < |keys| && AllOk(baseline, candidate, keys[..i])
                          && IsFirstMismatch(SortByName(Of(baseline, keys[i])), SortByName(Of(candidate, keys[i])),
                                             keys[i], r.error)
  {
    var lefts := Group(baseline);
    var rights := Group(candidate);
    var keys := KeysOf(baseline + candidate);
    var pairs: seq<TrialPair> := [];
    for i := 0 to |keys|
      invariant AllOk(baseline, candidate, keys[..i])
      invariant pairs == PairsOf(baseline, candidate, keys[..i])
    {
      var task := keys[i];
      var left := SortByName(if task in lefts then lefts[task] else []);
      var right := SortByName(if task in rights then rights[task] else []);
      var more := PairTask(left, right, task);
      OneMoreTask(baseline, candidate, keys, i);
      if more.Err? {
        assert !TaskOk(baseline, candidate, keys[i]);
        return Err(more.error);
      }
      pairs := pairs + more.value;
    }
    assert keys[..|keys|] == keys;
    return Ok(pairs);
  }

  method CountCells(pairs: seq<TrialPair>) returns (cells: Cells)
    ensures cells == CellsOf(pairs)
  {
    cells := Cells(0, 0, 0, 0);
    for i := 0 to |pairs|
      invariant cells == CellsOf(pairs[..i])
    {
      assert pairs[..i + 1][..i] == pairs[..i];
      cells := Tally(cells, pairs[i]);
    }
    assert pairs[..|pairs|] == pairs;
  }

  function Tally(c: Cells, p: TrialPair): Cells {
    if p.baseline.passed && p.candidate.passed then c.(bothPassed := c.bothPassed + 1)
    else if !p.baseline.passed && !p.candidate.passed then c.(bothFailed := c.bothFailed + 1)
    else if p.baseline.passed then c.(baselineOnly := c.baselineOnly + 1)
    else c.(candidateOnly := c.candidateOnly + 1)
  }

  function CellsOf(pairs: seq<TrialPair>): Cells {
    if pairs == [] then Cells(0, 0, 0, 0)
    else Tally(CellsOf(pairs[..|pairs| - 1]), pairs[|pairs| - 1])
  }

  /** The passes a job report counts. */
  function Passes(trials: seq<Trial>): nat {
    if trials == [] then 0
    else Passes(trials[..|trials| - 1]) + if trials[|trials| - 1].passed then 1 else 0
  }

  method CountPasses(trials: seq<Trial>) returns (passes: nat)
    ensures passes == Passes(trials)
  {
    passes := 0;
    for i := 0 to |trials|
      invariant passes == Passes(trials[..i])
    {
      assert trials[..i + 1][..i] == trials[..i];
      passes := passes + if trials[i].passed then 1 else 0;
    }
    assert trials[..|trials|] == trials;
  }

  // ----- conservation

  lemma {:induction false} PassesAdd(a: seq<Trial>, b: seq<Trial>)
    ensures Passes(a + b) == Passes(a) + Passes(b)
  {
    if b == [] {
      assert a + b == a;
    } else {
      assert (a + b)[..|a + b| - 1] == a + b[..|b| - 1];
      PassesAdd(a, b[..|b| - 1]);
    }
  }

  lemma PassesAround(before: seq<Trial>, t: Trial, after: seq<Trial>)
    ensures Passes(before + [t] + after) == Passes(before + after) + if t.passed then 1 else 0
  {
    PassesAdd(before + [t], after);
    PassesAdd(before, [t]);
    PassesAdd(before, after);
    assert [t][..0] == [];
  }

  lemma SplitAt(trials: seq<Trial>, i: nat)
    requires i < |trials|
    ensures trials == trials[..i] + [trials[i]] + trials[i + 1..]
  {
  }

  lemma PassesDropOne(trials: seq<Trial>, i: nat)
    requires i < |trials|
    ensures Passes(trials) == Passes(trials[..i] + trials[i + 1..]) + if trials[i].passed then 1 else 0
  {
    SplitAt(trials, i);
    PassesAround(trials[..i], trials[i], trials[i + 1..]);
  }

  lemma {:induction false} PassesOfPermutation(a: seq<Trial>, b: seq<Trial>)
    requires multiset(a) == multiset(b)
    ensures Passes(a) == Passes(b) && |a| == |b|
  {
    if a == [] {
      assert multiset(b) == multiset{};
      assert |multiset(b)| == |b|;
    } else {
      var init, last := a[..|a| - 1], a[|a| - 1];
      assert a == init + [last];
      assert last in multiset(b);
      var i :| 0 <= i < |b| && b[i] == last;
      DropOne(b, i);
      assert multiset(init) == multiset(a) - multiset{last};
      PassesOfPermutation(init, b[..i] + b[i + 1..]);
      PassesDropOne(b, i);
    }
  }

  lemma DropOne(b: seq<Trial>, i: nat)
    requires i < |b|
    ensures multiset(b[..i] + b[i + 1..]) == multiset(b) - multiset{b[i]}
  {
    assert b == b[..i] + [b[i]] + b[i + 1..];
  }

  lemma SidesOfPairs(pairs: seq<TrialPair>, left: seq<Trial>, right: seq<Trial>)
    requires |left| == |right|
    ensures Baselines(pairs + Zip(left, right)) == Baselines(pairs) + left
    ensures Candidates(pairs + Zip(left, right)) == Candidates(pairs) + right
  {
  }

  lemma PairsGrow(baseline: seq<Trial>, candidate: seq<Trial>, pairs: seq<TrialPair>, task: string)
    requires TaskOk(baseline, candidate, task)
    ensures var more := pairs + Zip(SortByName(Of(baseline, task)), SortByName(Of(candidate, task)));
            && multiset(Baselines(more)) == multiset(Baselines(pairs)) + multiset(Of(baseline, task))
            && multiset(Candidates(more)) == multiset(Candidates(pairs)) + multiset(Of(candidate, task))
  {
    SortByNameSorts(Of(baseline, task));
    SortByNameSorts(Of(candidate, task));
    SidesOfPairs(pairs, SortByName(Of(baseline, task)), SortByName(Of(candidate, task)));
  }

  ghost function KeySet(keys: seq<string>): set<string> { set k | k in keys }

  lemma {:induction false} PairsCoverTasks(baseline: seq<Trial>, candidate: seq<Trial>, keys: seq<string>)
    requires AllOk(baseline, candidate, keys) && Ascending(keys)
    ensures var pairs := PairsOf(baseline, candidate, keys);
            && multiset(Baselines(pairs)) == multiset(Among(baseline, KeySet(keys)))
            && multiset(Candidates(pairs)) == multiset(Among(candidate, KeySet(keys)))
  {
    if keys == [] {
      assert KeySet(keys) == {};
      AmongNone(baseline);
      AmongNone(candidate);
    } else {
      var init, task := keys[..|keys| - 1], keys[|keys| - 1];
      PairsCoverTasks(baseline, candidate, init);
      PairsGrow(baseline, candidate, PairsOf(baseline, candidate, init), task);
      assert KeySet(keys) == KeySet(init) + {task};
      AmongGrows(baseline, KeySet(init), task);
      AmongGrows(candidate, KeySet(init), task);
    }
  }

  /** The pairing is a bijection: each arm's trials occur in the pairs exactly as often as in the job. */
  lemma PairingIsBijection(baseline: seq<Trial>, candidate: seq<Trial>)
    requires AllOk(baseline, candidate, KeysOf(baseline + candidate))
    ensures var pairs := PairsOf(baseline, candidate, KeysOf(baseline + candidate));
            multiset(Baselines(pairs)) == multiset(baseline) && multiset(Candidates(pairs)) == multiset(candidate)
  {
    var all := baseline + candidate;
    KeysOfTrials(all);
    PairsCoverTasks(baseline, candidate, KeysOf(all));
    forall t | t in all
      ensures t.task in KeySet(KeysOf(all))
    {
      var i :| 0 <= i < |all| && all[i] == t;
    }
    AmongAll(baseline, KeySet(KeysOf(all)));
    AmongAll(candidate, KeySet(KeysOf(all)));
  }

  /** Every pair stays within one task and is comparable. */
  lemma {:induction false} PairsWithinTasks(baseline: seq<Trial>, candidate: seq<Trial>, keys: seq<string>)
    requires AllOk(baseline, candidate, keys)
    ensures forall p | p in PairsOf(baseline, candidate, keys) ::
              p.baseline.task == p.candidate.task && Comparable(p.baseline, p.candidate)
  {
    if keys != [] {
      var task := keys[|keys| - 1];
      var left, right := SortByName(Of(baseline, task)), SortByName(Of(candidate, task));
      PairsWithinTasks(baseline, candidate, keys[..|keys| - 1]);
      OfHasTask(baseline, task);
      OfHasTask(candidate, task);
      SortByNameSorts(Of(baseline, task));
      SortByNameSorts(Of(candidate, task));
      forall p | p in Zip(left, right)
        ensures p.baseline.task == p.candidate.task && Comparable(p.baseline, p.candidate)
      {
        var i :| 0 <= i < |left| && p == TrialPair(left[i], right[i]);
        assert left[i] in multiset(Of(baseline, task)) && right[i] in multiset(Of(candidate, task));
      }
    }
  }

  /** What a pair shares, said of its fields: the checksum, and the workspace where both arms know it. */
  lemma PairsAgree(baseline: seq<Trial>, candidate: seq<Trial>, keys: seq<string>, p: TrialPair)
    requires AllOk(baseline, candidate, keys) && p in PairsOf(baseline, candidate, keys)
    ensures p.baseline.task == p.candidate.task && p.baseline.checksum == p.candidate.checksum
    ensures || p.baseline.workspace == None || p.candidate.workspace == None
            || p.baseline.workspace == p.candidate.workspace
  {
    PairsWithinTasks(baseline, candidate, keys);
  }

  ghost predicate IsRanked(p: TrialPair, q: TrialPair) {
    && Le(p.baseline.task, q.baseline.task)
    && (p.baseline.task == q.baseline.task ==>
          Le(p.baseline.name, q.baseline.name) && Le(p.candidate.name, q.candidate.name))
  }

  lemma {:induction false} PairsHaveKeys(baseline: seq<Trial>, candidate: seq<Trial>, keys: seq<string>)
    requires AllOk(baseline, candidate, keys)
    ensures forall p | p in PairsOf(baseline, candidate, keys) :: p.baseline.task in keys
  {
    if keys != [] {
      var task := keys[|keys| - 1];
      PairsHaveKeys(baseline, candidate, keys[..|keys| - 1]);
      ZipHasTask(baseline, candidate, task);
    }
  }

  lemma ZipHasTask(baseline: seq<Trial>, candidate: seq<Trial>, task: string)
    requires TaskOk(baseline, candidate, task)
    ensures forall p | p in Zip(SortByName(Of(baseline, task)), SortByName(Of(candidate, task))) ::
              p.baseline.task == task
  {
    var left, right := SortByName(Of(baseline, task)), SortByName(Of(candidate, task));
    OfHasTask(baseline, task);
    SortByNameSorts(Of(baseline, task));
    forall p | p in Zip(left, right)
      ensures p.baseline.task == task
    {
      var i :| 0 <= i < |left| && p == TrialPair(left[i], right[i]);
      assert left[i] in multiset(Of(baseline, task));
    }
  }

  /** Trials meet by rank: pairs go by task, and within a task both arms go by name. */
  lemma {:induction false} PairsAreRanked(
    baseline: seq<Trial>, candidate: seq<Trial>, keys: seq<string>, i: nat, j: nat)
    requires AllOk(baseline, candidate, keys) && Ascending(keys) && i < j < |PairsOf(baseline, candidate, keys)|
    ensures IsRanked(PairsOf(baseline, candidate, keys)[i], PairsOf(baseline, candidate, keys)[j])
    decreases |keys|
  {
    var init, task := keys[..|keys| - 1], keys[|keys| - 1];
    var before := PairsOf(baseline, candidate, init);
    var left, right := SortByName(Of(baseline, task)), SortByName(Of(candidate, task));
    var last := Zip(left, right);
    var pairs := PairsOf(baseline, candidate, keys);
    assert pairs == before + last;
    if j < |before| {
      PairsAreRanked(baseline, candidate, init, i, j);
    } else {
      assert pairs[j] == last[j - |before|] && last[j - |before|] in last;
      ZipHasTask(baseline, candidate, task);
      if i < |before| {
        PairsHaveKeys(baseline, candidate, init);
        assert pairs[i] in before;
        var k :| 0 <= k < |init| && init[k] == pairs[i].baseline.task;
        assert Le(keys[k], task) && keys[k] != task;
      } else {
        SortByNameSorts(Of(baseline, task));
        SortByNameSorts(Of(candidate, task));
        assert pairs[i] == last[i - |before|] && last[i - |before|] in last;
        LeTotal(task, task);
      }
    }
  }

  lemma {:induction false} CellsCountPairs(pairs: seq<TrialPair>)
    ensures var c := CellsOf(pairs);
            && c.bothPassed + c.bothFailed + c.baselineOnly + c.candidateOnly == |pairs|
            && c.bothPassed + c.baselineOnly == Passes(Baselines(pairs))
            && c.bothPassed + c.candidateOnly == Passes(Candidates(pairs))
  {
    if pairs != [] {
      var init := pairs[..|pairs| - 1];
      CellsCountPairs(init);
      assert Baselines(pairs)[..|pairs| - 1] == Baselines(init);
      assert Candidates(pairs)[..|pairs| - 1] == Candidates(init);
    }
  }

  /** Conservation: the cells account for both arms' attempts and passes, and for their difference. */
  lemma ComparisonConserves(baseline: seq<Trial>, candidate: seq<Trial>)
    requires AllOk(baseline, candidate, KeysOf(baseline + candidate))
    ensures var c := CellsOf(PairsOf(baseline, candidate, KeysOf(baseline + candidate)));
            && c.bothPassed + c.bothFailed + c.baselineOnly + c.candidateOnly == |baseline| == |candidate|
            && c.bothPassed + c.baselineOnly == Passes(baseline)
            && c.bothPassed + c.candidateOnly == Passes(candidate)
            && Passes(candidate) - Passes(baseline) == c.candidateOnly - c.baselineOnly
  {
    var pairs := PairsOf(baseline, candidate, KeysOf(baseline + candidate));
    PairingIsBijection(baseline, candidate);
    PassesOfPermutation(Baselines(pairs), baseline);
    PassesOfPermutation(Candidates(pairs), candidate);
    CellsCountPairs(pairs);
  }
}
