/**
 The live diagnostic spans as a forest. One counter per span counts its outstanding handles and
 its live children together. The ledger is what the counters stand for: the handles callers hold
 on every issued id, and the parent every registered span was given.
 */
module SpanForest {
  import opened Options

  const USIZE_MAX: nat := 0xFFFF_FFFF_FFFF_FFFF

  type Label = string

  datatype Span = Span(name: Label, outcome: Option<Label>, parent: Option<nat>, references: nat)

  datatype Ledger = Ledger(handles: map<nat, nat>, parents: map<nat, Option<nat>>)

  function Children(spans: map<nat, Span>, id: nat): set<nat> {
    set c | c in spans && spans[c].parent == Some(id)
  }

  /** `owed` is one while a close still has to be taken off this span's counter. */
  ghost predicate Counted(spans: map<nat, Span>, handles: map<nat, nat>, id: nat, owed: nat)
    requires id in spans && id in handles
  {
    spans[id].references == USIZE_MAX ||
    spans[id].references == handles[id] + |Children(spans, id)| + owed
  }

  function Owed(pending: Option<nat>, id: nat): nat { if pending == Some(id) then 1 else 0 }

  ghost predicate SpanOk(spans: map<nat, Span>, ledger: Ledger, id: nat, pending: Option<nat>)
    requires id in spans
  {
    && id in ledger.handles
    && id in ledger.parents && ledger.parents[id] == spans[id].parent
    && 1 <= spans[id].references <= USIZE_MAX
    && Counted(spans, ledger.handles, id, Owed(pending, id))
    && (spans[id].parent.Some? ==> spans[id].parent.value < id && spans[id].parent.value in spans)
  }

  ghost predicate RegisteredOk(spans: map<nat, Span>, ledger: Ledger, id: nat)
    requires id in ledger.parents
  {
    && id in ledger.handles
    && (ledger.parents[id].Some? ==> ledger.parents[id].value < id && ledger.parents[id].value in ledger.parents)
    && (ledger.handles[id] > 0 ==> id in spans)
  }

  /** Parents are live with smaller ids, counters are right, and a span someone holds is live. */
  ghost predicate Forest(next: nat, spans: map<nat, Span>, ledger: Ledger, pending: Option<nat>) {
    && (forall id {:trigger SpanOk(spans, ledger, id, pending)} :: id in spans ==> SpanOk(spans, ledger, id, pending))
    && (forall id {:trigger RegisteredOk(spans, ledger, id)} ::
          id in ledger.parents ==> RegisteredOk(spans, ledger, id))
    && (forall id {:trigger ledger.handles[id]} :: id in ledger.handles ==> id < next)
  }

  /** The part of the forest that makes every walk upwards end. */
  ghost predicate Climbable(spans: map<nat, Span>) {
    forall k {:trigger spans[k]} :: k in spans ==>
      spans[k].references >= 1 && (spans[k].parent.Some? ==> spans[k].parent.value < k)
  }

  lemma ForestHasParents(next: nat, spans: map<nat, Span>, ledger: Ledger, pending: Option<nat>)
    requires Forest(next, spans, ledger, pending)
    ensures Climbable(spans)
    ensures forall k | k in spans :: k < next
    ensures forall k | k in ledger.parents :: k < next
  {
    forall k | k in spans
      ensures spans[k].parent.Some? ==> spans[k].parent.value < k
      ensures k < next && spans[k].references >= 1
    {
      assert SpanOk(spans, ledger, k, pending);
      assert ledger.handles[k] >= 0;
    }
    forall k | k in ledger.parents
      ensures k < next
    {
      assert RegisteredOk(spans, ledger, k);
      assert ledger.handles[k] >= 0;
    }
  }

  // ----- one update at a time

  function Saturating(n: nat): nat { if n >= USIZE_MAX then USIZE_MAX else n + 1 }

  function Retain(spans: map<nat, Span>, id: nat): map<nat, Span>
    requires id in spans
  {
    spans[id := spans[id].(references := Saturating(spans[id].references))]
  }

  function Release(spans: map<nat, Span>, id: nat): map<nat, Span>
    requires id in spans && spans[id].references >= 1
  {
    spans[id := spans[id].(references := spans[id].references - 1)]
  }

  function Inserted(
    spans: map<nat, Span>, id: nat, name: Label, outcome: Option<Label>, parent: Option<nat>): map<nat, Span>
    requires parent.Some? ==> parent.value in spans
  {
    (if parent.Some? then Retain(spans, parent.value) else spans)[id := Span(name, outcome, parent, 1)]
  }

  /** The new span is as given, with one reference; of the others only the parent changes, by one reference. */
  lemma InsertedIs(spans: map<nat, Span>, id: nat, name: Label, outcome: Option<Label>, parent: Option<nat>, k: nat)
    requires id !in spans && (parent.Some? ==> parent.value in spans)
    ensures var after := Inserted(spans, id, name, outcome, parent);
            && after.Keys == spans.Keys + {id} && after[id] == Span(name, outcome, parent, 1)
            && (k in spans ==>
                  && after[k].name == spans[k].name && after[k].outcome == spans[k].outcome
                  && after[k].parent == spans[k].parent
                  && after[k].references ==
                     if parent == Some(k) && spans[k].references < USIZE_MAX then spans[k].references + 1
                     else if parent == Some(k) then USIZE_MAX
                     else spans[k].references)
  {
  }

  lemma RecountIsFree(spans: map<nat, Span>, id: nat, references: nat, outcome: Option<Label>)
    requires id in spans
    ensures var after := spans[id := spans[id].(references := references, outcome := outcome)];
            forall k :: Children(after, k) == Children(spans, k)
  {
  }

  lemma InsertAddsChild(spans: map<nat, Span>, id: nat, span: Span)
    requires id !in spans
    ensures forall k: nat :: |Children(spans[id := span], k)| ==
                             |Children(spans, k)| + (if span.parent == Some(k) then 1 else 0)
  {
    forall k: nat
      ensures |Children(spans[id := span], k)| ==
              |Children(spans, k)| + (if span.parent == Some(k) then 1 else 0)
    {
      var after := spans[id := span];
      assert Children(after, k) == Children(spans, k) + (if span.parent == Some(k) then {id} else {});
    }
  }

  lemma RemoveDropsChild(spans: map<nat, Span>, id: nat)
    requires id in spans
    ensures forall k: nat :: |Children(spans - {id}, k)| ==
                             |Children(spans, k)| - (if spans[id].parent == Some(k) then 1 else 0)
  {
    forall k: nat
      ensures |Children(spans - {id}, k)| ==
              |Children(spans, k)| - (if spans[id].parent == Some(k) then 1 else 0)
    {
      var gone := if spans[id].parent == Some(k) then {id} else {};
      assert Children(spans, k) == Children(spans - {id}, k) + gone;
    }
  }

  /** Changing one counter or label keeps the forest if that span's own counter stays right. */
  lemma RecountKeepsForest(
    next: nat, spans: map<nat, Span>, ledger: Ledger, pending: Option<nat>,
    id: nat, references: nat, outcome: Option<Label>, handles: map<nat, nat>, after: Option<nat>)
    requires Forest(next, spans, ledger, pending)
    requires id in ledger.handles && handles.Keys == ledger.handles.Keys
    requires forall k | k in handles && k != id :: handles[k] == ledger.handles[k]
    requires forall k | k in spans && k != id :: Owed(after, k) == Owed(pending, k)
    requires id in ledger.parents && handles[id] > 0 ==> id in spans
    requires id in spans ==> 1 <= references <= USIZE_MAX
    requires id in spans ==>
      references == USIZE_MAX || references == handles[id] + |Children(spans, id)| + Owed(after, id)
    ensures var changed :=
              if id in spans then spans[id := spans[id].(references := references, outcome := outcome)] else spans;
            Forest(next, changed, ledger.(handles := handles), after)
  {
    var changed := if id in spans then spans[id := spans[id].(references := references, outcome := outcome)] else spans;
    var less := ledger.(handles := handles);
    if id in spans {
      RecountIsFree(spans, id, references, outcome);
    }
    forall k | k in changed
      ensures SpanOk(changed, less, k, after)
    {
      assert SpanOk(spans, ledger, k, pending);
      assert Children(changed, k) == Children(spans, k);
    }
    forall k | k in less.parents
      ensures RegisteredOk(changed, less, k)
    {
      assert RegisteredOk(spans, ledger, k);
    }
    forall k | k in handles
      ensures k < next
    {
      assert ledger.handles[k] >= 0;
    }
  }

  lemma NewHandleKeepsForest(next: nat, spans: map<nat, Span>, ledger: Ledger, id: nat)
    requires Forest(next, spans, ledger, None)
    requires id in ledger.handles && ledger.handles[id] > 0
    ensures var more := ledger.(handles := ledger.handles[id := ledger.handles[id] + 1]);
            Forest(next, if id in spans then Retain(spans, id) else spans, more, None)
  {
    if id in spans { assert SpanOk(spans, ledger, id, None); }
    if id in ledger.parents { assert RegisteredOk(spans, ledger, id); }
    RecountKeepsForest(
      next, spans, ledger, None, id, if id in spans then Saturating(spans[id].references) else 1,
      if id in spans then spans[id].outcome else None, ledger.handles[id := ledger.handles[id] + 1], None);
  }

  lemma DropHandleOwesClose(next: nat, spans: map<nat, Span>, ledger: Ledger, id: nat)
    requires Forest(next, spans, ledger, None)
    requires id in ledger.handles && ledger.handles[id] > 0
    ensures Forest(next, spans, ledger.(handles := ledger.handles[id := ledger.handles[id] - 1]), Some(id))
  {
    if id in spans { assert SpanOk(spans, ledger, id, None); }
    if id in ledger.parents { assert RegisteredOk(spans, ledger, id); }
    RecountKeepsForest(
      next, spans, ledger, None, id, if id in spans then spans[id].references else 1,
      if id in spans then spans[id].outcome else None, ledger.handles[id := ledger.handles[id] - 1], Some(id));
    assert id in spans ==>
      spans[id := spans[id].(references := spans[id].references, outcome := spans[id].outcome)] == spans;
  }

  lemma ReleaseKeepsForest(next: nat, spans: map<nat, Span>, ledger: Ledger, id: nat)
    requires Forest(next, spans, ledger, Some(id))
    requires id in spans && 1 < spans[id].references < USIZE_MAX
    ensures Forest(next, Release(spans, id), ledger, None)
  {
    assert SpanOk(spans, ledger, id, Some(id));
    RecountKeepsForest(
      next, spans, ledger, Some(id), id, spans[id].references - 1, spans[id].outcome, ledger.handles, None);
  }

  /** A saturated counter, or one nobody keeps any more, owes nothing. */
  lemma NothingOwed(next: nat, spans: map<nat, Span>, ledger: Ledger, id: nat)
    requires Forest(next, spans, ledger, Some(id))
    requires id in spans ==> spans[id].references == USIZE_MAX
    ensures Forest(next, spans, ledger, None)
  {
    forall k | k in spans
      ensures SpanOk(spans, ledger, k, None)
    {
      assert SpanOk(spans, ledger, k, Some(id));
    }
  }

  lemma RelabelKeepsForest(next: nat, spans: map<nat, Span>, ledger: Ledger, id: nat, outcome: Option<Label>)
    requires Forest(next, spans, ledger, None) && id in spans
    ensures Forest(next, spans[id := spans[id].(outcome := outcome)], ledger, None)
  {
    assert SpanOk(spans, ledger, id, None);
    RecountKeepsForest(next, spans, ledger, None, id, spans[id].references, outcome, ledger.handles, None);
  }

  lemma IssueKeepsForest(next: nat, spans: map<nat, Span>, ledger: Ledger)
    requires Forest(next, spans, ledger, None)
    ensures Forest(next + 1, spans, ledger.(handles := ledger.handles[next := 1]), None)
  {
    ForestHasParents(next, spans, ledger, None);
    var more := ledger.(handles := ledger.handles[next := 1]);
    forall k | k in spans
      ensures SpanOk(spans, more, k, None)
    {
      assert SpanOk(spans, ledger, k, None);
    }
    forall k | k in more.parents
      ensures RegisteredOk(spans, more, k)
    {
      assert RegisteredOk(spans, ledger, k);
    }
    forall k | k in more.handles
      ensures k < next + 1
    {
      assert k in ledger.handles ==> ledger.handles[k] >= 0;
    }
  }

  lemma InsertKeepsForest(
    next: nat, spans: map<nat, Span>, ledger: Ledger, name: Label, outcome: Option<Label>, parent: Option<nat>)
    requires Forest(next, spans, ledger, None)
    requires parent.Some? ==> parent.value in spans
    ensures var more := Ledger(ledger.handles[next := 1], ledger.parents[next := parent]);
            Forest(next + 1, Inserted(spans, next, name, outcome, parent), more, None)
  {
    ForestHasParents(next, spans, ledger, None);
    IssueKeepsForest(next, spans, ledger);
    var held := if parent.Some? then Retain(spans, parent.value) else spans;
    if parent.Some? {
      RecountIsFree(spans, parent.value, Saturating(spans[parent.value].references), spans[parent.value].outcome);
    }
    InsertAddsChild(held, next, Span(name, outcome, parent, 1));
    var after := Inserted(spans, next, name, outcome, parent);
    var more := Ledger(ledger.handles[next := 1], ledger.parents[next := parent]);
    assert Children(spans, next) == {} by {
      forall c | c in spans
        ensures spans[c].parent != Some(next)
      {
        assert spans[c].parent.Some? ==> spans[c].parent.value < c;
      }
    }
    forall k | k in after
      ensures SpanOk(after, more, k, None)
    {
      assert Children(held, k) == Children(spans, k);
      assert k != next ==> SpanOk(spans, ledger, k, None);
      assert parent.Some? ==> SpanOk(spans, ledger, parent.value, None);
    }
    forall k | k in more.parents
      ensures RegisteredOk(after, more, k)
    {
      assert k != next ==> RegisteredOk(spans, ledger, k);
      assert parent.Some? ==> SpanOk(spans, ledger, parent.value, None);
    }
  }

  /** A span counted down to nothing has no handle and no child: removing it leaves one close owed to its parent. */
  lemma CloseKeepsForest(next: nat, spans: map<nat, Span>, ledger: Ledger, id: nat)
    requires Forest(next, spans, ledger, Some(id))
    requires id in spans && spans[id].references == 1
    ensures id in ledger.handles && ledger.handles[id] == 0 && Children(spans, id) == {}
    ensures Forest(next, spans - {id}, ledger, spans[id].parent)
  {
    assert SpanOk(spans, ledger, id, Some(id));
    RemoveDropsChild(spans, id);
    var after := spans - {id};
    forall k | k in after
      ensures SpanOk(after, ledger, k, spans[id].parent)
    {
      assert SpanOk(spans, ledger, k, Some(id));
      assert k in Children(spans, id) <==> spans[k].parent == Some(id);
    }
    forall k | k in ledger.parents
      ensures RegisteredOk(after, ledger, k)
    {
      assert RegisteredOk(spans, ledger, k);
    }
  }

  // ----- closing

  /** One close arriving at `current`: the spans that remain, and those that close, innermost first. */
  function Cascade(spans: map<nat, Span>, current: Option<nat>): (r: (map<nat, Span>, seq<nat>))
    requires Climbable(spans)
    decreases if current.Some? then current.value + 1 else 0
  {
    if current.None? || current.value !in spans || spans[current.value].references == USIZE_MAX then (spans, [])
    else if spans[current.value].references > 1 then (Release(spans, current.value), [])
    else
      var rest := Cascade(spans - {current.value}, spans[current.value].parent);
      (rest.0, [current.value] + rest.1)
  }

  lemma CascadeStep(spans: map<nat, Span>, id: nat)
    requires Climbable(spans) && id in spans && spans[id].references == 1
    ensures Climbable(spans - {id})
    ensures Cascade(spans, Some(id)).0 == Cascade(spans - {id}, spans[id].parent).0
    ensures Cascade(spans, Some(id)).1 == [id] + Cascade(spans - {id}, spans[id].parent).1
  {
  }

  lemma {:induction false} CascadeKeepsForest(next: nat, spans: map<nat, Span>, ledger: Ledger, current: Option<nat>)
    requires Forest(next, spans, ledger, current)
    requires Climbable(spans)
    ensures Forest(next, Cascade(spans, current).0, ledger, None)
    decreases if current.Some? then current.value + 1 else 0
  {
    if current.Some? {
      var id := current.value;
      if id in spans { assert SpanOk(spans, ledger, id, current); }
      if id !in spans || spans[id].references == USIZE_MAX {
        NothingOwed(next, spans, ledger, id);
      } else if spans[id].references > 1 {
        ReleaseKeepsForest(next, spans, ledger, id);
      } else {
        CloseKeepsForest(next, spans, ledger, id);
        CascadeKeepsForest(next, spans - {id}, ledger, spans[id].parent);
      }
    }
  }

  /** The closed spans: `id` first, then each one's parent. */
  ghost predicate IsCascade(spans: map<nat, Span>, current: Option<nat>, gone: seq<nat>) {
    && (gone != [] ==> current == Some(gone[0]))
    && (forall i | 0 <= i < |gone| :: gone[i] in spans)
    && (forall i | 0 < i < |gone| :: spans[gone[i - 1]].parent == Some(gone[i]))
  }

  /** What closes is a path towards the root. */
  lemma {:induction false} CascadeClosesPath(spans: map<nat, Span>, current: Option<nat>)
    requires Climbable(spans)
    ensures IsCascade(spans, current, Cascade(spans, current).1)
    decreases if current.Some? then current.value + 1 else 0
  {
    if current.Some? && current.value in spans && spans[current.value].references == 1 {
      var id := current.value;
      CascadeStep(spans, id);
      CascadeClosesPath(spans - {id}, spans[id].parent);
    }
  }

  /** Exactly the closed spans leave the table. */
  lemma {:induction false} CascadeRemovesClosed(spans: map<nat, Span>, current: Option<nat>)
    requires Climbable(spans)
    ensures var r := Cascade(spans, current);
            && |r.0| + |r.1| == |spans|
            && r.0.Keys <= spans.Keys
            && forall k | k in spans :: k in r.0 <==> k !in r.1
    decreases if current.Some? then current.value + 1 else 0
  {
    if current.Some? && current.value in spans && spans[current.value].references == 1 {
      var id := current.value;
      assert spans.Keys == (spans - {id}).Keys + {id};
      CascadeStep(spans, id);
      CascadeRemovesClosed(spans - {id}, spans[id].parent);
    } else {
      assert Cascade(spans, current).0.Keys == spans.Keys;
    }
  }

  /** Nothing but counters changes in the spans that stay. */
  lemma {:induction false} CascadeKeepsOthers(spans: map<nat, Span>, current: Option<nat>, k: nat)
    requires Climbable(spans) && k in Cascade(spans, current).0
    ensures k in spans && Cascade(spans, current).0[k].(references := 0) == spans[k].(references := 0)
    decreases if current.Some? then current.value + 1 else 0
  {
    if current.Some? && current.value in spans && spans[current.value].references == 1 {
      CascadeStep(spans, current.value);
      CascadeKeepsOthers(spans - {current.value}, spans[current.value].parent, k);
    }
  }

  // ----- liveness is reachability

  /** `d` is `a` or one of its descendants, among all spans ever registered. */
  ghost predicate Descends(parents: map<nat, Option<nat>>, d: nat, a: nat)
    decreases d
  {
    d in parents &&
    (d == a || (parents[d].Some? && parents[d].value < d && Descends(parents, parents[d].value, a)))
  }

  lemma {:induction false} DescendsTransitively(parents: map<nat, Option<nat>>, d: nat, c: nat, a: nat)
    requires Descends(parents, d, c) && Descends(parents, c, a)
    ensures Descends(parents, d, a)
    decreases d
  {
    if d != c {
      DescendsTransitively(parents, parents[d].value, c, a);
    }
  }

  /** What keeps a span alive by itself: a handle, or a counter that saturated and no longer counts. */
  ghost predicate Anchored(spans: map<nat, Span>, ledger: Ledger, d: nat) {
    (d in ledger.handles && ledger.handles[d] > 0) || (d in spans && spans[d].references == USIZE_MAX)
  }

  /** Never freed early: everything above an anchored span is live. */
  lemma {:induction false} AnchoredKeepsAncestorsLive(next: nat, spans: map<nat, Span>, ledger: Ledger, d: nat, a: nat)
    requires Forest(next, spans, ledger, None)
    requires Descends(ledger.parents, d, a) && d in spans
    ensures a in spans
    decreases d
  {
    if d != a {
      assert SpanOk(spans, ledger, d, None);
      AnchoredKeepsAncestorsLive(next, spans, ledger, ledger.parents[d].value, a);
    }
  }

  /** Nothing leaks: below every live span there is an anchored one. */
  lemma {:induction false} LiveHasAnchor(next: nat, spans: map<nat, Span>, ledger: Ledger, a: nat) returns (d: nat)
    requires Forest(next, spans, ledger, None) && a in spans
    ensures Descends(ledger.parents, d, a) && Anchored(spans, ledger, d)
    decreases next - a
  {
    assert SpanOk(spans, ledger, a, None);
    assert ledger.handles[a] >= 0;
    if Anchored(spans, ledger, a) {
      d := a;
    } else {
      assert |Children(spans, a)| > 0;
      var c :| c in Children(spans, a);
      assert SpanOk(spans, ledger, c, None);
      d := LiveHasAnchor(next, spans, ledger, c);
      assert Descends(ledger.parents, c, a);
      DescendsTransitively(ledger.parents, d, c, a);
    }
  }

  /** A registered span is live iff it or a descendant has a handle (or a saturated counter). */
  lemma {:induction false} LiveIffReachable(next: nat, spans: map<nat, Span>, ledger: Ledger, a: nat)
    requires Forest(next, spans, ledger, None) && a in ledger.parents
    ensures a in spans <==> exists d :: Descends(ledger.parents, d, a) && Anchored(spans, ledger, d)
  {
    if a in spans {
      var d := LiveHasAnchor(next, spans, ledger, a);
    }
    forall d | Descends(ledger.parents, d, a) && Anchored(spans, ledger, d)
      ensures a in spans
    {
      assert RegisteredOk(spans, ledger, d);
      AnchoredKeepsAncestorsLive(next, spans, ledger, d, a);
    }
  }
}
