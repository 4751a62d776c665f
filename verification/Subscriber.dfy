/**
 The diagnostic subscriber: the span table updated in place, the bounded record queue and the
 telemetry counters. A panic of the source on an exhausted id space is the result None.
 */
module Subscriber {
  import opened Counting
  import opened Options
  import opened Sequences
  import opened SpanForest

  const MAX_SPANS: nat := 4096
  const MAX_DEPTH: nat := 32

  datatype Message = New | Close

  /** A span record: the span and its ancestors, outermost first. */
  datatype Record = Record(message: Message, ancestry: seq<nat>)

  type StageKey = (Label, Label)

  function KeyOf(span: Span): StageKey {
    (span.name, if span.outcome.Some? then span.outcome.value else "none")
  }

  // ----- choosing a parent

  function LastEntered(entered: seq<(nat, nat)>, instance: nat): (id: Option<nat>)
    ensures id.None? <==> forall i | 0 <= i < |entered| :: entered[i].0 != instance
    ensures id.Some? ==> exists i :: 0 <= i < |entered| && entered[i] == (instance, id.value) &&
                                     forall j | i < j < |entered| :: entered[j].0 != instance
  {
    if entered == [] then None
    else
      var top := entered[|entered| - 1];
      if top.0 == instance then Some(top.1) else LastEntered(entered[..|entered| - 1], instance)
  }

  /** The explicit parent, else the innermost entered span of this subscriber; never a dead one. */
  function ChooseParent(
    spans: map<nat, Span>, explicit: Option<nat>, contextual: bool, entered: seq<(nat, nat)>, instance: nat)
    : (p: Option<nat>)
    ensures p.Some? ==> p.value in spans
    ensures explicit.Some? ==> p == if explicit.value in spans then explicit else None
    ensures explicit.None? && p.Some? ==> contextual && LastEntered(entered, instance) == p
    ensures explicit.None? && p.None? && contextual ==>
              LastEntered(entered, instance).None? || LastEntered(entered, instance).value !in spans
  {
    var wanted :=
      if explicit.Some? then explicit
      else if contextual then LastEntered(entered, instance)
      else None;
    if wanted.Some? && wanted.value in spans then wanted else None
  }

  // ----- telemetry

  function SaturatingU64(n: nat): nat { if n >= U64_MAX then U64_MAX else n + 1 }

  function Capped(n: nat): nat { if n > U64_MAX then U64_MAX else n }

  function Observe(stages: map<StageKey, nat>, key: StageKey): map<StageKey, nat> {
    stages[key := SaturatingU64(if key in stages then stages[key] else 0)]
  }

  /** Stage counts are the saturated tally of the keys closed spans had. */
  ghost predicate Tallied(stages: map<StageKey, nat>, closed: seq<StageKey>) {
    && (forall k | k in stages :: stages[k] == Capped(multiset(closed)[k]) && k in closed)
    && (forall k | k in closed :: k in stages)
  }

  lemma ObserveKeepsTally(stages: map<StageKey, nat>, closed: seq<StageKey>, key: StageKey)
    requires Tallied(stages, closed)
    ensures Tallied(Observe(stages, key), closed + [key])
  {
    assert multiset(closed + [key]) == multiset(closed) + multiset{key};
    assert key !in stages ==> multiset(closed)[key] == 0;
  }

  ghost function Total(stages: map<StageKey, nat>): nat {
    if stages == map[] then 0
    else
      var k :| k in stages;
      stages[k] + Total(stages - {k})
  }

  /** Below saturation the stage counts add up to the closed spans. */
  lemma {:induction false} StagesSumToClosed(stages: map<StageKey, nat>, closed: multiset<StageKey>)
    requires forall k :: k in stages <==> k in closed
    requires forall k | k in stages :: stages[k] == closed[k]
    ensures Total(stages) == |closed|
  {
    if stages == map[] {
      assert closed == multiset{};
    } else {
      var k :| k in stages && Total(stages) == stages[k] + Total(stages - {k});
      var rest := closed[k := 0];
      assert closed == rest + multiset{}[k := closed[k]];
      assert |closed| == |rest| + closed[k];
      StagesSumToClosed(stages - {k}, rest);
    }
  }

  // ----- the subscriber

  class DiagnosticSubscriber {
    const instance: nat
    var next: nat
    var spans: map<nat, Span>
    var queued: seq<Record>
    var dropped: nat
    var stages: map<StageKey, nat>

    ghost var ledger: Ledger
    ghost var calls: nat
    ghost var lost: nat
    ghost var closed: seq<StageKey>

    ghost predicate Valid()
      reads this
    {
      && 1 <= next <= U64_MAX
      && |spans| <= MAX_SPANS
      && Forest(next, spans, ledger, None)
      && |ledger.parents| == |spans| + |closed|
      && Tallied(stages, closed)
      && Accounted(0)
    }

    /** Every new_span call and every closed span made one record, which was queued or dropped. */
    ghost predicate Accounted(unsent: nat)
      reads this
    {
      && |queued| + lost + unsent == calls + |closed|
      && dropped == lost % (U64_MAX + 1)
    }

    constructor (instance: nat)
      ensures Valid() && spans == map[] && queued == [] && calls == 0 && closed == []
      ensures ledger == Ledger(map[], map[])
    {
      this.instance := instance;
      next, spans, queued, dropped, stages := 1, map[], [], 0, map[];
      ledger, calls, lost, closed := Ledger(map[], map[]), 0, 0, [];
    }

    /** After every history of calls: records, registered spans and stage counts are all accounted for. */
    lemma Conservation()
      requires Valid()
      ensures |queued| + lost == calls + |closed|
      ensures |ledger.parents| == |spans| + |closed|
      ensures (forall k | k in stages :: stages[k] < U64_MAX) ==> Total(stages) == |closed|
    {
      if forall k | k in stages :: stages[k] < U64_MAX {
        forall k | k in stages
          ensures stages[k] == multiset(closed)[k]
        {
          assert stages[k] == Capped(multiset(closed)[k]);
        }
        StagesSumToClosed(stages, multiset(closed));
      }
    }

    /** After every history of calls: a registered span is live iff it or a descendant is held. */
    lemma Liveness(id: nat)
      requires Valid() && id in ledger.parents
      ensures id in spans <==> exists d :: Descends(ledger.parents, d, id) && Anchored(spans, ledger, d)
    {
      LiveIffReachable(next, spans, ledger, id);
    }

    method DropRecord()
      requires Accounted(1)
      modifies this`dropped, this`lost
      ensures Accounted(0)
    {
      dropped := (dropped + 1) % (U64_MAX + 1);
      lost := lost + 1;
    }

    /** A record that is too large, or meets a full queue, is counted as dropped. */
    method Emit(record: Record, accepted: bool)
      modifies this`queued, this`dropped, this`lost
      ensures |queued| + lost == |old(queued)| + old(lost) + 1
      ensures old(dropped) == old(lost) % (U64_MAX + 1) ==> dropped == lost % (U64_MAX + 1)
      ensures queued == if accepted then old(queued) + [record] else old(queued)
    {
      if accepted {
        queued := queued + [record];
      } else {
        dropped := (dropped + 1) % (U64_MAX + 1);
        lost := lost + 1;
      }
    }

    method EmitAll(records: seq<Record>, accept: nat -> bool)
      modifies this`queued, this`dropped, this`lost
      ensures |queued| + lost == |old(queued)| + old(lost) + |records|
      ensures old(dropped) == old(lost) % (U64_MAX + 1) ==> dropped == lost % (U64_MAX + 1)
      ensures queued == old(queued) + Accepted(records, accept)
    {
      for i := 0 to |records|
        invariant |queued| + lost == |old(queued)| + old(lost) + i
        invariant old(dropped) == old(lost) % (U64_MAX + 1) ==> dropped == lost % (U64_MAX + 1)
        invariant queued == old(queued) + Accepted(records[..i], accept)
      {
        assert records[..i + 1][..i] == records[..i];
        Emit(records[i], accept(i));
      }
      assert records[..|records|] == records;
    }

    method NewSpan(
      name: Label, outcome: Option<Label>, explicit: Option<nat>, contextual: bool, entered: seq<(nat, nat)>,
      accepted: bool)
      returns (id: Option<nat>)
      requires Valid()
      modifies this
      ensures Valid()
      ensures id.None? <==> old(next) == U64_MAX
      ensures id.None? ==> next == old(next) && spans == old(spans) && ledger == old(ledger) && calls == old(calls)
      ensures id.Some? ==> id.value == old(next) && next == old(next) + 1 && calls == old(calls) + 1
      ensures id.Some? ==> ledger.handles == old(ledger.handles)[id.value := 1]
      ensures id.Some? && |old(spans)| >= 4096 ==>
                spans == old(spans) && ledger.parents == old(ledger.parents) && queued == old(queued)
      ensures id.Some? && |old(spans)| < 4096 ==>
                var parent := ChooseParent(old(spans), explicit, contextual, entered, instance);
                && spans == Inserted(old(spans), id.value, name, outcome, parent)
                && ledger.parents == old(ledger.parents)[id.value := parent]
                && (if accepted then
                      && |queued| == |old(queued)| + 1 && queued[..|old(queued)|] == old(queued)
                      && queued[|old(queued)|].message == New
                      && IsAncestry(spans, id.value, queued[|old(queued)|].ancestry)
                    else queued == old(queued))
      ensures closed == old(closed) && stages == old(stages)
    {
      if next == U64_MAX {
        return None;
      }
      ghost var before := ledger;
      ForestHasParents(next, spans, before, None);
      var issued := next;
      next := next + 1;
      calls := calls + 1;
      ledger := ledger.(handles := ledger.handles[issued := 1]);
      if |spans| >= MAX_SPANS {
        IssueKeepsForest(issued, spans, before);
        DropRecord();
        return Some(issued);
      }
      var parent := ChooseParent(spans, explicit, contextual, entered, instance);
      InsertKeepsForest(issued, spans, before, name, outcome, parent);
      Register(issued, name, outcome, parent, accepted);
      return Some(issued);
    }

    method Register(issued: nat, name: Label, outcome: Option<Label>, parent: Option<nat>, accepted: bool)
      requires issued !in spans && issued !in ledger.parents
      requires parent.Some? ==> parent.value in spans
      modifies this`spans, this`ledger, this`queued, this`dropped, this`lost
      ensures spans == Inserted(old(spans), issued, name, outcome, parent) && |spans| == |old(spans)| + 1
      ensures ledger == old(ledger).(parents := old(ledger.parents)[issued := parent])
      ensures |ledger.parents| == |old(ledger.parents)| + 1
      ensures |queued| + lost == |old(queued)| + old(lost) + 1
      ensures old(dropped) == old(lost) % (U64_MAX + 1) ==> dropped == lost % (U64_MAX + 1)
      ensures accepted ==>
                && |queued| == |old(queued)| + 1 && queued[..|old(queued)|] == old(queued)
                && queued[|old(queued)|].message == New && IsAncestry(spans, issued, queued[|old(queued)|].ancestry)
      ensures !accepted ==> queued == old(queued)
    {
      InsertGrows(spans, issued, name, outcome, parent, ledger.parents);
      spans := Inserted(spans, issued, name, outcome, parent);
      ledger := ledger.(parents := ledger.parents[issued := parent]);
      var ancestry := Ancestry(spans, issued);
      Emit(Record(New, ancestry), accepted);
    }

    method CloneSpan(id: nat)
      requires Valid() && id in ledger.handles && ledger.handles[id] > 0
      modifies this`spans, this`ledger
      ensures Valid()
      ensures ledger == old(ledger).(handles := old(ledger.handles)[id := old(ledger.handles[id]) + 1])
      ensures spans == if id in old(spans) then Retain(old(spans), id) else old(spans)
    {
      NewHandleKeepsForest(next, spans, ledger, id);
      ledger := ledger.(handles := ledger.handles[id := ledger.handles[id] + 1]);
      if id in spans {
        assert Retain(spans, id).Keys == spans.Keys;
        spans := Retain(spans, id);
      }
    }

    method RecordOutcome(id: nat, outcome: Label)
      requires Valid()
      modifies this`spans
      ensures Valid()
      ensures spans ==
              if id in old(spans) then old(spans)[id := old(spans)[id].(outcome := Some(outcome))] else old(spans)
    {
      if id in spans {
        RelabelKeepsForest(next, spans, ledger, id, Some(outcome));
        assert spans[id := spans[id].(outcome := Some(outcome))].Keys == spans.Keys;
        spans := spans[id := spans[id].(outcome := Some(outcome))];
      }
    }

    /** Counts down from `id` upwards and removes every span that reaches nothing. */
    method CloseUpwards(id: nat) returns (records: seq<Record>, ghost keys: seq<StageKey>)
      requires Climbable(spans)
      requires Tallied(stages, closed)
      modifies this`spans, this`stages, this`closed
      ensures spans == Cascade(old(spans), Some(id)).0
      ensures ClosedAs(old(spans), Cascade(old(spans), Some(id)).1, records, keys)
      ensures Tallied(stages, closed) && closed == old(closed) + keys
    {
      ghost var goal, table := Cascade(spans, Some(id)), spans;
      ghost var gone: seq<nat> := [];
      records, keys := [], [];
      var current := Some(id);
      while current.Some? && current.value in spans && spans[current.value].references == 1
        invariant Climbable(spans)
        invariant Cascade(spans, current).0 == goal.0
        invariant gone + Cascade(spans, current).1 == goal.1
        invariant PartOf(spans, table, if current.Some? then current.value + 1 else 0)
        invariant ClosedAs(table, gone, records, keys)
        invariant Tallied(stages, closed) && closed == old(closed) + keys
        decreases if current.Some? then current.value + 1 else 0
      {
        var k := current.value;
        CascadeStep(spans, k);
        current := spans[k].parent;
        records, keys := CloseNext(k, table, gone, records, keys, old(closed));
        Associate(gone, [k], Cascade(spans, current).1);
        gone := gone + [k];
      }
      if current.Some? && current.value in spans && spans[current.value].references != USIZE_MAX {
        spans := Release(spans, current.value);
      }
    }

    /** One turn of the loop. */
    method CloseNext(
      k: nat, ghost table: map<nat, Span>, ghost gone: seq<nat>, records: seq<Record>, ghost keys: seq<StageKey>,
      ghost before: seq<StageKey>)
      returns (more: seq<Record>, ghost moreKeys: seq<StageKey>)
      requires k in spans && Tallied(stages, closed) && PartOf(spans, table, k + 1)
      requires ClosedAs(table, gone, records, keys) && closed == before + keys
      modifies this`spans, this`stages, this`closed
      ensures spans == old(spans) - {k} && PartOf(spans, table, k)
      ensures ClosedAs(table, gone + [k], more, moreKeys)
      ensures Tallied(stages, closed) && closed == before + moreKeys
    {
      var record := CloseOne(k, table);
      AppendClosed(table, gone, records, keys, k, record);
      more, moreKeys := records + [record], keys + [KeyOf(table[k])];
    }

    method CloseOne(k: nat, ghost table: map<nat, Span>) returns (record: Record)
      requires k in spans && Tallied(stages, closed) && PartOf(spans, table, k + 1)
      modifies this`spans, this`stages, this`closed
      ensures spans == old(spans) - {k} && PartOf(spans, table, k)
      ensures ClosedSpan(table, k, record, KeyOf(table[k]))
      ensures Tallied(stages, closed) && closed == old(closed) + [KeyOf(table[k])]
    {
      var ancestry := Ancestry(spans, k);
      AncestryIn(spans, table, k, ancestry);
      record := Record(Close, ancestry);
      ObserveKeepsTally(stages, closed, KeyOf(spans[k]));
      stages, closed := Observe(stages, KeyOf(spans[k])), closed + [KeyOf(spans[k])];
      spans := spans - {k};
    }

    /** Gives one handle back. Spans left without handle and child close, from `id` upwards. */
    method TryClose(id: nat, accept: nat -> bool) returns (any: bool)
      requires Valid() && id in ledger.handles && ledger.handles[id] > 0
      modifies this`spans, this`ledger, this`queued, this`dropped, this`stages, this`lost, this`closed
      ensures Valid()
      ensures ledger == old(ledger).(handles := old(ledger.handles)[id := old(ledger.handles[id]) - 1])
      ensures Climbable(old(spans))
      ensures var (remaining, gone) := Cascade(old(spans), Some(id));
              && spans == remaining
              && (any <==> gone != [])
              && exists records, keys ::
                   && ClosedAs(old(spans), gone, records, keys)
                   && closed == old(closed) + keys && queued == old(queued) + Accepted(records, accept)
    {
      ForestHasParents(next, spans, ledger, None);
      DropHandleOwesClose(next, spans, ledger, id);
      ledger := ledger.(handles := ledger.handles[id := ledger.handles[id] - 1]);
      CascadeKeepsForest(next, spans, ledger, Some(id));
      CascadeRemovesClosed(spans, Some(id));
      ghost var keys;
      var records;
      records, keys := CloseUpwards(id);
      any := records != [];
      EmitAll(records, accept);
    }
  }

  function Accepted(records: seq<Record>, accept: nat -> bool): seq<Record> {
    if records == [] then []
    else
      var last := |records| - 1;
      Accepted(records[..last], accept) + (if accept(last) then [records[last]] else [])
  }

  /** While a close goes upwards, spans are only taken out of the table, and none with an id below `bound`. */
  ghost predicate PartOf(spans: map<nat, Span>, table: map<nat, Span>, bound: nat) {
    && Climbable(table)
    && (forall k | k in spans :: k in table && table[k] == spans[k])
    && (forall k | k in table && k < bound :: k in spans)
  }

  /**
   For each closed span, in the order they closed: one close record with the ancestry it had, and one observation
   under its name and outcome, or "none" without one.
   */
  ghost predicate ClosedAs(table: map<nat, Span>, gone: seq<nat>, records: seq<Record>, keys: seq<StageKey>) {
    && |records| == |gone| == |keys|
    && forall i {:trigger ClosedSpan(table, gone[i], records[i], keys[i])} | 0 <= i < |gone| ::
         ClosedSpan(table, gone[i], records[i], keys[i])
  }

  ghost predicate ClosedSpan(table: map<nat, Span>, id: nat, record: Record, key: StageKey) {
    && record.message == Close && IsAncestry(table, id, record.ancestry)
    && id in table && key.0 == table[id].name
    && (table[id].outcome == Some(key.1) || (table[id].outcome.None? && key.1 == "none"))
  }

  lemma AppendClosed(
    table: map<nat, Span>, gone: seq<nat>, records: seq<Record>, keys: seq<StageKey>, id: nat, record: Record)
    requires ClosedAs(table, gone, records, keys) && id in table
    requires ClosedSpan(table, id, record, KeyOf(table[id]))
    ensures ClosedAs(table, gone + [id], records + [record], keys + [KeyOf(table[id])])
  {
    forall i | 0 <= i <= |gone|
      ensures ClosedSpan(table, (gone + [id])[i], (records + [record])[i], (keys + [KeyOf(table[id])])[i])
    {
      assert i < |gone| ==> ClosedSpan(table, gone[i], records[i], keys[i]);
    }
  }

  lemma {:induction false} ChainDescends(spans: map<nat, Span>, id: nat, ancestry: seq<nat>, i: nat)
    requires Climbable(spans) && IsChain(spans, id, ancestry) && i < |ancestry|
    ensures ancestry[i] <= id
    decreases |ancestry| - i
  {
    if i < |ancestry| - 1 {
      ChainDescends(spans, id, ancestry, i + 1);
      assert spans[ancestry[i + 1]].parent == Some(ancestry[i]);
    }
  }

  lemma AncestryIn(spans: map<nat, Span>, table: map<nat, Span>, id: nat, ancestry: seq<nat>)
    requires PartOf(spans, table, id + 1) && IsAncestry(spans, id, ancestry)
    ensures IsAncestry(table, id, ancestry)
  {
    assert IsChain(table, id, ancestry);
    ChainDescends(table, id, ancestry, 0);
    assert table[ancestry[0]] == spans[ancestry[0]];
  }

  lemma InsertGrows(
    spans: map<nat, Span>, id: nat, name: Label, outcome: Option<Label>, parent: Option<nat>,
    parents: map<nat, Option<nat>>)
    requires id !in spans && id !in parents
    requires parent.Some? ==> parent.value in spans
    ensures |Inserted(spans, id, name, outcome, parent)| == |spans| + 1
    ensures |parents[id := parent]| == |parents| + 1
  {
    assert Inserted(spans, id, name, outcome, parent).Keys == spans.Keys + {id};
    assert parents[id := parent].Keys == parents.Keys + {id};
  }

  /** `ancestry` ends with `id`, and every entry before is the parent of the next. */
  ghost predicate IsChain(spans: map<nat, Span>, id: nat, ancestry: seq<nat>) {
    && 0 < |ancestry|
    && ancestry[|ancestry| - 1] == id
    && (forall i | 0 <= i < |ancestry| :: ancestry[i] in spans)
    && (forall i | 0 < i < |ancestry| :: spans[ancestry[i]].parent == Some(ancestry[i - 1]))
  }

  /** At most 32 spans, fewer only up to a root or below a parent that is gone. */
  ghost predicate IsAncestry(spans: map<nat, Span>, id: nat, ancestry: seq<nat>) {
    && IsChain(spans, id, ancestry) && |ancestry| <= 32
    && (|ancestry| < 32 ==> spans[ancestry[0]].parent.None? || spans[ancestry[0]].parent.value !in spans)
  }

  method Ancestry(spans: map<nat, Span>, id: nat) returns (ancestry: seq<nat>)
    requires id in spans
    ensures IsAncestry(spans, id, ancestry)
  {
    ancestry := [];
    var current := Some(id);
    for i := 0 to MAX_DEPTH
      invariant |ancestry| == i
      invariant i == 0 ==> current == Some(id)
      invariant i > 0 ==> IsChain(spans, id, ancestry) && current == spans[ancestry[0]].parent
    {
      if current.None? || current.value !in spans {
        return;
      }
      ancestry := [current.value] + ancestry;
      current := spans[current.value].parent;
    }
  }
}
