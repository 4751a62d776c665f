/**
 The diagnostic writer thread: whole records go to a bounded file until the empty stop record.
 Summaries are written even past the bound.
 */
module LogWriter {
  import opened Options
  import opened Sequences
  import opened Sorting
  import opened Text

  type Byte = b: nat | b < 256
  type Bytes = seq<Byte>

  const MAX_FILE: nat := 8 * 1024 * 1024

  /** The bytes of a text of ASCII characters. */
  function Ascii(text: string): (bytes: Bytes)
    ensures |bytes| == |text|
  {
    seq(|text|, i requires 0 <= i < |text| => text[i] as int % 256)
  }

  const DROPPED := "dropped_records"

  /** How an object whose first key is this one begins. */
  function Opening(key: string): Bytes { Ascii("{\"" + key + "\"") }

  const SUMMARY_PREFIX: Bytes := Opening(DROPPED)

  predicate IsSummary(record: Bytes) { SUMMARY_PREFIX <= record }

  /** The records that reach the file, `written` bytes being there already. */
  function Kept(received: seq<Bytes>, written: nat): seq<Bytes> {
    if received == [] || received[0] == [] then []
    else if written + |received[0]| <= MAX_FILE || IsSummary(received[0]) then
      [received[0]] + Kept(received[1..], written + |received[0]|)
    else Kept(received[1..], written)
  }

  function Concat(records: seq<Bytes>): Bytes {
    if records == [] then [] else records[0] + Concat(records[1..])
  }

  const IS_SUMMARY := (record: Bytes) => IsSummary(record)

  /** The bytes still to be written from the record at i on; `urgent` records are written past the bound. */
  function OutputFrom(received: seq<Bytes>, i: nat, written: nat, urgent: Bytes -> bool): Bytes
    requires i <= |received|
    decreases |received| - i
  {
    if i == |received| || received[i] == [] then []
    else if written + |received[i]| <= MAX_FILE || urgent(received[i]) then
      received[i] + OutputFrom(received, i + 1, written + |received[i]|, urgent)
    else OutputFrom(received, i + 1, written, urgent)
  }

  lemma {:induction false} OutputIsConcat(received: seq<Bytes>, i: nat, written: nat)
    requires i <= |received|
    ensures OutputFrom(received, i, written, IS_SUMMARY) == Concat(Kept(received[i..], written))
    decreases |received| - i
  {
    if i < |received| && received[i] != [] {
      var more := if written + |received[i]| <= MAX_FILE || IsSummary(received[i]) then |received[i]| else 0;
      OutputIsConcat(received, i + 1, written + more);
      assert received[i..][0] == received[i] && received[i..][1..] == received[i + 1..];
      ConcatCons(received[i], Kept(received[i + 1..], written + |received[i]|));
    }
  }

  /** `space` is how many bytes the file takes before a write fails, if one does. */
  method WriteRecords(received: seq<Bytes>, space: Option<nat>) returns (file: Bytes, ok: bool)
    ensures ok <==> space.None? || |Concat(Kept(received, 0))| <= space.value
    ensures ok ==> file == Concat(Kept(received, 0))
    ensures !ok ==> file == Concat(Kept(received, 0))[..space.value]
  {
    OutputIsConcat(received, 0, 0);
    assert received[0..] == received;
    file, ok := WriteAllRecords(received, space, IS_SUMMARY);
  }

  method WriteAllRecords(received: seq<Bytes>, space: Option<nat>, urgent: Bytes -> bool)
    returns (file: Bytes, ok: bool)
    ensures var output := OutputFrom(received, 0, 0, urgent);
            && (ok <==> space.None? || |output| <= space.value)
            && file == if ok then output else output[..space.value]
  {
    file, ok := [], true;
    var written, i := 0, 0;
    ghost var goal := OutputFrom(received, 0, 0, urgent);
    while i < |received| && received[i] != []
      invariant 0 <= i <= |received|
      invariant written == |file| && (space.Some? ==> written <= space.value)
      invariant goal == file + OutputFrom(received, i, written, urgent) && ok
      decreases |received| - i
    {
      var record := received[i];
      if written + |record| <= MAX_FILE || urgent(record) {
        ghost var before, rest := file, OutputFrom(received, i + 1, written + |record|, urgent);
        Associate(file, record, rest);
        file, ok := WriteAll(file, record, space);
        if !ok {
          CutEarly(before, record, rest, space.value);
          return;
        }
        written := written + |record|;
      }
      i := i + 1;
    }
  }

  /** A failed write leaves what still fitted. */
  method WriteAll(file: Bytes, record: Bytes, space: Option<nat>) returns (after: Bytes, ok: bool)
    requires space.Some? ==> |file| <= space.value
    ensures ok <==> space.None? || |file + record| <= space.value
    ensures after == if ok then file + record else (file + record)[..space.value]
  {
    ok := space.None? || |file| + |record| <= space.value;
    after := if ok then file + record else file + record[..space.value - |file|];
  }

  lemma CutEarly(file: Bytes, record: Bytes, rest: Bytes, space: nat)
    requires space < |file + record|
    ensures (file + (record + rest))[..space] == (file + record)[..space]
  {
  }

  lemma ConcatCons(record: Bytes, rest: seq<Bytes>)
    ensures Concat([record] + rest) == record + Concat(rest)
  {
    assert ([record] + rest)[1..] == rest;
  }

  /** `part` keeps the order of `whole`. */
  ghost predicate Subsequence(part: seq<Bytes>, whole: seq<Bytes>) {
    part == [] ||
    (whole != [] && ((part[0] == whole[0] && Subsequence(part[1..], whole[1..])) || Subsequence(part, whole[1..])))
  }

  function SummaryBytes(records: seq<Bytes>): nat {
    if records == [] then 0
    else (if IsSummary(records[0]) then |records[0]| else 0) + SummaryBytes(records[1..])
  }

  /** The writer only leaves records out; what it writes are whole records in the order received. */
  lemma {:induction false} KeptInOrder(received: seq<Bytes>, written: nat)
    ensures Subsequence(Kept(received, written), received)
  {
    if received != [] && received[0] != [] {
      if written + |received[0]| <= MAX_FILE || IsSummary(received[0]) {
        KeptInOrder(received[1..], written + |received[0]|);
        assert Kept(received, written)[1..] == Kept(received[1..], written + |received[0]|);
      } else {
        KeptInOrder(received[1..], written);
      }
    }
  }

  lemma PrefixIs()
    ensures SUMMARY_PREFIX == Ascii("{\"dropped_records\"")
  {
    assert "{\"" + DROPPED + "\"" == "{\"dropped_records\"";
  }

  /**
   Each further record is judged by itself: it is written iff it fits into 8 MiB with what is there, or begins as a
   summary does. With StopEndsWriting this determines what is kept.
   */
  lemma {:induction false} KeptJudgesEach(received: seq<Bytes>, record: Bytes, written: nat)
    requires record != [] && forall i | 0 <= i < |received| :: received[i] != []
    ensures var before := Kept(received, written);
            Kept(received + [record], written) ==
            before + if written + |Concat(before)| + |record| <= 8_388_608 || Ascii("{\"dropped_records\"") <= record
                     then [record] else []
  {
    PrefixIs();
    var all := received + [record];
    if received == [] {
      assert all[1..] == [];
    } else {
      assert all[0] == received[0] && all[1..] == received[1..] + [record];
      if written + |received[0]| <= MAX_FILE || IsSummary(received[0]) {
        KeptJudgesEach(received[1..], record, written + |received[0]|);
        ConcatCons(received[0], Kept(received[1..], written + |received[0]|));
      } else {
        KeptJudgesEach(received[1..], record, written);
      }
    }
  }

  lemma {:induction false} StopEndsWriting(received: seq<Bytes>, more: seq<Bytes>, written: nat)
    requires forall i | 0 <= i < |received| :: received[i] != []
    ensures Kept(received + [[]] + more, written) == Kept(received, written)
  {
    var all := received + [[]] + more;
    if received != [] {
      assert all[0] == received[0] && all[1..] == received[1..] + [[]] + more;
      StopEndsWriting(received[1..], more, written + |received[0]|);
      StopEndsWriting(received[1..], more, written);
    }
  }

  /** The file never exceeds its bound by more than the summaries. */
  lemma {:induction false} FileBounded(received: seq<Bytes>, written: nat)
    ensures written + |Concat(Kept(received, written))| <=
            (if written > MAX_FILE then written else MAX_FILE) + SummaryBytes(received)
  {
    if received != [] && received[0] != [] {
      if written + |received[0]| <= MAX_FILE || IsSummary(received[0]) {
        FileBounded(received[1..], written + |received[0]|);
        ConcatCons(received[0], Kept(received[1..], written + |received[0]|));
      } else {
        FileBounded(received[1..], written);
      }
    }
  }

  lemma {:induction false} SummaryIsLast(records: seq<Bytes>, summary: Bytes, written: nat)
    requires IsSummary(summary)
    requires forall i | 0 <= i < |records| :: records[i] != []
    ensures var kept := Kept(records + [summary, []], written);
            && |kept| >= 1 && kept[|kept| - 1] == summary
            && Subsequence(kept[..|kept| - 1], records)
  {
    var all := records + [summary, []];
    if records == [] {
      assert all[1..] == [[]];
      assert Kept(all, written) == [summary] + Kept([[]], written + |summary|);
    } else {
      assert all[0] == records[0];
      assert all[1..] == records[1..] + [summary, []];
      if written + |records[0]| <= MAX_FILE || IsSummary(records[0]) {
        SummaryIsLast(records[1..], summary, written + |records[0]|);
        var rest := Kept(all[1..], written + |records[0]|);
        var kept := Kept(all, written);
        assert kept == [records[0]] + rest;
        assert kept[..|kept| - 1][1..] == rest[..|rest| - 1];
      } else {
        SummaryIsLast(records[1..], summary, written);
      }
    }
  }

  /** Up to the bound nothing is left out. */
  lemma {:induction false} EverythingFits(received: seq<Bytes>, written: nat)
    requires forall i | 0 <= i < |received| :: received[i] != []
    requires written + |Concat(received)| <= MAX_FILE
    ensures Kept(received, written) == received
  {
    if received != [] {
      EverythingFits(received[1..], written + |received[0]|);
    }
  }

  // ----- the records themselves

  type Member = (string, Bytes)

  const BY_KEY := (a: Member, b: Member) => Le(a.0, b.0)

  function Members(members: seq<Member>): Bytes
    decreases |members|, 0
  {
    if members == [] then []
    else Ascii("\"" + members[0].0 + "\"") + (Ascii(":") + members[0].1 + More(members[1..]))
  }

  function More(members: seq<Member>): Bytes
    decreases |members|, 1
  {
    if members == [] then [] else Ascii(",") + Members(members)
  }

  /** A JSON object as the library writes it: members in key order. */
  function Object(members: seq<Member>): Bytes {
    Ascii("{") + Members(Sort(members, BY_KEY)) + Ascii("}")
  }

  /** The telemetry summary; `dropped` and `stages` are the JSON text of those two values. */
  function SummaryMembers(dropped: Bytes, stages: Bytes): seq<Member> {
    [("fields", Ascii("{\"message\":\"summary\"}")), (DROPPED, dropped), ("stages", stages)]
  }

  function Summary(dropped: Bytes, stages: Bytes): Bytes {
    Object(SummaryMembers(dropped, stages)) + [10]
  }

  /** A span record, from the JSON text of its values. */
  function SpanMembers(fields: Bytes, span: Bytes, spans: Bytes, id: Bytes, elapsed: Bytes): seq<Member> {
    [("fields", fields), ("span", span), ("spans", spans), ("span_id", id), ("elapsed_us", elapsed)]
  }

  function SpanRecord(fields: Bytes, span: Bytes, spans: Bytes, id: Bytes, elapsed: Bytes): Bytes {
    Object(SpanMembers(fields, span, spans, id, elapsed)) + [10]
  }

  lemma KeysAreOrdered()
    ensures TotalOrder(BY_KEY)
  {
    forall a: Member, b: Member
      ensures BY_KEY(a, b) || BY_KEY(b, a)
    {
      LeTotal(a.0, b.0);
    }
    forall a: Member, b: Member, c: Member | BY_KEY(a, b) && BY_KEY(b, c)
      ensures BY_KEY(a, c)
    {
      LeTransitive(a.0, b.0, c.0);
    }
  }

  lemma LeastKeyIsFirst(members: seq<Member>, k: nat)
    requires k < |members| && forall i | 0 <= i < |members| :: Le(members[k].0, members[i].0)
    ensures Sort(members, BY_KEY)[0].0 == members[k].0
  {
    KeysAreOrdered();
    SortSorts(members, BY_KEY);
    var sorted, least := Sort(members, BY_KEY), members[k];
    assert sorted[0] in multiset(members) && least in multiset(sorted);
    var j :| 0 <= j < |sorted| && sorted[j] == least;
    assert j > 0 ==> BY_KEY(sorted[0], sorted[j]);
    if j > 0 {
      LeAntisymmetric(sorted[0].0, least.0);
    }
  }

  lemma ObjectStartsWith(members: seq<Member>, k: nat)
    requires k < |members| && forall i | 0 <= i < |members| :: Le(members[k].0, members[i].0)
    ensures Opening(members[k].0) <= Object(members)
  {
    LeastKeyIsFirst(members, k);
    var key := "\"" + members[k].0 + "\"";
    assert "{" + key == "{\"" + members[k].0 + "\"";
    assert Ascii("{" + key) == Ascii("{") + Ascii(key);
    assert Ascii(key) <= Members(Sort(members, BY_KEY));
  }

  lemma LeByFirst(a: string, b: string)
    requires a != "" && b != "" && (a[0] < b[0] || a == b)
    ensures Le(a, b)
  {
    LeTotal(a, b);
  }

  /** The summary is recognised as one by its first key. */
  lemma SummaryIsRecognised(dropped: Bytes, stages: Bytes)
    ensures IsSummary(Summary(dropped, stages))
  {
    var members := SummaryMembers(dropped, stages);
    forall i | 0 <= i < |members|
      ensures Le(members[1].0, members[i].0)
    {
      LeByFirst(members[1].0, members[i].0);
    }
    ObjectStartsWith(members, 1);
  }

  lemma OtherOpening(key: string, other: string, record: Bytes)
    requires key != "" && other != "" && key[0] < other[0] < 'z' && Opening(other) <= record
    ensures !(Opening(key) <= record)
  {
    assert ("{\"" + key + "\"")[2] == key[0] && ("{\"" + other + "\"")[2] == other[0];
    assert record[2] == Opening(other)[2] != Opening(key)[2];
  }

  /** A span record never is, so none of them gets past the bound. */
  lemma SpanRecordIsNot(fields: Bytes, span: Bytes, spans: Bytes, id: Bytes, elapsed: Bytes)
    ensures !IsSummary(SpanRecord(fields, span, spans, id, elapsed))
  {
    var members := SpanMembers(fields, span, spans, id, elapsed);
    forall i | 0 <= i < |members|
      ensures Le(members[4].0, members[i].0)
    {
      LeByFirst(members[4].0, members[i].0);
    }
    ObjectStartsWith(members, 4);
    OtherOpening(DROPPED, members[4].0, SpanRecord(fields, span, spans, id, elapsed));
  }

  // ----- a whole session

  /** `finish` sends the summary and then the stop record: the summary ends the file, whatever came before. */
  lemma FinishEndsWithSummary(records: seq<Bytes>, dropped: Bytes, stages: Bytes)
    requires forall i | 0 <= i < |records| :: records[i] != []
    ensures var kept := Kept(records + [Summary(dropped, stages), []], 0);
            && |kept| >= 1 && kept[|kept| - 1] == Summary(dropped, stages)
            && Subsequence(kept[..|kept| - 1], records)
  {
    SummaryIsRecognised(dropped, stages);
    SummaryIsLast(records, Summary(dropped, stages), 0);
  }

  lemma {:induction false} OnlySummaryCounts(records: seq<Bytes>, summary: Bytes)
    requires IsSummary(summary) && forall i | 0 <= i < |records| :: !IsSummary(records[i])
    ensures SummaryBytes(records + [summary, []]) == |summary|
  {
    var all := records + [summary, []];
    if records == [] {
      var stop: seq<Bytes> := [[]];
      assert all[1..] == stop && |stop[1..]| == 0;
    } else {
      assert all[1..] == records[1..] + [summary, []];
      OnlySummaryCounts(records[1..], summary);
    }
  }

  /** The file of a whole session exceeds MAX_FILE by no more than its one summary. */
  lemma SessionBounded(records: seq<Bytes>, dropped: Bytes, stages: Bytes)
    requires forall i | 0 <= i < |records| :: !IsSummary(records[i])
    ensures |Concat(Kept(records + [Summary(dropped, stages), []], 0))| <= MAX_FILE + |Summary(dropped, stages)|
  {
    SummaryIsRecognised(dropped, stages);
    OnlySummaryCounts(records, Summary(dropped, stages));
    FileBounded(records + [Summary(dropped, stages), []], 0);
  }
}
