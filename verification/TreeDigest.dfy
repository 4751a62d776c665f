/**
 The byte stream that the tree digest hashes: three length-prefixed git outputs, then the untracked
 entries one after the other with no count. Contents of plain files enter as size and content hash.
 */
module TreeDigest {
  import opened Counting
  import opened Sequences

  type Byte = b: nat | b < 256
  type Bytes = seq<Byte>

  const HASH_SIZE := 32

  datatype Body = Link(target: Bytes) | File(size: nat, hash: Bytes)

  /** `mode` holds the execute bits only. */
  datatype Entry = Entry(name: Bytes, mode: nat, body: Body)

  datatype Tree = Tree(unstaged: Bytes, staged: Bytes, index: Bytes, untracked: seq<Entry>)

  // ----- little-endian numbers

  function Pow256(k: nat): (r: nat)
    ensures r >= 1
  {
    if k == 0 then 1 else 256 * Pow256(k - 1)
  }

  function ToLe(n: nat, k: nat): (b: Bytes)
    ensures |b| == k
  {
    if k == 0 then [] else [n % 256] + ToLe(n / 256, k - 1)
  }

  function FromLe(b: Bytes): nat {
    if b == [] then 0 else b[0] + 256 * FromLe(b[1..])
  }

  lemma {:induction false} LeRoundTrip(n: nat, k: nat)
    requires n < Pow256(k)
    ensures FromLe(ToLe(n, k)) == n
    decreases k
  {
    if k > 0 {
      LeRoundTrip(n / 256, k - 1);
      assert ToLe(n, k)[1..] == ToLe(n / 256, k - 1);
    }
  }

  // ----- what is hashed

  /** Lengths fit in 64 bits, and the mode in the 32 bits it is written with. */
  ghost predicate Representable(e: Entry) {
    && |e.name| < Pow256(8) && e.mode < Pow256(4)
    && match e.body
       case Link(target) => |target| < Pow256(8)
       case File(size, hash) => size < Pow256(8) && |hash| == HASH_SIZE
  }

  ghost predicate TreeOk(t: Tree) {
    && |t.unstaged| < Pow256(8) && |t.staged| < Pow256(8) && |t.index| < Pow256(8)
    && forall i | 0 <= i < |t.untracked| :: Representable(t.untracked[i])
  }

  function Framed(b: Bytes): Bytes { ToLe(|b|, 8) + b }

  function EncodeBody(body: Body): Bytes {
    match body
    case Link(target) => Framed(target)
    case File(size, hash) => ToLe(size, 8) + hash
  }

  function EncodeEntry(e: Entry): Bytes {
    Framed(e.name) + [if e.body.Link? then 1 else 0] + ToLe(e.mode, 4) + EncodeBody(e.body)
  }

  function EncodeEntries(entries: seq<Entry>): Bytes {
    if entries == [] then [] else EncodeEntry(entries[0]) + EncodeEntries(entries[1..])
  }

  function Encode(t: Tree): Bytes {
    Framed(t.unstaged) + Framed(t.staged) + Framed(t.index) + EncodeEntries(t.untracked)
  }

  /** Streaming into the digest, part by part. */
  method FeedDigest(t: Tree) returns (stream: Bytes)
    ensures stream == Encode(t)
  {
    var outputs := FeedOutputs([t.unstaged, t.staged, t.index]);
    ThreeOutputs(t.unstaged, t.staged, t.index);
    stream := FeedEntries(outputs, t.untracked);
  }

  function FramedAll(outputs: seq<Bytes>): Bytes {
    if outputs == [] then [] else FramedAll(outputs[..|outputs| - 1]) + Framed(outputs[|outputs| - 1])
  }

  lemma ThreeOutputs(a: Bytes, b: Bytes, c: Bytes)
    ensures FramedAll([a, b, c]) == Framed(a) + Framed(b) + Framed(c)
  {
    assert [a, b, c][..2] == [a, b] && [a, b][..1] == [a] && [a][..0] == [];
    assert FramedAll([a]) == Framed(a);
  }

  method FeedOutputs(outputs: seq<Bytes>) returns (stream: Bytes)
    ensures stream == FramedAll(outputs)
  {
    stream := [];
    for i := 0 to |outputs|
      invariant stream == FramedAll(outputs[..i])
    {
      assert outputs[..i + 1][..i] == outputs[..i];
      Associate(stream, ToLe(|outputs[i]|, 8), outputs[i]);
      stream := stream + ToLe(|outputs[i]|, 8);
      stream := stream + outputs[i];
    }
    assert outputs[..|outputs|] == outputs;
  }

  method FeedEntries(stream: Bytes, entries: seq<Entry>) returns (more: Bytes)
    ensures more == stream + EncodeEntries(entries)
  {
    more := stream;
    for i := 0 to |entries|
      invariant more + EncodeEntries(entries[i..]) == stream + EncodeEntries(entries)
    {
      assert entries[i..][1..] == entries[i + 1..];
      Associate(more, EncodeEntry(entries[i]), EncodeEntries(entries[i + 1..]));
      more := FeedEntry(more, entries[i]);
    }
  }

  method FeedEntry(stream: Bytes, e: Entry) returns (more: Bytes)
    ensures more == stream + EncodeEntry(e)
  {
    more := stream + ToLe(|e.name|, 8);
    more := more + e.name;
    more := more + [if e.body.Link? then 1 else 0];
    more := more + ToLe(e.mode, 4);
    match e.body
    case Link(target) =>
      more := more + ToLe(|target|, 8);
      more := more + target;
    case File(size, hash) =>
      more := more + ToLe(size, 8);
      more := more + hash;
  }

  // ----- reading it back

  datatype Parsed<T> = Bad | Good(value: T, rest: Bytes)

  function TakeNumber(b: Bytes, k: nat): Parsed<nat> {
    if |b| < k then Bad else Good(FromLe(b[..k]), b[k..])
  }

  function TakeBytes(b: Bytes, n: nat): Parsed<Bytes> {
    if |b| < n then Bad else Good(b[..n], b[n..])
  }

  function TakeFramed(b: Bytes): Parsed<Bytes> {
    var n := TakeNumber(b, 8);
    if n.Bad? then Bad else TakeBytes(n.rest, n.value)
  }

  function TakeBody(b: Bytes, link: bool): Parsed<Body> {
    if link then
      var target := TakeFramed(b);
      if target.Bad? then Bad else Good(Link(target.value), target.rest)
    else
      var size := TakeNumber(b, 8);
      if size.Bad? then Bad
      else
        var hash := TakeBytes(size.rest, HASH_SIZE);
        if hash.Bad? then Bad else Good(File(size.value, hash.value), hash.rest)
  }

  function TakeEntry(b: Bytes): Parsed<Entry> {
    var name := TakeFramed(b);
    if name.Bad? || name.rest == [] then Bad
    else
      var mode := TakeNumber(name.rest[1..], 4);
      if mode.Bad? then Bad
      else
        var body := TakeBody(mode.rest, name.rest[0] == 1);
        if body.Bad? then Bad else Good(Entry(name.value, mode.value, body.value), body.rest)
  }

  function TakeEntries(b: Bytes): Parsed<seq<Entry>>
    decreases |b|
  {
    if b == [] then Good([], [])
    else
      var first := TakeEntry(b);
      if first.Bad? || |first.rest| >= |b| then Bad
      else
        var others := TakeEntries(first.rest);
        if others.Bad? then Bad else Good([first.value] + others.value, others.rest)
  }

  function Decode(b: Bytes): Parsed<Tree> {
    var unstaged := TakeFramed(b);
    if unstaged.Bad? then Bad
    else
      var staged := TakeFramed(unstaged.rest);
      if staged.Bad? then Bad
      else
        var index := TakeFramed(staged.rest);
        if index.Bad? then Bad
        else
          var untracked := TakeEntries(index.rest);
          if untracked.Bad? then Bad
          else Good(Tree(unstaged.value, staged.value, index.value, untracked.value), untracked.rest)
  }

  // ----- every part reads back, whatever follows it

  lemma NumberReads(n: nat, k: nat, rest: Bytes)
    requires n < Pow256(k)
    ensures TakeNumber(ToLe(n, k) + rest, k) == Good(n, rest)
  {
    LeRoundTrip(n, k);
    var b := ToLe(n, k) + rest;
    assert b[..k] == ToLe(n, k) && b[k..] == rest;
  }

  lemma FramedReads(x: Bytes, rest: Bytes)
    requires |x| < Pow256(8)
    ensures TakeFramed(Framed(x) + rest) == Good(x, rest)
  {
    NumberReads(|x|, 8, x + rest);
    assert Framed(x) + rest == ToLe(|x|, 8) + (x + rest);
    assert (x + rest)[..|x|] == x && (x + rest)[|x|..] == rest;
  }

  lemma BodyReads(body: Body, rest: Bytes)
    requires match body
             case Link(target) => |target| < Pow256(8)
             case File(size, hash) => size < Pow256(8) && |hash| == HASH_SIZE
    ensures TakeBody(EncodeBody(body) + rest, body.Link?) == Good(body, rest)
  {
    match body
    case Link(target) => FramedReads(target, rest);
    case File(size, hash) =>
      NumberReads(size, 8, hash + rest);
      assert EncodeBody(body) + rest == ToLe(size, 8) + (hash + rest);
      assert (hash + rest)[..HASH_SIZE] == hash && (hash + rest)[HASH_SIZE..] == rest;
  }

  lemma EntryParts(e: Entry, rest: Bytes)
    ensures EncodeEntry(e) + rest ==
            Framed(e.name) + ([if e.body.Link? then 1 else 0] + (ToLe(e.mode, 4) + (EncodeBody(e.body) + rest)))
  {
    Nest(Framed(e.name), [if e.body.Link? then 1 else 0], ToLe(e.mode, 4), EncodeBody(e.body), rest);
  }

  /** An entry is self-delimiting: it reads back with exactly what follows it left over. */
  lemma EntryReads(e: Entry, rest: Bytes)
    requires Representable(e)
    ensures TakeEntry(EncodeEntry(e) + rest) == Good(e, rest)
    ensures |EncodeEntry(e)| > 0
  {
    EntryParts(e, rest);
    var tail := ToLe(e.mode, 4) + (EncodeBody(e.body) + rest);
    var flag: Bytes := [if e.body.Link? then 1 else 0];
    FramedReads(e.name, flag + tail);
    assert (flag + tail)[1..] == tail && (flag + tail)[0] == flag[0];
    NumberReads(e.mode, 4, EncodeBody(e.body) + rest);
    BodyReads(e.body, rest);
  }

  lemma TakeMore(b: Bytes, e: Entry, entries: seq<Entry>, rest: Bytes)
    requires TakeEntry(b) == Good(e, rest) && |rest| < |b|
    requires TakeEntries(rest) == Good(entries, [])
    ensures TakeEntries(b) == Good([e] + entries, [])
  {
  }

  lemma {:induction false} EntriesRead(entries: seq<Entry>)
    requires forall i | 0 <= i < |entries| :: Representable(entries[i])
    ensures TakeEntries(EncodeEntries(entries)) == Good(entries, [])
  {
    if entries != [] {
      var rest := EncodeEntries(entries[1..]);
      EntryReads(entries[0], rest);
      EntriesRead(entries[1..]);
      TakeMore(EncodeEntry(entries[0]) + rest, entries[0], entries[1..], rest);
      assert [entries[0]] + entries[1..] == entries;
    }
  }

  /** Round trip: the stream determines the three outputs and the list of entries. */
  lemma DecodeEncode(t: Tree)
    requires TreeOk(t)
    ensures Decode(Encode(t)) == Good(t, [])
  {
    var entries := EncodeEntries(t.untracked);
    var second := Framed(t.index) + entries;
    var first := Framed(t.staged) + second;
    EncodeParts(t);
    FramedReads(t.unstaged, first);
    FramedReads(t.staged, second);
    FramedReads(t.index, entries);
    EntriesRead(t.untracked);
  }

  lemma EncodeParts(t: Tree)
    ensures Encode(t) ==
            Framed(t.unstaged) + (Framed(t.staged) + (Framed(t.index) + EncodeEntries(t.untracked)))
  {
    Associate(Framed(t.unstaged) + Framed(t.staged), Framed(t.index), EncodeEntries(t.untracked));
    Associate(Framed(t.unstaged), Framed(t.staged), Framed(t.index) + EncodeEntries(t.untracked));
  }

  /** The framing is injective, although no entry count is written. */
  lemma EncodeInjective(t: Tree, u: Tree)
    requires TreeOk(t) && TreeOk(u) && Encode(t) == Encode(u)
    ensures t == u
  {
    DecodeEncode(t);
    DecodeEncode(u);
  }

  /** The symlink flag is what tells the two kinds of body apart: without it a link could pass for a file. */
  lemma FlagIsNeeded(target: Bytes)
    requires |target| == HASH_SIZE
    ensures EncodeBody(Link(target)) == EncodeBody(File(HASH_SIZE, target))
  {
  }

  // ----- the layout, byte by byte

  /** Byte i of a number is its i-th digit to the base 256, lowest first. */
  lemma {:induction false} LeByte(n: nat, k: nat, i: nat)
    requires i < k
    ensures ToLe(n, k)[i] == n / Pow256(i) % 256
    decreases k
  {
    if i > 0 {
      LeByte(n / 256, k - 1, i - 1);
      DivideTwice(n, 256, Pow256(i - 1));
    }
  }

  /** Where the parts of an entry stand: length of the name, name, symlink flag, mode, then the body. */
  lemma EntryLayout(e: Entry)
    ensures var b, n := EncodeEntry(e), |e.name|;
            && |b| >= n + 13 && b[..8] == ToLe(n, 8) && b[8..n + 8] == e.name
            && b[n + 8] == (if e.body.Link? then 1 else 0)
            && b[n + 9..n + 13] == ToLe(e.mode, 4)
            && match e.body {
                 case Link(target) => b[n + 13..] == ToLe(|target|, 8) + target
                 case File(size, hash) => b[n + 13..] == ToLe(size, 8) + hash
               }
  {
    EntryParts(e, []);
    var flag: Bytes := [if e.body.Link? then 1 else 0];
    var body := EncodeBody(e.body);
    Layout(ToLe(|e.name|, 8), e.name, flag, ToLe(e.mode, 4), body);
    assert EncodeEntry(e) == ToLe(|e.name|, 8) + e.name + flag + ToLe(e.mode, 4) + body;
  }

  lemma Layout(a: Bytes, b: Bytes, c: Bytes, d: Bytes, e: Bytes)
    requires |a| == 8 && |c| == 1 && |d| == 4
    ensures var all, n := a + b + c + d + e, |b|;
            && |all| >= n + 13 && all[..8] == a && all[8..n + 8] == b && all[n + 8] == c[0]
            && all[n + 9..n + 13] == d && all[n + 13..] == e
  {
  }

  /** The stream starts with the unstaged changes, then the staged ones, then the index, each after its length. */
  lemma StreamLayout(t: Tree)
    ensures Encode(t) == ToLe(|t.unstaged|, 8) + t.unstaged + (ToLe(|t.staged|, 8) + t.staged) +
                         (ToLe(|t.index|, 8) + t.index) + EncodeEntries(t.untracked)
  {
  }
}
