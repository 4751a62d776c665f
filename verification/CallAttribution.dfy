/** Nested functions, blocks, declarations and calls, printed as lines: each call belongs to its innermost function. */
module CallAttribution {
  import opened Sequences
  import opened Sorting
  import opened Text
  import opened FunctionScan
  import opened LineTokens

  // ----- lines to trees

  datatype Item =
    | Function(gap: string, name: string, signature: seq<string>, body: seq<Item>)
    | Declaration(gap: string, name: string, signature: seq<string>)
    | Block(body: seq<Item>)
    | Call(text: string)
    | Code(text: string)
    | Terminator

  function PlainTokens(texts: seq<string>): seq<Token> {
    if texts == [] then [] else [Plain(texts[0])] + PlainTokens(texts[1..])
  }

  function ItemTokens(item: Item): seq<Token>
    decreases item, 0
  {
    match item
    case Function(gap, name, signature, body) =>
      [FnToken(gap, name)] + PlainTokens(signature) + [Open] + Tokens(body) + [Close]
    case Declaration(gap, name, signature) => [FnToken(gap, name)] + PlainTokens(signature) + [Semi]
    case Block(body) => [Open] + Tokens(body) + [Close]
    case Call(text) => [CallToken(text)]
    case Code(text) => [Plain(text)]
    case Terminator => [Semi]
  }

  function Tokens(items: seq<Item>): seq<Token>
    decreases items, 1
  {
    if items == [] then [] else ItemTokens(items[0]) + Tokens(items[1..])
  }

  /** Every call with its innermost enclosing function. */
  function Enclosing(items: seq<Item>, owner: string): seq<string>
    decreases items, 1
  {
    if items == [] then [] else EnclosingItem(items[0], owner) + Enclosing(items[1..], owner)
  }

  function EnclosingItem(item: Item, owner: string): seq<string>
    decreases item, 0
  {
    match item
    case Function(_, name, _, body) => Enclosing(body, "fn " + name)
    case Block(body) => Enclosing(body, owner)
    case Call(_) => [owner]
    case _ => []
  }

  ghost predicate Named(items: seq<Item>)
    decreases items, 1
  {
    forall i | 0 <= i < |items| :: NamedItem(items[i])
  }

  ghost predicate NamedItem(item: Item)
    decreases item, 0
  {
    match item
    case Function(_, name, _, body) => name != "" && Named(body)
    case Declaration(_, name, _) => name != ""
    case Block(body) => Named(body)
    case _ => true
  }

  /** Between items: every function on the stack is entered, at a smaller depth. */
  predicate Settled(s: Scanner) {
    forall i | 0 <= i < |s.open| :: s.open[i].entered && s.open[i].base < s.depth
  }

  lemma {:induction false} RunAppends(s: Scanner, a: seq<Token>, b: seq<Token>)
    ensures Run(s, a + b) == Run(Run(s, a), b)
    ensures Owners(s, a + b) == Owners(s, a) + Owners(Run(s, a), b)
    decreases |a|
  {
    if a == [] {
      assert a + b == b;
    } else {
      assert (a + b)[1..] == a[1..] + b;
      RunAppends(TokenStep(s, a[0]), a[1..], b);
    }
  }

  lemma {:induction false} PlainIsIdle(s: Scanner, texts: seq<string>)
    ensures Run(s, PlainTokens(texts)) == s && Owners(s, PlainTokens(texts)) == []
  {
    if texts != [] {
      assert PlainTokens(texts)[1..] == PlainTokens(texts[1..]);
      PlainIsIdle(s, texts[1..]);
    }
  }

  lemma RunOne(s: Scanner, t: Token)
    ensures Run(s, [t]) == TokenStep(s, t)
    ensures Owners(s, [t]) == if t.CallToken? then [Owner(s.open)] else []
  {
  }

  /** A braced body: open, items, close. */
  lemma RunBraced(s: Scanner, body: seq<Token>, owners: seq<string>)
    requires Run(OpenBrace(s), body) == OpenBrace(s) && Owners(OpenBrace(s), body) == owners
    ensures Run(s, [Open] + body + [Close]) == CloseBrace(OpenBrace(s))
    ensures Owners(s, [Open] + body + [Close]) == owners
  {
    RunOne(s, Open);
    RunOne(OpenBrace(s), Close);
    RunAppends(s, [Open], body);
    RunAppends(s, [Open] + body, [Close]);
    assert owners + [] == owners;
  }

  lemma RunSignature(s: Scanner, gap: string, name: string, signature: seq<string>)
    requires name != ""
    ensures Run(s, [FnToken(gap, name)] + PlainTokens(signature)) == PushFn(s, name)
    ensures Owners(s, [FnToken(gap, name)] + PlainTokens(signature)) == []
  {
    RunOne(s, FnToken(gap, name));
    PlainIsIdle(PushFn(s, name), signature);
    RunAppends(s, [FnToken(gap, name)], PlainTokens(signature));
  }

  /** Entering a function's body and leaving it again. */
  lemma FunctionBraces(s: Scanner, name: string)
    requires Settled(s) && name != ""
    ensures var inside := OpenBrace(PushFn(s, name));
            Settled(inside) && Owner(inside.open) == "fn " + name && CloseBrace(inside) == s
  {
    var pushed := PushFn(s, name);
    var inside := OpenBrace(pushed);
    assert inside.open == s.open + [Entry("fn " + name, s.depth, true)];
    assert inside.open[..|inside.open| - 1] == s.open;
    assert PopClosed(s.depth, s.open) == s.open;
  }

  lemma BlockBraces(s: Scanner)
    requires Settled(s)
    ensures Settled(OpenBrace(s)) && OpenBrace(s).open == s.open && CloseBrace(OpenBrace(s)) == s
  {
  }

  lemma GroupBraces(head: seq<Token>, a: seq<Token>, body: seq<Token>, b: seq<Token>)
    ensures head + a + body + b == head + (a + body + b)
  {
  }

  lemma RunFunction(
    s: Scanner, gap: string, name: string, signature: seq<string>, body: seq<Token>, owners: seq<string>)
    requires Settled(s) && name != ""
    requires var inside := OpenBrace(PushFn(s, name)); Run(inside, body) == inside && Owners(inside, body) == owners
    ensures var tokens := [FnToken(gap, name)] + PlainTokens(signature) + [Open] + body + [Close];
            Run(s, tokens) == s && Owners(s, tokens) == owners
  {
    var head, braced := [FnToken(gap, name)] + PlainTokens(signature), [Open] + body + [Close];
    FunctionBraces(s, name);
    RunSignature(s, gap, name, signature);
    RunBraced(PushFn(s, name), body, owners);
    RunAppends(s, head, braced);
    NothingBefore(owners);
    GroupBraces(head, [Open], body, [Close]);
  }

  lemma RunDeclaration(s: Scanner, gap: string, name: string, signature: seq<string>)
    requires name != ""
    ensures var tokens := [FnToken(gap, name)] + PlainTokens(signature) + [Semi];
            Run(s, tokens) == s && Owners(s, tokens) == []
  {
    RunSignature(s, gap, name, signature);
    RunOne(PushFn(s, name), Semi);
    RunAppends(s, [FnToken(gap, name)] + PlainTokens(signature), [Semi]);
    assert PushFn(s, name).open[..|s.open|] == s.open;
  }

  lemma {:induction false} ItemAttributed(s: Scanner, item: Item)
    requires Settled(s) && NamedItem(item)
    ensures Run(s, ItemTokens(item)) == s
    ensures Owners(s, ItemTokens(item)) == EnclosingItem(item, Owner(s.open))
    decreases item, 0
  {
    match item
    case Function(gap, name, signature, body) =>
      FunctionBraces(s, name);
      ItemsAttributed(OpenBrace(PushFn(s, name)), body);
      RunFunction(s, gap, name, signature, Tokens(body), Enclosing(body, "fn " + name));
    case Declaration(gap, name, signature) =>
      RunDeclaration(s, gap, name, signature);
    case Block(body) =>
      BlockBraces(s);
      ItemsAttributed(OpenBrace(s), body);
      RunBraced(s, Tokens(body), Enclosing(body, Owner(s.open)));
    case Call(text) => RunOne(s, CallToken(text));
    case Code(text) => RunOne(s, Plain(text));
    case Terminator => RunOne(s, Semi);
  }

  /** On tokens: each call gets its innermost enclosing function, and depth and stack are restored. */
  lemma {:induction false} ItemsAttributed(s: Scanner, items: seq<Item>)
    requires Settled(s) && Named(items)
    ensures Run(s, Tokens(items)) == s
    ensures Owners(s, Tokens(items)) == Enclosing(items, Owner(s.open))
    decreases items, 1
  {
    if items != [] {
      ItemAttributed(s, items[0]);
      ItemsAttributed(s, items[1..]);
      RunAppends(s, ItemTokens(items[0]), Tokens(items[1..]));
    }
  }

  // ----- signatures that hold more than text

  /** A signature as the scanner may meet it, with array lengths, constant expressions in braces and calls. */
  ghost predicate IsSignature(signature: seq<Item>) {
    Named(signature) && forall i | 0 <= i < |signature| :: !signature[i].Function? && !signature[i].Declaration?
  }

  /** No semicolon and no brace. */
  predicate IsFlat(signature: seq<Item>) {
    forall i | 0 <= i < |signature| :: signature[i].Code? || signature[i].Call?
  }

  /** Who gets the calls of a signature: the first braces count as the function's body, all else is outside. */
  function SignatureOwners(signature: seq<Item>, name: string, outer: string): seq<string> {
    if signature == [] then []
    else match signature[0]
      case Code(_) => SignatureOwners(signature[1..], name, outer)
      case Call(_) => [outer] + SignatureOwners(signature[1..], name, outer)
      case Block(body) => Enclosing(body, name) + Enclosing(signature[1..], outer)
      case _ => Enclosing(signature[1..], outer)
  }

  /** Who gets the calls of the first item of a signature. */
  function FirstOwners(first: Item, name: string, outer: string): seq<string> {
    match first
    case Call(_) => [outer]
    case Block(body) => Enclosing(body, name)
    case _ => []
  }

  lemma SignatureOwnersFirst(signature: seq<Item>, name: string, outer: string)
    requires signature != []
    ensures var first, rest := signature[0], signature[1..];
            SignatureOwners(signature, name, outer) ==
            FirstOwners(first, name, outer) +
            if first.Code? || first.Call? then SignatureOwners(rest, name, outer) else Enclosing(rest, outer)
    ensures IsFlat(signature) <==> (signature[0].Code? || signature[0].Call?) && IsFlat(signature[1..])
  {
    if signature[0].Code? || signature[0].Call? {
      assert forall i | 1 <= i < |signature| :: signature[i] == signature[1..][i - 1];
    }
  }

  /** After its name the function waits on the stack for its body; a semicolon or a pair of braces takes it off. */
  lemma {:induction false} SignatureRuns(s: Scanner, name: string, signature: seq<Item>)
    requires Settled(s) && name != "" && IsSignature(signature)
    ensures Run(PushFn(s, name), Tokens(signature)) == if IsFlat(signature) then PushFn(s, name) else s
    ensures Owners(PushFn(s, name), Tokens(signature)) == SignatureOwners(signature, "fn " + name, Owner(s.open))
    decreases |signature|
  {
    if signature != [] {
      var first, rest := signature[0], signature[1..];
      RunAppends(PushFn(s, name), ItemTokens(first), Tokens(rest));
      FirstRuns(s, name, first);
      SignatureOwnersFirst(signature, "fn " + name, Owner(s.open));
      if first.Code? || first.Call? {
        SignatureRuns(s, name, rest);
      } else {
        ItemsAttributed(s, rest);
      }
    }
  }

  lemma FirstRuns(s: Scanner, name: string, first: Item)
    requires Settled(s) && name != "" && NamedItem(first) && !first.Function? && !first.Declaration?
    ensures Run(PushFn(s, name), ItemTokens(first)) == if first.Code? || first.Call? then PushFn(s, name) else s
    ensures Owners(PushFn(s, name), ItemTokens(first)) == FirstOwners(first, "fn " + name, Owner(s.open))
  {
    var waiting := PushFn(s, name);
    match first
    case Code(text) => RunOne(waiting, Plain(text));
    case Call(text) =>
      RunOne(waiting, CallToken(text));
      assert waiting.open[..|s.open|] == s.open;
    case Terminator =>
      RunOne(waiting, Semi);
      assert waiting.open[..|s.open|] == s.open;
    case Block(body) =>
      FunctionBraces(s, name);
      ItemsAttributed(OpenBrace(waiting), body);
      RunBraced(waiting, Tokens(body), Enclosing(body, "fn " + name));
  }

  function FunctionTokens(gap: string, name: string, signature: seq<Item>, body: seq<Item>): seq<Token> {
    [FnToken(gap, name)] + Tokens(signature) + ([Open] + Tokens(body) + [Close])
  }

  /** The body's calls go to the function if its signature is flat, otherwise to the enclosing one. */
  lemma SignatureDecides(s: Scanner, gap: string, name: string, signature: seq<Item>, body: seq<Item>)
    requires Settled(s) && name != "" && IsSignature(signature) && Named(body)
    ensures var tokens := FunctionTokens(gap, name, signature, body);
            && Run(s, tokens) == s
            && Owners(s, tokens) == SignatureOwners(signature, "fn " + name, Owner(s.open)) +
                                    Enclosing(body, if IsFlat(signature) then "fn " + name else Owner(s.open))
  {
    var head, braced := [FnToken(gap, name)] + Tokens(signature), [Open] + Tokens(body) + [Close];
    RunOne(s, FnToken(gap, name));
    SignatureRuns(s, name, signature);
    RunAppends(s, [FnToken(gap, name)], Tokens(signature));
    NothingBefore(SignatureOwners(signature, "fn " + name, Owner(s.open)));
    RunAppends(s, head, braced);
    BodyRuns(s, name, body, IsFlat(signature));
  }

  lemma BodyRuns(s: Scanner, name: string, body: seq<Item>, waits: bool)
    requires Settled(s) && name != "" && Named(body)
    ensures var before, braced := if waits then PushFn(s, name) else s, [Open] + Tokens(body) + [Close];
            && Run(before, braced) == s
            && Owners(before, braced) == Enclosing(body, if waits then "fn " + name else Owner(s.open))
  {
    var before := if waits then PushFn(s, name) else s;
    FunctionBraces(s, name);
    BlockBraces(s);
    ItemsAttributed(OpenBrace(before), body);
    RunBraced(before, Tokens(body), Enclosing(body, Owner(OpenBrace(before).open)));
  }

  /** A call that belongs to these items themselves, not to a function among them. */
  predicate HasOwnCall(items: seq<Item>)
    decreases items, 1
  {
    items != [] && (IsOwnCall(items[0]) || HasOwnCall(items[1..]))
  }

  predicate IsOwnCall(item: Item)
    decreases item, 0
  {
    match item
    case Call(_) => true
    case Block(body) => HasOwnCall(body)
    case _ => false
  }

  lemma {:induction false} OwnerMatters(items: seq<Item>, a: string, b: string)
    ensures |Enclosing(items, a)| == |Enclosing(items, b)|
    ensures Enclosing(items, a) == Enclosing(items, b) <==> a == b || !HasOwnCall(items)
    decreases items, 1
  {
    if items != [] {
      ItemOwnerMatters(items[0], a, b);
      OwnerMatters(items[1..], a, b);
      SplitEqually(
        EnclosingItem(items[0], a), Enclosing(items[1..], a), EnclosingItem(items[0], b), Enclosing(items[1..], b));
    }
  }

  lemma {:induction false} ItemOwnerMatters(item: Item, a: string, b: string)
    ensures |EnclosingItem(item, a)| == |EnclosingItem(item, b)|
    ensures EnclosingItem(item, a) == EnclosingItem(item, b) <==> a == b || !IsOwnCall(item)
    decreases item, 0
  {
    if item.Block? {
      OwnerMatters(item.body, a, b);
    }
  }

  /**
   Exactly when the calls of a function's body are attributed to it: its signature has neither semicolon nor brace,
   or no call in the body is its own, or the enclosing function has the same name.
   */
  lemma FunctionAttributedIff(s: Scanner, gap: string, name: string, signature: seq<Item>, body: seq<Item>)
    requires Settled(s) && name != "" && IsSignature(signature) && Named(body)
    ensures var calls := SignatureOwners(signature, "fn " + name, Owner(s.open));
            Owners(s, FunctionTokens(gap, name, signature, body)) == calls + Enclosing(body, "fn " + name) <==>
            IsFlat(signature) || !HasOwnCall(body) || Owner(s.open) == "fn " + name
  {
    SignatureDecides(s, gap, name, signature, body);
    OwnerMatters(body, Owner(s.open), "fn " + name);
    var calls := SignatureOwners(signature, "fn " + name, Owner(s.open));
    SplitEqually(calls, Enclosing(body, Owner(s.open)), calls, Enclosing(body, "fn " + name));
  }

  // ----- the theorem on lines

  function Flatten(lines: seq<seq<Token>>): seq<Token> {
    if lines == [] then [] else lines[0] + Flatten(lines[1..])
  }

  /** Scanning line by line, as the lint does: depth and stack afterwards. */
  function FinalOfLines(s: Scanner, lines: seq<seq<Token>>): Scanner
    decreases |lines|
  {
    if lines == [] then s else FinalOfLines(Final(LineText(lines[0]), 0, s), lines[1..])
  }

  /** The owners of the calls of all lines, in order. */
  function OwnersOfLines(s: Scanner, lines: seq<seq<Token>>): seq<string>
    decreases |lines|
  {
    if lines == [] then []
    else
      NamesOf(Found(LineText(lines[0]), 0, s, Columns(lines[0], 0))) +
      OwnersOfLines(Final(LineText(lines[0]), 0, s), lines[1..])
  }

  function NamesOf(owners: seq<(nat, string)>): seq<string> {
    if owners == [] then [] else [owners[0].1] + NamesOf(owners[1..])
  }

  lemma {:induction false} NamesOfZip(columns: seq<nat>, names: seq<string>)
    requires |columns| == |names|
    ensures NamesOf(Zip(columns, names)) == names
  {
    if columns != [] {
      NamesOfZip(columns[1..], names[1..]);
    }
  }

  lemma {:induction false} LinesRunTokens(s: Scanner, lines: seq<seq<Token>>)
    requires forall i | 0 <= i < |lines| :: LineReads(LineText(lines[i]), 0, lines[i])
    ensures FinalOfLines(s, lines) == Run(s, Flatten(lines))
    ensures OwnersOfLines(s, lines) == Owners(s, Flatten(lines))
    decreases |lines|
  {
    if lines != [] {
      ScanLine(s, lines[0]);
      NamesOfZip(Columns(lines[0], 0), Owners(s, lines[0]));
      LinesRunTokens(Run(s, lines[0]), lines[1..]);
      RunAppends(s, lines[0], Flatten(lines[1..]));
    }
  }

  /** However a tree of items is broken into lines, every call is attributed to its innermost enclosing function. */
  lemma CallsAttributed(s: Scanner, items: seq<Item>, lines: seq<seq<Token>>)
    requires Settled(s) && Named(items) && Flatten(lines) == Tokens(items)
    requires forall i | 0 <= i < |lines| :: LineReads(LineText(lines[i]), 0, lines[i])
    ensures FinalOfLines(s, lines) == s
    ensures OwnersOfLines(s, lines) == Enclosing(items, Owner(s.open))
  {
    LinesRunTokens(s, lines);
    ItemsAttributed(s, items);
  }

  // ----- the lint's use of the scanner

  ghost predicate Ascending(columns: seq<nat>) {
    forall i, j | 0 <= i < j < |columns| :: columns[i] <= columns[j]
  }

  lemma SortAscending(columns: seq<nat>)
    requires Ascending(columns)
    ensures SortColumns(columns) == columns
  {
    SortKeepsOrdered(columns, BY_COLUMN);
  }

  lemma PrependAscends(first: seq<nat>, rest: seq<nat>, offset: nat)
    requires (first == [] || first == [offset]) && Ascending(rest) && forall i | 0 <= i < |rest| :: offset <= rest[i]
    ensures Ascending(first + rest)
  {
  }

  lemma {:induction false} ColumnsAscend(line: seq<Token>, offset: nat)
    ensures Ascending(Columns(line, offset))
    decreases |line|
  {
    if line != [] {
      var end := offset + |TextOf(line[0])|;
      ColumnsAscend(line[1..], end);
      MarksAfter(line[1..], end);
      PrependAscends(CallHere(line[0], offset), Columns(line[1..], end), offset);
    }
  }

  /** One scanner is carried through all the lines of a file. */
  method ScanLines(f: Functions, lines: seq<seq<Token>>) returns (names: seq<string>)
    modifies f
    ensures f.State() == FinalOfLines(old(f.State()), lines)
    ensures names == OwnersOfLines(old(f.State()), lines)
  {
    names := [];
    ghost var s, left := f.State(), OwnersOfLines(f.State(), lines);
    assert lines[0..] == lines;
    for i := 0 to |lines|
      invariant FinalOfLines(f.State(), lines[i..]) == FinalOfLines(s, lines)
      invariant left == OwnersOfLines(f.State(), lines[i..])
      invariant OwnersOfLines(s, lines) == names + left
    {
      NextLine(f.State(), lines, i);
      ColumnsAscend(lines[i], 0);
      SortAscending(Columns(lines[i], 0));
      var owners := f.Scan(LineText(lines[i]), Columns(lines[i], 0));
      left := OwnersOfLines(f.State(), lines[i + 1..]);
      Associate(names, NamesOf(owners), left);
      names := names + NamesOf(owners);
    }
  }

  lemma NextLine(s: Scanner, lines: seq<seq<Token>>, i: nat)
    requires i < |lines|
    ensures var text, columns := LineText(lines[i]), Columns(lines[i], 0);
            && FinalOfLines(s, lines[i..]) == FinalOfLines(Final(text, 0, s), lines[i + 1..])
            && OwnersOfLines(s, lines[i..]) ==
               NamesOf(Found(text, 0, s, columns)) + OwnersOfLines(Final(text, 0, s), lines[i + 1..])
  {
    assert lines[i..][0] == lines[i] && lines[i..][1..] == lines[i + 1..];
  }

  // ----- printed lines that read as their tokens

  /** At position i of `text` the word `fn` and a space begin, given what stands before and after. */
  ghost predicate FnWordAt(before: string, text: string, rest: string, i: nat)
    requires i < |text|
  {
    !EndsIdent(before + text[..i]) && "fn " <= (text + rest)[i..]
  }

  /** No brace, no semicolon, and nowhere the word `fn` with a space after it. */
  ghost predicate SafeText(before: string, text: string, rest: string) {
    NoMarks(text) && forall i | 0 <= i < |text| :: !FnWordAt(before, text, rest, i)
  }

  predicate SafeName(name: string) {
    name != "" && name != "fn" && forall i | 0 <= i < |name| :: Ident(name[i])
  }

  predicate EndsIdent(text: string) { text != "" && Ident(text[|text| - 1]) }

  /** What a printer has to keep: `fn` starts a word, and its name ends at something else. */
  ghost predicate SafeToken(before: string, t: Token, rest: string) {
    match t
    case FnToken(gap, name) =>
      !EndsIdent(before) && Blank(gap) && SafeName(name) && (rest != "" ==> !Ident(rest[0]))
    case Plain(text) => SafeText(before, text, rest)
    case CallToken(text) => SafeText(before, text, rest)
    case _ => true
  }

  /** The token stands at `offset` in the line, and is safe between what stands before and after it. */
  ghost predicate SafeAt(code: string, offset: nat, t: Token) {
    var end := offset + |TextOf(t)|;
    end <= |code| && code[offset..end] == TextOf(t) && SafeToken(code[..offset], t, code[end..])
  }

  ghost predicate SafeLine(code: string, offset: nat, line: seq<Token>)
    decreases |line|, 1
  {
    if line == [] then offset == |code| else SafeFirst(code, offset, line)
  }

  ghost predicate SafeFirst(code: string, offset: nat, line: seq<Token>)
    requires line != []
    decreases |line|, 0
  {
    SafeAt(code, offset, line[0]) && SafeLine(code, offset + |TextOf(line[0])|, line[1..])
  }

  /** A position where one of the three letters, or the word start, is missing. */
  lemma NotFnWord(code: string, p: nat)
    requires p < |code|
    requires || code[p] != 'f' || p + 2 >= |code| || code[p + 1] != 'n' || code[p + 2] != ' '
             || (p > 0 && Ident(code[p - 1]))
    ensures !IsFnAt(code, p)
  {
    if p + 2 < |code| {
      var word := code[p..p + 3];
      assert word[0] == code[p] && word[1] == code[p + 1] && word[2] == code[p + 2];
      assert word == "fn " ==> word[0] == 'f' && word[1] == 'n' && word[2] == ' ';
    }
  }

  /** The scanner takes a position for the start of a function exactly when that word begins there. */
  lemma FnAtIffWord(before: string, text: string, rest: string, i: nat)
    requires i < |text|
    ensures IsFnAt(before + text + rest, |before| + i) <==> FnWordAt(before, text, rest, i)
  {
    var code, p := before + text + rest, |before| + i;
    var tail := (text + rest)[i..];
    assert code[p..] == tail;
    assert p > 0 ==> code[p - 1] == (before + text[..i])[p - 1];
    assert |tail| >= 3 ==> code[p..p + 3] == tail[..3];
  }

  lemma SafeTextReads(before: string, text: string, rest: string)
    requires SafeText(before, text, rest)
    ensures var code := before + text + rest;
            forall p | |before| <= p < |before| + |text| :: !IsFnAt(code, p)
  {
    forall p | |before| <= p < |before| + |text|
      ensures !IsFnAt(before + text + rest, p)
    {
      FnAtIffWord(before, text, rest, p - |before|);
    }
  }

  lemma {:induction false} IdentPrefixOfName(name: string, rest: string)
    requires forall i | 0 <= i < |name| :: Ident(name[i])
    requires rest != "" ==> !Ident(rest[0])
    ensures IdentPrefix(name + rest) == name
  {
    if name == "" {
      assert name + rest == rest;
    } else {
      assert (name + rest)[1..] == name[1..] + rest;
      IdentPrefixOfName(name[1..], rest);
    }
  }

  lemma GapReads(code: string, start: nat, gap: string)
    requires Blank(gap) && start + |gap| <= |code| && code[start..start + |gap|] == gap
    ensures forall p | start <= p < start + |gap| :: !IsFnAt(code, p)
  {
    forall p | start <= p < start + |gap|
      ensures !IsFnAt(code, p)
    {
      assert code[p] == code[start..start + |gap|][p - start];
      assert IsWhitespace(gap[p - start]);
      NotFnWord(code, p);
    }
  }

  lemma NameReads(code: string, start: nat, name: string)
    requires SafeName(name) && start + |name| <= |code| && code[start..start + |name|] == name
    requires start + |name| < |code| ==> !Ident(code[start + |name|])
    ensures forall p | start <= p < start + |name| :: !IsFnAt(code, p)
  {
    forall i | 0 <= i < |name|
      ensures code[start + i] == name[i] && Ident(code[start + i])
    {
      assert code[start + i] == code[start..start + |name|][i];
    }
    forall p | start <= p < start + |name|
      ensures !IsFnAt(code, p)
    {
      if |name| == 2 {
        assert name == [name[0], name[1]];
      } else if |name| > 2 {
        assert Ident(code[start + 2]);
      }
      NotFnWord(code, p);
    }
  }

  lemma FnSlices(before: string, gap: string, name: string, rest: string)
    ensures var code, n := before + TextOf(FnToken(gap, name)) + rest, |before|;
            && code[n..n + |TextOf(FnToken(gap, name))|] == TextOf(FnToken(gap, name))
            && code[n..n + 3] == "fn "
            && code[n + 3..n + 3 + |gap|] == gap
            && code[n + 3 + |gap|..n + 3 + |gap| + |name|] == name
            && code[n + 3..] == gap + (name + rest)
  {
  }

  /** The word `fn` is recognised, and the name after it is read in full. */
  lemma FnWordReads(before: string, gap: string, name: string, rest: string)
    requires !EndsIdent(before) && Blank(gap) && SafeName(name) && (rest != "" ==> !Ident(rest[0]))
    ensures var code := before + TextOf(FnToken(gap, name)) + rest;
            IsFnAt(code, |before|) && NameAt(code, |before| + 3) == name
  {
    var code := before + TextOf(FnToken(gap, name)) + rest;
    FnSlices(before, gap, name, rest);
    assert |before| > 0 ==> code[|before| - 1] == before[|before| - 1];
    assert Ident(name[0]);
    TrimStartPadded(gap, name + rest);
    IdentPrefixOfName(name, rest);
  }

  lemma FnEnds(before: string, text: string, rest: string)
    ensures rest != "" ==> (before + text + rest)[|before| + |text|] == rest[0]
  {
  }

  lemma SafeFnReads(before: string, gap: string, name: string, rest: string)
    requires !EndsIdent(before) && Blank(gap) && SafeName(name) && (rest != "" ==> !Ident(rest[0]))
    ensures ReadsAs(before + TextOf(FnToken(gap, name)) + rest, |before|, FnToken(gap, name))
  {
    var code := before + TextOf(FnToken(gap, name)) + rest;
    FnSlices(before, gap, name, rest);
    FnWordReads(before, gap, name, rest);
    FnEnds(before, TextOf(FnToken(gap, name)), rest);
    GapReads(code, |before| + 3, gap);
    NameReads(code, |before| + 3 + |gap|, name);
    GapAndNameUnmarked(gap, name);
  }

  lemma GapAndNameUnmarked(gap: string, name: string)
    requires Blank(gap) && SafeName(name)
    ensures NoMarks(gap + name)
  {
    forall i | 0 <= i < |gap + name|
      ensures (gap + name)[i] != '{' && (gap + name)[i] != '}' && (gap + name)[i] != ';'
    {
      if i < |gap| { assert IsWhitespace(gap[i]); } else { assert Ident(name[i - |gap|]); }
    }
  }

  lemma SafeTokenReads(before: string, t: Token, rest: string)
    requires SafeToken(before, t, rest)
    ensures ReadsAs(before + TextOf(t) + rest, |before|, t)
  {
    var code := before + TextOf(t) + rest;
    assert code[|before|..|before| + |TextOf(t)|] == TextOf(t);
    match t
    case FnToken(gap, name) => SafeFnReads(before, gap, name, rest);
    case Plain(text) => SafeTextReads(before, text, rest);
    case CallToken(text) => SafeTextReads(before, text, rest);
    case _ =>
  }

  lemma SafeAtReads(code: string, offset: nat, t: Token)
    requires SafeAt(code, offset, t)
    ensures ReadsAs(code, offset, t)
  {
    var end := offset + |TextOf(t)|;
    assert code == code[..offset] + TextOf(t) + code[end..];
    SafeTokenReads(code[..offset], t, code[end..]);
  }

  /** Every line a careful printer writes reads as its tokens. */
  lemma {:induction false} SafeLineReads(code: string, offset: nat, line: seq<Token>)
    requires SafeLine(code, offset, line)
    ensures LineReads(code, offset, line)
    decreases |line|
  {
    if line != [] {
      assert SafeFirst(code, offset, line);
      SafeLineReads(code, offset + |TextOf(line[0])|, line[1..]);
      assert FirstReads(code, offset, line) by {
        SafeAtReads(code, offset, line[0]);
      }
    }
  }

  /** The theorem in terms of what the printer keeps. */
  lemma PrintedCallsAttributed(s: Scanner, items: seq<Item>, lines: seq<seq<Token>>)
    requires Settled(s) && Named(items) && Flatten(lines) == Tokens(items)
    requires forall i | 0 <= i < |lines| :: SafeLine(LineText(lines[i]), 0, lines[i])
    ensures FinalOfLines(s, lines) == s
    ensures OwnersOfLines(s, lines) == Enclosing(items, Owner(s.open))
  {
    forall i | 0 <= i < |lines|
      ensures LineReads(LineText(lines[i]), 0, lines[i])
    {
      SafeLineReads(LineText(lines[i]), 0, lines[i]);
    }
    CallsAttributed(s, items, lines);
  }
}
