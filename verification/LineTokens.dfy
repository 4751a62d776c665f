/** What a line of code says to the scanner, token by token: its calls, its `fn` words, braces and semicolons. */
module LineTokens {
  import opened Sequences
  import opened FunctionScan

  // ----- tokens

  datatype Token =
    | FnToken(gap: string, name: string)
    | Open
    | Close
    | Semi
    | Plain(text: string)
    | CallToken(text: string)

  function TextOf(t: Token): string {
    match t
    case FnToken(gap, name) => "fn " + gap + name
    case Open => "{"
    case Close => "}"
    case Semi => ";"
    case Plain(text) => text
    case CallToken(text) => text
  }

  function LineText(line: seq<Token>): string {
    if line == [] then "" else TextOf(line[0]) + LineText(line[1..])
  }

  /** Where the calls of a line start. */
  function Columns(line: seq<Token>, offset: nat): seq<nat> {
    if line == [] then [] else CallHere(line[0], offset) + Columns(line[1..], offset + |TextOf(line[0])|)
  }

  function CallHere(t: Token, offset: nat): seq<nat> { if t.CallToken? then [offset] else [] }

  predicate NoMarks(text: string) {
    forall i | 0 <= i < |text| :: text[i] != '{' && text[i] != '}' && text[i] != ';'
  }

  /** The token stands at `offset` in the line, and the scanner reads it there as what it is. */
  ghost predicate ReadsAs(code: string, offset: nat, t: Token) {
    var end := offset + |TextOf(t)|;
    && end <= |code| && code[offset..end] == TextOf(t)
    && match t {
         case FnToken(gap, name) =>
           && IsFnAt(code, offset) && NameAt(code, offset + 3) == name && name != "" && NoMarks(gap + name)
           && forall p | offset + 3 <= p < end :: !IsFnAt(code, p)
         case Plain(text) => NoMarks(text) && forall p | offset <= p < end :: !IsFnAt(code, p)
         case CallToken(text) => NoMarks(text) && forall p | offset <= p < end :: !IsFnAt(code, p)
         case _ => true
       }
  }

  /** `fn` and its name stand on one line, and nothing else in the line reads as the word `fn`. */
  ghost predicate LineReads(code: string, offset: nat, line: seq<Token>)
    decreases |line|, 1
  {
    if line == [] then offset == |code| else FirstReads(code, offset, line)
  }

  ghost predicate FirstReads(code: string, offset: nat, line: seq<Token>)
    requires line != []
    decreases |line|, 0
  {
    ReadsAs(code, offset, line[0]) && LineReads(code, offset + |TextOf(line[0])|, line[1..])
  }

  function TokenStep(s: Scanner, t: Token): Scanner {
    match t
    case FnToken(_, name) => PushFn(s, name)
    case Open => OpenBrace(s)
    case Close => CloseBrace(s)
    case Semi => Semicolon(s)
    case _ => s
  }

  function Run(s: Scanner, tokens: seq<Token>): Scanner
    decreases |tokens|
  {
    if tokens == [] then s else Run(TokenStep(s, tokens[0]), tokens[1..])
  }

  /** The owner of every call, in order. */
  function Owners(s: Scanner, tokens: seq<Token>): seq<string>
    decreases |tokens|
  {
    if tokens == [] then [] else NameHere(s, tokens[0]) + Owners(TokenStep(s, tokens[0]), tokens[1..])
  }

  function NameHere(s: Scanner, t: Token): seq<string> { if t.CallToken? then [Owner(s.open)] else [] }

  function Zip(columns: seq<nat>, names: seq<string>): seq<(nat, string)>
    requires |columns| == |names|
  {
    if columns == [] then [] else [(columns[0], names[0])] + Zip(columns[1..], names[1..])
  }

  // ----- what a line says to the scanner

  /** The words and signs that matter, with their positions; independent of the scanner's state. */
  function Lex(code: string, at: nat): seq<(nat, Token)>
    requires at <= |code|
    decreases |code| - at
  {
    if at == |code| then []
    else if IsFnAt(code, at) then [(at, FnToken("", NameAt(code, at + 3)))] + Lex(code, at + 3)
    else if code[at] == '{' then [(at, Open)] + Lex(code, at + 1)
    else if code[at] == '}' then [(at, Close)] + Lex(code, at + 1)
    else if code[at] == ';' then [(at, Semi)] + Lex(code, at + 1)
    else Lex(code, at + 1)
  }

  function RunMarks(s: Scanner, marks: seq<(nat, Token)>): Scanner
    decreases |marks|
  {
    if marks == [] then s else RunMarks(TokenStep(s, marks[0].1), marks[1..])
  }

  /** Each column gets the owner after the marks before it. */
  function Merge(s: Scanner, marks: seq<(nat, Token)>, columns: seq<nat>): seq<(nat, string)>
    decreases |marks| + |columns|
  {
    if columns == [] then []
    else if marks == [] || columns[0] <= marks[0].0 then
      [(columns[0], Owner(s.open))] + Merge(s, marks, columns[1..])
    else Merge(TokenStep(s, marks[0].1), marks[1..], columns)
  }

  lemma {:induction false} FinalRunsMarks(code: string, at: nat, s: Scanner)
    requires at <= |code|
    ensures Final(code, at, s) == RunMarks(s, Lex(code, at))
    decreases |code| - at
  {
    if at < |code| {
      FinalRunsMarks(code, Advance(code, at, s).1, Advance(code, at, s).0);
      LexStep(code, at, s);
    }
  }

  /** One turn of the loop takes at most one mark. */
  lemma LexStep(code: string, at: nat, s: Scanner)
    requires at < |code|
    ensures var step := Advance(code, at, s);
            if IsFnAt(code, at) || code[at] == '{' || code[at] == '}' || code[at] == ';' then
              && Lex(code, at) != [] && Lex(code, at)[0].0 == at
              && Lex(code, at)[1..] == Lex(code, step.1) && step.0 == TokenStep(s, Lex(code, at)[0].1)
            else step.0 == s && Lex(code, at) == Lex(code, step.1)
  {
  }

  lemma {:induction false} LexPositions(code: string, at: nat)
    requires at <= |code|
    ensures Lex(code, at) != [] ==> Lex(code, at)[0].0 >= at
    decreases |code| - at
  {
    if at < |code| && !IsFnAt(code, at) {
      LexPositions(code, at + 1);
    }
  }

  lemma DueFirst(columns: seq<nat>, at: nat, name: string)
    requires columns != [] && columns[0] <= at
    ensures var n, rest := Due(columns, at), columns[1..];
            && n == Due(rest, at) + 1 && columns[n..] == rest[n - 1..]
            && Tag(columns[..n], name) == [(columns[0], name)] + Tag(rest[..n - 1], name)
  {
    var n := Due(columns, at);
    assert columns[..n][1..] == columns[1..][..n - 1];
  }

  lemma {:induction false} MergeDue(s: Scanner, marks: seq<(nat, Token)>, columns: seq<nat>, at: nat)
    requires marks != [] ==> marks[0].0 >= at
    ensures Merge(s, marks, columns) ==
            Tag(columns[..Due(columns, at)], Owner(s.open)) + Merge(s, marks, columns[Due(columns, at)..])
    decreases |columns|
  {
    if columns != [] && columns[0] <= at {
      var rest, owner := columns[1..], Owner(s.open);
      var n := Due(rest, at);
      MergeDue(s, marks, rest, at);
      DueFirst(columns, at, owner);
      Associate([(columns[0], owner)], Tag(rest[..n], owner), Merge(s, marks, rest[n..]));
    } else {
      assert columns[0..] == columns;
      NothingBefore(Merge(s, marks, columns));
    }
  }

  ghost predicate Within(columns: seq<nat>, code: string) {
    forall i | 0 <= i < |columns| :: columns[i] <= |code|
  }

  lemma {:induction false} AllDueAtEnd(columns: seq<nat>, code: string)
    requires Within(columns, code)
    ensures Due(columns, |code|) == |columns|
  {
    if columns != [] {
      AllDueAtEnd(columns[1..], code);
    }
  }

  lemma {:induction false} DueRest(columns: seq<nat>, at: nat)
    ensures columns[Due(columns, at)..] != [] ==> columns[Due(columns, at)..][0] > at
  {
    if columns != [] && columns[0] <= at {
      DueRest(columns[1..], at);
      assert columns[Due(columns, at)..] == columns[1..][Due(columns[1..], at)..];
    }
  }

  lemma MergeSkips(s: Scanner, marks: seq<(nat, Token)>, columns: seq<nat>)
    requires marks != [] && (columns != [] ==> columns[0] > marks[0].0)
    ensures Merge(s, marks, columns) == Merge(TokenStep(s, marks[0].1), marks[1..], columns)
  {
  }

  lemma {:induction false} FoundMerges(code: string, at: nat, s: Scanner, columns: seq<nat>)
    requires at <= |code| && Within(columns, code)
    ensures Found(code, at, s, columns) == Merge(s, Lex(code, at), columns)
    decreases |code| - at
  {
    var n := Due(columns, at);
    LexPositions(code, at);
    MergeDue(s, Lex(code, at), columns, at);
    if at == |code| {
      AllDueAtEnd(columns, code);
    } else {
      var step := Advance(code, at, s);
      DueRest(columns, at);
      FoundMerges(code, step.1, step.0, columns[n..]);
      LexStep(code, at, s);
      if IsFnAt(code, at) || code[at] == '{' || code[at] == '}' || code[at] == ';' {
        MergeSkips(s, Lex(code, at), columns[n..]);
      }
    }
  }

  // ----- what the tokens of a line say

  predicate Unmarked(code: string, from: nat, to: nat)
    requires from <= to <= |code|
  {
    forall p | from <= p < to :: !IsFnAt(code, p) && code[p] != '{' && code[p] != '}' && code[p] != ';'
  }

  lemma {:induction false} LexWalk(code: string, from: nat, to: nat)
    requires from <= to <= |code| && Unmarked(code, from, to)
    ensures Lex(code, from) == Lex(code, to)
    decreases |code| - from
  {
    if from < to {
      LexWalk(code, from + 1, to);
    }
  }

  lemma ReadsUnmarked(code: string, offset: nat, t: Token, skip: nat)
    requires ReadsAs(code, offset, t)
    requires if t.FnToken? then skip == 3 else skip == 0 && (t.Plain? || t.CallToken?)
    ensures Unmarked(code, offset + skip, offset + |TextOf(t)|)
  {
    var end := offset + |TextOf(t)|;
    forall p | offset + skip <= p < end
      ensures code[p] != '{' && code[p] != '}' && code[p] != ';'
    {
      assert code[p] == code[offset..end][p - offset];
      if t.FnToken? {
        assert TextOf(t)[p - offset] == (t.gap + t.name)[p - offset - 3];
      }
    }
  }

  lemma NotFn(code: string, at: nat)
    requires at < |code| && code[at] != 'f'
    ensures !IsFnAt(code, at)
  {
    assert at + 3 <= |code| ==> code[at..at + 3][0] == code[at];
  }

  function MarksHere(t: Token, offset: nat): seq<(nat, Token)> {
    match t
    case FnToken(_, name) => [(offset, FnToken("", name))]
    case Plain(_) => []
    case CallToken(_) => []
    case _ => [(offset, t)]
  }

  function MarksOf(line: seq<Token>, offset: nat): seq<(nat, Token)> {
    if line == [] then [] else MarksHere(line[0], offset) + MarksOf(line[1..], offset + |TextOf(line[0])|)
  }

  lemma LexToken(code: string, offset: nat, t: Token)
    requires ReadsAs(code, offset, t)
    ensures Lex(code, offset) == MarksHere(t, offset) + Lex(code, offset + |TextOf(t)|)
  {
    var end := offset + |TextOf(t)|;
    match t
    case FnToken(_, _) =>
      ReadsUnmarked(code, offset, t, 3);
      LexWalk(code, offset + 3, end);
    case Plain(_) =>
      ReadsUnmarked(code, offset, t, 0);
      LexWalk(code, offset, end);
    case CallToken(_) =>
      ReadsUnmarked(code, offset, t, 0);
      LexWalk(code, offset, end);
    case _ =>
      assert code[offset] == code[offset..end][0];
      NotFn(code, offset);
  }

  lemma {:induction false} MarksOfFirst(line: seq<Token>, offset: nat)
    requires line != []
    ensures MarksOf(line, offset) ==
            MarksHere(line[0], offset) + MarksOf(line[1..], offset + |TextOf(line[0])|)
  {
  }

  ghost predicate LexesAs(code: string, offset: nat, t: Token) {
    var end := offset + |TextOf(t)|;
    end <= |code| && Lex(code, offset) == MarksHere(t, offset) + Lex(code, end)
  }

  ghost predicate LexesAll(code: string, offset: nat, line: seq<Token>)
    decreases |line|
  {
    if line == [] then offset == |code|
    else LexesAs(code, offset, line[0]) && LexesAll(code, offset + |TextOf(line[0])|, line[1..])
  }

  lemma {:induction false} ReadLexes(code: string, offset: nat, line: seq<Token>)
    requires offset <= |code| && LineReads(code, offset, line)
    ensures LexesAll(code, offset, line)
    decreases |line|
  {
    if line != [] {
      assert FirstReads(code, offset, line);
      assert LexesAs(code, offset, line[0]) by { LexToken(code, offset, line[0]); }
      ReadLexes(code, offset + |TextOf(line[0])|, line[1..]);
    }
  }

  lemma {:induction false} LexLine(code: string, offset: nat, line: seq<Token>)
    requires offset <= |code| && LexesAll(code, offset, line)
    ensures Lex(code, offset) == MarksOf(line, offset)
    decreases |line|
  {
    if line != [] {
      LexLine(code, offset + |TextOf(line[0])|, line[1..]);
      MarksOfFirst(line, offset);
    }
  }

  lemma {:induction false} MarksRunTokens(s: Scanner, line: seq<Token>, offset: nat)
    ensures RunMarks(s, MarksOf(line, offset)) == Run(s, line)
    decreases |line|
  {
    if line != [] {
      var t, rest := line[0], MarksOf(line[1..], offset + |TextOf(line[0])|);
      MarksRunTokens(TokenStep(s, t), line[1..], offset + |TextOf(t)|);
      RunFirst(s, t, offset, rest);
    }
  }

  lemma RunFirst(s: Scanner, t: Token, offset: nat, rest: seq<(nat, Token)>)
    ensures RunMarks(s, MarksHere(t, offset) + rest) == RunMarks(TokenStep(s, t), rest)
  {
    assert MarksHere(t, offset) == [] ==> MarksHere(t, offset) + rest == rest;
    assert MarksHere(t, offset) != [] ==> (MarksHere(t, offset) + rest)[1..] == rest;
  }

  lemma {:induction false} MarksAfter(line: seq<Token>, offset: nat)
    ensures forall i | 0 <= i < |MarksOf(line, offset)| :: MarksOf(line, offset)[i].0 >= offset
    ensures forall i | 0 <= i < |Columns(line, offset)| :: Columns(line, offset)[i] >= offset
    decreases |line|
  {
    if line != [] {
      MarksAfter(line[1..], offset + |TextOf(line[0])|);
    }
  }

  lemma MergeCall(s: Scanner, marks: seq<(nat, Token)>, offset: nat, columns: seq<nat>, names: seq<string>)
    requires |columns| == |names| && Merge(s, marks, columns) == Zip(columns, names)
    requires marks != [] ==> marks[0].0 >= offset
    ensures Merge(s, marks, [offset] + columns) == Zip([offset] + columns, [Owner(s.open)] + names)
  {
    assert ([offset] + columns)[1..] == columns;
    assert ([Owner(s.open)] + names)[1..] == names;
  }

  lemma MergeMark(s: Scanner, mark: (nat, Token), marks: seq<(nat, Token)>, columns: seq<nat>)
    requires columns != [] ==> columns[0] > mark.0
    ensures Merge(s, [mark] + marks, columns) == Merge(TokenStep(s, mark.1), marks, columns)
  {
    MergeSkips(s, [mark] + marks, columns);
    assert ([mark] + marks)[1..] == marks;
  }

  /** Putting one token in front of a line whose marks and columns are already merged. */
  lemma MergeStep(
    s: Scanner, t: Token, offset: nat, marks: seq<(nat, Token)>, columns: seq<nat>, names: seq<string>)
    requires |columns| == |names| && Merge(TokenStep(s, t), marks, columns) == Zip(columns, names)
    requires marks != [] ==> marks[0].0 >= offset + |TextOf(t)|
    requires columns != [] ==> columns[0] >= offset + |TextOf(t)|
    ensures |CallHere(t, offset) + columns| == |NameHere(s, t) + names|
    ensures Merge(s, MarksHere(t, offset) + marks, CallHere(t, offset) + columns) ==
            Zip(CallHere(t, offset) + columns, NameHere(s, t) + names)
  {
    NothingBefore(marks);
    NothingBefore(columns);
    NothingBefore(names);
    match t
    case CallToken(_) => MergeCall(s, marks, offset, columns, names);
    case Plain(_) =>
    case FnToken(_, name) => MergeMark(s, (offset, FnToken("", name)), marks, columns);
    case _ => MergeMark(s, (offset, t), marks, columns);
  }

  lemma {:induction false} MergeTokens(s: Scanner, line: seq<Token>, offset: nat)
    ensures |Columns(line, offset)| == |Owners(s, line)|
    ensures Merge(s, MarksOf(line, offset), Columns(line, offset)) ==
            Zip(Columns(line, offset), Owners(s, line))
    decreases |line|
  {
    if line != [] {
      var t, end := line[0], offset + |TextOf(line[0])|;
      MergeTokens(TokenStep(s, t), line[1..], end);
      MarksAfter(line[1..], end);
      MergeStep(s, t, offset, MarksOf(line[1..], end), Columns(line[1..], end), Owners(TokenStep(s, t), line[1..]));
    }
  }

  lemma {:induction false} ColumnsWithin(code: string, offset: nat, line: seq<Token>)
    requires offset <= |code| && LineReads(code, offset, line)
    ensures Within(Columns(line, offset), code)
    decreases |line|
  {
    if line != [] {
      assert FirstReads(code, offset, line);
      ColumnsWithin(code, offset + |TextOf(line[0])|, line[1..]);
    }
  }

  /** A whole line: the final state and the owners are those of its tokens. */
  lemma ScanLine(s: Scanner, line: seq<Token>)
    requires LineReads(LineText(line), 0, line)
    ensures |Columns(line, 0)| == |Owners(s, line)|
    ensures Final(LineText(line), 0, s) == Run(s, line)
    ensures Found(LineText(line), 0, s, Columns(line, 0)) == Zip(Columns(line, 0), Owners(s, line))
  {
    var code := LineText(line);
    ReadLexes(code, 0, line);
    LexLine(code, 0, line);
    FinalRunsMarks(code, 0, s);
    MarksRunTokens(s, line, 0);
    ColumnsWithin(code, 0, line);
    FoundMerges(code, 0, s, Columns(line, 0));
    MergeTokens(s, line, 0);
  }
}
