/**
 Finding the function a call belongs to by tracking braces through already stripped source lines.
 The scanner's depth and stack of open functions carry over from line to line.
 */
module FunctionScan {
  import opened Sequences
  import opened Sorting
  import opened Text

  datatype Entry = Entry(name: string, base: nat, entered: bool)

  datatype Scanner = Scanner(depth: nat, open: seq<Entry>)

  predicate Ident(c: char) {
    'a' <= c <= 'z' || 'A' <= c <= 'Z' || '0' <= c <= '9' || c == '_'
  }

  /** Written out: the characters of a name, any of which before `fn` makes it part of a longer word. */
  lemma IdentIs(c: char)
    ensures Ident(c) <==> c in "abcdefghijklmnopqrstuvwxyz" || c in "ABCDEFGHIJKLMNOPQRSTUVWXYZ" || c in "0123456789_"
  {
  }

  // ----- one line

  predicate IsFnAt(code: string, at: nat) {
    at + 3 <= |code| && code[at..at + 3] == "fn " && (at == 0 || !Ident(code[at - 1]))
  }

  function IdentPrefix(s: string): string {
    if s == "" || !Ident(s[0]) then "" else [s[0]] + IdentPrefix(s[1..])
  }

  function NameAt(code: string, at: nat): string
    requires at <= |code|
  {
    IdentPrefix(TrimStart(code[at..]))
  }

  /** The innermost function whose body is open. */
  function Owner(open: seq<Entry>): string {
    if open == [] then ""
    else if open[|open| - 1].entered then open[|open| - 1].name
    else Owner(open[..|open| - 1])
  }

  function OpenBrace(s: Scanner): Scanner {
    var depth := s.depth + 1;
    if s.open != [] && !s.open[|s.open| - 1].entered && depth == s.open[|s.open| - 1].base + 1 then
      Scanner(depth, s.open[|s.open| - 1 := s.open[|s.open| - 1].(entered := true)])
    else Scanner(depth, s.open)
  }

  function PopClosed(depth: nat, open: seq<Entry>): seq<Entry> {
    if open != [] && open[|open| - 1].entered && depth <= open[|open| - 1].base then
      PopClosed(depth, open[..|open| - 1])
    else open
  }

  function CloseBrace(s: Scanner): Scanner {
    var depth := if s.depth == 0 then 0 else s.depth - 1;
    Scanner(depth, PopClosed(depth, s.open))
  }

  function Semicolon(s: Scanner): Scanner {
    if s.open != [] && !s.open[|s.open| - 1].entered && s.depth == s.open[|s.open| - 1].base then
      s.(open := s.open[..|s.open| - 1])
    else s
  }

  function PushFn(s: Scanner, name: string): Scanner {
    if name == "" then s else s.(open := s.open + [Entry("fn " + name, s.depth, false)])
  }

  /** One turn of the loop: the new state and the next position. */
  function Advance(code: string, at: nat, s: Scanner): (r: (Scanner, nat))
    requires at < |code|
    ensures at < r.1 <= |code|
  {
    if IsFnAt(code, at) then (PushFn(s, NameAt(code, at + 3)), at + 3)
    else if code[at] == '{' then (OpenBrace(s), at + 1)
    else if code[at] == '}' then (CloseBrace(s), at + 1)
    else if code[at] == ';' then (Semicolon(s), at + 1)
    else (s, at + 1)
  }

  /** The columns that are due at a position; `columns` is ascending. */
  function Due(columns: seq<nat>, at: nat): (n: nat)
    ensures n <= |columns|
  {
    if columns == [] || columns[0] > at then 0 else 1 + Due(columns[1..], at)
  }

  function Tag(columns: seq<nat>, name: string): seq<(nat, string)> {
    if columns == [] then [] else [(columns[0], name)] + Tag(columns[1..], name)
  }

  /** Depth and stack after the rest of the line. */
  function Final(code: string, at: nat, s: Scanner): Scanner
    requires at <= |code|
    decreases |code| - at
  {
    if at == |code| then s else Final(code, Advance(code, at, s).1, Advance(code, at, s).0)
  }

  /** The owners found in the rest of the line. */
  function Found(code: string, at: nat, s: Scanner, columns: seq<nat>): seq<(nat, string)>
    requires at <= |code|
    decreases |code| - at, 1
  {
    var n := Due(columns, at);
    Tag(columns[..n], Owner(s.open)) +
    if at == |code| then [] else FoundNext(code, at, s, columns[n..])
  }

  function FoundNext(code: string, at: nat, s: Scanner, columns: seq<nat>): seq<(nat, string)>
    requires at < |code|
    decreases |code| - at, 0
  {
    Found(code, Advance(code, at, s).1, Advance(code, at, s).0, columns)
  }

  const BY_COLUMN := (a: nat, b: nat) => a <= b

  function SortColumns(columns: seq<nat>): seq<nat> { Sort(columns, BY_COLUMN) }

  class Functions {
    var depth: nat
    var open: seq<Entry>

    constructor ()
      ensures depth == 0 && open == []
    {
      depth, open := 0, [];
    }

    ghost function State(): Scanner
      reads this
    {
      Scanner(depth, open)
    }

    method Scan(code: string, columns: seq<nat>) returns (owners: seq<(nat, string)>)
      modifies this
      ensures State() == Final(code, 0, old(State()))
      ensures owners == Found(code, 0, old(State()), SortColumns(columns))
    {
      var pending := SortColumns(columns);
      owners := [];
      ghost var goal := Found(code, 0, State(), pending);
      ghost var left := goal;
      var at := 0;
      while true
        invariant at <= |code|
        invariant Final(code, at, State()) == Final(code, 0, old(State()))
        invariant left == Found(code, at, State(), pending)
        invariant goal == owners + left
        decreases |code| - at
      {
        var n := Due(pending, at);
        var tagged := Tag(pending[..n], Owner(open));
        left := if at == |code| then [] else FoundNext(code, at, State(), pending[n..]);
        Associate(owners, tagged, left);
        owners := owners + tagged;
        pending := pending[n..];
        if at == |code| {
          return;
        }
        at := Turn(code, at);
      }
    }

    /** One turn of the loop at a position of the line. */
    method Turn(code: string, at: nat) returns (next: nat)
      requires at < |code|
      modifies this
      ensures State() == Advance(code, at, old(State())).0
      ensures next == Advance(code, at, old(State())).1
    {
      if IsFnAt(code, at) {
        var name := NameAt(code, at + 3);
        if name != "" {
          open := open + [Entry("fn " + name, depth, false)];
        }
        next := at + 3;
      } else {
        Mark(code[at]);
        next := at + 1;
      }
    }

    /** What one character outside a `fn` word does to depth and stack. */
    method Mark(character: char)
      modifies this
      ensures State() == if character == '{' then OpenBrace(old(State()))
                         else if character == '}' then CloseBrace(old(State()))
                         else if character == ';' then Semicolon(old(State()))
                         else old(State())
    {
      var top := |open| - 1;
      if character == '{' {
        depth := depth + 1;
        if top >= 0 && !open[top].entered && depth == open[top].base + 1 {
          open := open[top := open[top].(entered := true)];
        }
      } else if character == '}' {
        depth := if depth == 0 then 0 else depth - 1;
        while open != [] && open[|open| - 1].entered && depth <= open[|open| - 1].base
          invariant depth == CloseBrace(old(State())).depth
          invariant PopClosed(depth, open) == PopClosed(depth, old(open))
          decreases |open|
        {
          open := open[..|open| - 1];
        }
      } else if character == ';' {
        if top >= 0 && !open[top].entered && depth == open[top].base {
          open := open[..top];
        }
      }
    }
  }

  // ----- what the scanner's steps mean, on any text

  /** A call belongs to the last function on the stack whose body is open. */
  lemma {:induction false} OwnerIsInnermost(open: seq<Entry>, i: nat)
    requires i < |open| && open[i].entered && forall j | i < j < |open| :: !open[j].entered
    ensures Owner(open) == open[i].name
  {
    if i < |open| - 1 {
      OwnerIsInnermost(open[..|open| - 1], i);
    }
  }

  lemma {:induction false} NoOwnerOutside(open: seq<Entry>)
    requires forall j | 0 <= j < |open| :: !open[j].entered
    ensures Owner(open) == ""
  {
    if open != [] {
      NoOwnerOutside(open[..|open| - 1]);
    }
  }

  /** An opening brace goes one deeper and enters the last function iff that waits for its body at this very depth. */
  lemma OpenBraceExactly(s: Scanner, i: nat)
    requires i < |s.open|
    ensures OpenBrace(s).depth == s.depth + 1 && |OpenBrace(s).open| == |s.open|
    ensures var before, after := s.open[i], OpenBrace(s).open[i];
            && after.name == before.name && after.base == before.base
            && (after.entered <==> before.entered || (i == |s.open| - 1 && before.base == s.depth))
  {
  }

  /** A closing brace goes one up, never below zero, and takes off exactly the functions at the end that it ends. */
  lemma {:induction false} PopsExactly(depth: nat, open: seq<Entry>)
    ensures var left := PopClosed(depth, open);
            && left <= open
            && (forall i | |left| <= i < |open| :: open[i].entered && depth <= open[i].base)
            && (left != [] ==> !(left[|left| - 1].entered && depth <= left[|left| - 1].base))
    decreases |open|
  {
    if open != [] && open[|open| - 1].entered && depth <= open[|open| - 1].base {
      PopsExactly(depth, open[..|open| - 1]);
    }
  }

  lemma CloseBraceExactly(s: Scanner)
    ensures CloseBrace(s).depth == (if s.depth > 0 then s.depth - 1 else 0)
    ensures CloseBrace(s).open == PopClosed(CloseBrace(s).depth, s.open)
  {
  }

  /** A semicolon takes off the last function iff it waits for a body at this depth: it was a declaration. */
  lemma SemicolonExactly(s: Scanner)
    ensures Semicolon(s).depth == s.depth && Semicolon(s).open <= s.open
    ensures |s.open| - |Semicolon(s).open| ==
            if s.open != [] && !s.open[|s.open| - 1].entered && s.open[|s.open| - 1].base == s.depth then 1 else 0
  {
  }

  /** A name is all the identifier characters there are. */
  lemma {:induction false} IdentPrefixExactly(s: string)
    ensures var name := IdentPrefix(s);
            && name <= s && (forall i | 0 <= i < |name| :: Ident(name[i]))
            && (|name| < |s| ==> !Ident(s[|name|]))
  {
    if s != "" && Ident(s[0]) {
      IdentPrefixExactly(s[1..]);
    }
  }

  /** After the word comes the name, past any whitespace; with a name the function waits at the present depth. */
  lemma FnExactly(code: string, at: nat, s: Scanner)
    requires at < |code| && IsFnAt(code, at)
    ensures var name, after := IdentPrefix(TrimStart(code[at + 3..])), Advance(code, at, s);
            && after.1 == at + 3 && after.0.depth == s.depth
            && after.0.open == s.open + if name == "" then [] else [Entry("fn " + name, s.depth, false)]
  {
  }
}
