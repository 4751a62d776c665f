/** Message templates with holes: reading one from a format string, and finding a fragment in one. */
module Template {
  import opened Sequences
  import opened Text

  datatype Part = Char(c: char) | Hole

  /** Neither whitespace nor a backtick: what a hole may be filled with. */
  predicate FillChar(c: char) { !IsWhitespace(c) && c != '`' }

  predicate IsToken(p: Part) { p.Char? ==> FillChar(p.c) }

  function TokenRun(fragment: seq<Part>): (n: nat)
    ensures n <= |fragment|
  {
    if fragment == [] || !IsToken(fragment[0]) then 0 else 1 + TokenRun(fragment[1..])
  }

  /** The fragment matches from the start of the template. */
  predicate At(template: seq<Part>, fragment: seq<Part>)
    decreases |template|
  {
    if fragment == [] then true
    else if template == [] then false
    else if template[0].Hole? && fragment[0].Hole? then At(template[1..], fragment[1..])
    else if template[0].Hole? then
      exists take :: 1 <= take <= TokenRun(fragment) && At(template[1..], fragment[take..])
    else template[0] == fragment[0] && At(template[1..], fragment[1..])
  }

  predicate TemplateContains(template: seq<Part>, fragment: seq<Part>) {
    exists start :: 0 <= start < |template| && At(template[start..], fragment)
  }

  // ----- renderings

  ghost predicate HoleFree(parts: seq<Part>) {
    forall i | 0 <= i < |parts| :: parts[i].Char?
  }

  function Holes(template: seq<Part>): nat {
    if template == [] then 0 else (if template[0].Hole? then 1 else 0) + Holes(template[1..])
  }

  /** A hole stays a hole, or becomes something that starts with a character and has no whitespace or backtick. */
  ghost predicate ValidFill(fill: seq<Part>) {
    fill == [Hole] || (fill != [] && fill[0].Char? && forall i | 0 <= i < |fill| :: IsToken(fill[i]))
  }

  /** One fill for every hole. */
  ghost predicate Fits(template: seq<Part>, fills: seq<seq<Part>>) {
    |fills| == Holes(template) && forall i | 0 <= i < |fills| :: ValidFill(fills[i])
  }

  /** The fills are plain text: the rendering is a message. */
  ghost predicate AllText(fills: seq<seq<Part>>) {
    forall i | 0 <= i < |fills| :: HoleFree(fills[i])
  }

  ghost function Render(template: seq<Part>, fills: seq<seq<Part>>): seq<Part>
    requires |fills| == Holes(template)
  {
    if template == [] then []
    else if template[0].Hole? then fills[0] + Render(template[1..], fills[1..])
    else [template[0]] + Render(template[1..], fills)
  }

  // ----- a match gives a rendering

  lemma {:induction false} SomeFills(template: seq<Part>) returns (fills: seq<seq<Part>>)
    ensures Fits(template, fills) && AllText(fills)
  {
    if template == [] {
      fills := [];
    } else {
      fills := SomeFills(template[1..]);
      if template[0].Hole? {
        assert ValidFill([Char('x')]);
        fills := [[Char('x')]] + fills;
      }
    }
  }

  lemma {:induction false} TokenRunIsTokens(fragment: seq<Part>)
    ensures forall i | 0 <= i < TokenRun(fragment) :: IsToken(fragment[i])
  {
    if fragment != [] && IsToken(fragment[0]) {
      TokenRunIsTokens(fragment[1..]);
      forall i | 0 <= i < TokenRun(fragment)
        ensures IsToken(fragment[i])
      {
        if i > 0 { assert fragment[i] == fragment[1..][i - 1]; }
      }
    }
  }

  lemma PrependFill(template: seq<Part>, fill: seq<Part>, rest: seq<seq<Part>>, fragment: seq<Part>)
    returns (fills: seq<seq<Part>>)
    requires template != [] && template[0].Hole? && ValidFill(fill)
    requires Fits(template[1..], rest) && fragment <= Render(template[1..], rest)
    ensures Fits(template, fills) && fill + fragment <= Render(template, fills)
    ensures HoleFree(fill) && AllText(rest) ==> AllText(fills)
  {
    fills := [fill] + rest;
    assert fills[1..] == rest;
    PrefixExtends(fill, fragment, Render(template[1..], rest));
  }

  lemma PrefixExtends(a: seq<Part>, b: seq<Part>, c: seq<Part>)
    requires b <= c
    ensures a + b <= a + c
  {
  }

  /** Where the fragment matches, some rendering starts with it; a message, if the fragment has no hole. */
  lemma {:induction false} MatchRenders(template: seq<Part>, fragment: seq<Part>) returns (fills: seq<seq<Part>>)
    requires At(template, fragment)
    ensures Fits(template, fills) && fragment <= Render(template, fills)
    ensures HoleFree(fragment) ==> AllText(fills)
    decreases |template|
  {
    if fragment == [] {
      fills := SomeFills(template);
    } else if template[0].Hole? && fragment[0].Hole? {
      var rest := MatchRenders(template[1..], fragment[1..]);
      fills := PrependFill(template, [Hole], rest, fragment[1..]);
      assert fragment == [Hole] + fragment[1..];
    } else if template[0].Hole? {
      var take :| 1 <= take <= TokenRun(fragment) && At(template[1..], fragment[take..]);
      var rest := MatchRenders(template[1..], fragment[take..]);
      TokenRunIsTokens(fragment);
      fills := PrependFill(template, fragment[..take], rest, fragment[take..]);
      assert fragment == fragment[..take] + fragment[take..];
    } else {
      fills := MatchRenders(template[1..], fragment[1..]);
      assert fragment == [template[0]] + fragment[1..];
      PrefixExtends([template[0]], fragment[1..], Render(template[1..], fills));
    }
  }

  lemma {:induction false} HolesAdd(a: seq<Part>, b: seq<Part>)
    ensures Holes(a + b) == Holes(a) + Holes(b)
  {
    if a == [] {
      assert a + b == b;
    } else {
      assert (a + b)[1..] == a[1..] + b;
      HolesAdd(a[1..], b);
    }
  }

  lemma {:induction false} RenderAdds(a: seq<Part>, b: seq<Part>, x: seq<seq<Part>>, y: seq<seq<Part>>)
    requires Fits(a, x) && Fits(b, y)
    ensures Fits(a + b, x + y) && Render(a + b, x + y) == Render(a, x) + Render(b, y)
  {
    HolesAdd(a, b);
    if a == [] {
      assert a + b == b && x + y == y;
    } else {
      assert (a + b)[1..] == a[1..] + b;
      if a[0].Hole? {
        assert (x + y)[1..] == x[1..] + y;
        RenderAdds(a[1..], b, x[1..], y);
        Associate(x[0], Render(a[1..], x[1..]), Render(b, y));
      } else {
        RenderAdds(a[1..], b, x, y);
        Associate([a[0]], Render(a[1..], x), Render(b, y));
      }
    }
  }

  // ----- a rendering gives a match

  lemma {:induction false} TokensCounted(fragment: seq<Part>, n: nat)
    requires n <= |fragment| && forall i | 0 <= i < n :: IsToken(fragment[i])
    ensures n <= TokenRun(fragment)
  {
    if n > 0 {
      TokensCounted(fragment[1..], n - 1);
    }
  }

  lemma {:induction false} PrefixMatches(template: seq<Part>, fills: seq<seq<Part>>, fragment: seq<Part>)
    requires Fits(template, fills) && fragment <= Render(template, fills)
    ensures At(template, fragment)
    decreases |template|
  {
    if fragment != [] {
      if template[0].Hole? {
        PrefixMatchesHole(template, fills, fragment);
        var take := FillLength(fills[0], fragment);
        PrefixMatches(template[1..], fills[1..], fragment[take..]);
      } else {
        assert fragment[1..] <= Render(template[1..], fills);
        PrefixMatches(template[1..], fills, fragment[1..]);
      }
    }
  }

  /** How much of the fragment the first fill accounts for. */
  function FillLength(fill: seq<Part>, fragment: seq<Part>): nat {
    if |fragment| <= |fill| then |fragment| else |fill|
  }

  lemma PrefixMatchesHole(template: seq<Part>, fills: seq<seq<Part>>, fragment: seq<Part>)
    requires template != [] && template[0].Hole? && fragment != []
    requires Fits(template, fills) && fragment <= Render(template, fills)
    ensures var take := FillLength(fills[0], fragment);
            && Fits(template[1..], fills[1..]) && fragment[take..] <= Render(template[1..], fills[1..])
            && (At(template[1..], fragment[take..]) ==> At(template, fragment))
  {
    var fill, rest := fills[0], Render(template[1..], fills[1..]);
    var take := FillLength(fill, fragment);
    assert ValidFill(fill);
    assert fragment[..take] == fill[..take];
    assert fragment[0] == fill[0];
    forall i | 0 <= i < take
      ensures IsToken(fragment[i])
    {
      assert fragment[i] == fill[i];
    }
    TokensCounted(fragment, take);
    assert fragment[take..] <= rest;
  }

  /** The rendering of the template from `start` on begins with the fragment. */
  ghost predicate Begins(template: seq<Part>, start: nat, fills: seq<seq<Part>>, fragment: seq<Part>) {
    start < |template| && Fits(template[start..], fills) && fragment <= Render(template[start..], fills)
  }

  /** Exact for all fragments, holes included: found iff, in some rendering, it begins where a template part begins. */
  lemma ContainsIffBegins(template: seq<Part>, fragment: seq<Part>)
    ensures TemplateContains(template, fragment) <==>
            exists start: nat, fills :: Begins(template, start, fills, fragment)
  {
    if TemplateContains(template, fragment) {
      var start :| 0 <= start < |template| && At(template[start..], fragment);
      var fills := MatchRenders(template[start..], fragment);
      assert Begins(template, start, fills, fragment);
    }
    if start: nat, fills :| Begins(template, start, fills, fragment) {
      PrefixMatches(template[start..], fills, fragment);
    }
  }

  /** The fragment stands at position i of a rendering. */
  ghost predicate Occurs(template: seq<Part>, fills: seq<seq<Part>>, i: nat, fragment: seq<Part>) {
    && Fits(template, fills)
    && i + |fragment| <= |Render(template, fills)| && Render(template, fills)[i..i + |fragment|] == fragment
  }

  /** The fragment stands in some message made from the template. */
  ghost predicate InMessage(template: seq<Part>, fragment: seq<Part>) {
    exists fills, i :: Occurs(template, fills, i, fragment) && AllText(fills)
  }

  lemma {:induction false} OccurrenceMatches(
    template: seq<Part>, fills: seq<seq<Part>>, i: nat, fragment: seq<Part>) returns (start: nat)
    requires template != [] && Occurs(template, fills, i, fragment) && AllText(fills)
    ensures start < |template| && At(template[start..], fragment)
    decreases |template|
  {
    var all := Render(template, fills);
    if fragment == [] {
      return 0;
    }
    var head := if template[0].Hole? then fills[0] else [template[0]];
    var others := if template[0].Hole? then fills[1..] else fills;
    var rest := Render(template[1..], others);
    assert all == head + rest;
    if i >= |head| {
      assert all[i..i + |fragment|] == rest[i - |head|..i - |head| + |fragment|];
      start := OccurrenceMatches(template[1..], others, i - |head|, fragment);
      assert template[1..][start..] == template[start + 1..];
      start := start + 1;
    } else {
      start := 0;
      assert template[0..] == template;
      if template[0].Hole? {
        CutFill(template, fills, i, fragment);
      } else {
        assert fragment <= all;
        PrefixMatches(template, fills, fragment);
      }
    }
  }

  /** A message that has the fragment inside its first fill can be cut to begin with it. */
  lemma CutFill(template: seq<Part>, fills: seq<seq<Part>>, i: nat, fragment: seq<Part>)
    requires template != [] && template[0].Hole? && Occurs(template, fills, i, fragment) && AllText(fills)
    requires i < |fills[0]|
    ensures At(template, fragment)
  {
    var all, rest := Render(template, fills), Render(template[1..], fills[1..]);
    var fill := fills[0][i..];
    assert ValidFill(fills[0]) && HoleFree(fills[0]);
    assert ValidFill(fill);
    var shorter := [fill] + fills[1..];
    assert shorter[1..] == fills[1..];
    assert Render(template, shorter) == fill + rest == all[i..];
    assert fragment == all[i..i + |fragment|] <= all[i..];
    PrefixMatches(template, shorter, fragment);
  }

  /** Exact for fragments without holes: found iff the template is not empty and some message contains the fragment. */
  lemma ContainsIffRendered(template: seq<Part>, fragment: seq<Part>)
    requires HoleFree(fragment)
    ensures TemplateContains(template, fragment) <==> template != [] && InMessage(template, fragment)
  {
    if TemplateContains(template, fragment) {
      var start :| 0 <= start < |template| && At(template[start..], fragment);
      MatchIsInMessage(template, start, fragment);
    }
    if template != [] && InMessage(template, fragment) {
      var fills, i :| Occurs(template, fills, i, fragment) && AllText(fills);
      var start := OccurrenceMatches(template, fills, i, fragment);
    }
  }

  lemma MatchIsInMessage(template: seq<Part>, start: nat, fragment: seq<Part>)
    requires start < |template| && At(template[start..], fragment) && HoleFree(fragment)
    ensures InMessage(template, fragment)
  {
    var y := MatchRenders(template[start..], fragment);
    var x := SomeFills(template[..start]);
    RenderAdds(template[..start], template[start..], x, y);
    assert template[..start] + template[start..] == template;
    var i := |Render(template[..start], x)|;
    var tail := Render(template[start..], y);
    assert (Render(template[..start], x) + tail)[i..i + |fragment|] == tail[..|fragment|];
    assert Occurs(template, x + y, i, fragment);
  }

  /** With holes, standing inside a fill is not enough: a hole of the fragment only ever takes a whole hole. */
  lemma HoleInsideFillIsMissed()
    ensures var template, fragment := [Hole], [Hole, Char('b')];
            && Occurs(template, [[Char('a'), Hole, Char('b')]], 1, fragment)
            && !TemplateContains(template, fragment)
  {
    var template, fragment := [Hole], [Hole, Char('b')];
    var fill := [Char('a'), Hole, Char('b')];
    assert ValidFill(fill);
    assert Render(template, [fill]) == fill + Render(template[1..], [fill][1..]) == fill;
    assert fill[1..3] == fragment;
    assert template[0..] == template && template[1..] == [] && fragment[1..] == [Char('b')];
    assert !At(template, fragment);
  }

  // ----- reading a format string

  function AfterHole(text: string): (rest: string)
    ensures |rest| <= |text|
  {
    if text == "" then "" else if text[0] == '}' then text[1..] else AfterHole(text[1..])
  }

  function Pattern(text: string): seq<Part>
    decreases |text|
  {
    if text == "" then []
    else if text[0] == '{' && |text| > 1 && text[1] == '{' then [Char('{')] + Pattern(text[2..])
    else if text[0] == '}' && |text| > 1 && text[1] == '}' then [Char('}')] + Pattern(text[2..])
    else if text[0] == '{' then [Hole] + Pattern(AfterHole(text[1..]))
    else [Char(text[0])] + Pattern(text[1..])
  }

  /** Reads up to and including the closing brace of a hole. */
  method SkipHole(text: string) returns (rest: string)
    ensures rest == AfterHole(text)
  {
    rest := text;
    while rest != "" && rest[0] != '}'
      invariant AfterHole(rest) == AfterHole(text)
      decreases |rest|
    {
      rest := rest[1..];
    }
    rest := if rest == "" then "" else rest[1..];
  }

  method TemplatePattern(text: string) returns (parts: seq<Part>)
    ensures parts == Pattern(text)
  {
    parts := [];
    var rest := text;
    while rest != ""
      invariant parts + Pattern(rest) == Pattern(text)
      decreases |rest|
    {
      var part, after := NextPart(rest);
      Associate(parts, [part], Pattern(after));
      parts, rest := parts + [part], after;
    }
  }

  /** One turn of the loop: the part read, and the text after it. */
  method NextPart(text: string) returns (part: Part, rest: string)
    requires text != ""
    ensures |rest| < |text| && Pattern(text) == [part] + Pattern(rest)
  {
    var character := text[0];
    rest := text[1..];
    if (character == '{' || character == '}') && rest != "" && rest[0] == character {
      assert rest[1..] == text[2..];
      part, rest := Char(character), rest[1..];
    } else if character == '{' {
      part := Hole;
      rest := SkipHole(rest);
    } else {
      part := Char(character);
    }
  }

  /** A format string as its author thinks of it. */
  datatype Piece = Literal(c: char) | Argument(name: string)

  predicate Nameable(name: string) {
    (forall i | 0 <= i < |name| :: name[i] != '}') && (name != "" ==> name[0] != '{')
  }

  function PieceText(piece: Piece): string {
    match piece
    case Literal(c) => if c == '{' then "{{" else if c == '}' then "}}" else [c]
    case Argument(name) => "{" + name + "}"
  }

  function PartOf(piece: Piece): Part {
    if piece.Literal? then Char(piece.c) else Hole
  }

  function WriteFormat(pieces: seq<Piece>): string {
    if pieces == [] then "" else PieceText(pieces[0]) + WriteFormat(pieces[1..])
  }

  function PartsOf(pieces: seq<Piece>): seq<Part> {
    if pieces == [] then [] else [PartOf(pieces[0])] + PartsOf(pieces[1..])
  }

  lemma {:induction false} HoleSkipped(name: string, rest: string)
    requires forall i | 0 <= i < |name| :: name[i] != '}'
    ensures AfterHole(name + "}" + rest) == rest
  {
    var all := name + "}" + rest;
    if name == "" {
      assert all[1..] == rest;
    } else {
      assert all[1..] == name[1..] + "}" + rest;
      HoleSkipped(name[1..], rest);
    }
  }

  lemma PatternFirst(piece: Piece, others: string)
    requires piece.Argument? ==> Nameable(piece.name)
    ensures Pattern(PieceText(piece) + others) == [PartOf(piece)] + Pattern(others)
  {
    var text := PieceText(piece) + others;
    match piece
    case Literal(c) =>
      assert (if c == '{' || c == '}' then text[2..] else text[1..]) == others;
    case Argument(name) =>
      assert text[1..] == name + "}" + others;
      HoleSkipped(name, others);
  }

  /** A format string reads as its pieces, whatever follows it. */
  lemma {:induction false} PatternAfterFormat(pieces: seq<Piece>, rest: string)
    requires forall i | 0 <= i < |pieces| && pieces[i].Argument? :: Nameable(pieces[i].name)
    ensures Pattern(WriteFormat(pieces) + rest) == PartsOf(pieces) + Pattern(rest)
  {
    if pieces == [] {
      assert WriteFormat(pieces) + rest == rest;
    } else {
      PatternAfterFormat(pieces[1..], rest);
      PatternFirst(pieces[0], WriteFormat(pieces[1..]) + rest);
      Associate(PieceText(pieces[0]), WriteFormat(pieces[1..]), rest);
      Associate([PartOf(pieces[0])], PartsOf(pieces[1..]), Pattern(rest));
    }
  }

  /** Round trip: reading back a written format string recovers its literals and holes. */
  lemma PatternRecoversFormat(pieces: seq<Piece>)
    requires forall i | 0 <= i < |pieces| && pieces[i].Argument? :: Nameable(pieces[i].name)
    ensures Pattern(WriteFormat(pieces)) == PartsOf(pieces)
  {
    PatternAfterFormat(pieces, "");
    assert WriteFormat(pieces) + "" == WriteFormat(pieces);
  }

  // ----- format strings that are not well formed

  /** A hole that is never closed swallows the rest. */
  lemma UnclosedHole(pieces: seq<Piece>, name: string)
    requires forall i | 0 <= i < |pieces| && pieces[i].Argument? :: Nameable(pieces[i].name)
    requires Nameable(name)
    ensures Pattern(WriteFormat(pieces) + ("{" + name)) == PartsOf(pieces) + [Hole]
  {
    PatternAfterFormat(pieces, "{" + name);
    assert ("{" + name)[1..] == name;
    NothingAfter(name);
  }

  lemma {:induction false} NothingAfter(name: string)
    requires forall i | 0 <= i < |name| :: name[i] != '}'
    ensures AfterHole(name) == ""
  {
    if name != "" {
      NothingAfter(name[1..]);
    }
  }

  /** A single closing brace stands for itself. */
  lemma StrayBrace(pieces: seq<Piece>, rest: string)
    requires forall i | 0 <= i < |pieces| && pieces[i].Argument? :: Nameable(pieces[i].name)
    requires rest != "" ==> rest[0] != '}'
    ensures Pattern(WriteFormat(pieces) + ("}" + rest)) == PartsOf(pieces) + ([Char('}')] + Pattern(rest))
  {
    PatternAfterFormat(pieces, "}" + rest);
    assert ("}" + rest)[1..] == rest;
  }

  /** What a fill may be, character by character. */
  lemma FillsAreTokens(fill: seq<Part>, i: nat)
    requires ValidFill(fill) && i < |fill| && fill[i].Char?
    ensures fill[i].c != '`' && fill[i].c != ' ' && fill[i].c != '\n' && fill[i].c != '\t' && !IsWhitespace(fill[i].c)
  {
    assert IsToken(fill[i]);
  }

  lemma EveryTokenFills(c: char)
    requires c != '`' && !IsWhitespace(c)
    ensures ValidFill([Char(c)])
  {
  }
}
