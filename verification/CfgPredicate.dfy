/** Deciding from the text of a cfg predicate that the item it guards exists only in test builds. */
module CfgPredicate {
  import opened Text

  // ----- on text

  /** The comma-separated parts outside parentheses, trimmed; `current` is the part being read. */
  function Split(list: string, depth: nat, current: string): seq<string> {
    if list == "" then [Trim(current)]
    else if list[0] == '(' then Split(list[1..], depth + 1, current + [list[0]])
    else if list[0] == ')' then Split(list[1..], if depth == 0 then 0 else depth - 1, current + [list[0]])
    else if list[0] == ',' && depth == 0 then [Trim(current)] + Split(list[1..], 0, "")
    else Split(list[1..], depth, current + [list[0]])
  }

  function NonEmpty(parts: seq<string>): seq<string> {
    if parts == [] then []
    else (if parts[0] == "" then [] else [parts[0]]) + NonEmpty(parts[1..])
  }

  method SplitTop(list: string) returns (parts: seq<string>)
    ensures parts == NonEmpty(Split(list, 0, ""))
  {
    var all := SplitCommas(list);
    parts := [];
    for i := 0 to |all|
      invariant parts + NonEmpty(all[i..]) == NonEmpty(all)
    {
      assert all[i..][1..] == all[i + 1..];
      if all[i] != "" {
        parts := parts + [all[i]];
      }
    }
  }

  method SplitCommas(list: string) returns (all: seq<string>)
    ensures all == Split(list, 0, "")
  {
    all := [];
    var depth: nat, start := 0, 0;
    assert list[0..] == list;
    for index := 0 to |list|
      invariant 0 <= start <= index
      invariant all + Split(list[index..], depth, list[start..index]) == Split(list, 0, "")
    {
      SplitStep(list, index, depth, start);
      var character := list[index];
      if character == '(' {
        depth := depth + 1;
      } else if character == ')' {
        depth := if depth == 0 then 0 else depth - 1;
      } else if character == ',' && depth == 0 {
        all := all + [Trim(list[start..index])];
        start := index + 1;
      }
    }
    all := all + [Trim(list[start..])];
    assert list[start..] == list[start..|list|];
  }

  lemma SplitStep(list: string, index: nat, depth: nat, start: nat)
    requires start <= index < |list|
    ensures var c, rest := list[index], list[index + 1..];
            Split(list[index..], depth, list[start..index]) ==
            if c == '(' then Split(rest, depth + 1, list[start..index + 1])
            else if c == ')' then Split(rest, if depth == 0 then 0 else depth - 1, list[start..index + 1])
            else if c == ',' && depth == 0 then [Trim(list[start..index])] + Split(rest, 0, list[index + 1..index + 1])
            else Split(rest, depth, list[start..index + 1])
  {
    assert list[index..][0] == list[index] && list[index..][1..] == list[index + 1..];
    assert list[start..index] + [list[index]] == list[start..index + 1];
    assert list[index + 1..index + 1] == "";
  }

  lemma {:induction false} SplitIsShort(list: string, depth: nat, current: string)
    ensures forall part | part in Split(list, depth, current) :: |part| <= |current| + |list|
  {
    TrimShrinks(current);
    if list != "" {
      SplitIsShort(list[1..], depth + 1, current + [list[0]]);
      SplitIsShort(list[1..], if depth == 0 then 0 else depth - 1, current + [list[0]]);
      SplitIsShort(list[1..], 0, "");
      SplitIsShort(list[1..], depth, current + [list[0]]);
    }
  }

  lemma {:induction false} NonEmptyKeeps(parts: seq<string>)
    ensures forall part | part in NonEmpty(parts) :: part in parts
  {
    if parts != [] {
      NonEmptyKeeps(parts[1..]);
    }
  }

  /** The text between `name(` and a closing parenthesis at the end. */
  predicate Wrapped(p: string, name: string) {
    name + "(" <= p && |p| > |name| + 1 && p[|p| - 1] == ')'
  }

  function Inner(p: string, name: string): string
    requires Wrapped(p, name)
  {
    p[|name| + 1..|p| - 1]
  }

  function PartsOf(p: string, name: string): (parts: seq<string>)
    requires Wrapped(p, name)
    ensures forall i | 0 <= i < |parts| :: |parts[i]| < |p|
  {
    SplitIsShort(Inner(p, name), 0, "");
    NonEmptyKeeps(Split(Inner(p, name), 0, ""));
    NonEmpty(Split(Inner(p, name), 0, ""))
  }

  predicate CfgRequiresTest(predicateText: string)
    decreases |predicateText|
  {
    TrimShrinks(predicateText);
    var p := Trim(predicateText);
    if p == "test" then true
    else if Wrapped(p, "all") then
      var parts := PartsOf(p, "all");
      exists i | 0 <= i < |parts| :: CfgRequiresTest(parts[i])
    else if Wrapped(p, "any") then
      var parts := PartsOf(p, "any");
      forall i | 0 <= i < |parts| :: CfgRequiresTest(parts[i]) || "feature" <= parts[i]
    else false
  }

  // ----- on trees

  datatype Pred =
    | Test
    | Feature(rest: string)
    | Flag(text: string)
    | Not(arg: Arg)
    | All(args: seq<Arg>)
    | Any(args: seq<Arg>)

  /** A predicate with the whitespace around it, or an empty place, such as the one after a trailing comma. */
  datatype Arg = Arg(before: string, pred: Pred, after: string) | Nothing(blank: string)

  function Print(p: Pred): string
    decreases p, 0
  {
    match p
    case Test => "test"
    case Feature(rest) => "feature" + rest
    case Flag(text) => text
    case Not(arg) => Wrap("not", PrintArg(arg))
    case All(args) => Wrap("all", PrintArgs(args))
    case Any(args) => Wrap("any", PrintArgs(args))
  }

  function Wrap(name: string, inner: string): string { name + "(" + inner + ")" }

  function PrintArg(arg: Arg): string
    decreases arg, 1
  {
    match arg
    case Arg(before, pred, after) => before + Print(pred) + after
    case Nothing(blank) => blank
  }

  function PrintArgs(args: seq<Arg>): string
    decreases args, 2
  {
    if args == [] then ""
    else if |args| == 1 then PrintArg(args[0])
    else PrintArg(args[0]) + "," + PrintArgs(args[1..])
  }

  predicate Plain(text: string) {
    forall i | 0 <= i < |text| :: text[i] != '(' && text[i] != ')' && text[i] != ','
  }

  /** What follows the word in `feature = "name"`. */
  predicate IsValue(rest: string) {
    TrimStart(rest) != "" && TrimStart(rest)[0] == '='
  }

  /** Any other token; it may well start with the letters "feature". */
  predicate IsFlag(text: string) {
    && text != "" && text != "test" && Tight(text) && Plain(text)
    && !("feature" <= text && IsValue(text[|"feature"|..]))
  }

  predicate WellFormed(p: Pred)
    decreases p
  {
    match p
    case Test => true
    case Feature(rest) => Plain(rest) && Tight("feature" + rest) && IsValue(rest)
    case Flag(text) => IsFlag(text)
    case Not(arg) => arg.Arg? && Blank(arg.before) && Blank(arg.after) && WellFormed(arg.pred)
    case All(args) => forall i | 0 <= i < |args| :: ArgOk(args[i])
    case Any(args) => forall i | 0 <= i < |args| :: ArgOk(args[i])
  }

  predicate ArgOk(arg: Arg)
    decreases arg
  {
    match arg
    case Arg(before, pred, after) => Blank(before) && Blank(after) && WellFormed(pred)
    case Nothing(blank) => Blank(blank)
  }

  predicate ArgsOk(args: seq<Arg>) { forall i | 0 <= i < |args| :: ArgOk(args[i]) }

  /** The recogniser goes by the first letters, so it takes some flags for features. */
  predicate TakenForFeature(p: Pred) {
    p.Feature? || (p.Flag? && "feature" <= p.text)
  }

  /** The same decision, taken on the tree. */
  predicate RequiresTest(p: Pred)
    decreases p
  {
    match p
    case Test => true
    case All(args) => exists i | 0 <= i < |args| :: args[i].Arg? && RequiresTest(args[i].pred)
    case Any(args) =>
      forall i | 0 <= i < |args| && args[i].Arg? :: RequiresTest(args[i].pred) || TakenForFeature(args[i].pred)
    case _ => false
  }

  /** What the predicate means with `test` and every feature off; `flags` decides the rest. */
  predicate Holds(p: Pred, flags: string -> bool)
    decreases p
  {
    match p
    case Test => false
    case Feature(_) => false
    case Flag(text) => flags(text)
    case Not(arg) => arg.Arg? && !Holds(arg.pred, flags)
    case All(args) => forall i | 0 <= i < |args| && args[i].Arg? :: Holds(args[i].pred, flags)
    case Any(args) => exists i | 0 <= i < |args| :: args[i].Arg? && Holds(args[i].pred, flags)
  }

  /** No flag that could be taken for a feature is set. */
  ghost predicate NoFeatureLikeFlag(flags: string -> bool) {
    forall text | IsFlag(text) && "feature" <= text :: !flags(text)
  }

  /** A yes means the item cannot exist outside test builds with features off. */
  lemma {:induction false} YesMeansTestOnly(p: Pred, flags: string -> bool)
    requires WellFormed(p) && RequiresTest(p) && NoFeatureLikeFlag(flags)
    ensures !Holds(p, flags)
    decreases p
  {
    match p
    case Test =>
    case All(args) =>
      var i :| 0 <= i < |args| && args[i].Arg? && RequiresTest(args[i].pred);
      assert ArgOk(args[i]);
      YesMeansTestOnly(args[i].pred, flags);
    case Any(args) =>
      forall i | 0 <= i < |args| && args[i].Arg?
        ensures !Holds(args[i].pred, flags)
      {
        assert ArgOk(args[i]) && WellFormed(args[i].pred);
        if RequiresTest(args[i].pred) {
          YesMeansTestOnly(args[i].pred, flags);
        } else {
          assert TakenForFeature(args[i].pred);
        }
      }
  }

  ghost predicate YesIsSound(flags: string -> bool) {
    forall p | WellFormed(p) && RequiresTest(p) :: !Holds(p, flags)
  }

  /** Exactly that condition is needed: any set flag that starts with the letters makes some yes wrong. */
  lemma YesIsSoundIff(flags: string -> bool)
    ensures YesIsSound(flags) <==> NoFeatureLikeFlag(flags)
  {
    if NoFeatureLikeFlag(flags) {
      forall p | WellFormed(p) && RequiresTest(p)
        ensures !Holds(p, flags)
      {
        YesMeansTestOnly(p, flags);
      }
    }
    forall text | YesIsSound(flags) && IsFlag(text) && "feature" <= text
      ensures !flags(text)
    {
      var p := Any([Arg("", Test, ""), Arg("", Flag(text), "")]);
      assert p.args[1].pred == Flag(text);
      assert RequiresTest(p) && WellFormed(p);
      assert !Holds(p, flags);
    }
  }

  // ----- when a yes must be given

  /** No negation, and features only where the recogniser knows them: as alternatives of an `any`. */
  ghost predicate IsPositive(p: Pred)
    decreases p
  {
    match p
    case Test => true
    case Flag(text) => !("feature" <= text)
    case All(args) => forall i | 0 <= i < |args| && args[i].Arg? :: IsPositive(args[i].pred)
    case Any(args) =>
      forall i | 0 <= i < |args| && args[i].Arg? :: IsPositive(args[i].pred) || TakenForFeature(args[i].pred)
    case _ => false
  }

  /** Everything is set but what looks like a feature. */
  function AllButFeatures(text: string): bool { !("feature" <= text) }

  /** On such predicates the answer is exact: yes iff the item is gone with test and features off and all else on. */
  lemma {:induction false} YesIffGone(p: Pred)
    requires IsPositive(p)
    ensures RequiresTest(p) <==> !Holds(p, AllButFeatures)
    decreases p
  {
    match p
    case Test =>
    case Flag(_) =>
    case All(args) =>
      forall i | 0 <= i < |args| && args[i].Arg?
        ensures RequiresTest(args[i].pred) <==> !Holds(args[i].pred, AllButFeatures)
      {
        YesIffGone(args[i].pred);
      }
    case Any(args) =>
      forall i | 0 <= i < |args| && args[i].Arg?
        ensures RequiresTest(args[i].pred) || TakenForFeature(args[i].pred) <==> !Holds(args[i].pred, AllButFeatures)
      {
        if !TakenForFeature(args[i].pred) {
          YesIffGone(args[i].pred);
        }
      }
  }

  /**
   Whether a predicate may hold outside test builds for all one can tell without looking into negations: these, flags
   and features may hold, except that an alternative that is a feature is taken to be off.
   */
  predicate MayHold(p: Pred)
    decreases p
  {
    match p
    case Test => false
    case All(args) => forall i | 0 <= i < |args| && args[i].Arg? :: MayHold(args[i].pred)
    case Any(args) =>
      exists i | 0 <= i < |args| :: args[i].Arg? && !TakenForFeature(args[i].pred) && MayHold(args[i].pred)
    case _ => true
  }

  /** On every predicate: a yes is given exactly when it cannot hold in that sense. */
  lemma {:induction false} YesIffCannotHold(p: Pred)
    ensures RequiresTest(p) <==> !MayHold(p)
    decreases p
  {
    match p
    case All(args) =>
      forall i | 0 <= i < |args| && args[i].Arg?
        ensures RequiresTest(args[i].pred) <==> !MayHold(args[i].pred)
      {
        YesIffCannotHold(args[i].pred);
      }
    case Any(args) =>
      forall i | 0 <= i < |args| && args[i].Arg?
        ensures RequiresTest(args[i].pred) <==> !MayHold(args[i].pred)
      {
        YesIffCannotHold(args[i].pred);
      }
    case _ =>
  }

  // ----- splitting printed arguments

  lemma {:induction false} ReadPlain(text: string, rest: string, depth: nat, current: string)
    requires Plain(text)
    ensures Split(text + rest, depth, current) == Split(rest, depth, current + text)
  {
    if text == "" {
      assert text + rest == rest && current + text == current;
    } else {
      var all := text + rest;
      assert all[1..] == text[1..] + rest;
      assert (current + [text[0]]) + text[1..] == current + text;
      ReadPlain(text[1..], rest, depth, current + [text[0]]);
    }
  }

  lemma BlankIsPlain(text: string)
    requires Blank(text)
    ensures Plain(text)
  {
    forall i | 0 <= i < |text|
      ensures text[i] != '(' && text[i] != ')' && text[i] != ','
    {
      assert IsWhitespace(text[i]);
    }
  }

  /** A printed predicate never ends a part: its commas are inside its own parentheses. */
  lemma {:induction false} ReadPred(p: Pred, rest: string, depth: nat, current: string)
    requires WellFormed(p)
    ensures Split(Print(p) + rest, depth, current) == Split(rest, depth, current + Print(p))
    decreases p, 0
  {
    match p
    case Test => ReadPlain("test", rest, depth, current);
    case Feature(r) => ReadPlain("feature" + r, rest, depth, current);
    case Flag(text) => ReadPlain(text, rest, depth, current);
    case Not(arg) =>
      ReadArg(arg, ")" + rest, depth + 1, current + "not" + "(");
      ReadWrapped("not", PrintArg(arg), rest, depth, current);
    case All(args) =>
      assert ArgsOk(args);
      ReadArgs(args, ")" + rest, depth + 1, current + "all" + "(");
      ReadWrapped("all", PrintArgs(args), rest, depth, current);
    case Any(args) =>
      assert ArgsOk(args);
      ReadArgs(args, ")" + rest, depth + 1, current + "any" + "(");
      ReadWrapped("any", PrintArgs(args), rest, depth, current);
  }

  lemma ReadWrapped(name: string, inner: string, rest: string, depth: nat, current: string)
    requires Plain(name)
    requires Split(inner + (")" + rest), depth + 1, current + name + "(") ==
             Split(")" + rest, depth + 1, current + name + "(" + inner)
    ensures Split(Wrap(name, inner) + rest, depth, current) == Split(rest, depth, current + Wrap(name, inner))
  {
    var tail := "(" + (inner + (")" + rest));
    assert Wrap(name, inner) + rest == name + tail;
    ReadPlain(name, tail, depth, current);
    assert tail[1..] == inner + (")" + rest);
    assert (")" + rest)[1..] == rest;
    assert current + name + "(" + inner + ")" == current + Wrap(name, inner);
  }

  lemma {:induction false} ReadArg(arg: Arg, rest: string, depth: nat, current: string)
    requires ArgOk(arg)
    ensures Split(PrintArg(arg) + rest, depth, current) == Split(rest, depth, current + PrintArg(arg))
    decreases arg, 1
  {
    match arg
    case Nothing(blank) =>
      BlankIsPlain(blank);
      ReadPlain(blank, rest, depth, current);
    case Arg(before, pred, after) =>
      BlankIsPlain(before);
      BlankIsPlain(after);
      var text := Print(pred);
      assert PrintArg(arg) + rest == before + (text + (after + rest));
      ReadPlain(before, text + (after + rest), depth, current);
      ReadPred(pred, after + rest, depth, current + before);
      ReadPlain(after, rest, depth, current + before + text);
      assert current + before + text + after == current + PrintArg(arg);
  }

  lemma {:induction false} ReadArgs(args: seq<Arg>, rest: string, depth: nat, current: string)
    requires ArgsOk(args) && depth >= 1
    ensures Split(PrintArgs(args) + rest, depth, current) == Split(rest, depth, current + PrintArgs(args))
    decreases args, 2
  {
    if args == [] {
      assert PrintArgs(args) + rest == rest && current + PrintArgs(args) == current;
    } else if |args| == 1 {
      ReadArg(args[0], rest, depth, current);
    } else {
      FirstOfMany(args, rest, current);
      ReadArg(args[0], "," + (PrintArgs(args[1..]) + rest), depth, current);
      ReadArgs(args[1..], rest, depth, current + PrintArg(args[0]) + ",");
    }
  }

  lemma FirstOfMany(args: seq<Arg>, rest: string, current: string)
    requires |args| > 1
    ensures PrintArgs(args) + rest == PrintArg(args[0]) + ("," + (PrintArgs(args[1..]) + rest))
    ensures ("," + (PrintArgs(args[1..]) + rest))[1..] == PrintArgs(args[1..]) + rest
    ensures current + PrintArg(args[0]) + "," + PrintArgs(args[1..]) == current + PrintArgs(args)
  {
    CommaRegroups(PrintArg(args[0]), PrintArgs(args[1..]), rest, current);
  }

  lemma CommaRegroups(a: string, b: string, rest: string, current: string)
    ensures (a + "," + b) + rest == a + ("," + (b + rest))
    ensures ("," + (b + rest))[1..] == b + rest
    ensures current + a + "," + b == current + (a + "," + b)
  {
  }

  // ----- printed predicates are recognised

  /** What an argument's part is after trimming; an empty place leaves an empty part. */
  function Part(arg: Arg): string {
    if arg.Arg? then Print(arg.pred) else ""
  }

  function Printed(args: seq<Arg>): (parts: seq<string>)
    ensures |parts| == |args| && forall i | 0 <= i < |args| :: parts[i] == Part(args[i])
  {
    seq(|args|, i requires 0 <= i < |args| => Part(args[i]))
  }

  lemma {:induction false} PrintIsTight(p: Pred)
    requires WellFormed(p)
    ensures Print(p) != "" && Tight(Print(p))
  {
  }

  lemma TrimArg(arg: Arg)
    requires ArgOk(arg)
    ensures Trim(PrintArg(arg)) == Part(arg)
    ensures Part(arg) == "" <==> arg.Nothing?
  {
    match arg
    case Nothing(blank) => TrimBlank(blank);
    case Arg(before, pred, after) =>
      PrintIsTight(pred);
      TrimPadded(before, Print(pred), after);
  }

  lemma SplitEnd(current: string)
    ensures Split("", 0, current) == [Trim(current)]
  {
  }

  lemma SplitComma(rest: string, current: string)
    ensures Split("," + rest, 0, current) == [Trim(current)] + Split(rest, 0, "")
  {
    assert ("," + rest)[1..] == rest;
  }

  lemma SplitFirst(arg: Arg, rest: string)
    requires ArgOk(arg)
    ensures Split(PrintArg(arg), 0, "") == [Part(arg)]
    ensures Split(PrintArg(arg) + ("," + rest), 0, "") == [Part(arg)] + Split(rest, 0, "")
  {
    TrimArg(arg);
    var text := PrintArg(arg);
    assert "" + text == text && text + "" == text;
    ReadArg(arg, "", 0, "");
    SplitEnd(text);
    ReadArg(arg, "," + rest, 0, "");
    SplitComma(rest, text);
  }

  lemma {:induction false} SplitPrinted(args: seq<Arg>)
    requires ArgsOk(args) && args != []
    ensures Split(PrintArgs(args), 0, "") == Printed(args)
    decreases |args|
  {
    if |args| == 1 {
      SplitFirst(args[0], "");
      PrintedCons(args);
      assert Printed(args[1..]) == [];
    } else {
      SplitFirst(args[0], PrintArgs(args[1..]));
      SplitPrinted(args[1..]);
      FirstOfMany(args, "", "");
      assert PrintArgs(args) + "" == PrintArgs(args);
      assert PrintArgs(args[1..]) + "" == PrintArgs(args[1..]);
      PrintedCons(args);
    }
  }

  lemma PrintedCons(args: seq<Arg>)
    requires args != []
    ensures Printed(args) == [Part(args[0])] + Printed(args[1..])
  {
  }

  lemma {:induction false} NonEmptyMembers(parts: seq<string>)
    ensures forall part :: part in NonEmpty(parts) <==> part != "" && part in parts
  {
    if parts != [] {
      NonEmptyMembers(parts[1..]);
    }
  }

  /** The parts are exactly the texts of the arguments that are there. */
  lemma PartsOfPrinted(args: seq<Arg>)
    requires ArgsOk(args)
    ensures forall part :: part in NonEmpty(Split(PrintArgs(args), 0, "")) <==>
                           exists i :: 0 <= i < |args| && args[i].Arg? && part == Print(args[i].pred)
  {
    if args == [] {
      assert NonEmpty(Split("", 0, "")) == [];
    } else {
      SplitPrinted(args);
      NonEmptyMembers(Printed(args));
      forall i | 0 <= i < |args|
        ensures Printed(args)[i] == "" <==> args[i].Nothing?
      {
        TrimArg(args[i]);
      }
    }
  }

  /** The text of a predicate starts with "feature" exactly when the recogniser takes it for one. */
  lemma FeatureByPrefix(p: Pred)
    requires WellFormed(p)
    ensures "feature" <= Print(p) <==> TakenForFeature(p)
  {
    match p
    case Not(arg) => assert Print(p)[0] == 'n';
    case All(args) => assert Print(p)[0] == 'a';
    case Any(args) => assert Print(p)[0] == 'a';
    case _ =>
  }

  lemma WrapIsWrapped(name: string, inner: string)
    ensures Wrapped(Wrap(name, inner), name) && Inner(Wrap(name, inner), name) == inner
  {
  }

  /** The recursion on text agrees with the recursion on the tree, whatever the padding. */
  lemma {:induction false} TextAgreesWithTree(before: string, p: Pred, after: string)
    requires Blank(before) && WellFormed(p) && Blank(after)
    ensures CfgRequiresTest(before + Print(p) + after) == RequiresTest(p)
    decreases p
  {
    var text := Print(p);
    PrintIsTight(p);
    TrimPadded(before, text, after);
    match p
    case Test =>
    case Feature(rest) => assert text[0] == 'f';
    case Flag(_) =>
      NotWrapped(text, "all");
      NotWrapped(text, "any");
    case Not(_) => assert text[0] == 'n';
    case All(args) =>
      PartsAgree(args);
      AllAgrees(args, before + text + after);
    case Any(args) =>
      PartsAgree(args);
      AnyAgrees(args, before + text + after);
  }

  ghost predicate Agree(args: seq<Arg>) {
    && (forall part :: part in NonEmpty(Split(PrintArgs(args), 0, "")) <==>
                       exists i :: 0 <= i < |args| && args[i].Arg? && part == Print(args[i].pred))
    && (forall i | 0 <= i < |args| && args[i].Arg? ::
          && CfgRequiresTest(Print(args[i].pred)) == RequiresTest(args[i].pred)
          && ("feature" <= Print(args[i].pred) <==> TakenForFeature(args[i].pred)))
  }

  lemma AllAgrees(args: seq<Arg>, text: string)
    requires Agree(args) && Trim(text) == Print(All(args))
    ensures CfgRequiresTest(text) == RequiresTest(All(args))
  {
    WrapIsWrapped("all", PrintArgs(args));
    var parts := PartsOf(Trim(text), "all");
    assert Trim(text)[0] == 'a';
    assert CfgRequiresTest(text) == exists i | 0 <= i < |parts| :: CfgRequiresTest(parts[i]);
    if i :| 0 <= i < |parts| && CfgRequiresTest(parts[i]) {
      assert parts[i] in parts;
    }
    if i :| 0 <= i < |args| && args[i].Arg? && RequiresTest(args[i].pred) {
      assert Print(args[i].pred) in parts;
    }
  }

  lemma AnyAgrees(args: seq<Arg>, text: string)
    requires Agree(args) && Trim(text) == Print(Any(args))
    ensures CfgRequiresTest(text) == RequiresTest(Any(args))
  {
    WrapIsWrapped("any", PrintArgs(args));
    var parts := PartsOf(Trim(text), "any");
    assert Trim(text)[0] == 'a' && Trim(text)[1] == 'n' && ("all" + "(")[1] == 'l';
    assert !Wrapped(Trim(text), "all");
    assert CfgRequiresTest(text) == forall i | 0 <= i < |parts| :: CfgRequiresTest(parts[i]) || "feature" <= parts[i];
    if i :| 0 <= i < |parts| && !CfgRequiresTest(parts[i]) && !("feature" <= parts[i]) {
      assert parts[i] in parts;
    }
    if i :| 0 <= i < |args| && args[i].Arg? && !RequiresTest(args[i].pred) && !TakenForFeature(args[i].pred) {
      assert Print(args[i].pred) in parts;
    }
  }

  lemma NotWrapped(text: string, name: string)
    requires Plain(text)
    ensures !Wrapped(text, name)
  {
    assert |text| > |name| ==> text[|name|] != (name + "(")[|name|];
  }

  lemma {:induction false} PartsAgree(args: seq<Arg>)
    requires ArgsOk(args)
    ensures Agree(args)
    decreases args
  {
    PartsOfPrinted(args);
    forall i | 0 <= i < |args| && args[i].Arg?
      ensures CfgRequiresTest(Print(args[i].pred)) == RequiresTest(args[i].pred)
      ensures "feature" <= Print(args[i].pred) <==> TakenForFeature(args[i].pred)
    {
      assert ArgOk(args[i]);
      var p := args[i].pred;
      assert "" + Print(p) + "" == Print(p);
      TextAgreesWithTree("", p, "");
      FeatureByPrefix(p);
    }
  }

  /** End to end: a yes on the text of a predicate means it is false with test and features off. */
  lemma YesOnTextMeansTestOnly(before: string, p: Pred, after: string, flags: string -> bool)
    requires Blank(before) && WellFormed(p) && Blank(after)
    requires CfgRequiresTest(before + Print(p) + after) && NoFeatureLikeFlag(flags)
    ensures !Holds(p, flags)
  {
    TextAgreesWithTree(before, p, after);
    YesMeansTestOnly(p, flags);
  }

  /** And exact on text: with positive predicates a yes is given iff the item is gone. */
  lemma YesOnTextIffGone(before: string, p: Pred, after: string)
    requires Blank(before) && WellFormed(p) && Blank(after) && IsPositive(p)
    ensures CfgRequiresTest(before + Print(p) + after) <==> !Holds(p, AllButFeatures)
  {
    TextAgreesWithTree(before, p, after);
    YesIffGone(p);
  }

  /** A closing parenthesis that nothing opened is text, and what follows it is still at the top. */
  lemma StrayCloseIsText(a: string, b: string)
    requires Plain(a) && Plain(b)
    ensures Split(a + ")," + b, 0, "") == [Trim(a + ")"), Trim(b)]
  {
    var rest := "," + b;
    assert a + ")," + b == a + (")" + rest);
    ReadPlain(a, ")" + rest, 0, "");
    assert "" + a == a && (")" + rest)[1..] == rest;
    SplitComma(b, a + ")");
    ReadPlain(b, "", 0, "");
    assert b + "" == b && "" + b == b;
  }
}
