/** The key under which two gate commands select the same work: the preset profiles count as one. */
module GateKey {
  const FLAG := "--profile"

  predicate Preset(word: string) { word == "default" || word == "quick" || word == "ci" }

  /** `command.split(' ')`: never empty, and no piece holds a space. */
  function Split(s: string): (words: seq<string>)
    ensures words != []
    ensures forall w | w in words :: ' ' !in w
  {
    if s == "" then [""]
    else
      var rest := Split(s[1..]);
      if s[0] == ' ' then [""] + rest else [[s[0]] + rest[0]] + rest[1..]
  }

  function Join(words: seq<string>): string
    requires words != []
  {
    if |words| == 1 then words[0] else words[0] + " " + Join(words[1..])
  }

  /** Whether the word at `i` is the value of a profile flag; such a value is never itself read as a flag. */
  predicate IsProfileValue(words: seq<string>, i: nat)
    requires i <= |words|
  {
    i > 0 && words[i - 1] == FLAG && !IsProfileValue(words, i - 1)
  }

  function KeyWord(words: seq<string>, i: nat): string
    requires i < |words|
  {
    if IsProfileValue(words, i) && Preset(words[i]) then "default" else words[i]
  }

  function KeyWords(words: seq<string>): seq<string> {
    seq(|words|, i requires 0 <= i < |words| => KeyWord(words, i))
  }

  function Key(command: string): string {
    Join(KeyWords(Split(command)))
  }

  method SelectionKey(command: string) returns (key: string)
    ensures key == Key(command)
  {
    var all := Split(command);
    var words: seq<string> := [];
    var profile := false;
    for i := 0 to |all|
      invariant words == KeyWords(all)[..i]
      invariant profile == IsProfileValue(all, i)
    {
      var word := all[i];
      assert KeyWords(all)[..i + 1] == KeyWords(all)[..i] + [KeyWord(all, i)];
      if profile {
        profile := false;
        words := words + [if Preset(word) then "default" else word];
      } else {
        profile := word == FLAG;
        words := words + [word];
      }
    }
    assert words == KeyWords(all);
    key := Join(words);
  }

  // ----- what equality of keys means

  lemma {:induction false} SplitFirst(w: string, s: string)
    requires ' ' !in w
    ensures Split(w + s) == [w + Split(s)[0]] + Split(s)[1..]
  {
    if w == "" {
      assert w + s == s && w + Split(s)[0] == Split(s)[0];
    } else {
      assert (w + s)[1..] == w[1..] + s;
      SplitFirst(w[1..], s);
      assert [w[0]] + (w[1..] + Split(s)[0]) == w + Split(s)[0];
    }
  }

  lemma {:induction false} SplitJoin(words: seq<string>)
    requires words != [] && forall w | w in words :: ' ' !in w
    ensures Split(Join(words)) == words
  {
    if |words| == 1 {
      SplitFirst(words[0], "");
      assert words[0] + "" == words[0];
    } else {
      var rest := Join(words[1..]);
      SplitJoin(words[1..]);
      SplitFirst(words[0], " " + rest);
      assert words[0] + (" " + rest) == Join(words);
      assert (" " + rest)[1..] == rest;
      assert words[0] + "" == words[0];
    }
  }

  lemma {:induction false} JoinSplit(s: string)
    ensures Join(Split(s)) == s
  {
    if s != "" {
      JoinSplit(s[1..]);
      var rest := Split(s[1..]);
      if s[0] == ' ' {
        assert Split(s)[1..] == rest;
      } else {
        assert Split(s)[1..] == rest[1..];
        if |rest| > 1 {
          assert [s[0]] + rest[0] + " " + Join(rest[1..]) == [s[0]] + (rest[0] + " " + Join(rest[1..]));
        }
      }
      assert [s[0]] + s[1..] == s;
    }
  }

  lemma KeyWordsSpaceFree(words: seq<string>)
    requires forall w | w in words :: ' ' !in w
    ensures forall w | w in KeyWords(words) :: ' ' !in w
  {
  }

  lemma KeysComparePerWord(c: string, d: string)
    ensures Key(c) == Key(d) <==> KeyWords(Split(c)) == KeyWords(Split(d))
  {
    KeyWordsSpaceFree(Split(c));
    KeyWordsSpaceFree(Split(d));
    SplitJoin(KeyWords(Split(c)));
    SplitJoin(KeyWords(Split(d)));
  }

  /** The two words agree, or both are preset values of a profile flag. */
  ghost predicate SameWord(u: seq<string>, v: seq<string>, i: nat)
    requires i < |u| && i < |v|
  {
    u[i] == v[i] || (IsProfileValue(u, i) && IsProfileValue(v, i) && Preset(u[i]) && Preset(v[i]))
  }

  ghost predicate SameCommand(c: string, d: string) {
    var u, v := Split(c), Split(d);
    |u| == |v| && forall i | 0 <= i < |u| :: SameWord(u, v, i)
  }

  lemma {:induction false} ValuesAlign(u: seq<string>, v: seq<string>, i: nat)
    requires |u| == |v| && i <= |u|
    requires || (forall j | 0 <= j < |u| :: SameWord(u, v, j))
             || (forall j | 0 <= j < |u| :: KeyWord(u, j) == KeyWord(v, j))
    ensures IsProfileValue(u, i) == IsProfileValue(v, i)
  {
    if i > 0 {
      ValuesAlign(u, v, i - 1);
      assert SameWord(u, v, i - 1) || KeyWord(u, i - 1) == KeyWord(v, i - 1);
    }
  }

  /** Two commands share a key exactly when they differ in nothing but preset values of profile flags. */
  lemma KeysEqualIffSameCommand(c: string, d: string)
    ensures Key(c) == Key(d) <==> SameCommand(c, d)
  {
    var u, v := Split(c), Split(d);
    KeysComparePerWord(c, d);
    if KeyWords(u) == KeyWords(v) {
      assert |u| == |KeyWords(u)| == |v|;
      forall i | 0 <= i < |u|
        ensures KeyWord(u, i) == KeyWord(v, i)
      {
        assert KeyWords(u)[i] == KeyWords(v)[i];
      }
      forall i | 0 <= i < |u|
        ensures SameWord(u, v, i)
      {
        ValuesAlign(u, v, i);
        assert KeyWord(u, i) == KeyWord(v, i);
      }
    }
    if SameCommand(c, d) {
      forall i | 0 <= i < |u|
        ensures KeyWord(u, i) == KeyWord(v, i)
      {
        ValuesAlign(u, v, i);
        assert SameWord(u, v, i);
      }
      assert KeyWords(u) == KeyWords(v);
    }
  }

  /** A key is itself a command with that key, so keys are canonical. */
  lemma KeyOfKey(c: string)
    ensures Key(Key(c)) == Key(c)
  {
    var u := Split(c);
    var v := KeyWords(u);
    KeyWordsSpaceFree(u);
    SplitJoin(v);
    assert Split(Key(c)) == v;
    forall i | 0 <= i <= |u|
      ensures IsProfileValue(u, i) == IsProfileValue(v, i)
    {
      KeyKeepsValues(u, i);
    }
    assert KeyWords(v) == v;
  }

  lemma {:induction false} KeyKeepsValues(u: seq<string>, i: nat)
    requires i <= |u|
    ensures IsProfileValue(KeyWords(u), i) == IsProfileValue(u, i)
  {
    if i > 0 {
      KeyKeepsValues(u, i - 1);
    }
  }

  // ----- what counts as a profile value

  /** A word is a profile value iff an odd number of flags in a row stands right before it. */
  lemma {:induction false} ValueIffOddRun(words: seq<string>, i: nat, n: nat)
    requires n <= i <= |words| && forall j | i - n <= j < i :: words[j] == "--profile"
    requires n < i ==> words[i - n - 1] != "--profile"
    ensures IsProfileValue(words, i) <==> n % 2 == 1
    decreases n
  {
    if n > 0 {
      ValueIffOddRun(words, i - 1, n - 1);
    }
  }

  lemma SameButOne(u: seq<string>, v: seq<string>, k: nat)
    requires |u| == |v| && 0 < k < |u| && forall i | 0 <= i < |u| && i != k :: u[i] == v[i]
    requires u[k - 1] == "--profile" && (k > 1 ==> u[k - 2] != "--profile")
    ensures (forall i | 0 <= i < |u| :: SameWord(u, v, i)) <==>
              || u[k] == v[k]
              || ( && (u[k] == "default" || u[k] == "quick" || u[k] == "ci")
                   && (v[k] == "default" || v[k] == "quick" || v[k] == "ci"))
  {
    ValueIffOddRun(u, k, 1);
    ValueIffOddRun(v, k, 1);
    if forall i | 0 <= i < |u| :: SameWord(u, v, i) {
      assert SameWord(u, v, k);
    }
  }

  /** The profile alone may change a command without changing its key, and only among three. */
  lemma ProfilesShareKeyIff(before: seq<string>, a: string, b: string, after: seq<string>)
    requires ' ' !in a && ' ' !in b && forall w | w in before + after :: ' ' !in w
    requires |before| > 0 && before[|before| - 1] == "--profile"
    requires |before| > 1 ==> before[|before| - 2] != "--profile"
    ensures Key(Join(before + [a] + after)) == Key(Join(before + [b] + after)) <==>
              || a == b
              || ( && (a == "default" || a == "quick" || a == "ci")
                   && (b == "default" || b == "quick" || b == "ci"))
  {
    var u, v, k := before + [a] + after, before + [b] + after, |before|;
    Readable(before, a, after);
    Readable(before, b, after);
    KeysEqualIffSameCommand(Join(u), Join(v));
    SameButOne(u, v, k);
  }

  lemma Readable(before: seq<string>, a: string, after: seq<string>)
    requires ' ' !in a && forall w | w in before + after :: ' ' !in w
    ensures Split(Join(before + [a] + after)) == before + [a] + after
  {
    forall w | w in before + [a] + after
      ensures ' ' !in w
    {
      assert w == a || w in before + after;
    }
    SplitJoin(before + [a] + after);
  }
}
