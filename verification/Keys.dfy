/** Names in ascending order, as the keys of an ordered map come. */
module Keys {
  import opened Text

  ghost predicate Ascending(keys: seq<string>) {
    forall i, j | 0 <= i < j < |keys| :: Le(keys[i], keys[j]) && keys[i] != keys[j]
  }

  function InsertKey(keys: seq<string>, key: string): seq<string> {
    if keys == [] then [key]
    else if keys[0] == key then keys
    else if Le(key, keys[0]) then [key] + keys
    else [keys[0]] + InsertKey(keys[1..], key)
  }

  lemma {:induction false} InsertKeyKeeps(keys: seq<string>, key: string)
    ensures forall k :: k in InsertKey(keys, key) <==> k in keys || k == key
  {
    if keys != [] && keys[0] != key && !Le(key, keys[0]) {
      InsertKeyKeeps(keys[1..], key);
    }
  }

  lemma {:induction false} InsertKeyAscends(keys: seq<string>, key: string)
    requires Ascending(keys)
    ensures Ascending(InsertKey(keys, key))
  {
    if keys == [] || keys[0] == key {
    } else if Le(key, keys[0]) {
      forall i | 0 <= i < |keys|
        ensures Le(key, keys[i]) && key != keys[i]
      {
        if i > 0 {
          LeTransitive(key, keys[0], keys[i]);
          if key == keys[i] { LeAntisymmetric(keys[0], key); }
        }
      }
    } else {
      LeTotal(key, keys[0]);
      InsertKeyAscends(keys[1..], key);
      InsertKeyKeeps(keys[1..], key);
      var r := InsertKey(keys[1..], key);
      forall i | 0 <= i < |r|
        ensures Le(keys[0], r[i]) && keys[0] != r[i]
      {
        assert r[i] in r;
      }
    }
  }

  /** There is only one way to list a set in ascending order. */
  lemma {:induction false} AscendingIsUnique(a: seq<string>, b: seq<string>)
    requires Ascending(a) && Ascending(b) && forall k :: k in a <==> k in b
    ensures a == b
  {
    if a != [] { assert a[0] in b; }
    if b != [] { assert b[0] in a; }
    if a != [] {
      FirstIsLeast(a, b);
      FirstIsLeast(b, a);
      LeAntisymmetric(a[0], b[0]);
      RestHolds(a);
      RestHolds(b);
      AscendingIsUnique(a[1..], b[1..]);
      assert a == [a[0]] + a[1..] && b == [b[0]] + b[1..];
    }
  }

  lemma FirstIsLeast(a: seq<string>, b: seq<string>)
    requires Ascending(a) && a != [] && b != [] && b[0] in a
    ensures Le(a[0], b[0])
  {
    var i :| 0 <= i < |a| && a[i] == b[0];
    if i == 0 { LeTotal(a[0], a[0]); }
  }

  lemma RestHolds(a: seq<string>)
    requires Ascending(a) && a != []
    ensures Ascending(a[1..]) && forall k :: k in a[1..] <==> k in a && k != a[0]
  {
    forall k | k in a && k != a[0]
      ensures k in a[1..]
    {
      var i :| 0 <= i < |a| && a[i] == k;
      assert a[1..][i - 1] == k;
    }
    forall k | k in a[1..]
      ensures k in a && k != a[0]
    {
      var i :| 0 <= i < |a[1..]| && a[1..][i] == k;
      assert a[i + 1] == k;
    }
  }
}
