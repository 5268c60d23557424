/** Sorting by a lexicographic key of three numbers, as `sort_unstable_by_key` does. */
module SortByKey {
  type Key3 = (int, int, int)

  predicate KeyLe(a: Key3, b: Key3) {
    a.0 < b.0 || (a.0 == b.0 && (a.1 < b.1 || (a.1 == b.1 && a.2 <= b.2)))
  }

  ghost predicate InOrder<T>(s: seq<T>, key: T -> Key3) {
    forall i, j :: 0 <= i < j < |s| ==> KeyLe(key(s[i]), key(s[j]))
  }

  function Insert<T>(x: T, s: seq<T>, key: T -> Key3): (r: seq<T>)
    ensures |r| == |s| + 1
    ensures multiset(r) == multiset(s) + multiset{x}
  {
    if s == [] then [x]
    else if KeyLe(key(x), key(s[0])) then
      [x] + s
    else
      assert s == [s[0]] + s[1..];
      [s[0]] + Insert(x, s[1..], key)
  }

  function Sort<T>(s: seq<T>, key: T -> Key3): (r: seq<T>)
    ensures |r| == |s|
    ensures multiset(r) == multiset(s)
  {
    if s == [] then []
    else
      assert s == [s[0]] + s[1..];
      Insert(s[0], Sort(s[1..], key), key)
  }

  lemma {:induction false} InsertInOrder<T>(x: T, s: seq<T>, key: T -> Key3)
    requires InOrder(s, key)
    ensures InOrder(Insert(x, s, key), key)
  {
    if s != [] && !KeyLe(key(x), key(s[0])) {
      InsertInOrder(x, s[1..], key);
      var r := Insert(x, s[1..], key);
      forall i | 0 <= i < |r|
        ensures KeyLe(key(s[0]), key(r[i]))
      {
        assert r[i] in multiset(r);
        assert r[i] == x || r[i] in s[1..];
      }
    }
  }

  lemma {:induction false} SortInOrder<T>(s: seq<T>, key: T -> Key3)
    ensures InOrder(Sort(s, key), key)
  {
    if s != [] {
      SortInOrder(s[1..], key);
      InsertInOrder(s[0], Sort(s[1..], key), key);
    }
  }

  lemma SortElements<T>(s: seq<T>, key: T -> Key3)
    ensures forall x :: x in Sort(s, key) <==> x in s
  {
    forall x
      ensures x in Sort(s, key) <==> x in s
    {
      assert x in multiset(Sort(s, key)) <==> x in multiset(s);
    }
  }
}
