/** Python's stable sort by a key. */
module StableSort {

  /** Places x after every item whose key is at most its own. */
  function InsertBy<T>(s: seq<T>, x: T, key: T -> real): (r: seq<T>)
    ensures |r| == |s| + 1
  {
    if s == [] || key(x) < key(s[0]) then [x] + s else [s[0]] + InsertBy(s[1..], x, key)
  }

  function SortBy<T>(s: seq<T>, key: T -> real): (r: seq<T>)
    ensures |r| == |s|
  {
    if s == [] then [] else InsertBy(SortBy(s[..|s| - 1], key), s[|s| - 1], key)
  }

  /** The items with this key, in their order. */
  function WithKey<T>(s: seq<T>, key: T -> real, v: real): seq<T> {
    if s == [] then [] else (if key(s[0]) == v then [s[0]] else []) + WithKey(s[1..], key, v)
  }

  ghost predicate Ascending<T>(s: seq<T>, key: T -> real) {
    forall i, j :: 0 <= i < j < |s| ==> key(s[i]) <= key(s[j])
  }

  lemma {:induction false} InsertByMultiset<T>(s: seq<T>, x: T, key: T -> real)
    ensures multiset(InsertBy(s, x, key)) == multiset(s) + multiset{x}
  {
    if s == [] || key(x) < key(s[0]) {
    } else {
      InsertByMultiset(s[1..], x, key);
      assert s == [s[0]] + s[1..];
    }
  }

  lemma {:induction false} InsertByAscending<T>(s: seq<T>, x: T, key: T -> real)
    requires Ascending(s, key)
    ensures Ascending(InsertBy(s, x, key), key)
  {
    if s == [] || key(x) < key(s[0]) {
    } else {
      InsertByAscending(s[1..], x, key);
      InsertByMultiset(s[1..], x, key);
      var t := InsertBy(s[1..], x, key);
      forall j | 0 <= j < |t| ensures key(s[0]) <= key(t[j]) {
        assert t[j] in multiset(t);
        assert t[j] == x || t[j] in s[1..];
      }
    }
  }

  /** The result is sorted and a permutation of the input. */
  lemma {:induction false} SortByCorrect<T>(s: seq<T>, key: T -> real)
    ensures Ascending(SortBy(s, key), key)
    ensures multiset(SortBy(s, key)) == multiset(s)
  {
    if s != [] {
      var front, last := s[..|s| - 1], s[|s| - 1];
      SortByCorrect(front, key);
      InsertByAscending(SortBy(front, key), last, key);
      InsertByMultiset(SortBy(front, key), last, key);
      assert s == front + [last];
    }
  }

  lemma {:induction false} SortByMembers<T>(s: seq<T>, key: T -> real)
    ensures forall x :: x in SortBy(s, key) <==> x in s
  {
    SortByCorrect(s, key);
    forall x ensures x in SortBy(s, key) <==> x in s {
      assert x in SortBy(s, key) <==> x in multiset(SortBy(s, key));
      assert x in s <==> x in multiset(s);
    }
  }

  /** Stability: a first item with a least key stays first. */
  lemma {:induction false} FirstStaysFirst<T>(s: seq<T>, key: T -> real)
    requires s != [] && forall i :: 0 <= i < |s| ==> key(s[0]) <= key(s[i])
    ensures SortBy(s, key)[0] == s[0]
  {
    if |s| == 1 {
      assert s[..0] == [];
    } else {
      FirstStaysFirst(s[..|s| - 1], key);
    }
  }

  // ----- Stability -----

  lemma {:induction false} WithKeyConcat<T>(s: seq<T>, t: seq<T>, key: T -> real, v: real)
    ensures WithKey(s + t, key, v) == WithKey(s, key, v) + WithKey(t, key, v)
  {
    if s == [] {
      assert s + t == t;
    } else {
      WithKeyConcat(s[1..], t, key, v);
      assert (s + t)[1..] == s[1..] + t;
    }
  }

  lemma {:induction false} NoneWithKey<T>(s: seq<T>, key: T -> real, v: real)
    requires forall i :: 0 <= i < |s| ==> key(s[i]) > v
    ensures WithKey(s, key, v) == []
  {
    if s != [] { NoneWithKey(s[1..], key, v); }
  }

  lemma {:induction false} InsertByStable<T>(s: seq<T>, x: T, key: T -> real, v: real)
    requires Ascending(s, key)
    ensures WithKey(InsertBy(s, x, key), key, v) == WithKey(s + [x], key, v)
  {
    WithKeyConcat(s, [x], key, v);
    assert [x][1..] == [];
    if s == [] || key(x) < key(s[0]) {
      assert ([x] + s)[1..] == s;
      if key(x) == v { NoneWithKey(s, key, v); }
    } else {
      InsertByStable(s[1..], x, key, v);
      WithKeyConcat(s[1..], [x], key, v);
    }
  }

  /** Items with equal keys keep their order. */
  lemma {:induction false} SortByStable<T>(s: seq<T>, key: T -> real, v: real)
    ensures WithKey(SortBy(s, key), key, v) == WithKey(s, key, v)
  {
    if s != [] {
      var front := s[..|s| - 1];
      SortByStable(front, key, v);
      SortByCorrect(front, key);
      InsertByStable(SortBy(front, key), s[|s| - 1], key, v);
      WithKeyConcat(SortBy(front, key), [s[|s| - 1]], key, v);
      WithKeyConcat(front, [s[|s| - 1]], key, v);
      assert s == front + [s[|s| - 1]];
    }
  }
}
