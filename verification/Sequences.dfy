/** Sequences without repetitions, and sizes of sets. */
module Sequences {
  ghost predicate NoDup<T>(s: seq<T>) {
    forall i, j :: 0 <= i < j < |s| ==> s[i] != s[j]
  }

  lemma {:induction false} OnceOnly<T>(s: seq<T>, x: T)
    requires NoDup(s)
    ensures multiset(s)[x] <= 1
    ensures x !in s ==> multiset(s)[x] == 0
  {
    if s != [] {
      OnceOnly(s[1..], x);
      assert s == [s[0]] + s[1..];
    }
  }

  lemma {:induction false} TwiceIn<T>(s: seq<T>, i: nat, j: nat)
    requires i < j < |s| && s[i] == s[j]
    ensures multiset(s)[s[i]] >= 2
  {
    assert s == s[..j] + [s[j]] + s[j + 1..];
    assert s[..j][i] in multiset(s[..j]);
  }

  /** A permutation repeats nothing either. */
  lemma {:induction false} PermutedNoDup<T>(s: seq<T>, t: seq<T>)
    requires NoDup(s) && multiset(s) == multiset(t)
    ensures NoDup(t)
  {
    forall i, j | 0 <= i < j < |t| ensures t[i] != t[j] {
      if t[i] == t[j] {
        TwiceIn(t, i, j);
        OnceOnly(s, t[i]);
      }
    }
  }

  lemma {:induction false} SubsetSize<T>(s: set<T>, t: set<T>)
    requires s <= t
    ensures |s| <= |t|
    ensures |s| == |t| ==> s == t
  {
    if s != {} {
      var x :| x in s;
      SubsetSize(s - {x}, t - {x});
      assert s == (s - {x}) + {x} && t == (t - {x}) + {x};
    } else if |t| == 0 {
      assert t == {};
    }
  }
}
