/** Distances, scored nodes and the priority queues of the index.

    The index keeps its pools in Python `heapq` heaps of (distance, node) pairs.  What a
    caller can observe of such a heap is the ascending list of its items, so a heap is
    modelled here by that list: `Push` is heappush, dropping the head is heappop. */
module Scores {

  /** A distance; the entry point of an insertion is seeded with an infinite one. */
  datatype Dist = NegInf | Fin(value: real) | PosInf

  function Neg(d: Dist): Dist {
    match d
    case NegInf => PosInf
    case PosInf => NegInf
    case Fin(v) => Fin(-v)
  }

  predicate Closer(a: Dist, b: Dist) {
    match (a, b)
    case (NegInf, _) => b != NegInf
    case (Fin(x), Fin(y)) => x < y
    case (Fin(_), PosInf) => true
    case _ => false
  }

  datatype Scored = Scored(dist: Dist, id: nat)

  /** Python's order on (distance, node) tuples. */
  predicate Before(a: Scored, b: Scored) {
    Closer(a.dist, b.dist) || (a.dist == b.dist && a.id < b.id)
  }

  function Flip(x: Scored): Scored { Scored(Neg(x.dist), x.id) }

  ghost predicate Sorted(s: seq<Scored>) {
    forall i, j :: 0 <= i < j < |s| ==> Before(s[i], s[j]) || s[i] == s[j]
  }

  function Push(s: seq<Scored>, x: Scored): (r: seq<Scored>)
    ensures |r| == |s| + 1
  {
    if s == [] || Before(x, s[0]) then [x] + s else [s[0]] + Push(s[1..], x)
  }

  /** The heap that results from pushing the items of s one after the other. */
  function Sort(s: seq<Scored>): (r: seq<Scored>)
    ensures |r| == |s|
  {
    if s == [] then [] else Push(Sort(s[..|s| - 1]), s[|s| - 1])
  }

  lemma {:induction false} InsertMultiset(s: seq<Scored>, x: Scored)
    ensures multiset(Push(s, x)) == multiset(s) + multiset{x}
  {
    if s == [] || Before(x, s[0]) {
    } else {
      InsertMultiset(s[1..], x);
      assert s == [s[0]] + s[1..];
    }
  }

  lemma {:induction false} InsertSorted(s: seq<Scored>, x: Scored)
    requires Sorted(s)
    ensures Sorted(Push(s, x))
  {
    if s == [] || Before(x, s[0]) {
    } else {
      InsertSorted(s[1..], x);
      InsertMultiset(s[1..], x);
      var t := Push(s[1..], x);
      forall j | 0 <= j < |t| ensures Before(s[0], t[j]) || s[0] == t[j] {
        assert t[j] in multiset(t);
        assert t[j] == x || t[j] in s[1..];
      }
    }
  }

  lemma {:induction false} SortCorrect(s: seq<Scored>)
    ensures Sorted(Sort(s))
    ensures multiset(Sort(s)) == multiset(s)
  {
    if s != [] {
      var front := s[..|s| - 1];
      SortCorrect(front);
      InsertSorted(Sort(front), s[|s| - 1]);
      InsertMultiset(Sort(front), s[|s| - 1]);
      assert s == front + [s[|s| - 1]];
    }
  }

  lemma {:induction false} SortMembers(s: seq<Scored>)
    ensures forall x :: x in Sort(s) <==> x in s
  {
    SortCorrect(s);
    forall x ensures x in Sort(s) <==> x in s {
      assert x in Sort(s) <==> x in multiset(Sort(s));
      assert x in s <==> x in multiset(s);
    }
  }

  lemma {:induction false} SortPush(s: seq<Scored>, x: Scored)
    ensures Sort(s + [x]) == Push(Sort(s), x)
  {
    assert (s + [x])[..|s|] == s;
  }

  lemma {:induction false} SameHead(a: seq<Scored>, b: seq<Scored>)
    requires Sorted(a) && Sorted(b)
    requires a != [] && b != [] && a[0] in b && b[0] in a
    ensures a[0] == b[0]
  {
    var i :| 0 <= i < |b| && b[i] == a[0];
    var j :| 0 <= j < |a| && a[j] == b[0];
    assert i == 0 || Before(b[0], b[i]) || b[0] == b[i];
    assert j == 0 || Before(a[0], a[j]) || a[0] == a[j];
  }

  lemma {:induction false} TailMultiset(s: seq<Scored>)
    requires s != []
    ensures multiset(s[1..]) == multiset(s) - multiset{s[0]}
  {
    assert s == [s[0]] + s[1..];
  }

  /** A sorted list is determined by the items in it. */
  lemma {:induction false} SortedUnique(a: seq<Scored>, b: seq<Scored>)
    requires Sorted(a) && Sorted(b)
    requires multiset(a) == multiset(b)
    ensures a == b
  {
    if a == [] {
      assert |multiset(b)| == 0;
    } else {
      assert |multiset(b)| == |multiset(a)|;
      assert a[0] in multiset(b) && b[0] in multiset(a);
      SameHead(a, b);
      TailMultiset(a);
      TailMultiset(b);
      SortedUnique(a[1..], b[1..]);
    }
  }

  lemma {:induction false} SortPermutation(a: seq<Scored>, b: seq<Scored>)
    requires multiset(a) == multiset(b)
    ensures Sort(a) == Sort(b)
  {
    SortCorrect(a);
    SortCorrect(b);
    SortedUnique(Sort(a), Sort(b));
  }

  /** Pushing an item can only improve the i-th best. */
  lemma {:induction false} InsertImproves(s: seq<Scored>, x: Scored, i: nat)
    requires Sorted(s) && i < |s|
    ensures !Before(s[i], Push(s, x)[i])
  {
    if Before(x, s[0]) {
      if i > 0 { assert Before(s[i - 1], s[i]) || s[i - 1] == s[i]; }
    } else if i > 0 {
      InsertImproves(s[1..], x, i - 1);
    }
  }

  lemma {:induction false} SortImproves(a: seq<Scored>, extra: seq<Scored>, i: nat)
    requires i < |a|
    ensures !Before(Sort(a)[i], Sort(a + extra)[i])
  {
    if extra == [] {
      assert a + extra == a;
    } else {
      var front := extra[..|extra| - 1];
      SortImproves(a, front, i);
      assert a + extra == (a + front) + [extra[|extra| - 1]];
      SortPush(a + front, extra[|extra| - 1]);
      SortCorrect(a + front);
      InsertImproves(Sort(a + front), extra[|extra| - 1], i);
    }
  }

  /** An item nearer than the whole pool goes to its head. */
  lemma {:induction false} InsertNearest(s: seq<Scored>, x: Scored)
    requires s != [] ==> Closer(x.dist, s[0].dist)
    ensures Push(s, x) == [x] + s
  {
  }

  /** The head of a sorted pool is a nearest item. */
  lemma {:induction false} HeadIsNearest(order: seq<Scored>)
    requires order != []
    ensures forall i :: 0 <= i < |order| ==> !Closer(order[i].dist, Sort(order)[0].dist)
    ensures Sort(order)[0] in order
  {
    var s := Sort(order);
    SortCorrect(order);
    SortMembers(order);
    assert s[0] in s;
    forall i | 0 <= i < |order| ensures !Closer(order[i].dist, s[0].dist) {
      var x := order[i];
      assert x in s;
      var j :| 0 <= j < |s| && s[j] == x;
      assert j == 0 || Before(s[0], s[j]) || s[0] == s[j];
    }
  }
}
