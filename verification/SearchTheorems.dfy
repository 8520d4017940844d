/** What every finished layer search guarantees, at any size and in any graph. */
module SearchTheorems {
  import opened Sequences
  import opened Scores
  import opened LayerSearch

  /** With one entry point, that entry point is always expanded: all its neighbours are
      discovered before anything else. */
  lemma {:induction false} EntryExpanded(sp: Space, k: Query, tr: Trace)
    requires Finished(sp, k, tr) && |k.entries| == 1
    ensures tr.order != [] && tr.order[0] == k.entries[0]
    ensures tr.steps != [] && tr.steps[0].at == 0 && tr.steps[0].before == 1
    ensures 1 <= tr.steps[0].after <= |tr.order|
    ensures forall n :: n in Nbrs(sp.graph, k.layer, k.entries[0].id) ==>
              Found(tr.order, tr.steps[0].after, n)
    ensures forall i :: 1 <= i < tr.steps[0].after ==>
              tr.order[i].id in Nbrs(sp.graph, k.layer, k.entries[0].id)
  {
    var order, steps := tr.order, tr.steps;
    if steps == [] {
      assert Waiting(k, order, |order|, DoneBy(steps), 0);
      forall i, j | Waiting(k, order, |order|, DoneBy(steps), i) && 0 <= j < PoolSize(k, |order|)
        ensures !Closer(order[j].dist, order[i].dist)
      {
        assert i == j == 0;
      }
    }
    assert ChainedAt(k, steps, 0);
    assert steps[..0] == [];
    assert StepOk(sp, k, order, steps[0]);
    assert Waiting(k, order, 1, {}, steps[0].at);
  }

  /** The upper layers never move the entry point: with ef at most 1 the pool that comes
      back is the single entry that went in. */
  lemma {:induction false} DescentStays(sp: Space, k: Query, tr: Trace)
    requires Finished(sp, k, tr) && |k.entries| == 1 && k.ef <= 1
    ensures Pool(k, tr.order) == k.entries
  {
    EntryExpanded(sp, k, tr);
    assert tr.order[..1] == k.entries;
    assert k.entries[..0] == [];
  }

  /** A pool never loses a node it once held: its nodes are the first ones discovered. */
  lemma {:induction false} PoolMembers(k: Query, order: seq<Scored>)
    ensures forall x :: x in Pool(k, order) <==> x in order[..PoolSize(k, |order|)]
    ensures Sorted(Pool(k, order))
  {
    SortCorrect(order[..PoolSize(k, |order|)]);
    SortMembers(order[..PoolSize(k, |order|)]);
  }

  /** Every pool holds stored nodes at their true distances, and the entry points. */
  lemma {:induction false} PoolSound(sp: Space, k: Query, tr: Trace, x: Scored)
    requires Finished(sp, k, tr) && x in Pool(k, tr.order)
    ensures x.id < |sp.vecs|
    ensures x in k.entries || x.dist == Distance(sp, k.target, x.id)
  {
    PoolMembers(k, tr.order);
    var c := PoolSize(k, |tr.order|);
    var i :| 0 <= i < c && tr.order[..c][i] == x;
    assert tr.order[i] == x;
    if i < |k.entries| { assert k.entries[i] == x; }
  }

  lemma {:induction false} OtherId(s: seq<Scored>, x: Scored, y: Scored)
    requires Distinct(s) && x in s && y in s && x != y
    ensures x.id != y.id
  {
    var i :| 0 <= i < |s| && s[i] == x;
    var j :| 0 <= j < |s| && s[j] == y;
    assert i < j || j < i;
  }

  lemma {:induction false} DistinctSorted(s: seq<Scored>)
    requires Distinct(s)
    ensures Distinct(Sort(s))
  {
    SortCorrect(s);
    SortMembers(s);
    var t := Sort(s);
    PermutedNoDup(s, t);
    forall i, j | 0 <= i < j < |t| ensures t[i].id != t[j].id {
      assert t[i] in t && t[j] in t;
      OtherId(s, t[i], t[j]);
    }
  }

  lemma {:induction false} PoolDistinct(sp: Space, k: Query, tr: Trace)
    requires Finished(sp, k, tr)
    ensures Distinct(Pool(k, tr.order))
  {
    var first := tr.order[..PoolSize(k, |tr.order|)];
    assert Distinct(first);
    DistinctSorted(first);
  }

  /** The entry point itself, or one of its neighbours at its true distance. */
  ghost predicate NearEntry(sp: Space, k: Query, x: Scored)
    requires |k.entries| == 1
  {
    var ep := k.entries[0];
    || x == ep
    || (&& x.id in Nbrs(sp.graph, k.layer, ep.id) && x.id != ep.id && x.id < |sp.vecs|
        && x.dist == Distance(sp, k.target, x.id))
  }

  lemma {:induction false} NearIsFirst(sp: Space, k: Query, tr: Trace, x: Scored)
    requires Finished(sp, k, tr) && |k.entries| == 1 && NearEntry(sp, k, x)
    ensures tr.steps != [] && tr.steps[0].after <= |tr.order|
    ensures x in tr.order[..tr.steps[0].after]
  {
    EntryExpanded(sp, k, tr);
    var c := tr.steps[0].after;
    if x == k.entries[0] {
      assert tr.order[..c][0] == x;
    } else {
      assert Found(tr.order, c, x.id);
      var j :| 0 <= j < c && tr.order[j].id == x.id;
      assert tr.order[..c][j] == x;
    }
  }

  /** Recall: take any nodes among the entry point and its neighbours.  Once ef has room
      for all of them, the i-th of the pool is at least as near as the i-th nearest of
      the nodes taken, whatever the rest of the graph looks like. */
  lemma {:induction false} PoolRecall(sp: Space, k: Query, tr: Trace, near: seq<Scored>, i: nat)
    requires Finished(sp, k, tr) && |k.entries| == 1
    requires |Nbrs(sp.graph, k.layer, k.entries[0].id)| < k.ef
    requires Distinct(near) && i < |near|
    requires forall x :: x in near ==> NearEntry(sp, k, x)
    ensures i < |Pool(k, tr.order)| && !Before(Sort(near)[i], Pool(k, tr.order)[i])
  {
    FirstFit(sp, k, tr);
    var p := tr.order[..PoolSize(k, |tr.order|)];
    var c := tr.steps[0].after;
    forall x | x in near ensures x in p {
      NearIsFirst(sp, k, tr, x);
      var j :| 0 <= j < c && tr.order[..c][j] == x;
      assert p[j] == x;
    }
    SubsetDominates(near, p, i);
  }

  /** The entry point and its neighbours all fit into the pool. */
  lemma {:induction false} FirstFit(sp: Space, k: Query, tr: Trace)
    requires Finished(sp, k, tr) && |k.entries| == 1
    requires |Nbrs(sp.graph, k.layer, k.entries[0].id)| < k.ef
    ensures tr.steps != [] && tr.steps[0].after <= PoolSize(k, |tr.order|) <= |tr.order|
  {
    EntryExpanded(sp, k, tr);
    var c := tr.steps[0].after;
    var tail := tr.order[1..c];
    assert Distinct(tail);
    forall x | x in tail ensures x.id in Nbrs(sp.graph, k.layer, k.entries[0].id) {
      var i :| 0 <= i < |tail| && tail[i] == x;
      assert tr.order[i + 1] == x;
    }
    DistinctFits(tail, Nbrs(sp.graph, k.layer, k.entries[0].id));
  }

  // ----- How far a search goes -----

  /** Is some neighbour of the entry point farther than another, or than the entry point? */
  ghost predicate SomeFarther(sp: Space, k: Query)
    requires |k.entries| == 1
  {
    exists x, y :: NearEntry(sp, k, x) && NearEntry(sp, k, y) && x != k.entries[0] && Closer(y.dist, x.dist)
  }

  /** The first expansion discovers the entry point and its neighbours, and nothing else. */
  lemma {:induction false} FirstAreNear(sp: Space, k: Query, tr: Trace, x: Scored)
    requires Finished(sp, k, tr) && |k.entries| == 1
    ensures tr.steps != [] && tr.steps[0].after <= |tr.order|
    ensures x in tr.order[..tr.steps[0].after] <==> NearEntry(sp, k, x)
  {
    EntryExpanded(sp, k, tr);
    var c := tr.steps[0].after;
    if x in tr.order[..c] {
      var i :| 0 <= i < c && tr.order[..c][i] == x;
      assert tr.order[i] == x;
    }
    if NearEntry(sp, k, x) { NearIsFirst(sp, k, tr, x); }
  }

  lemma {:induction false} NearWaits(sp: Space, k: Query, tr: Trace, x: Scored) returns (i: nat)
    requires Finished(sp, k, tr) && |k.entries| == 1 && NearEntry(sp, k, x)
    requires |Nbrs(sp.graph, k.layer, k.entries[0].id)| < k.ef
    ensures tr.steps != [] && i < tr.steps[0].after <= PoolSize(k, |tr.order|) && tr.order[i] == x
    ensures x != k.entries[0] ==> Waiting(k, tr.order, tr.steps[0].after, {0}, i)
  {
    FirstFit(sp, k, tr);
    EntryExpanded(sp, k, tr);
    FirstAreNear(sp, k, tr, x);
    var c := tr.steps[0].after;
    i :| 0 <= i < c && tr.order[..c][i] == x;
    assert tr.order[i] == x;
  }

  lemma {:induction false} SecondStep(sp: Space, k: Query, tr: Trace)
    requires Finished(sp, k, tr) && |k.entries| == 1 && |tr.steps| > 1
    ensures tr.steps[1].before == tr.steps[0].after <= |tr.order| && tr.steps[1].done == {0}
    ensures StepOk(sp, k, tr.order, tr.steps[1])
  {
    EntryExpanded(sp, k, tr);
    assert ChainedAt(k, tr.steps, 0) && ChainedAt(k, tr.steps, 1);
    assert tr.steps[..0] == [] && tr.steps[..1] == [tr.steps[0]];
    assert StepOk(sp, k, tr.order, tr.steps[1]);
  }

  lemma {:induction false} NoneFarther(order: seq<Scored>, at: nat, i: nat, j: nat)
    requires at < |order| && i < |order| && j < |order|
    requires !Closer(order[j].dist, order[at].dist) && !Before(Flip(order[i]), Flip(order[at]))
    ensures !Closer(order[j].dist, order[i].dist)
  {
  }

  /** A second node is expanded only while nothing that waits is farther than the pool. */
  lemma {:induction false} SecondIsLevel(sp: Space, k: Query, tr: Trace, i: nat, j: nat)
    requires Finished(sp, k, tr) && |k.entries| == 1 && |tr.steps| > 1
    requires tr.steps[0].after <= |tr.order| && Waiting(k, tr.order, tr.steps[0].after, {0}, i)
    requires j < PoolSize(k, tr.steps[0].after)
    ensures !Closer(tr.order[j].dist, tr.order[i].dist)
  {
    SecondStep(sp, k, tr);
    NoneFarther(tr.order, tr.steps[1].at, i, j);
  }

  lemma {:induction false} FartherStops(sp: Space, k: Query, tr: Trace)
    requires Finished(sp, k, tr) && |k.entries| == 1 && SomeFarther(sp, k)
    requires |Nbrs(sp.graph, k.layer, k.entries[0].id)| < k.ef
    ensures |tr.steps| == 1
  {
    var x, y :| NearEntry(sp, k, x) && NearEntry(sp, k, y) && x != k.entries[0] && Closer(y.dist, x.dist);
    var i := NearWaits(sp, k, tr, x);
    var j := NearWaits(sp, k, tr, y);
    if |tr.steps| > 1 { SecondIsLevel(sp, k, tr, i, j); }
  }

  lemma {:induction false} OnlyStep(sp: Space, k: Query, tr: Trace)
    requires Finished(sp, k, tr) && |k.entries| == 1 && |tr.steps| == 1
    ensures tr.steps[0].after == |tr.order| && DoneBy(tr.steps) == {0}
  {
    EntryExpanded(sp, k, tr);
    assert ChainedAt(k, tr.steps, 0);
    assert tr.steps[..0] == [];
  }

  lemma {:induction false} LevelGoesOn(sp: Space, k: Query, tr: Trace, x: Scored)
    requires Finished(sp, k, tr) && |k.entries| == 1 && |tr.steps| == 1
    requires |Nbrs(sp.graph, k.layer, k.entries[0].id)| < k.ef
    requires NearEntry(sp, k, x) && x != k.entries[0]
    ensures SomeFarther(sp, k)
  {
    OnlyStep(sp, k, tr);
    var at := NearWaits(sp, k, tr, x);
    var i, j :| Waiting(k, tr.order, |tr.order|, DoneBy(tr.steps), i)
                && 0 <= j < PoolSize(k, |tr.order|) && Closer(tr.order[j].dist, tr.order[i].dist);
    var c := tr.steps[0].after;
    assert tr.order[..c][i] == tr.order[i] && tr.order[..c][j] == tr.order[j];
    FirstAreNear(sp, k, tr, tr.order[i]);
    FirstAreNear(sp, k, tr, tr.order[j]);
    assert tr.order[i] != k.entries[0];
  }

  /** With room for the neighbours, the search expands the entry point alone exactly if that
      has no neighbour, or some neighbour is farther than the nearest node around it. */
  lemma {:induction false} OneExpansionIff(sp: Space, k: Query, tr: Trace)
    requires Finished(sp, k, tr) && |k.entries| == 1
    requires |Nbrs(sp.graph, k.layer, k.entries[0].id)| < k.ef
    ensures |tr.steps| == 1 <==>
            SomeFarther(sp, k) || forall x :: NearEntry(sp, k, x) ==> x == k.entries[0]
  {
    if SomeFarther(sp, k) {
      FartherStops(sp, k, tr);
    } else if |tr.steps| == 1 {
      forall x | NearEntry(sp, k, x) ensures x == k.entries[0] {
        if x != k.entries[0] { LevelGoesOn(sp, k, tr, x); }
      }
    } else if forall x :: NearEntry(sp, k, x) ==> x == k.entries[0] {
      EntryExpanded(sp, k, tr);
      SecondStep(sp, k, tr);
      var at := tr.steps[1].at;
      var c := tr.steps[0].after;
      assert tr.order[..c][at] == tr.order[at];
      FirstAreNear(sp, k, tr, tr.order[at]);
      assert tr.order[at] == tr.order[0];
    }
  }

  /** Then the pool is exactly the entry point and its neighbours, nearest first. */
  lemma {:induction false} OneExpansionPool(sp: Space, k: Query, tr: Trace, near: seq<Scored>)
    requires Finished(sp, k, tr) && |k.entries| == 1 && |tr.steps| == 1
    requires |Nbrs(sp.graph, k.layer, k.entries[0].id)| < k.ef
    requires Distinct(near) && forall x :: x in near <==> NearEntry(sp, k, x)
    ensures Pool(k, tr.order) == Sort(near)
  {
    OnlyStep(sp, k, tr);
    FirstFit(sp, k, tr);
    var first := tr.order[..PoolSize(k, |tr.order|)];
    assert first == tr.order == tr.order[..tr.steps[0].after];
    forall x ensures x in first <==> x in near {
      FirstAreNear(sp, k, tr, x);
    }
    forall x ensures multiset(first)[x] == multiset(near)[x] {
      OnceOnly(first, x);
      OnceOnly(near, x);
      assert x in first <==> x in multiset(first);
      assert x in near <==> x in multiset(near);
    }
    assert multiset(first) == multiset(near);
    SortPermutation(first, near);
  }

  lemma {:induction false} DistinctFits(s: seq<Scored>, ids: set<nat>)
    requires Distinct(s) && forall x :: x in s ==> x.id in ids
    ensures |s| <= |ids|
  {
    if s != [] {
      assert forall x :: x in s[1..] ==> x in s;
      forall x | x in s[1..] ensures x.id in ids - {s[0].id} {
        var i :| 0 <= i < |s| - 1 && s[1..][i] == x;
        assert s[i + 1] == x;
      }
      assert s[0] in s;
      DistinctFits(s[1..], ids - {s[0].id});
    }
  }

  /** The i-th best of a larger collection is at least as near. */
  lemma {:induction false} SubsetDominates(a: seq<Scored>, b: seq<Scored>, i: nat)
    requires Distinct(a) && Distinct(b) && i < |a|
    requires forall x :: x in a ==> x in b
    ensures i < |b| && !Before(Sort(a)[i], Sort(b)[i])
  {
    var rest := Without(b, a);
    SplitMultiset(a, b);
    SortPermutation(b, a + rest);
    assert |b| == |multiset(b)| == |multiset(a + rest)| == |a + rest|;
    SortImproves(a, rest, i);
  }

  function Without(b: seq<Scored>, a: seq<Scored>): seq<Scored> {
    if b == [] then []
    else (if b[0] in a then [] else [b[0]]) + Without(b[1..], a)
  }

  lemma {:induction false} WithoutCount(b: seq<Scored>, a: seq<Scored>, x: Scored)
    ensures multiset(Without(b, a))[x] == if x in a then 0 else multiset(b)[x]
  {
    if b != [] {
      WithoutCount(b[1..], a, x);
      assert b == [b[0]] + b[1..];
    }
  }

  lemma {:induction false} SplitMultiset(a: seq<Scored>, b: seq<Scored>)
    requires Distinct(a) && Distinct(b) && forall x :: x in a ==> x in b
    ensures multiset(b) == multiset(a + Without(b, a))
  {
    forall x ensures multiset(b)[x] == multiset(a)[x] + multiset(Without(b, a))[x] {
      WithoutCount(b, a, x);
      OnceOnly(a, x);
      OnceOnly(b, x);
      assert x in a <==> x in multiset(a);
      assert x in b <==> x in multiset(b);
    }
  }
}
