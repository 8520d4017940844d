/** Theorems over every index that any run of insertions can build. */
module HnswTheorems {
  import opened Options
  import opened Sequences
  import opened Scores
  import opened LayerSearch
  import opened HnswSpec
  import opened SearchTheorems

  // ----- The graph invariant -----

  lemma {:induction false} StepCovers(k: Query, steps: seq<Step>, i: int) returns (t: nat)
    requires Chained(k, steps) && |k.entries| <= i < FoundBy(k, steps)
    ensures t < |steps| && steps[t].before <= i < steps[t].after
  {
    var last := |steps| - 1;
    assert ChainedAt(k, steps, last);
    if steps[last].before <= i {
      t := last;
    } else {
      var front := steps[..last];
      forall u | 0 <= u < last
        ensures ChainedAt(k, front, u)
      {
        assert ChainedAt(k, steps, u);
        assert front[..u] == steps[..u];
      }
      t := StepCovers(k, front, i);
    }
  }

  /** Every node but the entry points is a neighbour of one discovered earlier. */
  lemma {:induction false} NextTo(sp: Space, k: Query, tr: Trace, i: int) returns (at: nat)
    requires Running(sp, k, tr) && |k.entries| <= i < |tr.order|
    ensures at < |tr.order| && tr.order[i].id in Nbrs(sp.graph, k.layer, tr.order[at].id)
  {
    var t := StepCovers(k, tr.steps, i);
    assert StepOk(sp, k, tr.order, tr.steps[t]);
    at := tr.steps[t].at;
  }

  /** A search that starts from a node of its layer only discovers nodes of that layer. */
  lemma {:induction false} PoolOnLayer(sp: Space, k: Query, tr: Trace, levels: seq<nat>, x: Scored)
    requires Finished(sp, k, tr) && EdgesOk(sp.graph, levels)
    requires forall e :: e in k.entries ==> e.id < |levels| && k.layer <= levels[e.id]
    requires x in Pool(k, tr.order)
    ensures x.id < |levels| && k.layer <= levels[x.id]
  {
    PoolMembers(k, tr.order);
    var c := PoolSize(k, |tr.order|);
    var i :| 0 <= i < c && tr.order[..c][i] == x;
    assert tr.order[i] == x;
    if i < |k.entries| {
      assert k.entries[i] == x;
    } else {
      var at := NextTo(sp, k, tr, i);
      assert EdgeOk(levels, k.layer, tr.order[at].id, x.id);
    }
  }

  lemma {:induction false} TakeMembers<T>(s: seq<T>, k: int)
    ensures forall x :: x in Take(s, k) ==> x in s
    ensures |Take(s, k)| == Max(0, Min(k, |s|))
  {
  }

  lemma {:induction false} NodeIdsSize(s: seq<Scored>)
    ensures |NodeIds(s)| <= |s|
    ensures Distinct(s) ==> |NodeIds(s)| == |s|
  {
    if s != [] {
      NodeIdsSize(s[1..]);
      assert NodeIds(s) == NodeIds(s[1..]) + {s[0].id};
      if Distinct(s) {
        forall x | x in s[1..] ensures x.id != s[0].id {
          var i :| 0 <= i < |s| - 1 && s[1..][i] == x;
          assert x == s[i + 1];
        }
      }
    }
  }

  lemma {:induction false} ChosenOnLayer(sp: Space, k: Query, tr: Trace, levels: seq<nat>, cap: nat)
    requires Finished(sp, k, tr) && EdgesOk(sp.graph, levels)
    requires forall e :: e in k.entries ==> e.id < |levels| && k.layer <= levels[e.id]
    ensures |NodeIds(Take(Pool(k, tr.order), cap))| <= cap
    ensures forall b :: b in NodeIds(Take(Pool(k, tr.order), cap)) ==>
              b < |levels| && k.layer <= levels[b]
  {
    var best := Take(Pool(k, tr.order), cap);
    TakeMembers(Pool(k, tr.order), cap);
    NodeIdsSize(best);
    forall b | b in NodeIds(best) ensures b < |levels| && k.layer <= levels[b] {
      var x :| x in best && x.id == b;
      PoolOnLayer(sp, k, tr, levels, x);
    }
  }

  /** One relinked layer joins only nodes of that layer, within the degree bound. */
  lemma {:induction false} LayerLinkedOk(p: Params, a: Index, vec: Vec, layer: nat, ep: nat, level: nat, h: Graph)
    requires WellFormed(p, a) && ep < |a.levels|
    requires layer <= level && layer <= a.levels[ep] && LayerLinked(p, a, vec, layer, ep, h)
    ensures forall x: nat, y: nat :: y in Nbrs(h, layer, x) ==>
              EdgeOk(a.levels + [level], layer, x, y)
    ensures forall x: nat :: |Nbrs(h, layer, x)| <= Cap(p, layer)
  {
    var tr :| LinkedVia(p, a, vec, layer, ep, h, tr);
    var k := InsertQuery(p, vec, layer, ep);
    var chosen := NodeIds(Take(Pool(k, tr.order), Cap(p, layer)));
    ChosenOnLayer(SpaceOf(p, a), k, tr, a.levels, Cap(p, layer));
    RelinkedOk(p, a.graph, a.levels, a.vecs + [vec], layer, level, chosen, h);
  }

  lemma {:induction false} RelinkedOk(p: Params, g: Graph, levels: seq<nat>, vecs: seq<Vec>, layer: nat, level: nat,
                   chosen: set<nat>, h: Graph)
    requires EdgesOk(g, levels) && DegreesOk(p, g) && layer <= level
    requires LinkedTo(p, g, vecs, layer, |levels|, chosen, h)
    requires |chosen| <= Cap(p, layer)
    requires forall b :: b in chosen ==> b < |levels| && layer <= levels[b]
    ensures forall x: nat, y: nat :: y in Nbrs(h, layer, x) ==> EdgeOk(levels + [level], layer, x, y)
    ensures forall x: nat :: |Nbrs(h, layer, x)| <= Cap(p, layer)
  {
    forall x: nat ensures |Nbrs(h, layer, x)| <= Cap(p, layer) {
      if x in chosen { assert RelinkOk(p, g, vecs, layer, |levels|, x, h); }
    }
    forall x: nat, y: nat | y in Nbrs(h, layer, x) ensures EdgeOk(levels + [level], layer, x, y) {
      if x == |levels| {
      } else if x in chosen {
        assert RelinkOk(p, g, vecs, layer, |levels|, x, h);
        if y != |levels| { OldEdge(g, levels, level, layer, x, y); }
      } else {
        OldEdge(g, levels, level, layer, x, y);
      }
    }
  }

  lemma {:induction false} OldEdge(g: Graph, levels: seq<nat>, level: nat, l: nat, x: nat, y: nat)
    requires EdgesOk(g, levels) && y in Nbrs(g, l, x)
    ensures EdgeOk(levels + [level], l, x, y)
  {
  }

  lemma {:induction false} UntouchedLayerOk(p: Params, g: Graph, levels: seq<nat>, level: nat, l: nat, h: Graph)
    requires EdgesOk(g, levels) && DegreesOk(p, g) && LayerSame(g, h, l)
    ensures forall x: nat, y: nat :: y in Nbrs(h, l, x) ==> EdgeOk(levels + [level], l, x, y)
    ensures forall x: nat :: |Nbrs(h, l, x)| <= Cap(p, l)
  {
    forall x: nat ensures |Nbrs(h, l, x)| <= Cap(p, l) {
      assert Nbrs(h, l, x) == Nbrs(g, l, x);
    }
    forall x: nat, y: nat | y in Nbrs(h, l, x) ensures EdgeOk(levels + [level], l, x, y) {
      OldEdge(g, levels, level, l, x, y);
    }
  }

  lemma {:induction false} InsertedLayerOk(p: Params, a: Index, it: Item, b: Index, l: nat)
    requires WellFormed(p, a) && Inserted(p, a, it, b)
    ensures forall x: nat, y: nat :: y in Nbrs(b.graph, l, x) ==> EdgeOk(b.levels, l, x, y)
    ensures forall x: nat :: |Nbrs(b.graph, l, x)| <= Cap(p, l)
  {
    match a.entry
    case None =>
      UntouchedLayerOk(p, a.graph, a.levels, it.level, l, b.graph);
    case Some(ep) =>
      if l <= Min(it.level, a.levels[ep]) {
        LayerLinkedOk(p, a, it.vec, l, ep, it.level, b.graph);
      } else {
        UntouchedLayerOk(p, a.graph, a.levels, it.level, l, b.graph);
      }
  }

  lemma {:induction false} InsertedKeepsEdges(p: Params, a: Index, it: Item, b: Index)
    requires WellFormed(p, a) && Inserted(p, a, it, b)
    ensures EdgesOk(b.graph, b.levels) && DegreesOk(p, b.graph)
  {
    forall l: nat, x: nat
      ensures forall y: nat :: y in Nbrs(b.graph, l, x) ==> EdgeOk(b.levels, l, x, y)
      ensures |Nbrs(b.graph, l, x)| <= Cap(p, l)
    {
      InsertedLayerOk(p, a, it, b, l);
    }
  }

  /** Every insertion, at any level and with any iteration order, keeps the invariant:
      edges join different existing nodes of their layer, degrees stay bounded by m (2*max_m
      at layer 0) and the entry point has the greatest level. */
  lemma {:induction false} InsertedKeepsWellFormed(p: Params, a: Index, it: Item, b: Index)
    requires WellFormed(p, a) && Inserted(p, a, it, b)
    ensures WellFormed(p, b)
  {
    InsertedKeepsEdges(p, a, it, b);
    assert it.id !in a.ids;
  }

  // ----- Small indexes are exact -----

  ghost predicate Complete(a: Index) {
    forall x: nat, y: nat :: x < |a.ids| && y < |a.ids| && x != y ==> y in Nbrs(a.graph, 0, x)
  }

  function UpTo(n: nat): (s: set<nat>)
    ensures |s| == n
    ensures forall i: nat :: i in s <==> i < n
  {
    if n == 0 then {} else UpTo(n - 1) + {n - 1}
  }

  /** The single entry point of the search is a neighbour of every other node. */
  ghost predicate EntrySeesAll(sp: Space, k: Query) {
    && |k.entries| == 1
    && k.entries[0].id < |sp.vecs|
    && (forall n: nat :: n < |sp.vecs| && n != k.entries[0].id ==>
          n in Nbrs(sp.graph, k.layer, k.entries[0].id))
  }

  lemma {:induction false} AllFound(sp: Space, k: Query, tr: Trace, n: nat)
    requires Finished(sp, k, tr) && EntrySeesAll(sp, k) && n < |sp.vecs|
    ensures n in NodeIds(tr.order)
  {
    EntryExpanded(sp, k, tr);
    if n == k.entries[0].id {
      assert tr.order[0] in tr.order;
    } else {
      assert Found(tr.order, tr.steps[0].after, n);
      var i :| 0 <= i < |tr.order| && tr.order[i].id == n;
      assert tr.order[i] in tr.order;
    }
  }

  /** In a complete layer a search discovers every node, and a large enough pool keeps
      them all. */
  lemma {:induction false} CompleteSearch(sp: Space, k: Query, tr: Trace)
    requires Finished(sp, k, tr) && EntrySeesAll(sp, k) && |sp.vecs| <= k.ef
    ensures PoolSize(k, |tr.order|) == |tr.order| == |sp.vecs|
    ensures NodeIds(tr.order) == UpTo(|sp.vecs|)
    ensures Pool(k, tr.order) == Sort(tr.order)
  {
    var order, all := tr.order, UpTo(|sp.vecs|);
    forall n | n in all ensures n in NodeIds(order) { AllFound(sp, k, tr, n); }
    forall x | x in order ensures x.id in all {
      var i :| 0 <= i < |order| && order[i] == x;
    }
    DistinctFits(order, all);
    NodeIdsSize(order);
    SubsetSize(all, NodeIds(order));
    assert order[..|order|] == order;
  }

  lemma {:induction false} SortKeepsIds(s: seq<Scored>)
    ensures NodeIds(Sort(s)) == NodeIds(s)
  {
    SortMembers(s);
  }

  lemma {:induction false} CompleteChosen(p: Params, a: Index, vec: Vec, ep: nat, h: Graph, tr: Trace)
    requires EntrySeesAll(SpaceOf(p, a), InsertQuery(p, vec, 0, ep))
    requires |a.vecs| <= p.maxM * 2 && |a.vecs| <= p.ef
    requires LinkedVia(p, a, vec, 0, ep, h, tr)
    ensures LinkedTo(p, a.graph, a.vecs + [vec], 0, |a.vecs|, UpTo(|a.vecs|), h)
  {
    var k := InsertQuery(p, vec, 0, ep);
    CompleteSearch(SpaceOf(p, a), k, tr);
    SortKeepsIds(tr.order);
    assert Take(Pool(k, tr.order), Cap(p, 0)) == Pool(k, tr.order);
  }

  /** While the index is small, insertion keeps layer 0 a complete graph. */
  lemma {:induction false} InsertedKeepsComplete(p: Params, a: Index, it: Item, b: Index)
    requires WellFormed(p, a) && Complete(a) && Inserted(p, a, it, b)
    requires |a.ids| <= p.maxM * 2 && |a.ids| <= p.ef
    ensures Complete(b)
  {
    if a.entry.Some? {
      var ep := a.entry.value;
      assert LayerLinked(p, a, it.vec, 0, ep, b.graph);
      var tr :| LinkedVia(p, a, it.vec, 0, ep, b.graph, tr);
      CompleteChosen(p, a, it.vec, ep, b.graph, tr);
      NothingPruned(p, a, a.vecs + [it.vec], b, UpTo(|a.ids|));
    }
  }

  /** A full list of neighbours is long enough only when nothing has to be pruned. */
  lemma {:induction false} RelinkedAll(p: Params, g: Graph, levels: seq<nat>, vecs: seq<Vec>, x: nat, h: Graph)
    requires EdgesOk(g, levels) && x < |levels| <= p.maxM * 2
    requires RelinkOk(p, g, vecs, 0, |levels|, x, h)
    ensures Nbrs(h, 0, x) == Nbrs(g, 0, x) + {|levels|}
  {
    forall y | y in Nbrs(g, 0, x) ensures y < |levels| && y != x {
      assert EdgeOk(levels, 0, x, y);
    }
    AllKept(Nbrs(g, 0, x), x, |levels|, p.maxM * 2, Nbrs(h, 0, x));
  }

  lemma {:induction false} NothingPruned(p: Params, a: Index, vecs: seq<Vec>, b: Index, chosen: set<nat>)
    requires EdgesOk(a.graph, a.levels) && Complete(a) && |a.ids| == |a.levels| <= p.maxM * 2
    requires LinkedTo(p, a.graph, vecs, 0, |a.ids|, chosen, b.graph)
    requires forall i: nat :: i in chosen <==> i < |a.ids|
    requires |b.ids| == |a.ids| + 1
    ensures Complete(b)
  {
    var n := |a.ids|;
    forall x: nat | x < n ensures Nbrs(b.graph, 0, x) == Nbrs(a.graph, 0, x) + {n} {
      assert x in chosen;
      RelinkedAll(p, a.graph, a.levels, vecs, x, b.graph);
    }
    FullRows(a, b.graph, chosen, b);
  }

  lemma {:induction false} FullRows(a: Index, h: Graph, chosen: set<nat>, b: Index)
    requires Complete(a) && b.graph == h && |b.ids| == |a.ids| + 1
    requires forall i: nat :: i in chosen <==> i < |a.ids|
    requires forall x: nat :: x < |a.ids| ==> Nbrs(h, 0, x) == Nbrs(a.graph, 0, x) + {|a.ids|}
    requires Nbrs(h, 0, |a.ids|) == chosen
    ensures Complete(b)
  {
  }

  lemma {:induction false} AllKept(had: set<nat>, x: nat, n: nat, cap: nat, kept: set<nat>)
    requires x < n <= cap && forall y :: y in had ==> y < n && y != x
    requires kept <= had + {n} && |kept| == Min(|had + {n}|, cap)
    ensures kept == had + {n}
  {
    SubsetSize(had + {n}, UpTo(n + 1) - {x});
    SubsetSize(kept, had + {n});
  }

  /** The scan the index speeds up: all items by descending similarity, ties by insertion
      order, and the first k of them. */
  function Ranking(p: Params, vecs: seq<Vec>, target: Vec): (r: seq<Scored>)
    ensures |r| == |vecs|
  {
    Sort(seq(|vecs|, i requires 0 <= i < |vecs| => Scored(Fin(-p.sim(target, vecs[i])), i)))
  }

  lemma {:induction false} RankingMembers(p: Params, vecs: seq<Vec>, target: Vec)
    ensures forall x :: x in Ranking(p, vecs, target) <==>
              (x.id < |vecs| && x.dist == Fin(-p.sim(target, vecs[x.id])))
    ensures Distinct(Ranking(p, vecs, target)) && Sorted(Ranking(p, vecs, target))
  {
    var all := seq(|vecs|, i requires 0 <= i < |vecs| => Scored(Fin(-p.sim(target, vecs[i])), i));
    SortMembers(all);
    SortCorrect(all);
    DistinctSorted(all);
    forall x ensures x in all <==> (x.id < |vecs| && x.dist == Fin(-p.sim(target, vecs[x.id]))) {
      if x.id < |vecs| && x.dist == Fin(-p.sim(target, vecs[x.id])) { assert all[x.id] == x; }
    }
  }

  function Scan(p: Params, a: Index, target: Vec, k: int): (r: seq<Hit>)
    requires |a.ids| == |a.vecs|
  {
    RankingMembers(p, a.vecs, target);
    TakeMembers(Ranking(p, a.vecs, target), k);
    Report(a, Take(Ranking(p, a.vecs, target), k))
  }

  lemma {:induction false} SameMembersSameSort(s: seq<Scored>, t: seq<Scored>)
    requires Distinct(s) && Distinct(t) && forall x :: x in s <==> x in t
    ensures multiset(s) == multiset(t)
  {
    forall x ensures multiset(s)[x] == multiset(t)[x] {
      OnceOnly(s, x);
      OnceOnly(t, x);
      assert x in s <==> x in multiset(s);
      assert x in t <==> x in multiset(t);
    }
  }

  /** The pool holds every node once, with its true distance, in ascending order. */
  ghost predicate Covers(sp: Space, target: Vec, pool: seq<Scored>) {
    && Sorted(pool) && Distinct(pool) && NodeIds(pool) == UpTo(|sp.vecs|)
    && (forall x :: x in pool ==> x.id < |sp.vecs| && x.dist == Distance(sp, target, x.id))
  }

  lemma {:induction false} Covered(p: Params, a: Index, target: Vec, pool: seq<Scored>, x: Scored)
    requires Covers(SpaceOf(p, a), target, pool)
    ensures x in pool <==> x.id < |a.vecs| && x.dist == Distance(SpaceOf(p, a), target, x.id)
  {
    if x.id < |a.vecs| { assert x.id in NodeIds(pool); }
  }

  lemma {:induction false} InRanking(p: Params, vecs: seq<Vec>, target: Vec, x: Scored)
    ensures x in Ranking(p, vecs, target) <==> x.id < |vecs| && x.dist == Fin(-p.sim(target, vecs[x.id]))
  {
    RankingMembers(p, vecs, target);
  }

  lemma {:induction false} CoverMembers(p: Params, a: Index, target: Vec, pool: seq<Scored>)
    requires Covers(SpaceOf(p, a), target, pool)
    ensures forall x :: x in pool <==> x in Ranking(p, a.vecs, target)
  {
    forall x ensures x in pool <==> x in Ranking(p, a.vecs, target) {
      Covered(p, a, target, pool, x);
      InRanking(p, a.vecs, target, x);
    }
  }

  lemma {:induction false} SameList(s: seq<Scored>, t: seq<Scored>)
    requires Sorted(s) && Distinct(s) && Sorted(t) && Distinct(t) && forall x :: x in s <==> x in t
    ensures s == t
  {
    SameMembersSameSort(s, t);
    SortedUnique(s, t);
  }

  lemma {:induction false} CoverIsRanking(p: Params, a: Index, target: Vec, pool: seq<Scored>)
    requires Covers(SpaceOf(p, a), target, pool)
    ensures pool == Ranking(p, a.vecs, target)
  {
    CoverMembers(p, a, target, pool);
    RankingMembers(p, a.vecs, target);
    SameList(pool, Ranking(p, a.vecs, target));
  }

  lemma {:induction false} PoolCovers(sp: Space, k: Query, tr: Trace)
    requires Finished(sp, k, tr) && EntrySeesAll(sp, k) && |sp.vecs| <= k.ef
    requires k.entries[0].dist == Distance(sp, k.target, k.entries[0].id)
    ensures Covers(sp, k.target, Pool(k, tr.order))
  {
    CompleteSearch(sp, k, tr);
    SortKeepsIds(tr.order);
    PoolMembers(k, tr.order);
    PoolDistinct(sp, k, tr);
    forall x | x in Pool(k, tr.order)
      ensures x.id < |sp.vecs| && x.dist == Distance(sp, k.target, x.id)
    {
      PoolSound(sp, k, tr, x);
    }
  }

  /** On a small index every search returns exactly the first k of the scan. */
  lemma {:induction false} CompleteExact(p: Params, a: Index, target: Vec, k: int, ef: Option<int>, res: seq<Hit>)
    requires WellFormed(p, a) && Complete(a) && Searched(p, a, target, k, ef, res)
    requires |a.ids| <= Max(Effort(p, ef), k)
    ensures res == Scan(p, a, target, k)
  {
    if a.entry.Some? {
      var ep := a.entry.value;
      var tr :| SearchedVia(p, a, target, k, ef, ep, res, tr);
      var query := SearchQuery(p, a, target, ep, k, Effort(p, ef));
      assert EntrySeesAll(SpaceOf(p, a), query);
      PoolCovers(SpaceOf(p, a), query, tr);
      CoverIsRanking(p, a, target, Pool(query, tr.order));
    }
  }

  // ----- Runs -----

  /** Some run that inserts these items one after the other ends in this index. */
  ghost predicate Built(p: Params, items: seq<Item>, a: Index)
    decreases |items|, 1
  {
    if items == [] then a == EMPTY
    else exists before :: LastStep(p, items, before, a)
  }

  ghost predicate LastStep(p: Params, items: seq<Item>, before: Index, a: Index)
    requires items != []
    decreases |items|, 0
  {
    Built(p, items[..|items| - 1], before) && Inserted(p, before, items[|items| - 1], a)
  }

  ghost predicate Holds(items: seq<Item>, a: Index) {
    && |a.ids| == |a.vecs| == |a.levels| == |items|
    && (forall i :: 0 <= i < |items| ==> items[i] == Item(a.ids[i], a.vecs[i], a.levels[i]))
  }

  lemma {:induction false} InsertedHolds(p: Params, items: seq<Item>, a: Index, it: Item, b: Index)
    requires Holds(items, a) && Inserted(p, a, it, b)
    ensures Holds(items + [it], b)
  {
  }

  lemma {:induction false} EmptyWellFormed(p: Params)
    ensures WellFormed(p, EMPTY) && Complete(EMPTY)
  {
  }

  lemma {:induction false} BuiltWellFormed(p: Params, items: seq<Item>, a: Index)
    requires Built(p, items, a)
    ensures WellFormed(p, a) && Holds(items, a)
  {
    if items == [] {
      EmptyWellFormed(p);
    } else {
      var front, last := items[..|items| - 1], items[|items| - 1];
      var before :| LastStep(p, items, before, a);
      BuiltWellFormed(p, front, before);
      InsertedKeepsWellFormed(p, before, last, a);
      InsertedHolds(p, front, before, last, a);
      assert items == front + [last];
    }
  }

  lemma {:induction false} BuiltComplete(p: Params, items: seq<Item>, a: Index)
    requires Built(p, items, a)
    requires |items| <= p.maxM * 2 + 1 && |items| <= p.ef + 1
    ensures Complete(a)
  {
    if items == [] {
      EmptyWellFormed(p);
    } else {
      var front, last := items[..|items| - 1], items[|items| - 1];
      var before :| LastStep(p, items, before, a);
      BuiltWellFormed(p, front, before);
      BuiltComplete(p, front, before);
      InsertedKeepsComplete(p, before, last, a);
    }
  }

  /** Small-index exactness: insert any items with different ids, in any order and at any
      levels; while there are at most 2*max_m+1 and at most ef of them, every search with
      the default ef is the brute-force scan. */
  lemma {:induction false} SmallIndexExact(p: Params, items: seq<Item>, a: Index, target: Vec, k: int, res: seq<Hit>)
    requires Built(p, items, a) && |items| <= p.maxM * 2 + 1 && |items| <= p.ef
    requires Searched(p, a, target, k, None, res)
    ensures |a.ids| == |a.vecs| && res == Scan(p, a, target, k)
  {
    BuiltWellFormed(p, items, a);
    BuiltComplete(p, items, a);
    CompleteExact(p, a, target, k, None, res);
  }

  // ----- Search at any size -----

  /** The i-th result is the i-th of the pool: a stored item with its true similarity. */
  lemma {:induction false} ResultAt(p: Params, a: Index, target: Vec, k: int, ef: Option<int>, ep: nat,
                 res: seq<Hit>, tr: Trace, i: nat)
    requires |a.ids| == |a.vecs| && ep < |a.vecs| && i < |res|
    requires SearchedVia(p, a, target, k, ef, ep, res, tr)
    ensures var pool := Pool(SearchQuery(p, a, target, ep, k, Effort(p, ef)), tr.order);
            && i < |pool| && pool[i].id < |a.ids|
            && res[i] == Hit(a.ids[pool[i].id], p.sim(target, a.vecs[pool[i].id]))
            && pool[i].dist == Fin(-res[i].similarity)
  {
    var query := SearchQuery(p, a, target, ep, k, Effort(p, ef));
    PoolSound(SpaceOf(p, a), query, tr, Pool(query, tr.order)[i]);
  }

  lemma {:induction false} ResultsOrdered(p: Params, a: Index, target: Vec, k: int, ef: Option<int>, ep: nat,
                       res: seq<Hit>, tr: Trace, i: nat, j: nat)
    requires WellFormed(p, a) && ep < |a.vecs| && i < j < |res|
    requires SearchedVia(p, a, target, k, ef, ep, res, tr)
    ensures res[i].id != res[j].id && res[i].similarity >= res[j].similarity
  {
    var query := SearchQuery(p, a, target, ep, k, Effort(p, ef));
    ResultAt(p, a, target, k, ef, ep, res, tr, i);
    ResultAt(p, a, target, k, ef, ep, res, tr, j);
    PoolDistinct(SpaceOf(p, a), query, tr);
    PoolMembers(query, tr.order);
  }

  /** Is this hit a stored item with its true similarity? */
  ghost predicate Stored(p: Params, a: Index, target: Vec, h: Hit)
    requires |a.ids| == |a.vecs|
  {
    exists n :: 0 <= n < |a.ids| && h == Hit(a.ids[n], p.sim(target, a.vecs[n]))
  }

  /** Every search returns at most k different stored items, each with its true similarity,
      best first, and something when there is something to return. */
  lemma {:induction false} SearchSound(p: Params, a: Index, target: Vec, k: int, ef: Option<int>, res: seq<Hit>)
    requires WellFormed(p, a) && Searched(p, a, target, k, ef, res)
    ensures |res| <= Max(0, k)
    ensures k >= 1 && |a.ids| > 0 ==> res != []
    ensures forall i :: 0 <= i < |res| ==> Stored(p, a, target, res[i])
    ensures forall i, j :: 0 <= i < j < |res| ==>
              res[i].id != res[j].id && res[i].similarity >= res[j].similarity
  {
    if a.entry.Some? {
      var ep := a.entry.value;
      var tr :| SearchedVia(p, a, target, k, ef, ep, res, tr);
      forall i | 0 <= i < |res| ensures Stored(p, a, target, res[i]) {
        ResultAt(p, a, target, k, ef, ep, res, tr, i);
      }
      forall i, j | 0 <= i < j < |res|
        ensures res[i].id != res[j].id && res[i].similarity >= res[j].similarity
      {
        ResultsOrdered(p, a, target, k, ef, ep, res, tr, i, j);
      }
      SearchNonempty(p, a, target, k, ef, ep, res, tr);
    }
  }

  lemma {:induction false} SearchNonempty(p: Params, a: Index, target: Vec, k: int, ef: Option<int>, ep: nat,
                       res: seq<Hit>, tr: Trace)
    requires ep < |a.vecs| && SearchedVia(p, a, target, k, ef, ep, res, tr)
    ensures |res| <= Max(0, k) && (k >= 1 ==> res != [])
  {
    var query := SearchQuery(p, a, target, ep, k, Effort(p, ef));
    TakeMembers(Pool(query, tr.order), k);
    EntryExpanded(SpaceOf(p, a), query, tr);
  }

  /** The entry point or one of its layer-0 neighbours, at its true distance. */
  ghost predicate AroundEntry(p: Params, a: Index, target: Vec, x: Scored) {
    && a.entry.Some?
    && (x.id == a.entry.value || x.id in Nbrs(a.graph, 0, a.entry.value))
    && x.id < |a.vecs| && x.dist == Distance(SpaceOf(p, a), target, x.id)
  }

  /** Recall at any size: when ef has room for the entry point and a full neighbour list,
      the i-th result is at least as similar as the i-th best among any of the entry point
      and its layer-0 neighbours. */
  lemma {:induction false} SearchRecall(p: Params, a: Index, target: Vec, k: int, ef: Option<int>, res: seq<Hit>,
                     near: seq<Scored>, i: nat)
    requires WellFormed(p, a) && a.entry.Some? && Searched(p, a, target, k, ef, res)
    requires p.maxM * 2 + 1 <= Max(Effort(p, ef), k)
    requires Distinct(near) && i < |near| && i < k
    requires forall x :: x in near ==> AroundEntry(p, a, target, x)
    ensures Sort(near)[i].dist.Fin?
    ensures i < |res| && res[i].similarity >= -Sort(near)[i].dist.value
  {
    var ep := a.entry.value;
    var tr :| SearchedVia(p, a, target, k, ef, ep, res, tr);
    assert |Nbrs(a.graph, 0, ep)| <= Cap(p, 0);
    SortedNear(p, a, target, near, i);
    RecallVia(p, a, target, k, ef, res, near, i, tr);
  }

  lemma {:induction false} SortedNear(p: Params, a: Index, target: Vec, near: seq<Scored>, i: nat)
    requires forall x :: x in near ==> AroundEntry(p, a, target, x)
    requires i < |near|
    ensures Sort(near)[i].dist.Fin?
  {
    SortMembers(near);
    assert Sort(near)[i] in near;
    assert AroundEntry(p, a, target, Sort(near)[i]);
  }

  lemma {:induction false} RecallVia(p: Params, a: Index, target: Vec, k: int, ef: Option<int>, res: seq<Hit>,
                  near: seq<Scored>, i: nat, tr: Trace)
    requires a.entry.Some? && a.entry.value < |a.vecs|
    requires SearchedVia(p, a, target, k, ef, a.entry.value, res, tr)
    requires |Nbrs(a.graph, 0, a.entry.value)| < Max(Effort(p, ef), k)
    requires Distinct(near) && i < |near| && i < k && Sort(near)[i].dist.Fin?
    requires forall x :: x in near ==> AroundEntry(p, a, target, x)
    ensures i < |res| && res[i].similarity >= -Sort(near)[i].dist.value
  {
    var query := SearchQuery(p, a, target, a.entry.value, k, Effort(p, ef));
    forall x | x in near ensures NearEntry(SpaceOf(p, a), query, x) {
      assert AroundEntry(p, a, target, x);
    }
    PoolRecall(SpaceOf(p, a), query, tr, near, i);
    ReportedAt(a, Pool(query, tr.order), k, res, i);
  }

  lemma {:induction false} AroundIsNear(p: Params, a: Index, target: Vec, k: int, ef: int, x: Scored)
    requires WellFormed(p, a) && a.entry.Some?
    ensures AroundEntry(p, a, target, x) <==>
            NearEntry(SpaceOf(p, a), SearchQuery(p, a, target, a.entry.value, k, ef), x)
  {
    var ep := a.entry.value;
    if x.id in Nbrs(a.graph, 0, ep) { assert EdgeOk(a.levels, 0, ep, x.id); }
  }

  /** No neighbour of the entry point, or one that is farther than the nearest node around. */
  ghost predicate Uneven(a: Index, near: seq<Scored>)
    requires a.entry.Some?
  {
    |near| == 1
    || exists i, j :: 0 <= i < |near| && 0 <= j < |near| && near[i].id != a.entry.value
         && Closer(near[j].dist, near[i].dist)
  }

  lemma {:induction false} UnevenStops(p: Params, a: Index, target: Vec, k: int, ef: int, near: seq<Scored>, tr: Trace)
    requires WellFormed(p, a) && a.entry.Some? && p.maxM * 2 < Max(ef, k)
    requires Finished(SpaceOf(p, a), SearchQuery(p, a, target, a.entry.value, k, ef), tr)
    requires forall x :: x in near <==> AroundEntry(p, a, target, x)
    requires Distinct(near) && Uneven(a, near)
    ensures Pool(SearchQuery(p, a, target, a.entry.value, k, ef), tr.order) == Sort(near)
  {
    var sp, query := SpaceOf(p, a), SearchQuery(p, a, target, a.entry.value, k, ef);
    assert |Nbrs(a.graph, 0, a.entry.value)| <= Cap(p, 0);
    forall x ensures x in near <==> NearEntry(sp, query, x) {
      AroundIsNear(p, a, target, k, ef, x);
    }
    UnevenIsFarther(a, sp, query, near);
    OneExpansionIff(sp, query, tr);
    OneExpansionPool(sp, query, tr, near);
  }

  lemma {:induction false} UnevenIsFarther(a: Index, sp: Space, query: Query, near: seq<Scored>)
    requires a.entry.Some? && |query.entries| == 1 && query.entries[0].id == a.entry.value
    requires forall x :: x in near <==> NearEntry(sp, query, x)
    requires Uneven(a, near)
    ensures SomeFarther(sp, query) || forall x :: NearEntry(sp, query, x) ==> x == query.entries[0]
  {
    if |near| == 1 {
      assert query.entries[0] in near;
      forall x | NearEntry(sp, query, x) ensures x == query.entries[0] {
        assert x in near;
      }
    } else {
      var i, j :| 0 <= i < |near| && 0 <= j < |near| && near[i].id != a.entry.value && Closer(near[j].dist, near[i].dist);
      assert near[i] in near && near[j] in near && near[i] != query.entries[0];
    }
  }

  /** With room for the neighbour list, and unless all neighbours of the entry point are
      equally near and none of them farther than it, a search at any size returns exactly the
      k best among the entry point and its layer-0 neighbours. */
  lemma {:induction false} SearchIsLocal(p: Params, a: Index, target: Vec, k: int, ef: Option<int>, res: seq<Hit>,
                                         near: seq<Scored>)
    requires WellFormed(p, a) && a.entry.Some? && Searched(p, a, target, k, ef, res)
    requires p.maxM * 2 + 1 <= Max(Effort(p, ef), k)
    requires Distinct(near) && forall x :: x in near <==> AroundEntry(p, a, target, x)
    requires Uneven(a, near)
    ensures forall x :: x in Take(Sort(near), k) ==> x.id < |a.ids| && x.dist.Fin?
    ensures res == Report(a, Take(Sort(near), k))
  {
    var ep := a.entry.value;
    var tr :| SearchedVia(p, a, target, k, ef, ep, res, tr);
    UnevenStops(p, a, target, k, Effort(p, ef), near, tr);
  }

  lemma {:induction false} ReportedAt(a: Index, pool: seq<Scored>, k: int, res: seq<Hit>, i: nat)
    requires forall x :: x in Take(pool, k) ==> x.id < |a.ids| && x.dist.Fin?
    requires res == Report(a, Take(pool, k)) && i < |pool| && i < k
    ensures i < |res| && pool[i].dist.Fin? && res[i].similarity == -pool[i].dist.value
  {
    assert Take(pool, k)[i] == pool[i] && pool[i] in Take(pool, k);
  }
}
