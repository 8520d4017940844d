/** A grown index is searched around its entry point only, and that neighbourhood freezes. */
module EntryTheorems {
  import opened Options
  import opened Sequences
  import opened Scores
  import opened LayerSearch
  import opened SearchTheorems
  import opened HnswSpec
  import opened HnswTheorems

  /** The entry point has as many neighbours as pruning leaves anyone. */
  ghost predicate Full(p: Params, a: Index) {
    a.entry.Some? && |Nbrs(a.graph, 0, a.entry.value)| == p.maxM * 2
  }

  // ----- What an insertion finds -----

  /** All neighbours of the entry point and the entry point itself are in the pool. */
  lemma {:induction false} PoolOverfull(sp: Space, k: Query, tr: Trace)
    requires Finished(sp, k, tr) && |k.entries| == 1 && k.entries[0].id !in Nbrs(sp.graph, k.layer, k.entries[0].id)
    requires |Nbrs(sp.graph, k.layer, k.entries[0].id)| < k.ef
    ensures |Pool(k, tr.order)| > |Nbrs(sp.graph, k.layer, k.entries[0].id)|
    ensures k.entries[0] in Pool(k, tr.order)
  {
    FirstFit(sp, k, tr);
    EntryExpanded(sp, k, tr);
    PoolMembers(k, tr.order);
    FirstCount(sp, k, tr);
    assert tr.order[..PoolSize(k, |tr.order|)][0] == k.entries[0];
  }

  lemma {:induction false} FirstCount(sp: Space, k: Query, tr: Trace)
    requires Finished(sp, k, tr) && |k.entries| == 1 && k.entries[0].id !in Nbrs(sp.graph, k.layer, k.entries[0].id)
    ensures tr.steps != [] && |Nbrs(sp.graph, k.layer, k.entries[0].id)| < tr.steps[0].after
  {
    EntryExpanded(sp, k, tr);
    var first := tr.order[..tr.steps[0].after];
    NodeIdsSize(first);
    FirstHasAll(sp, k, tr);
    SubsetSize(Nbrs(sp.graph, k.layer, k.entries[0].id) + {k.entries[0].id}, NodeIds(first));
  }

  lemma {:induction false} FirstHasAll(sp: Space, k: Query, tr: Trace)
    requires Finished(sp, k, tr) && |k.entries| == 1
    ensures tr.steps != [] && tr.steps[0].after <= |tr.order|
    ensures Nbrs(sp.graph, k.layer, k.entries[0].id) + {k.entries[0].id} <= NodeIds(tr.order[..tr.steps[0].after])
  {
    EntryExpanded(sp, k, tr);
    forall n | n in Nbrs(sp.graph, k.layer, k.entries[0].id) + {k.entries[0].id}
      ensures n in NodeIds(tr.order[..tr.steps[0].after])
    {
      FirstHas(sp, k, tr, n);
    }
  }

  lemma {:induction false} FirstHas(sp: Space, k: Query, tr: Trace, n: nat)
    requires Finished(sp, k, tr) && |k.entries| == 1
    requires n == k.entries[0].id || n in Nbrs(sp.graph, k.layer, k.entries[0].id)
    ensures tr.steps != [] && tr.steps[0].after <= |tr.order|
    ensures n in NodeIds(tr.order[..tr.steps[0].after])
  {
    EntryExpanded(sp, k, tr);
    var c := tr.steps[0].after;
    if n == k.entries[0].id {
      assert tr.order[..c][0] in tr.order[..c];
    } else {
      assert Found(tr.order, c, n);
      var i :| 0 <= i < c && tr.order[i].id == n;
      assert tr.order[..c][i] in tr.order[..c];
    }
  }

  /** An infinitely far entry point is the last of the pool. */
  lemma {:induction false} FarEntryIsLast(sp: Space, k: Query, tr: Trace, i: nat)
    requires Finished(sp, k, tr) && |k.entries| == 1 && k.entries[0].dist == PosInf
    requires k.entries[0] in Pool(k, tr.order) && i < |Pool(k, tr.order)| - 1
    ensures Pool(k, tr.order)[i].id != k.entries[0].id
  {
    var w, e := Pool(k, tr.order), k.entries[0];
    PoolMembers(k, tr.order);
    PoolDistinct(sp, k, tr);
    forall y | y in w && y != e ensures Before(y, e) { PoolSound(sp, k, tr, y); }
    GreatestIsLast(w, e);
  }

  lemma {:induction false} GreatestIsLast(s: seq<Scored>, x: Scored)
    requires Sorted(s) && x in s && forall y :: y in s && y != x ==> Before(y, x)
    ensures s[|s| - 1] == x
  {
    var i :| 0 <= i < |s| && s[i] == x;
    assert s[|s| - 1] in s;
  }

  lemma {:induction false} LeastIsFirst(s: seq<Scored>, x: Scored)
    requires Sorted(s) && x in s && forall y :: y in s && y != x ==> Before(x, y)
    ensures s[0] == x
  {
    var i :| 0 <= i < |s| && s[i] == x;
    assert s[0] in s;
  }

  lemma {:induction false} NoLoop(g: Graph, levels: seq<nat>, layer: nat, x: nat)
    requires EdgesOk(g, levels)
    ensures x !in Nbrs(g, layer, x)
  {
  }

  /** So an insertion into an index with a full entry point chooses a full list of neighbours,
      and never the entry point. */
  lemma {:induction false} ChoosesOthers(p: Params, a: Index, vec: Vec, tr: Trace)
    requires WellFormed(p, a) && Full(p, a) && p.maxM * 2 < p.ef
    requires Finished(SpaceOf(p, a), InsertQuery(p, vec, 0, a.entry.value), tr)
    ensures var chosen := NodeIds(Take(Pool(InsertQuery(p, vec, 0, a.entry.value), tr.order), Cap(p, 0)));
            |chosen| == p.maxM * 2 && a.entry.value !in chosen
  {
    var sp, k, ep := SpaceOf(p, a), InsertQuery(p, vec, 0, a.entry.value), a.entry.value;
    NoLoop(a.graph, a.levels, 0, ep);
    PoolOverfull(sp, k, tr);
    PoolDistinct(sp, k, tr);
    var w := Pool(k, tr.order);
    var best := w[..p.maxM * 2];
    assert Take(w, Cap(p, 0)) == best;
    NodeIdsSize(best);
    forall x | x in best ensures x.id != ep {
      var i :| 0 <= i < |best| && best[i] == x;
      FarEntryIsLast(sp, k, tr, i);
    }
  }

  /** Freezing: once the entry point has 2*max_m neighbours, an insertion either leaves entry
      point and neighbours as they are or makes the new node an entry point with as many. */
  lemma {:induction false} InsertedFreezes(p: Params, a: Index, it: Item, b: Index)
    requires WellFormed(p, a) && Full(p, a) && Inserted(p, a, it, b) && p.maxM * 2 < p.ef
    ensures Full(p, b)
    ensures it.level <= a.levels[a.entry.value] ==>
              b.entry == a.entry && Nbrs(b.graph, 0, a.entry.value) == Nbrs(a.graph, 0, a.entry.value)
    ensures it.level > a.levels[a.entry.value] ==> b.entry == Some(|a.ids|)
  {
    var ep := a.entry.value;
    assert LayerLinked(p, a, it.vec, 0, ep, b.graph);
    var tr :| LinkedVia(p, a, it.vec, 0, ep, b.graph, tr);
    ChoosesOthers(p, a, it.vec, tr);
  }

  // ----- Runs -----

  lemma {:induction false} CompleteIsFull(p: Params, a: Index)
    requires WellFormed(p, a) && Complete(a) && |a.ids| == p.maxM * 2 + 1
    ensures Full(p, a)
  {
    var ep := a.entry.value;
    forall n: nat ensures n in Nbrs(a.graph, 0, ep) <==> n in UpTo(|a.ids|) - {ep} {
      if n in Nbrs(a.graph, 0, ep) { assert EdgeOk(a.levels, 0, ep, n); }
    }
    assert Nbrs(a.graph, 0, ep) == UpTo(|a.ids|) - {ep};
  }

  /** Over every run of more than 2*max_m insertions the entry point has exactly 2*max_m
      neighbours: no search ever sees more than 2*max_m + 1 items at its first step. */
  lemma {:induction false} BuiltFull(p: Params, items: seq<Item>, a: Index)
    requires Built(p, items, a) && p.maxM * 2 < |items| && p.maxM * 2 < p.ef
    ensures WellFormed(p, a) && Full(p, a)
  {
    BuiltWellFormed(p, items, a);
    if |items| == p.maxM * 2 + 1 {
      BuiltComplete(p, items, a);
      CompleteIsFull(p, a);
    } else {
      var front, last := items[..|items| - 1], items[|items| - 1];
      var before :| LastStep(p, items, before, a);
      BuiltFull(p, front, before);
      InsertedFreezes(p, before, last, a);
    }
  }

  /** The index b comes from a by inserting these items one after the other. */
  ghost predicate Grown(p: Params, a: Index, items: seq<Item>, b: Index)
    decreases |items|, 1
  {
    if items == [] then b == a else exists before :: GrowthStep(p, a, items, before, b)
  }

  ghost predicate GrowthStep(p: Params, a: Index, items: seq<Item>, before: Index, b: Index)
    requires items != []
    decreases |items|, 0
  {
    Grown(p, a, items[..|items| - 1], before) && Inserted(p, before, items[|items| - 1], b)
  }

  /** The same entry point with the same neighbours, over at least the same nodes. */
  ghost predicate Unmoved(p: Params, a: Index, b: Index) {
    && WellFormed(p, b) && Full(p, a) && Full(p, b) && b.entry == a.entry
    && Nbrs(b.graph, 0, a.entry.value) == Nbrs(a.graph, 0, a.entry.value)
    && a.ids <= b.ids && a.vecs <= b.vecs && a.levels <= b.levels
  }

  lemma {:induction false} UnmovedStep(p: Params, a: Index, b: Index, it: Item, c: Index)
    requires WellFormed(p, a) && Unmoved(p, a, b) && Inserted(p, b, it, c) && p.maxM * 2 < p.ef
    requires it.level <= a.levels[a.entry.value]
    ensures Unmoved(p, a, c)
  {
    InsertedFreezes(p, b, it, c);
    InsertedKeepsWellFormed(p, b, it, c);
  }

  /** Over every run of insertions at no higher level, nothing around the entry point moves. */
  lemma {:induction false} GrownUnmoved(p: Params, a: Index, items: seq<Item>, b: Index)
    requires WellFormed(p, a) && Full(p, a) && Grown(p, a, items, b) && p.maxM * 2 < p.ef
    requires forall i :: 0 <= i < |items| ==> items[i].level <= a.levels[a.entry.value]
    ensures Unmoved(p, a, b)
  {
    if items != [] {
      var before :| GrowthStep(p, a, items, before, b);
      GrownUnmoved(p, a, items[..|items| - 1], before);
      UnmovedStep(p, a, before, items[|items| - 1], b);
    }
  }

  // ----- Searching a grown index -----

  lemma {:induction false} SameAround(p: Params, a: Index, b: Index, target: Vec, x: Scored)
    requires WellFormed(p, a) && Unmoved(p, a, b)
    ensures AroundEntry(p, a, target, x) <==> AroundEntry(p, b, target, x)
  {
    if x.id in Nbrs(a.graph, 0, a.entry.value) { assert EdgeOk(a.levels, 0, a.entry.value, x.id); }
  }

  /** Every search of the grown index returns the k best of what surrounded the entry point
      before it grew. */
  lemma {:induction false} GrownSearch(p: Params, a: Index, items: seq<Item>, b: Index, target: Vec, k: int,
                                       ef: Option<int>, res: seq<Hit>, near: seq<Scored>)
    requires WellFormed(p, a) && Full(p, a) && Grown(p, a, items, b) && p.maxM * 2 < p.ef
    requires forall i :: 0 <= i < |items| ==> items[i].level <= a.levels[a.entry.value]
    requires Searched(p, b, target, k, ef, res) && p.maxM * 2 < Max(Effort(p, ef), k)
    requires Distinct(near) && (forall x :: x in near <==> AroundEntry(p, a, target, x)) && Uneven(a, near)
    ensures forall x :: x in Take(Sort(near), k) ==> x.id < |a.ids| && x.dist.Fin?
    ensures res == Report(a, Take(Sort(near), k))
  {
    GrownUnmoved(p, a, items, b);
    forall x ensures x in near <==> AroundEntry(p, b, target, x) {
      SameAround(p, a, b, target, x);
    }
    SearchIsLocal(p, b, target, k, ef, res, near);
    NearStored(p, a, target, near, k);
  }

  lemma {:induction false} NearStored(p: Params, a: Index, target: Vec, near: seq<Scored>, k: int)
    requires |a.ids| == |a.vecs| && forall x :: x in near <==> AroundEntry(p, a, target, x)
    ensures forall x :: x in Take(Sort(near), k) ==> x.id < |a.ids| && x.dist.Fin?
  {
    SortMembers(near);
    TakeMembers(Sort(near), k);
  }

  /** The only node, or some node other than the entry point less similar than another. */
  ghost predicate Discerning(p: Params, a: Index, target: Vec) {
    a.entry.Some? && (|a.vecs| == 1 || exists x: nat, y: nat :: LessSimilar(p, a, target, x, y))
  }

  ghost predicate LessSimilar(p: Params, a: Index, target: Vec, x: nat, y: nat)
    requires a.entry.Some?
  {
    x < |a.vecs| && y < |a.vecs| && x != a.entry.value && p.sim(target, a.vecs[x]) < p.sim(target, a.vecs[y])
  }

  lemma {:induction false} RankingSurrounds(p: Params, a: Index, target: Vec)
    requires WellFormed(p, a) && Complete(a) && Discerning(p, a, target)
    ensures var near := Ranking(p, a.vecs, target);
            && Distinct(near) && (forall x :: x in near <==> AroundEntry(p, a, target, x))
            && Uneven(a, near) && Sort(near) == near
  {
    var near := Ranking(p, a.vecs, target);
    RankingMembers(p, a.vecs, target);
    forall x ensures x in near <==> AroundEntry(p, a, target, x) { InRanking(p, a.vecs, target, x); }
    if |a.vecs| != 1 {
      var x: nat, y: nat :| LessSimilar(p, a, target, x, y);
      RankedUneven(p, a, target, x, y);
    }
    SortCorrect(near);
    SortedUnique(Sort(near), near);
  }

  lemma {:induction false} RankedUneven(p: Params, a: Index, target: Vec, x: nat, y: nat)
    requires a.entry.Some? && LessSimilar(p, a, target, x, y)
    ensures Uneven(a, Ranking(p, a.vecs, target))
  {
    var near := Ranking(p, a.vecs, target);
    var far, close := Scored(Fin(-p.sim(target, a.vecs[x])), x), Scored(Fin(-p.sim(target, a.vecs[y])), y);
    InRanking(p, a.vecs, target, far);
    InRanking(p, a.vecs, target, close);
    var i :| 0 <= i < |near| && near[i] == far;
    var j :| 0 <= j < |near| && near[j] == close;
  }

  /** The first 2*max_m + 1 items are all that is ever found: however many items of no higher
      level follow, every search is the brute-force scan of those first ones. */
  lemma {:induction false} OnlyFirstItems(p: Params, first: seq<Item>, a: Index, items: seq<Item>, b: Index, target: Vec,
                                          k: int, ef: Option<int>, res: seq<Hit>)
    requires Built(p, first, a) && |first| == p.maxM * 2 + 1 && p.maxM * 2 < p.ef
    requires Grown(p, a, items, b) && a.entry.Some?
    requires forall i :: 0 <= i < |items| ==> a.entry.value < |a.levels| && items[i].level <= a.levels[a.entry.value]
    requires Searched(p, b, target, k, ef, res) && p.maxM * 2 < Max(Effort(p, ef), k) && Discerning(p, a, target)
    ensures |a.ids| == |a.vecs| && res == Scan(p, a, target, k)
  {
    BuiltFull(p, first, a);
    BuiltWellFormed(p, first, a);
    BuiltComplete(p, first, a);
    RankingSurrounds(p, a, target);
    GrownSearch(p, a, items, b, target, k, ef, res, Ranking(p, a.vecs, target));
  }

  // ----- The bound of small-index exactness is tight -----

  /** An item more similar than all others comes first in the scan. */
  lemma {:induction false} MostSimilarFirst(p: Params, b: Index, target: Vec, k: int, n: nat)
    requires WellFormed(p, b) && k >= 1 && n < |b.ids|
    requires forall i :: 0 <= i < |b.ids| && i != n ==> p.sim(target, b.vecs[i]) < p.sim(target, b.vecs[n])
    ensures Scan(p, b, target, k) != [] && Scan(p, b, target, k)[0].id == b.ids[n]
  {
    var ranking := Ranking(p, b.vecs, target);
    var best := Scored(Fin(-p.sim(target, b.vecs[n])), n);
    RankingMembers(p, b.vecs, target);
    InRanking(p, b.vecs, target, best);
    forall y | y in ranking && y != best ensures Before(best, y) { InRanking(p, b.vecs, target, y); }
    LeastIsFirst(ranking, best);
    TakeMembers(ranking, k);
    assert Take(ranking, k)[0] == ranking[0];
  }

  lemma {:induction false} NotTheSame(s: seq<Hit>, t: seq<Hit>, ids: seq<string>)
    requires t != [] && t[0].id !in ids && forall h :: h in s ==> h.id in ids
    ensures s != t
  {
    assert t[0] in t;
  }

  lemma {:induction false} ScanNames(p: Params, a: Index, target: Vec, k: int)
    requires |a.ids| == |a.vecs|
    ensures forall h :: h in Scan(p, a, target, k) ==> h.id in a.ids
  {
    RankingMembers(p, a.vecs, target);
    TakeMembers(Ranking(p, a.vecs, target), k);
  }

  lemma {:induction false} LastMostSimilar(p: Params, a: Index, it: Item, b: Index, target: Vec, k: int)
    requires WellFormed(p, a) && Inserted(p, a, it, b) && k >= 1
    requires forall i :: 0 <= i < |a.vecs| ==> p.sim(target, a.vecs[i]) < p.sim(target, it.vec)
    ensures |b.ids| == |b.vecs| && Scan(p, b, target, k) != [] && Scan(p, b, target, k)[0].id == it.id
  {
    InsertedKeepsWellFormed(p, a, it, b);
    MostSimilarFirst(p, b, target, k, |a.ids|);
  }

  lemma {:induction false} OneGrown(p: Params, a: Index, it: Item, b: Index)
    requires Inserted(p, a, it, b)
    ensures Grown(p, a, [it], b)
  {
    assert [it][..0] == [];
    assert Grown(p, a, [], a) && GrowthStep(p, a, [it], a, b);
  }

  /** With one item more than 2*max_m + 1 the scan is missed whenever that item is the most
      similar one. */
  lemma {:induction false} BoundIsTight(p: Params, first: seq<Item>, a: Index, it: Item, b: Index, target: Vec, k: int,
                                        res: seq<Hit>)
    requires Built(p, first, a) && |first| == p.maxM * 2 + 1 && p.maxM * 2 < p.ef && k >= 1
    requires Inserted(p, a, it, b) && Searched(p, b, target, k, None, res) && Discerning(p, a, target)
    requires a.entry.value < |a.levels| && it.level <= a.levels[a.entry.value]
    requires forall i :: 0 <= i < |a.vecs| ==> p.sim(target, a.vecs[i]) < p.sim(target, it.vec)
    ensures |b.ids| == |b.vecs| && res != Scan(p, b, target, k)
  {
    BuiltWellFormed(p, first, a);
    OneGrown(p, a, it, b);
    OnlyFirstItems(p, first, a, [it], b, target, k, None, res);
    LastMostSimilar(p, a, it, b, target, k);
    ScanNames(p, a, target, k);
    NotTheSame(res, Scan(p, b, target, k), a.ids);
  }

  // ----- How much of an index can be found at all -----

  function Findable(a: Index): set<nat>
    requires a.entry.Some?
  {
    Nbrs(a.graph, 0, a.entry.value) + {a.entry.value}
  }

  lemma {:induction false} ReportedFindable(p: Params, a: Index, target: Vec, near: seq<Scored>, k: int, h: Hit)
    requires a.entry.Some? && |a.ids| == |a.vecs| && forall x :: x in near <==> AroundEntry(p, a, target, x)
    requires forall x :: x in Take(Sort(near), k) ==> x.id < |a.ids| && x.dist.Fin?
    requires h in Report(a, Take(Sort(near), k))
    ensures exists n :: n in Findable(a) && n < |a.ids| && h.id == a.ids[n]
  {
    var r := Report(a, Take(Sort(near), k));
    var i :| 0 <= i < |r| && r[i] == h;
    SortMembers(near);
    TakeMembers(Sort(near), k);
    var x := Take(Sort(near), k)[i];
    assert x in Take(Sort(near), k) && AroundEntry(p, a, target, x);
  }

  /** In every index that more than 2*max_m insertions can build there are 2*max_m + 1 items
      such that no search whose neighbourhood is uneven ever returns another one, however
      many results are asked for. */
  lemma {:induction false} FewAreFindable(p: Params, items: seq<Item>, a: Index, target: Vec, k: int, ef: Option<int>,
                                          res: seq<Hit>, near: seq<Scored>, h: Hit)
    requires Built(p, items, a) && p.maxM * 2 < |items| && p.maxM * 2 < p.ef
    requires Searched(p, a, target, k, ef, res) && p.maxM * 2 < Max(Effort(p, ef), k) && a.entry.Some?
    requires Distinct(near) && (forall x :: x in near <==> AroundEntry(p, a, target, x)) && Uneven(a, near)
    requires h in res
    ensures |Findable(a)| == p.maxM * 2 + 1
    ensures exists n :: n in Findable(a) && n < |a.ids| && h.id == a.ids[n]
  {
    BuiltFull(p, items, a);
    NoLoop(a.graph, a.levels, 0, a.entry.value);
    SearchIsLocal(p, a, target, k, ef, res, near);
    ReportedFindable(p, a, target, near, k, h);
  }
}
