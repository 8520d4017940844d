/** What one insertion does to every neighbour list. */
module InsertTheorems {
  import opened Options
  import opened Scores
  import opened LayerSearch
  import opened SearchTheorems
  import opened HnswSpec
  import opened HnswTheorems

  /** How many neighbours a node may have. */
  function Limit(p: Params, layer: nat): nat { if layer == 0 then 2 * p.maxM else p.m }

  /** The highest layer that an insertion links. */
  function Top(a: Index, it: Item): nat
    requires a.entry.Some? && a.entry.value < |a.levels|
  {
    if it.level < a.levels[a.entry.value] then it.level else a.levels[a.entry.value]
  }

  /** The node y gets the new node as a neighbour, and loses the least similar ones if it has
      too many then. */
  ghost predicate Relinked(p: Params, a: Index, b: Index, layer: nat, y: nat) {
    var all, kept := Nbrs(a.graph, layer, y) + {|a.ids|}, Nbrs(b.graph, layer, y);
    && kept <= all && |kept| == (if |all| < Limit(p, layer) then |all| else Limit(p, layer))
    && y < |b.vecs| && (forall x :: x in all ==> x < |b.vecs|)
    && (forall x, z :: x in kept && z in all && z !in kept ==>
          p.sim(b.vecs[y], b.vecs[z]) <= p.sim(b.vecs[y], b.vecs[x]))
  }

  /** On every layer up to the lower of both levels, the neighbours of the new node are
      relinked, and no other list changes; above, none does. */
  lemma {:induction false} InsertedLists(p: Params, a: Index, it: Item, b: Index, layer: nat, y: nat)
    requires WellFormed(p, a) && a.entry.Some? && Inserted(p, a, it, b) && y != |a.ids|
    ensures if layer <= Top(a, it) && y in Nbrs(b.graph, layer, |a.ids|) then Relinked(p, a, b, layer, y)
            else Nbrs(b.graph, layer, y) == Nbrs(a.graph, layer, y)
  {
    var ep := a.entry.value;
    if layer <= Top(a, it) {
      assert LayerLinked(p, a, it.vec, layer, ep, b.graph);
      var tr :| LinkedVia(p, a, it.vec, layer, ep, b.graph, tr);
      if y in Nbrs(b.graph, layer, |a.ids|) {
        assert RelinkOk(p, a.graph, a.vecs + [it.vec], layer, |a.ids|, y, b.graph);
      }
    } else {
      assert LayerSame(a.graph, b.graph, layer);
    }
  }

  lemma {:induction false} NoListYet(g: Graph, levels: seq<nat>, layer: nat)
    requires EdgesOk(g, levels)
    ensures Nbrs(g, layer, |levels|) == {}
  {
    forall y: nat ensures y !in Nbrs(g, layer, |levels|) {}
    assert Nbrs(g, layer, |levels|) == {};
  }

  lemma {:induction false} SomeChosen(k: Query, order: seq<Scored>, cap: nat)
    requires |k.entries| == 1 && order != [] && cap > 0
    ensures NodeIds(Take(Pool(k, order), cap)) != {}
  {
    var w := Take(Pool(k, order), cap);
    assert w[0] in w;
    assert w[0].id in NodeIds(w);
  }

  /** The new node is linked on exactly the layers up to the lower of both levels. */
  lemma {:induction false} LinkedUpToTop(p: Params, a: Index, it: Item, b: Index, layer: nat)
    requires WellFormed(p, a) && a.entry.Some? && Inserted(p, a, it, b) && p.m > 0 && p.maxM > 0
    ensures Nbrs(b.graph, layer, |a.ids|) != {} <==> layer <= Top(a, it)
  {
    var ep := a.entry.value;
    NoListYet(a.graph, a.levels, layer);
    if layer <= Top(a, it) {
      assert LayerLinked(p, a, it.vec, layer, ep, b.graph);
      var tr :| LinkedVia(p, a, it.vec, layer, ep, b.graph, tr);
      EntryExpanded(SpaceOf(p, a), InsertQuery(p, it.vec, layer, ep), tr);
      SomeChosen(InsertQuery(p, it.vec, layer, ep), tr.order, Cap(p, layer));
    } else {
      assert LayerSame(a.graph, b.graph, layer);
    }
  }

  lemma {:induction false} CutIsNearest(w: seq<Scored>, cap: nat, x: Scored, y: Scored)
    requires Sorted(w) && x in Take(w, cap) && y in w && y !in Take(w, cap)
    ensures !Closer(y.dist, x.dist)
  {
    var i :| 0 <= i < |Take(w, cap)| && Take(w, cap)[i] == x;
    var j :| 0 <= j < |w| && w[j] == y;
    assert forall n :: 0 <= n < |Take(w, cap)| ==> Take(w, cap)[n] == w[n] && Take(w, cap)[n] in Take(w, cap);
  }

  /** With room for the neighbours of the entry point, none of them is more similar to the new
      item than a neighbour that is chosen instead. */
  lemma {:induction false} NearestAreChosen(p: Params, a: Index, it: Item, b: Index, layer: nat, x: nat, y: nat)
    requires WellFormed(p, a) && a.entry.Some? && Inserted(p, a, it, b) && layer <= Top(a, it)
    requires |Nbrs(a.graph, layer, a.entry.value)| < p.ef
    requires x in Nbrs(b.graph, layer, |a.ids|) && x != a.entry.value
    requires y in Nbrs(a.graph, layer, a.entry.value) && y !in Nbrs(b.graph, layer, |a.ids|)
    ensures x < |a.vecs| && y < |a.vecs| && p.sim(it.vec, a.vecs[y]) <= p.sim(it.vec, a.vecs[x])
  {
    var ep := a.entry.value;
    assert LayerLinked(p, a, it.vec, layer, ep, b.graph);
    var tr :| LinkedVia(p, a, it.vec, layer, ep, b.graph, tr);
    assert EdgeOk(a.levels, layer, ep, y);
    NearestVia(p, a, it.vec, layer, tr, x, y);
  }

  lemma {:induction false} NearestVia(p: Params, a: Index, vec: Vec, layer: nat, tr: Trace, x: nat, y: nat)
    requires a.entry.Some? && |Nbrs(a.graph, layer, a.entry.value)| < p.ef
    requires Finished(SpaceOf(p, a), InsertQuery(p, vec, layer, a.entry.value), tr)
    requires y in Nbrs(a.graph, layer, a.entry.value) && y != a.entry.value && y < |a.vecs| && x != a.entry.value
    requires var chosen := NodeIds(Take(Pool(InsertQuery(p, vec, layer, a.entry.value), tr.order), Cap(p, layer)));
             x in chosen && y !in chosen
    ensures x < |a.vecs| && p.sim(vec, a.vecs[y]) <= p.sim(vec, a.vecs[x])
  {
    var sp, k := SpaceOf(p, a), InsertQuery(p, vec, layer, a.entry.value);
    var w := Pool(k, tr.order);
    var best := Take(w, Cap(p, layer));
    var sx :| sx in best && sx.id == x;
    var sy := Scored(Distance(sp, vec, y), y);
    NearInPool(sp, k, tr, sy);
    PoolMembers(k, tr.order);
    TakeMembers(w, Cap(p, layer));
    PoolSound(sp, k, tr, sx);
    CutIsNearest(w, Cap(p, layer), sx, sy);
  }

  lemma {:induction false} NearInPool(sp: Space, k: Query, tr: Trace, x: Scored)
    requires Finished(sp, k, tr) && |k.entries| == 1 && NearEntry(sp, k, x)
    requires |Nbrs(sp.graph, k.layer, k.entries[0].id)| < k.ef
    ensures x in Pool(k, tr.order)
  {
    var i := NearWaits(sp, k, tr, x);
    PoolMembers(k, tr.order);
    assert tr.order[..PoolSize(k, |tr.order|)][i] == x;
  }

  /** In every index that insertions can build, a node has at most 2*max_m neighbours on layer
      0 and at most m on any other. */
  lemma {:induction false} BuiltDegrees(p: Params, items: seq<Item>, a: Index, layer: nat, x: nat)
    requires Built(p, items, a)
    ensures layer == 0 ==> |Nbrs(a.graph, layer, x)| <= 2 * p.maxM
    ensures layer > 0 ==> |Nbrs(a.graph, layer, x)| <= p.m
  {
    BuiltWellFormed(p, items, a);
    assert |Nbrs(a.graph, layer, x)| <= Cap(p, layer);
  }

  /** An ef given by the caller counts unless it is zero; else the default does. */
  lemma {:induction false} EffortCounts(p: Params, a: Index, target: Vec, k: int, ef: Option<int>, res: seq<Hit>)
    requires WellFormed(p, a) && Complete(a) && Searched(p, a, target, k, ef, res)
    requires match ef case Some(e) => |a.ids| <= (if e != 0 then e else p.ef) case None => |a.ids| <= p.ef
    ensures res == Scan(p, a, target, k)
  {
    CompleteExact(p, a, target, k, ef, res);
  }
}
