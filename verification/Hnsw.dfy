/** The layered neighbour graph itself, updated in place. */
module Hnsw {
  import opened Options
  import opened Sequences
  import opened Scores
  import opened LayerSearch
  import opened SearchTheorems
  import opened HnswSpec
  import opened HnswTheorems
  import opened StableSort

  type Meta = map<string, string>

  class HnswIndex {
    const p: Params
    var data: map<string, Vec>
    var metadata: map<string, Meta>
    var graph: Graph
    var nodeIds: map<string, nat>
    var nodeNames: map<nat, string>
    var nodeLevels: map<nat, nat>
    var entryPoint: Option<nat>
    var nextNodeId: nat

    /** The index as a value: what all theorems are about. */
    ghost var view: Index

    /** Node n is the n-th item of the view, in every map. */
    ghost predicate StoredAt(n: nat)
      reads this`data, this`nodeIds, this`nodeNames, this`nodeLevels, this`view
    {
      NodeAt(data, nodeIds, nodeNames, nodeLevels, view, n)
    }

    /** The maps store exactly the items of the view. */
    ghost predicate Stored()
      reads this`data, this`metadata, this`nodeIds, this`nodeNames, this`nodeLevels,
            this`nextNodeId, this`view
    {
      && nextNodeId == |view.ids| == |view.vecs| == |view.levels|
      && data.Keys == metadata.Keys == nodeIds.Keys == Names(view.ids)
      && AllNodes(data, nodeIds, nodeNames, nodeLevels, view)
    }

    ghost predicate Valid()
      reads this
    {
      Stored() && graph == view.graph && entryPoint == view.entry && WellFormed(p, view)
    }

    /** What a search relies on. */
    ghost predicate Ready()
      reads this
    {
      && Stored() && graph == view.graph && entryPoint == view.entry
      && EdgesOk(graph, view.levels)
    }

    constructor (p: Params)
      ensures Valid() && this.p == p && view == EMPTY
    {
      this.p := p;
      data, metadata, graph := map[], map[], map[];
      nodeIds, nodeNames, nodeLevels := map[], map[], map[];
      entryPoint, nextNodeId := None, 0;
      view := EMPTY;
    }

    /** The nodes a search of this layer may meet are stored, with the vectors of `sp`. */
    ghost predicate Searchable(sp: Space, layer: nat)
      reads this
    {
      && Stored()
      && sp.sim == p.sim && sp.graph == graph && sp.vecs <= view.vecs
      && LayerBelow(graph, layer, |sp.vecs|)
    }

    function ComputeDistance(a: Vec, b: Vec): real { -p.sim(a, b) }

    /** Searches one layer.  `tr` logs the discoveries; the pool follows from it. */
    method SearchLayer(query: Vec, entries: seq<Scored>, ef: int, layer: nat, ghost sp: Space)
      returns (w: seq<Scored>, ghost tr: Trace)
      requires Searchable(sp, layer)
      requires Distinct(entries) && forall i :: 0 <= i < |entries| ==> entries[i].id < |sp.vecs|
      ensures Finished(sp, Query(query, layer, entries, ef), tr)
      ensures w == Pool(Query(query, layer, entries, ef), tr.order)
      ensures IsPool(sp, Query(query, layer, entries, ef), w)
    {
      var k := Query(query, layer, entries, ef);
      var visited: set<nat>, candidates: seq<Scored>;
      visited, w, candidates := Seed(k);
      tr := Trace(entries, []);
      DistinctInRange(entries, |sp.vecs|);
      while candidates != []
        invariant Running(sp, k, tr) && |tr.order| <= |sp.vecs|
        invariant Heaps(k, tr.order, DoneBy(tr.steps), w, candidates, visited)
        invariant entries == [] ==> candidates == []
        decreases |sp.vecs| - |tr.order|, |candidates|
      {
        var stop: bool;
        stop, visited, w, candidates, tr := ExpandNext(sp, k, visited, w, candidates, tr);
        if stop { break; }
      }
    }

    /** Pops the farthest candidate; stops if it is farther than the nearest of the pool. */
    method ExpandNext(ghost sp: Space, k: Query, visited0: set<nat>, w0: seq<Scored>,
                      candidates0: seq<Scored>, ghost tr0: Trace)
      returns (stop: bool, visited: set<nat>, w: seq<Scored>, candidates: seq<Scored>, ghost tr: Trace)
      requires Searchable(sp, k.layer) && candidates0 != [] && k.entries != []
      requires Running(sp, k, tr0) && Heaps(k, tr0.order, DoneBy(tr0.steps), w0, candidates0, visited0)
      ensures stop ==> tr == tr0 && w == w0 && Stopped(k, tr)
      ensures !stop ==> Running(sp, k, tr) && |tr.order| <= |sp.vecs|
      ensures !stop ==> Heaps(k, tr.order, DoneBy(tr.steps), w, candidates, visited)
      ensures !stop ==> |tr0.order| <= |tr.order|
      ensures !stop && |tr0.order| == |tr.order| ==> |candidates| < |candidates0|
    {
      visited, w, tr := visited0, w0, tr0;
      ghost var done := DoneBy(tr.steps);
      ghost var at := PopHeaps(k, tr.order, done, w, candidates0, visited);
      var popped := candidates0[0];
      candidates := candidates0[1..];
      stop := Closer(w[0].dist, Neg(popped.dist));
      if stop {
        Overtaken(k, tr, w, at);
      } else {
        visited, w, candidates, tr := ExpandPopped(sp, k, popped.id, visited, w, candidates, tr, at);
      }
    }

    method ExpandPopped(ghost sp: Space, k: Query, node: nat, visited0: set<nat>, w0: seq<Scored>,
                        candidates0: seq<Scored>, ghost tr0: Trace, ghost at: nat)
      returns (visited: set<nat>, w: seq<Scored>, candidates: seq<Scored>, ghost tr: Trace)
      requires Searchable(sp, k.layer) && k.entries != [] && Running(sp, k, tr0)
      requires Heaps(k, tr0.order, DoneBy(tr0.steps) + {at}, w0, candidates0, visited0)
      requires Farthest(k, tr0.order, |tr0.order|, DoneBy(tr0.steps), at)
      requires tr0.order[at].id == node && w0 != [] && !Closer(w0[0].dist, tr0.order[at].dist)
      ensures Running(sp, k, tr) && |tr0.order| <= |tr.order| <= |sp.vecs|
      ensures Heaps(k, tr.order, DoneBy(tr.steps), w, candidates, visited)
      ensures |tr0.order| == |tr.order| ==> candidates == candidates0
    {
      ghost var order: seq<Scored>;
      visited, w, candidates, order :=
        Expand(sp, k, node, visited0, w0, candidates0, tr0.order, DoneBy(tr0.steps) + {at});
      tr := Expanded(sp, k, tr0, order, at, visited);
    }

    /** Both heaps and the visited set are filled with the entry points. */
    method Seed(k: Query) returns (visited: set<nat>, w: seq<Scored>, candidates: seq<Scored>)
      requires Distinct(k.entries)
      ensures Heaps(k, k.entries, {}, w, candidates, visited)
      ensures k.entries == [] ==> candidates == []
    {
      visited, w, candidates := {}, [], [];
      for i := 0 to |k.entries|
        invariant Heaps(k, k.entries[..i], {}, w, candidates, visited)
        invariant i == 0 ==> candidates == []
      {
        var x := k.entries[i];
        SeedHeaps(k, i, w, candidates, visited);
        candidates := Push(candidates, Flip(x));
        w := Push(w, x);
        visited := visited + {x.id};
      }
      assert k.entries[..|k.entries|] == k.entries;
    }

    /** Discovers the unvisited neighbours of one node, in any order. */
    method Expand(ghost sp: Space, k: Query, node: nat, visited0: set<nat>, w0: seq<Scored>,
                  candidates0: seq<Scored>, ghost order0: seq<Scored>, ghost done: set<nat>)
      returns (visited: set<nat>, w: seq<Scored>, candidates: seq<Scored>, ghost order: seq<Scored>)
      requires Searchable(sp, k.layer) && Scoring(sp, k, order0) && k.entries != []
      requires Heaps(k, order0, done, w0, candidates0, visited0)
      ensures Heaps(k, order, done, w, candidates, visited)
      ensures |order| == |order0| ==> candidates == candidates0
      ensures Discovered(sp, k, order0, order, Nbrs(sp.graph, k.layer, node))
      ensures Nbrs(sp.graph, k.layer, node) <= visited
    {
      visited, w, candidates, order := visited0, w0, candidates0, order0;
      var neighbors := Nbrs(graph, k.layer, node);
      var rest := neighbors;
      while rest != {}
        invariant rest <= neighbors
        invariant Heaps(k, order, done, w, candidates, visited)
        invariant Discovered(sp, k, order0, order, neighbors)
        invariant |order| == |order0| ==> candidates == candidates0
        invariant neighbors - rest <= visited
        decreases rest
      {
        var neighbor :| neighbor in rest;
        rest := rest - {neighbor};
        if neighbor !in visited {
          assert neighbor < |sp.vecs|;
          ghost var before := order;
          visited, w, candidates, order := Visit(sp, k, neighbor, visited, w, candidates, order, done);
          DiscoveredMore(sp, k, order0, before, order, neighbors);
        }
      }
    }

    /** Scores one new node and lets it into the heaps. */
    method Visit(ghost sp: Space, k: Query, neighbor: nat, visited0: set<nat>, w0: seq<Scored>,
                 candidates0: seq<Scored>, ghost order0: seq<Scored>, ghost done: set<nat>)
      returns (visited: set<nat>, w: seq<Scored>, candidates: seq<Scored>, ghost order: seq<Scored>)
      requires Searchable(sp, k.layer) && Scoring(sp, k, order0) && k.entries != []
      requires Heaps(k, order0, done, w0, candidates0, visited0)
      requires neighbor < |sp.vecs| && neighbor !in visited0
      ensures Heaps(k, order, done, w, candidates, visited) && Scoring(sp, k, order)
      ensures order0 <= order && |order| == |order0| + 1 && order[|order0|].id == neighbor
      ensures visited == visited0 + {neighbor}
    {
      w, candidates := w0, candidates0;
      visited := visited0 + {neighbor};
      assert StoredAt(neighbor);
      var x := Scored(Fin(ComputeDistance(k.target, data[nodeNames[neighbor]])), neighbor);
      order := order0 + [x];
      ScoringPush(sp, k, order0, visited0, x);
      PushHeaps(k, order0, done, w, candidates, visited0, x);
      if Closer(x.dist, w[0].dist) || |w| < k.ef {
        candidates := Push(candidates, Flip(x));
        w := Push(w, x);
        if |w| > k.ef { w := w[1..]; }
      }
    }

    /** Keeps the m neighbours nearest to the node; ties fall as the set was iterated. */
    method PruneNeighbors(node: nat, neighbors: set<nat>, m: nat) returns (kept: seq<nat>)
      requires Stored() && node < nextNodeId && m < |neighbors|
      requires forall x :: x in neighbors ==> x < nextNodeId
      ensures Pruned(p, view.vecs, node, neighbors, m, SetOf(kept))
    {
      var listed := Listed(neighbors);
      assert StoredAt(node);
      var key := DistanceFrom(p, data, nodeNames, data[nodeNames[node]]);
      var sorted := SortBy(listed, key);
      kept := sorted[..Min(m, |sorted|)];
      PrunedOk(listed, key, m, neighbors);
      forall x | x in neighbors ensures key(x) == -p.sim(view.vecs[node], view.vecs[x]) {
        assert StoredAt(x);
      }
    }

    /** Adds one edge in both directions and prunes the far end when it is over-full. */
    method LinkNeighbor(layer: nat, node: nat, b: nat)
      requires Stored() && node < nextNodeId && b < nextNodeId && b != node
      requires forall x :: x in Nbrs(graph, layer, b) ==> x < nextNodeId
      modifies this`graph
      ensures Nbrs(graph, layer, node) == Nbrs(old(graph), layer, node) + {b}
      ensures RelinkOk(p, old(graph), view.vecs, layer, node, b, graph)
      ensures OthersSame(old(graph), graph, layer, node, b)
    {
      ghost var before := graph;
      graph := graph[(layer, node) := Nbrs(graph, layer, node) + {b}];
      graph := graph[(layer, b) := Nbrs(graph, layer, b) + {node}];
      var maxNeighbors := Cap(p, layer);
      var far := Nbrs(graph, layer, b);
      ghost var kept := far;
      ghost var linked := graph;
      if |far| > maxNeighbors {
        var pruneList := PruneNeighbors(b, far, maxNeighbors);
        graph := graph[(layer, b) := SetOf(pruneList)];
        kept := SetOf(pruneList);
      }
      assert graph == linked[(layer, b) := kept];
      FarEnd(before, layer, node, b, nextNodeId);
      EdgeAdded(p, before, view.vecs, layer, node, b, linked, kept, graph);
    }

    /** Connects a new node on one layer; the other layers stay as they are. */
    method LinkLayer(embedding: Vec, nearest: seq<Scored>, lc: nat, node: nat, ghost a: Index, ep: nat)
      requires Stored() && WellFormed(p, a) && Appended(a, embedding) && node == |a.ids|
      requires ep < node && nearest == [Scored(PosInf, ep)]
      requires LayerSame(a.graph, graph, lc)
      modifies this`graph
      ensures LayerLinked(p, a, embedding, lc, ep, graph)
      ensures forall l: nat :: l != lc ==> LayerSame(old(graph), graph, l)
    {
      ghost var sp := Space(p.sim, a.vecs, graph);
      ghost var before := graph;
      EdgesBelow(a.graph, a.levels, lc);
      BelowSame(a.graph, graph, lc, node);
      var w, tr := SearchLayer(embedding, nearest, p.ef, lc, sp);
      ghost var k := InsertQuery(p, embedding, lc, ep);
      FinishedSameLayer(sp, SpaceOf(p, a), k, tr);
      var m := Cap(p, lc);
      var neighbors := Take(w, m);
      NeighborsOk(sp, k, tr, m);
      LinkAll(lc, node, neighbors);
      LinkedSame(p, before, a.graph, view.vecs, lc, node, NodeIds(neighbors), graph);
      assert LinkedVia(p, a, embedding, lc, ep, graph, tr);
    }

    method LinkAll(lc: nat, node: nat, neighbors: seq<Scored>)
      requires Stored() && node < nextNodeId && Distinct(neighbors)
      requires forall x :: x in neighbors ==> x.id < node
      requires LayerBelow(graph, lc, node)
      modifies this`graph
      ensures LinkedTo(p, old(graph), view.vecs, lc, node, NodeIds(neighbors), graph)
      ensures forall l: nat :: l != lc ==> LayerSame(old(graph), graph, l)
    {
      ghost var before := graph;
      NothingLinked(p, before, view.vecs, lc, node);
      for i := 0 to |neighbors|
        invariant LinkedTo(p, before, view.vecs, lc, node, NodeIds(neighbors[..i]), graph)
        invariant forall l: nat :: l != lc ==> LayerSame(before, graph, l)
      {
        var b := neighbors[i].id;
        ghost var done := NodeIds(neighbors[..i]);
        ghost var between := graph;
        NextId(neighbors, i);
        assert neighbors[i] in neighbors;
        NotLinkedYet(p, before, view.vecs, lc, node, done, b, between);
        LinkNeighbor(lc, node, b);
        LinkedMore(p, before, between, view.vecs, lc, node, done, b, graph);
      }
      assert neighbors[..|neighbors|] == neighbors;
    }

    /** The view already lists the new item, the graph does not know it yet. */
    ghost predicate Appended(a: Index, embedding: Vec)
      reads this`view
    {
      && |view.ids| == |a.ids| + 1
      && view.vecs == a.vecs + [embedding]
    }

    /** Inserts an item; its level is drawn at random by the caller's generator. */
    method Insert(itemId: string, embedding: Vec, meta: Meta, level: nat) returns (r: Result<()>)
      requires Valid()
      modifies this
      ensures Valid()
      ensures |embedding| != p.dim ==> r == Err(DimensionMismatch)
      ensures |embedding| == p.dim && itemId in old(view).ids ==> r == Err(AlreadyExists)
      ensures r.Err? ==> view == old(view) && metadata == old(metadata)
      ensures |embedding| == p.dim && itemId !in old(view).ids ==>
                && r.Ok? && Inserted(p, old(view), Item(itemId, embedding, level), view)
                && metadata == old(metadata)[itemId := meta]
    {
      if |embedding| != p.dim { return Err(DimensionMismatch); }
      if itemId in data { return Err(AlreadyExists); }
      ghost var a := view;
      var internalId := Register(itemId, embedding, meta, level);
      if entryPoint == None {
        entryPoint := Some(internalId);
      } else {
        InsertNode(internalId, embedding, level, a);
      }
      Publish();
      InsertedKeepsWellFormed(p, a, Item(itemId, embedding, level), view);
      r := Ok(());
    }

    /** The keys of the data are the ids of the view. */
    lemma {:induction false} KnownIds()
      requires Valid()
      ensures forall id :: id in data <==> id in view.ids
    {
      assert forall id :: id in Names(view.ids) <==> id in view.ids;
    }

    /** Stores an item under the next node id; the graph does not know it yet. */
    method Register(itemId: string, embedding: Vec, meta: Meta, level: nat) returns (internalId: nat)
      requires Stored() && itemId !in view.ids
      modifies this`data, this`metadata, this`nodeIds, this`nodeNames, this`nodeLevels,
               this`nextNodeId, this`view
      ensures Stored() && internalId == |old(view).ids|
      ensures view == old(view).(ids := old(view).ids + [itemId], vecs := old(view).vecs + [embedding],
                                 levels := old(view).levels + [level])
      ensures metadata == old(metadata)[itemId := meta]
    {
      ghost var a := view;
      internalId := nextNodeId;
      nextNodeId := nextNodeId + 1;
      nodeIds := nodeIds[itemId := internalId];
      nodeNames := nodeNames[internalId := itemId];
      data := data[itemId := embedding];
      metadata := metadata[itemId := meta];
      nodeLevels := nodeLevels[internalId := level];
      view := Index(a.ids + [itemId], a.vecs + [embedding], a.levels + [level], a.graph, a.entry);
      NamesPush(a.ids, itemId);
      AllNodesPush(old(data), old(nodeIds), old(nodeNames), old(nodeLevels), a, itemId, embedding, level);
    }

    /** The view catches up with the graph. */
    ghost method Publish()
      requires Stored()
      modifies this`view
      ensures Stored() && view == old(view).(graph := graph, entry := entryPoint)
    {
      view := view.(graph := graph, entry := entryPoint);
      forall n: nat | n < nextNodeId ensures NodeAt(data, nodeIds, nodeNames, nodeLevels, view, n) {
        assert NodeAt(data, nodeIds, nodeNames, nodeLevels, old(view), n);
      }
    }

    method InsertNode(internalId: nat, embedding: Vec, level: nat, ghost a: Index)
      requires Stored() && WellFormed(p, a) && Appended(a, embedding) && view.levels == a.levels + [level]
      requires internalId == |a.ids| && a.entry.Some? && entryPoint == a.entry && graph == a.graph
      modifies this`graph, this`entryPoint
      ensures var ep := a.entry.value;
              && Rewired(p, a, embedding, ep, Min(level, a.levels[ep]), graph)
              && entryPoint == if level > a.levels[ep] then Some(internalId) else a.entry
    {
      var ep := entryPoint.value;
      var nearest := [Scored(PosInf, ep)];
      assert StoredAt(ep);
      // The code counts down from the id of the entry point, not from its level.
      nearest := DescendTo(embedding, nearest, ep, level, a, ep);
      ghost var top := Min(level, a.levels[ep]);
      var l: int := Min(level, nodeLevels[ep]);
      while l >= 0
        invariant entryPoint == a.entry && -1 <= l <= top
        invariant LinkedAbove(p, a, embedding, ep, top, l, graph)
      {
        ghost var before := graph;
        LinkLayer(embedding, nearest, l, internalId, a, ep);
        LinkedOneMore(p, a, embedding, ep, top, l, before, graph);
        l := l - 1;
      }
      if level > nodeLevels[ep] { entryPoint := Some(internalId); }
    }

    /** The greedy way down from layer `from` to layer `to`: it always ends where it began. */
    method DescendTo(query: Vec, start: seq<Scored>, from: int, to: nat, ghost a: Index, ep: nat)
      returns (nearest: seq<Scored>)
      requires Stored() && EdgesOk(graph, a.levels) && |a.levels| == |a.vecs|
      requires a.graph == graph && a.vecs <= view.vecs
      requires |start| == 1 && start[0].id == ep < |a.vecs|
      ensures nearest == start
    {
      nearest := start;
      var lc := from;
      while lc > to
        invariant nearest == start
      {
        ghost var tr: Trace;
        EdgesBelow(graph, a.levels, lc);
        nearest, tr := SearchLayer(query, nearest, 1, lc, SpaceOf(p, a));
        DescentStays(SpaceOf(p, a), Query(query, lc, start, 1), tr);
        lc := lc - 1;
      }
    }

    /** The k nearest stored items, best first. */
    method Search(query: Vec, k: int, ef: Option<int>) returns (r: Result<seq<Hit>>)
      requires Valid()
      ensures |query| != p.dim <==> r == Err(DimensionMismatch)
      ensures |query| == p.dim ==> r.Ok? && Searched(p, view, query, k, ef, r.value)
    {
      if |query| != p.dim { return Err(DimensionMismatch); }
      if |data| == 0 {
        assert |data.Keys| == 0;
        NoNames(view.ids);
        return Ok([]);
      }
      if entryPoint == None { return Ok([]); }
      assert EntryOk(view);
      var results := SearchFrom(query, k, ef, entryPoint.value);
      r := Ok(results);
    }

    method SearchFrom(query: Vec, k: int, ef: Option<int>, ep: nat) returns (results: seq<Hit>)
      requires Ready() && entryPoint == Some(ep) && ep < |view.ids|
      ensures Searched(p, view, query, k, ef, results)
    {
      assert StoredAt(ep);
      var entryDistance := ComputeDistance(query, data[nodeNames[ep]]);
      var nearest := [Scored(Fin(entryDistance), ep)];
      nearest := DescendTo(query, nearest, nodeLevels[ep], 0, view, ep);
      results := SearchBottom(query, nearest, k, ef, ep);
    }

    method SearchBottom(query: Vec, start: seq<Scored>, k: int, ef: Option<int>, ep: nat)
      returns (results: seq<Hit>)
      requires Ready() && entryPoint == Some(ep) && ep < |view.ids|
      requires start == SearchQuery(p, view, query, ep, k, Effort(p, ef)).entries
      ensures Searched(p, view, query, k, ef, results)
    {
      EdgesBelow(graph, view.levels, 0);
      var nearest, tr := SearchLayer(query, start, Max(Effort(p, ef), k), 0, SpaceOf(p, view));
      BestFinite(p, view, query, k, ef, ep, tr);
      results := TopK(nearest, k);
      assert SearchedVia(p, view, query, k, ef, ep, results, tr);
    }

    /** Pops the k best off a pool. */
    method TopK(pool: seq<Scored>, k: int) returns (results: seq<Hit>)
      requires Stored() && forall x :: x in Take(pool, k) ==> x.id < |view.ids| && x.dist.Fin?
      ensures results == Report(view, Take(pool, k))
    {
      results := [];
      var nearest := pool;
      var i := 0;
      while i < Min(k, |pool|)
        invariant 0 <= i <= Max(0, Min(k, |pool|)) && nearest == pool[i..] && |results| == i
        invariant forall j :: 0 <= j < i ==> results[j] == Report(view, Take(pool, k))[j]
      {
        var top := nearest[0];
        nearest := nearest[1..];
        assert Take(pool, k)[i] == top && top in Take(pool, k);
        assert StoredAt(top.id);
        results := results + [Hit(nodeNames[top.id], -top.dist.value)];
        i := i + 1;
      }
    }
  }

  ghost predicate NodeAt(data: map<string, Vec>, nodeIds: map<string, nat>, nodeNames: map<nat, string>,
                         nodeLevels: map<nat, nat>, v: Index, n: nat)
  {
    && n < |v.ids| && n < |v.vecs| && n < |v.levels|
    && n in nodeNames && nodeNames[n] == v.ids[n]
    && n in nodeLevels && nodeLevels[n] == v.levels[n]
    && v.ids[n] in data && data[v.ids[n]] == v.vecs[n]
    && v.ids[n] in nodeIds && nodeIds[v.ids[n]] == n
  }

  ghost predicate AllNodes(data: map<string, Vec>, nodeIds: map<string, nat>, nodeNames: map<nat, string>,
                           nodeLevels: map<nat, nat>, v: Index)
  {
    (forall n: nat {:trigger NodeAt(data, nodeIds, nodeNames, nodeLevels, v, n)} ::
          n < |v.ids| ==> NodeAt(data, nodeIds, nodeNames, nodeLevels, v, n))
  }

  lemma {:induction false} AllNodesPush(data: map<string, Vec>, nodeIds: map<string, nat>,
                                        nodeNames: map<nat, string>, nodeLevels: map<nat, nat>,
                                        v: Index, id: string, vec: Vec, level: nat)
    requires AllNodes(data, nodeIds, nodeNames, nodeLevels, v) && id !in v.ids
    requires |v.ids| == |v.vecs| == |v.levels|
    ensures var n := |v.ids|;
            AllNodes(data[id := vec], nodeIds[id := n], nodeNames[n := id], nodeLevels[n := level],
                     v.(ids := v.ids + [id], vecs := v.vecs + [vec], levels := v.levels + [level]))
  {
    var n := |v.ids|;
    var w := v.(ids := v.ids + [id], vecs := v.vecs + [vec], levels := v.levels + [level]);
    var d, ids, names, levels := data[id := vec], nodeIds[id := n], nodeNames[n := id], nodeLevels[n := level];
    forall i: nat | i < |w.ids| ensures NodeAt(d, ids, names, levels, w, i) {
      if i < n {
        assert NodeAt(data, nodeIds, nodeNames, nodeLevels, v, i) && v.ids[i] in v.ids;
      }
    }
  }

  lemma {:induction false} NoNames(ids: seq<string>)
    ensures ids != [] ==> |Names(ids)| > 0
  {
    if ids != [] { assert ids[0] in Names(ids); }
  }

  lemma {:induction false} NamesPush(ids: seq<string>, id: string)
    ensures Names(ids + [id]) == Names(ids) + {id}
  {
  }

  /** Both heaps and the visited set say what has been discovered and not yet expanded. */
  ghost predicate Heaps(k: Query, order: seq<Scored>, done: set<nat>, w: seq<Scored>,
                        candidates: seq<Scored>, visited: set<nat>)
  {
    && w == Pool(k, order)
    && QueueOk(k, order, done, candidates)
    && VisitedOk(order, visited)
    && (forall i :: i in done ==> i < |order|)
  }

  /** `order` extends `order0` by nodes of `ids`. */
  ghost predicate Discovered(sp: Space, k: Query, order0: seq<Scored>, order: seq<Scored>, ids: set<nat>) {
    && order0 <= order
    && Scoring(sp, k, order)
    && (forall i :: |order0| <= i < |order| ==> order[i].id in ids)
  }

  lemma {:induction false} DiscoveredMore(sp: Space, k: Query, order0: seq<Scored>, order1: seq<Scored>,
                       order2: seq<Scored>, ids: set<nat>)
    requires Discovered(sp, k, order0, order1, ids) && Scoring(sp, k, order2)
    requires order1 <= order2 && |order2| == |order1| + 1 && order2[|order1|].id in ids
    ensures Discovered(sp, k, order0, order2, ids)
  {
  }

  lemma {:induction false} SeedHeaps(k: Query, i: nat, w: seq<Scored>, candidates: seq<Scored>, visited: set<nat>)
    requires i < |k.entries| && Distinct(k.entries)
    requires Heaps(k, k.entries[..i], {}, w, candidates, visited)
    ensures Heaps(k, k.entries[..i + 1], {}, Push(w, k.entries[i]),
                  Push(candidates, Flip(k.entries[i])), visited + {k.entries[i].id})
  {
    var before, x := k.entries[..i], k.entries[i];
    assert k.entries[..i + 1] == before + [x];
    GrowPool(k, before, x);
    PushQueue(k, before, {}, candidates, x);
    VisitedPush(before, visited, x);
  }

  lemma {:induction false} GrowPool(k: Query, order: seq<Scored>, x: Scored)
    requires |order| < Max(k.ef, |k.entries|)
    ensures Pool(k, order + [x]) == Push(Pool(k, order), x)
  {
    assert order[..|order|] == order && (order + [x])[..|order| + 1] == order + [x];
    SortPush(order, x);
  }

  lemma {:induction false} PushHeaps(k: Query, order: seq<Scored>, done: set<nat>, w: seq<Scored>,
                  candidates: seq<Scored>, visited: set<nat>, x: Scored)
    requires 0 < |k.entries| <= |order| && Distinct(order + [x])
    requires Heaps(k, order, done, w, candidates, visited)
    ensures w != []
    ensures var enters := Closer(x.dist, w[0].dist) || |w| < k.ef;
            Heaps(k, order + [x], done, if enters then Entered(k, w, x) else w,
                  if enters then Push(candidates, Flip(x)) else candidates, visited + {x.id})
  {
    PushPool(k, order, x, w);
    PushQueue(k, order, done, candidates, x);
    VisitedPush(order, visited, x);
  }

  lemma {:induction false} PopHeaps(k: Query, order: seq<Scored>, done: set<nat>, w: seq<Scored>,
                 candidates: seq<Scored>, visited: set<nat>) returns (at: nat)
    requires Heaps(k, order, done, w, candidates, visited)
    requires candidates != [] && Distinct(order) && 0 < |k.entries| <= |order|
    ensures Farthest(k, order, |order|, done, at) && Flip(order[at]) == candidates[0]
    ensures Heaps(k, order, done + {at}, w, candidates[1..], visited) && w != []
  {
    at := PopQueue(k, order, done, candidates);
  }

  lemma {:induction false} Overtaken(k: Query, tr: Trace, w: seq<Scored>, at: nat)
    requires 0 < |k.entries| <= |tr.order| && w == Pool(k, tr.order)
    requires Waiting(k, tr.order, |tr.order|, DoneBy(tr.steps), at)
    requires w != [] && Closer(w[0].dist, tr.order[at].dist)
    ensures Stopped(k, tr)
  {
    var j := PoolHeadAt(k, tr.order);
  }

  /** Logs one expansion. */
  ghost method Expanded(sp: Space, k: Query, tr: Trace, order: seq<Scored>, at: nat, visited: set<nat>)
    returns (next: Trace)
    requires Running(sp, k, tr) && k.entries != []
    requires Farthest(k, tr.order, |tr.order|, DoneBy(tr.steps), at)
    requires Pool(k, tr.order) != [] && !Closer(Pool(k, tr.order)[0].dist, tr.order[at].dist)
    requires Discovered(sp, k, tr.order, order, Nbrs(sp.graph, k.layer, tr.order[at].id))
    requires Nbrs(sp.graph, k.layer, tr.order[at].id) <= visited && VisitedOk(order, visited)
    ensures next.order == order && next.steps == tr.steps + [Step(at, DoneBy(tr.steps), |tr.order|, |order|)]
    ensures Running(sp, k, next) && |order| <= |sp.vecs|
    ensures DoneBy(next.steps) == DoneBy(tr.steps) + {at}
  {
    var x := Step(at, DoneBy(tr.steps), |tr.order|, |order|);
    ExpandedOk(sp, k, tr.order, order, x, visited);
    AddStep(sp, k, tr, order, x);
    DistinctInRange(order, |sp.vecs|);
    next := Trace(order, tr.steps + [x]);
  }

  lemma {:induction false} VisitedPush(order: seq<Scored>, visited: set<nat>, x: Scored)
    requires VisitedOk(order, visited)
    ensures VisitedOk(order + [x], visited + {x.id})
  {
    var longer := order + [x];
    forall n | n in visited + {x.id} ensures Found(longer, |longer|, n) {
      if n in visited {
        var i :| 0 <= i < |order| && order[i].id == n;
        assert longer[i].id == n;
      } else {
        assert longer[|order|].id == n;
      }
    }
  }

  lemma {:induction false} ScoringPush(sp: Space, k: Query, order: seq<Scored>, visited: set<nat>, x: Scored)
    requires Scoring(sp, k, order) && VisitedOk(order, visited) && x.id !in visited
    requires x.id < |sp.vecs| && x.dist == Distance(sp, k.target, x.id)
    ensures Scoring(sp, k, order + [x])
  {
  }

  lemma {:induction false} PoolHead(k: Query, order: seq<Scored>)
    requires 0 < |k.entries| <= |order|
    ensures Pool(k, order) != []
    ensures forall j :: 0 <= j < PoolSize(k, |order|) ==>
              !Closer(order[j].dist, Pool(k, order)[0].dist)
  {
    var first := order[..PoolSize(k, |order|)];
    HeadIsNearest(first);
    forall j | 0 <= j < |first| ensures !Closer(order[j].dist, Pool(k, order)[0].dist) {
      assert first[j] == order[j];
    }
  }

  lemma {:induction false} PoolHeadAt(k: Query, order: seq<Scored>) returns (j: nat)
    requires 0 < |k.entries| <= |order|
    ensures j < PoolSize(k, |order|) && order[j] == Pool(k, order)[0]
  {
    var first := order[..PoolSize(k, |order|)];
    HeadIsNearest(first);
    j :| 0 <= j < |first| && first[j] == Pool(k, order)[0];
  }

  lemma {:induction false} ExpandedOk(sp: Space, k: Query, order: seq<Scored>, longer: seq<Scored>, x: Step, visited: set<nat>)
    requires 0 < |k.entries| <= |order| && order <= longer
    requires x.before == |order| && x.after == |longer|
    requires Farthest(k, order, |order|, x.done, x.at)
    requires !Closer(Pool(k, order)[0].dist, order[x.at].dist)
    requires VisitedOk(longer, visited)
    requires forall i :: |order| <= i < |longer| ==>
               longer[i].id in Nbrs(sp.graph, k.layer, order[x.at].id)
    requires forall n :: n in Nbrs(sp.graph, k.layer, order[x.at].id) ==> n in visited
    ensures StepOk(sp, k, longer, x)
  {
    WaitingPrefix(k, order, longer, |order|, x.done);
    PoolHead(k, order);
    assert forall j :: 0 <= j < |order| ==> order[j] == longer[j];
  }

  lemma {:induction false} DistinctInRange(order: seq<Scored>, n: nat)
    requires Distinct(order) && forall i :: 0 <= i < |order| ==> order[i].id < n
    ensures |order| <= n
  {
    forall x | x in order ensures x.id in UpTo(n) {
      var i :| 0 <= i < |order| && order[i] == x;
    }
    DistinctFits(order, UpTo(n));
  }

  /** The edges of a layer join nodes below n. */
  ghost predicate LayerBelow(g: Graph, layer: nat, n: nat) {
    forall x: nat, y: nat {:trigger y in Nbrs(g, layer, x)} ::
      y in Nbrs(g, layer, x) ==> x < n && y < n
  }

  lemma {:induction false} FarEnd(g: Graph, layer: nat, node: nat, b: nat, n: nat)
    requires b != node && node < n && forall x :: x in Nbrs(g, layer, b) ==> x < n
    ensures var near := g[(layer, node) := Nbrs(g, layer, node) + {b}];
            var linked := near[(layer, b) := Nbrs(near, layer, b) + {node}];
            && Nbrs(linked, layer, b) == Nbrs(g, layer, b) + {node}
            && (forall x :: x in Nbrs(linked, layer, b) ==> x < n)
  {
  }

  lemma {:induction false} EdgeAdded(p: Params, g: Graph, vecs: seq<Vec>, layer: nat, node: nat, b: nat,
                                     linked: Graph, kept: set<nat>, h: Graph)
    requires b != node && b < |vecs| && node < |vecs|
    requires forall x :: x in Nbrs(g, layer, b) ==> x < |vecs|
    requires var near := g[(layer, node) := Nbrs(g, layer, node) + {b}];
             linked == near[(layer, b) := Nbrs(near, layer, b) + {node}]
    requires h == linked[(layer, b) := kept]
    requires |Nbrs(linked, layer, b)| <= Cap(p, layer) ==> kept == Nbrs(linked, layer, b)
    requires forall x :: x in Nbrs(linked, layer, b) ==> x < |vecs|
    requires |Nbrs(linked, layer, b)| > Cap(p, layer) ==>
               Pruned(p, vecs, b, Nbrs(linked, layer, b), Cap(p, layer), kept)
    ensures Nbrs(h, layer, node) == Nbrs(g, layer, node) + {b}
    ensures RelinkOk(p, g, vecs, layer, node, b, h)
    ensures OthersSame(g, h, layer, node, b)
  {
    assert Nbrs(linked, layer, b) == Nbrs(g, layer, b) + {node};
    assert Nbrs(h, layer, b) == kept;
  }

  lemma {:induction false} EdgesBelow(g: Graph, levels: seq<nat>, layer: nat)
    requires EdgesOk(g, levels)
    ensures LayerBelow(g, layer, |levels|)
  {
    forall x: nat, y: nat | y in Nbrs(g, layer, x) ensures x < |levels| && y < |levels| {
      assert EdgeOk(levels, layer, x, y);
    }
  }

  lemma {:induction false} BelowSame(g: Graph, h: Graph, layer: nat, n: nat)
    requires LayerBelow(g, layer, n) && LayerSame(g, h, layer)
    ensures LayerBelow(h, layer, n)
  {
    forall x: nat, y: nat | y in Nbrs(h, layer, x) ensures x < n && y < n {
      assert Nbrs(h, layer, x) == Nbrs(g, layer, x);
    }
  }

  lemma {:induction false} LayerLinkedSame(p: Params, a: Index, vec: Vec, layer: nat, ep: nat, h: Graph, h': Graph)
    requires LayerLinked(p, a, vec, layer, ep, h) && LayerSame(h, h', layer)
    ensures LayerLinked(p, a, vec, layer, ep, h')
  {
    var tr :| LinkedVia(p, a, vec, layer, ep, h, tr);
    var k := InsertQuery(p, vec, layer, ep);
    var chosen := NodeIds(Take(Pool(k, tr.order), Cap(p, layer)));
    LinkedToSame(p, a.graph, a.vecs + [vec], layer, |a.vecs|, chosen, h, h');
    assert LinkedVia(p, a, vec, layer, ep, h', tr);
  }

  lemma {:induction false} LinkedToSame(p: Params, g: Graph, vecs: seq<Vec>, layer: nat, node: nat,
                                        chosen: set<nat>, h: Graph, h': Graph)
    requires LinkedTo(p, g, vecs, layer, node, chosen, h) && LayerSame(h, h', layer)
    ensures LinkedTo(p, g, vecs, layer, node, chosen, h')
  {
    forall b | b in chosen ensures RelinkOk(p, g, vecs, layer, node, b, h') {
      assert RelinkOk(p, g, vecs, layer, node, b, h);
    }
  }

  /** Where an insertion stands that has linked the layers above l. */
  ghost predicate LinkedAbove(p: Params, a: Index, vec: Vec, ep: nat, top: int, l: int, h: Graph) {
    && (forall j: nat :: l < j <= top ==> LayerLinked(p, a, vec, j, ep, h))
    && (forall j: nat :: j <= l || top < j ==> LayerSame(a.graph, h, j))
  }

  lemma {:induction false} LinkedOneMore(p: Params, a: Index, vec: Vec, ep: nat, top: int, l: nat, h: Graph, h': Graph)
    requires l <= top && LinkedAbove(p, a, vec, ep, top, l, h)
    requires LayerLinked(p, a, vec, l, ep, h') && forall j: nat :: j != l ==> LayerSame(h, h', j)
    ensures LinkedAbove(p, a, vec, ep, top, l - 1, h')
  {
    forall j: nat | l - 1 < j <= top ensures LayerLinked(p, a, vec, j, ep, h') {
      if j != l { LayerLinkedSame(p, a, vec, j, ep, h, h'); }
    }
    forall j: nat | j <= l - 1 || top < j ensures LayerSame(a.graph, h', j) {
      assert LayerSame(a.graph, h, j) && LayerSame(h, h', j);
    }
  }

  lemma {:induction false} NothingLinked(p: Params, g: Graph, vecs: seq<Vec>, layer: nat, node: nat)
    requires LayerBelow(g, layer, node)
    ensures LinkedTo(p, g, vecs, layer, node, {}, g)
  {
    assert forall y :: y !in Nbrs(g, layer, node);
  }

  lemma {:induction false} NotLinkedYet(p: Params, g: Graph, vecs: seq<Vec>, layer: nat, node: nat,
                                        done: set<nat>, b: nat, h: Graph)
    requires LinkedTo(p, g, vecs, layer, node, done, h) && b !in done && b != node
    requires LayerBelow(g, layer, node)
    ensures forall x :: x in Nbrs(h, layer, b) ==> x < node
  {
  }

  /** Only two neighbour sets of one layer differ. */
  ghost predicate OthersSame(g: Graph, h: Graph, layer: nat, node: nat, b: nat) {
    forall l: nat, x: nat :: l != layer || (x != node && x != b) ==> Nbrs(h, l, x) == Nbrs(g, l, x)
  }

  /** A Python list of a set: its members in an arbitrary order. */
  method Listed(ids: set<nat>) returns (listed: seq<nat>)
    ensures NoDup(listed) && SetOf(listed) == ids
  {
    listed := [];
    var rest := ids;
    while rest != {}
      invariant rest <= ids && SetOf(listed) == ids - rest && NoDup(listed)
      decreases rest
    {
      var x :| x in rest;
      rest := rest - {x};
      SetOfPush(listed, x);
      listed := listed + [x];
    }
  }

  function Names(ids: seq<string>): set<string> { set id | id in ids }

  function SetOf(s: seq<nat>): set<nat> { set x | x in s }

  lemma {:induction false} SetOfPush(s: seq<nat>, x: nat)
    requires NoDup(s) && x !in SetOf(s)
    ensures NoDup(s + [x]) && SetOf(s + [x]) == SetOf(s) + {x}
  {
  }

  lemma {:induction false} SetOfSize(s: seq<nat>)
    requires NoDup(s)
    ensures |SetOf(s)| == |s|
  {
    if s != [] {
      SetOfSize(s[1..]);
      assert SetOf(s) == SetOf(s[1..]) + {s[0]};
    }
  }

  function DistanceFrom(p: Params, data: map<string, Vec>, names: map<nat, string>, v: Vec): nat -> real {
    n => if n in names && names[n] in data then -p.sim(v, data[names[n]]) else 0.0
  }

  /** The first m of the sorted list: m many, and none of the rest is nearer. */
  lemma {:induction false} PrunedOk(listed: seq<nat>, key: nat -> real, m: nat, all: set<nat>)
    requires NoDup(listed) && SetOf(listed) == all && m < |all|
    ensures m < |SortBy(listed, key)|
    ensures var kept := SetOf(SortBy(listed, key)[..m]);
            kept <= all && |kept| == m
            && (forall x, y :: x in kept && y in all - kept ==> key(x) <= key(y))
  {
    var sorted := SortBy(listed, key);
    SortByCorrect(listed, key);
    SortByMembers(listed, key);
    SetOfSize(listed);
    PermutedNoDup(listed, sorted);
    SetOfSize(sorted[..m]);
    forall x, y | x in sorted[..m] && y in all && y !in sorted[..m] ensures key(x) <= key(y) {
      var i :| 0 <= i < m && sorted[..m][i] == x;
      assert sorted == sorted[..m] + sorted[m..];
      assert y in sorted && y in sorted[m..];
      var j :| 0 <= j < |sorted| - m && sorted[m..][j] == y;
      assert sorted[m + j] == y;
    }
  }

  lemma {:induction false} NextId(neighbors: seq<Scored>, i: nat)
    requires i < |neighbors| && Distinct(neighbors)
    ensures neighbors[i].id !in NodeIds(neighbors[..i])
    ensures NodeIds(neighbors[..i + 1]) == NodeIds(neighbors[..i]) + {neighbors[i].id}
  {
    assert neighbors[..i + 1] == neighbors[..i] + [neighbors[i]];
    assert forall x :: x in neighbors[..i] ==> x.id != neighbors[i].id;
  }

  lemma {:induction false} LinkedMore(p: Params, g: Graph, between: Graph, vecs: seq<Vec>, layer: nat, node: nat,
                   done: set<nat>, b: nat, h: Graph)
    requires LinkedTo(p, g, vecs, layer, node, done, between) && b !in done && b != node
    requires node !in done
    requires Nbrs(h, layer, node) == Nbrs(between, layer, node) + {b}
    requires OthersSame(between, h, layer, node, b)
    requires RelinkOk(p, between, vecs, layer, node, b, h)
    ensures LinkedTo(p, g, vecs, layer, node, done + {b}, h)
    ensures forall l: nat :: l != layer && LayerSame(g, between, l) ==> LayerSame(g, h, l)
  {
    forall c | c in done ensures RelinkOk(p, g, vecs, layer, node, c, h) {
      assert RelinkOk(p, g, vecs, layer, node, c, between);
    }
  }

  lemma {:induction false} LinkedSame(p: Params, g: Graph, g': Graph, vecs: seq<Vec>, layer: nat, node: nat,
                   chosen: set<nat>, h: Graph)
    requires LinkedTo(p, g, vecs, layer, node, chosen, h) && LayerSame(g, g', layer)
    ensures LinkedTo(p, g', vecs, layer, node, chosen, h)
  {
    forall b | b in chosen ensures RelinkOk(p, g', vecs, layer, node, b, h) {
      assert RelinkOk(p, g, vecs, layer, node, b, h);
    }
  }

  /** A search only sees the edges of its own layer. */
  lemma {:induction false} FinishedSameLayer(sp: Space, sp': Space, k: Query, tr: Trace)
    requires Finished(sp, k, tr)
    requires sp.sim == sp'.sim && sp.vecs == sp'.vecs && LayerSame(sp.graph, sp'.graph, k.layer)
    ensures Finished(sp', k, tr)
  {
    forall t | 0 <= t < |tr.steps| ensures StepOk(sp', k, tr.order, tr.steps[t]) {
      StepOkSameLayer(sp, sp', k, tr.order, tr.steps[t]);
    }
    assert Scoring(sp', k, tr.order);
  }

  lemma {:induction false} StepOkSameLayer(sp: Space, sp': Space, k: Query, order: seq<Scored>, x: Step)
    requires StepOk(sp, k, order, x) && LayerSame(sp.graph, sp'.graph, k.layer)
    ensures StepOk(sp', k, order, x)
  {
    assert Nbrs(sp'.graph, k.layer, order[x.at].id) == Nbrs(sp.graph, k.layer, order[x.at].id);
  }

  lemma {:induction false} NeighborsOk(sp: Space, k: Query, tr: Trace, m: nat)
    requires Finished(sp, k, tr)
    ensures Distinct(Take(Pool(k, tr.order), m))
    ensures forall x :: x in Take(Pool(k, tr.order), m) ==> x.id < |sp.vecs|
  {
    PoolDistinct(sp, k, tr);
    TakeMembers(Pool(k, tr.order), m);
    forall x | x in Take(Pool(k, tr.order), m) ensures x.id < |sp.vecs| {
      PoolSound(sp, k, tr, x);
    }
  }

  lemma {:induction false} BestFinite(p: Params, a: Index, query: Vec, k: int, ef: Option<int>, ep: nat, tr: Trace)
    requires ep < |a.vecs| == |a.ids|
    requires Finished(SpaceOf(p, a), SearchQuery(p, a, query, ep, k, Effort(p, ef)), tr)
    ensures forall x :: x in Take(Pool(SearchQuery(p, a, query, ep, k, Effort(p, ef)), tr.order), k) ==>
              x.id < |a.ids| && x.dist.Fin?
  {
    var q := SearchQuery(p, a, query, ep, k, Effort(p, ef));
    TakeMembers(Pool(q, tr.order), k);
    forall x | x in Take(Pool(q, tr.order), k) ensures x.id < |a.ids| && x.dist.Fin? {
      PoolSound(SpaceOf(p, a), q, tr, x);
    }
  }
}
