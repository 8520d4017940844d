/** The index as a value, and what an insertion and a search may do to it.

    Node ids are handed out in insertion order, so node i of an `Index` is the i-th item
    inserted.  `Inserted` and `Searched` are relations: neighbour sets are iterated in an
    arbitrary order, pruning breaks ties arbitrarily and the level of a node is random. */
module HnswSpec {
  import opened Options
  import opened Scores
  import opened LayerSearch

  datatype Params = Params(dim: nat, sim: (Vec, Vec) -> real, m: nat, ef: int, maxM: nat)

  datatype Index = Index(ids: seq<string>, vecs: seq<Vec>, levels: seq<nat>, graph: Graph,
                         entry: Option<nat>)

  const EMPTY := Index([], [], [], map[], None)

  datatype Item = Item(id: string, vec: Vec, level: nat)

  datatype Hit = Hit(id: string, similarity: real)

  function Cap(p: Params, layer: nat): nat { if layer > 0 then p.m else p.maxM * 2 }

  function SpaceOf(p: Params, a: Index): Space { Space(p.sim, a.vecs, a.graph) }

  /** An edge joins two different nodes that both reach its layer. */
  ghost predicate EdgeOk(levels: seq<nat>, l: nat, x: nat, y: nat) {
    x < |levels| && y < |levels| && x != y && l <= levels[x] && l <= levels[y]
  }

  ghost predicate EdgesOk(g: Graph, levels: seq<nat>) {
    forall l: nat, x: nat, y: nat {:trigger y in Nbrs(g, l, x)} ::
      y in Nbrs(g, l, x) ==> EdgeOk(levels, l, x, y)
  }

  ghost predicate DegreesOk(p: Params, g: Graph) {
    forall l: nat, x: nat :: |Nbrs(g, l, x)| <= Cap(p, l)
  }

  ghost predicate EntryOk(a: Index) {
    match a.entry
    case None => |a.levels| == 0
    case Some(ep) =>
      ep < |a.levels| && forall i :: 0 <= i < |a.levels| ==> a.levels[i] <= a.levels[ep]
  }

  ghost predicate WellFormed(p: Params, a: Index) {
    && |a.ids| == |a.vecs| == |a.levels|
    && (forall i, j :: 0 <= i < j < |a.ids| ==> a.ids[i] != a.ids[j])
    && (forall i :: 0 <= i < |a.vecs| ==> |a.vecs[i]| == p.dim)
    && EntryOk(a)
    && EdgesOk(a.graph, a.levels)
    && DegreesOk(p, a.graph)
  }

  // ----- Insertion -----

  function Take<T>(s: seq<T>, k: int): seq<T> {
    if k <= 0 then [] else if k < |s| then s[..k] else s
  }

  function NodeIds(s: seq<Scored>): set<nat> { set x | x in s :: x.id }

  /** The search that an insertion runs on one layer: the entry point is infinitely far. */
  function InsertQuery(p: Params, vec: Vec, layer: nat, ep: nat): Query {
    Query(vec, layer, [Scored(PosInf, ep)], p.ef)
  }

  /** `kept` is what pruning may leave of `full`: all of it when it fits, else cap many,
      none of them farther from the node than one that was dropped. */
  ghost predicate Pruned(p: Params, vecs: seq<Vec>, node: nat, full: set<nat>, cap: nat, kept: set<nat>)
    requires node < |vecs| && forall x :: x in full ==> x < |vecs|
  {
    && kept <= full
    && |kept| == Min(|full|, cap)
    && (forall x, y :: x in kept && y in full - kept ==>
          p.sim(vecs[node], vecs[y]) <= p.sim(vecs[node], vecs[x]))
  }

  ghost predicate LinkedTo(p: Params, g: Graph, vecs: seq<Vec>, layer: nat, node: nat,
                           chosen: set<nat>, h: Graph)
  {
    && Nbrs(h, layer, node) == chosen
    && (forall b :: b in chosen ==> RelinkOk(p, g, vecs, layer, node, b, h))
    && (forall b :: b !in chosen && b != node ==> Nbrs(h, layer, b) == Nbrs(g, layer, b))
  }

  /** What the edge to a new node does to the neighbours of its other end. */
  ghost predicate RelinkOk(p: Params, g: Graph, vecs: seq<Vec>, layer: nat, node: nat, b: nat, h: Graph) {
    && b < |vecs|
    && (forall x :: x in Nbrs(g, layer, b) + {node} ==> x < |vecs|)
    && Pruned(p, vecs, b, Nbrs(g, layer, b) + {node}, Cap(p, layer), Nbrs(h, layer, b))
  }

  ghost predicate LinkedVia(p: Params, a: Index, vec: Vec, layer: nat, ep: nat, h: Graph, tr: Trace) {
    var k := InsertQuery(p, vec, layer, ep);
    && Finished(SpaceOf(p, a), k, tr)
    && LinkedTo(p, a.graph, a.vecs + [vec], layer, |a.vecs|,
                NodeIds(Take(Pool(k, tr.order), Cap(p, layer))), h)
  }

  ghost predicate LayerLinked(p: Params, a: Index, vec: Vec, layer: nat, ep: nat, h: Graph) {
    exists tr :: LinkedVia(p, a, vec, layer, ep, h, tr)
  }

  ghost predicate LayerSame(g: Graph, h: Graph, layer: nat) {
    forall x :: Nbrs(h, layer, x) == Nbrs(g, layer, x)
  }

  ghost predicate Rewired(p: Params, a: Index, vec: Vec, ep: nat, top: int, h: Graph) {
    && (forall l :: 0 <= l <= top ==> LayerLinked(p, a, vec, l, ep, h))
    && (forall l: nat :: top < l ==> LayerSame(a.graph, h, l))
  }

  ghost predicate Inserted(p: Params, a: Index, it: Item, b: Index) {
    && it.id !in a.ids && |it.vec| == p.dim
    && b.ids == a.ids + [it.id] && b.vecs == a.vecs + [it.vec] && b.levels == a.levels + [it.level]
    && match a.entry {
       case None => b.graph == a.graph && b.entry == Some(|a.ids|)
       case Some(ep) =>
         && ep < |a.levels|
         && Rewired(p, a, it.vec, ep, Min(it.level, a.levels[ep]), b.graph)
         && b.entry == if it.level > a.levels[ep] then Some(|a.ids|) else a.entry
    }
  }

  // ----- Search -----

  function Report(a: Index, pool: seq<Scored>): (r: seq<Hit>)
    requires forall x :: x in pool ==> x.id < |a.ids| && x.dist.Fin?
    ensures |r| == |pool|
  {
    seq(|pool|, i requires 0 <= i < |pool| => Hit(a.ids[pool[i].id], -pool[i].dist.value))
  }

  function SearchQuery(p: Params, a: Index, target: Vec, ep: nat, k: int, ef: int): Query
    requires ep < |a.vecs|
  {
    Query(target, 0, [Scored(Distance(SpaceOf(p, a), target, ep), ep)], Max(ef, k))
  }

  /** `ef or self.ef`: an absent or zero argument means the default. */
  function Effort(p: Params, ef: Option<int>): int {
    if ef.None? || ef.value == 0 then p.ef else ef.value
  }

  ghost predicate Searched(p: Params, a: Index, target: Vec, k: int, ef: Option<int>, res: seq<Hit>) {
    match a.entry
    case None => res == []
    case Some(ep) => ep < |a.vecs| && exists tr :: SearchedVia(p, a, target, k, ef, ep, res, tr)
  }

  ghost predicate SearchedVia(p: Params, a: Index, target: Vec, k: int, ef: Option<int>, ep: nat,
                              res: seq<Hit>, tr: Trace)
    requires ep < |a.vecs|
  {
    var query := SearchQuery(p, a, target, ep, k, Effort(p, ef));
    var best := Take(Pool(query, tr.order), k);
    && Finished(SpaceOf(p, a), query, tr)
    && (forall x :: x in best ==> x.id < |a.ids| && x.dist.Fin?)
    && res == Report(a, best)
  }
}
