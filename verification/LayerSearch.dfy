/** What one search of one layer does, stated as a log of what it discovered.

    A set of neighbours is visited in an arbitrary order, so a search is a relation: a
    `Trace` records the nodes in the order in which they were discovered and one `Step`
    for every node that was expanded.  `Finished` says which traces a search can leave
    behind; the pool it returns is `Pool`. */
module LayerSearch {
  import opened Scores

  type Vec = seq<real>

  /** The neighbours of a node at a layer; an absent key has no neighbours. */
  type Graph = map<(nat, nat), set<nat>>

  function Nbrs(g: Graph, layer: nat, node: nat): set<nat> {
    if (layer, node) in g then g[(layer, node)] else {}
  }

  datatype Space = Space(sim: (Vec, Vec) -> real, vecs: seq<Vec>, graph: Graph)

  datatype Query = Query(target: Vec, layer: nat, entries: seq<Scored>, ef: int)

  datatype Step = Step(at: nat, done: set<nat>, before: nat, after: nat)

  datatype Trace = Trace(order: seq<Scored>, steps: seq<Step>)

  function Distance(sp: Space, target: Vec, id: nat): Dist
    requires id < |sp.vecs|
  {
    Fin(-sp.sim(target, sp.vecs[id]))
  }

  function Max(a: int, b: int): int { if a < b then b else a }

  function Min(a: int, b: int): int { if a < b then a else b }

  /** The size of the pool once `found` nodes have been discovered. */
  function PoolSize(k: Query, found: nat): nat { Min(found, Max(k.ef, |k.entries|)) }

  /** The pool: the nodes discovered first, in ascending order. */
  function Pool(k: Query, order: seq<Scored>): (w: seq<Scored>)
    ensures |w| == PoolSize(k, |order|)
  {
    Sort(order[..PoolSize(k, |order|)])
  }

  /** Was the i-th discovered node put on the queue of nodes to expand? */
  ghost predicate Queued(k: Query, order: seq<Scored>, i: int)
    requires 0 <= i < |order|
  {
    || i < |k.entries|
    || PoolSize(k, i) < k.ef
    || forall j :: 0 <= j < PoolSize(k, i) ==> Closer(order[i].dist, order[j].dist)
  }

  ghost predicate Waiting(k: Query, order: seq<Scored>, found: nat, done: set<nat>, i: int) {
    0 <= i < found <= |order| && i !in done && Queued(k, order, i)
  }

  /** The waiting node that is popped next: the farthest one. */
  ghost predicate Farthest(k: Query, order: seq<Scored>, found: nat, done: set<nat>, at: int) {
    && Waiting(k, order, found, done, at)
    && (forall i :: Waiting(k, order, found, done, i) ==> !Before(Flip(order[i]), Flip(order[at])))
  }

  ghost predicate Distinct(order: seq<Scored>) {
    forall i, j :: 0 <= i < j < |order| ==> order[i].id != order[j].id
  }

  ghost predicate Scoring(sp: Space, k: Query, order: seq<Scored>) {
    && k.entries <= order
    && Distinct(order)
    && (forall i :: 0 <= i < |order| ==> order[i].id < |sp.vecs|)
    && (forall i :: |k.entries| <= i < |order| ==>
          order[i].id < |sp.vecs| && order[i].dist == Distance(sp, k.target, order[i].id))
  }

  /** The node at `at` was the farthest one waiting and no farther than the nearest of the
      pool; exactly its undiscovered neighbours came next. */
  ghost predicate StepOk(sp: Space, k: Query, order: seq<Scored>, x: Step) {
    && x.before <= x.after <= |order|
    && Farthest(k, order, x.before, x.done, x.at)
    && (forall j :: 0 <= j < PoolSize(k, x.before) ==> !Closer(order[j].dist, order[x.at].dist))
    && (forall i :: x.before <= i < x.after ==>
          order[i].id in Nbrs(sp.graph, k.layer, order[x.at].id))
    && (forall n :: n in Nbrs(sp.graph, k.layer, order[x.at].id) ==> Found(order, x.after, n))
  }

  ghost predicate Found(order: seq<Scored>, upTo: nat, n: nat) {
    exists i :: 0 <= i < upTo <= |order| && order[i].id == n
  }

  function FoundBy(k: Query, steps: seq<Step>): nat {
    if steps == [] then |k.entries| else steps[|steps| - 1].after
  }

  function DoneBy(steps: seq<Step>): set<nat> {
    if steps == [] then {} else steps[|steps| - 1].done + {steps[|steps| - 1].at}
  }

  ghost predicate ChainedAt(k: Query, steps: seq<Step>, t: int)
    requires 0 <= t < |steps|
  {
    steps[t].before == FoundBy(k, steps[..t]) && steps[t].done == DoneBy(steps[..t])
  }

  ghost predicate Chained(k: Query, steps: seq<Step>) {
    forall t :: 0 <= t < |steps| ==> ChainedAt(k, steps, t)
  }

  ghost predicate Running(sp: Space, k: Query, tr: Trace) {
    && Scoring(sp, k, tr.order)
    && Chained(k, tr.steps)
    && FoundBy(k, tr.steps) == |tr.order|
    && (forall t :: 0 <= t < |tr.steps| ==> StepOk(sp, k, tr.order, tr.steps[t]))
  }

  /** Nothing waits any more, or some waiting node is farther than a node of the pool. */
  ghost predicate Stopped(k: Query, tr: Trace) {
    || (forall i :: !Waiting(k, tr.order, |tr.order|, DoneBy(tr.steps), i))
    || (exists i, j :: Waiting(k, tr.order, |tr.order|, DoneBy(tr.steps), i)
          && 0 <= j < PoolSize(k, |tr.order|) && Closer(tr.order[j].dist, tr.order[i].dist))
  }

  ghost predicate Finished(sp: Space, k: Query, tr: Trace) {
    Running(sp, k, tr) && Stopped(k, tr)
  }

  /** The pool of some finished search. */
  ghost predicate IsPool(sp: Space, k: Query, w: seq<Scored>) {
    exists tr :: Finished(sp, k, tr) && w == Pool(k, tr.order)
  }

  // ----- The data structures of a running search -----

  ghost predicate StrictlySorted(s: seq<Scored>) {
    forall i, j :: 0 <= i < j < |s| ==> Before(s[i], s[j])
  }

  ghost predicate QueueOk(k: Query, order: seq<Scored>, done: set<nat>, cands: seq<Scored>) {
    && StrictlySorted(cands)
    && (forall i :: Waiting(k, order, |order|, done, i) ==> Flip(order[i]) in cands)
    && (forall c :: c in cands ==> Holder(k, order, done, c))
  }

  ghost predicate Holder(k: Query, order: seq<Scored>, done: set<nat>, c: Scored) {
    exists i :: Waiting(k, order, |order|, done, i) && Flip(order[i]) == c
  }

  ghost predicate VisitedOk(order: seq<Scored>, visited: set<nat>) {
    && (forall i :: 0 <= i < |order| ==> order[i].id in visited)
    && (forall n :: n in visited ==> Found(order, |order|, n))
  }

  lemma {:induction false} InsertMembers(s: seq<Scored>, x: Scored)
    ensures forall y :: y in Push(s, x) <==> y in s || y == x
  {
    InsertMultiset(s, x);
    forall y ensures y in Push(s, x) <==> y in s || y == x {
      assert y in Push(s, x) <==> y in multiset(Push(s, x));
      assert y in s <==> y in multiset(s);
    }
  }

  lemma {:induction false} InsertStrictly(s: seq<Scored>, x: Scored)
    requires StrictlySorted(s) && x !in s
    ensures StrictlySorted(Push(s, x))
  {
    if s == [] || Before(x, s[0]) {
    } else {
      InsertStrictly(s[1..], x);
      InsertMembers(s[1..], x);
      var t := Push(s[1..], x);
      forall j | 0 <= j < |t| ensures Before(s[0], t[j]) {
        assert t[j] in t;
      }
    }
  }

  lemma {:induction false} QueuedPrefix(k: Query, order: seq<Scored>, longer: seq<Scored>, i: int)
    requires order <= longer && 0 <= i < |order|
    ensures Queued(k, order, i) <==> Queued(k, longer, i)
  {
    assert forall j :: 0 <= j < |order| ==> order[j] == longer[j];
  }

  lemma {:induction false} WaitingPrefix(k: Query, order: seq<Scored>, longer: seq<Scored>, found: nat, done: set<nat>)
    requires order <= longer && found <= |order|
    ensures forall i :: Waiting(k, order, found, done, i) <==> Waiting(k, longer, found, done, i)
  {
    forall i: nat | i < found ensures Queued(k, order, i) <==> Queued(k, longer, i) {
      QueuedPrefix(k, order, longer, i);
    }
  }

  /** The pool after one more discovery, computed as the code does: push, then drop the
      head when the pool has grown past ef.  What is dropped is what was just pushed. */
  function Entered(k: Query, w: seq<Scored>, x: Scored): seq<Scored> {
    var pushed := Push(w, x);
    if |pushed| > k.ef then pushed[1..] else pushed
  }

  lemma {:induction false} PushPool(k: Query, order: seq<Scored>, x: Scored, w: seq<Scored>)
    requires 0 < |k.entries| <= |order| && w == Pool(k, order)
    ensures w != []
    ensures (Closer(x.dist, w[0].dist) || |w| < k.ef) <==> Queued(k, order + [x], |order|)
    ensures Pool(k, order + [x]) ==
            if Closer(x.dist, w[0].dist) || |w| < k.ef then Entered(k, w, x) else w
  {
    var c := PoolSize(k, |order|);
    var first := order[..c];
    HeadIsNearest(first);
    var longer := order + [x];
    NearerThanAll(k, order, x, w);
    if c < PoolSize(k, |longer|) {
      assert longer[..c + 1] == first + [x];
      SortPush(first, x);
    } else {
      assert longer[..c] == first;
      if Closer(x.dist, w[0].dist) { InsertNearest(w, x); }
    }
  }

  lemma {:induction false} NearerThanAll(k: Query, order: seq<Scored>, x: Scored, w: seq<Scored>)
    requires 0 < |k.entries| <= |order| && w == Pool(k, order)
    ensures (Closer(x.dist, w[0].dist) || |w| < k.ef) <==> Queued(k, order + [x], |order|)
  {
    var c := PoolSize(k, |order|);
    var longer := order + [x];
    HeadIsNearest(order[..c]);
    var h :| 0 <= h < c && order[..c][h] == w[0];
    assert order[h] == w[0];
    forall j | 0 <= j < c
      ensures longer[j] == order[j] && !Closer(order[j].dist, w[0].dist)
    {
      assert order[..c][j] == order[j];
    }
    assert longer[|order|] == x;
  }

  lemma {:induction false} PushQueue(k: Query, order: seq<Scored>, done: set<nat>, cands: seq<Scored>, x: Scored)
    requires QueueOk(k, order, done, cands) && Distinct(order + [x])
    requires forall i :: i in done ==> i < |order|
    ensures QueueOk(k, order + [x], done,
                    if Queued(k, order + [x], |order|) then Push(cands, Flip(x)) else cands)
  {
    var longer := order + [x];
    var c' := if Queued(k, longer, |order|) then Push(cands, Flip(x)) else cands;
    WaitingPrefix(k, order, longer, |order|, done);
    InsertMembers(cands, Flip(x));
    forall c | c in cands ensures c.id != x.id {
      var i :| Waiting(k, order, |order|, done, i) && Flip(order[i]) == c;
      assert longer[i].id != longer[|order|].id;
    }
    InsertStrictly(cands, Flip(x));
    forall i | Waiting(k, longer, |longer|, done, i) ensures Flip(longer[i]) in c' {
      if i < |order| { assert Waiting(k, order, |order|, done, i); }
    }
    forall c | c in c' ensures Holder(k, longer, done, c) {
      if c in cands {
        var i :| Waiting(k, order, |order|, done, i) && Flip(order[i]) == c;
        assert Waiting(k, longer, |longer|, done, i) && Flip(longer[i]) == c;
      } else {
        assert Waiting(k, longer, |longer|, done, |order|) && Flip(longer[|order|]) == c;
      }
    }
  }

  lemma {:induction false} PopQueue(k: Query, order: seq<Scored>, done: set<nat>, cands: seq<Scored>) returns (at: nat)
    requires QueueOk(k, order, done, cands) && cands != [] && Distinct(order)
    ensures Farthest(k, order, |order|, done, at) && Flip(order[at]) == cands[0]
    ensures QueueOk(k, order, done + {at}, cands[1..])
  {
    assert cands[0] in cands;
    at :| Waiting(k, order, |order|, done, at) && Flip(order[at]) == cands[0];
    forall i | Waiting(k, order, |order|, done, i)
      ensures !Before(Flip(order[i]), Flip(order[at]))
    {
      var j :| 0 <= j < |cands| && cands[j] == Flip(order[i]);
    }
    forall i | Waiting(k, order, |order|, done + {at}, i) ensures Flip(order[i]) in cands[1..] {
      assert Waiting(k, order, |order|, done, i);
      var j :| 0 <= j < |cands| && cands[j] == Flip(order[i]);
      assert order[i].id != order[at].id;
      assert cands[1..][j - 1] == Flip(order[i]);
    }
    forall c | c in cands[1..] ensures Holder(k, order, done + {at}, c) {
      var j :| 0 <= j < |cands| - 1 && cands[1..][j] == c;
      assert c == cands[j + 1] && Before(cands[0], cands[j + 1]);
      assert Holder(k, order, done, cands[j + 1]);
      var i :| Waiting(k, order, |order|, done, i) && Flip(order[i]) == c;
      assert Waiting(k, order, |order|, done + {at}, i);
    }
  }

  lemma {:induction false} StepOkPrefix(sp: Space, k: Query, order: seq<Scored>, longer: seq<Scored>, x: Step)
    requires order <= longer && StepOk(sp, k, order, x)
    ensures StepOk(sp, k, longer, x)
  {
    WaitingPrefix(k, order, longer, x.before, x.done);
    assert forall j :: 0 <= j < |order| ==> order[j] == longer[j];
    forall n | n in Nbrs(sp.graph, k.layer, longer[x.at].id) ensures Found(longer, x.after, n) {
      var i :| 0 <= i < x.after <= |order| && order[i].id == n;
      assert longer[i].id == n;
    }
  }

  lemma {:induction false} AddStep(sp: Space, k: Query, tr: Trace, longer: seq<Scored>, x: Step)
    requires Running(sp, k, tr) && tr.order <= longer
    requires Scoring(sp, k, longer) && StepOk(sp, k, longer, x)
    requires x.before == |tr.order| && x.after == |longer| && x.done == DoneBy(tr.steps)
    ensures Running(sp, k, Trace(longer, tr.steps + [x]))
  {
    var steps := tr.steps + [x];
    forall t | 0 <= t < |steps|
      ensures ChainedAt(k, steps, t)
      ensures StepOk(sp, k, longer, steps[t])
    {
      if t < |tr.steps| {
        assert ChainedAt(k, tr.steps, t);
        assert steps[..t] == tr.steps[..t];
        StepOkPrefix(sp, k, tr.order, longer, tr.steps[t]);
      } else {
        assert steps[..t] == tr.steps;
      }
    }
  }
}
