/** The index itself, built to the bound of small-index exactness and one item beyond it. */
module TightInput {
  import opened Options
  import opened L1Spec
  import opened LayerSearch
  import opened HnswSpec
  import opened HnswTheorems
  import opened EntryTheorems
  import opened Hnsw
  import OverFetchInput

  const TARGET: Vec := [1.0]

  /** The item of similarity n to the target. */
  function Nth(n: nat): Item { Item(Decimal(n), [n as real], 0) }

  function Line(n: nat): seq<Item> { if n == 0 then [] else Line(n - 1) + [Nth(n - 1)] }

  lemma {:induction false} LineAt(n: nat, i: nat)
    requires i < n
    ensures |Line(n)| == n && Line(n)[i] == Nth(i)
  {
    if i < n - 1 { LineAt(n - 1, i); } else if n > 1 { LineAt(n - 1, 0); }
  }

  lemma {:induction false} LineSize(n: nat)
    ensures |Line(n)| == n
  {
    if n > 0 { LineAt(n, 0); }
  }

  lemma {:induction false} NextIsNew(n: nat, a: Index)
    requires Holds(Line(n), a)
    ensures Nth(n).id !in a.ids && |a.ids| == n
  {
    LineSize(n);
    forall i | 0 <= i < |a.ids| ensures a.ids[i] != Decimal(n) {
      LineAt(n, i);
      if Decimal(i) == Decimal(n) { DecimalInjective(i, n); }
    }
  }

  method AddNext(index: HnswIndex, n: nat)
    requires index.Valid() && index.p.dim == 1 && Built(index.p, Line(n), index.view)
    modifies index
    ensures index.Valid() && Inserted(index.p, old(index.view), Nth(n), index.view)
    ensures Built(index.p, Line(n + 1), index.view)
  {
    ghost var before := index.view;
    BuiltWellFormed(index.p, Line(n), before);
    NextIsNew(n, before);
    var r := index.Insert(Decimal(n), [n as real], map[], 0);
    assert Line(n + 1)[..|Line(n + 1)| - 1] == Line(n);
    assert LastStep(index.p, Line(n + 1), before, index.view);
  }

  method BuildLine(p: Params, n: nat) returns (index: HnswIndex)
    requires p.dim == 1
    ensures fresh(index) && index.p == p && index.Valid() && Built(p, Line(n), index.view)
  {
    if n == 0 {
      index := new HnswIndex(p);
    } else {
      index := BuildLine(p, n - 1);
      AddNext(index, n - 1);
    }
  }

  lemma {:induction false} LineSimilarity(p: Params, n: nat, a: Index, i: nat)
    requires p.sim == OverFetchInput.FirstProduct && Holds(Line(n), a) && i < n
    ensures |a.vecs| == |a.levels| == n && a.levels[i] == 0 && p.sim(TARGET, a.vecs[i]) == i as real
  {
    LineAt(n, i);
  }

  lemma {:induction false} LineDiscerns(p: Params, maxM: nat, a: Index)
    requires p.sim == OverFetchInput.FirstProduct && WellFormed(p, a) && Holds(Line(maxM * 2 + 1), a)
    ensures Discerning(p, a, TARGET)
  {
    LineSize(maxM * 2 + 1);
    if maxM > 0 {
      var x := if a.entry == Some(0) then 1 else 0;
      LineSimilarity(p, maxM * 2 + 1, a, x);
      LineSimilarity(p, maxM * 2 + 1, a, x + 1);
      assert LessSimilar(p, a, TARGET, x, x + 1);
    }
  }

  /** The searches of a for the best item and of b after one more insertion. */
  ghost predicate Observed(p: Params, a: Index, b: Index, within: seq<Hit>, beyond: seq<Hit>) {
    && Built(p, Line(p.maxM * 2 + 1), a) && Inserted(p, a, Nth(p.maxM * 2 + 1), b)
    && Searched(p, a, TARGET, 1, None, within) && Searched(p, b, TARGET, 1, None, beyond)
  }

  /** The bound is tight for every max_m and every m: searching 2*max_m + 1 items is the scan,
      and with the next item, the most similar of all, it is not. */
  method OneTooMany(p: Params) returns (index: HnswIndex, within: seq<Hit>, beyond: seq<Hit>, ghost a: Index)
    requires p.dim == 1 && p.sim == OverFetchInput.FirstProduct && p.maxM * 2 < p.ef
    ensures index.Valid() && index.p == p && Observed(p, a, index.view, within, beyond)
    ensures |a.ids| == |a.vecs| == p.maxM * 2 + 1 && |index.view.ids| == |index.view.vecs|
    ensures within == Scan(p, a, TARGET, 1) && beyond != Scan(p, index.view, TARGET, 1)
  {
    index := BuildLine(p, p.maxM * 2 + 1);
    a := index.view;
    within := SearchBest(index);
    AddNext(index, p.maxM * 2 + 1);
    beyond := SearchBest(index);
    WithinBound(p, a, index.view, within, beyond);
    BeyondBound(p, a, index.view, within, beyond);
  }

  method SearchBest(index: HnswIndex) returns (best: seq<Hit>)
    requires index.Valid() && index.p.dim == 1
    ensures Searched(index.p, index.view, TARGET, 1, None, best)
  {
    var found := index.Search(TARGET, 1, None);
    best := found.value;
  }

  lemma {:induction false} WithinBound(p: Params, a: Index, b: Index, within: seq<Hit>, beyond: seq<Hit>)
    requires p.maxM * 2 < p.ef && Observed(p, a, b, within, beyond)
    ensures |a.ids| == |a.vecs| == p.maxM * 2 + 1 && within == Scan(p, a, TARGET, 1)
  {
    LineSize(p.maxM * 2 + 1);
    BuiltWellFormed(p, Line(p.maxM * 2 + 1), a);
    SmallIndexExact(p, Line(p.maxM * 2 + 1), a, TARGET, 1, within);
  }

  lemma {:induction false} NextIsBest(p: Params, n: nat, a: Index)
    requires p.sim == OverFetchInput.FirstProduct && WellFormed(p, a) && Holds(Line(n), a) && n > 0
    ensures a.entry.Some? && a.entry.value < |a.levels| && a.levels[a.entry.value] == 0
    ensures forall i :: 0 <= i < |a.vecs| ==> p.sim(TARGET, a.vecs[i]) < p.sim(TARGET, Nth(n).vec)
  {
    LineSize(n);
    forall i | 0 <= i < |a.vecs| ensures p.sim(TARGET, a.vecs[i]) < p.sim(TARGET, Nth(n).vec) {
      LineSimilarity(p, n, a, i);
    }
    LineSimilarity(p, n, a, a.entry.value);
  }

  lemma {:induction false} BeyondBound(p: Params, a: Index, b: Index, within: seq<Hit>, beyond: seq<Hit>)
    requires p.sim == OverFetchInput.FirstProduct && p.maxM * 2 < p.ef && Observed(p, a, b, within, beyond)
    ensures |b.ids| == |b.vecs| && beyond != Scan(p, b, TARGET, 1)
  {
    var n := p.maxM * 2 + 1;
    LineSize(n);
    BuiltWellFormed(p, Line(n), a);
    LineDiscerns(p, p.maxM, a);
    NextIsBest(p, n, a);
    BoundIsTight(p, Line(n), a, Nth(n), b, TARGET, 1, beyond);
  }
}
