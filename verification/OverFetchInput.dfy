/** An index that the manager builds itself, on which over-fetching by two loses the best
    eligible item. */
module OverFetchInput {
  import opened Options
  import opened Sequences
  import opened Dicts
  import opened Scores
  import opened LayerSearch
  import opened HnswSpec
  import opened HnswTheorems
  import opened IndexSpec
  import opened IndexManager

  function FirstProduct(x: Vec, y: Vec): real { if x == [] || y == [] then 0.0 else x[0] * y[0] }

  const DEFAULTS := Params(1, FirstProduct, 16, 200, 48)
  const TARGET: Vec := [1.0]

  /** Three items in descending similarity to the target. */
  ghost predicate Three(a: Index) {
    a.ids == ["a", "b", "c"] && a.vecs == [[3.0], [2.0], [1.0]]
  }

  const NEAREST_FIRST := [Scored(Fin(-3.0), 0), Scored(Fin(-2.0), 1), Scored(Fin(-1.0), 2)]

  lemma {:induction false} RankedThree(vecs: seq<Vec>, x: Scored)
    requires vecs == [[3.0], [2.0], [1.0]]
    ensures x in NEAREST_FIRST <==> x in Ranking(DEFAULTS, vecs, TARGET)
  {
    InRanking(DEFAULTS, vecs, TARGET, x);
    assert FirstProduct(TARGET, [3.0]) == 3.0 && FirstProduct(TARGET, [2.0]) == 2.0 && FirstProduct(TARGET, [1.0]) == 1.0;
    if x.id < 3 { assert x.id == 0 || x.id == 1 || x.id == 2; }
  }

  lemma {:induction false} OrderedRanking(vecs: seq<Vec>)
    ensures Sorted(NEAREST_FIRST) && Distinct(NEAREST_FIRST)
    ensures Sorted(Ranking(DEFAULTS, vecs, TARGET)) && Distinct(Ranking(DEFAULTS, vecs, TARGET))
  {
    RankingMembers(DEFAULTS, vecs, TARGET);
  }

  lemma {:induction false} ScanOfThree(a: Index)
    requires Three(a)
    ensures FullScan(DEFAULTS, a, TARGET) == SCAN
  {
    OrderedRanking(a.vecs);
    forall x ensures x in NEAREST_FIRST <==> x in Ranking(DEFAULTS, a.vecs, TARGET) { RankedThree(a.vecs, x); }
    SameList(NEAREST_FIRST, Ranking(DEFAULTS, a.vecs, TARGET));
  }

  const SCAN := [Hit("a", 3.0), Hit("b", 2.0), Hit("c", 1.0)]

  /** Only the third is still live. */
  predicate OnlyThird(entries: Entries) {
    "a" !in entries.vals && "b" !in entries.vals && "c" in entries.vals
  }

  lemma {:induction false} TwoMisses(entries: Entries)
    requires OnlyThird(entries)
    ensures Misses(Take(SCAN, 2), entries, None) == 2 && Keep(Take(SCAN, 2), entries, 0.5, None) == []
    ensures Keep(Unseen(SCAN, 2), entries, 0.5, None) == [Match(entries.vals["c"].itemId, 1.0, entries.vals["c"])]
  {
    var two := [Hit("a", 3.0), Hit("b", 2.0)];
    assert Take(SCAN, 2) == two && two[1..] == [Hit("b", 2.0)] && two[1..][1..] == [];
    assert Misses(two[1..], entries, None) == 1 && Keep(two[1..], entries, 0.5, None) == [];
    assert Unseen(SCAN, 2) == [Hit("c", 1.0)] && [Hit("c", 1.0)][1..] == [];
  }

  lemma {:induction false} ThirdKept(entries: Entries)
    requires OnlyThird(entries)
    ensures Keep(SCAN, entries, 0.5, None) == [Match(entries.vals["c"].itemId, 1.0, entries.vals["c"])]
  {
    TwoMisses(entries);
    KeepConcat([Hit("a", 3.0), Hit("b", 2.0)], Unseen(SCAN, 2), entries, 0.5, None);
    assert SCAN == Take(SCAN, 2) + Unseen(SCAN, 2) && Take(SCAN, 2) == [Hit("a", 3.0), Hit("b", 2.0)];
  }

  /** With two of the three deleted, the search for one result finds nothing, although the
      third is eligible and above the threshold. */
  lemma {:induction false} TwoMissesLose(items: seq<Item>, a: Index, entries: Entries, r: seq<Match>)
    requires Built(DEFAULTS, items, a) && |items| == 3 && Three(a) && OnlyThird(entries)
    requires Retrieved(DEFAULTS, a, entries, TARGET, 1, 0.5, None, r)
    ensures FullScan(DEFAULTS, a, TARGET) == SCAN
    ensures r == [] && r != Take(Keep(SCAN, entries, 0.5, None), 1)
    ensures Take(Keep(SCAN, entries, 0.5, None), 1) == [Match(entries.vals["c"].itemId, 1.0, entries.vals["c"])]
  {
    ScanOfThree(a);
    ThirdKept(entries);
    NothingKept(items, a, entries, r);
  }

  lemma {:induction false} NothingKept(items: seq<Item>, a: Index, entries: Entries, r: seq<Match>)
    requires Built(DEFAULTS, items, a) && |items| == 3 && Three(a) && OnlyThird(entries)
    requires Retrieved(DEFAULTS, a, entries, TARGET, 1, 0.5, None, r)
    ensures r == []
  {
    var raw :| Searched(DEFAULTS, a, TARGET, 2, None, raw) && r == Take(Keep(raw, entries, 0.5, None), 1);
    SmallRaw(DEFAULTS, items, a, TARGET, 2, raw);
    ScanOfThree(a);
    TwoMisses(entries);
  }

  /** What the manager holds. */
  ghost predicate Has(manager: UnifiedIndexManager, ids: seq<string>, vecs: seq<Vec>)
    reads manager, manager.index
  {
    && manager.Valid() && manager.config == DEFAULTS && |manager.items| == |ids|
    && manager.index.view.ids == ids && manager.index.view.vecs == vecs
    && (forall id :: id in ids ==> id in manager.entries.vals)
  }

  /** A manager that holds these items, added in this order. */
  method BuildItems(norm: string -> string, ids: seq<string>, xs: seq<real>) returns (manager: UnifiedIndexManager)
    requires NoDup(ids) && |ids| == |xs|
    ensures fresh(manager) && fresh(manager.index)
    ensures Has(manager, ids, Singles(xs))
  {
    if ids == [] {
      manager := Start(norm);
    } else {
      var n := |ids| - 1;
      manager := BuildItems(norm, ids[..n], xs[..n]);
      Split(ids, xs);
      AddItem(manager, ids[..n], Singles(xs[..n]), ids[n], xs[n]);
    }
  }

  function Singles(xs: seq<real>): (r: seq<Vec>)
    ensures |r| == |xs|
  {
    if xs == [] then [] else Singles(xs[..|xs| - 1]) + [[xs[|xs| - 1]]]
  }

  lemma {:induction false} Split(ids: seq<string>, xs: seq<real>)
    requires NoDup(ids) && ids != [] && |ids| == |xs|
    ensures ids[|ids| - 1] !in ids[..|ids| - 1] && ids == ids[..|ids| - 1] + [ids[|ids| - 1]]
    ensures Singles(xs) == Singles(xs[..|xs| - 1]) + [[xs[|xs| - 1]]]
  {
  }

  method AddItem(manager: UnifiedIndexManager, ids: seq<string>, vecs: seq<Vec>, id: string, x: real)
    requires Has(manager, ids, vecs) && id !in ids
    modifies manager, manager.index
    ensures manager.index == old(manager.index)
    ensures Has(manager, ids + [id], vecs + [[x]])
  {
    var _ := manager.Add(id, [x], id, None, "general", 0.0, 0);
  }

  method Start(norm: string -> string) returns (manager: UnifiedIndexManager)
    ensures fresh(manager) && fresh(manager.index) && Has(manager, [], [])
  {
    manager := new UnifiedIndexManager(DEFAULTS, norm, map[]);
  }

  /** The list "a", "b", "c" of similarities 3, 2, 1, on the manager itself, and the search
      after "a" and "b" were deleted. */
  method LoseTheBest(norm: string -> string) returns (manager: UnifiedIndexManager, results: seq<Match>)
    ensures manager.Valid() && Three(manager.index.view) && OnlyThird(manager.entries)
    ensures FullScan(DEFAULTS, manager.index.view, TARGET) == SCAN
    ensures results == [] && results != Take(Keep(SCAN, manager.entries, 0.5, None), 1)
    ensures Take(Keep(SCAN, manager.entries, 0.5, None), 1) != []
  {
    manager := ForgetTwo(norm);
    results := manager.Search(TARGET, 1, Some(0.5), "general", None);
    TwoMissesLose(manager.items, manager.index.view, manager.entries, results);
  }

  method ForgetTwo(norm: string -> string) returns (manager: UnifiedIndexManager)
    ensures fresh(manager) && fresh(manager.index) && manager.Valid() && manager.config == DEFAULTS
    ensures |manager.items| == 3 && Three(manager.index.view) && OnlyThird(manager.entries)
  {
    manager := BuildThree(norm);
    var _ := manager.Delete("a", None);
    var _ := manager.Delete("b", None);
  }

  method BuildThree(norm: string -> string) returns (manager: UnifiedIndexManager)
    ensures fresh(manager) && fresh(manager.index) && manager.Valid() && manager.config == DEFAULTS
    ensures |manager.items| == 3 && Three(manager.index.view)
    ensures "c" in manager.entries.vals
  {
    var ids, xs := ["a", "b", "c"], [3.0, 2.0, 1.0];
    ThreeSingles();
    manager := BuildItems(norm, ids, xs);
    assert ids[2] in ids;
  }

  lemma {:induction false} ThreeSingles()
    ensures Singles([3.0, 2.0, 1.0]) == [[3.0], [2.0], [1.0]]
  {
    assert [3.0, 2.0, 1.0][..2] == [3.0, 2.0] && [3.0, 2.0][..1] == [3.0] && [3.0][..0] == [];
    assert Singles([3.0]) == [[3.0]];
    assert Singles([3.0, 2.0]) == [[3.0], [2.0]];
  }
}
