/** The manager of the unified index: one HNSW index plus the live entries over it. */
module IndexManager {
  import opened Options
  import opened Dicts
  import opened LayerSearch
  import opened HnswSpec
  import opened HnswTheorems
  import opened Hnsw
  import opened IndexSpec
  import opened StableSort

  datatype Stats = Stats(totalIndexed: nat, totalSearches: nat, totalDeletions: nat)

  class UnifiedIndexManager {
    const config: Params
    /** Lower-casing and stripping of a query text. */
    const norm: string -> string
    const thresholds: map<string, real>
    var index: HnswIndex
    var entries: Entries
    var stats: Stats

    /** The items the current index was built from, with the embeddings first seen. */
    ghost var items: seq<Item>

    /** The index is one that some run of insertions builds from `items`. */
    ghost predicate Grown()
      reads this`index, this`items, index
    {
      index.p == config && index.Valid() && Built(config, items, index.view)
    }

    ghost predicate Valid()
      reads this, index
    {
      Grown() && LiveOk(index.view, entries)
    }

    constructor (config: Params, norm: string -> string, thresholds: map<string, real>)
      ensures Valid() && fresh(index)
      ensures this.config == config && this.norm == norm && this.thresholds == thresholds
      ensures entries == EmptyDict() && items == [] && stats == Stats(0, 0, 0)
    {
      this.config := config;
      this.norm := norm;
      this.thresholds := thresholds;
      index := new HnswIndex(config);
      entries := EmptyDict();
      stats := Stats(0, 0, 0);
      items := [];
    }

    function MakeFullId(itemId: string, tenant: Option<string>): string { FullId(itemId, tenant) }

    /** An unknown domain uses the threshold of the general one. */
    function GetThreshold(domain: string): (r: real)
      ensures domain in thresholds ==> r == thresholds[domain]
      ensures domain !in thresholds && "general" in thresholds ==> r == thresholds["general"]
      ensures domain !in thresholds && "general" !in thresholds ==> r == 0.85
    {
      if domain in thresholds then thresholds[domain]
      else if "general" in thresholds then thresholds["general"]
      else 0.85
    }

    /** Indexes an item, or refreshes the entry of one indexed before.  The embedding of an
        id that was ever indexed stays the one first given. */
    method Add(itemId: string, embedding: Vec, queryText: string, tenant: Option<string>, domain: string,
               now: real, level: nat) returns (ok: bool)
      requires Valid()
      modifies this, index
      ensures Valid() && index == old(index)
      ensures ok <==> |embedding| == config.dim
      ensures !ok ==> entries == old(entries) && index.view == old(index.view) && items == old(items)
      ensures stats == if ok && FullId(itemId, tenant) !in old(index.view).ids
                       then old(stats).(totalIndexed := old(stats).totalIndexed + 1) else old(stats)
      ensures ok ==>
                var id := FullId(itemId, tenant);
                var known := id in old(index.view).ids;
                && entries == Put(old(entries), id,
                                  IndexEntry(itemId, queryText, tenant, domain, if known then 0.0 else now))
                && (known ==> index.view == old(index.view) && items == old(items))
                && (!known ==> Inserted(config, old(index.view), Item(id, embedding, level), index.view)
                               && items == old(items) + [Item(id, embedding, level)])
    {
      if |embedding| != config.dim { return false; }
      var fullId := MakeFullId(itemId, tenant);
      index.KnownIds();
      if fullId in index.data {
        Record(fullId, IndexEntry(itemId, queryText, tenant, domain, 0.0));
      } else {
        AddNew(fullId, embedding, queryText, domain, level);
        Record(fullId, IndexEntry(itemId, queryText, tenant, domain, now));
        stats := stats.(totalIndexed := stats.totalIndexed + 1);
      }
      ok := true;
    }

    method Record(fullId: string, entry: IndexEntry)
      requires Valid() && fullId == FullId(entry.itemId, entry.tenant) && fullId in index.view.ids
      modifies this`entries
      ensures Valid() && entries == Put(old(entries), fullId, entry)
    {
      LivePut(index.view, index.view, entries, entry.itemId, entry.tenant, entry);
      entries := Put(entries, fullId, entry);
    }

    method AddNew(fullId: string, embedding: Vec, queryText: string, domain: string, level: nat)
      requires Valid() && |embedding| == config.dim && fullId !in index.view.ids
      modifies this`items, index
      ensures Valid() && fullId in index.view.ids && items == old(items) + [Item(fullId, embedding, level)]
      ensures Inserted(config, old(index.view), Item(fullId, embedding, level), index.view)
    {
      ghost var before := index.view;
      var inserted := index.Insert(fullId, embedding, map["text" := queryText, "domain" := domain], level);
      items := items + [Item(fullId, embedding, level)];
      assert items[..|items| - 1] == old(items);
      assert LastStep(config, items, before, index.view);
      assert index.view.ids[|before.ids|] == fullId;
    }

    /** Searches twice as deep as asked, then filters. */
    method Search(embedding: Vec, k: int, threshold: Option<real>, domain: string, tenant: Option<string>)
      returns (results: seq<Match>)
      requires Valid()
      modifies this`stats
      ensures Valid()
      ensures stats == if |embedding| == config.dim then old(stats).(totalSearches := old(stats).totalSearches + 1)
                       else old(stats)
      ensures |embedding| != config.dim ==> results == []
      ensures |embedding| == config.dim ==>
                Retrieved(config, index.view, entries, embedding, k,
                      if threshold.Some? then threshold.value else GetThreshold(domain), tenant, results)
    {
      results := [];
      if |embedding| != config.dim { return; }
      var limit := if threshold.Some? then threshold.value else GetThreshold(domain);
      var found := index.Search(embedding, k * 2, None);
      var raw := found.value;
      stats := stats.(totalSearches := stats.totalSearches + 1);
      BuiltWellFormed(config, items, index.view);
      SearchSound(config, index.view, embedding, k * 2, None, raw);
      results := Filter(raw, k, limit, tenant);
    }

    method Filter(raw: seq<Hit>, k: int, threshold: real, tenant: Option<string>) returns (results: seq<Match>)
      requires k <= 0 ==> raw == []
      ensures results == Take(Keep(raw, entries, threshold, tenant), k)
    {
      results := [];
      for i := 0 to |raw|
        invariant results == Keep(raw[..i], entries, threshold, tenant) && (|results| < k || i == 0)
      {
        var h := raw[i];
        KeepNext(raw, i, entries, threshold, tenant);
        if h.similarity >= threshold && Eligible(entries, tenant, h.id) {
          results := results + [Match(entries.vals[h.id].itemId, h.similarity, entries.vals[h.id])];
          if |results| >= k {
            KeepSplit(raw, i + 1, entries, threshold, tenant);
            return;
          }
        }
      }
      assert raw[..|raw|] == raw;
    }

    /** The item id of the first live entry with this text. */
    method FindExactMatch(queryText: string, tenant: Option<string>) returns (r: Option<string>)
      requires Ordered(entries)
      ensures var key := FirstText(entries.keys, entries.vals, norm, queryText, tenant);
              r == if key.None? then None else Some(entries.vals[key.value].itemId)
    {
      for i := 0 to |entries.keys|
        invariant FirstText(entries.keys, entries.vals, norm, queryText, tenant)
                  == FirstText(entries.keys[i..], entries.vals, norm, queryText, tenant)
      {
        var key := entries.keys[i];
        assert key in entries.keys;
        assert entries.keys[i..][0] == key && entries.keys[i..][1..] == entries.keys[i + 1..];
        var entry := entries.vals[key];
        if norm(entry.queryText) == norm(queryText) {
          if tenant.None? || entry.tenant == tenant { return Some(entry.itemId); }
        }
      }
      return None;
    }

    /** Semantic search with exact text matches first. */
    method SearchByText(queryText: string, embedding: Vec, k: int, threshold: Option<real>, domain: string,
                        tenant: Option<string>, boost: real) returns (results: seq<Ranked>, ghost semantic: seq<Match>)
      requires Valid()
      modifies this`stats
      ensures Valid()
      ensures stats == if |embedding| == config.dim then old(stats).(totalSearches := old(stats).totalSearches + 1)
                       else old(stats)
      ensures |embedding| != config.dim ==> semantic == []
      ensures |embedding| == config.dim ==>
                Retrieved(config, index.view, entries, embedding, k,
                          if threshold.Some? then threshold.value else GetThreshold(domain), tenant, semantic)
      ensures results == ByText(entries, semantic, norm, queryText, tenant, boost, k)
    {
      var exactMatch := FindExactMatch(queryText, tenant);
      var found := Search(embedding, k, threshold, domain, tenant);
      semantic := found;
      results := Combine(queryText, exactMatch, found, tenant, boost);
      results := UpToK(SortBy(results, DESCENDING), k);
    }

    /** The exact match first, then the semantic results not seen yet. */
    method Combine(queryText: string, exactMatch: Option<string>, semantic: seq<Match>, tenant: Option<string>,
                   boost: real) returns (results: seq<Ranked>)
      requires var key := FirstText(entries.keys, entries.vals, norm, queryText, tenant);
               exactMatch == if key.None? then None else Some(entries.vals[key.value].itemId)
      ensures results == Candidates(entries, semantic, norm, queryText, tenant, boost)
    {
      results := [];
      var seenIds: set<string> := {};
      if exactMatch.Some? && exactMatch.value != "" {
        var full := MakeFullId(exactMatch.value, tenant);
        if full in entries.vals {
          results := [Ranked(exactMatch.value, 1.0, entries.vals[full], true)];
          seenIds := {exactMatch.value};
        }
      }
      assert results == ExactHead(entries, norm, queryText, tenant) && seenIds == SeenIds(results);
      for i := 0 to |semantic|
        invariant results + Merge(semantic[i..], seenIds, norm, queryText, boost)
                  == Candidates(entries, semantic, norm, queryText, tenant, boost)
      {
        var m := semantic[i];
        assert semantic[i..][0] == m && semantic[i..][1..] == semantic[i + 1..];
        if m.itemId !in seenIds {
          var isExact := norm(m.entry.queryText) == norm(queryText);
          var finalSim := if isExact then AtMostOne(m.similarity + boost) else m.similarity;
          results := results + [Ranked(m.itemId, finalSim, m.entry, isExact)];
          seenIds := seenIds + {m.itemId};
        }
      }
    }

    /** Forgets the entry; the index keeps the node until it is rebuilt. */
    method Delete(itemId: string, tenant: Option<string>) returns (deleted: bool)
      requires Valid()
      modifies this`entries, this`stats
      ensures Valid()
      ensures deleted <==> FullId(itemId, tenant) in old(entries).vals
      ensures stats == if deleted then old(stats).(totalDeletions := old(stats).totalDeletions + 1) else old(stats)
      ensures entries == if deleted then Remove(old(entries), FullId(itemId, tenant)) else old(entries)
    {
      var fullId := MakeFullId(itemId, tenant);
      deleted := fullId in entries.vals;
      if deleted {
        LiveRemove(index.view, entries, fullId);
        entries := Remove(entries, fullId);
        stats := stats.(totalDeletions := stats.totalDeletions + 1);
      }
    }

    /** Forgets one tenant's entries, or everything; only the latter rebuilds the index. */
    method Clear(tenant: Option<string>) returns (count: nat)
      requires Valid()
      modifies this`entries, this`index, this`items
      ensures Valid()
      ensures tenant.None? ==> fresh(index) && entries == EmptyDict() && items == []
      ensures tenant.None? ==> count == |old(entries).keys|
      ensures tenant.Some? ==> index == old(index) && items == old(items)
      ensures tenant.Some? ==> entries == ClearTenant(old(entries), tenant.value)
      ensures tenant.Some? ==> count == |Owned(old(entries).keys, old(entries).vals, tenant.value)|
    {
      if tenant.None? {
        count := |entries.keys|;
        entries := EmptyDict();
        index := new HnswIndex(config);
        items := [];
      } else {
        count := ClearOwned(tenant.value);
      }
    }

    method ClearOwned(tenant: string) returns (count: nat)
      requires Valid()
      modifies this`entries
      ensures LiveOk(index.view, entries) && entries == ClearTenant(old(entries), tenant)
      ensures count == |Owned(old(entries).keys, old(entries).vals, tenant)|
    {
      var toDelete := Owned(entries.keys, entries.vals, tenant);
      ghost var before := entries;
      for i := 0 to |toDelete|
        invariant entries == RemoveAll(before, toDelete[..i])
      {
        assert toDelete[..i + 1][..i] == toDelete[..i];
        entries := Remove(entries, toDelete[i]);
      }
      assert toDelete[..|toDelete|] == toDelete;
      RemoveAllValues(before, toDelete);
      count := |toDelete|;
    }
  }

  lemma {:induction false} KeepNext(raw: seq<Hit>, i: nat, entries: Entries, threshold: real, tenant: Option<string>)
    requires i < |raw|
    ensures Keep(raw[..i + 1], entries, threshold, tenant)
            == Keep(raw[..i], entries, threshold, tenant) + KeepOne(raw[i], entries, threshold, tenant)
  {
    assert raw[..i + 1] == raw[..i] + [raw[i]];
    KeepConcat(raw[..i], [raw[i]], entries, threshold, tenant);
    assert [raw[i]][1..] == [];
  }

  lemma {:induction false} KeepSplit(raw: seq<Hit>, i: nat, entries: Entries, threshold: real, tenant: Option<string>)
    requires i <= |raw|
    ensures Keep(raw, entries, threshold, tenant)
            == Keep(raw[..i], entries, threshold, tenant) + Keep(raw[i..], entries, threshold, tenant)
  {
    assert raw == raw[..i] + raw[i..];
    KeepConcat(raw[..i], raw[i..], entries, threshold, tenant);
  }
}
