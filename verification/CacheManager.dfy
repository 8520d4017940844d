/** The manager of the three tiers, updated in place. */
module CacheManager {
  import opened Options
  import opened Policies
  import opened Dicts
  import opened L1Spec
  import opened L1Theorems
  import opened L1Cache
  import opened TierSpec
  import opened Cluster
  import opened LayerSearch
  import HnswSpec
  import opened IndexSpec
  import opened IndexManager
  import opened SemanticSpec

  datatype Metrics = Metrics(total: nat, l1Hits: nat, l2Hits: nat, l3Hits: nat, misses: nat,
                             l2ToL1: nat, l3ToL1: nat, l3ToL2: nat)

  const NO_REQUESTS := Metrics(0, 0, 0, 0, 0, 0, 0, 0)

  /** Every request was a hit in one tier or a miss, and only hits were promoted. */
  predicate Balanced(m: Metrics) {
    && m.total == m.l1Hits + m.l2Hits + m.l3Hits + m.misses
    && m.l2ToL1 <= m.l2Hits && m.l3ToL2 <= m.l3ToL1 <= m.l3Hits
  }

  /** The counters after one lookup. */
  function Tallied(c: TierConfig, m: Metrics, hit: Option<Hit>, withL2: bool): (r: Metrics)
    ensures Balanced(m) ==> Balanced(r)
  {
    var n := m.(total := m.total + 1);
    if hit.None? then n.(misses := m.misses + 1)
    else
      var promoted := if Promotes(c, hit.value.source) then 1 else 0;
      match hit.value.source
      case FromL1 => n.(l1Hits := m.l1Hits + 1)
      case FromL2 => n.(l2Hits := m.l2Hits + 1, l2ToL1 := m.l2ToL1 + promoted)
      case FromL3 => n.(l3Hits := m.l3Hits + 1, l3ToL1 := m.l3ToL1 + promoted,
                        l3ToL2 := m.l3ToL2 + if withL2 then promoted else 0)
  }

  /** One request more; one hit more of the tier that answered, or one miss; one promotion
      more from there exactly if the hit is copied. */
  lemma {:induction false} CountsTheTier(c: TierConfig, m: Metrics, hit: Option<Hit>, withL2: bool)
    ensures var n := Tallied(c, m, hit, withL2);
            && n.total == m.total + 1
            && n.misses - m.misses == (if hit.None? then 1 else 0)
            && n.l1Hits - m.l1Hits == (if hit.Some? && hit.value.source == FromL1 then 1 else 0)
            && n.l2Hits - m.l2Hits == (if hit.Some? && hit.value.source == FromL2 then 1 else 0)
            && n.l3Hits - m.l3Hits == (if hit.Some? && hit.value.source == FromL3 then 1 else 0)
            && n.l2ToL1 - m.l2ToL1 == (if hit.Some? && hit.value.source == FromL2 && c.promoteL2 then 1 else 0)
            && n.l3ToL1 - m.l3ToL1 == (if hit.Some? && hit.value.source == FromL3 && c.promoteL3 then 1 else 0)
            && n.l3ToL2 - m.l3ToL2 == (if hit.Some? && hit.value.source == FromL3 && c.promoteL3 && withL2 then 1 else 0)
  {
  }

  /** After a miss in L1 the lower tiers decide. */
  lemma {:induction false} GetBelow(c: TierConfig, t: Tiers, id: string, tenant: Option<string>, now: real)
    requires Ordered(t.l1.entries) && GetResult(c.l1, t.l1, id, now).None?
    ensures var u := t.(l1 := GetState(c.l1, t.l1, id, now));
            var hit := LookupShared(u, id, tenant, now);
            && Ordered(u.l1.entries)
            && Lookup(c, t, id, tenant, now) == hit
            && Answer(c, t, id, tenant, now) == (if hit.None? then None else Some(Stamped(c, u.l1, hit.value)))
            && Get3(c, t, id, tenant, now) == (if hit.None? then u else AfterHit(c, u, hit.value, id, now))
  {
    StepOrdered(c.l1, t.l1, Event(GetOp(id), now));
  }

  class TieredCacheManager {
    const config: TierConfig
    const cache: Cache
    /** The hash of a query text, shortened. */
    const hash: string -> string
    /** Finds the domain of a text, and the threshold of a domain; either may fail. */
    const classifier: Option<string -> Option<string>>
    const adaptive: Option<string -> Option<real>>
    var l2: Option<L2Map>
    var l3: Option<L3Map>
    var indexManager: UnifiedIndexManager?
    var initialized: bool
    var metrics: Metrics
    /** What this node has published for the other nodes. */
    var published: seq<string>

    function State(): Tiers
      reads this, cache
    {
      Tiers(cache.State(), l2, l3)
    }

    ghost predicate Valid()
      reads this`metrics, cache
    {
      cache.config == config.l1 && cache.Valid() && Balanced(metrics)
    }

    ghost function IndexObjects(): set<object>
      reads this`indexManager, indexManager
    {
      if indexManager == null then {} else {indexManager as UnifiedIndexManager, indexManager.index}
    }

    ghost predicate Wired()
      reads this`indexManager, indexManager, IndexObjects()
    {
      indexManager != null ==> indexManager.Valid()
    }

    constructor (config: TierConfig, hash: string -> string, classifier: Option<string -> Option<string>>,
                 adaptive: Option<string -> Option<real>>)
      ensures cache.config == config.l1 && cache.Valid() && fresh(cache) && !initialized && indexManager == null
      ensures this.config == config && this.hash == hash
      ensures this.classifier == classifier && this.adaptive == adaptive
      ensures State() == Tiers(EMPTY_L1, None, None) && metrics == NO_REQUESTS && published == []
    {
      this.config := config;
      this.hash := hash;
      this.classifier, this.adaptive := classifier, adaptive;
      cache := new Cache(config.l1);
      l2, l3 := None, None;
      indexManager, initialized := null, false;
      metrics, published := NO_REQUESTS, [];
    }

    /** Connects the shared tiers that can be reached; what they hold is theirs. */
    method Initialize(reachedL2: Option<L2Map>, reachedL3: Option<L3Map>)
      requires Valid()
      modifies this`l2, this`l3, this`initialized
      ensures Valid() && initialized && State() == Tiers(old(State()).l1, reachedL2, reachedL3)
    {
      l2, l3, initialized := reachedL2, reachedL3, true;
    }

    method SetIndexManager(manager: UnifiedIndexManager)
      requires manager.Valid()
      modifies this`indexManager
      ensures indexManager == manager && Wired()
    {
      indexManager := manager;
    }

    /** Stores an entry as the strategy says. */
    method Put(entry: CacheEntry, tenant: string, now: real) returns (ok: bool)
      requires Valid()
      modifies this`l2, this`l3, cache
      ensures Valid()
      ensures ok <==> initialized && PutOk(config, old(State()))
      ensures State() == if initialized then Put3(config, old(State()), entry, tenant, now) else old(State())
    {
      if !initialized { return false; }
      match config.strategy
      case L1Only =>
        var stored;
        ok, stored := cache.Put(entry, now);
      case L2Only =>
        if l2.None? { return false; }
        l2 := PutL2(l2, entry);
        ok := true;
      case _ =>
        var stored;
        ok, stored := cache.Put(entry, now);
        if l2.Some? { l2 := PutL2(l2, stored); }
        if l3.Some? { l3 := PutL3(l3, stored, tenant, now); }
    }

    /** Looks through the tiers in turn and copies a hit upwards. */
    method Get(id: string, tenant: Option<string>, now: real) returns (r: Option<Hit>)
      requires Valid()
      modifies this`l2, this`l3, this`metrics, cache
      ensures Valid()
      ensures r == if initialized then Answer(config, old(State()), id, tenant, now) else None
      ensures State() == if initialized then Get3(config, old(State()), id, tenant, now) else old(State())
      ensures metrics == if initialized
                         then Tallied(config, old(metrics), Lookup(config, old(State()), id, tenant, now), old(l2).Some?)
                         else old(metrics)
    {
      if !initialized { return None; }
      ghost var before := State();
      var found := cache.Get(id, now);
      if found.Some? {
        metrics := metrics.(total := metrics.total + 1, l1Hits := metrics.l1Hits + 1);
        return Some(Hit(found.value, FromL1));
      }
      GetBelow(config, before, id, tenant, now);
      r := GetShared(id, tenant, now);
    }

    method GetShared(id: string, tenant: Option<string>, now: real) returns (r: Option<Hit>)
      requires Valid()
      modifies this`l2, this`l3, this`metrics, cache
      ensures Valid()
      ensures metrics == Tallied(config, old(metrics), LookupShared(old(State()), id, tenant, now), old(l2).Some?)
      ensures var hit := LookupShared(old(State()), id, tenant, now);
              if hit.None? then r == None && State() == old(State())
              else && r == Some(Stamped(config, old(cache.State()), hit.value))
                   && State() == AfterHit(config, old(State()), hit.value, id, now)
    {
      if l2.Some? && id in l2.value {
        r := HitL2(l2.value[id], now);
        return;
      }
      if VisibleIn(l3, id, tenant) {
        r := HitL3(id, now);
        return;
      }
      metrics := metrics.(total := metrics.total + 1, misses := metrics.misses + 1);
      r := None;
    }

    method HitL2(entry: CacheEntry, now: real) returns (r: Option<Hit>)
      requires Valid()
      modifies this`metrics, cache
      ensures Valid()
      ensures metrics == Tallied(config, old(metrics), Some(Hit(entry, FromL2)), l2.Some?)
      ensures r == Some(Stamped(config, old(cache.State()), Hit(entry, FromL2)))
      ensures cache.State() == if config.promoteL2 then PutEntry(config.l1, old(cache.State()), entry, now)
                               else old(cache.State())
    {
      metrics := metrics.(total := metrics.total + 1, l2Hits := metrics.l2Hits + 1);
      var promoted := entry;
      if config.promoteL2 {
        var _, stored := cache.Put(entry, now);
        promoted := stored;
        metrics := metrics.(l2ToL1 := metrics.l2ToL1 + 1);
      }
      r := Some(Hit(promoted, FromL2));
    }

    method HitL3(id: string, now: real) returns (r: Option<Hit>)
      requires Valid() && l3.Some? && id in l3.value
      modifies this`l2, this`l3, this`metrics, cache
      ensures Valid()
      ensures var hit := Hit(ReadL3(old(l3).value[id], now), FromL3);
              && r == Some(Stamped(config, old(cache.State()), hit))
              && State() == AfterHit(config, old(State()), hit, id, now)
              && metrics == Tallied(config, old(metrics), Some(hit), old(l2).Some?)
    {
      var entry := ReadL3(l3.value[id], now);
      l3 := CountL3(l3, id);
      metrics := metrics.(total := metrics.total + 1, l3Hits := metrics.l3Hits + 1);
      if config.promoteL3 {
        var _, stored := cache.Put(entry, now);
        metrics := metrics.(l3ToL1 := metrics.l3ToL1 + 1);
        if l2.Some? {
          l2 := PutL2(l2, stored);
          metrics := metrics.(l3ToL2 := metrics.l3ToL2 + 1);
        }
        entry := stored;
      }
      r := Some(Hit(entry, FromL3));
    }

    /** Deletes everywhere and tells the other nodes.  Reports success only if every
        configured tier held the entry. */
    method Delete(id: string, tenant: Option<string>) returns (ok: bool)
      requires Valid()
      modifies this`l2, this`l3, this`published, cache
      ensures Valid()
      ensures State() == Delete3(old(State()), id, tenant)
      ensures ok <==> HeldByAll(old(State()), id, tenant)
      ensures published == old(published) + if l2.Some? then Published(TDelete(id, tenant)) else []
    {
      var l1Ok := cache.Delete(id);
      var l2Ok, l3Ok := true, true;
      if l2.Some? {
        l2Ok := id in l2.value;
        l2 := Some(l2.value - {id});
        published := published + [id];
      }
      if l3.Some? {
        l3Ok := id in l3.value && (Given(tenant) ==> l3.value[id].tenant == tenant.value);
        l3 := DeleteL3(l3, id, tenant);
      }
      ok := l1Ok && l2Ok && l3Ok;
    }

    /** Clears the tiers.  The answer is always None: L1 reports nothing, and the answer of
        L1 comes first in the conjunction. */
    method Clear(tenant: Option<string>) returns (ok: Option<bool>)
      requires Valid()
      modifies this`l2, this`l3, this`published, cache
      ensures Valid() && ok == None
      ensures State() == Clear3(old(State()), tenant)
      ensures published == old(published) + if l2.Some? then Published(TClear(tenant)) else []
    {
      cache.Clear();
      if l2.Some? {
        l2 := Some(map[]);
        published := published + [FLUSH_ALL];
      }
      l3 := ClearL3(l3, tenant);
      ok := None;
    }

    /** Copies every unexpired L1 entry to L2. */
    method SyncL1ToL2(now: real)
      requires Valid()
      modifies this`l2
      ensures Valid() && (l2.Some? <==> old(l2).Some?)
      ensures old(l2).Some? ==>
                l2.value == PushUp(cache.State(), cache.entries.keys, config.l1.ttl, now, old(l2).value)
    {
      if l2.None? { return; }
      var keys, ttl := cache.entries.keys, config.l1.ttl;
      for i := 0 to |keys|
        invariant l2.Some? && Valid()
        invariant l2.value == PushUp(cache.State(), keys[..i], ttl, now, old(l2).value)
      {
        assert keys[..i + 1][..i] == keys[..i] && keys[i] in keys;
        var entry := cache.entries.vals[keys[i]];
        if !Expired(entry, ttl, now) { l2 := PutL2(l2, entry); }
      }
      assert keys[..|keys|] == keys;
    }

    /** Puts every L2 entry into L1, in the order in which a scan returned the keys. */
    method SyncL2ToL1(keys: seq<string>, now: real)
      requires Valid()
      modifies cache
      ensures Valid()
      ensures cache.State() == if l2.None? then old(cache.State())
                               else PullDown(config.l1, old(cache.State()), keys, l2.value, now)
    {
      if l2.None? { return; }
      for i := 0 to |keys|
        invariant Valid()
        invariant cache.State() == PullDown(config.l1, old(cache.State()), keys[..i], l2.value, now)
      {
        assert keys[..i + 1][..i] == keys[..i];
        if keys[i] in l2.value { var _, _ := cache.Put(l2.value[keys[i]], now); }
      }
      assert keys[..|keys|] == keys;
    }

    /** What the listener thread does with one message from another node. */
    method Receive(message: string)
      requires Valid()
      modifies cache
      ensures Valid() && cache.State() == Cluster.Receive(old(cache.State()), message)
    {
      if message == FLUSH_ALL {
        cache.Clear();
      } else {
        var _ := cache.Delete(message);
      }
    }

    // ----- Semantic operations -----

    /** Stores an answer in the tiers and indexes its text. */
    method PutSemantic(text: string, embedding: Vec, answer: Payload, tenant: Option<string>, domain: string,
                       now: real, level: nat) returns (ok: bool)
      requires Valid() && Wired()
      modifies this`l2, this`l3, cache, IndexObjects()
      ensures Valid() && Wired() && indexManager == old(indexManager)
      ensures ok <==> initialized && PutOk(config, old(State()))
      ensures var entry := SemanticEntry(hash, text, embedding, answer, tenant, domain, now);
              State() == if initialized then Put3(config, old(State()), entry, "default", now) else old(State())
      ensures indexManager != null && (!ok || |embedding| != indexManager.config.dim) ==>
                indexManager.entries == old(indexManager.entries)
      ensures indexManager != null && ok && |embedding| == indexManager.config.dim ==>
                exists e :: Indexes(hash, text, tenant, e)
                  && indexManager.entries == Dicts.Put(old(indexManager.entries), CacheKey(hash, text, tenant), e)
      ensures indexManager != null ==>
                indexManager.index.view == old(indexManager.index.view)
                || (ok && HnswSpec.Inserted(indexManager.config, old(indexManager.index.view),
                                   HnswSpec.Item(CacheKey(hash, text, tenant), embedding, level), indexManager.index.view))
    {
      if !initialized { return false; }
      var entry := SemanticEntry(hash, text, embedding, answer, tenant, domain, now);
      ok := Put(entry, "default", now);
      if ok && indexManager != null {
        ghost var known := CacheKey(hash, text, tenant) in indexManager.index.view.ids;
        var added := indexManager.Add(hash(text), embedding, text, tenant, domain, now, level);
        assert added ==> Indexes(hash, text, tenant,
                                 IndexEntry(hash(text), text, tenant, domain, if known then 0.0 else now));
      }
    }

    /** The domain of a read: the caller's or else the classifier's, "general" if empty. */
    function DomainFor(text: string, domain: Option<string>): (r: string)
      ensures r != ""
      ensures domain.Some? && domain.value != "" ==> r == domain.value
      ensures domain == Some("") || (domain.None? && classifier.None?) ==> r == "general"
      ensures domain.None? && classifier.Some? ==>
                r == (match classifier.value(text) case Some(d) => if d == "" then "general" else d case None => "general")
    {
      var found := if domain.None? && classifier.Some? then classifier.value(text) else domain;
      if found.None? || found.value == "" then "general" else found.value
    }

    /** The threshold of a read: the caller's, the adaptive one, or that of the index. */
    function ThresholdFor(manager: UnifiedIndexManager, domain: string, threshold: Option<real>): (r: real)
      ensures threshold.Some? ==> r == threshold.value
      ensures threshold.None? && (adaptive.None? || adaptive.value(domain).None?) ==> r == manager.GetThreshold(domain)
      ensures threshold.None? && adaptive.Some? && adaptive.value(domain).Some? ==> Some(r) == adaptive.value(domain)
    {
      if threshold.Some? then threshold.value
      else if adaptive.Some? && adaptive.value(domain).Some? then adaptive.value(domain).value
      else manager.GetThreshold(domain)
    }

    /** Finds the best entry for a text and looks its key up in the tiers. */
    method GetSemantic(text: string, embedding: Vec, tenant: Option<string>, domain: Option<string>,
                       threshold: Option<real>, now: real)
      returns (r: Option<SemanticHit>, ghost semantic: seq<Match>)
      requires Valid() && Wired()
      modifies this`l2, this`l3, this`metrics, cache, IndexObjects()
      ensures Valid() && Wired() && indexManager == old(indexManager)
      ensures !initialized ==> r == None && State() == old(State())
      ensures initialized && indexManager == null ==>
                && r == ExactHit(Answer(config, old(State()), FullId(text, tenant), None, now))
                && State() == Get3(config, old(State()), FullId(text, tenant), None, now)
      ensures initialized && indexManager != null ==>
                && FoundBySearch(indexManager.config, indexManager.index.view, indexManager.entries, embedding,
                                 ThresholdFor(indexManager, DomainFor(text, domain), threshold), tenant, semantic)
                && r == SemanticAnswer(config, old(State()), indexManager.entries, semantic, indexManager.norm,
                                       text, tenant, now)
                && State() == SemanticState(config, old(State()), indexManager.entries, semantic, indexManager.norm,
                                            text, tenant, now)
      ensures indexManager != null ==> indexManager.entries == old(indexManager.entries)
                                       && indexManager.index.view == old(indexManager.index.view)
    {
      r, semantic := None, [];
      if !initialized { return; }
      if indexManager == null {
        var fallback := Get(FullId(text, tenant), None, now);
        r := ExactHit(fallback);
        return;
      }
      var domainUsed := DomainFor(text, domain);
      var limit := ThresholdFor(indexManager, domainUsed, threshold);
      r, semantic := SearchSemantic(indexManager, text, embedding, tenant, domainUsed, limit, now);
    }

    method SearchSemantic(manager: UnifiedIndexManager, text: string, embedding: Vec, tenant: Option<string>,
                          domain: string, threshold: real, now: real)
      returns (r: Option<SemanticHit>, ghost semantic: seq<Match>)
      requires Valid() && initialized && manager.Valid()
      modifies this`l2, this`l3, this`metrics, cache, manager`stats
      ensures Valid() && manager.Valid()
      ensures FoundBySearch(manager.config, manager.index.view, manager.entries, embedding, threshold, tenant,
                            semantic)
      ensures r == SemanticAnswer(config, old(State()), manager.entries, semantic, manager.norm, text, tenant, now)
      ensures State() == SemanticState(config, old(State()), manager.entries, semantic, manager.norm, text, tenant, now)
    {
      var best;
      best, semantic := FindBest(manager, text, embedding, tenant, domain, threshold);
      r := GetMatched(best, tenant, now);
    }

    method FindBest(manager: UnifiedIndexManager, text: string, embedding: Vec, tenant: Option<string>,
                    domain: string, threshold: real) returns (best: seq<Ranked>, ghost semantic: seq<Match>)
      requires manager.Valid()
      modifies manager`stats
      ensures manager.Valid()
      ensures FoundBySearch(manager.config, manager.index.view, manager.entries, embedding, threshold, tenant,
                            semantic)
      ensures best == Best(manager.entries, semantic, manager.norm, text, tenant)
    {
      best, semantic := manager.SearchByText(text, embedding, 1, Some(threshold), domain, tenant, BOOST);
    }

    method GetMatched(best: seq<Ranked>, tenant: Option<string>, now: real) returns (r: Option<SemanticHit>)
      requires Valid() && initialized
      modifies this`l2, this`l3, this`metrics, cache
      ensures Valid()
      ensures r == if best == [] then None
                   else MatchedHit(best[0], Answer(config, old(State()), FullId(best[0].itemId, tenant), None, now))
      ensures State() == if best == [] then old(State())
                         else Get3(config, old(State()), FullId(best[0].itemId, tenant), None, now)
    {
      if best == [] { return None; }
      var hit := Get(FullId(best[0].itemId, tenant), None, now);
      r := MatchedHit(best[0], hit);
    }

    /** Deletes the entry of a text.  The index is asked to delete the key, which is a full
        id already, under the tenant once more. */
    method DeleteSemantic(text: string, tenant: Option<string>) returns (ok: bool)
      requires Valid() && Wired()
      modifies this`l2, this`l3, this`published, cache, IndexObjects()
      ensures Valid() && Wired() && indexManager == old(indexManager)
      ensures State() == Delete3(old(State()), CacheKey(hash, text, tenant), None)
      ensures indexManager != null ==>
                indexManager.entries == IndexAfterDelete(old(indexManager.entries), hash, text, tenant)
                && indexManager.index.view == old(indexManager.index.view)
      ensures ok <==> HeldByAll(old(State()), CacheKey(hash, text, tenant), None)
                      || (indexManager != null
                          && FullId(CacheKey(hash, text, tenant), tenant) in old(indexManager.entries).vals)
    {
      var key := CacheKey(hash, text, tenant);
      var cacheDeleted := Delete(key, None);
      var indexDeleted := false;
      if indexManager != null {
        indexDeleted := indexManager.Delete(key, tenant);
      }
      ok := cacheDeleted || indexDeleted;
    }
  }
}
