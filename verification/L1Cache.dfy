/** The in-memory cache, updated in place. */
module L1Cache {
  import opened Options
  import opened Dicts
  import opened Policies
  import opened L1Spec
  import opened L1Theorems

  datatype Reason = ByMemory | BySize | ByTtl | Manual

  class Cache {
    const config: L1Config
    var entries: Store
    var textToId: map<string, string>
    var nextQueryId: nat
    var evictionsTtl: nat
    var evictionsMemory: nat

    function State(): L1State
      reads this
    {
      L1State(entries, textToId, nextQueryId)
    }

    ghost predicate Valid()
      reads this
    {
      KeysOk(State())
    }

    constructor (config: L1Config)
      ensures Valid() && State() == EMPTY_L1 && this.config == config
      ensures evictionsTtl == 0 && evictionsMemory == 0
    {
      this.config := config;
      entries, textToId, nextQueryId := EmptyDict(), map[], 0;
      evictionsTtl, evictionsMemory := 0, 0;
    }

    method EvictEntry(id: string, reason: Reason)
      modifies this
      ensures State() == Evict(old(State()), id)
      ensures evictionsTtl == old(evictionsTtl) + (if reason == ByTtl && id in old(entries).vals then 1 else 0)
      ensures evictionsMemory == old(evictionsMemory) + (if reason == ByMemory && id in old(entries).vals then 1 else 0)
    {
      if id !in entries.vals { return; }
      var text := entries.vals[id].queryText;
      if text in textToId { textToId := textToId - {text}; }
      assert textToId == old(textToId) - {text};
      entries := Remove(entries, id);
      if reason == ByTtl {
        evictionsTtl := evictionsTtl + 1;
      } else if reason == ByMemory {
        evictionsMemory := evictionsMemory + 1;
      }
    }

    /** Evicts until the new entry fits or nothing is left. */
    method CheckMemoryLimit(newEntrySize: nat, now: real)
      requires Ordered(entries)
      modifies this
      ensures Ordered(entries) && State() == FitMemory(config, old(State()), newEntrySize, now)
      ensures evictionsMemory == old(evictionsMemory) + |old(entries).keys| - |entries.keys|
      ensures evictionsTtl == old(evictionsTtl)
    {
      while (Total(entries) + newEntrySize) as real > config.maxBytes && |entries.keys| > 0
        invariant Ordered(entries)
        invariant FitMemory(config, State(), newEntrySize, now) == FitMemory(config, old(State()), newEntrySize, now)
        invariant evictionsMemory == old(evictionsMemory) + |old(entries).keys| - |entries.keys|
        invariant evictionsTtl == old(evictionsTtl)
        decreases |entries.keys|
      {
        var victim := SelectVictim(config.policy, entries, now);
        RemoveOrdered(entries, victim.value);
        EvictEntry(victim.value, ByMemory);
      }
    }

    method CheckSizeLimit(now: real)
      requires Ordered(entries)
      modifies this
      ensures Ordered(entries) && State() == FitSize(config, old(State()), now)
      ensures evictionsMemory == old(evictionsMemory) && evictionsTtl == old(evictionsTtl)
    {
      while |entries.keys| > config.maxSize
        invariant Ordered(entries)
        invariant FitSize(config, State(), now) == FitSize(config, old(State()), now)
        invariant evictionsMemory == old(evictionsMemory) && evictionsTtl == old(evictionsTtl)
        decreases |entries.keys|
      {
        var victim := SelectVictim(config.policy, entries, now);
        RemoveOrdered(entries, victim.value);
        EvictEntry(victim.value, BySize);
      }
    }

    /** Stores an entry; `stored` is what the caller's entry object has become. */
    method Put(entry: CacheEntry, now: real) returns (ok: bool, stored: CacheEntry)
      requires Valid()
      modifies this
      ensures Valid() && ok
      ensures State() == PutEntry(config, old(State()), entry, now)
      ensures stored == Stored(config, old(State()), entry)
      ensures evictionsTtl == old(evictionsTtl)
      ensures evictionsMemory == old(evictionsMemory) + |old(entries).keys|
                - |FitMemory(config, old(State()), Footprint(entry, config.dimension), now).entries.keys|
    {
      ghost var before := State();
      var memorySize := Footprint(entry, config.dimension);
      FitMemoryOrdered(config, before, memorySize, now);
      CheckMemoryLimit(memorySize, now);
      stored := StoreEntry(entry, memorySize);
      CheckSizeLimit(now);
      StepKeysOk(config, before, Event(PutOp(entry), now));
      ok := true;
    }

    method StoreEntry(entry: CacheEntry, memorySize: nat) returns (stored: CacheEntry)
      requires Ordered(entries) && memorySize == Footprint(entry, config.dimension)
      modifies this`entries, this`textToId, this`nextQueryId
      ensures stored == Stored(config, old(State()), entry) && Ordered(entries)
      ensures State() == Added(old(State()), stored, Generated(entry.queryId))
    {
      stored := entry.(memory := memorySize);
      if Generated(entry.queryId) {
        var id := GenerateQueryId();
        stored := stored.(queryId := id);
      }
      PutOrdered(entries, stored.queryId, stored);
      entries := Dicts.Put(entries, stored.queryId, stored);
      textToId := textToId[stored.queryText := stored.queryId];
    }

    method GenerateQueryId() returns (id: string)
      modifies this`nextQueryId
      ensures id == QueryId(old(nextQueryId)) && nextQueryId == old(nextQueryId) + 1
    {
      id := QueryId(nextQueryId);
      nextQueryId := nextQueryId + 1;
    }

    method Get(id: string, now: real) returns (r: Option<CacheEntry>)
      requires Valid()
      modifies this
      ensures Valid()
      ensures State() == GetState(config, old(State()), id, now)
      ensures r == GetResult(config, old(State()), id, now)
      ensures evictionsTtl == old(evictionsTtl) + if r.None? && id in old(entries).vals then 1 else 0
      ensures evictionsMemory == old(evictionsMemory)
    {
      StepKeysOk(config, State(), Event(GetOp(id), now));
      if id !in entries.vals { return None; }
      var entry := entries.vals[id];
      if Expired(entry, config.ttl, now) {
        EvictEntry(id, ByTtl);
        return None;
      }
      entries := Dicts.Put(entries, id, Accessed(entry, now));
      r := Some(entries.vals[id]);
    }

    method FindExactMatch(text: string, now: real) returns (r: Option<string>)
      ensures r == FindExact(config, State(), text, now)
    {
      if !config.exactMatch { return None; }
      if text in textToId {
        var id := textToId[text];
        if id in entries.vals && !Expired(entries.vals[id], config.ttl, now) { return Some(id); }
      }
      return None;
    }

    method Delete(id: string) returns (ok: bool)
      requires Valid()
      modifies this
      ensures Valid()
      ensures ok <==> id in old(entries).vals
      ensures State() == Evict(old(State()), id)
      ensures evictionsTtl == old(evictionsTtl) && evictionsMemory == old(evictionsMemory)
    {
      EvictKeysOk(State(), id);
      if id !in entries.vals { return false; }
      EvictEntry(id, Manual);
      ok := true;
    }

    method Clear()
      modifies this`entries, this`textToId
      ensures Valid() && State() == Cleared(old(State()))
    {
      entries := EmptyDict();
      textToId := map[];
    }
  }
}
