/** The in-memory cache as a value: what each operation does to its entries and to the
    text index beside them. */
module L1Spec {
  import opened Options
  import opened Dicts
  import opened Policies

  datatype L1Config = L1Config(maxSize: nat, dimension: nat, policy: Policy, ttl: Option<int>,
                               maxBytes: real, exactMatch: bool)

  /** `textToId` is keyed by a hash of the text; the hash is taken to be injective. */
  datatype L1State = L1State(entries: Store, textToId: map<string, string>, nextQueryId: nat)

  const EMPTY_L1 := L1State(EmptyDict(), map[], 0)

  // ----- Generated ids -----

  function Digit(d: nat): char
    requires d < 10
  {
    "0123456789"[d]
  }

  function Decimal(n: nat): (s: string)
    ensures s != ""
  {
    if n < 10 then [Digit(n)] else Decimal(n / 10) + [Digit(n % 10)]
  }

  lemma {:induction false} DecimalInjective(m: nat, n: nat)
    requires Decimal(m) == Decimal(n)
    ensures m == n
  {
    var s := Decimal(m);
    assert s[|s| - 1] == Digit(m % 10) == Digit(n % 10);
    if m >= 10 {
      assert s[..|s| - 1] == Decimal(m / 10);
      if n >= 10 {
        assert s[..|s| - 1] == Decimal(n / 10);
        DecimalInjective(m / 10, n / 10);
      }
    }
  }

  function QueryId(n: nat): string { "q_" + Decimal(n) }

  /** Ids the cache replaces by one of its own. */
  predicate Generated(id: string) { id == "" || "q_" <= id }

  // ----- Sizes -----

  /** Four bytes a dimension, the text, the data, 50 for metadata and 100 for the object. */
  function Footprint(e: CacheEntry, dimension: nat): nat { dimension * 4 + e.textBytes + e.dataBytes + 50 + 100 }

  function TotalOf(keys: seq<string>, vals: map<string, CacheEntry>): nat {
    if keys == [] then 0
    else (if keys[0] in vals then vals[keys[0]].memory else 0) + TotalOf(keys[1..], vals)
  }

  function Total(store: Store): nat { TotalOf(store.keys, store.vals) }

  // ----- Eviction -----

  /** Removes an entry, and whatever the text index says about its text. */
  function Evict(st: L1State, id: string): L1State {
    if id !in st.entries.vals then st
    else L1State(Remove(st.entries, id), st.textToId - {st.entries.vals[id].queryText}, st.nextQueryId)
  }

  function FitMemory(c: L1Config, st: L1State, size: nat, now: real): L1State
    requires Ordered(st.entries)
    decreases |st.entries.keys|
  {
    if (Total(st.entries) + size) as real > c.maxBytes && |st.entries.keys| > 0 then
      var victim := SelectVictim(c.policy, st.entries, now).value;
      RemoveOrdered(st.entries, victim);
      FitMemory(c, Evict(st, victim), size, now)
    else st
  }

  function FitSize(c: L1Config, st: L1State, now: real): L1State
    requires Ordered(st.entries)
    decreases |st.entries.keys|
  {
    if |st.entries.keys| > c.maxSize then
      var victim := SelectVictim(c.policy, st.entries, now).value;
      RemoveOrdered(st.entries, victim);
      FitSize(c, Evict(st, victim), now)
    else st
  }

  // ----- Operations -----

  function Stored(c: L1Config, st: L1State, e: CacheEntry): CacheEntry {
    e.(memory := Footprint(e, c.dimension),
       queryId := if Generated(e.queryId) then QueryId(st.nextQueryId) else e.queryId)
  }

  /** The entry is in, the size limit has not been checked yet. */
  function Added(st: L1State, stored: CacheEntry, generated: bool): L1State {
    L1State(Put(st.entries, stored.queryId, stored), st.textToId[stored.queryText := stored.queryId],
            if generated then st.nextQueryId + 1 else st.nextQueryId)
  }

  function PutEntry(c: L1Config, st: L1State, e: CacheEntry, now: real): L1State
    requires Ordered(st.entries)
  {
    var fitted := FitMemory(c, st, Footprint(e, c.dimension), now);
    FitMemoryOrdered(c, st, Footprint(e, c.dimension), now);
    var stored := Stored(c, fitted, e);
    PutOrdered(fitted.entries, stored.queryId, stored);
    FitSize(c, Added(fitted, stored, Generated(e.queryId)), now)
  }

  function Accessed(e: CacheEntry, now: real): CacheEntry {
    e.(lastAccessedAt := now, accessCount := e.accessCount + 1)
  }

  function GetState(c: L1Config, st: L1State, id: string, now: real): L1State {
    if id !in st.entries.vals then st
    else if Expired(st.entries.vals[id], c.ttl, now) then Evict(st, id)
    else st.(entries := Put(st.entries, id, Accessed(st.entries.vals[id], now)))
  }

  function GetResult(c: L1Config, st: L1State, id: string, now: real): Option<CacheEntry> {
    if id !in st.entries.vals || Expired(st.entries.vals[id], c.ttl, now) then None
    else Some(Accessed(st.entries.vals[id], now))
  }

  function FindExact(c: L1Config, st: L1State, text: string, now: real): Option<string> {
    if c.exactMatch && text in st.textToId
       && st.textToId[text] in st.entries.vals
       && !Expired(st.entries.vals[st.textToId[text]], c.ttl, now)
    then Some(st.textToId[text]) else None
  }

  function Cleared(st: L1State): L1State { L1State(EmptyDict(), map[], st.nextQueryId) }

  // ----- Order is kept -----

  lemma {:induction false} EvictOrdered(st: L1State, id: string)
    requires Ordered(st.entries)
    ensures Ordered(Evict(st, id).entries)
  {
    RemoveOrdered(st.entries, id);
  }

  lemma {:induction false} FitMemoryOrdered(c: L1Config, st: L1State, size: nat, now: real)
    requires Ordered(st.entries)
    ensures Ordered(FitMemory(c, st, size, now).entries)
    ensures FitMemory(c, st, size, now).nextQueryId == st.nextQueryId
    decreases |st.entries.keys|
  {
    if (Total(st.entries) + size) as real > c.maxBytes && |st.entries.keys| > 0 {
      var victim := SelectVictim(c.policy, st.entries, now).value;
      RemoveOrdered(st.entries, victim);
      FitMemoryOrdered(c, Evict(st, victim), size, now);
    }
  }

  lemma {:induction false} FitSizeOrdered(c: L1Config, st: L1State, now: real)
    requires Ordered(st.entries)
    ensures Ordered(FitSize(c, st, now).entries)
    ensures FitSize(c, st, now).nextQueryId == st.nextQueryId
    ensures |FitSize(c, st, now).entries.keys| <= c.maxSize
    decreases |st.entries.keys|
  {
    if |st.entries.keys| > c.maxSize {
      var victim := SelectVictim(c.policy, st.entries, now).value;
      RemoveOrdered(st.entries, victim);
      FitSizeOrdered(c, Evict(st, victim), now);
    }
  }

  lemma {:induction false} PutEntryOrdered(c: L1Config, st: L1State, e: CacheEntry, now: real)
    requires Ordered(st.entries)
    ensures Ordered(PutEntry(c, st, e, now).entries)
    ensures |PutEntry(c, st, e, now).entries.keys| <= c.maxSize
  {
    var fitted := FitMemory(c, st, Footprint(e, c.dimension), now);
    FitMemoryOrdered(c, st, Footprint(e, c.dimension), now);
    var stored := Stored(c, fitted, e);
    PutOrdered(fitted.entries, stored.queryId, stored);
    FitSizeOrdered(c, Added(fitted, stored, Generated(e.queryId)), now);
  }
}
