/** Whom each policy evicts, told by the fields of the entries, and how much a put evicts. */
module EvictionTheorems {
  import opened Options
  import opened Dicts
  import opened Policies
  import opened L1Spec
  import opened L1Theorems

  // ----- The victim -----

  /** Entry e is evicted no later than f.  The adaptive policy compares ranks in the whole
      cache instead. */
  predicate GoesFirst(p: Policy, e: CacheEntry, f: CacheEntry, now: real) {
    match p
    case Lru => e.lastAccessedAt <= f.lastAccessedAt
    case Lfu => e.accessCount < f.accessCount || (e.accessCount == f.accessCount && e.createdAt <= f.createdAt)
    case Fifo => e.createdAt <= f.createdAt
    case Ttl(ttl) => TooOld(ttl, e, now) || (!TooOld(ttl, f, now) && e.lastAccessedAt <= f.lastAccessedAt)
    case CostAware => Worth(e, now) <= Worth(f, now)
    case Adaptive(_, _) => true
  }

  predicate TooOld(ttl: Option<int>, e: CacheEntry, now: real) {
    ttl.Some? && ttl.value != 0 && e.createdAt + ttl.value as real < now
  }

  /** Half the cost, thirty for each access, and minus a fifth of the seconds it was idle, of
      which at least one counts. */
  function Worth(e: CacheEntry, now: real): real {
    e.computeCost / 2.0 + 30.0 * e.accessCount as real - LongerThanOne(now - e.lastAccessedAt) / 5.0
  }

  function LongerThanOne(idle: real): real { if idle < 1.0 then 1.0 else idle }

  lemma {:induction false} CostVictim(store: Store, now: real, k: string)
    requires Ordered(store) && k in store.vals && SelectVictim(CostAware, store, now).Some?
    ensures Worth(store.vals[SelectVictim(CostAware, store, now).value], now) <= Worth(store.vals[k], now)
  {
    VictimIsLeast(CostAware, store, now);
    var v := SelectVictim(CostAware, store, now).value;
    assert !KeyLess(VictimKey(CostAware, store, now)(k), VictimKey(CostAware, store, now)(v));
  }

  lemma {:induction false} TtlVictimGoes(ttl: Option<int>, store: Store, now: real, k: string)
    requires Ordered(store) && k in store.vals && SelectVictim(Ttl(ttl), store, now).Some?
    ensures GoesFirst(Ttl(ttl), store.vals[SelectVictim(Ttl(ttl), store, now).value], store.vals[k], now)
  {
    VictimIsLeast(Ttl(ttl), store, now);
    assert k in store.keys;
    var v := SelectVictim(Ttl(ttl), store, now).value;
    if TtlVictim(Ttl(ttl), store, now).None? {
      assert !KeyLess(VictimKey(Ttl(ttl), store, now)(k), VictimKey(Ttl(ttl), store, now)(v));
    }
  }

  /** The victim is evicted no later than any other resident would be: used longest ago under
      LRU, least often and then oldest under LFU, oldest under FIFO, too old or else used
      longest ago under TTL, and worth least under the cost-aware policy. */
  lemma {:induction false} VictimGoesFirst(p: Policy, store: Store, now: real, k: string)
    requires Ordered(store) && k in store.vals
    ensures var v := SelectVictim(p, store, now);
            v.Some? && v.value in store.vals && GoesFirst(p, store.vals[v.value], store.vals[k], now)
  {
    assert k in store.keys;
    var v := SelectVictim(p, store, now).value;
    match p
    case CostAware => CostVictim(store, now, k);
    case Ttl(ttl) => TtlVictimGoes(ttl, store, now, k);
    case Adaptive(_, _) =>
    case _ =>
      VictimIsLeast(p, store, now);
      assert !KeyLess(VictimKey(p, store, now)(k), VictimKey(p, store, now)(v));
  }

  lemma {:induction false} LeastIsFirst(ids: seq<string>, key: string -> Key) returns (i: nat)
    requires ids != []
    ensures i < |ids| && ids[i] == Least(ids, key)
    ensures forall j :: 0 <= j < i ==> KeyLess(key(ids[i]), key(ids[j]))
  {
    var n := |ids| - 1;
    if n == 0 {
      i := 0;
    } else {
      i := LeastIsFirst(ids[..n], key);
      if KeyLess(key(ids[n]), key(Least(ids[..n], key))) {
        LeastIsLeast(ids[..n], key);
        i := n;
        forall j | 0 <= j < n ensures KeyLess(key(ids[n]), key(ids[j])) {
          assert ids[..n][j] == ids[j];
          assert !KeyLess(key(ids[..n][j]), key(Least(ids[..n], key)));
        }
      } else {
        assert forall j :: 0 <= j < i ==> ids[..n][j] == ids[j];
      }
    }
  }

  lemma {:induction false} FirstExpiredAt(ids: seq<string>, vals: map<string, CacheEntry>, ttl: Option<int>, now: real)
      returns (i: nat)
    requires FirstExpired(ids, vals, ttl, now).Some? && forall k :: k in ids ==> k in vals
    ensures i < |ids| && ids[i] == FirstExpired(ids, vals, ttl, now).value
    ensures forall j :: 0 <= j < i ==> !Expired(vals[ids[j]], ttl, now)
  {
    if ids[0] in vals && Expired(vals[ids[0]], ttl, now) {
      i := 0;
    } else {
      i := FirstExpiredAt(ids[1..], vals, ttl, now);
      assert forall j :: 1 <= j <= i ==> ids[j] == ids[1..][j - 1];
      i := i + 1;
    }
  }

  /** Ties are broken by the order of insertion: whoever was inserted before the victim would
      have to be evicted strictly later. */
  lemma {:induction false} EarliestOfEquals(p: Policy, store: Store, now: real) returns (i: nat)
    requires Ordered(store) && store.keys != [] && !p.Adaptive?
    ensures i < |store.keys| && SelectVictim(p, store, now) == Some(store.keys[i])
    ensures forall j :: 0 <= j < i ==>
              store.keys[j] in store.vals && !GoesFirst(p, store.vals[store.keys[j]], store.vals[store.keys[i]], now)
  {
    assert forall j :: 0 <= j < |store.keys| ==> store.keys[j] in store.keys;
    if TtlVictim(p, store, now).Some? {
      i := FirstExpiredAt(store.keys, store.vals, p.ttlSeconds, now);
    } else {
      i := LeastIsFirst(store.keys, VictimKey(p, store, now));
      forall j | 0 <= j < i
        ensures store.keys[j] in store.vals && !GoesFirst(p, store.vals[store.keys[j]], store.vals[store.keys[i]], now)
      {
        assert store.keys[j] in store.keys && store.keys[i] in store.keys;
        LessGoesLater(p, store, now, store.keys[i], store.keys[j]);
      }
    }
  }

  lemma {:induction false} LessGoesLater(p: Policy, store: Store, now: real, v: string, k: string)
    requires Ordered(store) && v in store.vals && k in store.vals && !p.Adaptive? && TtlVictim(p, store, now).None?
    requires store.keys != [] && KeyLess(VictimKey(p, store, now)(v), VictimKey(p, store, now)(k))
    ensures !GoesFirst(p, store.vals[k], store.vals[v], now)
  {
    assert k in store.keys && v in store.keys;
  }

  // ----- What a put evicts -----

  /** None of those evicted would have to stay longer than one that stays. */
  ghost predicate InOrder(p: Policy, before: Store, after: Store, now: real) {
    forall k, s :: k in before.vals && k !in after.vals && s in after.vals && s in before.vals ==>
      GoesFirst(p, before.vals[k], before.vals[s], now)
  }

  lemma {:induction false} FitMemoryInOrder(c: L1Config, st: L1State, size: nat, now: real)
    requires Ordered(st.entries)
    ensures InOrder(c.policy, st.entries, FitMemory(c, st, size, now).entries, now)
    decreases |st.entries.keys|
  {
    if (Total(st.entries) + size) as real > c.maxBytes && |st.entries.keys| > 0 {
      var v := SelectVictim(c.policy, st.entries, now).value;
      RemoveOrdered(st.entries, v);
      FitMemoryInOrder(c, Evict(st, v), size, now);
      FitMemorySubset(c, Evict(st, v), size, now);
      OneMoreInOrder(c.policy, st, v, FitMemory(c, st, size, now).entries, now);
    }
  }

  lemma {:induction false} FitSizeInOrder(c: L1Config, st: L1State, now: real)
    requires Ordered(st.entries)
    ensures InOrder(c.policy, st.entries, FitSize(c, st, now).entries, now)
    decreases |st.entries.keys|
  {
    if |st.entries.keys| > c.maxSize {
      var v := SelectVictim(c.policy, st.entries, now).value;
      RemoveOrdered(st.entries, v);
      FitSizeInOrder(c, Evict(st, v), now);
      FitSizeSubset(c, Evict(st, v), now);
      OneMoreInOrder(c.policy, st, v, FitSize(c, st, now).entries, now);
    }
  }

  lemma {:induction false} OneMoreInOrder(p: Policy, st: L1State, v: string, after: Store, now: real)
    requires Ordered(st.entries) && SelectVictim(p, st.entries, now) == Some(v) && v in st.entries.vals
    requires InOrder(p, Evict(st, v).entries, after, now)
    requires forall k :: k in after.vals ==> k in Evict(st, v).entries.vals
    ensures InOrder(p, st.entries, after, now)
  {
    forall k, s | k in st.entries.vals && k !in after.vals && s in after.vals && s in st.entries.vals
      ensures GoesFirst(p, st.entries.vals[k], st.entries.vals[s], now)
    {
      if k == v { VictimGoesFirst(p, st.entries, now, s); } else { assert k in Evict(st, v).entries.vals; }
    }
  }

  /** Whatever a put evicts goes no later than whatever old entry it leaves. */
  lemma {:induction false} PutEvictsInOrder(c: L1Config, st: L1State, e: CacheEntry, now: real, k: string, s: string)
    requires Ordered(st.entries) && k in st.entries.vals && s in st.entries.vals
    requires k != Stored(c, st, e).queryId && s != Stored(c, st, e).queryId
    requires k !in PutEntry(c, st, e, now).entries.vals && s in PutEntry(c, st, e, now).entries.vals
    ensures GoesFirst(c.policy, st.entries.vals[k], st.entries.vals[s], now)
  {
    var size := Footprint(e, c.dimension);
    var fitted := FitMemory(c, st, size, now);
    FitMemoryOrdered(c, st, size, now);
    FitMemorySubset(c, st, size, now);
    FitMemoryInOrder(c, st, size, now);
    var stored := Stored(c, fitted, e);
    var added := Added(fitted, stored, Generated(e.queryId));
    PutOrdered(fitted.entries, stored.queryId, stored);
    FitSizeSubset(c, added, now);
    FitSizeInOrder(c, added, now);
    assert s in added.entries.vals && s in fitted.entries.vals;
    if k in fitted.entries.vals { assert k in added.entries.vals; }
  }

  // ----- Not more than needed -----

  /** The last entry that was evicted for memory had to go: with it the new one did not fit. */
  lemma {:induction false} FitMemoryMinimal(c: L1Config, st: L1State, size: nat, now: real) returns (last: string)
    requires Ordered(st.entries) && FitMemory(c, st, size, now) != st
    ensures var r := FitMemory(c, st, size, now);
            && last in st.entries.vals && last !in r.entries.vals
            && (Total(r.entries) + st.entries.vals[last].memory + size) as real > c.maxBytes
    decreases |st.entries.keys|
  {
    var v := SelectVictim(c.policy, st.entries, now).value;
    var next := Evict(st, v);
    RemoveOrdered(st.entries, v);
    TotalRemove(st.entries, v);
    if FitMemory(c, next, size, now) == next {
      last := v;
    } else {
      last := FitMemoryMinimal(c, next, size, now);
    }
  }

  /** Nothing is evicted for memory exactly when the new entry fits or nothing is there. */
  lemma {:induction false} FitMemoryIff(c: L1Config, st: L1State, size: nat, now: real)
    requires Ordered(st.entries)
    ensures FitMemory(c, st, size, now) == st <==>
            (Total(st.entries) + size) as real <= c.maxBytes || st.entries.keys == []
  {
    if (Total(st.entries) + size) as real > c.maxBytes && |st.entries.keys| > 0 {
      var last := EvictedOne(c, st, size, now);
    }
  }

  lemma {:induction false} EvictedOne(c: L1Config, st: L1State, size: nat, now: real) returns (v: string)
    requires Ordered(st.entries) && (Total(st.entries) + size) as real > c.maxBytes && |st.entries.keys| > 0
    ensures SelectVictim(c.policy, st.entries, now) == Some(v)
    ensures v in st.entries.vals && v !in FitMemory(c, st, size, now).entries.vals
  {
    v := SelectVictim(c.policy, st.entries, now).value;
    RemoveOrdered(st.entries, v);
    FitMemorySubset(c, Evict(st, v), size, now);
  }

  /** When it is enough to evict the victim, all others stay as they were. */
  lemma {:induction false} OneVictimSuffices(c: L1Config, st: L1State, size: nat, now: real, k: string)
    requires Ordered(st.entries) && k in st.entries.vals && SelectVictim(c.policy, st.entries, now) != Some(k)
    requires var v := SelectVictim(c.policy, st.entries, now);
             v.Some? && v.value in st.entries.vals
             && (Total(st.entries) - st.entries.vals[v.value].memory + size) as real <= c.maxBytes
    ensures var r := FitMemory(c, st, size, now).entries; k in r.vals && r.vals[k] == st.entries.vals[k]
  {
    var v := SelectVictim(c.policy, st.entries, now).value;
    RemoveOrdered(st.entries, v);
    TotalRemove(st.entries, v);
    FitMemoryIff(c, Evict(st, v), size, now);
  }

  /** The size limit leaves as many entries as it allows. */
  lemma {:induction false} FitSizeExactly(c: L1Config, st: L1State, now: real)
    requires Ordered(st.entries)
    ensures |FitSize(c, st, now).entries.keys| == if |st.entries.keys| < c.maxSize then |st.entries.keys| else c.maxSize
    ensures |st.entries.keys| <= c.maxSize ==> FitSize(c, st, now) == st
    decreases |st.entries.keys|
  {
    if |st.entries.keys| > c.maxSize {
      var v := SelectVictim(c.policy, st.entries, now).value;
      RemoveOrdered(st.entries, v);
      FitSizeExactly(c, Evict(st, v), now);
    }
  }

  /** Room for one more entry: it fits the memory limit, and the size limit unless its id is
      resident already. */
  predicate HasRoom(c: L1Config, st: L1State, e: CacheEntry) {
    && (Total(st.entries) + c.dimension * 4 + e.textBytes + e.dataBytes + 150) as real <= c.maxBytes
    && (|st.entries.keys| < c.maxSize || (e.queryId in st.entries.vals && |st.entries.keys| <= c.maxSize && !Generated(e.queryId)))
  }

  /** A put with room evicts nothing: its entry is resident under its id with every field of
      the caller's and its size, and all others stay as they were. */
  lemma {:induction false} PutWithRoom(c: L1Config, st: L1State, e: CacheEntry, now: real)
    requires Ordered(st.entries) && HasRoom(c, st, e)
    ensures var id := if Generated(e.queryId) then QueryId(st.nextQueryId) else e.queryId;
            var size := c.dimension * 4 + e.textBytes + e.dataBytes + 150;
            PutEntry(c, st, e, now).entries.vals == st.entries.vals[id := e.(queryId := id, memory := size)]
  {
    FitMemoryIff(c, st, Footprint(e, c.dimension), now);
    var stored := Stored(c, st, e);
    PutOrdered(st.entries, stored.queryId, stored);
    FitSizeExactly(c, Added(st, stored, Generated(e.queryId)), now);
  }

  /** A put that does not fit beside what is resident evicts the victim, even where its entry
      replaces one of the same id. */
  lemma {:induction false} PutEvictsVictim(c: L1Config, st: L1State, e: CacheEntry, now: real) returns (v: string)
    requires Ordered(st.entries) && st.entries.keys != []
    requires (Total(st.entries) + c.dimension * 4 + e.textBytes + e.dataBytes + 150) as real > c.maxBytes
    ensures SelectVictim(c.policy, st.entries, now) == Some(v) && v in st.entries.vals
    ensures v != Stored(c, st, e).queryId ==> v !in PutEntry(c, st, e, now).entries.vals
  {
    var size := Footprint(e, c.dimension);
    v := EvictedOne(c, st, size, now);
    var fitted := FitMemory(c, st, size, now);
    FitMemoryOrdered(c, st, size, now);
    var stored := Stored(c, fitted, e);
    PutOrdered(fitted.entries, stored.queryId, stored);
    FitSizeSubset(c, Added(fitted, stored, Generated(e.queryId)), now);
  }

  /** A put into a full cache evicts exactly one of the old entries and the new one: whoever
      goes no later than all of these. */
  lemma {:induction false} FullPutEvictsOne(c: L1Config, st: L1State, e: CacheEntry, now: real) returns (v: string)
    requires Ordered(st.entries) && |st.entries.keys| == c.maxSize && Stored(c, st, e).queryId !in st.entries.vals
    requires (Total(st.entries) + c.dimension * 4 + e.textBytes + e.dataBytes + 150) as real <= c.maxBytes
    ensures var all := st.entries.vals[Stored(c, st, e).queryId := Stored(c, st, e)];
            && v in all && PutEntry(c, st, e, now).entries.vals == all - {v}
            && (forall k :: k in all ==> GoesFirst(c.policy, all[v], all[k], now))
  {
    FitMemoryIff(c, st, Footprint(e, c.dimension), now);
    var stored := Stored(c, st, e);
    var added := Added(st, stored, Generated(e.queryId));
    PutOrdered(st.entries, stored.queryId, stored);
    assert stored.queryId in added.entries.keys;
    v := SelectVictim(c.policy, added.entries, now).value;
    RemoveOrdered(added.entries, v);
    FitSizeExactly(c, Evict(added, v), now);
    forall k | k in added.entries.vals ensures GoesFirst(c.policy, added.entries.vals[v], added.entries.vals[k], now) {
      VictimGoesFirst(c.policy, added.entries, now, k);
    }
  }

  /** So a full LFU cache of entries that have all been used refuses every entry that has not:
      the put reports success and leaves the cache as it was. */
  lemma {:induction false} LfuRefusesNew(c: L1Config, st: L1State, e: CacheEntry, now: real)
    requires Ordered(st.entries) && c.policy == Lfu && |st.entries.keys| == c.maxSize
    requires Stored(c, st, e).queryId !in st.entries.vals && e.accessCount == 0
    requires (Total(st.entries) + c.dimension * 4 + e.textBytes + e.dataBytes + 150) as real <= c.maxBytes
    requires forall k :: k in st.entries.vals ==> st.entries.vals[k].accessCount > 0
    ensures PutEntry(c, st, e, now).entries.vals == st.entries.vals
  {
    var v := FullPutEvictsOne(c, st, e, now);
    UnusedGoesFirst(st.entries.vals, Stored(c, st, e), v, now);
  }

  lemma {:induction false} UnusedGoesFirst(vals: map<string, CacheEntry>, e: CacheEntry, v: string, now: real)
    requires e.queryId !in vals && e.accessCount == 0 && forall k :: k in vals ==> vals[k].accessCount > 0
    requires var all := vals[e.queryId := e]; v in all && GoesFirst(Lfu, all[v], all[e.queryId], now)
    ensures vals[e.queryId := e] - {v} == vals
  {
  }

  /** A get of an unexpired entry records the access and changes nothing else; a get of an
      expired one removes it, and only it. */
  lemma {:induction false} GetRecordsAccess(c: L1Config, st: L1State, id: string, now: real)
    requires id in st.entries.vals
    ensures var e, r := st.entries.vals[id], GetState(c, st, id, now).entries.vals;
            var late := c.ttl.Some? && e.createdAt + c.ttl.value as real < now;
            && (GetResult(c, st, id, now).None? <==> late)
            && (forall k :: k != id ==> (k in r <==> k in st.entries.vals) && (k in r ==> r[k] == st.entries.vals[k]))
            && (if late then id !in r
                else id in r && r[id] == e.(lastAccessedAt := now, accessCount := e.accessCount + 1)
                     && GetResult(c, st, id, now) == Some(r[id]))
  {
  }
}
