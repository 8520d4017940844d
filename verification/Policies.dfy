/** Cache entries and the choice of an eviction victim. */
module Policies {
  import opened Options
  import opened Sequences
  import opened Dicts
  import opened Reals
  import opened StableSort

  /** `textBytes` is the encoded size of the query text, `dataBytes` that of response and
      metadata; `computeCost` is the one metadata field a policy reads. */
  datatype CacheEntry = CacheEntry(queryId: string, queryText: string, embedding: seq<real>, response: string,
                                   domain: string, textBytes: nat, dataBytes: nat, computeCost: real,
                                   createdAt: real, lastAccessedAt: real, accessCount: nat, memory: nat)

  type Store = Dict<CacheEntry>

  datatype Policy = Lru | Lfu | Fifo | Ttl(ttlSeconds: Option<int>)
                  | Adaptive(lruWeight: real, lfuWeight: real) | CostAware

  predicate Expired(e: CacheEntry, ttl: Option<int>, now: real) {
    ttl.Some? && now - e.createdAt > ttl.value as real
  }

  // ----- Least by a two-part key -----

  type Key = (real, real)

  predicate KeyLess(a: Key, b: Key) { a.0 < b.0 || (a.0 == b.0 && a.1 < b.1) }

  /** Python's min: the first of the ids with a least key. */
  function Least(ids: seq<string>, key: string -> Key): (r: string)
    requires ids != []
    ensures r in ids
  {
    var last := ids[|ids| - 1];
    if |ids| == 1 then last
    else
      var best := Least(ids[..|ids| - 1], key);
      if KeyLess(key(last), key(best)) then last else best
  }

  lemma {:induction false} LeastNext(ids: seq<string>, i: nat, key: string -> Key)
    requires i < |ids|
    ensures Least(ids[..i + 1], key)
            == if i == 0 then ids[0]
               else var best := Least(ids[..i], key);
                    if KeyLess(key(ids[i]), key(best)) then ids[i] else best
  {
    assert ids[..i + 1][..i] == ids[..i];
  }

  lemma {:induction false} LeastIsLeast(ids: seq<string>, key: string -> Key)
    requires ids != []
    ensures forall i :: 0 <= i < |ids| ==> !KeyLess(key(ids[i]), key(Least(ids, key)))
  {
    if |ids| > 1 {
      var front := ids[..|ids| - 1];
      LeastIsLeast(front, key);
      forall i | 0 <= i < |ids| ensures !KeyLess(key(ids[i]), key(Least(ids, key))) {
        if i < |front| { assert front[i] == ids[i]; }
      }
    }
  }

  // ----- The policies -----

  const COST_WEIGHT := 0.5
  const FREQUENCY_WEIGHT := 0.3
  const AGE_WEIGHT := 0.2

  /** How long an expensive entry is worth keeping; the lowest score goes first. */
  function Retention(e: CacheEntry, now: real): real {
    var idle := now - e.lastAccessedAt;
    COST_WEIGHT * e.computeCost + FREQUENCY_WEIGHT * (e.accessCount as real) * 100.0
      - AGE_WEIGHT * (if idle < 1.0 then 1.0 else idle)
  }

  function AccessTime(vals: map<string, CacheEntry>): string -> real {
    id => if id in vals then vals[id].lastAccessedAt else 0.0
  }

  function Frequency(vals: map<string, CacheEntry>): string -> real {
    id => if id in vals then vals[id].accessCount as real else 0.0
  }

  function FirstExpired(ids: seq<string>, vals: map<string, CacheEntry>, ttl: Option<int>, now: real): (r: Option<string>)
    ensures r.Some? ==> r.value in ids && r.value in vals && Expired(vals[r.value], ttl, now)
    ensures r.None? ==> forall k :: k in ids && k in vals ==> !Expired(vals[k], ttl, now)
  {
    if ids == [] then None
    else if ids[0] in vals && Expired(vals[ids[0]], ttl, now) then Some(ids[0])
    else FirstExpired(ids[1..], vals, ttl, now)
  }

  function Position(ids: seq<string>, id: string): nat {
    if ids == [] || ids[0] == id then 0 else 1 + Position(ids[1..], id)
  }

  function Weighted(p: Policy, lruRank: real, lfuRank: real): real
    requires p.Adaptive?
  {
    Times(p.lruWeight, 1.0 - lruRank) + Times(p.lfuWeight, 1.0 - lfuRank)
  }

  /** i / len(entry_ids) for the position i of an id in a sorted list */
  function RankIn(sorted: seq<string>, id: string): real
    requires sorted != []
  {
    Position(sorted, id) as real / |sorted| as real
  }

  function CombinedScore(p: Policy, byAccess: seq<string>, byFrequency: seq<string>, id: string): real
    requires p.Adaptive? && byAccess != [] && byFrequency != []
  {
    Weighted(p, RankIn(byAccess, id), RankIn(byFrequency, id))
  }

  /** The adaptive score: both ranks inverted, so early in both orders means a high score. */
  function AdaptiveScore(p: Policy, store: Store, id: string): real
    requires p.Adaptive? && store.keys != []
  {
    CombinedScore(p, SortBy(store.keys, AccessTime(store.vals)), SortBy(store.keys, Frequency(store.vals)), id)
  }

  /** The key a policy minimises. */
  function VictimKey(p: Policy, store: Store, now: real): string -> Key
    requires store.keys != []
  {
    id =>
      if id !in store.vals then (0.0, 0.0)
      else
        var e := store.vals[id];
        match p
        case Lru => (e.lastAccessedAt, 0.0)
        case Lfu => (e.accessCount as real, e.createdAt)
        case Fifo => (e.createdAt, 0.0)
        case Ttl(_) => (e.lastAccessedAt, 0.0)
        case Adaptive(_, _) => (AdaptiveScore(p, store, id), 0.0)
        case CostAware => (Retention(e, now), 0.0)
  }

  /** A zero ttl counts as none for the policy. */
  function TtlVictim(p: Policy, store: Store, now: real): Option<string> {
    if p.Ttl? && p.ttlSeconds.Some? && p.ttlSeconds.value != 0
    then FirstExpired(store.keys, store.vals, p.ttlSeconds, now) else None
  }

  /** The entry to evict: always a resident one when there is any. */
  function SelectVictim(p: Policy, store: Store, now: real): (r: Option<string>)
    requires Ordered(store)
    ensures r.None? <==> store.keys == []
    ensures r.Some? ==> r.value in store.vals
  {
    if store.keys == [] then None
    else if TtlVictim(p, store, now).Some? then TtlVictim(p, store, now)
    else Some(Least(store.keys, VictimKey(p, store, now)))
  }

  lemma {:induction false} AdaptiveNext(p: Policy, store: Store, now: real, i: nat)
    requires p.Adaptive? && Ordered(store) && i < |store.keys|
    ensures store.keys[i] in store.vals && (i > 0 ==> Least(store.keys[..i], VictimKey(p, store, now)) in store.vals)
    ensures Least(store.keys[..i + 1], VictimKey(p, store, now))
            == if i == 0 then store.keys[0]
               else var best := Least(store.keys[..i], VictimKey(p, store, now));
                    if AdaptiveScore(p, store, store.keys[i]) < AdaptiveScore(p, store, best) then store.keys[i] else best
  {
    LeastNext(store.keys, i, VictimKey(p, store, now));
    assert store.keys[i] in store.keys;
    if i > 0 {
      var best := Least(store.keys[..i], VictimKey(p, store, now));
      assert best in store.keys[..i];
      assert best in store.keys;
    }
  }

  /** The adaptive policy tracks the minimum in a loop of its own. */
  method SelectAdaptive(p: Policy, store: Store, now: real) returns (victim: Option<string>)
    requires p.Adaptive? && Ordered(store)
    ensures victim == SelectVictim(p, store, now)
  {
    if store.keys == [] { return None; }
    var byAccess := SortBy(store.keys, AccessTime(store.vals));
    var byFrequency := SortBy(store.keys, Frequency(store.vals));
    var best, minScore := "", 0.0;
    for i := 0 to |store.keys|
      invariant i > 0 ==> best == Least(store.keys[..i], VictimKey(p, store, now))
      invariant i > 0 ==> minScore == AdaptiveScore(p, store, best)
    {
      var combined := CombinedScore(p, byAccess, byFrequency, store.keys[i]);
      AdaptiveNext(p, store, now, i);
      if i == 0 || combined < minScore { best, minScore := store.keys[i], combined; }
    }
    assert store.keys[..|store.keys|] == store.keys;
    victim := Some(best);
  }

  /** What a victim is: expired when the TTL policy finds an expired entry, otherwise no
      resident entry has a smaller key. */
  lemma {:induction false} VictimIsLeast(p: Policy, store: Store, now: real)
    requires Ordered(store) && store.keys != []
    ensures var v := SelectVictim(p, store, now).value;
            if TtlVictim(p, store, now).Some? then Expired(store.vals[v], p.ttlSeconds, now)
            else forall k :: k in store.vals ==>
                   !KeyLess(VictimKey(p, store, now)(k), VictimKey(p, store, now)(v))
  {
    if TtlVictim(p, store, now).None? {
      var key := VictimKey(p, store, now);
      LeastIsLeast(store.keys, key);
      forall k | k in store.vals ensures !KeyLess(key(k), key(SelectVictim(p, store, now).value)) {
        assert k in store.keys;
      }
    }
  }

  // ----- What the adaptive policy evicts -----

  lemma {:induction false} PositionAt(ids: seq<string>, id: string)
    requires id in ids
    ensures Position(ids, id) < |ids| && ids[Position(ids, id)] == id
  {
    if ids[0] != id { PositionAt(ids[1..], id); }
  }

  lemma {:induction false} LargestLast(s: seq<string>, key: string -> real, id: string)
    requires Ascending(s, key) && id in s && forall x :: x in s && x != id ==> key(x) < key(id)
    ensures s[|s| - 1] == id
  {
    PositionAt(s, id);
    var last := s[|s| - 1];
    assert last in s && key(s[Position(s, id)]) <= key(last);
  }

  /** The last of a list without repetitions has the last position, and no other has. */
  lemma {:induction false} LastPosition(s: seq<string>, x: string)
    requires x in s && multiset(s)[s[|s| - 1]] <= 1
    ensures if x == s[|s| - 1] then Position(s, x) == |s| - 1 else Position(s, x) < |s| - 1
  {
    PositionAt(s, x);
    if x == s[|s| - 1] && Position(s, x) < |s| - 1 { TwiceIn(s, Position(s, x), |s| - 1); }
  }

  /** The id with the strictly largest key comes last in the sorted list, and no other does. */
  lemma {:induction false} LargestIsLast(ids: seq<string>, key: string -> real, id: string, x: string)
    requires NoDup(ids) && id in ids && x in ids && x != id
    requires forall y :: y in ids && y != id ==> key(y) < key(id)
    ensures Position(SortBy(ids, key), x) < Position(SortBy(ids, key), id)
  {
    var s := SortBy(ids, key);
    SortByCorrect(ids, key);
    SortByMembers(ids, key);
    LargestLast(s, key, id);
    OnceOnly(ids, id);
    LastPosition(s, id);
    LastPosition(s, x);
  }

  function WeightedRank(p: Policy, store: Store, id: string): real
    requires p.Adaptive? && store.keys != []
  {
    Times(p.lruWeight, RankIn(SortBy(store.keys, AccessTime(store.vals)), id))
      + Times(p.lfuWeight, RankIn(SortBy(store.keys, Frequency(store.vals)), id))
  }

  lemma {:induction false} ScoreOfRank(p: Policy, store: Store, id: string)
    requires p.Adaptive? && store.keys != []
    ensures AdaptiveScore(p, store, id) == p.lruWeight + p.lfuWeight - WeightedRank(p, store, id)
  {
    InvertedTerm(p.lruWeight, RankIn(SortBy(store.keys, AccessTime(store.vals)), id));
    InvertedTerm(p.lfuWeight, RankIn(SortBy(store.keys, Frequency(store.vals)), id));
  }

  lemma {:induction false} InvertedTerm(w: real, r: real)
    ensures Times(w, 1.0 - r) == w - Times(w, r)
  {
  }

  /** The victim of the adaptive policy has the largest weighted ranks, where rank 0 is the
      entry used longest ago, or least often. */
  lemma {:induction false} AdaptiveMaximisesRank(p: Policy, store: Store, now: real, k: string)
    requires p.Adaptive? && Ordered(store) && k in store.vals
    ensures store.keys != []
    ensures WeightedRank(p, store, k) <= WeightedRank(p, store, SelectVictim(p, store, now).value)
  {
    assert k in store.keys;
    var v := SelectVictim(p, store, now).value;
    VictimIsLeast(p, store, now);
    assert !KeyLess(VictimKey(p, store, now)(k), VictimKey(p, store, now)(v));
    ScoreOfRank(p, store, k);
    ScoreOfRank(p, store, v);
  }

  lemma {:induction false} RankSmaller(sorted: seq<string>, x: string, y: string)
    requires sorted != [] && Position(sorted, x) < Position(sorted, y)
    ensures RankIn(sorted, x) < RankIn(sorted, y)
  {
    var n := |sorted| as real;
    var r := Divided(Position(sorted, x) as real, n);
    var q := Divided(Position(sorted, y) as real, n);
    if q <= r { Monotone(q, r, n); }
  }

  /** A strictly larger rank weighs more, under a weight that is not negative. */
  lemma {:induction false} WeighedMore(w: real, r: real, q: real)
    requires w >= 0.0 && r < q
    ensures Times(w, r) <= Times(w, q) && (w > 0.0 ==> Times(w, r) < Times(w, q))
  {
    Commute(w, r);
    Commute(w, q);
    Monotone(r, q, w);
    if w > 0.0 { StrictlyMonotone(r, q, w); }
  }

  lemma {:induction false} SmallerRanks(p: Policy, store: Store, id: string, other: string)
    requires p.Adaptive? && p.lruWeight >= 0.0 && p.lfuWeight >= 0.0 && p.lruWeight + p.lfuWeight > 0.0
    requires Ordered(store) && id in store.keys && other in store.keys && other != id
    requires forall x :: x in store.keys && x != id ==> AccessTime(store.vals)(x) < AccessTime(store.vals)(id)
    requires forall x :: x in store.keys && x != id ==> Frequency(store.vals)(x) < Frequency(store.vals)(id)
    ensures WeightedRank(p, store, other) < WeightedRank(p, store, id)
  {
    var byAccess := SortBy(store.keys, AccessTime(store.vals));
    var byFrequency := SortBy(store.keys, Frequency(store.vals));
    LargestIsLast(store.keys, AccessTime(store.vals), id, other);
    LargestIsLast(store.keys, Frequency(store.vals), id, other);
    RankSmaller(byAccess, other, id);
    RankSmaller(byFrequency, other, id);
    WeighedMore(p.lruWeight, RankIn(byAccess, other), RankIn(byAccess, id));
    WeighedMore(p.lfuWeight, RankIn(byFrequency, other), RankIn(byFrequency, id));
  }

  /** The inverted ranks favour evicting what was used last and most: whatever the store, an
      entry that is both the latest and the most frequent is the victim. */
  lemma {:induction false} AdaptiveTakesTheRecent(p: Policy, store: Store, now: real, id: string)
    requires p.Adaptive? && p.lruWeight >= 0.0 && p.lfuWeight >= 0.0 && p.lruWeight + p.lfuWeight > 0.0
    requires Ordered(store) && id in store.vals
    requires forall x :: x in store.vals && x != id ==>
               store.vals[x].lastAccessedAt < store.vals[id].lastAccessedAt
               && store.vals[x].accessCount < store.vals[id].accessCount
    ensures SelectVictim(p, store, now) == Some(id)
  {
    assert id in store.keys;
    var v := SelectVictim(p, store, now).value;
    AdaptiveMaximisesRank(p, store, now, id);
    if v != id { SmallerRanks(p, store, id, v); }
  }
}
