/** What each tier operation does, key by key and field by field. */
module TierEffects {
  import opened Options
  import opened Dicts
  import opened Policies
  import opened L1Spec
  import opened L1Theorems
  import opened EvictionTheorems
  import opened TierSpec
  import opened TierTheorems

  // ----- Put -----

  predicate WritesThrough(c: TierConfig) { c.strategy.WriteThrough? || c.strategy.WriteBack? }

  /** The id an entry is stored under. */
  function IdOf(t: Tiers, e: CacheEntry): string {
    if Generated(e.queryId) then QueryId(t.l1.nextQueryId) else e.queryId
  }

  /** What L2 holds is the entry that was put, except for domain, id and memory estimate. */
  predicate SameOnTheWire(held: CacheEntry, e: CacheEntry) {
    && held.queryText == e.queryText && held.embedding == e.embedding && held.response == e.response
    && held.createdAt == e.createdAt && held.lastAccessedAt == e.lastAccessedAt && held.accessCount == e.accessCount
    && held.textBytes == e.textBytes && held.dataBytes == e.dataBytes && held.computeCost == e.computeCost
    && held.domain == "general" && held.memory == 0
  }

  /** No key but this one is touched. */
  ghost predicate OthersSame<V>(before: Option<map<string, V>>, after: Option<map<string, V>>, id: string) {
    && (before.Some? <==> after.Some?)
    && (before.Some? ==> forall k :: k != id ==>
          (k in before.value <==> k in after.value) && (k in before.value ==> before.value[k] == after.value[k]))
  }

  /** A put under WRITE_THROUGH or WRITE_BACK writes the entry to L2 and touches no other key. */
  lemma {:induction false} PutWritesL2(c: TierConfig, t: Tiers, e: CacheEntry, owner: string, now: real)
    requires Ordered(t.l1.entries) && WritesThrough(c)
    ensures var r, id := Put3(c, t, e, owner, now).l2, IdOf(t, e);
            && OthersSame(t.l2, r, id)
            && (t.l2.Some? ==> id in r.value && r.value[id].queryId == id && SameOnTheWire(r.value[id], e))
  {
  }

  /** It also writes a row: a new one belongs to the tenant of the put, an existing one takes
      over response and metadata and keeps all the rest. */
  lemma {:induction false} PutWritesL3(c: TierConfig, t: Tiers, e: CacheEntry, owner: string, now: real)
    requires Ordered(t.l1.entries) && WritesThrough(c)
    ensures var r, id := Put3(c, t, e, owner, now).l3, IdOf(t, e);
            && OthersSame(t.l3, r, id)
            && (t.l3.Some? ==>
                  id in r.value && r.value[id].entry.response == e.response && r.value[id].entry.dataBytes == e.dataBytes
                  && r.value[id].entry.computeCost == e.computeCost && RowWritten(t.l3.value, r.value[id], e, owner, now, id))
  {
  }

  ghost predicate RowWritten(before: L3Map, row: Row, e: CacheEntry, owner: string, now: real, id: string) {
    if id in before then
      var was := before[id];
      && row.tenant == was.tenant && row.hits == was.hits && row.visible == was.visible
      && row.entry.queryText == was.entry.queryText && row.entry.embedding == was.entry.embedding
      && row.entry.createdAt == was.entry.createdAt && row.entry.queryId == was.entry.queryId
    else
      && row.tenant == owner && row.hits == 0 && row.visible
      && row.entry.queryText == e.queryText && row.entry.embedding == e.embedding
      && row.entry.createdAt == now && row.entry.queryId == id
  }

  /** L1_ONLY leaves the shared tiers alone; L2_ONLY writes L2 alone, and fails without it. */
  lemma {:induction false} PutElsewhere(c: TierConfig, t: Tiers, e: CacheEntry, owner: string, now: real)
    requires Ordered(t.l1.entries)
    ensures var r := Put3(c, t, e, owner, now);
            && (c.strategy.L1Only? ==> r.l2 == t.l2 && r.l3 == t.l3)
            && (c.strategy.L2Only? ==>
                  r.l1 == t.l1 && r.l3 == t.l3 && OthersSame(t.l2, r.l2, e.queryId)
                  && (t.l2.Some? ==> e.queryId in r.l2.value && SameOnTheWire(r.l2.value[e.queryId], e)))
            && (!PutOk(c, t) <==> c.strategy.L2Only? && t.l2.None?)
            && (!PutOk(c, t) ==> r == t)
  {
  }

  /** Under every strategy but L2_ONLY a put with room is resident in L1, with every field. */
  lemma {:induction false} PutWritesL1(c: TierConfig, t: Tiers, e: CacheEntry, owner: string, now: real)
    requires Ordered(t.l1.entries) && !c.strategy.L2Only? && HasRoom(c.l1, t.l1, e)
    ensures var r, id := Put3(c, t, e, owner, now).l1.entries.vals, IdOf(t, e);
            r == t.l1.entries.vals[id := e.(queryId := id, memory := c.l1.dimension * 4 + e.textBytes + e.dataBytes + 150)]
  {
    PutWithRoom(c.l1, t.l1, e, now);
  }

  /** Another node, whose L1 lacks the id, reads from L2 what this node has put. */
  lemma {:induction false} OthersReadL2(c: TierConfig, t: Tiers, e: CacheEntry, owner: string, now: real, other: L1State,
                                        tenant: Option<string>, later: real)
    requires Ordered(t.l1.entries) && WritesThrough(c) && t.l2.Some? && Plain(e.queryId)
    requires Ordered(other.entries) && e.queryId !in other.entries.vals
    ensures var answer := Answer(c, Put3(c, t, e, owner, now).(l1 := other), e.queryId, tenant, later);
            && answer.Some? && answer.value.source == FromL2 && answer.value.entry.response == e.response
            && answer.value.entry.queryText == e.queryText && answer.value.entry.embedding == e.embedding
  {
    PutWritesL2(c, t, e, owner, now);
  }

  /** Where L2 is not configured or has lost the id, it reads a row first put by this tenant
      unless it asks for another one. */
  lemma {:induction false} OthersReadL3(c: TierConfig, t: Tiers, e: CacheEntry, owner: string, now: real, other: Tiers,
                                        tenant: Option<string>, later: real)
    requires Ordered(t.l1.entries) && WritesThrough(c) && t.l3.Some? && Plain(e.queryId) && e.queryId !in t.l3.value
    requires Ordered(other.l1.entries) && e.queryId !in other.l1.entries.vals
    requires (other.l2.Some? ==> e.queryId !in other.l2.value) && other.l3 == Put3(c, t, e, owner, now).l3
    ensures var answer := Answer(c, other, e.queryId, tenant, later);
            && (answer.Some? <==> tenant.None? || tenant.value == "" || tenant.value == owner)
            && (answer.Some? ==> answer.value.source == FromL3 && answer.value.entry.response == e.response
                                 && answer.value.entry.queryText == e.queryText)
  {
    PutWritesL3(c, t, e, owner, now);
  }

  // ----- Get -----

  /** Held by L1 and not older than its time to live. */
  predicate Fresh1(c: TierConfig, t: Tiers, id: string, now: real) {
    id in t.l1.entries.vals
    && (c.l1.ttl.Some? ==> now <= t.l1.entries.vals[id].createdAt + c.l1.ttl.value as real)
  }

  /** A row that the database shows to this tenant. */
  predicate Shown(l3: Option<L3Map>, id: string, tenant: Option<string>) {
    && l3.Some? && id in l3.value && l3.value[id].visible
    && (tenant.None? || tenant.value == "" || l3.value[id].tenant == tenant.value)
  }

  /** The first of L1, L2 and L3 that has the id answers, with what it holds. */
  lemma {:induction false} WhoAnswers(c: TierConfig, t: Tiers, id: string, tenant: Option<string>, now: real)
    ensures var answer := Answer(c, t, id, tenant, now);
            if Fresh1(c, t, id, now) then
              answer == Some(Hit(t.l1.entries.vals[id].(lastAccessedAt := now,
                                                        accessCount := t.l1.entries.vals[id].accessCount + 1), FromL1))
            else if t.l2.Some? && id in t.l2.value then
              && answer.Some? && answer.value.source == FromL2 && SameAnswer(answer.value.entry, t.l2.value[id])
              && answer.value.entry.lastAccessedAt == t.l2.value[id].lastAccessedAt
              && answer.value.entry.accessCount == t.l2.value[id].accessCount
            else if Shown(t.l3, id, tenant) then
              && answer.Some? && answer.value.source == FromL3 && SameAnswer(answer.value.entry, t.l3.value[id].entry)
              && answer.value.entry.lastAccessedAt == now && answer.value.entry.accessCount == t.l3.value[id].hits + 1
            else answer == None
  {
  }

  predicate SameAnswer(answer: CacheEntry, held: CacheEntry) {
    && answer.response == held.response && answer.queryText == held.queryText && answer.embedding == held.embedding
    && answer.domain == held.domain && answer.createdAt == held.createdAt && answer.computeCost == held.computeCost
    && (Plain(held.queryId) ==> answer.queryId == held.queryId)
  }

  /** A hit in L1, a miss, and a hit without promotion copy nothing; what changes is the access
      of the L1 entry, and one more hit of the row that answered. */
  lemma {:induction false} NothingCopied(c: TierConfig, t: Tiers, id: string, tenant: Option<string>, now: real)
    requires Ordered(t.l1.entries)
    requires Fresh1(c, t, id, now) || (if t.l2.Some? && id in t.l2.value then !c.promoteL2
                                       else Shown(t.l3, id, tenant) ==> !c.promoteL3)
    ensures var r := Get3(c, t, id, tenant, now);
            && r.l1 == GetState(c.l1, t.l1, id, now) && r.l2 == t.l2
            && (if Fresh1(c, t, id, now) || (t.l2.Some? && id in t.l2.value) || !Shown(t.l3, id, tenant) then r.l3 == t.l3
                else HitCounted(t.l3, r.l3, id))
  {
  }

  ghost predicate HitCounted(before: Option<L3Map>, after: Option<L3Map>, id: string) {
    && before.Some? && after.Some? && id in before.value && OthersSame(before, after, id) && id in after.value
    && after.value[id] == before.value[id].(hits := before.value[id].hits + 1)
  }

  lemma {:induction false} CopiedToL1(c: TierConfig, st: L1State, e: CacheEntry, id: string, now: real)
    requires Ordered(st.entries) && Plain(id) && e.queryId == id && HasRoom(c.l1, st, e) && id !in st.entries.vals
    ensures var r := PutEntry(c.l1, st, e, now).entries.vals;
            && id in r && SameAnswer(r[id], e) && r[id].lastAccessedAt == e.lastAccessedAt
            && r[id].accessCount == e.accessCount && (forall k :: k in st.entries.vals ==> k in r && r[k] == st.entries.vals[k])
  {
    PutWithRoom(c.l1, st, e, now);
  }

  /** A hit in L2 that is promoted is copied to L1, if that has room; the shared tiers stay. */
  lemma {:induction false} PromotedFromL2(c: TierConfig, t: Tiers, id: string, tenant: Option<string>, now: real)
    requires Ordered(t.l1.entries) && c.promoteL2 && Plain(id) && id !in t.l1.entries.vals
    requires t.l2.Some? && id in t.l2.value && t.l2.value[id].queryId == id && HasRoom(c.l1, t.l1, t.l2.value[id])
    ensures var r := Get3(c, t, id, tenant, now);
            && r.l2 == t.l2 && r.l3 == t.l3
            && id in r.l1.entries.vals && SameAnswer(r.l1.entries.vals[id], t.l2.value[id])
            && (forall k :: k in t.l1.entries.vals ==> k in r.l1.entries.vals && r.l1.entries.vals[k] == t.l1.entries.vals[k])
  {
    CopiedToL1(c, t.l1, t.l2.value[id], id, now);
  }

  /** A hit in L3 that is promoted is copied to L1, if that has room, and to L2; its row counts
      one more hit. */
  lemma {:induction false} PromotedFromL3(c: TierConfig, t: Tiers, id: string, tenant: Option<string>, now: real)
    requires Ordered(t.l1.entries) && c.promoteL3 && Plain(id) && id !in t.l1.entries.vals
    requires (t.l2.Some? ==> id !in t.l2.value) && Shown(t.l3, id, tenant) && t.l3.value[id].entry.queryId == id
    requires HasRoom(c.l1, t.l1, t.l3.value[id].entry)
    ensures var r, row := Get3(c, t, id, tenant, now), t.l3.value[id].entry;
            && id in r.l1.entries.vals && r.l1.entries.vals[id].response == row.response
            && r.l1.entries.vals[id].queryText == row.queryText && r.l1.entries.vals[id].lastAccessedAt == now
            && OthersSame(t.l2, r.l2, id) && HitCounted(t.l3, r.l3, id)
            && (t.l2.Some? ==> id in r.l2.value && r.l2.value[id].response == row.response
                               && r.l2.value[id].queryText == row.queryText && r.l2.value[id].embedding == row.embedding)
  {
    CopiedToL1(c, t.l1, ReadL3(t.l3.value[id], now), id, now);
  }

  /** So the next get of a promoted id is answered by L1, while it is not too old. */
  lemma {:induction false} SecondGetFromL1(c: TierConfig, t: Tiers, id: string, tenant: Option<string>, now: real, later: real)
    requires Ordered(t.l1.entries) && c.promoteL3 && Plain(id) && id !in t.l1.entries.vals
    requires (t.l2.Some? ==> id !in t.l2.value) && Shown(t.l3, id, tenant) && t.l3.value[id].entry.queryId == id
    requires HasRoom(c.l1, t.l1, t.l3.value[id].entry)
    requires c.l1.ttl.Some? ==> later <= t.l3.value[id].entry.createdAt + c.l1.ttl.value as real
    ensures var answer := Answer(c, Get3(c, t, id, tenant, now), id, tenant, later);
            answer.Some? && answer.value.source == FromL1 && answer.value.entry.response == t.l3.value[id].entry.response
  {
    PromotedFromL3(c, t, id, tenant, now);
    CopiedToL1(c, t.l1, ReadL3(t.l3.value[id], now), id, now);
  }

  // ----- Delete and clear -----

  /** A delete removes its id from L1 and L2, its row unless that is another tenant's, and
      touches no other key. */
  lemma {:induction false} DeleteRemoves(t: Tiers, id: string, tenant: Option<string>)
    ensures var r := Delete3(t, id, tenant);
            && id !in r.l1.entries.vals && OthersSame(Some(t.l1.entries.vals), Some(r.l1.entries.vals), id)
            && OthersSame(t.l2, r.l2, id) && (r.l2.Some? ==> id !in r.l2.value)
            && OthersSame(t.l3, r.l3, id)
            && (t.l3.Some? && id in t.l3.value ==>
                  (id in r.l3.value <==> tenant.Some? && tenant.value != "" && t.l3.value[id].tenant != tenant.value)
                  && (id in r.l3.value ==> r.l3.value[id] == t.l3.value[id]))
            && (t.l3.Some? && id !in t.l3.value ==> id !in r.l3.value)
  {
  }

  /** A delete reports success exactly when every configured tier changes. */
  lemma {:induction false} HeldByAllIff(t: Tiers, id: string, tenant: Option<string>)
    ensures var r := Delete3(t, id, tenant);
            HeldByAll(t, id, tenant) <==>
            && r.l1.entries.vals != t.l1.entries.vals
            && (t.l2.Some? ==> r.l2 != t.l2)
            && (t.l3.Some? ==> r.l3 != t.l3)
  {
    var r := Delete3(t, id, tenant);
    assert id in t.l1.entries.vals <==> r.l1.entries.vals != t.l1.entries.vals by {
      assert id !in r.l1.entries.vals;
    }
    if t.l2.Some? { RemovedDiffers(t.l2.value, id); }
    if t.l3.Some? { RemovedDiffers(t.l3.value, id); }
  }

  lemma {:induction false} RemovedDiffers<V>(m: map<string, V>, id: string)
    ensures id in m <==> m - {id} != m
  {
    assert id !in m - {id};
  }

  /** A clear empties L1 and L2 and removes exactly the tenant's rows, or all. */
  lemma {:induction false} ClearRemoves(t: Tiers, tenant: Option<string>)
    ensures var r := Clear3(t, tenant);
            && r.l1.entries.vals == map[] && r.l1.textToId == map[] && r.l1.nextQueryId == t.l1.nextQueryId
            && (r.l2.Some? <==> t.l2.Some?) && (r.l2.Some? ==> r.l2.value == map[])
            && (r.l3.Some? <==> t.l3.Some?)
            && (r.l3.Some? ==> forall k ::
                  (k in r.l3.value <==>
                     k in t.l3.value && tenant.Some? && tenant.value != "" && t.l3.value[k].tenant != tenant.value)
                  && (k in r.l3.value ==> r.l3.value[k] == t.l3.value[k]))
  {
  }
}
