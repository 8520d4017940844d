/** The three tiers as a value, and what each manager operation does to them.

    The shared tiers are maps that may lose entries at any time; no tier fails. */
module TierSpec {
  import opened Options
  import opened Dicts
  import opened Policies
  import opened L1Spec
  import opened L1Theorems

  /** A database row.  An expired row stays, invisible, until it is deleted. */
  datatype Row = Row(entry: CacheEntry, tenant: string, hits: nat, visible: bool)

  type L2Map = map<string, CacheEntry>
  type L3Map = map<string, Row>

  datatype Strategy = WriteThrough | WriteBack | L1Only | L2Only

  datatype TierConfig = TierConfig(l1: L1Config, strategy: Strategy, promoteL2: bool, promoteL3: bool)

  datatype Tiers = Tiers(l1: L1State, l2: Option<L2Map>, l3: Option<L3Map>)

  datatype Source = FromL1 | FromL2 | FromL3

  datatype Hit = Hit(entry: CacheEntry, source: Source)

  // ----- The second tier -----

  /** What comes back from the wire: the domain and the memory estimate are not sent. */
  function Wire(e: CacheEntry): CacheEntry { e.(domain := "general", memory := 0) }

  function PutL2(l2: Option<L2Map>, e: CacheEntry): Option<L2Map> {
    if l2.None? then None else Some(l2.value[e.queryId := Wire(e)])
  }

  // ----- The third tier -----

  /** An existing row only takes over response and metadata. */
  function PutL3(l3: Option<L3Map>, e: CacheEntry, tenant: string, now: real): Option<L3Map> {
    if l3.None? then None
    else if e.queryId in l3.value then
      var row := l3.value[e.queryId];
      var kept := row.entry.(response := e.response, dataBytes := e.dataBytes, computeCost := e.computeCost);
      Some(l3.value[e.queryId := row.(entry := kept)])
    else Some(l3.value[e.queryId := Row(e.(createdAt := now), tenant, 0, true)])
  }

  predicate VisibleIn(l3: Option<L3Map>, id: string, tenant: Option<string>) {
    && l3.Some? && id in l3.value && l3.value[id].visible
    && (Given(tenant) ==> l3.value[id].tenant == tenant.value)
  }

  function ReadL3(row: Row, now: real): CacheEntry {
    row.entry.(lastAccessedAt := now, accessCount := row.hits + 1, memory := 0)
  }

  function CountL3(l3: Option<L3Map>, id: string): Option<L3Map> {
    if l3.None? || id !in l3.value then l3
    else Some(l3.value[id := l3.value[id].(hits := l3.value[id].hits + 1)])
  }

  function DeleteL3(l3: Option<L3Map>, id: string, tenant: Option<string>): Option<L3Map> {
    if l3.None? then None
    else if id in l3.value && Given(tenant) && l3.value[id].tenant != tenant.value then l3
    else Some(l3.value - {id})
  }

  function ClearL3(l3: Option<L3Map>, tenant: Option<string>): Option<L3Map> {
    if l3.None? then None
    else Some(map k | k in l3.value && Given(tenant) && l3.value[k].tenant != tenant.value :: l3.value[k])
  }

  // ----- Manager operations -----

  function Put3(c: TierConfig, t: Tiers, e: CacheEntry, tenant: string, now: real): Tiers
    requires Ordered(t.l1.entries)
  {
    match c.strategy
    case L1Only => t.(l1 := PutEntry(c.l1, t.l1, e, now))
    case L2Only => t.(l2 := PutL2(t.l2, e))
    case _ =>
      var stored := Stored(c.l1, t.l1, e);
      Tiers(PutEntry(c.l1, t.l1, e, now), PutL2(t.l2, stored), PutL3(t.l3, stored, tenant, now))
  }

  /** A put fails only where the strategy needs a tier that is not configured. */
  predicate PutOk(c: TierConfig, t: Tiers) { c.strategy.L2Only? ==> t.l2.Some? }

  function LookupShared(t: Tiers, id: string, tenant: Option<string>, now: real): Option<Hit> {
    if t.l2.Some? && id in t.l2.value then Some(Hit(t.l2.value[id], FromL2))
    else if VisibleIn(t.l3, id, tenant) then Some(Hit(ReadL3(t.l3.value[id], now), FromL3))
    else None
  }

  /** The hit of a lookup, before any promotion. */
  function Lookup(c: TierConfig, t: Tiers, id: string, tenant: Option<string>, now: real): Option<Hit> {
    var r := GetResult(c.l1, t.l1, id, now);
    if r.Some? then Some(Hit(r.value, FromL1)) else LookupShared(t, id, tenant, now)
  }

  predicate Promotes(c: TierConfig, s: Source) {
    match s
    case FromL1 => false
    case FromL2 => c.promoteL2
    case FromL3 => c.promoteL3
  }

  /** What a hit does to the tiers: a row is counted, and the entry is copied upwards. */
  function AfterHit(c: TierConfig, t: Tiers, hit: Hit, id: string, now: real): Tiers
    requires Ordered(t.l1.entries)
  {
    var stored := Stored(c.l1, t.l1, hit.entry);
    var l3 := if hit.source == FromL3 then CountL3(t.l3, id) else t.l3;
    if !Promotes(c, hit.source) then t.(l3 := l3)
    else Tiers(PutEntry(c.l1, t.l1, hit.entry, now), if hit.source == FromL3 then PutL2(t.l2, stored) else t.l2, l3)
  }

  /** The tiers after a lookup: counters, expiry in L1, and promotion of the hit. */
  function Get3(c: TierConfig, t: Tiers, id: string, tenant: Option<string>, now: real): Tiers
    requires Ordered(t.l1.entries)
  {
    var hit := Lookup(c, t, id, tenant, now);
    StepOrdered(c.l1, t.l1, Event(GetOp(id), now));
    var accessed := t.(l1 := GetState(c.l1, t.l1, id, now));
    if hit.Some? then AfterHit(c, accessed, hit.value, id, now) else accessed
  }

  /** Promotion stamps the id and the memory estimate of the entry. */
  function Stamped(c: TierConfig, l1: L1State, hit: Hit): Hit {
    if Promotes(c, hit.source) then hit.(entry := Stored(c.l1, l1, hit.entry)) else hit
  }

  /** The answer of a lookup. */
  function Answer(c: TierConfig, t: Tiers, id: string, tenant: Option<string>, now: real): Option<Hit> {
    var hit := Lookup(c, t, id, tenant, now);
    if hit.None? then None else Some(Stamped(c, GetState(c.l1, t.l1, id, now), hit.value))
  }

  function Delete3(t: Tiers, id: string, tenant: Option<string>): Tiers {
    Tiers(Evict(t.l1, id), if t.l2.Some? then Some(t.l2.value - {id}) else None, DeleteL3(t.l3, id, tenant))
  }

  /** Every configured tier holds the entry, and the row may be deleted by this tenant. */
  predicate HeldByAll(t: Tiers, id: string, tenant: Option<string>) {
    && id in t.l1.entries.vals
    && (t.l2.Some? ==> id in t.l2.value)
    && (t.l3.Some? ==> id in t.l3.value && (Given(tenant) ==> t.l3.value[id].tenant == tenant.value))
  }

  function Clear3(t: Tiers, tenant: Option<string>): Tiers {
    Tiers(Cleared(t.l1), if t.l2.Some? then Some(map[]) else None, ClearL3(t.l3, tenant))
  }

  // ----- Runs -----

  datatype TierOp =
    | TPut(entry: CacheEntry, owner: string)
    | TGet(id: string, asTenant: Option<string>)
    | TDelete(deleted: string, ofTenant: Option<string>)
    | TClear(cleared: Option<string>)
    // Steps of the environment: any tier may lose an entry at any time.
    | LoseL1(lost1: string) | LoseL2(lost2: string) | ExpireL3(expired: string) | PurgeL3(purged: string)

  function Expire(l3: Option<L3Map>, id: string): Option<L3Map> {
    if l3.None? || id !in l3.value then l3 else Some(l3.value[id := l3.value[id].(visible := false)])
  }

  function TierStep(c: TierConfig, t: Tiers, op: TierOp, now: real): Tiers
    requires Ordered(t.l1.entries)
  {
    match op
    case TPut(e, owner) => Put3(c, t, e, owner, now)
    case TGet(id, tenant) => Get3(c, t, id, tenant, now)
    case TDelete(id, tenant) => Delete3(t, id, tenant)
    case TClear(tenant) => Clear3(t, tenant)
    case LoseL1(id) => t.(l1 := Evict(t.l1, id))
    case LoseL2(id) => t.(l2 := if t.l2.Some? then Some(t.l2.value - {id}) else None)
    case ExpireL3(id) => t.(l3 := Expire(t.l3, id))
    case PurgeL3(id) => t.(l3 := if t.l3.Some? then Some(t.l3.value - {id}) else None)
  }

  lemma {:induction false} TierStepOrdered(c: TierConfig, t: Tiers, op: TierOp, now: real)
    requires Ordered(t.l1.entries)
    ensures Ordered(TierStep(c, t, op, now).l1.entries)
  {
    match op
    case TPut(e, _) => PutEntryOrdered(c.l1, t.l1, e, now);
    case TGet(id, tenant) =>
      var l1 := GetState(c.l1, t.l1, id, now);
      StepOrdered(c.l1, t.l1, Event(GetOp(id), now));
      var hit := Lookup(c, t, id, tenant, now);
      if hit.Some? { PutEntryOrdered(c.l1, l1, hit.value.entry, now); }
    case TDelete(id, _) => EvictOrdered(t.l1, id);
    case LoseL1(id) => EvictOrdered(t.l1, id);
    case _ =>
  }
}
