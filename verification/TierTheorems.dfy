/** Lookups through the tiers are never stale. */
module TierTheorems {
  import opened Options
  import opened Dicts
  import opened Policies
  import opened L1Spec
  import opened L1Theorems
  import opened TierSpec

  datatype TierEvent = TierEvent(op: TierOp, now: real)

  function TierRun(c: TierConfig, start: Tiers, events: seq<TierEvent>): (t: Tiers)
    requires Ordered(start.l1.entries)
    ensures Ordered(t.l1.entries)
  {
    if events == [] then start
    else
      var before, last := TierRun(c, start, events[..|events| - 1]), events[|events| - 1];
      TierStepOrdered(c, before, last.op, last.now);
      TierStep(c, before, last.op, last.now)
  }

  function StartTiers(withL2: bool, withL3: bool): Tiers {
    Tiers(EMPTY_L1, if withL2 then Some(map[]) else None, if withL3 then Some(map[]) else None)
  }

  // ----- What the operations ask for -----

  /** The last put of an id. */
  datatype LastPut = LastPut(response: string, owner: string)

  type LastPuts = map<string, LastPut>

  /** The last put of each id since it was deleted, or cleared with its owner: this depends on
      the operations alone. */
  function LastPutsAfter(puts: LastPuts, op: TierOp): LastPuts {
    match op
    case TPut(e, owner) => puts[e.queryId := LastPut(e.response, owner)]
    case TDelete(id, _) => puts - {id}
    case TClear(tenant) => map k | k in puts && Given(tenant) && puts[k].owner != tenant.value :: puts[k]
    case _ => puts
  }

  function LastPutsOf(events: seq<TierEvent>): LastPuts {
    if events == [] then map[] else LastPutsAfter(LastPutsOf(events[..|events| - 1]), events[|events| - 1].op)
  }

  // ----- What the tiers can be held to -----

  type Responses = map<string, string>

  /** Does the delete reach the database row?  With a tenant it skips another's row. */
  predicate Reaches(t: Tiers, id: string, tenant: Option<string>) {
    t.l3.Some? && id in t.l3.value && Given(tenant) ==> t.l3.value[id].tenant == tenant.value
  }

  /** The response of the last put of each id, where a delete counts only if it reaches the
      row and a clear only if it clears everything: an upper bound on what any tier holds. */
  function SpecStep(t: Tiers, spec: Responses, op: TierOp): Responses {
    match op
    case TPut(e, _) => spec[e.queryId := e.response]
    case TDelete(id, tenant) => if Reaches(t, id, tenant) then spec - {id} else spec
    case TClear(tenant) => if Given(tenant) then spec else map[]
    case _ => spec
  }

  function SpecRun(c: TierConfig, start: Tiers, events: seq<TierEvent>): Responses
    requires Ordered(start.l1.entries)
  {
    if events == [] then map[]
    else
      var front := events[..|events| - 1];
      SpecStep(TierRun(c, start, front), SpecRun(c, start, front), events[|events| - 1].op)
  }

  // ----- Agreement -----

  /** Ids the caller chose; the cache renames all others. */
  predicate Plain(id: string) { !Generated(id) }

  ghost predicate L1Agrees(l1: L1State, spec: Responses) {
    forall k :: k in l1.entries.vals && Plain(k) ==>
      k in spec && l1.entries.vals[k].response == spec[k]
  }

  ghost predicate L2Agrees(l2: Option<L2Map>, spec: Responses) {
    l2.Some? ==> forall k :: k in l2.value ==>
      l2.value[k].queryId == k && (Plain(k) ==> k in spec && l2.value[k].response == spec[k])
  }

  ghost predicate L3Agrees(l3: Option<L3Map>, spec: Responses) {
    l3.Some? ==> forall k :: k in l3.value ==>
      l3.value[k].entry.queryId == k && (Plain(k) ==> k in spec && l3.value[k].entry.response == spec[k])
  }

  /** Every tier that holds a plain id holds the specified response of it. */
  ghost predicate Agree(t: Tiers, spec: Responses) {
    KeysOk(t.l1) && L1Agrees(t.l1, spec) && L2Agrees(t.l2, spec) && L3Agrees(t.l3, spec)
  }

  /** Hits in L2 are copied into an L1 that can hold them. */
  predicate CopiesL2(c: TierConfig, withL2: bool) { withL2 && c.promoteL2 && c.l1.maxSize > 0 }

  /** Tiers a strategy never writes stay empty. */
  ghost predicate Unused(c: TierConfig, t: Tiers) {
    match c.strategy
    case L1Only => (t.l2.Some? ==> t.l2.value == map[]) && (t.l3.Some? ==> t.l3.value == map[])
    case L2Only => (t.l3.Some? ==> t.l3.value == map[]) && (!CopiesL2(c, t.l2.Some?) ==> t.l1.entries.vals == map[])
    case _ => true
  }

  // ----- First tier -----

  lemma {:induction false} EvictAgrees(l1: L1State, spec: Responses, id: string)
    requires L1Agrees(l1, spec)
    ensures L1Agrees(Evict(l1, id), spec)
    ensures L1Agrees(Evict(l1, id), spec - {id})
  {
  }

  lemma {:induction false} GeneratedNotPlain(n: nat)
    ensures !Plain(QueryId(n))
  {
    assert QueryId(n)[..2] == "q_";
  }

  lemma {:induction false} PutL1Agrees(c: L1Config, st: L1State, spec: Responses, spec': Responses, e: CacheEntry, now: real)
    requires Ordered(st.entries) && L1Agrees(st, spec)
    requires forall k :: k in spec && k != e.queryId ==> k in spec' && spec'[k] == spec[k]
    requires Plain(e.queryId) ==> e.queryId in spec' && spec'[e.queryId] == e.response
    ensures L1Agrees(PutEntry(c, st, e, now), spec')
  {
    PutSubset(c, st, e, now);
    GeneratedNotPlain(st.nextQueryId);
  }

  // ----- Steps -----

  lemma {:induction false} PutAgrees(c: TierConfig, t: Tiers, spec: Responses, e: CacheEntry, owner: string, now: real)
    requires Agree(t, spec) && Unused(c, t) && (c.strategy.L2Only? ==> !CopiesL2(c, t.l2.Some?))
    ensures Agree(Put3(c, t, e, owner, now), spec[e.queryId := e.response])
    ensures Unused(c, Put3(c, t, e, owner, now))
  {
    var spec' := spec[e.queryId := e.response];
    if !c.strategy.L2Only? {
      PutL1Agrees(c.l1, t.l1, spec, spec', e, now);
      StepKeysOk(c.l1, t.l1, Event(PutOp(e), now));
    }
    GeneratedNotPlain(t.l1.nextQueryId);
    PutLowerAgrees(t, spec, e, Stored(c.l1, t.l1, e), owner, now);
    PutLowerAgrees(t, spec, e, e, owner, now);
  }

  lemma {:induction false} PutLowerAgrees(t: Tiers, spec: Responses, e: CacheEntry, stored: CacheEntry, owner: string, now: real)
    requires L2Agrees(t.l2, spec) && L3Agrees(t.l3, spec)
    requires stored.response == e.response
    requires if Plain(e.queryId) then stored.queryId == e.queryId else !Plain(stored.queryId)
    ensures L2Agrees(PutL2(t.l2, stored), spec[e.queryId := e.response])
    ensures L3Agrees(PutL3(t.l3, stored, owner, now), spec[e.queryId := e.response])
  {
  }

  lemma {:induction false} HitAgrees(c: TierConfig, t: Tiers, spec: Responses, id: string, tenant: Option<string>, now: real)
    requires Agree(t, spec)
    ensures var hit := Lookup(c, t, id, tenant, now);
            hit.Some? ==> hit.value.entry.queryId == id
                          && (Plain(id) ==> id in spec && hit.value.entry.response == spec[id])
  {
    if id in t.l1.entries.vals { assert KeyOk(t.l1, id); }
  }

  lemma {:induction false} GetL1Agrees(c: L1Config, st: L1State, spec: Responses, id: string, now: real)
    requires L1Agrees(st, spec)
    ensures L1Agrees(GetState(c, st, id, now), spec)
  {
  }

  /** Promoting an entry that agrees keeps the agreement. */
  lemma {:induction false} PromoteAgrees(c: L1Config, st: L1State, l2: Option<L2Map>, spec: Responses, e: CacheEntry, now: real)
    requires Ordered(st.entries) && L1Agrees(st, spec) && L2Agrees(l2, spec)
    requires Plain(e.queryId) ==> e.queryId in spec && spec[e.queryId] == e.response
    ensures L1Agrees(PutEntry(c, st, e, now), spec)
    ensures L2Agrees(PutL2(l2, Stored(c, st, e)), spec)
  {
    PutL1Agrees(c, st, spec, spec, e, now);
    GeneratedNotPlain(st.nextQueryId);
  }

  lemma {:induction false} GetAgrees(c: TierConfig, t: Tiers, spec: Responses, id: string, tenant: Option<string>, now: real)
    requires Agree(t, spec)
    ensures Agree(Get3(c, t, id, tenant, now), spec)
  {
    var hit := Lookup(c, t, id, tenant, now);
    var l1 := GetState(c.l1, t.l1, id, now);
    HitAgrees(c, t, spec, id, tenant, now);
    GetL1Agrees(c.l1, t.l1, spec, id, now);
    StepKeysOk(c.l1, t.l1, Event(GetOp(id), now));
    if hit.Some? && Promotes(c, hit.value.source) {
      PromoteAgrees(c.l1, l1, t.l2, spec, hit.value.entry, now);
      StepKeysOk(c.l1, l1, Event(PutOp(hit.value.entry), now));
    }
  }

  lemma {:induction false} GetUnused(c: TierConfig, t: Tiers, id: string, tenant: Option<string>, now: real)
    requires Ordered(t.l1.entries) && Unused(c, t)
    ensures Unused(c, Get3(c, t, id, tenant, now))
  {
    var hit, accessed := Lookup(c, t, id, tenant, now), t.(l1 := GetState(c.l1, t.l1, id, now));
    StepOrdered(c.l1, t.l1, Event(GetOp(id), now));
    if hit.Some? {
      assert hit.value.source.FromL2? ==> t.l2.Some? && t.l2.value != map[];
      assert hit.value.source.FromL3? ==> t.l3.Some? && t.l3.value != map[];
      HitUnused(c, accessed, hit.value, id, now);
    }
  }

  lemma {:induction false} HitUnused(c: TierConfig, t: Tiers, hit: Hit, id: string, now: real)
    requires Ordered(t.l1.entries) && Unused(c, t)
    requires hit.source.FromL2? ==> t.l2.Some? && t.l2.value != map[]
    requires hit.source.FromL3? ==> t.l3.Some? && t.l3.value != map[]
    ensures Unused(c, AfterHit(c, t, hit, id, now))
  {
    if c.l1.maxSize == 0 { NothingFits(c.l1, t.l1, hit.entry, now); }
  }

  lemma {:induction false} NothingFits(c: L1Config, st: L1State, e: CacheEntry, now: real)
    requires Ordered(st.entries) && c.maxSize == 0
    ensures PutEntry(c, st, e, now).entries.vals == map[]
  {
    PutWithinCapacity(c, st, e, now);
    var r := PutEntry(c, st, e, now).entries;
    PutEntryOrdered(c, st, e, now);
    assert forall k :: k in r.vals ==> k in r.keys;
  }

  lemma {:induction false} DeleteAgrees(t: Tiers, spec: Responses, id: string, tenant: Option<string>)
    requires Agree(t, spec)
    ensures Agree(Delete3(t, id, tenant), if Reaches(t, id, tenant) then spec - {id} else spec)
  {
    EvictAgrees(t.l1, spec, id);
    EvictKeysOk(t.l1, id);
  }

  lemma {:induction false} ClearAgrees(t: Tiers, spec: Responses, tenant: Option<string>)
    requires Agree(t, spec)
    ensures Agree(Clear3(t, tenant), if Given(tenant) then spec else map[])
  {
  }

  lemma {:induction false} TierStepAgrees(c: TierConfig, t: Tiers, spec: Responses, op: TierOp, now: real)
    requires Agree(t, spec) && Unused(c, t) && (c.strategy.L2Only? ==> !CopiesL2(c, t.l2.Some?))
    ensures Agree(TierStep(c, t, op, now), SpecStep(t, spec, op))
    ensures Unused(c, TierStep(c, t, op, now))
  {
    match op
    case TPut(e, owner) => PutAgrees(c, t, spec, e, owner, now);
    case TGet(id, tenant) =>
      GetAgrees(c, t, spec, id, tenant, now);
      GetUnused(c, t, id, tenant, now);
    case TDelete(id, tenant) => DeleteAgrees(t, spec, id, tenant);
    case TClear(tenant) => ClearAgrees(t, spec, tenant);
    case LoseL1(id) =>
      EvictAgrees(t.l1, spec, id);
      EvictKeysOk(t.l1, id);
    case LoseL2(id) =>
    case ExpireL3(id) =>
    case PurgeL3(id) =>
  }

  /** Writes go to L2 alone while its hits are copied to L1. */
  predicate StalePossible(c: TierConfig, withL2: bool) { c.strategy.L2Only? && CopiesL2(c, withL2) }

  /** What holds along a run: agreement, untouched tiers, and the tiers that exist. */
  ghost predicate InStep(c: TierConfig, withL2: bool, t: Tiers, spec: Responses) {
    Agree(t, spec) && Unused(c, t) && (t.l2.Some? <==> withL2)
  }

  lemma {:induction false} StepKeepsL2(c: TierConfig, t: Tiers, op: TierOp, now: real)
    requires Ordered(t.l1.entries)
    ensures TierStep(c, t, op, now).l2.Some? <==> t.l2.Some?
  {
  }

  lemma {:induction false} StepInStep(c: TierConfig, withL2: bool, t: Tiers, spec: Responses, op: TierOp, now: real)
    requires !StalePossible(c, withL2) && InStep(c, withL2, t, spec)
    ensures InStep(c, withL2, TierStep(c, t, op, now), SpecStep(t, spec, op))
  {
    TierStepAgrees(c, t, spec, op, now);
    StepKeepsL2(c, t, op, now);
  }

  lemma {:induction false} TierRunAgrees(c: TierConfig, withL2: bool, withL3: bool, events: seq<TierEvent>)
    requires !StalePossible(c, withL2)
    ensures var start := StartTiers(withL2, withL3);
            InStep(c, withL2, TierRun(c, start, events), SpecRun(c, start, events))
  {
    if events != [] {
      var start, front, last := StartTiers(withL2, withL3), events[..|events| - 1], events[|events| - 1];
      TierRunAgrees(c, withL2, withL3, front);
      StepInStep(c, withL2, TierRun(c, start, front), SpecRun(c, start, front), last.op, last.now);
    }
  }

  /** No run of this configuration ever answers a plain id with anything but the response of
      its last put since the last delete that reached it. */
  ghost predicate NeverOutdated(c: TierConfig, withL2: bool, withL3: bool) {
    forall events, id, tenant, now :: Plain(id) ==>
      UpToDate(c, StartTiers(withL2, withL3), events, id, tenant, now)
  }

  ghost predicate UpToDate(c: TierConfig, start: Tiers, events: seq<TierEvent>, id: string,
                           tenant: Option<string>, now: real)
    requires Ordered(start.l1.entries)
  {
    var t, spec := TierRun(c, start, events), SpecRun(c, start, events);
    var answer := Answer(c, t, id, tenant, now);
    answer.Some? ==> id in spec && answer.value.entry.response == spec[id]
  }

  lemma {:induction false} AgreementIsFresh(c: TierConfig, withL2: bool, withL3: bool)
    requires !StalePossible(c, withL2)
    ensures NeverOutdated(c, withL2, withL3)
  {
    var start := StartTiers(withL2, withL3);
    forall events, id, tenant, now | Plain(id) ensures UpToDate(c, start, events, id, tenant, now) {
      TierRunAgrees(c, withL2, withL3, events);
      HitAgrees(c, TierRun(c, start, events), SpecRun(c, start, events), id, tenant, now);
    }
  }

  // ----- Against the operations alone -----

  function ResponsesOf(puts: LastPuts): Responses { map k | k in puts :: puts[k].response }

  /** Does the clear reach the rows of everything its tenant put last? */
  ghost predicate ClearReaches(t: Tiers, puts: LastPuts, tenant: Option<string>) {
    forall k :: k in puts && Given(tenant) && puts[k].owner == tenant.value && t.l3.Some? && k in t.l3.value ==>
      t.l3.value[k].tenant == tenant.value
  }

  /** A delete or clear of the run reaches the rows it is meant for. */
  ghost predicate OpReaches(t: Tiers, puts: LastPuts, op: TierOp) {
    match op
    case TDelete(id, tenant) => Reaches(t, id, tenant)
    case TClear(tenant) => ClearReaches(t, puts, tenant)
    case _ => true
  }

  ghost predicate AllReach(c: TierConfig, start: Tiers, events: seq<TierEvent>)
    requires Ordered(start.l1.entries)
  {
    events == [] ||
    var front := events[..|events| - 1];
    AllReach(c, start, front) && OpReaches(TierRun(c, start, front), LastPutsOf(front), events[|events| - 1].op)
  }

  lemma {:induction false} ClearReachesAgrees(t: Tiers, puts: LastPuts, tenant: Option<string>)
    requires Agree(t, ResponsesOf(puts)) && ClearReaches(t, puts, tenant)
    ensures Agree(Clear3(t, tenant), ResponsesOf(LastPutsAfter(puts, TClear(tenant))))
  {
    ClearAgrees(t, ResponsesOf(puts), tenant);
  }

  lemma {:induction false} SameResponses(t: Tiers, puts: LastPuts, op: TierOp)
    requires OpReaches(t, puts, op) && !op.TClear?
    ensures SpecStep(t, ResponsesOf(puts), op) == ResponsesOf(LastPutsAfter(puts, op))
  {
  }

  lemma {:induction false} ReachingStepAgrees(c: TierConfig, t: Tiers, puts: LastPuts, op: TierOp, now: real)
    requires Agree(t, ResponsesOf(puts)) && Unused(c, t) && (c.strategy.L2Only? ==> !CopiesL2(c, t.l2.Some?))
    requires OpReaches(t, puts, op)
    ensures Agree(TierStep(c, t, op, now), ResponsesOf(LastPutsAfter(puts, op)))
  {
    if op.TClear? {
      ClearReachesAgrees(t, puts, op.cleared);
    } else {
      TierStepAgrees(c, t, ResponsesOf(puts), op, now);
      SameResponses(t, puts, op);
    }
  }

  /** Over every run whose deletes and clears reach their rows, any tier that holds a plain id
      holds the response of its last put since its last delete. */
  lemma {:induction false} ReachingRunAgrees(c: TierConfig, withL2: bool, withL3: bool, events: seq<TierEvent>)
    requires !StalePossible(c, withL2) && AllReach(c, StartTiers(withL2, withL3), events)
    ensures Agree(TierRun(c, StartTiers(withL2, withL3), events), ResponsesOf(LastPutsOf(events)))
  {
    if events != [] {
      var start, front, last := StartTiers(withL2, withL3), events[..|events| - 1], events[|events| - 1];
      ReachingRunAgrees(c, withL2, withL3, front);
      TierRunAgrees(c, withL2, withL3, front);
      ReachingStepAgrees(c, TierRun(c, start, front), LastPutsOf(front), last.op, last.now);
    }
  }

  /** The answer is the response of the last put since the last delete. */
  ghost predicate FreshAnswer(c: TierConfig, start: Tiers, events: seq<TierEvent>, id: string,
                              tenant: Option<string>, now: real)
    requires Ordered(start.l1.entries)
  {
    var answer, puts := Answer(c, TierRun(c, start, events), id, tenant, now), LastPutsOf(events);
    answer.Some? ==> id in puts && answer.value.entry.response == puts[id].response
  }

  /** No run of this configuration ever answers a plain id with anything but the response of
      its last put since its last delete or clear. */
  ghost predicate NeverStale(c: TierConfig, withL2: bool, withL3: bool) {
    forall events, id, tenant, now :: Plain(id) ==>
      FreshAnswer(c, StartTiers(withL2, withL3), events, id, tenant, now)
  }

  /** The same of the runs whose deletes and clears reach their rows. */
  ghost predicate NeverStaleIfReached(c: TierConfig, withL2: bool, withL3: bool) {
    forall events, id, tenant, now :: Plain(id) && AllReach(c, StartTiers(withL2, withL3), events) ==>
      FreshAnswer(c, StartTiers(withL2, withL3), events, id, tenant, now)
  }

  lemma {:induction false} ReachingIsFresh(c: TierConfig, withL2: bool, withL3: bool, events: seq<TierEvent>, id: string,
                                           tenant: Option<string>, now: real)
    requires !StalePossible(c, withL2) && AllReach(c, StartTiers(withL2, withL3), events) && Plain(id)
    ensures FreshAnswer(c, StartTiers(withL2, withL3), events, id, tenant, now)
  {
    ReachingRunAgrees(c, withL2, withL3, events);
    HitAgrees(c, TierRun(c, StartTiers(withL2, withL3), events), ResponsesOf(LastPutsOf(events)), id, tenant, now);
  }

  /** Puts write rows, and a delete may then name another tenant than the row's. */
  predicate WritesRows(c: TierConfig, withL3: bool) {
    withL3 && (c.strategy.WriteThrough? || c.strategy.WriteBack?)
  }

  ghost predicate NoRows(t: Tiers, withL3: bool) {
    (t.l3.Some? <==> withL3) && (withL3 ==> t.l3.value == map[])
  }

  lemma {:induction false} NoRowsStep(c: TierConfig, withL3: bool, t: Tiers, op: TierOp, now: real)
    requires Ordered(t.l1.entries) && NoRows(t, withL3) && !WritesRows(c, withL3)
    ensures NoRows(TierStep(c, t, op, now), withL3)
  {
  }

  lemma {:induction false} NoRowsMissed(t: Tiers, withL3: bool, puts: LastPuts, op: TierOp)
    requires NoRows(t, withL3)
    ensures OpReaches(t, puts, op)
  {
  }

  lemma {:induction false} NoRowsReach(c: TierConfig, withL2: bool, withL3: bool, events: seq<TierEvent>)
    requires !WritesRows(c, withL3)
    ensures NoRows(TierRun(c, StartTiers(withL2, withL3), events), withL3)
    ensures AllReach(c, StartTiers(withL2, withL3), events)
  {
    if events != [] {
      var start, front, last := StartTiers(withL2, withL3), events[..|events| - 1], events[|events| - 1];
      NoRowsReach(c, withL2, withL3, front);
      NoRowsStep(c, withL3, TierRun(c, start, front), last.op, last.now);
      NoRowsMissed(TierRun(c, start, front), withL3, LastPutsOf(front), last.op);
    }
  }

  // ----- Where it fails -----

  function Sample(response: string): CacheEntry {
    CacheEntry("k", "k", [], response, "general", 1, 1, 0.0, 0.0, 0.0, 0, 0)
  }

  const FIRST := TierEvent(TPut(Sample("old"), "t"), 0.0)
  const SECOND := TierEvent(TGet("k", None), 0.0)
  const THIRD := TierEvent(TPut(Sample("new"), "t"), 0.0)

  /** A reading of the clock at which an entry of time 0 has not expired. */
  function InTime(c: TierConfig): real { if c.l1.ttl.Some? then c.l1.ttl.value as real else 0.0 }

  lemma {:induction false} LoneEntryStays(c: L1Config, e: CacheEntry, now: real)
    requires c.maxSize >= 1 && Plain(e.queryId)
    ensures e.queryId in PutEntry(c, EMPTY_L1, e, now).entries.vals
    ensures PutEntry(c, EMPTY_L1, e, now).entries.vals[e.queryId] == Stored(c, EMPTY_L1, e)
  {
    assert FitMemory(c, EMPTY_L1, Footprint(e, c.dimension), now) == EMPTY_L1;
  }

  lemma {:induction false} RunOneMore(c: TierConfig, start: Tiers, front: seq<TierEvent>, last: TierEvent)
    requires Ordered(start.l1.entries)
    ensures TierRun(c, start, front + [last]) == TierStep(c, TierRun(c, start, front), last.op, last.now)
    ensures SpecRun(c, start, front + [last]) == SpecStep(TierRun(c, start, front), SpecRun(c, start, front), last.op)
    ensures LastPutsOf(front + [last]) == LastPutsAfter(LastPutsOf(front), last.op)
    ensures AllReach(c, start, front + [last]) <==>
            AllReach(c, start, front) && OpReaches(TierRun(c, start, front), LastPutsOf(front), last.op)
  {
    assert (front + [last])[..|front|] == front;
  }

  lemma {:induction false} WrittenToL2(c: TierConfig, start: Tiers)
    requires c.strategy.L2Only? && start.l1 == EMPTY_L1 && start.l2.Some?
    ensures var t := TierStep(c, start, FIRST.op, FIRST.now);
            t.l1 == EMPTY_L1 && t.l2.Some? && "k" in t.l2.value && t.l2.value["k"] == Wire(Sample("old"))
  {
  }

  lemma {:induction false} PromotedToL1(c: TierConfig, t: Tiers)
    requires c.strategy.L2Only? && c.promoteL2 && c.l1.maxSize >= 1
    requires t.l1 == EMPTY_L1 && t.l2.Some? && "k" in t.l2.value && t.l2.value["k"] == Wire(Sample("old"))
    ensures var r := TierStep(c, t, SECOND.op, SECOND.now);
            && "k" in r.l1.entries.vals && r.l1.entries.vals["k"].response == "old"
            && r.l1.entries.vals["k"].createdAt == 0.0
  {
    LoneEntryStays(c.l1, Wire(Sample("old")), 0.0);
  }

  lemma {:induction false} OvertakenInL2(c: TierConfig, t: Tiers)
    requires c.strategy.L2Only? && Ordered(t.l1.entries)
    requires "k" in t.l1.entries.vals && t.l1.entries.vals["k"].response == "old"
    requires t.l1.entries.vals["k"].createdAt == 0.0
    ensures var answer := Answer(c, TierStep(c, t, THIRD.op, THIRD.now), "k", None, InTime(c));
            answer.Some? && answer.value.entry.response == "old"
  {
  }

  /** Put, look up, put again: a promoted copy outlives a write that only reaches L2. */
  lemma {:induction false} L2OnlyGoesStale(c: TierConfig, withL3: bool)
    requires StalePossible(c, true)
    ensures var start, run := StartTiers(true, withL3), [FIRST] + [SECOND] + [THIRD];
            && AllReach(c, start, run)
            && !FreshAnswer(c, start, run, "k", None, InTime(c)) && !UpToDate(c, start, run, "k", None, InTime(c))
  {
    var start := StartTiers(true, withL3);
    RunOneMore(c, start, [], FIRST);
    assert [] + [FIRST] == [FIRST];
    RunOneMore(c, start, [FIRST], SECOND);
    RunOneMore(c, start, [FIRST] + [SECOND], THIRD);
    WrittenToL2(c, start);
    PromotedToL1(c, TierRun(c, start, [FIRST]));
    OvertakenInL2(c, TierRun(c, start, [FIRST] + [SECOND]));
    assert SpecRun(c, start, [FIRST] + [SECOND] + [THIRD])["k"] == "new";
    assert LastPutsOf([FIRST] + [SECOND] + [THIRD])["k"].response == "new";
  }

  /** A row keeps the tenant that put it first. */
  lemma {:induction false} RowKeepsTenant(c: TierConfig, t: Tiers, e: CacheEntry, owner: string, now: real)
    requires Ordered(t.l1.entries) && Plain(e.queryId) && WritesRows(c, t.l3.Some?)
    ensures var r := Put3(c, t, e, owner, now).l3;
            && r.Some? && e.queryId in r.value && r.value[e.queryId].entry.response == e.response
            && r.value[e.queryId].tenant == (if e.queryId in t.l3.value then t.l3.value[e.queryId].tenant else owner)
            && r.value[e.queryId].visible == (e.queryId in t.l3.value ==> t.l3.value[e.queryId].visible)
  {
  }

  /** A delete takes effect on lookups unless it names another tenant than a visible row's:
      that row then answers the next lookup. */
  lemma {:induction false} DeleteSkipsOtherTenant(c: TierConfig, t: Tiers, id: string, tenant: Option<string>,
                                                  asTenant: Option<string>, now: real)
    requires Ordered(t.l1.entries)
    ensures var answer := Answer(c, Delete3(t, id, tenant), id, asTenant, now);
            && (answer.Some? <==> VisibleIn(t.l3, id, asTenant) && !Reaches(t, id, tenant))
            && (answer.Some? ==> answer.value.entry.response == t.l3.value[id].entry.response)
  {
    RemoveOrdered(t.l1.entries, id);
  }

  /** After a clear exactly the visible rows of the other tenants still answer. */
  lemma {:induction false} ClearSkipsOtherTenants(c: TierConfig, t: Tiers, id: string, tenant: Option<string>,
                                                  asTenant: Option<string>, now: real)
    ensures var answer := Answer(c, Clear3(t, tenant), id, asTenant, now);
            && (answer.Some? <==> VisibleIn(t.l3, id, asTenant) && Given(tenant) && t.l3.value[id].tenant != tenant.value)
            && (answer.Some? ==> answer.value.entry.response == t.l3.value[id].entry.response)
  {
  }

  const DELETE := TierEvent(TDelete("k", Some("u")), 0.0)

  /** Put for one tenant, delete for another: the lookup answers the deleted response. */
  lemma {:induction false} DeletedRowAnswers(c: TierConfig, withL2: bool, now: real)
    requires WritesRows(c, true)
    ensures !FreshAnswer(c, StartTiers(withL2, true), [FIRST] + [DELETE], "k", None, now)
  {
    var start := StartTiers(withL2, true);
    RunOneMore(c, start, [], FIRST);
    assert [] + [FIRST] == [FIRST];
    RunOneMore(c, start, [FIRST], DELETE);
    RowKeepsTenant(c, start, Sample("old"), "t", 0.0);
    DeleteSkipsOtherTenant(c, TierRun(c, start, [FIRST]), "k", Some("u"), None, now);
    assert "k" !in LastPutsOf([FIRST] + [DELETE]);
  }

  const AGAIN := TierEvent(TPut(Sample("new"), "u"), 0.0)
  const CLEAR := TierEvent(TClear(Some("u")), 0.0)

  /** Put for one tenant, put again for another, clear that one: its response is answered
      still, because the row belongs to the first. */
  lemma {:induction false} ClearedRowAnswers(c: TierConfig, withL2: bool, now: real)
    requires WritesRows(c, true)
    ensures !FreshAnswer(c, StartTiers(withL2, true), [FIRST] + [AGAIN] + [CLEAR], "k", None, now)
  {
    var start := StartTiers(withL2, true);
    RunOneMore(c, start, [], FIRST);
    assert [] + [FIRST] == [FIRST];
    RunOneMore(c, start, [FIRST], AGAIN);
    RunOneMore(c, start, [FIRST] + [AGAIN], CLEAR);
    RowKeepsTenant(c, start, Sample("old"), "t", 0.0);
    RowKeepsTenant(c, TierRun(c, start, [FIRST]), Sample("new"), "u", 0.0);
    ClearSkipsOtherTenants(c, TierRun(c, start, [FIRST] + [AGAIN]), "k", Some("u"), None, now);
    assert LastPutsOf([FIRST] + [AGAIN])["k"].owner == "u";
    assert "k" !in LastPutsOf([FIRST] + [AGAIN] + [CLEAR]);
  }

  /** Lookups are never stale exactly when writes are not confined to an L2 whose hits are
      copied to L1, and no rows are written that a delete or clear can miss. */
  lemma {:induction false} NeverStaleIff(c: TierConfig, withL2: bool, withL3: bool)
    ensures NeverStale(c, withL2, withL3) <==> !StalePossible(c, withL2) && !WritesRows(c, withL3)
  {
    var start := StartTiers(withL2, withL3);
    assert Plain("k");
    if StalePossible(c, withL2) {
      L2OnlyGoesStale(c, withL3);
    } else if WritesRows(c, withL3) {
      DeletedRowAnswers(c, withL2, 0.0);
    } else {
      forall events, id, tenant, now | Plain(id) ensures FreshAnswer(c, start, events, id, tenant, now) {
        NoRowsReach(c, withL2, withL3, events);
        ReachingIsFresh(c, withL2, withL3, events, id, tenant, now);
      }
    }
  }

  /** On the runs whose deletes and clears reach their rows the first condition alone counts. */
  lemma {:induction false} NeverStaleIfReachedIff(c: TierConfig, withL2: bool, withL3: bool)
    ensures NeverStaleIfReached(c, withL2, withL3) <==> !StalePossible(c, withL2)
  {
    assert Plain("k");
    if StalePossible(c, withL2) {
      L2OnlyGoesStale(c, withL3);
    } else {
      forall events, id, tenant, now | Plain(id) && AllReach(c, StartTiers(withL2, withL3), events)
        ensures FreshAnswer(c, StartTiers(withL2, withL3), events, id, tenant, now)
      {
        ReachingIsFresh(c, withL2, withL3, events, id, tenant, now);
      }
    }
  }

  /** The condition is exact for the upper bound too. */
  lemma {:induction false} NeverOutdatedIff(c: TierConfig, withL2: bool, withL3: bool)
    ensures NeverOutdated(c, withL2, withL3) <==> !StalePossible(c, withL2)
  {
    assert Plain("k");
    if StalePossible(c, withL2) { L2OnlyGoesStale(c, withL3); } else { AgreementIsFresh(c, withL2, withL3); }
  }
}
