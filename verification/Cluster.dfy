/** Several nodes over the same shared tiers, with invalidation by messages.

    Each manager operation is one atomic step.  A delete or clear appends a message to the
    queue of every node; queues lose nothing. */
module Cluster {
  import opened Options
  import opened Dicts
  import opened Policies
  import opened L1Spec
  import opened L1Theorems
  import opened EvictionTheorems
  import opened TierSpec
  import opened TierTheorems

  const FLUSH_ALL := "__FLUSHALL__"

  datatype Node = Node(l1: L1State, queue: seq<string>)

  datatype State = State(nodes: seq<Node>, l2: L2Map, l3: Option<L3Map>)

  datatype Action =
    | Local(node: nat, op: TierOp)
    | Consume(consumer: nat)
    | SyncUp(source: nat)                      // sync_l1_to_l2
    | SyncDown(target: nat, keys: seq<string>) // sync_l2_to_l1, in the order of a scan

  datatype Timed = Timed(action: Action, now: real)

  function TiersOf(s: State, i: nat): Tiers
    requires i < |s.nodes|
  {
    Tiers(s.nodes[i].l1, Some(s.l2), s.l3)
  }

  function Actor(a: Action): nat {
    match a
    case Local(i, _) => i
    case Consume(i) => i
    case SyncUp(i) => i
    case SyncDown(i, _) => i
  }

  /** What an operation publishes: only delete and clear do. */
  function Published(op: TierOp): seq<string> {
    match op
    case TDelete(id, _) => [id]
    case TClear(_) => [FLUSH_ALL]
    case _ => []
  }

  function Deliver(nodes: seq<Node>, messages: seq<string>): (r: seq<Node>)
    ensures |r| == |nodes|
    ensures forall i :: 0 <= i < |r| ==> r[i] == Node(nodes[i].l1, nodes[i].queue + messages)
  {
    seq(|nodes|, i requires 0 <= i < |nodes| => Node(nodes[i].l1, nodes[i].queue + messages))
  }

  /** What the listener does with one message. */
  function Receive(l1: L1State, message: string): L1State {
    if message == FLUSH_ALL then Cleared(l1) else Evict(l1, message)
  }

  function PushUp(l1: L1State, keys: seq<string>, ttl: Option<int>, now: real, l2: L2Map): L2Map {
    if keys == [] then l2
    else
      var rest := PushUp(l1, keys[..|keys| - 1], ttl, now, l2);
      var k := keys[|keys| - 1];
      if k in l1.entries.vals && !Expired(l1.entries.vals[k], ttl, now)
      then rest[l1.entries.vals[k].queryId := Wire(l1.entries.vals[k])] else rest
  }

  function PullDown(c: L1Config, l1: L1State, keys: seq<string>, l2: L2Map, now: real): (r: L1State)
    requires Ordered(l1.entries)
    ensures Ordered(r.entries)
  {
    if keys == [] then l1
    else
      var rest := PullDown(c, l1, keys[..|keys| - 1], l2, now);
      var k := keys[|keys| - 1];
      if k in l2 then PutEntryOrdered(c, rest, l2[k], now); PutEntry(c, rest, l2[k], now) else rest
  }

  ghost predicate AllOrdered(s: State) {
    forall i :: 0 <= i < |s.nodes| ==> Ordered(s.nodes[i].l1.entries)
  }

  function Next(c: TierConfig, s: State, a: Action, now: real): State
    requires AllOrdered(s) && Actor(a) < |s.nodes|
  {
    match a
    case Local(i, op) =>
      var t := TierStep(c, TiersOf(s, i), op, now);
      State(Deliver(s.nodes[i := s.nodes[i].(l1 := t.l1)], Published(op)),
            if t.l2.Some? then t.l2.value else s.l2, t.l3)
    case Consume(i) =>
      var n := s.nodes[i];
      if n.queue == [] then s
      else s.(nodes := s.nodes[i := Node(Receive(n.l1, n.queue[0]), n.queue[1..])])
    case SyncUp(i) =>
      s.(l2 := PushUp(s.nodes[i].l1, s.nodes[i].l1.entries.keys, c.l1.ttl, now, s.l2))
    case SyncDown(i, keys) =>
      s.(nodes := s.nodes[i := s.nodes[i].(l1 := PullDown(c.l1, s.nodes[i].l1, keys, s.l2, now))])
  }

  // ----- Every tier stores an entry under its own id -----

  ghost predicate SharedKeysOk(l2: L2Map, l3: Option<L3Map>) {
    && (forall k :: k in l2 ==> l2[k].queryId == k)
    && (l3.Some? ==> forall k :: k in l3.value ==> l3.value[k].entry.queryId == k)
  }

  ghost predicate Consistent(s: State) {
    && (forall i :: 0 <= i < |s.nodes| ==> KeysOk(s.nodes[i].l1))
    && SharedKeysOk(s.l2, s.l3)
  }

  lemma {:induction false} PullDownKeys(c: L1Config, l1: L1State, keys: seq<string>, l2: L2Map, now: real)
    requires KeysOk(l1)
    ensures KeysOk(PullDown(c, l1, keys, l2, now))
  {
    if keys != [] {
      var rest := PullDown(c, l1, keys[..|keys| - 1], l2, now);
      PullDownKeys(c, l1, keys[..|keys| - 1], l2, now);
      var k := keys[|keys| - 1];
      if k in l2 { StepKeysOk(c, rest, Event(PutOp(l2[k]), now)); }
    }
  }

  lemma {:induction false} PushUpKeys(l1: L1State, keys: seq<string>, ttl: Option<int>, now: real, l2: L2Map)
    requires forall k :: k in l2 ==> l2[k].queryId == k
    ensures forall k :: k in PushUp(l1, keys, ttl, now, l2) ==> PushUp(l1, keys, ttl, now, l2)[k].queryId == k
  {
    if keys != [] { PushUpKeys(l1, keys[..|keys| - 1], ttl, now, l2); }
  }

  lemma {:induction false} PutKeys(c: TierConfig, t: Tiers, e: CacheEntry, owner: string, now: real)
    requires KeysOk(t.l1) && t.l2.Some? && SharedKeysOk(t.l2.value, t.l3)
    ensures var r := Put3(c, t, e, owner, now);
            KeysOk(r.l1) && r.l2.Some? && SharedKeysOk(r.l2.value, r.l3)
  {
    StepKeysOk(c.l1, t.l1, Event(PutOp(e), now));
  }

  lemma {:induction false} GetL1Keys(c: TierConfig, t: Tiers, id: string, tenant: Option<string>, now: real)
    requires KeysOk(t.l1)
    ensures KeysOk(Get3(c, t, id, tenant, now).l1)
  {
    var hit := Lookup(c, t, id, tenant, now);
    var l1 := GetState(c.l1, t.l1, id, now);
    StepKeysOk(c.l1, t.l1, Event(GetOp(id), now));
    if hit.Some? && Promotes(c, hit.value.source) {
      StepKeysOk(c.l1, l1, Event(PutOp(hit.value.entry), now));
    }
  }

  lemma {:induction false} GetSharedKeys(c: TierConfig, t: Tiers, id: string, tenant: Option<string>, now: real)
    requires Ordered(t.l1.entries) && t.l2.Some? && SharedKeysOk(t.l2.value, t.l3)
    ensures var r := Get3(c, t, id, tenant, now);
            r.l2.Some? && SharedKeysOk(r.l2.value, r.l3)
  {
  }

  lemma {:induction false} TierStepKeys(c: TierConfig, t: Tiers, op: TierOp, now: real)
    requires KeysOk(t.l1) && t.l2.Some? && SharedKeysOk(t.l2.value, t.l3)
    ensures var r := TierStep(c, t, op, now);
            KeysOk(r.l1) && r.l2.Some? && SharedKeysOk(r.l2.value, r.l3)
  {
    match op
    case TPut(e, owner) => PutKeys(c, t, e, owner, now);
    case TGet(id, tenant) =>
      GetL1Keys(c, t, id, tenant, now);
      GetSharedKeys(c, t, id, tenant, now);
    case TDelete(id, _) => EvictKeysOk(t.l1, id);
    case LoseL1(id) => EvictKeysOk(t.l1, id);
    case _ =>
  }

  lemma {:induction false} NextConsistent(c: TierConfig, s: State, a: Action, now: real)
    requires Consistent(s) && Actor(a) < |s.nodes|
    ensures AllOrdered(s) && Consistent(Next(c, s, a, now)) && |Next(c, s, a, now).nodes| == |s.nodes|
  {
    assert forall i :: 0 <= i < |s.nodes| ==> KeysOk(s.nodes[i].l1);
    match a
    case Local(i, op) => TierStepKeys(c, TiersOf(s, i), op, now);
    case Consume(i) =>
      if s.nodes[i].queue != [] { EvictKeysOk(s.nodes[i].l1, s.nodes[i].queue[0]); }
    case SyncUp(i) => PushUpKeys(s.nodes[i].l1, s.nodes[i].l1.entries.keys, c.l1.ttl, now, s.l2);
    case SyncDown(i, keys) => PullDownKeys(c.l1, s.nodes[i].l1, keys, s.l2, now);
  }

  // ----- A deleted key stays deleted -----

  /** No tier below L1 holds k.  `waits[i]` counts the messages node i still has to consume
      up to and including the invalidation or flush; at zero its L1 does not hold k either. */
  ghost predicate Gone(s: State, k: string, waits: seq<nat>) {
    && |waits| == |s.nodes|
    && k !in s.l2 && (s.l3.Some? ==> k !in s.l3.value)
    && (forall i :: 0 <= i < |s.nodes| ==> NodeGone(s.nodes[i], k, waits[i]))
  }

  ghost predicate NodeGone(n: Node, k: string, wait: nat) {
    if wait == 0 then k !in n.l1.entries.vals else wait <= |n.queue| && n.queue[wait - 1] in {k, FLUSH_ALL}
  }

  function Waited(s: State, a: Action, waits: seq<nat>): seq<nat>
    requires |waits| == |s.nodes| && Actor(a) < |s.nodes|
  {
    if a.Consume? && s.nodes[a.consumer].queue != [] && waits[a.consumer] > 0
    then waits[a.consumer := waits[a.consumer] - 1] else waits
  }

  // ----- What sync_l1_to_l2 copies -----

  /** The node would answer k from its own L1. */
  predicate Holds(n: Node, k: string, ttl: Option<int>, now: real) {
    k in n.l1.entries.vals && !Expired(n.l1.entries.vals[k], ttl, now)
  }

  lemma {:induction false} PushUpListed(l1: L1State, keys: seq<string>, ttl: Option<int>, now: real, l2: L2Map, k: string)
    requires KeysOk(l1)
    ensures var r := PushUp(l1, keys, ttl, now, l2);
            if k in keys && k in l1.entries.vals && !Expired(l1.entries.vals[k], ttl, now)
            then k in r && r[k] == Wire(l1.entries.vals[k])
            else (k in r <==> k in l2) && (k in r ==> r[k] == l2[k])
  {
    if keys != [] {
      var front, x := keys[..|keys| - 1], keys[|keys| - 1];
      PushUpListed(l1, front, ttl, now, l2, k);
      assert k in keys <==> k in front || k == x by { assert keys == front + [x]; }
      if x in l1.entries.vals { assert KeyOk(l1, x); }
    }
  }

  /** Afterwards L2 holds what it held and what L1 holds unexpired, L1 taking precedence. */
  lemma {:induction false} PushUpExactly(n: Node, ttl: Option<int>, now: real, l2: L2Map, k: string)
    requires KeysOk(n.l1)
    ensures var r := PushUp(n.l1, n.l1.entries.keys, ttl, now, l2);
            && (k in r <==> k in l2 || Holds(n, k, ttl, now))
            && (k in r ==> r[k] == if Holds(n, k, ttl, now) then Wire(n.l1.entries.vals[k]) else l2[k])
  {
    PushUpListed(n.l1, n.l1.entries.keys, ttl, now, l2, k);
  }

  /** The step is a sync_l1_to_l2 of a node that holds k unexpired. */
  predicate Revives(c: TierConfig, s: State, a: Action, now: real, k: string)
    requires Actor(a) < |s.nodes|
  {
    a.SyncUp? && Holds(s.nodes[a.source], k, c.l1.ttl, now)
  }

  /** sync_l1_to_l2 brings an absent key back to L2 exactly if that node's L1 still holds it
      unexpired. */
  lemma {:induction false} SyncRevivesIff(c: TierConfig, s: State, j: nat, k: string, now: real)
    requires Consistent(s) && j < |s.nodes| && k !in s.l2
    ensures AllOrdered(s) && (k in Next(c, s, SyncUp(j), now).l2 <==> Revives(c, s, SyncUp(j), now, k))
  {
    assert KeysOk(s.nodes[j].l1);
    PushUpExactly(s.nodes[j], c.l1.ttl, now, s.l2, k);
  }

  // ----- What each step stores -----

  /** The id under which a put stores the entry. */
  function WrittenId(c: TierConfig, l1: L1State, e: CacheEntry): string {
    if c.strategy.L2Only? then e.queryId else Stored(c.l1, l1, e).queryId
  }

  predicate PullsAs(c: L1Config, l1: L1State, keys: seq<string>, l2: L2Map, now: real, k: string)
    requires Ordered(l1.entries)
  {
    keys != [] &&
    var front, x := keys[..|keys| - 1], keys[|keys| - 1];
    || PullsAs(c, l1, front, l2, now, k)
    || (x in l2 && Stored(c, PullDown(c, l1, front, l2, now), l2[x]).queryId == k)
  }

  /** Does the step put or promote an entry under the id k? */
  predicate Stores(c: TierConfig, s: State, a: Action, now: real, k: string)
    requires Actor(a) < |s.nodes| && Ordered(s.nodes[Actor(a)].l1.entries)
  {
    var l1 := s.nodes[Actor(a)].l1;
    match a
    case Local(_, TPut(e, _)) => WrittenId(c, l1, e) == k
    case Local(i, TGet(id, tenant)) =>
      var hit := Lookup(c, TiersOf(s, i), id, tenant, now);
      hit.Some? && Promotes(c, hit.value.source)
      && Stored(c.l1, GetState(c.l1, l1, id, now), hit.value.entry).queryId == k
    case SyncDown(_, keys) => PullsAs(c.l1, l1, keys, s.l2, now, k)
    case _ => false
  }

  /** The step is no put of k, for an id that the cache never generates; or whatever the
      step stores gets another id. */
  predicate Spares(c: TierConfig, s: State, a: Action, now: real, k: string)
    requires Actor(a) < |s.nodes| && Ordered(s.nodes[Actor(a)].l1.entries)
  {
    || (Plain(k) && (a.Local? && a.op.TPut? ==> a.op.entry.queryId != k))
    || !Stores(c, s, a, now, k)
  }

  lemma {:induction false} OtherStored(c: L1Config, st: L1State, e: CacheEntry, k: string)
    requires Plain(k) && e.queryId != k
    ensures Stored(c, st, e).queryId != k
  {
    GeneratedNotPlain(st.nextQueryId);
  }

  lemma {:induction false} GetSpares(c: TierConfig, t: Tiers, id: string, tenant: Option<string>, now: real, k: string)
    requires t.l2.Some? && SharedKeysOk(t.l2.value, t.l3) && Plain(k)
    requires k !in t.l2.value && (t.l3.Some? ==> k !in t.l3.value)
    ensures var hit := Lookup(c, t, id, tenant, now);
            hit.Some? && Promotes(c, hit.value.source)
            ==> Stored(c.l1, GetState(c.l1, t.l1, id, now), hit.value.entry).queryId != k
  {
    var hit := Lookup(c, t, id, tenant, now);
    if hit.Some? && Promotes(c, hit.value.source) {
      OtherStored(c.l1, GetState(c.l1, t.l1, id, now), hit.value.entry, k);
    }
  }

  lemma {:induction false} PullSpares(c: L1Config, l1: L1State, keys: seq<string>, l2: L2Map, now: real, k: string)
    requires Ordered(l1.entries) && Plain(k) && k !in l2 && (forall x :: x in l2 ==> l2[x].queryId == x)
    ensures !PullsAs(c, l1, keys, l2, now, k)
  {
    if keys != [] {
      var front, x := keys[..|keys| - 1], keys[|keys| - 1];
      PullSpares(c, l1, front, l2, now, k);
      if x in l2 { OtherStored(c, PullDown(c, l1, front, l2, now), l2[x], k); }
    }
  }

  /** While k is gone, only a put of k can store anything under a plain id k. */
  lemma {:induction false} SparesStoresNot(c: TierConfig, s: State, a: Action, now: real, k: string, waits: seq<nat>)
    requires Consistent(s) && AllOrdered(s) && Actor(a) < |s.nodes| && Gone(s, k, waits)
    requires Spares(c, s, a, now, k)
    ensures !Stores(c, s, a, now, k)
  {
    if Plain(k) {
      match a
      case Local(i, TPut(e, _)) =>
        if e.queryId != k { OtherStored(c.l1, s.nodes[i].l1, e, k); }
      case Local(i, TGet(id, tenant)) => GetSpares(c, TiersOf(s, i), id, tenant, now, k);
      case SyncDown(i, keys) => PullSpares(c.l1, s.nodes[i].l1, keys, s.l2, now, k);
      case _ =>
    }
  }

  // ----- Steps -----

  lemma {:induction false} PutL1Gone(c: L1Config, st: L1State, e: CacheEntry, now: real, k: string)
    requires Ordered(st.entries) && Stored(c, st, e).queryId != k && k !in st.entries.vals
    ensures k !in PutEntry(c, st, e, now).entries.vals
  {
    PutSubset(c, st, e, now);
  }

  /** None of the shared tiers holds k. */
  ghost predicate NotShared(l2: Option<L2Map>, l3: Option<L3Map>, k: string) {
    l2.Some? && k !in l2.value && (l3.Some? ==> k !in l3.value)
  }

  lemma {:induction false} PutTiersGone(c: TierConfig, t: Tiers, e: CacheEntry, owner: string, now: real, k: string)
    requires Ordered(t.l1.entries) && NotShared(t.l2, t.l3, k) && WrittenId(c, t.l1, e) != k
    ensures var r := Put3(c, t, e, owner, now);
            NotShared(r.l2, r.l3, k) && (k !in t.l1.entries.vals ==> k !in r.l1.entries.vals)
  {
    if k !in t.l1.entries.vals && !c.strategy.L2Only? { PutL1Gone(c.l1, t.l1, e, now, k); }
  }

  lemma {:induction false} HitTiersGone(c: TierConfig, t: Tiers, hit: Hit, id: string, now: real, k: string)
    requires Ordered(t.l1.entries) && NotShared(t.l2, t.l3, k)
    requires Promotes(c, hit.source) ==> Stored(c.l1, t.l1, hit.entry).queryId != k
    ensures var r := AfterHit(c, t, hit, id, now);
            NotShared(r.l2, r.l3, k) && (k !in t.l1.entries.vals ==> k !in r.l1.entries.vals)
  {
    if Promotes(c, hit.source) && k !in t.l1.entries.vals { PutL1Gone(c.l1, t.l1, hit.entry, now, k); }
  }

  lemma {:induction false} GetTiersGone(c: TierConfig, t: Tiers, id: string, tenant: Option<string>, now: real, k: string)
    requires Ordered(t.l1.entries) && NotShared(t.l2, t.l3, k)
    requires var hit := Lookup(c, t, id, tenant, now);
             hit.Some? && Promotes(c, hit.value.source)
             ==> Stored(c.l1, GetState(c.l1, t.l1, id, now), hit.value.entry).queryId != k
    ensures var r := Get3(c, t, id, tenant, now);
            NotShared(r.l2, r.l3, k) && (k !in t.l1.entries.vals ==> k !in r.l1.entries.vals)
  {
    var hit := Lookup(c, t, id, tenant, now);
    var accessed := t.(l1 := GetState(c.l1, t.l1, id, now));
    StepOrdered(c.l1, t.l1, Event(GetOp(id), now));
    if hit.Some? { HitTiersGone(c, accessed, hit.value, id, now, k); }
  }

  lemma {:induction false} TierStepGone(c: TierConfig, s: State, i: nat, op: TierOp, now: real, k: string)
    requires i < |s.nodes| && Ordered(s.nodes[i].l1.entries) && !Stores(c, s, Local(i, op), now, k)
    requires NotShared(Some(s.l2), s.l3, k)
    ensures var r := TierStep(c, TiersOf(s, i), op, now);
            NotShared(r.l2, r.l3, k) && (k !in s.nodes[i].l1.entries.vals ==> k !in r.l1.entries.vals)
  {
    match op
    case TPut(e, owner) => PutTiersGone(c, TiersOf(s, i), e, owner, now, k);
    case TGet(id, tenant) => GetTiersGone(c, TiersOf(s, i), id, tenant, now, k);
    case _ =>
  }

  lemma {:induction false} PullDownGone(c: L1Config, l1: L1State, keys: seq<string>, l2: L2Map, now: real, k: string)
    requires Ordered(l1.entries) && !PullsAs(c, l1, keys, l2, now, k) && k !in l1.entries.vals
    ensures k !in PullDown(c, l1, keys, l2, now).entries.vals
  {
    if keys != [] {
      var rest := PullDown(c, l1, keys[..|keys| - 1], l2, now);
      PullDownGone(c, l1, keys[..|keys| - 1], l2, now, k);
      var x := keys[|keys| - 1];
      if x in l2 { PutL1Gone(c, rest, l2[x], now, k); }
    }
  }

  lemma {:induction false} LocalGone(c: TierConfig, s: State, i: nat, op: TierOp, now: real, k: string, waits: seq<nat>)
    requires AllOrdered(s) && i < |s.nodes| && Gone(s, k, waits) && !Stores(c, s, Local(i, op), now, k)
    ensures Gone(Next(c, s, Local(i, op), now), k, waits)
  {
    assert Ordered(s.nodes[i].l1.entries);
    TierStepGone(c, s, i, op, now, k);
    var r := Next(c, s, Local(i, op), now);
    forall j | 0 <= j < |r.nodes| ensures NodeGone(r.nodes[j], k, waits[j]) {
      assert NodeGone(s.nodes[j], k, waits[j]);
    }
  }

  lemma {:induction false} ConsumeGone(c: TierConfig, s: State, i: nat, now: real, k: string, waits: seq<nat>)
    requires AllOrdered(s) && i < |s.nodes| && Gone(s, k, waits)
    ensures Gone(Next(c, s, Consume(i), now), k, Waited(s, Consume(i), waits))
  {
    var r, w := Next(c, s, Consume(i), now), Waited(s, Consume(i), waits);
    assert NodeGone(s.nodes[i], k, waits[i]);
    forall j | 0 <= j < |r.nodes| ensures NodeGone(r.nodes[j], k, w[j]) {
      assert NodeGone(s.nodes[j], k, waits[j]);
    }
  }

  lemma {:induction false} SyncDownGone(c: TierConfig, s: State, i: nat, keys: seq<string>, now: real, k: string, waits: seq<nat>)
    requires AllOrdered(s) && i < |s.nodes| && Gone(s, k, waits) && !Stores(c, s, SyncDown(i, keys), now, k)
    ensures Gone(Next(c, s, SyncDown(i, keys), now), k, waits)
  {
    assert NodeGone(s.nodes[i], k, waits[i]);
    if waits[i] == 0 { PullDownGone(c.l1, s.nodes[i].l1, keys, s.l2, now, k); }
  }

  /** A step that stores nothing under a gone key keeps it gone exactly if it is not a sync
      that revives it. */
  lemma {:induction false} NextGone(c: TierConfig, s: State, a: Action, now: real, k: string, waits: seq<nat>)
    requires Consistent(s) && AllOrdered(s) && Actor(a) < |s.nodes|
    requires Gone(s, k, waits) && !Stores(c, s, a, now, k)
    ensures Gone(Next(c, s, a, now), k, Waited(s, a, waits)) <==> !Revives(c, s, a, now, k)
    ensures Revives(c, s, a, now, k) ==> k in Next(c, s, a, now).l2
  {
    match a
    case Local(i, op) => LocalGone(c, s, i, op, now, k, waits);
    case Consume(i) => ConsumeGone(c, s, i, now, k, waits);
    case SyncUp(j) => SyncUpGone(c, s, j, now, k, waits);
    case SyncDown(i, keys) => SyncDownGone(c, s, i, keys, now, k, waits);
  }

  lemma {:induction false} SyncUpGone(c: TierConfig, s: State, j: nat, now: real, k: string, waits: seq<nat>)
    requires Consistent(s) && AllOrdered(s) && j < |s.nodes| && Gone(s, k, waits)
    ensures Gone(Next(c, s, SyncUp(j), now), k, waits) <==> !Revives(c, s, SyncUp(j), now, k)
    ensures Revives(c, s, SyncUp(j), now, k) ==> k in Next(c, s, SyncUp(j), now).l2
  {
    SyncRevivesIff(c, s, j, k, now);
  }

  /** A node that has consumed the invalidation never revives the key. */
  lemma {:induction false} ConsumedNeverRevives(c: TierConfig, s: State, j: nat, now: real, k: string, waits: seq<nat>)
    requires j < |s.nodes| && Gone(s, k, waits) && waits[j] == 0
    ensures !Revives(c, s, SyncUp(j), now, k)
  {
    assert NodeGone(s.nodes[j], k, waits[j]);
  }

  // ----- Runs -----

  ghost predicate Actors(actions: seq<Timed>, n: nat) {
    forall i :: 0 <= i < |actions| ==> Actor(actions[i].action) < n
  }

  /** All actions in turn, together with what each node still waits for. */
  function RunOn(c: TierConfig, s: State, waits: seq<nat>, actions: seq<Timed>): (r: (State, seq<nat>))
    requires Consistent(s) && |waits| == |s.nodes| && Actors(actions, |s.nodes|)
    ensures Consistent(r.0) && |r.1| == |r.0.nodes| == |s.nodes|
    decreases |actions|
  {
    if actions == [] then (s, waits)
    else
      var front, last := actions[..|actions| - 1], actions[|actions| - 1];
      var (t, w) := RunOn(c, s, waits, front);
      NextConsistent(c, t, last.action, last.now);
      (Next(c, t, last.action, last.now), Waited(t, last.action, w))
  }

  /** Every step of the run spares k in the state in which it is taken. */
  ghost predicate AllSpare(c: TierConfig, s: State, waits: seq<nat>, actions: seq<Timed>, k: string)
    requires Consistent(s) && |waits| == |s.nodes| && Actors(actions, |s.nodes|)
    decreases |actions|
  {
    actions == [] ||
    var front, last := actions[..|actions| - 1], actions[|actions| - 1];
    var t := RunOn(c, s, waits, front).0;
    AllSpare(c, s, waits, front, k) && KeysOk(t.nodes[Actor(last.action)].l1)
    && Spares(c, t, last.action, last.now, k)
  }

  /** No step of the run revives k in the state in which it is taken. */
  ghost predicate NoneRevives(c: TierConfig, s: State, waits: seq<nat>, actions: seq<Timed>, k: string)
    requires Consistent(s) && |waits| == |s.nodes| && Actors(actions, |s.nodes|)
    decreases |actions|
  {
    actions == [] ||
    var front, last := actions[..|actions| - 1], actions[|actions| - 1];
    NoneRevives(c, s, waits, front, k)
    && !Revives(c, RunOn(c, s, waits, front).0, last.action, last.now, k)
  }

  /** At every point of the run no shared tier holds k, nor the L1 of a node that has
      consumed the invalidation. */
  ghost predicate AlwaysGone(c: TierConfig, s: State, waits: seq<nat>, actions: seq<Timed>, k: string)
    requires Consistent(s) && |waits| == |s.nodes| && Actors(actions, |s.nodes|)
    decreases |actions|
  {
    var (t, w) := RunOn(c, s, waits, actions);
    && NotShared(Some(t.l2), t.l3, k)
    && (forall j :: 0 <= j < |w| && w[j] == 0 ==> k !in t.nodes[j].l1.entries.vals)
    && (actions == [] || AlwaysGone(c, s, waits, actions[..|actions| - 1], k))
  }

  lemma {:induction false} GoneNow(s: State, k: string, waits: seq<nat>)
    requires Gone(s, k, waits)
    ensures NotShared(Some(s.l2), s.l3, k)
    ensures forall j :: 0 <= j < |waits| && waits[j] == 0 ==> k !in s.nodes[j].l1.entries.vals
  {
    forall j | 0 <= j < |waits| && waits[j] == 0 ensures k !in s.nodes[j].l1.entries.vals {
      assert NodeGone(s.nodes[j], k, waits[j]);
    }
  }

  lemma {:induction false} RunStaysGone(c: TierConfig, s: State, waits: seq<nat>, actions: seq<Timed>, k: string)
    requires Consistent(s) && |waits| == |s.nodes| && Actors(actions, |s.nodes|)
    requires Gone(s, k, waits) && AllSpare(c, s, waits, actions, k)
    ensures AlwaysGone(c, s, waits, actions, k) <==> NoneRevives(c, s, waits, actions, k)
    ensures NoneRevives(c, s, waits, actions, k)
            ==> Gone(RunOn(c, s, waits, actions).0, k, RunOn(c, s, waits, actions).1)
    decreases |actions|
  {
    if actions == [] {
      GoneNow(s, k, waits);
    } else {
      var front, last := actions[..|actions| - 1], actions[|actions| - 1];
      RunStaysGone(c, s, waits, front, k);
      var (t, w) := RunOn(c, s, waits, front);
      if NoneRevives(c, s, waits, front, k) {
        NextConsistent(c, t, last.action, last.now);
        SparesStoresNot(c, t, last.action, last.now, k, w);
        NextGone(c, t, last.action, last.now, k, w);
        if !Revives(c, t, last.action, last.now, k) {
          GoneNow(RunOn(c, s, waits, actions).0, k, RunOn(c, s, waits, actions).1);
        }
      }
    }
  }

  /** For an id that the cache never generates, no put of it is all that sparing asks. */
  lemma {:induction false} PlainSpared(c: TierConfig, s: State, waits: seq<nat>, actions: seq<Timed>, k: string)
    requires Consistent(s) && |waits| == |s.nodes| && Actors(actions, |s.nodes|) && Plain(k)
    requires forall j :: 0 <= j < |actions| ==>
               var a := actions[j].action; a.Local? && a.op.TPut? ==> a.op.entry.queryId != k
    ensures AllSpare(c, s, waits, actions, k)
    decreases |actions|
  {
    if actions != [] {
      PlainSpared(c, s, waits, actions[..|actions| - 1], k);
      var t := RunOn(c, s, waits, actions[..|actions| - 1]).0;
      assert KeysOk(t.nodes[Actor(actions[|actions| - 1].action)].l1);
    }
  }

  // ----- A delete, and what happens after it -----

  /** What each node waits for after a delete: its own copy of the message. */
  function WaitsOf(s: State): (w: seq<nat>)
    ensures |w| == |s.nodes|
  {
    seq(|s.nodes|, j requires 0 <= j < |s.nodes| => |s.nodes[j].queue| + 1)
  }

  function Deleted(c: TierConfig, s: State, i: nat, k: string, tenant: Option<string>, now: real): (r: State)
    requires Consistent(s) && i < |s.nodes|
    ensures Consistent(r) && |r.nodes| == |s.nodes|
  {
    NextConsistent(c, s, Local(i, TDelete(k, tenant)), now);
    Next(c, s, Local(i, TDelete(k, tenant)), now)
  }

  lemma {:induction false} DeleteMakesGone(c: TierConfig, s: State, i: nat, k: string, tenant: Option<string>, now: real)
    requires Consistent(s) && i < |s.nodes| && Reaches(TiersOf(s, i), k, tenant)
    ensures Gone(Deleted(c, s, i, k, tenant, now), k, WaitsOf(s))
  {
  }

  lemma {:induction false} MissedRowStays(c: TierConfig, s: State, i: nat, k: string, tenant: Option<string>, now: real)
    requires Consistent(s) && i < |s.nodes| && !Reaches(TiersOf(s, i), k, tenant)
    ensures Deleted(c, s, i, k, tenant, now).l3.Some? && k in Deleted(c, s, i, k, tenant, now).l3.value
  {
  }

  lemma {:induction false} GoneFromTheStart(c: TierConfig, s: State, waits: seq<nat>, actions: seq<Timed>, k: string)
    requires Consistent(s) && |waits| == |s.nodes| && Actors(actions, |s.nodes|)
    requires AlwaysGone(c, s, waits, actions, k)
    ensures NotShared(Some(s.l2), s.l3, k)
    decreases |actions|
  {
    if actions != [] { GoneFromTheStart(c, s, waits, actions[..|actions| - 1], k); }
  }

  /** Delete safety: after a delete of k, over every run in which no step stores k again, k
      stays out of L2 and L3 and out of the L1 of every node that has consumed the
      invalidation, if and only if the delete reaches the row and no sync_l1_to_l2 is taken by
      a node that still holds k unexpired. */
  lemma {:induction false} DeleteIsSafe(c: TierConfig, s: State, i: nat, k: string, tenant: Option<string>, now: real,
                                        actions: seq<Timed>)
    requires Consistent(s) && i < |s.nodes| && Actors(actions, |s.nodes|)
    requires AllSpare(c, Deleted(c, s, i, k, tenant, now), WaitsOf(s), actions, k)
    ensures var deleted := Deleted(c, s, i, k, tenant, now);
            AlwaysGone(c, deleted, WaitsOf(s), actions, k)
            <==> Reaches(TiersOf(s, i), k, tenant) && NoneRevives(c, deleted, WaitsOf(s), actions, k)
  {
    var deleted := Deleted(c, s, i, k, tenant, now);
    if Reaches(TiersOf(s, i), k, tenant) {
      DeleteMakesGone(c, s, i, k, tenant, now);
      RunStaysGone(c, deleted, WaitsOf(s), actions, k);
    } else {
      MissedRowStays(c, s, i, k, tenant, now);
      if AlwaysGone(c, deleted, WaitsOf(s), actions, k) { GoneFromTheStart(c, deleted, WaitsOf(s), actions, k); }
    }
  }

  // ----- A clear, and what happens after it -----

  function AfterClear(c: TierConfig, s: State, i: nat, tenant: Option<string>, now: real): (r: State)
    requires Consistent(s) && i < |s.nodes|
    ensures Consistent(r) && |r.nodes| == |s.nodes|
  {
    NextConsistent(c, s, Local(i, TClear(tenant)), now);
    Next(c, s, Local(i, TClear(tenant)), now)
  }

  /** A row of k that belongs to another tenant than the clear names. */
  predicate SparedRow(s: State, k: string, tenant: Option<string>) {
    s.l3.Some? && k in s.l3.value && tenant.Some? && tenant.value != "" && s.l3.value[k].tenant != tenant.value
  }

  lemma {:induction false} ClearMakesGone(c: TierConfig, s: State, i: nat, k: string, tenant: Option<string>, now: real)
    requires Consistent(s) && i < |s.nodes| && !SparedRow(s, k, tenant)
    ensures Gone(AfterClear(c, s, i, tenant, now), k, WaitsOf(s))
  {
  }

  lemma {:induction false} SparedRowStays(c: TierConfig, s: State, i: nat, k: string, tenant: Option<string>, now: real)
    requires Consistent(s) && i < |s.nodes| && SparedRow(s, k, tenant)
    ensures AfterClear(c, s, i, tenant, now).l3.Some? && k in AfterClear(c, s, i, tenant, now).l3.value
  {
  }

  /** Clear safety: after a clear, over every run in which no step stores k again, k stays out
      of L2 and L3 and out of the L1 of every node that has consumed the flush, if and only if
      no row of k is spared and no sync_l1_to_l2 is taken by a node that still holds k
      unexpired. */
  lemma {:induction false} ClearIsSafe(c: TierConfig, s: State, i: nat, k: string, tenant: Option<string>, now: real,
                                       actions: seq<Timed>)
    requires Consistent(s) && i < |s.nodes| && Actors(actions, |s.nodes|)
    requires AllSpare(c, AfterClear(c, s, i, tenant, now), WaitsOf(s), actions, k)
    ensures var cleared := AfterClear(c, s, i, tenant, now);
            AlwaysGone(c, cleared, WaitsOf(s), actions, k)
            <==> !SparedRow(s, k, tenant) && NoneRevives(c, cleared, WaitsOf(s), actions, k)
  {
    var cleared := AfterClear(c, s, i, tenant, now);
    if SparedRow(s, k, tenant) {
      SparedRowStays(c, s, i, k, tenant, now);
      if AlwaysGone(c, cleared, WaitsOf(s), actions, k) { GoneFromTheStart(c, cleared, WaitsOf(s), actions, k); }
    } else {
      ClearMakesGone(c, s, i, k, tenant, now);
      RunStaysGone(c, cleared, WaitsOf(s), actions, k);
    }
  }

  /** A message takes exactly its key out of L1, a flush everything. */
  lemma {:induction false} ReceivedOnly(l1: L1State, message: string, k: string)
    ensures var r := Receive(l1, message).entries.vals;
            && (k in r <==> k in l1.entries.vals && message != k && message != "__FLUSHALL__")
            && (k in r ==> r[k] == l1.entries.vals[k])
  {
  }

  /** Every node gets every message, at the end of its queue, and consumes its first one. */
  lemma {:induction false} MessagesReachAll(c: TierConfig, s: State, i: nat, op: TierOp, now: real, j: nat)
    requires AllOrdered(s) && i < |s.nodes| && j < |s.nodes|
    ensures var r := Next(c, s, Local(i, op), now);
            && (op.TDelete? ==> r.nodes[j].queue == s.nodes[j].queue + [op.deleted])
            && (op.TClear? ==> r.nodes[j].queue == s.nodes[j].queue + ["__FLUSHALL__"])
            && (!op.TDelete? && !op.TClear? ==> r.nodes[j].queue == s.nodes[j].queue)
            && (j != i ==> r.nodes[j].l1 == s.nodes[j].l1)
  {
  }

  // ----- What sync_l2_to_l1 copies -----

  /** Every put finds room. */
  predicate RoomForAll(c: L1Config, l1: L1State, keys: seq<string>, l2: L2Map, now: real)
    requires Ordered(l1.entries)
  {
    keys == [] ||
    var front, x := keys[..|keys| - 1], keys[|keys| - 1];
    RoomForAll(c, l1, front, l2, now) && (x in l2 ==> HasRoom(c, PullDown(c, l1, front, l2, now), l2[x]))
  }

  /** With room for all, L1 then holds exactly what it held and what L2 holds of these keys, as
      L2 holds it. */
  lemma {:induction false} PulledIn(c: L1Config, l1: L1State, keys: seq<string>, l2: L2Map, now: real, k: string)
    requires Ordered(l1.entries) && RoomForAll(c, l1, keys, l2, now)
    requires forall x :: x in l2 ==> l2[x].queryId == x && Plain(x)
    ensures var r := PullDown(c, l1, keys, l2, now).entries.vals;
            if k in keys && k in l2
            then k in r && r[k] == l2[k].(memory := c.dimension * 4 + l2[k].textBytes + l2[k].dataBytes + 150)
            else (k in r <==> k in l1.entries.vals) && (k in r ==> r[k] == l1.entries.vals[k])
  {
    if keys != [] {
      var front, x := keys[..|keys| - 1], keys[|keys| - 1];
      PulledIn(c, l1, front, l2, now, k);
      assert k in keys <==> k in front || k == x by { assert keys == front + [x]; }
      if x in l2 { PutWithRoom(c, PullDown(c, l1, front, l2, now), l2[x], now); }
    }
  }
}
