/** Capacity, generated ids and the text index, over every run of the in-memory cache. */
module L1Theorems {
  import opened Options
  import opened Sequences
  import opened Dicts
  import opened Policies
  import opened L1Spec

  datatype Op = PutOp(entry: CacheEntry) | GetOp(id: string) | DeleteOp(deleted: string) | ClearOp

  /** An operation and the clock reading it sees. */
  datatype Event = Event(op: Op, now: real)

  function Step(c: L1Config, st: L1State, ev: Event): L1State
    requires Ordered(st.entries)
  {
    match ev.op
    case PutOp(e) => PutEntry(c, st, e, ev.now)
    case GetOp(id) => GetState(c, st, id, ev.now)
    case DeleteOp(id) => Evict(st, id)
    case ClearOp => Cleared(st)
  }

  lemma {:induction false} StepOrdered(c: L1Config, st: L1State, ev: Event)
    requires Ordered(st.entries)
    ensures Ordered(Step(c, st, ev).entries)
  {
    match ev.op
    case PutOp(e) => PutEntryOrdered(c, st, e, ev.now);
    case GetOp(id) => EvictOrdered(st, id);
    case DeleteOp(id) => EvictOrdered(st, id);
    case ClearOp =>
  }

  function Run(c: L1Config, events: seq<Event>): (st: L1State)
    ensures Ordered(st.entries)
  {
    if events == [] then EMPTY_L1
    else
      var before := Run(c, events[..|events| - 1]);
      StepOrdered(c, before, events[|events| - 1]);
      Step(c, before, events[|events| - 1])
  }

  // ----- The id a put is stored under -----

  /** How many ids a run has generated. */
  function Handed(events: seq<Event>): nat {
    if events == [] then 0
    else
      var last := events[|events| - 1];
      Handed(events[..|events| - 1]) + if last.op.PutOp? && Generated(last.op.entry.queryId) then 1 else 0
  }

  /** The id under which an entry put after these events is stored. */
  function PutId(events: seq<Event>, e: CacheEntry): string {
    if Generated(e.queryId) then QueryId(Handed(events)) else e.queryId
  }

  lemma {:induction false} PutHands(c: L1Config, st: L1State, e: CacheEntry, now: real)
    requires Ordered(st.entries)
    ensures PutEntry(c, st, e, now).nextQueryId == st.nextQueryId + if Generated(e.queryId) then 1 else 0
  {
    var size := Footprint(e, c.dimension);
    var fitted := FitMemory(c, st, size, now);
    FitMemoryOrdered(c, st, size, now);
    var stored := Stored(c, fitted, e);
    PutOrdered(fitted.entries, stored.queryId, stored);
    FitSizeOrdered(c, Added(fitted, stored, Generated(e.queryId)), now);
  }

  lemma {:induction false} RunHanded(c: L1Config, events: seq<Event>)
    ensures Run(c, events).nextQueryId == Handed(events)
  {
    if events != [] {
      var front, last := events[..|events| - 1], events[|events| - 1];
      RunHanded(c, front);
      if last.op.PutOp? { PutHands(c, Run(c, front), last.op.entry, last.now); }
    }
  }

  // ----- Memory -----

  lemma {:induction false} TotalDrop(keys: seq<string>, vals: map<string, CacheEntry>, k: string)
    requires NoDup(keys)
    ensures TotalOf(Drop(keys, k), vals - {k}) + (if k in keys && k in vals then vals[k].memory else 0)
            == TotalOf(keys, vals)
  {
    if keys != [] {
      TotalDrop(keys[1..], vals, k);
      assert k in keys <==> k == keys[0] || k in keys[1..];
      DropHead(keys, vals, k);
    }
  }

  lemma {:induction false} DropHead(keys: seq<string>, vals: map<string, CacheEntry>, k: string)
    requires keys != []
    ensures TotalOf(Drop(keys, k), vals - {k})
            == (if keys[0] != k && keys[0] in vals then vals[keys[0]].memory else 0)
               + TotalOf(Drop(keys[1..], k), vals - {k})
  {
    if keys[0] == k {
      assert Drop(keys, k) == Drop(keys[1..], k);
    } else {
      assert Drop(keys, k) == [keys[0]] + Drop(keys[1..], k);
    }
  }

  lemma {:induction false} TotalUpdate(keys: seq<string>, vals: map<string, CacheEntry>, k: string, e: CacheEntry)
    requires NoDup(keys)
    ensures TotalOf(keys, vals[k := e]) + (if k in keys && k in vals then vals[k].memory else 0)
            == TotalOf(keys, vals) + (if k in keys then e.memory else 0)
  {
    if keys != [] {
      TotalUpdate(keys[1..], vals, k, e);
      assert k in keys <==> k == keys[0] || k in keys[1..];
    }
  }

  lemma {:induction false} TotalAppend(keys: seq<string>, vals: map<string, CacheEntry>, k: string)
    ensures TotalOf(keys + [k], vals) == TotalOf(keys, vals) + (if k in vals then vals[k].memory else 0)
  {
    if keys == [] {
      assert keys + [k] == [k] && [k][1..] == [];
    } else {
      assert (keys + [k])[1..] == keys[1..] + [k] && (keys + [k])[0] == keys[0];
      TotalAppend(keys[1..], vals, k);
    }
  }

  lemma {:induction false} TotalRemove(store: Store, k: string)
    requires Ordered(store) && k in store.vals
    ensures Total(Remove(store, k)) == Total(store) - store.vals[k].memory
  {
    TotalDrop(store.keys, store.vals, k);
  }

  lemma {:induction false} TotalPut(store: Store, k: string, e: CacheEntry)
    requires Ordered(store)
    ensures Total(Put(store, k, e))
            == Total(store) + e.memory - (if k in store.vals then store.vals[k].memory else 0)
  {
    if k in store.vals {
      TotalUpdate(store.keys, store.vals, k, e);
    } else {
      TotalAppend(store.keys, store.vals[k := e], k);
      TotalUpdate(store.keys, store.vals, k, e);
    }
  }

  lemma {:induction false} FitMemoryBound(c: L1Config, st: L1State, size: nat, now: real)
    requires Ordered(st.entries)
    ensures var r := FitMemory(c, st, size, now);
            r.entries.keys == [] || (Total(r.entries) + size) as real <= c.maxBytes
    decreases |st.entries.keys|
  {
    if (Total(st.entries) + size) as real > c.maxBytes && |st.entries.keys| > 0 {
      var victim := SelectVictim(c.policy, st.entries, now).value;
      RemoveOrdered(st.entries, victim);
      FitMemoryBound(c, Evict(st, victim), size, now);
    }
  }

  lemma {:induction false} FitSizeShrinks(c: L1Config, st: L1State, now: real)
    requires Ordered(st.entries)
    ensures Total(FitSize(c, st, now).entries) <= Total(st.entries)
    decreases |st.entries.keys|
  {
    if |st.entries.keys| > c.maxSize {
      var victim := SelectVictim(c.policy, st.entries, now).value;
      RemoveOrdered(st.entries, victim);
      TotalRemove(st.entries, victim);
      FitSizeShrinks(c, Evict(st, victim), now);
    }
  }

  /** After every put, whatever the policy: at most max_size entries, and no more memory
      than the limit or, if that is more, the new entry alone. */
  lemma {:induction false} PutWithinCapacity(c: L1Config, st: L1State, e: CacheEntry, now: real)
    requires Ordered(st.entries)
    ensures var r := PutEntry(c, st, e, now);
            var size := Footprint(e, c.dimension) as real;
            && |r.entries.keys| <= c.maxSize
            && Total(r.entries) as real <= if size > c.maxBytes then size else c.maxBytes
  {
    var size := Footprint(e, c.dimension);
    var fitted := FitMemory(c, st, size, now);
    FitMemoryOrdered(c, st, size, now);
    FitMemoryBound(c, st, size, now);
    var stored := Stored(c, fitted, e);
    PutOrdered(fitted.entries, stored.queryId, stored);
    TotalPut(fitted.entries, stored.queryId, stored);
    var added := Added(fitted, stored, Generated(e.queryId));
    FitSizeShrinks(c, added, now);
    FitSizeOrdered(c, added, now);
  }

  // ----- What stays -----

  lemma {:induction false} FitMemorySubset(c: L1Config, st: L1State, size: nat, now: real)
    requires Ordered(st.entries)
    ensures forall k :: k in FitMemory(c, st, size, now).entries.vals ==>
              k in st.entries.vals && FitMemory(c, st, size, now).entries.vals[k] == st.entries.vals[k]
    decreases |st.entries.keys|
  {
    if (Total(st.entries) + size) as real > c.maxBytes && |st.entries.keys| > 0 {
      var victim := SelectVictim(c.policy, st.entries, now).value;
      RemoveOrdered(st.entries, victim);
      FitMemorySubset(c, Evict(st, victim), size, now);
    }
  }

  lemma {:induction false} FitSizeSubset(c: L1Config, st: L1State, now: real)
    requires Ordered(st.entries)
    ensures forall k :: k in FitSize(c, st, now).entries.vals ==>
              k in st.entries.vals && FitSize(c, st, now).entries.vals[k] == st.entries.vals[k]
    decreases |st.entries.keys|
  {
    if |st.entries.keys| > c.maxSize {
      var victim := SelectVictim(c.policy, st.entries, now).value;
      RemoveOrdered(st.entries, victim);
      FitSizeSubset(c, Evict(st, victim), now);
    }
  }

  /** After a put, L1 holds old entries as they were and possibly the new one. */
  lemma {:induction false} PutSubset(c: L1Config, st: L1State, e: CacheEntry, now: real)
    requires Ordered(st.entries)
    ensures forall k :: k in PutEntry(c, st, e, now).entries.vals ==>
              if k == Stored(c, st, e).queryId
              then PutEntry(c, st, e, now).entries.vals[k] == Stored(c, st, e)
              else k in st.entries.vals && PutEntry(c, st, e, now).entries.vals[k] == st.entries.vals[k]
  {
    var size := Footprint(e, c.dimension);
    var fitted := FitMemory(c, st, size, now);
    FitMemoryOrdered(c, st, size, now);
    FitMemorySubset(c, st, size, now);
    var stored := Stored(c, fitted, e);
    PutOrdered(fitted.entries, stored.queryId, stored);
    FitSizeSubset(c, Added(fitted, stored, Generated(e.queryId)), now);
  }

  // ----- Keys -----

  /** An entry is stored under its own id, and every generated id was handed out before. */
  ghost predicate KeyOk(st: L1State, k: string)
    requires k in st.entries.vals
  {
    st.entries.vals[k].queryId == k && ("q_" <= k ==> HandedOut(st, k)) && k != ""
  }

  ghost predicate HandedOut(st: L1State, k: string) {
    exists n: nat :: n < st.nextQueryId && k == QueryId(n)
  }

  ghost predicate KeysOk(st: L1State) {
    Ordered(st.entries) && forall k :: k in st.entries.vals ==> KeyOk(st, k)
  }

  lemma {:induction false} EvictKeysOk(st: L1State, id: string)
    requires KeysOk(st)
    ensures KeysOk(Evict(st, id))
  {
    EvictOrdered(st, id);
    var r := Evict(st, id);
    forall k | k in r.entries.vals ensures KeyOk(r, k) {
      assert KeyOk(st, k);
      if "q_" <= k {
        var n: nat :| n < st.nextQueryId && k == QueryId(n);
        assert n < r.nextQueryId;
      }
    }
  }

  lemma {:induction false} FitMemoryKeysOk(c: L1Config, st: L1State, size: nat, now: real)
    requires KeysOk(st)
    ensures KeysOk(FitMemory(c, st, size, now))
    decreases |st.entries.keys|
  {
    if (Total(st.entries) + size) as real > c.maxBytes && |st.entries.keys| > 0 {
      var victim := SelectVictim(c.policy, st.entries, now).value;
      RemoveOrdered(st.entries, victim);
      EvictKeysOk(st, victim);
      FitMemoryKeysOk(c, Evict(st, victim), size, now);
    }
  }

  lemma {:induction false} FitSizeKeysOk(c: L1Config, st: L1State, now: real)
    requires KeysOk(st)
    ensures KeysOk(FitSize(c, st, now))
    decreases |st.entries.keys|
  {
    if |st.entries.keys| > c.maxSize {
      var victim := SelectVictim(c.policy, st.entries, now).value;
      RemoveOrdered(st.entries, victim);
      EvictKeysOk(st, victim);
      FitSizeKeysOk(c, Evict(st, victim), now);
    }
  }

  /** An id the cache generates is never one it already holds. */
  lemma {:induction false} GeneratedIsFresh(st: L1State)
    requires KeysOk(st)
    ensures QueryId(st.nextQueryId) !in st.entries.vals
  {
    var id := QueryId(st.nextQueryId);
    if id in st.entries.vals {
      assert KeyOk(st, id);
      assert id[..2] == "q_";
      var n: nat :| n < st.nextQueryId && id == QueryId(n);
      assert QueryId(n)[2..] == Decimal(n) && id[2..] == Decimal(st.nextQueryId);
      DecimalInjective(n, st.nextQueryId);
    }
  }

  lemma {:induction false} AddedKeysOk(c: L1Config, st: L1State, e: CacheEntry)
    requires KeysOk(st)
    ensures KeysOk(Added(st, Stored(c, st, e), Generated(e.queryId)))
  {
    var stored := Stored(c, st, e);
    var r := Added(st, stored, Generated(e.queryId));
    PutOrdered(st.entries, stored.queryId, stored);
    forall k | k in r.entries.vals ensures KeyOk(r, k) {
      if k == stored.queryId {
        if Generated(e.queryId) { assert st.nextQueryId < r.nextQueryId && k == QueryId(st.nextQueryId); }
      } else {
        assert KeyOk(st, k);
        if "q_" <= k {
          var n: nat :| n < st.nextQueryId && k == QueryId(n);
          assert n < r.nextQueryId;
        }
      }
    }
  }

  lemma {:induction false} StepKeysOk(c: L1Config, st: L1State, ev: Event)
    requires KeysOk(st)
    ensures KeysOk(Step(c, st, ev))
  {
    match ev.op
    case PutOp(e) =>
      var size := Footprint(e, c.dimension);
      var fitted := FitMemory(c, st, size, ev.now);
      FitMemoryKeysOk(c, st, size, ev.now);
      AddedKeysOk(c, fitted, e);
      FitSizeKeysOk(c, Added(fitted, Stored(c, fitted, e), Generated(e.queryId)), ev.now);
    case GetOp(id) =>
      EvictKeysOk(st, id);
      var r := GetState(c, st, id, ev.now);
      forall k | k in r.entries.vals ensures KeyOk(r, k) {
        assert KeyOk(st, k);
        if "q_" <= k {
          var n: nat :| n < st.nextQueryId && k == QueryId(n);
          assert n < r.nextQueryId;
        }
      }
    case DeleteOp(id) => EvictKeysOk(st, id);
    case ClearOp =>
  }

  lemma {:induction false} RunKeysOk(c: L1Config, events: seq<Event>)
    ensures KeysOk(Run(c, events))
  {
    if events != [] {
      RunKeysOk(c, events[..|events| - 1]);
      StepKeysOk(c, Run(c, events[..|events| - 1]), events[|events| - 1]);
    }
  }

  /** Over every run, the next generated id is not resident. */
  lemma {:induction false} GeneratedIdsNeverCollide(c: L1Config, events: seq<Event>)
    ensures QueryId(Run(c, events).nextQueryId) !in Run(c, events).entries.vals
  {
    RunKeysOk(c, events);
    GeneratedIsFresh(Run(c, events));
  }

  // ----- The text index -----

  /** The text index is exactly the inverse of the entries. */
  ghost predicate Inverse(st: L1State) {
    && (forall k :: k in st.entries.vals ==>
          var t := st.entries.vals[k].queryText; t in st.textToId && st.textToId[t] == k)
    && (forall t :: t in st.textToId ==>
          st.textToId[t] in st.entries.vals && st.entries.vals[st.textToId[t]].queryText == t)
  }

  lemma {:induction false} EvictInverse(st: L1State, id: string)
    requires Inverse(st)
    ensures Inverse(Evict(st, id))
  {
  }

  lemma {:induction false} FitMemoryInverse(c: L1Config, st: L1State, size: nat, now: real)
    requires Ordered(st.entries) && Inverse(st)
    ensures Inverse(FitMemory(c, st, size, now))
    ensures FitMemory(c, st, size, now).entries.vals.Keys <= st.entries.vals.Keys
    ensures forall k :: k in FitMemory(c, st, size, now).entries.vals ==>
              FitMemory(c, st, size, now).entries.vals[k] == st.entries.vals[k]
    decreases |st.entries.keys|
  {
    if (Total(st.entries) + size) as real > c.maxBytes && |st.entries.keys| > 0 {
      var victim := SelectVictim(c.policy, st.entries, now).value;
      RemoveOrdered(st.entries, victim);
      EvictInverse(st, victim);
      FitMemoryInverse(c, Evict(st, victim), size, now);
    }
  }

  lemma {:induction false} FitSizeInverse(c: L1Config, st: L1State, now: real)
    requires Ordered(st.entries) && Inverse(st)
    ensures Inverse(FitSize(c, st, now))
    ensures FitSize(c, st, now).entries.vals.Keys <= st.entries.vals.Keys
    ensures forall k :: k in FitSize(c, st, now).entries.vals ==>
              FitSize(c, st, now).entries.vals[k] == st.entries.vals[k]
    decreases |st.entries.keys|
  {
    if |st.entries.keys| > c.maxSize {
      var victim := SelectVictim(c.policy, st.entries, now).value;
      RemoveOrdered(st.entries, victim);
      EvictInverse(st, victim);
      FitSizeInverse(c, Evict(st, victim), now);
    }
  }

  /** The put's id and text belong together: no other resident id has this text and this id
      is not resident with another text. */
  ghost predicate Matches(st: L1State, id: string, text: string) {
    forall k :: k in st.entries.vals ==> (k == id <==> st.entries.vals[k].queryText == text)
  }

  /** Adding an entry keeps the text index exact if and only if its id and text belong
      together. */
  lemma {:induction false} AddedInverse(st: L1State, e: CacheEntry, generated: bool)
    requires Inverse(st)
    ensures Inverse(Added(st, e, generated)) <==> Matches(st, e.queryId, e.queryText)
  {
    var r := Added(st, e, generated);
    if !Matches(st, e.queryId, e.queryText) {
      var k :| k in st.entries.vals && !(k == e.queryId <==> st.entries.vals[k].queryText == e.queryText);
      if k == e.queryId {
        assert st.entries.vals[k].queryText in r.textToId;
      } else {
        assert r.entries.vals[k] == st.entries.vals[k];
      }
    }
  }

  /** The lookup by text is exact while the index is. */
  lemma {:induction false} FindExactIff(c: L1Config, st: L1State, text: string, now: real)
    requires Inverse(st)
    ensures FindExact(c, st, text, now).Some? <==>
            c.exactMatch && (exists k :: k in st.entries.vals && st.entries.vals[k].queryText == text
                               && !Expired(st.entries.vals[k], c.ttl, now))
    ensures FindExact(c, st, text, now).Some? ==>
            var k := FindExact(c, st, text, now).value;
            k in st.entries.vals && st.entries.vals[k].queryText == text
  {
  }

  /** The id under which the put at i is stored. */
  function IdAt(events: seq<Event>, i: nat): string
    requires i < |events| && events[i].op.PutOp?
  {
    PutId(events[..i], events[i].op.entry)
  }

  /** The ids and the texts of the puts of a run correspond one to one. */
  ghost predicate OneToOne(events: seq<Event>) {
    forall i, j :: 0 <= i < |events| && 0 <= j < |events| && events[i].op.PutOp? && events[j].op.PutOp? ==>
      (IdAt(events, i) == IdAt(events, j) <==> events[i].op.entry.queryText == events[j].op.entry.queryText)
  }

  lemma {:induction false} OneToOnePrefix(events: seq<Event>)
    requires OneToOne(events) && events != []
    ensures OneToOne(events[..|events| - 1])
  {
    var front := events[..|events| - 1];
    assert forall i :: 0 <= i < |front| ==> front[i] == events[i] && front[..i] == events[..i];
    forall i, j | 0 <= i < |front| && 0 <= j < |front| && front[i].op.PutOp? && front[j].op.PutOp?
      ensures IdAt(front, i) == IdAt(front, j) <==> front[i].op.entry.queryText == front[j].op.entry.queryText
    {
      assert IdAt(front, i) == IdAt(events, i) && IdAt(front, j) == IdAt(events, j);
    }
  }

  /** Every resident pair of id and text was put by the run. */
  ghost predicate FromPuts(st: L1State, events: seq<Event>) {
    forall k :: k in st.entries.vals ==> PutBefore(events, k, st.entries.vals[k].queryText)
  }

  ghost predicate PutBefore(events: seq<Event>, id: string, text: string) {
    exists i :: 0 <= i < |events| && PutAt(events, i, id, text)
  }

  ghost predicate PutAt(events: seq<Event>, i: int, id: string, text: string)
    requires 0 <= i < |events|
  {
    events[i].op.PutOp? && IdAt(events, i) == id && events[i].op.entry.queryText == text
  }

  lemma {:induction false} PutBeforeLonger(events: seq<Event>, longer: seq<Event>, id: string, text: string)
    requires events <= longer && PutBefore(events, id, text)
    ensures PutBefore(longer, id, text)
  {
    var i :| 0 <= i < |events| && PutAt(events, i, id, text);
    assert longer[i] == events[i] && longer[..i] == events[..i];
    assert PutAt(longer, i, id, text);
  }

  lemma {:induction false} PutMatches(st: L1State, events: seq<Event>, e: CacheEntry)
    requires events != [] && OneToOne(events) && events[|events| - 1].op == PutOp(e)
    requires FromPuts(st, events[..|events| - 1])
    ensures Matches(st, PutId(events[..|events| - 1], e), e.queryText)
  {
    var last := |events| - 1;
    var id := PutId(events[..last], e);
    assert IdAt(events, last) == id;
    forall k | k in st.entries.vals ensures k == id <==> st.entries.vals[k].queryText == e.queryText {
      var t := st.entries.vals[k].queryText;
      PutBeforeLonger(events[..last], events, k, t);
      var i :| 0 <= i < |events| && PutAt(events, i, k, t);
      assert IdAt(events, i) == IdAt(events, last) <==> t == e.queryText;
    }
  }

  lemma {:induction false} PutStepInverse(c: L1Config, events: seq<Event>, e: CacheEntry, now: real)
    requires events != [] && OneToOne(events) && events[|events| - 1] == Event(PutOp(e), now)
    requires var st := Run(c, events[..|events| - 1]); Inverse(st) && FromPuts(st, events[..|events| - 1])
    ensures var r := PutEntry(c, Run(c, events[..|events| - 1]), e, now); Inverse(r) && FromPuts(r, events)
  {
    var front := events[..|events| - 1];
    var st, size := Run(c, front), Footprint(e, c.dimension);
    var fitted := FitMemory(c, st, size, now);
    RunHanded(c, front);
    FitMemoryInverse(c, st, size, now);
    FitMemoryOrdered(c, st, size, now);
    PutMatches(fitted, events, e);
    var stored := Stored(c, fitted, e);
    var generated := Generated(e.queryId);
    AddedInverse(fitted, stored, generated);
    PutOrdered(fitted.entries, stored.queryId, stored);
    FitSizeInverse(c, Added(fitted, stored, generated), now);
    AddedFromPuts(fitted, events, e, stored, generated);
  }

  lemma {:induction false} AddedFromPuts(st: L1State, events: seq<Event>, e: CacheEntry, stored: CacheEntry, gen: bool)
    requires events != [] && events[|events| - 1].op == PutOp(e)
    requires stored.queryId == PutId(events[..|events| - 1], e) && stored.queryText == e.queryText
    requires FromPuts(st, events[..|events| - 1])
    ensures FromPuts(Added(st, stored, gen), events)
  {
    var last := |events| - 1;
    var added := Added(st, stored, gen);
    forall k | k in added.entries.vals ensures PutBefore(events, k, added.entries.vals[k].queryText) {
      if k == stored.queryId {
        assert PutAt(events, last, k, stored.queryText);
      } else {
        PutBeforeLonger(events[..last], events, k, st.entries.vals[k].queryText);
      }
    }
  }

  /** Over every run whose ids and texts correspond one to one, the text index stays the
      exact inverse of the entries: a text is found exactly when an unexpired entry with it
      is resident. */
  lemma {:induction false} RunInverse(c: L1Config, events: seq<Event>)
    requires OneToOne(events)
    ensures Inverse(Run(c, events)) && FromPuts(Run(c, events), events)
  {
    if events != [] {
      var front, last := events[..|events| - 1], events[|events| - 1];
      OneToOnePrefix(events);
      RunInverse(c, front);
      match last.op {
        case PutOp(e) => PutStepInverse(c, events, e, last.now);
        case GetOp(id) => OtherStepInverse(c, Run(c, front), events);
        case DeleteOp(id) => OtherStepInverse(c, Run(c, front), events);
        case ClearOp => OtherStepInverse(c, Run(c, front), events);
      }
    }
  }

  /** The resident pairs of id and text only get fewer. */
  ghost predicate FewerPairs(r: L1State, st: L1State) {
    forall k :: k in r.entries.vals ==>
      k in st.entries.vals && r.entries.vals[k].queryText == st.entries.vals[k].queryText
  }

  lemma {:induction false} GetInverse(c: L1Config, st: L1State, id: string, now: real)
    requires Inverse(st)
    ensures Inverse(GetState(c, st, id, now)) && FewerPairs(GetState(c, st, id, now), st)
  {
    if id in st.entries.vals && Expired(st.entries.vals[id], c.ttl, now) {
      EvictInverse(st, id);
    }
  }

  lemma {:induction false} OtherStepInverse(c: L1Config, st: L1State, events: seq<Event>)
    requires Ordered(st.entries) && Inverse(st) && events != [] && FromPuts(st, events[..|events| - 1])
    requires !events[|events| - 1].op.PutOp?
    ensures Inverse(Step(c, st, events[|events| - 1])) && FromPuts(Step(c, st, events[|events| - 1]), events)
  {
    var last := events[|events| - 1];
    var r := Step(c, st, last);
    match last.op {
      case GetOp(id) => GetInverse(c, st, id, last.now);
      case DeleteOp(id) => EvictInverse(st, id);
      case ClearOp =>
    }
    FewerFromPuts(r, st, events);
  }

  lemma {:induction false} FewerFromPuts(r: L1State, st: L1State, events: seq<Event>)
    requires events != [] && FewerPairs(r, st) && FromPuts(st, events[..|events| - 1])
    ensures FromPuts(r, events)
  {
    forall k | k in r.entries.vals ensures PutBefore(events, k, r.entries.vals[k].queryText) {
      PutBeforeLonger(events[..|events| - 1], events, k, st.entries.vals[k].queryText);
    }
  }

  /** Two resident ids with one text, in any state: evicting the one hides the other from
      lookup by text, although it is still resident. */
  lemma {:induction false} SharedTextHides(c: L1Config, st: L1State, a: string, b: string, now: real)
    requires a in st.entries.vals && b in st.entries.vals && a != b
    requires st.entries.vals[a].queryText == st.entries.vals[b].queryText
    ensures b in Evict(st, a).entries.vals
    ensures FindExact(c, Evict(st, a), st.entries.vals[b].queryText, now) == None
  {
  }
}
