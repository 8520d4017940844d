/** What least-recently-used eviction by timestamp means over whole runs. */
module LruTheorems {
  import opened Options
  import opened Sequences
  import opened Dicts
  import opened Policies
  import opened L1Spec
  import opened L1Theorems

  /** A strictly increasing clock, entries put fresh, and no put that must free memory. */
  ghost predicate Calm(c: L1Config, events: seq<Event>) {
    && c.policy == Lru
    && (forall i, j :: 0 <= i < j < |events| ==> events[i].now < events[j].now)
    && (forall i :: 0 <= i < |events| ==> FreshPut(events[i]))
    && (forall i :: 0 <= i < |events| ==> Roomy(c, events, i))
  }

  predicate FreshPut(ev: Event) {
    ev.op.PutOp? ==> ev.op.entry.lastAccessedAt == ev.now
  }

  /** The put at i fits beside what is resident when it happens. */
  ghost predicate Roomy(c: L1Config, events: seq<Event>, i: int)
    requires 0 <= i < |events|
  {
    events[i].op.PutOp? ==> Fits(c, Run(c, events[..i]), events[i].op.entry)
  }

  predicate Fits(c: L1Config, st: L1State, e: CacheEntry) {
    (Total(st.entries) + Footprint(e, c.dimension)) as real <= c.maxBytes
  }

  lemma {:induction false} CalmPrefix(c: L1Config, events: seq<Event>)
    requires Calm(c, events) && events != []
    ensures Calm(c, events[..|events| - 1]) && FreshPut(events[|events| - 1])
    ensures Roomy(c, events, |events| - 1)
  {
    var front := events[..|events| - 1];
    forall i | 0 <= i < |front| ensures FreshPut(front[i]) && Roomy(c, front, i) {
      assert front[i] == events[i] && front[..i] == events[..i];
      assert Roomy(c, events, i);
    }
  }

  /** The time before the next event. */
  ghost predicate Earlier(events: seq<Event>, now: real) {
    forall i :: 0 <= i < |events| ==> events[i].now < now
  }

  /** On a calm run a put only adds its entry and then enforces the size limit. */
  lemma {:induction false} CalmPut(c: L1Config, events: seq<Event>, st: L1State, e: CacheEntry)
    requires Calm(c, events) && events != [] && events[|events| - 1].op == PutOp(e)
    requires st == Run(c, events[..|events| - 1])
    ensures PutEntry(c, st, e, events[|events| - 1].now)
            == FitSize(c, Added(st, Stored(c, st, e), Generated(e.queryId)), events[|events| - 1].now)
    ensures Stored(c, st, e).queryId == PutId(events[..|events| - 1], e)
    ensures Stored(c, st, e).lastAccessedAt == events[|events| - 1].now
  {
    CalmPrefix(c, events);
    RunHanded(c, events[..|events| - 1]);
  }

  // ----- Refinement of a recency list -----

  function Touch(list: seq<string>, id: string): seq<string> { Drop(list, id) + [id] }

  /** The creation time that each id was last put with. */
  function Created(events: seq<Event>): map<string, real> {
    if events == [] then map[]
    else
      var front, last := events[..|events| - 1], events[|events| - 1];
      if last.op.PutOp? then Created(front)[PutId(front, last.op.entry) := last.op.entry.createdAt] else Created(front)
  }

  /** A get at this time finds the id expired. */
  predicate Late(ttl: Option<int>, created: map<string, real>, id: string, now: real) {
    ttl.Some? && id in created && now - created[id] > ttl.value as real
  }

  /** The textbook cache: a list of ids, the most recent one last.  A late get drops its id. */
  function ListStep(cap: nat, list: seq<string>, op: Op, putId: string, late: bool): seq<string> {
    match op
    case PutOp(_) =>
      var touched := Touch(list, putId);
      if |touched| > cap then touched[1..] else touched
    case GetOp(id) => if id !in list then list else if late then Drop(list, id) else Touch(list, id)
    case DeleteOp(id) => Drop(list, id)
    case ClearOp => []
  }

  function ListRun(cap: nat, ttl: Option<int>, events: seq<Event>): seq<string> {
    if events == [] then []
    else
      var front, last := events[..|events| - 1], events[|events| - 1];
      ListStep(cap, ListRun(cap, ttl, front), last.op, if last.op.PutOp? then PutId(front, last.op.entry) else "",
               last.op.GetOp? && Late(ttl, Created(front), last.op.id, last.now))
  }

  function Stamp(st: L1State, k: string): real {
    if k in st.entries.vals then st.entries.vals[k].lastAccessedAt else 0.0
  }

  /** The list names the resident ids in the order of their stamps. */
  ghost predicate Recency(st: L1State, list: seq<string>) {
    && NoDup(list)
    && (forall k :: k in list <==> k in st.entries.vals)
    && (forall i, j :: 0 <= i < j < |list| ==> Stamp(st, list[i]) < Stamp(st, list[j]))
  }

  lemma {:induction false} NoLonger(a: seq<string>, b: seq<string>)
    requires NoDup(a) && NoDup(b) && forall k :: k in a ==> k in b
    ensures |a| <= |b|
  {
    if a != [] {
      var rest := Drop(b, a[0]);
      DropNoDup(b, a[0]);
      DropMembers(b, a[0]);
      assert a[0] in a;
      forall k | k in a[1..] ensures k in rest { assert k in a; }
      NoLonger(a[1..], rest);
    }
  }

  lemma {:induction false} SameLength(a: seq<string>, b: seq<string>)
    requires NoDup(a) && NoDup(b) && forall k :: k in a <==> k in b
    ensures |a| == |b|
  {
    NoLonger(a, b);
    NoLonger(b, a);
  }

  lemma {:induction false} DropOrder(list: seq<string>, id: string, i: nat, j: nat) returns (m: nat, n: nat)
    requires i < j < |Drop(list, id)|
    ensures m < n < |list| && list[m] == Drop(list, id)[i] && list[n] == Drop(list, id)[j]
  {
    if list[0] == id {
      m, n := DropOrder(list[1..], id, i, j);
      m, n := m + 1, n + 1;
    } else if i == 0 {
      m := 0;
      assert Drop(list, id)[j] == Drop(list[1..], id)[j - 1];
      n := DropFrom(list[1..], id, j - 1);
      n := n + 1;
    } else {
      m, n := DropOrder(list[1..], id, i - 1, j - 1);
      m, n := m + 1, n + 1;
    }
  }

  lemma {:induction false} DropFrom(list: seq<string>, id: string, j: nat) returns (n: nat)
    requires j < |Drop(list, id)|
    ensures n < |list| && list[n] == Drop(list, id)[j]
  {
    DropMembers(list, id);
    assert Drop(list, id)[j] in Drop(list, id);
    n :| 0 <= n < |list| && list[n] == Drop(list, id)[j];
  }

  lemma {:induction false} RemoveRecency(st: L1State, list: seq<string>, id: string)
    requires Recency(st, list)
    ensures Recency(Evict(st, id), Drop(list, id))
  {
    DropNoDup(list, id);
    DropMembers(list, id);
    var r, rest := Evict(st, id), Drop(list, id);
    forall i, j | 0 <= i < j < |rest| ensures Stamp(r, rest[i]) < Stamp(r, rest[j]) {
      var m, n := DropOrder(list, id, i, j);
      assert rest[i] in rest && rest[j] in rest;
    }
  }

  /** Touching an id with a stamp later than all others moves it to the end. */
  lemma {:induction false} TouchRecency(st: L1State, list: seq<string>, id: string, r: L1State)
    requires Recency(st, list) && id in r.entries.vals
    requires r.entries.vals.Keys == st.entries.vals.Keys + {id}
    requires forall k :: k in st.entries.vals && k != id ==> r.entries.vals[k] == st.entries.vals[k]
    requires forall k :: k in st.entries.vals ==> Stamp(st, k) < Stamp(r, id)
    ensures Recency(r, Touch(list, id))
  {
    DropNoDup(list, id);
    DropMembers(list, id);
    var rest, touched := Drop(list, id), Touch(list, id);
    forall k ensures k in touched <==> k in r.entries.vals {
      assert k in touched <==> k in rest || k == id;
    }
    forall i, j | 0 <= i < j < |touched|
      ensures touched[i] != touched[j] && Stamp(r, touched[i]) < Stamp(r, touched[j])
    {
      assert touched[i] == rest[i] && rest[i] in rest;
      if j < |rest| {
        var m, n := DropOrder(list, id, i, j);
        assert rest[j] in rest;
      }
    }
  }

  /** The victim is the head of the list. */
  lemma {:induction false} VictimIsOldest(c: L1Config, st: L1State, list: seq<string>, now: real)
    requires c.policy == Lru && Ordered(st.entries) && Recency(st, list) && list != []
    ensures st.entries.keys != []
    ensures SelectVictim(c.policy, st.entries, now) == Some(list[0])
  {
    assert list[0] in list && list[0] in st.entries.keys;
    VictimIsLeast(c.policy, st.entries, now);
    var v := SelectVictim(c.policy, st.entries, now).value;
    assert v in list;
    var i :| 0 <= i < |list| && list[i] == v;
    assert forall j :: 0 < j < |list| ==> Stamp(st, list[0]) < Stamp(st, list[j]);
    assert !KeyLess(VictimKey(c.policy, st.entries, now)(list[0]), VictimKey(c.policy, st.entries, now)(v));
  }

  lemma {:induction false} FitSizeRecency(c: L1Config, st: L1State, list: seq<string>, now: real)
    requires c.policy == Lru && Ordered(st.entries) && Recency(st, list) && |list| <= c.maxSize + 1
    ensures Recency(FitSize(c, st, now), if |list| > c.maxSize then list[1..] else list)
  {
    SameLength(st.entries.keys, list);
    if |list| > c.maxSize {
      VictimIsOldest(c, st, list, now);
      FitSizeOnce(c, st, now);
      RemoveRecency(st, list, list[0]);
      DropFirst(list);
    }
  }

  /** With one entry too many, exactly the victim goes. */
  lemma {:induction false} FitSizeOnce(c: L1Config, st: L1State, now: real)
    requires Ordered(st.entries) && |st.entries.keys| == c.maxSize + 1
    ensures FitSize(c, st, now) == Evict(st, SelectVictim(c.policy, st.entries, now).value)
  {
    RemoveOrdered(st.entries, SelectVictim(c.policy, st.entries, now).value);
  }

  lemma {:induction false} DropFirst(list: seq<string>)
    requires NoDup(list) && list != []
    ensures Drop(list, list[0]) == list[1..]
  {
    DropAbsent(list[1..], list[0]);
  }

  lemma {:induction false} DropAbsent(list: seq<string>, id: string)
    requires id !in list
    ensures Drop(list, id) == list
  {
    if list != [] { DropAbsent(list[1..], id); }
  }

  lemma {:induction false} ListShort(cap: nat, ttl: Option<int>, events: seq<Event>)
    ensures NoDup(ListRun(cap, ttl, events)) && |ListRun(cap, ttl, events)| <= cap
  {
    if events != [] {
      var list := ListRun(cap, ttl, events[..|events| - 1]);
      ListShort(cap, ttl, events[..|events| - 1]);
      match events[|events| - 1].op {
        case PutOp(e) => TouchNoDup(list, PutId(events[..|events| - 1], e));
        case GetOp(id) =>
          TouchNoDup(list, id);
          DropNoDup(list, id);
        case DeleteOp(id) => DropNoDup(list, id);
        case ClearOp =>
      }
    }
  }

  lemma {:induction false} TouchNoDup(list: seq<string>, id: string)
    requires NoDup(list)
    ensures NoDup(Touch(list, id))
    ensures |Touch(list, id)| == if id in list then |list| else |list| + 1
  {
    DropNoDup(list, id);
    DropMembers(list, id);
    forall i | 0 <= i < |Drop(list, id)| ensures Drop(list, id)[i] != id {
      assert Drop(list, id)[i] in Drop(list, id);
    }
  }

  /** Choosing the minimum timestamp refines the recency list: over every calm run the
      resident ids, ordered by their stamps, are exactly the list of the textbook cache. */
  lemma {:induction false} LruRefinesList(c: L1Config, events: seq<Event>)
    requires Calm(c, events)
    ensures Recency(Run(c, events), ListRun(c.maxSize, c.ttl, events))
    ensures Past(Run(c, events), events)
  {
    if events != [] {
      CalmPrefix(c, events);
      LruRefinesList(c, events[..|events| - 1]);
      ListShort(c.maxSize, c.ttl, events[..|events| - 1]);
      RefineStep(c, events);
      PastStep(c, events);
    }
  }

  /** Every resident entry was touched before now. */
  ghost predicate Before(st: L1State, now: real) {
    forall k :: k in st.entries.vals ==> Stamp(st, k) < now
  }

  /** Every resident entry was touched by one of the events. */
  ghost predicate Past(st: L1State, events: seq<Event>) {
    forall now :: Earlier(events, now) ==> Before(st, now)
  }

  lemma {:induction false} LastIsLater(c: L1Config, events: seq<Event>, st: L1State)
    requires Calm(c, events) && events != [] && Past(st, events[..|events| - 1])
    ensures Before(st, events[|events| - 1].now)
  {
    assert Earlier(events[..|events| - 1], events[|events| - 1].now);
  }

  lemma {:induction false} RefineStep(c: L1Config, events: seq<Event>)
    requires Calm(c, events) && events != []
    requires var front := events[..|events| - 1];
             && Recency(Run(c, front), ListRun(c.maxSize, c.ttl, front))
             && |ListRun(c.maxSize, c.ttl, front)| <= c.maxSize
             && Past(Run(c, front), front)
    ensures Recency(Run(c, events), ListRun(c.maxSize, c.ttl, events))
  {
    var front, last := events[..|events| - 1], events[|events| - 1];
    var st, list := Run(c, front), ListRun(c.maxSize, c.ttl, front);
    LastIsLater(c, events, st);
    match last.op {
      case PutOp(e) =>
        RefineCalmPut(c, events, st, list, e);
      case GetOp(id) =>
        CreatedKept(c, front);
        RefineGet(c, st, list, id, last.now, Late(c.ttl, Created(front), id, last.now));
      case DeleteOp(id) =>
        RemoveRecency(st, list, id);
      case ClearOp =>
    }
  }

  lemma {:induction false} RefineCalmPut(c: L1Config, events: seq<Event>, st: L1State, list: seq<string>, e: CacheEntry)
    requires Calm(c, events) && events != [] && events[|events| - 1].op == PutOp(e)
    requires st == Run(c, events[..|events| - 1]) && Recency(st, list) && |list| <= c.maxSize
    requires Before(st, events[|events| - 1].now)
    ensures Recency(PutEntry(c, st, e, events[|events| - 1].now),
                    ListStep(c.maxSize, list, PutOp(e), PutId(events[..|events| - 1], e), false))
  {
    CalmPut(c, events, st, e);
    RefinePut(c, st, list, Stored(c, st, e), Generated(e.queryId), events[|events| - 1].now);
  }

  lemma {:induction false} PastStep(c: L1Config, events: seq<Event>)
    requires Calm(c, events) && events != []
    requires Past(Run(c, events[..|events| - 1]), events[..|events| - 1])
    ensures Past(Run(c, events), events)
  {
    var st := Run(c, events[..|events| - 1]);
    LastIsLater(c, events, st);
    forall now | Earlier(events, now) ensures Before(Run(c, events), now) {
      assert events[|events| - 1].now < now;
      assert Before(st, now);
      StepStamps(c, events, st, now);
    }
  }

  lemma {:induction false} RefinePut(c: L1Config, st: L1State, list: seq<string>, e: CacheEntry, gen: bool, now: real)
    requires c.policy == Lru && Ordered(st.entries) && Recency(st, list) && |list| <= c.maxSize
    requires Before(st, now) && e.lastAccessedAt == now
    ensures Ordered(Added(st, e, gen).entries)
    ensures Recency(FitSize(c, Added(st, e, gen), now),
                    var touched := Touch(list, e.queryId);
                    if |touched| > c.maxSize then touched[1..] else touched)
  {
    PutOrdered(st.entries, e.queryId, e);
    TouchRecency(st, list, e.queryId, Added(st, e, gen));
    TouchNoDup(list, e.queryId);
    FitSizeRecency(c, Added(st, e, gen), Touch(list, e.queryId), now);
  }

  lemma {:induction false} RefineGet(c: L1Config, st: L1State, list: seq<string>, id: string, now: real, late: bool)
    requires c.policy == Lru && Recency(st, list) && Before(st, now)
    requires id in st.entries.vals ==> (late <==> Expired(st.entries.vals[id], c.ttl, now))
    ensures Recency(GetState(c, st, id, now),
                    if id !in list then list else if late then Drop(list, id) else Touch(list, id))
  {
    if id in st.entries.vals {
      if late { RemoveRecency(st, list, id); } else { TouchRecency(st, list, id, GetState(c, st, id, now)); }
    }
  }

  /** Residents carry the creation time they were last put with. */
  ghost predicate KeepsCreated(st: L1State, created: map<string, real>) {
    forall k :: k in st.entries.vals ==> k in created && st.entries.vals[k].createdAt == created[k]
  }

  lemma {:induction false} CreatedKept(c: L1Config, events: seq<Event>)
    ensures KeepsCreated(Run(c, events), Created(events))
  {
    if events != [] {
      var front, last := events[..|events| - 1], events[|events| - 1];
      CreatedKept(c, front);
      if last.op.PutOp? {
        PutSubset(c, Run(c, front), last.op.entry, last.now);
        RunHanded(c, front);
      } else {
        CreatedStep(c, Run(c, front), last, Created(front));
      }
    }
  }

  lemma {:induction false} CreatedStep(c: L1Config, st: L1State, ev: Event, created: map<string, real>)
    requires Ordered(st.entries) && KeepsCreated(st, created) && !ev.op.PutOp?
    ensures KeepsCreated(Step(c, st, ev), created)
  {
  }

  // ----- A step stamps with its own time only -----

  lemma {:induction false} PutStamps(c: L1Config, st: L1State, e: CacheEntry, gen: bool, at: real, now: real)
    requires Ordered(st.entries) && Before(st, now) && e.lastAccessedAt < now
    ensures Ordered(Added(st, e, gen).entries)
    ensures Before(FitSize(c, Added(st, e, gen), at), now)
  {
    PutOrdered(st.entries, e.queryId, e);
    FitSizeSubset(c, Added(st, e, gen), at);
  }

  lemma {:induction false} GetStamps(c: L1Config, st: L1State, id: string, at: real, now: real)
    requires Before(st, now) && at < now
    ensures Before(GetState(c, st, id, at), now)
  {
  }

  lemma {:induction false} EvictStamps(st: L1State, id: string, now: real)
    requires Before(st, now)
    ensures Before(Evict(st, id), now)
  {
  }

  lemma {:induction false} CalmPutStamps(c: L1Config, events: seq<Event>, st: L1State, e: CacheEntry, now: real)
    requires Calm(c, events) && events != [] && events[|events| - 1].op == PutOp(e)
    requires st == Run(c, events[..|events| - 1]) && Before(st, now) && events[|events| - 1].now < now
    ensures Before(PutEntry(c, st, e, events[|events| - 1].now), now)
  {
    CalmPut(c, events, st, e);
    PutStamps(c, st, Stored(c, st, e), Generated(e.queryId), events[|events| - 1].now, now);
  }

  lemma {:induction false} StepStamps(c: L1Config, events: seq<Event>, st: L1State, now: real)
    requires Calm(c, events) && events != [] && st == Run(c, events[..|events| - 1])
    requires Before(st, now) && events[|events| - 1].now < now
    ensures Before(Run(c, events), now)
  {
    var last := events[|events| - 1];
    if last.op.PutOp? { CalmPutStamps(c, events, st, last.op.entry, now); } else { OtherStamps(c, st, last, now); }
  }

  lemma {:induction false} OtherStamps(c: L1Config, st: L1State, ev: Event, now: real)
    requires Ordered(st.entries) && !ev.op.PutOp? && Before(st, now) && ev.now < now
    ensures Before(Step(c, st, ev), now)
  {
    match ev.op
    case GetOp(id) => GetStamps(c, st, id, ev.now, now);
    case DeleteOp(id) => EvictStamps(st, id, now);
    case ClearOp =>
  }

  // ----- Inclusion -----

  /** Whatever the small cache holds, the large one holds too, as the same entry. */
  ghost predicate Included(small: L1State, large: L1State, slack: int) {
    && Ordered(small.entries) && Ordered(large.entries)
    && small.nextQueryId == large.nextQueryId
    && |large.entries.keys| <= |small.entries.keys| + slack
    && (forall k :: k in small.entries.vals ==>
          k in large.entries.vals && large.entries.vals[k] == small.entries.vals[k])
  }

  ghost predicate Stamped(st: L1State) {
    forall k, l :: k in st.entries.vals && l in st.entries.vals && k != l ==> Stamp(st, k) != Stamp(st, l)
  }

  lemma {:induction false} RecencyStamped(st: L1State, list: seq<string>)
    requires Recency(st, list)
    ensures Stamped(st)
  {
    forall k, l | k in st.entries.vals && l in st.entries.vals && k != l ensures Stamp(st, k) != Stamp(st, l) {
      assert k in list && l in list;
      var i :| 0 <= i < |list| && list[i] == k;
      var j :| 0 <= j < |list| && list[j] == l;
      assert i < j ==> Stamp(st, list[i]) < Stamp(st, list[j]);
      assert j < i ==> Stamp(st, list[j]) < Stamp(st, list[i]);
    }
  }

  lemma {:induction false} EvictIncluded(small: L1State, large: L1State, slack: int, id: string)
    requires Included(small, large, slack) && slack >= 0
    ensures Included(Evict(small, id), Evict(large, id), slack)
  {
    RemoveOrdered(small.entries, id);
    RemoveOrdered(large.entries, id);
    KeysFit(small, large);
  }

  lemma {:induction false} KeysFit(small: L1State, large: L1State)
    requires Ordered(small.entries) && Ordered(large.entries)
    requires forall k :: k in small.entries.vals ==> k in large.entries.vals
    ensures |small.entries.keys| <= |large.entries.keys|
    ensures |small.entries.keys| == |large.entries.keys| ==>
              forall k :: k in large.entries.vals ==> k in small.entries.vals
  {
    NoLonger(small.entries.keys, large.entries.keys);
    forall k | |small.entries.keys| == |large.entries.keys| && k in large.entries.vals
      ensures k in small.entries.vals
    {
      if k !in small.entries.vals {
        DropNoDup(large.entries.keys, k);
        DropMembers(large.entries.keys, k);
        NoLonger(small.entries.keys, Drop(large.entries.keys, k));
      }
    }
  }

  lemma {:induction false} VictimStamp(c: L1Config, st: L1State, now: real, k: string)
    requires c.policy == Lru && Ordered(st.entries) && k in st.entries.vals
    ensures st.entries.keys != []
    ensures Stamp(st, SelectVictim(c.policy, st.entries, now).value) <= Stamp(st, k)
  {
    assert k in st.entries.keys;
    VictimIsLeast(c.policy, st.entries, now);
  }

  lemma {:induction false} FitSizeIncluded(c: L1Config, big: L1Config, small: L1State, large: L1State, now: real)
    requires c.policy == Lru && big.policy == Lru && c.maxSize <= big.maxSize
    requires |small.entries.keys| <= c.maxSize + 1 && |large.entries.keys| <= big.maxSize + 1
    requires Included(small, large, big.maxSize - c.maxSize) && Stamped(large)
    ensures Included(FitSize(c, small, now), FitSize(big, large, now), big.maxSize - c.maxSize)
  {
    KeysFit(small, large);
    if |small.entries.keys| > c.maxSize {
      FitSizeOnce(c, small, now);
      var v := SelectVictim(c.policy, small.entries, now).value;
      RemoveOrdered(small.entries, v);
      if |large.entries.keys| > big.maxSize {
        FitSizeOnce(big, large, now);
        var w := SelectVictim(big.policy, large.entries, now).value;
        RemoveOrdered(large.entries, w);
        VictimStamp(big, large, now, v);
        if w in small.entries.vals { VictimStamp(c, small, now, w); }
      }
    }
  }

  lemma {:induction false} AddedIncluded(small: L1State, large: L1State, slack: int, e: CacheEntry, gen: bool)
    requires Included(small, large, slack)
    ensures Included(Added(small, e, gen), Added(large, e, gen), slack)
  {
    PutOrdered(small.entries, e.queryId, e);
    PutOrdered(large.entries, e.queryId, e);
  }

  lemma {:induction false} ExpiredIncluded(c: L1Config, big: L1Config, small: L1State, large: L1State, slack: int,
                                           id: string, now: real)
    requires c.ttl == big.ttl && Included(small, large, slack) && slack >= 0
    requires id in large.entries.vals && Expired(large.entries.vals[id], big.ttl, now)
    ensures Included(GetState(c, small, id, now), GetState(big, large, id, now), slack)
  {
    EvictIncluded(small, large, slack, id);
  }

  lemma {:induction false} GetIncluded(c: L1Config, big: L1Config, small: L1State, large: L1State, slack: int, id: string, now: real)
    requires c.ttl == big.ttl && Included(small, large, slack) && slack >= 0
    ensures Included(GetState(c, small, id, now), GetState(big, large, id, now), slack)
  {
    if id in large.entries.vals && Expired(large.entries.vals[id], big.ttl, now) {
      ExpiredIncluded(c, big, small, large, slack, id, now);
    } else if id in large.entries.vals {
      PutOrdered(large.entries, id, Accessed(large.entries.vals[id], now));
      if id in small.entries.vals { PutOrdered(small.entries, id, Accessed(small.entries.vals[id], now)); }
    }
  }

  /** The two caches differ only in their size limit. */
  predicate Larger(c: L1Config, big: L1Config) {
    c.maxSize <= big.maxSize && big == c.(maxSize := big.maxSize)
  }

  lemma {:induction false} AddedStamped(c: L1Config, st: L1State, list: seq<string>, e: CacheEntry, gen: bool, now: real)
    requires Recency(st, list) && Before(st, now) && e.lastAccessedAt == now
    ensures Stamped(Added(st, e, gen))
  {
    RecencyStamped(st, list);
    var r := Added(st, e, gen);
    forall k, l | k in r.entries.vals && l in r.entries.vals && k != l ensures Stamp(r, k) != Stamp(r, l) {
      assert k != e.queryId ==> Stamp(r, k) == Stamp(st, k);
      assert l != e.queryId ==> Stamp(r, l) == Stamp(st, l);
    }
  }

  lemma {:induction false} RunSize(c: L1Config, events: seq<Event>)
    requires Calm(c, events)
    ensures |Run(c, events).entries.keys| <= c.maxSize
  {
    LruRefinesList(c, events);
    ListShort(c.maxSize, c.ttl, events);
    SameLength(Run(c, events).entries.keys, ListRun(c.maxSize, c.ttl, events));
  }

  lemma {:induction false} PutIncluded(c: L1Config, big: L1Config, events: seq<Event>, e: CacheEntry)
    requires Larger(c, big) && Calm(c, events) && Calm(big, events)
    requires events != [] && events[|events| - 1].op == PutOp(e)
    requires Included(Run(c, events[..|events| - 1]), Run(big, events[..|events| - 1]), big.maxSize - c.maxSize)
    ensures Included(Run(c, events), Run(big, events), big.maxSize - c.maxSize)
  {
    var front, now := events[..|events| - 1], events[|events| - 1].now;
    var small, large := Run(c, front), Run(big, front);
    CalmPrefix(c, events);
    CalmPrefix(big, events);
    RunSize(c, front);
    RunSize(big, front);
    CalmPut(c, events, small, e);
    CalmPut(big, events, large, e);
    var stored := Stored(c, small, e);
    var gen := Generated(e.queryId);
    AddedIncluded(small, large, big.maxSize - c.maxSize, stored, gen);
    LruRefinesList(big, front);
    LastIsLater(big, events, large);
    AddedStamped(big, large, ListRun(big.maxSize, big.ttl, front), stored, gen, now);
    PutOrdered(small.entries, stored.queryId, stored);
    PutOrdered(large.entries, stored.queryId, stored);
    FitSizeIncluded(c, big, Added(small, stored, gen), Added(large, stored, gen), now);
  }

  lemma {:induction false} TotalWithin(small: Store, large: Store)
    requires Ordered(small) && Ordered(large)
    requires forall k :: k in small.vals ==> k in large.vals && large.vals[k] == small.vals[k]
    ensures Total(small) <= Total(large)
    decreases |small.keys|
  {
    if small.keys != [] {
      var k := small.keys[0];
      assert k in small.keys;
      RemoveOrdered(small, k);
      RemoveOrdered(large, k);
      TotalRemove(small, k);
      TotalRemove(large, k);
      TotalWithin(Remove(small, k), Remove(large, k));
    }
  }

  lemma {:induction false} FitsSmaller(c: L1Config, big: L1Config, small: L1State, large: L1State, slack: int, e: CacheEntry)
    requires Larger(c, big) && Included(small, large, slack) && Fits(big, large, e)
    ensures Fits(c, small, e)
  {
    TotalWithin(small.entries, large.entries);
  }

  /** What is calm for the large cache is calm for the small one. */
  lemma {:induction false} CalmSmaller(c: L1Config, big: L1Config, events: seq<Event>)
    requires Larger(c, big) && Calm(big, events) && events != [] && Calm(c, events[..|events| - 1])
    requires Included(Run(c, events[..|events| - 1]), Run(big, events[..|events| - 1]), big.maxSize - c.maxSize)
    ensures Calm(c, events)
  {
    var front := events[..|events| - 1];
    LastRoomySmaller(c, big, events);
    forall i | 0 <= i < |events| ensures Roomy(c, events, i) {
      if i < |front| { assert events[..i] == front[..i] && Roomy(c, front, i); }
    }
  }

  lemma {:induction false} LastRoomySmaller(c: L1Config, big: L1Config, events: seq<Event>)
    requires Larger(c, big) && Calm(big, events) && events != []
    requires Included(Run(c, events[..|events| - 1]), Run(big, events[..|events| - 1]), big.maxSize - c.maxSize)
    ensures Roomy(c, events, |events| - 1)
  {
    var front, last := events[..|events| - 1], events[|events| - 1];
    CalmPrefix(big, events);
    if last.op.PutOp? { FitsSmaller(c, big, Run(c, front), Run(big, front), big.maxSize - c.maxSize, last.op.entry); }
  }

  /** LRU inclusion: on a run that is calm for the larger cache, what the smaller one keeps
      is kept, with the same stamps, by the larger. */
  lemma {:induction false} LruInclusion(c: L1Config, big: L1Config, events: seq<Event>)
    requires Larger(c, big) && Calm(big, events)
    ensures Calm(c, events) && Included(Run(c, events), Run(big, events), big.maxSize - c.maxSize)
  {
    if events != [] {
      var front, last := events[..|events| - 1], events[|events| - 1];
      CalmPrefix(big, events);
      LruInclusion(c, big, front);
      CalmSmaller(c, big, events);
      match last.op {
        case PutOp(e) => PutIncluded(c, big, events, e);
        case GetOp(id) => GetIncluded(c, big, Run(c, front), Run(big, front), big.maxSize - c.maxSize, id, last.now);
        case DeleteOp(id) => EvictIncluded(Run(c, front), Run(big, front), big.maxSize - c.maxSize, id);
        case ClearOp =>
      }
    }
  }

  function Hits(c: L1Config, events: seq<Event>): nat {
    if events == [] then 0
    else
      var front, last := events[..|events| - 1], events[|events| - 1];
      Hits(c, front) + if last.op.GetOp? && GetResult(c, Run(c, front), last.op.id, last.now).Some? then 1 else 0
  }

  /** So hits never drop as the capacity grows. */
  lemma {:induction false} HitsGrow(c: L1Config, big: L1Config, events: seq<Event>)
    requires Larger(c, big) && Calm(big, events)
    ensures Hits(c, events) <= Hits(big, events)
  {
    if events != [] {
      CalmPrefix(big, events);
      HitsGrow(c, big, events[..|events| - 1]);
      LruInclusion(c, big, events[..|events| - 1]);
    }
  }

  // ----- The latest touches -----

  /** When each id was last put, or found by a get. */
  function Touches(c: L1Config, events: seq<Event>): map<string, real> {
    if events == [] then map[]
    else
      var front, last := events[..|events| - 1], events[|events| - 1];
      match last.op
      case PutOp(e) => Touches(c, front)[PutId(front, e) := last.now]
      case GetOp(id) =>
        if GetResult(c, Run(c, front), id, last.now).Some? then Touches(c, front)[id := last.now]
        else Touches(c, front)
      case _ => Touches(c, front)
  }

  /** Residents carry the time of their latest touch, all others were touched earlier. */
  ghost predicate Outranked(st: L1State, touches: map<string, real>) {
    && (forall k :: k in st.entries.vals ==> k in touches && touches[k] == Stamp(st, k))
    && (forall k, l :: k in st.entries.vals && l in touches && l !in st.entries.vals ==> touches[l] < Stamp(st, k))
  }

  /** The residents are the cap ids with the latest touches. */
  ghost predicate LatestTouched(st: L1State, touches: map<string, real>, cap: nat) {
    |st.entries.keys| == (if |touches| < cap then |touches| else cap) && Outranked(st, touches)
  }

  ghost predicate TouchedBefore(touches: map<string, real>, now: real) {
    forall k :: k in touches ==> touches[k] < now
  }

  lemma {:induction false} DistinctCount(keys: seq<string>, ids: set<string>)
    requires NoDup(keys) && forall k :: k in keys <==> k in ids
    ensures |keys| == |ids|
  {
    if keys == [] {
      assert ids == {};
    } else {
      assert keys[0] in keys;
      forall k ensures k in keys[1..] <==> k in ids - {keys[0]} {
        assert k in keys <==> k == keys[0] || k in keys[1..];
      }
      DistinctCount(keys[1..], ids - {keys[0]});
    }
  }

  lemma {:induction false} SomeoneMissing(st: L1State, touches: map<string, real>, id: string)
    requires Ordered(st.entries) && id in touches && id !in st.entries.vals
    requires forall k :: k in st.entries.vals ==> k in touches
    ensures |st.entries.keys| < |touches|
  {
    DistinctCount(st.entries.keys, st.entries.vals.Keys);
    assert st.entries.vals.Keys <= touches.Keys - {id};
    SubsetSize(st.entries.vals.Keys, touches.Keys - {id});
    assert |touches| == |touches.Keys|;
  }

  lemma {:induction false} TouchCount(touches: map<string, real>, id: string, now: real)
    ensures |touches[id := now]| == if id in touches then |touches| else |touches| + 1
  {
    assert touches[id := now].Keys == touches.Keys + {id};
    assert |touches[id := now]| == |touches[id := now].Keys| && |touches| == |touches.Keys|;
  }

  lemma {:induction false} AddedOutranked(st: L1State, touches: map<string, real>, e: CacheEntry, gen: bool, now: real)
    requires Outranked(st, touches) && TouchedBefore(touches, now) && e.lastAccessedAt == now
    ensures Outranked(Added(st, e, gen), touches[e.queryId := now])
  {
    var added, later := Added(st, e, gen), touches[e.queryId := now];
    forall k | k in added.entries.vals ensures k in later && later[k] == Stamp(added, k) {
      assert k != e.queryId ==> Stamp(added, k) == Stamp(st, k);
    }
    forall k, l | k in added.entries.vals && l in later && l !in added.entries.vals ensures later[l] < Stamp(added, k) {
      assert k != e.queryId ==> Stamp(added, k) == Stamp(st, k);
    }
  }

  lemma {:induction false} VictimOutranked(c: L1Config, st: L1State, touches: map<string, real>, v: string, now: real)
    requires c.policy == Lru && Ordered(st.entries) && st.entries.keys != []
    requires Stamped(st) && v == SelectVictim(c.policy, st.entries, now).value && Outranked(st, touches)
    ensures Outranked(Evict(st, v), touches)
  {
    var r := Evict(st, v);
    forall k, l | k in r.entries.vals && l in touches && l !in r.entries.vals ensures touches[l] < Stamp(r, k) {
      assert Stamp(r, k) == Stamp(st, k);
      VictimStamp(c, st, now, k);
    }
    forall k | k in r.entries.vals ensures k in touches && touches[k] == Stamp(r, k) {
      assert Stamp(r, k) == Stamp(st, k);
    }
  }

  /** Adding an entry stamped later than all touches. */
  lemma {:induction false} AddedTouched(c: L1Config, st: L1State, touches: map<string, real>, e: CacheEntry, gen: bool, now: real)
    requires c.policy == Lru && c.maxSize > 0 && Ordered(st.entries) && LatestTouched(st, touches, c.maxSize)
    requires e.lastAccessedAt == now && TouchedBefore(touches, now)
    requires Stamped(Added(st, e, gen))
    ensures LatestTouched(FitSize(c, Added(st, e, gen), now), touches[e.queryId := now], c.maxSize)
  {
    var added := Added(st, e, gen);
    PutOrdered(st.entries, e.queryId, e);
    TouchCount(touches, e.queryId, now);
    AddedOutranked(st, touches, e, gen, now);
    if e.queryId in touches && e.queryId !in st.entries.vals { SomeoneMissing(st, touches, e.queryId); }
    if |added.entries.keys| > c.maxSize {
      FitSizeOnce(c, added, now);
      var v := SelectVictim(c.policy, added.entries, now).value;
      RemoveOrdered(added.entries, v);
      VictimOutranked(c, added, touches[e.queryId := now], v, now);
    }
  }

  lemma {:induction false} TouchesEarlier(c: L1Config, events: seq<Event>, now: real)
    requires Earlier(events, now)
    ensures TouchedBefore(Touches(c, events), now)
  {
    if events != [] {
      TouchesEarlier(c, events[..|events| - 1], now);
      assert events[|events| - 1].now < now;
    }
  }

  ghost predicate OnlyPutsAndGets(events: seq<Event>) {
    forall i :: 0 <= i < |events| ==> events[i].op.PutOp? || events[i].op.GetOp?
  }

  /** No get of the run finds its id resident but expired. */
  ghost predicate NoneLapses(c: L1Config, events: seq<Event>) {
    forall i :: 0 <= i < |events| ==> !Lapses(c, events, i)
  }

  ghost predicate Lapses(c: L1Config, events: seq<Event>, i: int)
    requires 0 <= i < |events|
  {
    events[i].op.GetOp? &&
    var st, id := Run(c, events[..i]), events[i].op.id;
    id in st.entries.vals && Expired(st.entries.vals[id], c.ttl, events[i].now)
  }

  lemma {:induction false} NoneLapsesPrefix(c: L1Config, events: seq<Event>)
    requires NoneLapses(c, events) && events != []
    ensures NoneLapses(c, events[..|events| - 1]) && !Lapses(c, events, |events| - 1)
  {
    var front := events[..|events| - 1];
    forall i | 0 <= i < |front| ensures !Lapses(c, front, i) {
      assert front[i] == events[i] && front[..i] == events[..i] && !Lapses(c, events, i);
    }
  }

  /** LRU characterised: over every calm run of puts and gets that finds nothing expired, the
      resident set is exactly the max_size ids with the latest touches. */
  lemma {:induction false} LruKeepsLatest(c: L1Config, events: seq<Event>)
    requires Calm(c, events) && OnlyPutsAndGets(events) && NoneLapses(c, events) && c.maxSize > 0
    ensures LatestTouched(Run(c, events), Touches(c, events), c.maxSize)
  {
    if events != [] {
      var front, last := events[..|events| - 1], events[|events| - 1];
      CalmPrefix(c, events);
      NoneLapsesPrefix(c, events);
      LruKeepsLatest(c, front);
      TouchesEarlier(c, front, last.now);
      assert last.op.PutOp? || last.op.GetOp?;
      match last.op {
        case PutOp(e) => PutTouched(c, events, e);
        case GetOp(id) => GetTouched(c, Run(c, front), Touches(c, front), id, last.now);
      }
    }
  }

  lemma {:induction false} PutTouched(c: L1Config, events: seq<Event>, e: CacheEntry)
    requires Calm(c, events) && c.maxSize > 0 && events != [] && events[|events| - 1].op == PutOp(e)
    requires LatestTouched(Run(c, events[..|events| - 1]), Touches(c, events[..|events| - 1]), c.maxSize)
    requires TouchedBefore(Touches(c, events[..|events| - 1]), events[|events| - 1].now)
    ensures LatestTouched(Run(c, events), Touches(c, events), c.maxSize)
  {
    var front, now := events[..|events| - 1], events[|events| - 1].now;
    var st := Run(c, front);
    CalmPrefix(c, events);
    CalmPut(c, events, st, e);
    LruRefinesList(c, front);
    LastIsLater(c, events, st);
    AddedStamped(c, st, ListRun(c.maxSize, c.ttl, front), Stored(c, st, e), Generated(e.queryId), now);
    AddedTouched(c, st, Touches(c, front), Stored(c, st, e), Generated(e.queryId), now);
  }

  lemma {:induction false} GetTouched(c: L1Config, st: L1State, touches: map<string, real>, id: string, now: real)
    requires Ordered(st.entries) && LatestTouched(st, touches, c.maxSize)
    requires id in st.entries.vals ==> !Expired(st.entries.vals[id], c.ttl, now)
    requires TouchedBefore(touches, now)
    ensures LatestTouched(GetState(c, st, id, now),
                          if GetResult(c, st, id, now).Some? then touches[id := now] else touches, c.maxSize)
  {
    TouchCount(touches, id, now);
  }
}
