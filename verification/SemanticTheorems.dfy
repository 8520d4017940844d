/** Semantic read-your-write, and exactly when it fails. */
module SemanticTheorems {
  import opened Options
  import opened Dicts
  import opened Policies
  import opened L1Spec
  import opened L1Theorems
  import opened LayerSearch
  import opened HnswSpec
  import HnswTheorems
  import opened StableSort
  import opened IndexSpec
  import opened TierSpec
  import opened TierTheorems
  import opened SemanticSpec
  import Similarity

  // ----- Similarities -----

  /** No two vectors of the right dimension are more similar than 1. */
  ghost predicate AtMostOneSimilar(p: Params) {
    forall x: Vec, y: Vec :: |x| == p.dim && |y| == p.dim ==> p.sim(x, y) <= 1.0
  }

  /** The default metric of the index is of this kind. */
  lemma {:induction false} CosineAtMostOne(p: Params, root: real -> real)
    requires Similarity.IsRoot(root)
    requires forall x: Vec, y: Vec :: |x| == p.dim && |y| == p.dim ==>
               p.sim(x, y) == Similarity.CosineOrZero(root, x, y)
    ensures AtMostOneSimilar(p)
  {
    forall x: Vec, y: Vec | |x| == p.dim && |y| == p.dim ensures p.sim(x, y) <= 1.0 {
      Similarity.CosineInRange(root, x, y);
    }
  }

  lemma {:induction false} KeptAtMostOne(hits: seq<HnswSpec.Hit>, entries: Entries, threshold: real,
                                         tenant: Option<string>, m: Match)
    requires m in Keep(hits, entries, threshold, tenant)
    requires forall h :: h in hits ==> h.similarity <= 1.0
    ensures m.similarity <= 1.0
  {
    KeepSound(hits, entries, threshold, tenant, m);
  }

  lemma {:induction false} SearchAtMostOne(p: Params, a: Index, target: Vec, k: int, raw: seq<HnswSpec.Hit>)
    requires WellFormed(p, a) && AtMostOneSimilar(p) && |target| == p.dim && Searched(p, a, target, k, None, raw)
    ensures forall h :: h in raw ==> h.similarity <= 1.0
  {
    HnswTheorems.SearchSound(p, a, target, k, None, raw);
    forall i | 0 <= i < |raw| ensures raw[i].similarity <= 1.0 {
      assert HnswTheorems.Stored(p, a, target, raw[i]);
    }
  }

  lemma {:induction false} KeptSimilar(raw: seq<HnswSpec.Hit>, entries: Entries, threshold: real,
                                       tenant: Option<string>, semantic: seq<Match>)
    requires forall h :: h in raw ==> h.similarity <= 1.0
    requires semantic == Take(Keep(raw, entries, threshold, tenant), 1)
    ensures forall i :: 0 <= i < |semantic| ==> semantic[i].similarity <= 1.0
  {
    if semantic != [] { KeptAtMostOne(raw, entries, threshold, tenant, semantic[0]); }
  }

  lemma {:induction false} FoundAtMostOne(p: Params, a: Index, entries: Entries, embedding: Vec, threshold: real,
                                          tenant: Option<string>, semantic: seq<Match>)
    requires WellFormed(p, a) && AtMostOneSimilar(p)
    requires FoundBySearch(p, a, entries, embedding, threshold, tenant, semantic)
    ensures forall i :: 0 <= i < |semantic| ==> semantic[i].similarity <= 1.0
  {
    if |embedding| == p.dim {
      var raw: seq<HnswSpec.Hit> :| Searched(p, a, embedding, 2, None, raw)
                                    && semantic == Take(Keep(raw, entries, threshold, tenant), 1);
      SearchAtMostOne(p, a, embedding, 2, raw);
      KeptSimilar(raw, entries, threshold, tenant, semantic);
    }
  }

  // ----- Which key is looked up -----

  /** The entry of the text is live, and no entry stored before it has the same text. */
  ghost predicate FirstWith(entries: Entries, norm: string -> string, text: string, tenant: Option<string>, key: string) {
    && key in entries.vals
    && exists at :: FirstAt(entries, norm, text, tenant, key, at)
  }

  ghost predicate FirstAt(entries: Entries, norm: string -> string, text: string, tenant: Option<string>,
                          key: string, at: int)
  {
    && 0 <= at < |entries.keys| && entries.keys[at] == key
    && (forall i :: 0 <= i < at ==> !MatchesAt(entries, norm, text, tenant, i))
  }

  ghost predicate MatchesAt(entries: Entries, norm: string -> string, text: string, tenant: Option<string>, i: int) {
    0 <= i < |entries.keys| && entries.keys[i] in entries.vals
    && TextMatch(norm, entries.vals[entries.keys[i]], text, tenant)
  }

  lemma {:induction false} FirstTextAt(entries: Entries, norm: string -> string, text: string,
                                       tenant: Option<string>, key: string, at: int, from: nat)
    requires FirstAt(entries, norm, text, tenant, key, at) && key in entries.vals && from <= at
    requires TextMatch(norm, entries.vals[key], text, tenant)
    ensures FirstText(entries.keys[from..], entries.vals, norm, text, tenant) == Some(key)
    decreases at - from
  {
    if from < at {
      assert !MatchesAt(entries, norm, text, tenant, from);
      assert entries.keys[from..][1..] == entries.keys[from + 1..];
      FirstTextAt(entries, norm, text, tenant, key, at, from + 1);
    }
  }

  lemma {:induction false} FirstTextIsFirst(entries: Entries, norm: string -> string, text: string,
                                            tenant: Option<string>, from: nat) returns (at: int)
    requires from <= |entries.keys|
    requires FirstText(entries.keys[from..], entries.vals, norm, text, tenant).Some?
    ensures from <= at < |entries.keys|
    ensures FirstText(entries.keys[from..], entries.vals, norm, text, tenant) == Some(entries.keys[at])
    ensures forall i :: from <= i < at ==> !MatchesAt(entries, norm, text, tenant, i)
    decreases |entries.keys| - from
  {
    if MatchesAt(entries, norm, text, tenant, from) {
      at := from;
    } else {
      assert entries.keys[from..][1..] == entries.keys[from + 1..];
      at := FirstTextIsFirst(entries, norm, text, tenant, from + 1);
    }
  }

  /** The key that get_semantic looks up in the tiers. */
  function LookedUp(entries: Entries, semantic: seq<Match>, norm: string -> string, text: string,
                    tenant: Option<string>): Option<string>
  {
    var best := Best(entries, semantic, norm, text, tenant);
    if best == [] then None else Some(FullId(best[0].itemId, tenant))
  }

  /** The first live entry with the text is reported as an exact match. */
  predicate Reported(entries: Entries, e: IndexEntry, tenant: Option<string>) {
    e.itemId != "" && (OwnId(e, tenant) || e.itemId in entries.vals)
  }

  lemma {:induction false} SortOne(x: Ranked)
    ensures SortBy([x], DESCENDING) == [x]
  {
    SortByCorrect([x], DESCENDING);
    SortByMembers([x], DESCENDING);
    var t := SortBy([x], DESCENDING);
    assert |t| == 1 && t[0] in t;
  }

  lemma {:induction false} OneCandidate(entries: Entries, m: Match, norm: string -> string, text: string,
                                        tenant: Option<string>)
    requires ExactHead(entries, norm, text, tenant) == []
    ensures Candidates(entries, [m], norm, text, tenant, BOOST) == [Rank(m, norm, text, BOOST)]
  {
    assert [m][1..] == [];
    assert SeenIds([]) == {} && Merge([m], {}, norm, text, BOOST) == [Rank(m, norm, text, BOOST)];
  }

  lemma {:induction false} RestIsSemantic(entries: Entries, m: Match, norm: string -> string, text: string,
                                          tenant: Option<string>)
    requires ExactHead(entries, norm, text, tenant) == []
    ensures Best(entries, [m], norm, text, tenant) == [Rank(m, norm, text, BOOST)]
  {
    OneCandidate(entries, m, norm, text, tenant);
    SortOne(Rank(m, norm, text, BOOST));
  }

  lemma {:induction false} NothingIsBest(entries: Entries, norm: string -> string, text: string, tenant: Option<string>)
    requires ExactHead(entries, norm, text, tenant) == []
    ensures Best(entries, [], norm, text, tenant) == []
  {
    SortByCorrect(Candidates(entries, [], norm, text, tenant, BOOST), DESCENDING);
  }

  lemma {:induction false} HeadIsBest(entries: Entries, semantic: seq<Match>, norm: string -> string, text: string,
                                      tenant: Option<string>)
    requires ExactHead(entries, norm, text, tenant) != []
    requires forall i :: 0 <= i < |semantic| ==> semantic[i].similarity <= 1.0
    ensures Best(entries, semantic, norm, text, tenant) == ExactHead(entries, norm, text, tenant)
  {
    ExactComesFirst(entries, semantic, norm, text, tenant, BOOST, 1);
    ByTextSound(entries, semantic, norm, text, tenant, BOOST, 1);
  }

  lemma {:induction false} FirstIsBest(entries: Entries, semantic: seq<Match>, norm: string -> string, text: string,
                                       tenant: Option<string>, key: string)
    requires key in entries.vals && FirstText(entries.keys, entries.vals, norm, text, tenant) == Some(key)
    requires key == FullId(entries.vals[key].itemId, tenant) && entries.vals[key].itemId != ""
    requires forall i :: 0 <= i < |semantic| ==> semantic[i].similarity <= 1.0
    ensures Best(entries, semantic, norm, text, tenant) == [Ranked(entries.vals[key].itemId, 1.0, entries.vals[key], true)]
  {
    HeadIsBest(entries, semantic, norm, text, tenant);
  }

  /** The text is looked up under the item id of the first live entry with that text, or,
      where that entry is not reported, of the semantic result. */
  lemma {:induction false} LookedUpIs(a: Index, entries: Entries, semantic: seq<Match>, norm: string -> string,
                                      text: string, tenant: Option<string>)
    requires LiveOk(a, entries) && |semantic| <= 1
    requires forall i :: 0 <= i < |semantic| ==> semantic[i].similarity <= 1.0
    ensures var first := FirstEntry(entries, norm, text, tenant);
            LookedUp(entries, semantic, norm, text, tenant)
            == if first.Some? && Reported(entries, first.value, tenant) then Some(FullId(first.value.itemId, tenant))
               else if semantic == [] then None
               else Some(FullId(semantic[0].itemId, tenant))
  {
    ExactFound(a, entries, norm, text, tenant);
    if ExactHead(entries, norm, text, tenant) != [] {
      ReportedIsMatched(a, entries, norm, text, tenant);
      HeadIsBest(entries, semantic, norm, text, tenant);
    } else if semantic == [] {
      NothingIsBest(entries, norm, text, tenant);
    } else {
      assert semantic == [semantic[0]];
      RestIsSemantic(entries, semantic[0], norm, text, tenant);
    }
  }

  lemma {:induction false} SameFullId(i1: string, i2: string, tenant: Option<string>)
    ensures FullId(i1, tenant) == FullId(i2, tenant) <==> i1 == i2
  {
    if Given(tenant) && FullId(i1, tenant) == FullId(i2, tenant) { EvenSplit(i1, tenant.value, i2, tenant.value); }
  }

  /** With a tenant or without: the text of a live key is looked up under that key exactly
      when the first live entry with the text has its item id, or, where that entry is not
      reported, the semantic result has it. */
  lemma {:induction false} OwnKeyIff(a: Index, entries: Entries, semantic: seq<Match>, norm: string -> string,
                                     text: string, tenant: Option<string>, key: string)
    requires LiveOk(a, entries) && |semantic| <= 1 && key in entries.vals
    requires entries.vals[key].tenant == tenant && norm(entries.vals[key].queryText) == norm(text)
    requires forall i :: 0 <= i < |semantic| ==> semantic[i].similarity <= 1.0
    ensures FirstEntry(entries, norm, text, tenant).Some?
    ensures var first, itemId := FirstEntry(entries, norm, text, tenant).value, entries.vals[key].itemId;
            LookedUp(entries, semantic, norm, text, tenant) == Some(key)
            <==> if Reported(entries, first, tenant) then first.itemId == itemId
                 else semantic != [] && semantic[0].itemId == itemId
  {
    LookedUpIs(a, entries, semantic, norm, text, tenant);
    var first, itemId := FirstEntry(entries, norm, text, tenant).value, entries.vals[key].itemId;
    SameFullId(first.itemId, itemId, tenant);
    if semantic != [] { SameFullId(semantic[0].itemId, itemId, tenant); }
  }

  /** With a tenant that means: exactly when no entry that was stored before it has the same
      text up to case and surrounding space. */
  lemma {:induction false} TenantKeyIff(a: Index, entries: Entries, semantic: seq<Match>, norm: string -> string,
                                        text: string, tenant: Option<string>, key: string)
    requires LiveOk(a, entries) && |semantic| <= 1 && key in entries.vals && tenant.Some?
    requires entries.vals[key].tenant == tenant && norm(entries.vals[key].queryText) == norm(text)
    requires FirstEntry(entries, norm, text, tenant).value.itemId != ""
    requires forall i :: 0 <= i < |semantic| ==> semantic[i].similarity <= 1.0
    ensures LookedUp(entries, semantic, norm, text, tenant) == Some(key)
            <==> FirstWith(entries, norm, text, tenant, key)
  {
    OwnKeyIff(a, entries, semantic, norm, text, tenant, key);
    assert entries.keys[0..] == entries.keys;
    var at := FirstTextIsFirst(entries, norm, text, tenant, 0);
    var first := entries.keys[at];
    assert first in entries.vals && key in entries.keys;
    SameFullId(entries.vals[first].itemId, entries.vals[key].itemId, tenant);
    if first == key {
      assert FirstAt(entries, norm, text, tenant, key, at);
    } else if FirstWith(entries, norm, text, tenant, key) {
      var other :| FirstAt(entries, norm, text, tenant, key, other);
      FirstTextAt(entries, norm, text, tenant, key, other, 0);
    }
  }

  /** Every live entry was indexed by put_semantic. */
  ghost predicate Hashed(entries: Entries, hash: string -> string) {
    forall k :: k in entries.vals ==> entries.vals[k].itemId == hash(entries.vals[k].queryText)
  }

  /** While hashes contain no colon and those of live texts do not collide, what is reported
      as exact carries the text, with a tenant or without. */
  lemma {:induction false} SemanticReportsTheText(a: Index, entries: Entries, norm: string -> string,
                                                  hash: string -> string, text: string, tenant: Option<string>)
    requires LiveOk(a, entries) && Hashed(entries, hash)
    requires forall x: string :: ':' !in hash(x)
    requires forall j, k :: j in entries.vals && k in entries.vals && entries.vals[j].itemId == entries.vals[k].itemId
               ==> norm(entries.vals[j].queryText) == norm(entries.vals[k].queryText)
    requires ExactHead(entries, norm, text, tenant) != []
    ensures norm(ExactHead(entries, norm, text, tenant)[0].entry.queryText) == norm(text)
  {
    ReportedIsMatched(a, entries, norm, text, tenant);
    var first := FirstEntry(entries, norm, text, tenant).value;
    if !OwnId(first, tenant) {
      var key := FirstText(entries.keys, entries.vals, norm, text, tenant).value;
      var e := entries.vals[first.itemId];
      assert first.itemId == hash(first.queryText) && first.itemId == FullId(e.itemId, e.tenant);
      assert entries.vals[key].itemId == entries.vals[first.itemId].itemId;
    }
  }

  // ----- What the tiers hold -----

  /** No put of the key. */
  predicate LeavesAlone(op: TierOp, key: string) { op.TPut? ==> op.entry.queryId != key }

  /** Whatever may still be held under the key is this response. */
  predicate Only(spec: Responses, key: string, response: string) { key in spec ==> spec[key] == response }

  lemma {:induction false} SpecStepStays(t: Tiers, spec: Responses, op: TierOp, key: string, response: string)
    requires LeavesAlone(op, key) && Only(spec, key, response)
    ensures Only(SpecStep(t, spec, op), key, response)
  {
  }

  /** What may be held after n steps is all that may be held at the end. */
  lemma {:induction false} SpecStays(c: TierConfig, start: Tiers, events: seq<TierEvent>, n: nat, key: string,
                                     response: string)
    requires Ordered(start.l1.entries) && n <= |events| && Only(SpecRun(c, start, events[..n]), key, response)
    requires forall i :: n <= i < |events| ==> LeavesAlone(events[i].op, key)
    ensures Only(SpecRun(c, start, events), key, response)
    decreases |events|
  {
    if n == |events| {
      assert events[..n] == events;
    } else {
      var front, last := events[..|events| - 1], events[|events| - 1];
      assert front[..n] == events[..n];
      SpecStays(c, start, front, n, key, response);
      SpecStepStays(TierRun(c, start, front), SpecRun(c, start, front), last.op, key, response);
    }
  }

  lemma {:induction false} PutStays(c: TierConfig, start: Tiers, before: seq<TierEvent>, put: TierEvent,
                                    after: seq<TierEvent>, entry: CacheEntry, key: string)
    requires Ordered(start.l1.entries) && put.op == TPut(entry, "default") && entry.queryId == key
    requires forall i :: 0 <= i < |after| ==> LeavesAlone(after[i].op, key)
    ensures Only(SpecRun(c, start, before + [put] + after), key, entry.response)
  {
    var events, n := before + [put] + after, |before| + 1;
    assert events[..n] == before + [put];
    RunOneMore(c, start, before, put);
    SpecStays(c, start, events, n, key, entry.response);
  }

  lemma {:induction false} HeldAnswer(c: TierConfig, withL2: bool, withL3: bool, events: seq<TierEvent>, key: string,
                                      response: string, now: real)
    requires !StalePossible(c, withL2) && Plain(key)
    requires Only(SpecRun(c, StartTiers(withL2, withL3), events), key, response)
    ensures var t := TierRun(c, StartTiers(withL2, withL3), events);
            var hit := Answer(c, t, key, None, now);
            (hit.Some? <==> Lookup(c, t, key, None, now).Some?) && (hit.Some? ==> hit.value.entry.response == response)
  {
    var start := StartTiers(withL2, withL3);
    TierRunAgrees(c, withL2, withL3, events);
    HitAgrees(c, TierRun(c, start, events), SpecRun(c, start, events), key, None, now);
  }

  // ----- Read your write -----

  /** After any history, a put_semantic of a text, and any later steps, deletes and clears
      among them, that do not put its key again: get_semantic of that text answers exactly when some tier still holds the key,
      and then with that response, as an exact match of similarity 1.  Neither the shape of
      the index nor the embedding and threshold of the read play a part. */
  lemma {:induction false} ReadYourWrite(c: TierConfig, withL2: bool, withL3: bool, before: seq<TierEvent>,
                                         put: TierEvent, after: seq<TierEvent>, entry: CacheEntry,
                                         entries: Entries, semantic: seq<Match>, norm: string -> string,
                                         hash: string -> string, text: string, tenant: Option<string>, now: real)
    requires !StalePossible(c, withL2)
    requires var key := CacheKey(hash, text, tenant);
             && Plain(key) && put.op == TPut(entry, "default") && entry.queryId == key
             && (forall i :: 0 <= i < |after| ==> LeavesAlone(after[i].op, key))
             && FirstWith(entries, norm, text, tenant, key) && Indexes(hash, text, tenant, entries.vals[key])
    requires hash(text) != "" && forall i :: 0 <= i < |semantic| ==> semantic[i].similarity <= 1.0
    ensures var t := TierRun(c, StartTiers(withL2, withL3), before + [put] + after);
            var r := SemanticAnswer(c, t, entries, semantic, norm, text, tenant, now);
            && (r.Some? <==> Lookup(c, t, CacheKey(hash, text, tenant), None, now).Some?)
            && (r.Some? ==> r.value.entry.response == entry.response && r.value.similarity == 1.0 && r.value.isExact)
  {
    var start, key := StartTiers(withL2, withL3), CacheKey(hash, text, tenant);
    var at :| FirstAt(entries, norm, text, tenant, key, at);
    FirstTextAt(entries, norm, text, tenant, key, at, 0);
    assert entries.keys[0..] == entries.keys;
    FirstIsBest(entries, semantic, norm, text, tenant, key);
    PutStays(c, start, before, put, after, entry, key);
    HeldAnswer(c, withL2, withL3, before + [put] + after, key, entry.response, now);
  }

  /** Indexing the text makes its entry the first with that text, unless an older one has it. */
  lemma {:induction false} IndexedIsFirst(entries: Entries, norm: string -> string, hash: string -> string, text: string,
                                          tenant: Option<string>, e: IndexEntry)
    requires Ordered(entries) && Indexes(hash, text, tenant, e)
    requires forall k :: k in entries.vals && k != CacheKey(hash, text, tenant) ==>
               !TextMatch(norm, entries.vals[k], text, tenant)
    ensures FirstWith(Put(entries, CacheKey(hash, text, tenant), e), norm, text, tenant, CacheKey(hash, text, tenant))
  {
    var key := CacheKey(hash, text, tenant);
    var r := Put(entries, key, e);
    PutOrdered(entries, key, e);
    assert key in r.keys;
    var at :| 0 <= at < |r.keys| && r.keys[at] == key;
    assert FirstAt(r, norm, text, tenant, key, at);
  }

  // ----- Where it fails -----

  /** delete_semantic of a live text leaves its entry live in the index exactly when a tenant
      is given; the tiers lose the key in any case. */
  lemma {:induction false} DeletedStaysIndexed(t: Tiers, entries: Entries, hash: string -> string, text: string,
                                               tenant: Option<string>)
    requires Ordered(t.l1.entries) && CacheKey(hash, text, tenant) in entries.vals
    ensures var key, after := CacheKey(hash, text, tenant), IndexAfterDelete(entries, hash, text, tenant);
            && (key in after.vals <==> Given(tenant))
            && (Given(tenant) ==> after.vals[key] == entries.vals[key])
            && Absent(Delete3(t, key, None), key)
  {
    var key := CacheKey(hash, text, tenant);
    if Given(tenant) { assert |FullId(key, tenant)| > |key|; }
  }

  lemma {:induction false} DropKeepsFirst(keys: seq<string>, vals: map<string, IndexEntry>, norm: string -> string,
                                          text: string, tenant: Option<string>, gone: string, key: string)
    requires FirstText(keys, vals, norm, text, tenant) == Some(key) && gone != key
    ensures FirstText(Drop(keys, gone), vals - {gone}, norm, text, tenant) == Some(key)
  {
    var k, rest, d := keys[0], keys[1..], Drop(keys, gone);
    var hit := k in vals && TextMatch(norm, vals[k], text, tenant);
    if !hit || k == gone { DropKeepsFirst(rest, vals, norm, text, tenant, gone, key); }
    if k == gone {
      assert d == Drop(rest, gone);
    } else {
      assert d == [k] + Drop(rest, gone);
      assert d[0] == k && d[1..] == Drop(rest, gone);
      assert k in vals - {gone} <==> k in vals;
    }
  }

  /** So a tenant's deleted text, if its entry came first, is answered with nothing even when
      other entries are similar. */
  lemma {:induction false} DeletedHidesOthers(c: TierConfig, t: Tiers, entries: Entries, semantic: seq<Match>,
                                              norm: string -> string, hash: string -> string, text: string,
                                              tenant: Option<string>, now: real)
    requires Given(tenant) && hash(text) != "" && Ordered(t.l1.entries)
    requires var key := CacheKey(hash, text, tenant);
             FirstText(entries.keys, entries.vals, norm, text, tenant) == Some(key)
             && Indexes(hash, text, tenant, entries.vals[key])
    requires forall i :: 0 <= i < |semantic| ==> semantic[i].similarity <= 1.0
    ensures var key, after := CacheKey(hash, text, tenant), IndexAfterDelete(entries, hash, text, tenant);
            SemanticAnswer(c, Delete3(t, key, None), after, semantic, norm, text, tenant, now) == None
  {
    var key, after := CacheKey(hash, text, tenant), IndexAfterDelete(entries, hash, text, tenant);
    DeletedStaysIndexed(t, entries, hash, text, tenant);
    var id := FullId(key, tenant);
    assert |id| > |key|;
    if id in entries.vals { DropKeepsFirst(entries.keys, entries.vals, norm, text, tenant, id, key); }
    FirstIsBest(after, semantic, norm, text, tenant, key);
  }

  // ----- Keys the cache renames -----

  /** No tier holds the key. */
  ghost predicate Absent(t: Tiers, key: string) {
    && key !in t.l1.entries.vals
    && (t.l2.Some? ==> key !in t.l2.value)
    && (t.l3.Some? ==> key !in t.l3.value)
  }

  /** Looks generated, but is no id that the cache ever generates. */
  ghost predicate Renamed(key: string) {
    Generated(key) && forall n: nat :: key != QueryId(n)
  }

  lemma {:induction false} PutNeverHolds(c: L1Config, st: L1State, e: CacheEntry, now: real, key: string)
    requires Ordered(st.entries) && Renamed(key) && key !in st.entries.vals
    ensures key !in PutEntry(c, st, e, now).entries.vals && Stored(c, st, e).queryId != key
  {
    PutSubset(c, st, e, now);
  }

  lemma {:induction false} PutAbsent(c: TierConfig, t: Tiers, e: CacheEntry, owner: string, now: real, key: string)
    requires Ordered(t.l1.entries) && !c.strategy.L2Only? && Renamed(key) && Absent(t, key)
    ensures Absent(Put3(c, t, e, owner, now), key)
  {
    PutNeverHolds(c.l1, t.l1, e, now, key);
  }

  lemma {:induction false} HitAbsent(c: TierConfig, t: Tiers, hit: TierSpec.Hit, id: string, now: real, key: string)
    requires Ordered(t.l1.entries) && Renamed(key) && Absent(t, key)
    ensures Absent(AfterHit(c, t, hit, id, now), key)
  {
    PutNeverHolds(c.l1, t.l1, hit.entry, now, key);
  }

  lemma {:induction false} GetAbsent(c: TierConfig, t: Tiers, id: string, tenant: Option<string>, now: real, key: string)
    requires Ordered(t.l1.entries) && Renamed(key) && Absent(t, key)
    ensures Absent(Get3(c, t, id, tenant, now), key)
  {
    var hit := Lookup(c, t, id, tenant, now);
    var accessed := t.(l1 := GetState(c.l1, t.l1, id, now));
    StepOrdered(c.l1, t.l1, Event(GetOp(id), now));
    assert Absent(accessed, key);
    if hit.Some? { HitAbsent(c, accessed, hit.value, id, now, key); }
  }

  lemma {:induction false} TierStepAbsent(c: TierConfig, t: Tiers, op: TierOp, now: real, key: string)
    requires Ordered(t.l1.entries) && !c.strategy.L2Only? && Renamed(key) && Absent(t, key)
    ensures Absent(TierStep(c, t, op, now), key)
  {
    match op
    case TPut(e, owner) => PutAbsent(c, t, e, owner, now, key);
    case TGet(id, tenant) => GetAbsent(c, t, id, tenant, now, key);
    case _ =>
  }

  /** Outside L2_ONLY, an entry whose key looks generated is renamed when it is stored: over
      every run no tier ever holds that key. */
  lemma {:induction false} RenamedNeverHeld(c: TierConfig, withL2: bool, withL3: bool, events: seq<TierEvent>, key: string)
    requires !c.strategy.L2Only? && Renamed(key)
    ensures Absent(TierRun(c, StartTiers(withL2, withL3), events), key)
  {
    if events != [] {
      var front, last := events[..|events| - 1], events[|events| - 1];
      RenamedNeverHeld(c, withL2, withL3, front, key);
      TierStepAbsent(c, TierRun(c, StartTiers(withL2, withL3), front), last.op, last.now, key);
    }
  }

  lemma {:induction false} DecimalDigits(n: nat, ch: char)
    requires ch in Decimal(n)
    ensures ch in "0123456789"
  {
    if n >= 10 && ch in Decimal(n / 10) { DecimalDigits(n / 10, ch); }
  }

  /** No run of this configuration ever finds the key. */
  ghost predicate NeverFound(c: TierConfig, withL2: bool, withL3: bool, key: string) {
    forall events, now :: Lookup(c, TierRun(c, StartTiers(withL2, withL3), events), key, None, now) == None
  }

  lemma {:induction false} UnderIsRenamed(tenant: string, key: string)
    requires "q_" <= tenant && Under(tenant, key)
    ensures Renamed(key)
  {
    assert key[..|tenant| + 1] == tenant + ":";
    assert key[|tenant|] == ':' && key[..|tenant|] == tenant;
    assert "q_" <= key;
    forall n: nat ensures key != QueryId(n) {
      if key == QueryId(n) {
        assert key[2..] == Decimal(n) && key[2..][|tenant| - 2] == ':';
        DecimalDigits(n, ':');
      }
    }
  }

  lemma {:induction false} FoundInL2(c: TierConfig, withL3: bool, e: CacheEntry)
    requires c.strategy.L2Only?
    ensures !NeverFound(c, true, withL3, e.queryId)
  {
    var start, put := StartTiers(true, withL3), TierEvent(TPut(e, "default"), 0.0);
    RunOneMore(c, start, [], put);
    assert [] + [put] == [put];
    assert e.queryId in TierRun(c, start, [put]).l2.value;
    assert Lookup(c, TierRun(c, start, [put]), e.queryId, None, 0.0).Some?;
  }

  lemma {:induction false} NothingStored(c: TierConfig, withL3: bool, key: string)
    requires c.strategy.L2Only?
    ensures NeverFound(c, false, withL3, key)
  {
    forall events, now ensures Lookup(c, TierRun(c, StartTiers(false, withL3), events), key, None, now) == None {
      TierRunAgrees(c, false, withL3, events);
    }
  }

  /** For a tenant whose name begins with "q_", nothing that put_semantic stores is ever found
      again, whatever else happens, exactly unless all writes go to an L2 and nowhere else. */
  lemma {:induction false} QTenantNeverReads(c: TierConfig, withL2: bool, withL3: bool, hash: string -> string,
                                             text: string, tenant: string)
    requires "q_" <= tenant
    ensures NeverFound(c, withL2, withL3, CacheKey(hash, text, Some(tenant))) <==> !(c.strategy.L2Only? && withL2)
  {
    var key := CacheKey(hash, text, Some(tenant));
    FullIdCollides(tenant, key);
    UnderIsRenamed(tenant, key);
    if !c.strategy.L2Only? {
      forall events, now ensures Lookup(c, TierRun(c, StartTiers(withL2, withL3), events), key, None, now) == None {
        RenamedNeverHeld(c, withL2, withL3, events, key);
      }
    } else if withL2 {
      var e := SemanticEntry(hash, text, [], Payload("", 0, 0, 0.0), Some(tenant), "general", 0.0);
      FoundInL2(c, withL3, e);
    } else {
      NothingStored(c, withL3, key);
    }
  }
}
