/** What a search of the index and a semantic lookup report, told by the live entries. */
module SearchResults {
  import opened Options
  import opened Dicts
  import opened StableSort
  import Scores
  import opened LayerSearch
  import opened HnswSpec
  import opened HnswTheorems
  import opened IndexSpec
  import opened TierSpec
  import TierTheorems
  import EvictionTheorems
  import TierEffects
  import opened SemanticSpec
  import opened SemanticTheorems

  /** No tenant is asked for, or the entry belongs to that tenant. */
  predicate Visible(e: IndexEntry, tenant: Option<string>) {
    tenant.None? || tenant.value == "" || e.tenant == tenant
  }

  // ----- The filter of a search -----

  /** What is kept is a live entry of the tenant at or above the threshold. */
  lemma {:induction false} KeptIsVisible(hits: seq<HnswSpec.Hit>, entries: Entries, threshold: real,
                                         tenant: Option<string>, m: Match)
    requires m in Keep(hits, entries, threshold, tenant)
    ensures Visible(m.entry, tenant) && m.similarity >= threshold && m.itemId == m.entry.itemId
    ensures exists h: HnswSpec.Hit :: h in hits && h.id in entries.vals && m.entry == entries.vals[h.id] && m.similarity == h.similarity
  {
    KeepSound(hits, entries, threshold, tenant, m);
  }

  /** Every hit of a live entry of the tenant at or above the threshold is kept. */
  lemma {:induction false} VisibleIsKept(hits: seq<HnswSpec.Hit>, entries: Entries, threshold: real,
                                         tenant: Option<string>, h: HnswSpec.Hit)
    requires h in hits && h.similarity >= threshold && h.id in entries.vals && Visible(entries.vals[h.id], tenant)
    ensures Match(entries.vals[h.id].itemId, h.similarity, entries.vals[h.id]) in Keep(hits, entries, threshold, tenant)
  {
    if h == hits[0] {
      assert KeepOne(h, entries, threshold, tenant)[0] in Keep(hits, entries, threshold, tenant);
    } else {
      VisibleIsKept(hits[1..], entries, threshold, tenant, h);
    }
  }

  ghost predicate DescendingMatches(s: seq<Match>) {
    forall i, j :: 0 <= i < j < |s| ==> s[i].similarity >= s[j].similarity
  }

  /** The filter keeps the order. */
  lemma {:induction false} KeepDescends(hits: seq<HnswSpec.Hit>, entries: Entries, threshold: real, tenant: Option<string>)
    requires Descending(hits)
    ensures DescendingMatches(Keep(hits, entries, threshold, tenant))
  {
    if hits != [] {
      var rest := Keep(hits[1..], entries, threshold, tenant);
      KeepDescends(hits[1..], entries, threshold, tenant);
      forall j | 0 <= j < |rest| ensures rest[j].similarity <= hits[0].similarity {
        KeptIsVisible(hits[1..], entries, threshold, tenant, rest[j]);
        var h: HnswSpec.Hit :| h in hits[1..] && rest[j].similarity == h.similarity;
        var i :| 0 <= i < |hits| - 1 && hits[1..][i] == h;
        assert h == hits[i + 1];
      }
    }
  }

  /** The live entry under the id of node n, at its true similarity. */
  ghost predicate MatchOf(p: Params, a: Index, entries: Entries, target: Vec, n: nat, m: Match)
    requires |a.ids| == |a.vecs|
  {
    && n < |a.ids| && a.ids[n] in entries.vals
    && m == Match(entries.vals[a.ids[n]].itemId, p.sim(target, a.vecs[n]), entries.vals[a.ids[n]])
  }

  lemma {:induction false} HitIsMatch(p: Params, a: Index, entries: Entries, target: Vec, raw: seq<HnswSpec.Hit>, m: Match,
                                      h: HnswSpec.Hit) returns (n: nat)
    requires |a.ids| == |a.vecs| && forall i :: 0 <= i < |raw| ==> Stored(p, a, target, raw[i])
    requires h in raw && h.id in entries.vals && m == Match(entries.vals[h.id].itemId, h.similarity, entries.vals[h.id])
    ensures MatchOf(p, a, entries, target, n, m)
  {
    var i :| 0 <= i < |raw| && raw[i] == h;
    assert Stored(p, a, target, raw[i]);
    n :| 0 <= n < |a.ids| && raw[i] == HnswSpec.Hit(a.ids[n], p.sim(target, a.vecs[n]));
  }

  /** Every result of a search is a live entry of the tenant at its true similarity, at or
      above the threshold; there are at most k, best first. */
  lemma {:induction false} FoundAreVisible(p: Params, a: Index, entries: Entries, target: Vec, k: int, threshold: real,
                                           tenant: Option<string>, r: seq<Match>, i: nat)
    requires WellFormed(p, a) && Retrieved(p, a, entries, target, k, threshold, tenant, r) && i < |r|
    ensures Visible(r[i].entry, tenant) && r[i].similarity >= threshold && |r| <= k && DescendingMatches(r)
    ensures exists n: nat :: MatchOf(p, a, entries, target, n, r[i])
  {
    var raw :| Searched(p, a, target, k * 2, None, raw) && r == Take(Keep(raw, entries, threshold, tenant), k);
    SearchSound(p, a, target, k * 2, None, raw);
    KeepDescends(raw, entries, threshold, tenant);
    TakeMembers(Keep(raw, entries, threshold, tenant), k);
    assert r[i] in r;
    KeptIsMatch(p, a, entries, target, raw, threshold, tenant, r[i]);
  }

  lemma {:induction false} KeptIsMatch(p: Params, a: Index, entries: Entries, target: Vec, raw: seq<HnswSpec.Hit>,
                                       threshold: real, tenant: Option<string>, m: Match)
    requires |a.ids| == |a.vecs| && forall i :: 0 <= i < |raw| ==> Stored(p, a, target, raw[i])
    requires m in Keep(raw, entries, threshold, tenant)
    ensures Visible(m.entry, tenant) && m.similarity >= threshold
    ensures exists n: nat :: MatchOf(p, a, entries, target, n, m)
  {
    KeptIsVisible(raw, entries, threshold, tenant, m);
    var h: HnswSpec.Hit :| h in raw && h.id in entries.vals && m.entry == entries.vals[h.id] && m.similarity == h.similarity;
    var n := HitIsMatch(p, a, entries, target, raw, m, h);
  }

  lemma {:induction false} ScanHas(p: Params, a: Index, target: Vec, n: nat)
    requires |a.ids| == |a.vecs| && n < |a.ids|
    ensures HnswSpec.Hit(a.ids[n], p.sim(target, a.vecs[n])) in FullScan(p, a, target)
  {
    var ranking := Ranking(p, a.vecs, target);
    RankingMembers(p, a.vecs, target);
    InRanking(p, a.vecs, target, Scores.Scored(Scores.Fin(-p.sim(target, a.vecs[n])), n));
    var i :| 0 <= i < |ranking| && ranking[i] == Scores.Scored(Scores.Fin(-p.sim(target, a.vecs[n])), n);
    ScanAt(p, a, target, |a.ids|, i);
    assert FullScan(p, a, target)[i] in FullScan(p, a, target);
  }

  lemma {:induction false} CutIsBest(s: seq<Match>, k: nat, m: Match)
    requires DescendingMatches(s) && m in s && m !in Take(s, k)
    ensures |Take(s, k)| == k && forall x :: x in Take(s, k) ==> x.similarity >= m.similarity
  {
    var j :| 0 <= j < |s| && s[j] == m;
    assert forall i :: 0 <= i < |Take(s, k)| ==> Take(s, k)[i] == s[i] && Take(s, k)[i] in Take(s, k);
    forall x | x in Take(s, k) ensures x.similarity >= m.similarity {
      var i :| 0 <= i < |Take(s, k)| && Take(s, k)[i] == x;
      assert s[i] == x;
    }
  }

  /** On a small index, a search twice as deep as the index is large misses no live entry of
      the tenant at or above the threshold, unless it returns k that are as similar. */
  lemma {:induction false} VisibleIsFound(p: Params, items: seq<Item>, a: Index, entries: Entries, target: Vec, k: nat,
                                          threshold: real, tenant: Option<string>, r: seq<Match>, n: nat, m: Match)
    requires Built(p, items, a) && |items| <= p.maxM * 2 + 1 && |items| <= p.ef && |items| <= k * 2
    requires Retrieved(p, a, entries, target, k, threshold, tenant, r) && |a.ids| == |a.vecs|
    requires MatchOf(p, a, entries, target, n, m) && m.similarity >= threshold && Visible(m.entry, tenant)
    ensures m in r || (|r| == k && forall x :: x in r ==> x.similarity >= m.similarity)
  {
    var raw :| Searched(p, a, target, k * 2, None, raw) && r == Take(Keep(raw, entries, threshold, tenant), k);
    SmallRaw(p, items, a, target, k * 2, raw);
    BuiltWellFormed(p, items, a);
    ScanHas(p, a, target, n);
    assert raw == FullScan(p, a, target);
    VisibleIsKept(raw, entries, threshold, tenant, HnswSpec.Hit(a.ids[n], p.sim(target, a.vecs[n])));
    KeepDescends(raw, entries, threshold, tenant);
    if m !in r { CutIsBest(Keep(raw, entries, threshold, tenant), k, m); }
  }

  // ----- Search by text -----

  /** What a semantic result is reported as: its own similarity, or that plus the boost, at
      most 1, when its text is the one asked for. */
  predicate ReportedAs(x: Ranked, m: Match, norm: string -> string, text: string, boost: real) {
    && x.itemId == m.itemId && x.entry == m.entry
    && (x.isExact <==> norm(m.entry.queryText) == norm(text))
    && (!x.isExact ==> x.score == m.similarity)
    && (x.isExact && m.similarity + boost < 1.0 ==> x.score == m.similarity + boost)
    && (x.isExact && m.similarity + boost >= 1.0 ==> x.score == 1.0)
  }

  lemma {:induction false} MergedIsReported(semantic: seq<Match>, seen: set<string>, norm: string -> string, text: string,
                                            boost: real, x: Ranked)
    requires x in Merge(semantic, seen, norm, text, boost)
    ensures exists m :: m in semantic && ReportedAs(x, m, norm, text, boost)
  {
    var next := if semantic[0].itemId in seen then seen else seen + {semantic[0].itemId};
    if semantic[0].itemId !in seen && x == Rank(semantic[0], norm, text, boost) {
      assert semantic[0] in semantic && ReportedAs(x, semantic[0], norm, text, boost);
    } else {
      MergedIsReported(semantic[1..], next, norm, text, boost, x);
      var m :| m in semantic[1..] && ReportedAs(x, m, norm, text, boost);
      assert m in semantic;
    }
  }

  /** No semantic result is lost: its item id is seen already or reported. */
  lemma {:induction false} NoneIsLost(semantic: seq<Match>, seen: set<string>, norm: string -> string, text: string,
                                      boost: real, m: Match)
    requires m in semantic
    ensures m.itemId in seen || exists x :: x in Merge(semantic, seen, norm, text, boost) && x.itemId == m.itemId
  {
    var next := if semantic[0].itemId in seen then seen else seen + {semantic[0].itemId};
    var rest := Merge(semantic[1..], next, norm, text, boost);
    if m.itemId !in seen {
      if m.itemId == semantic[0].itemId {
        assert Merge(semantic, seen, norm, text, boost)[0].itemId == m.itemId;
        assert Merge(semantic, seen, norm, text, boost)[0] in Merge(semantic, seen, norm, text, boost);
      } else {
        NoneIsLost(semantic[1..], next, norm, text, boost, m);
        var x :| x in rest && x.itemId == m.itemId;
        assert x in Merge(semantic, seen, norm, text, boost);
      }
    }
  }

  /** Every result of a search by text is the exact match, with score 1, or a semantic result
      reported as its text and its similarity demand. */
  lemma {:induction false} TextResultIsReported(entries: Entries, semantic: seq<Match>, norm: string -> string,
                                                text: string, tenant: Option<string>, boost: real, k: nat, x: Ranked)
    requires x in ByText(entries, semantic, norm, text, tenant, boost, k)
    ensures (x in ExactHead(entries, norm, text, tenant) && x.score == 1.0 && x.isExact)
            || exists m :: m in semantic && ReportedAs(x, m, norm, text, boost)
  {
    var head := ExactHead(entries, norm, text, tenant);
    ByTextSound(entries, semantic, norm, text, tenant, boost, k);
    if x !in head { MergedIsReported(semantic, SeenIds(head), norm, text, boost, x); }
  }

  /** What a search by text leaves out scores no higher than the k results it returns. */
  lemma {:induction false} LeftOutIsWorse(entries: Entries, semantic: seq<Match>, norm: string -> string, text: string,
                                          tenant: Option<string>, boost: real, k: nat, x: Ranked)
    requires x in Candidates(entries, semantic, norm, text, tenant, boost)
    requires x !in ByText(entries, semantic, norm, text, tenant, boost, k)
    ensures var r := ByText(entries, semantic, norm, text, tenant, boost, k);
            |r| == k && forall y :: y in r ==> y.score >= x.score
  {
    var c := Candidates(entries, semantic, norm, text, tenant, boost);
    var t, r := SortBy(c, DESCENDING), ByText(entries, semantic, norm, text, tenant, boost, k);
    CandidatesDistinct(entries, semantic, norm, text, tenant, boost);
    SortedRanked(c);
    var j :| 0 <= j < |t| && t[j] == x;
    assert forall i :: 0 <= i < |r| ==> r[i] == t[i] && r[i] in r;
    forall y | y in r ensures y.score >= x.score {
      var i :| 0 <= i < |r| && r[i] == y;
      assert t[i] == y;
    }
  }

  /** With a tenant, what is reported as the exact match is that tenant's own entry and has
      the text. */
  lemma {:induction false} ExactIsTenants(a: Index, entries: Entries, norm: string -> string, text: string, tenant: string,
                                          x: Ranked)
    requires LiveOk(a, entries) && x in ExactHead(entries, norm, text, Some(tenant))
    ensures x.entry.tenant == Some(tenant) && norm(x.entry.queryText) == norm(text) && x.itemId == x.entry.itemId
    ensures exists id :: id in entries.vals && entries.vals[id] == x.entry
  {
    ReportedIsMatched(a, entries, norm, text, Some(tenant));
    var key := FirstText(entries.keys, entries.vals, norm, text, Some(tenant));
    assert key.value in entries.vals && entries.vals[key.value] == x.entry;
  }

  // ----- Semantic lookup -----

  /** A lookup that finds only a similar text answers what the tiers hold under its key, with
      its own similarity and not as exact; the same text indexed where it is not reported
      itself counts 0.05 more, at most 1, and as exact. */
  lemma {:induction false} SimilarIsReported(c: TierConfig, t: Tiers, entries: Entries, m: Match, norm: string -> string,
                                             text: string, tenant: Option<string>, now: real)
    requires ExactHead(entries, norm, text, tenant) == [] && Ordered(t.l1.entries)
    ensures var key := if tenant.None? || tenant.value == "" then m.itemId else tenant.value + ":" + m.itemId;
            var r, held := SemanticAnswer(c, t, entries, [m], norm, text, tenant, now), Answer(c, t, key, None, now);
            && (r.Some? <==> held.Some?)
            && (r.Some? ==>
                  && r.value.entry == held.value.entry && r.value.source == held.value.source
                  && (r.value.isExact <==> norm(m.entry.queryText) == norm(text))
                  && (!r.value.isExact ==> r.value.similarity == m.similarity)
                  && (r.value.isExact && m.similarity < 0.95 ==> r.value.similarity == m.similarity + 0.05)
                  && (r.value.isExact && m.similarity >= 0.95 ==> r.value.similarity == 1.0))
    ensures var key := if tenant.None? || tenant.value == "" then m.itemId else tenant.value + ":" + m.itemId;
            SemanticState(c, t, entries, [m], norm, text, tenant, now) == Get3(c, t, key, None, now)
  {
    RestIsSemantic(entries, m, norm, text, tenant);
  }

  /** An exact match is answered with what the tiers hold under its key, similarity 1. */
  lemma {:induction false} ExactIsReported(c: TierConfig, t: Tiers, entries: Entries, semantic: seq<Match>,
                                           norm: string -> string, text: string, tenant: Option<string>, now: real)
    requires ExactHead(entries, norm, text, tenant) != [] && Ordered(t.l1.entries)
    requires forall i :: 0 <= i < |semantic| ==> semantic[i].similarity <= 1.0
    ensures var itemId := ExactHead(entries, norm, text, tenant)[0].itemId;
            var key := if tenant.None? || tenant.value == "" then itemId else tenant.value + ":" + itemId;
            var r, held := SemanticAnswer(c, t, entries, semantic, norm, text, tenant, now), Answer(c, t, key, None, now);
            && (r.Some? <==> held.Some?)
            && (r.Some? ==> r.value == SemanticHit(held.value.entry, 1.0, held.value.source, true))
    ensures var itemId := ExactHead(entries, norm, text, tenant)[0].itemId;
            var key := if tenant.None? || tenant.value == "" then itemId else tenant.value + ":" + itemId;
            SemanticState(c, t, entries, semantic, norm, text, tenant, now) == Get3(c, t, key, None, now)
  {
    HeadIsBest(entries, semantic, norm, text, tenant);
  }

  /** Nothing found, nothing answered and no tier touched. */
  lemma {:induction false} NothingIsReported(c: TierConfig, t: Tiers, entries: Entries, norm: string -> string,
                                             text: string, tenant: Option<string>, now: real)
    requires ExactHead(entries, norm, text, tenant) == [] && Ordered(t.l1.entries)
    ensures SemanticAnswer(c, t, entries, [], norm, text, tenant, now) == None
    ensures SemanticState(c, t, entries, [], norm, text, tenant, now) == t
  {
    NothingIsBest(entries, norm, text, tenant);
  }

  /** Without an index manager the text itself is looked up, and a hit is exact. */
  lemma {:induction false} FallbackIsExact(hit: Option<TierSpec.Hit>)
    ensures ExactHit(hit).Some? <==> hit.Some?
    ensures hit.Some? ==> ExactHit(hit).value.entry == hit.value.entry && ExactHit(hit).value.source == hit.value.source
                          && ExactHit(hit).value.similarity == 1.0 && ExactHit(hit).value.isExact
  {
  }

  // ----- Semantic put and delete -----

  /** What put_semantic stores: with room, L1 then holds under the hashed key, behind the name
      of a tenant, the text, its embedding, domain and answer, as created now and never used. */
  lemma {:induction false} SemanticIsStored(c: TierConfig, t: Tiers, hash: string -> string, text: string, embedding: Vec,
                                            answer: Payload, tenant: Option<string>, domain: string, now: real)
    requires Ordered(t.l1.entries) && !c.strategy.L2Only?
    requires var e := SemanticEntry(hash, text, embedding, answer, tenant, domain, now);
             TierTheorems.Plain(e.queryId) && EvictionTheorems.HasRoom(c.l1, t.l1, e)
    ensures var key := if tenant.None? || tenant.value == "" then hash(text) else tenant.value + ":" + hash(text);
            var r := Put3(c, t, SemanticEntry(hash, text, embedding, answer, tenant, domain, now), "default", now);
            && key in r.l1.entries.vals
            && var held := r.l1.entries.vals[key];
               && held.queryId == key && held.queryText == text && held.embedding == embedding && held.domain == domain
               && held.response == answer.response && held.computeCost == answer.computeCost
               && held.createdAt == now && held.lastAccessedAt == now && held.accessCount == 0
               && held.memory == c.l1.dimension * 4 + answer.textBytes + answer.dataBytes + 150
  {
    TierEffects.PutWritesL1(c, t, SemanticEntry(hash, text, embedding, answer, tenant, domain, now), "default", now);
  }

  /** delete_semantic takes no other entry out of the index than the one it names. */
  lemma {:induction false} OthersStayIndexed(entries: Entries, hash: string -> string, text: string,
                                             tenant: Option<string>, k: string)
    ensures var r := IndexAfterDelete(entries, hash, text, tenant).vals;
            var named := if tenant.None? || tenant.value == "" then hash(text)
                         else tenant.value + ":" + tenant.value + ":" + hash(text);
            && named !in r
            && (k != named ==> (k in r <==> k in entries.vals) && (k in r ==> r[k] == entries.vals[k]))
  {
    if tenant.Some? { assert tenant.value + ":" + (tenant.value + ":" + hash(text)) == tenant.value + ":" + tenant.value + ":" + hash(text); }
  }
}
