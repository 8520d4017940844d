/** The unified index as a value: live entries over an index that never forgets. */
module IndexSpec {
  import opened Options
  import opened Sequences
  import opened Dicts
  import opened Scores
  import opened LayerSearch
  import opened HnswSpec
  import opened HnswTheorems
  import opened StableSort

  datatype IndexEntry = IndexEntry(itemId: string, queryText: string, tenant: Option<string>,
                                   domain: string, createdAt: real)

  /** One result of a search, and one of a search by text. */
  datatype Match = Match(itemId: string, similarity: real, entry: IndexEntry)
  datatype Ranked = Ranked(itemId: string, score: real, entry: IndexEntry, isExact: bool)

  type Entries = Dict<IndexEntry>

  function FullId(itemId: string, tenant: Option<string>): string {
    if Given(tenant) then tenant.value + ":" + itemId else itemId
  }

  /** Every live key is indexed and is the full id of its entry. */
  ghost predicate LiveOk(a: Index, entries: Entries) {
    && Ordered(entries)
    && (forall k :: k in entries.vals ==>
          k in a.ids && k == FullId(entries.vals[k].itemId, entries.vals[k].tenant))
  }

  lemma {:induction false} LivePut(a: Index, b: Index, entries: Entries, itemId: string, tenant: Option<string>, e: IndexEntry)
    requires LiveOk(a, entries) && (forall id :: id in a.ids ==> id in b.ids)
    requires e.itemId == itemId && e.tenant == tenant && FullId(itemId, tenant) in b.ids
    ensures LiveOk(b, Put(entries, FullId(itemId, tenant), e))
  {
    PutOrdered(entries, FullId(itemId, tenant), e);
  }

  lemma {:induction false} LiveRemove(a: Index, entries: Entries, k: string)
    requires LiveOk(a, entries)
    ensures LiveOk(a, Remove(entries, k))
  {
    RemoveOrdered(entries, k);
  }

  // ----- Search -----

  predicate Eligible(entries: Entries, tenant: Option<string>, id: string) {
    id in entries.vals && (Given(tenant) ==> entries.vals[id].tenant == tenant)
  }

  function KeepOne(h: Hit, entries: Entries, threshold: real, tenant: Option<string>): (r: seq<Match>)
    ensures |r| <= 1
  {
    if h.similarity >= threshold && Eligible(entries, tenant, h.id)
    then [Match(entries.vals[h.id].itemId, h.similarity, entries.vals[h.id])] else []
  }

  /** The hits that survive the threshold and the tenant filter. */
  function Keep(hits: seq<Hit>, entries: Entries, threshold: real, tenant: Option<string>): (r: seq<Match>)
    ensures |r| <= |hits|
  {
    if hits == [] then []
    else KeepOne(hits[0], entries, threshold, tenant) + Keep(hits[1..], entries, threshold, tenant)
  }

  ghost predicate Retrieved(p: Params, a: Index, entries: Entries, target: Vec, k: int, threshold: real,
                        tenant: Option<string>, r: seq<Match>)
  {
    exists raw :: Searched(p, a, target, k * 2, None, raw) && r == Take(Keep(raw, entries, threshold, tenant), k)
  }

  lemma {:induction false} Regroup<T>(x: seq<T>, y: seq<T>, z: seq<T>)
    ensures x + (y + z) == (x + y) + z
  {
  }

  lemma {:induction false} KeepConcat(x: seq<Hit>, y: seq<Hit>, entries: Entries, threshold: real, tenant: Option<string>)
    ensures Keep(x + y, entries, threshold, tenant)
            == Keep(x, entries, threshold, tenant) + Keep(y, entries, threshold, tenant)
  {
    if x == [] {
      assert x + y == y;
    } else {
      KeepConcat(x[1..], y, entries, threshold, tenant);
      assert (x + y)[1..] == x[1..] + y && (x + y)[0] == x[0];
      Regroup(KeepOne(x[0], entries, threshold, tenant), Keep(x[1..], entries, threshold, tenant),
              Keep(y, entries, threshold, tenant));
    }
  }

  lemma {:induction false} KeepNothing(x: seq<Hit>, entries: Entries, threshold: real, tenant: Option<string>)
    requires forall i :: 0 <= i < |x| ==> x[i].similarity < threshold
    ensures Keep(x, entries, threshold, tenant) == []
  {
    if x != [] { KeepNothing(x[1..], entries, threshold, tenant); }
  }

  /** How many of these hits are deleted or another tenant's. */
  function Misses(hits: seq<Hit>, entries: Entries, tenant: Option<string>): nat {
    if hits == [] then 0
    else (if Eligible(entries, tenant, hits[0].id) then 0 else 1) + Misses(hits[1..], entries, tenant)
  }

  lemma {:induction false} KeepCount(x: seq<Hit>, entries: Entries, threshold: real, tenant: Option<string>)
    requires forall i :: 0 <= i < |x| ==> x[i].similarity >= threshold
    ensures |Keep(x, entries, threshold, tenant)| + Misses(x, entries, tenant) == |x|
  {
    if x != [] { KeepCount(x[1..], entries, threshold, tenant); }
  }

  ghost predicate DistinctHits(hits: seq<Hit>) {
    forall i, j :: 0 <= i < j < |hits| ==> hits[i].id != hits[j].id
  }

  /** The indexed ids a search for this tenant cannot return. */
  function Ineligible(a: Index, entries: Entries, tenant: Option<string>): set<string> {
    set id | id in a.ids && !Eligible(entries, tenant, id)
  }

  lemma {:induction false} MissesBound(hits: seq<Hit>, entries: Entries, tenant: Option<string>, bad: set<string>)
    requires DistinctHits(hits)
    requires forall i :: 0 <= i < |hits| && !Eligible(entries, tenant, hits[i].id) ==> hits[i].id in bad
    ensures Misses(hits, entries, tenant) <= |bad|
  {
    if hits != [] {
      var rest := hits[1..];
      assert DistinctHits(rest);
      if Eligible(entries, tenant, hits[0].id) {
        MissesBound(rest, entries, tenant, bad);
      } else {
        forall i | 0 <= i < |rest| && !Eligible(entries, tenant, rest[i].id)
          ensures rest[i].id in bad - {hits[0].id}
        {
          assert rest[i] == hits[i + 1];
        }
        MissesBound(rest, entries, tenant, bad - {hits[0].id});
      }
    }
  }

  ghost predicate Descending(hits: seq<Hit>) {
    forall i, j :: 0 <= i < j < |hits| ==> hits[i].similarity >= hits[j].similarity
  }

  /** Over-fetching by two is enough while at most k hits of the list cannot be returned. */
  lemma {:induction false} OverFetch(all: seq<Hit>, entries: Entries, threshold: real, tenant: Option<string>, k: nat)
    requires Descending(all) && Misses(Take(all, 2 * k), entries, tenant) <= k
    ensures Take(Keep(Take(all, 2 * k), entries, threshold, tenant), k)
            == Take(Keep(all, entries, threshold, tenant), k)
  {
    if 0 < 2 * k < |all| {
      var raw, rest := all[..2 * k], all[2 * k..];
      assert all == raw + rest;
      KeepConcat(raw, rest, entries, threshold, tenant);
      if all[2 * k - 1].similarity < threshold {
        BelowFrom(all, 2 * k, threshold);
        KeepNothing(rest, entries, threshold, tenant);
      } else {
        AboveUpTo(all, 2 * k, threshold);
        KeepCount(raw, entries, threshold, tenant);
      }
    }
  }

  lemma {:induction false} BelowFrom(all: seq<Hit>, n: nat, threshold: real)
    requires Descending(all) && 0 < n <= |all| && all[n - 1].similarity < threshold
    ensures forall i :: 0 <= i < |all[n..]| ==> all[n..][i].similarity < threshold
  {
    forall i | 0 <= i < |all[n..]| ensures all[n..][i].similarity < threshold {
      assert all[n..][i] == all[n + i];
    }
  }

  lemma {:induction false} AboveUpTo(all: seq<Hit>, n: nat, threshold: real)
    requires Descending(all) && 0 < n <= |all| && all[n - 1].similarity >= threshold
    ensures forall i :: 0 <= i < n ==> all[..n][i].similarity >= threshold
  {
    forall i | 0 <= i < n ensures all[..n][i].similarity >= threshold {
      assert all[..n][i] == all[i];
    }
  }

  /** All items, best first. */
  function FullScan(p: Params, a: Index, target: Vec): seq<Hit>
    requires |a.ids| == |a.vecs|
  {
    Scan(p, a, target, |a.ids|)
  }

  lemma {:induction false} ScanAt(p: Params, a: Index, target: Vec, k: int, i: nat)
    requires |a.ids| == |a.vecs| && i < |Scan(p, a, target, k)|
    ensures i < |a.ids|
    ensures var x := Ranking(p, a.vecs, target)[i];
            x.id < |a.ids| && x.dist.Fin? && Scan(p, a, target, k)[i] == Hit(a.ids[x.id], -x.dist.value)
  {
    var ranking := Ranking(p, a.vecs, target);
    RankingMembers(p, a.vecs, target);
    TakeMembers(ranking, k);
    assert ranking[i] in ranking && Take(ranking, k)[i] == ranking[i];
  }

  lemma {:induction false} ScanPrefix(p: Params, a: Index, target: Vec, k: int)
    requires |a.ids| == |a.vecs|
    ensures Scan(p, a, target, k) == Take(FullScan(p, a, target), k)
  {
    var s, t := Scan(p, a, target, k), FullScan(p, a, target);
    TakeMembers(Ranking(p, a.vecs, target), k);
    TakeMembers(Ranking(p, a.vecs, target), |a.ids|);
    TakeMembers(t, k);
    forall i | 0 <= i < |s| ensures s[i] == t[i] {
      ScanAt(p, a, target, k, i);
      ScanAt(p, a, target, |a.ids|, i);
    }
  }

  /** The scan lists different items, best first. */
  lemma {:induction false} ScanOrdered(p: Params, a: Index, target: Vec, k: int)
    requires |a.ids| == |a.vecs| && NoDup(a.ids)
    ensures Descending(Scan(p, a, target, k)) && DistinctHits(Scan(p, a, target, k))
    ensures forall i :: 0 <= i < |Scan(p, a, target, k)| ==> Scan(p, a, target, k)[i].id in a.ids
  {
    var ranking, s := Ranking(p, a.vecs, target), Scan(p, a, target, k);
    forall i | 0 <= i < |s| ensures s[i].id in a.ids {
      ScanAt(p, a, target, k, i);
    }
    forall i, j | 0 <= i < j < |s| ensures s[i].similarity >= s[j].similarity && s[i].id != s[j].id {
      ScanAt(p, a, target, k, i);
      ScanAt(p, a, target, k, j);
      RankingMembers(p, a.vecs, target);
    }
  }

  lemma {:induction false} SmallRaw(p: Params, items: seq<Item>, a: Index, target: Vec, k: nat, raw: seq<Hit>)
    requires Built(p, items, a) && |items| <= p.maxM * 2 + 1 && |items| <= p.ef
    requires Searched(p, a, target, k, None, raw)
    ensures |a.ids| == |a.vecs| && raw == Take(FullScan(p, a, target), k)
    ensures Descending(FullScan(p, a, target)) && DistinctHits(raw)
    ensures forall i :: 0 <= i < |raw| ==> raw[i].id in a.ids
  {
    BuiltWellFormed(p, items, a);
    SmallIndexExact(p, items, a, target, k, raw);
    ScanPrefix(p, a, target, k);
    ScanOrdered(p, a, target, k);
    ScanOrdered(p, a, target, |a.ids|);
  }

  /** On a small index with at most k ineligible items, a tenant search returns exactly the
      k best eligible items at or above the threshold. */
  lemma {:induction false} OverFetchSuffices(p: Params, items: seq<Item>, a: Index, entries: Entries, target: Vec,
                                             k: nat, threshold: real, tenant: Option<string>, r: seq<Match>)
    requires Built(p, items, a) && |items| <= p.maxM * 2 + 1 && |items| <= p.ef
    requires |Ineligible(a, entries, tenant)| <= k
    requires Retrieved(p, a, entries, target, k, threshold, tenant, r)
    ensures |a.ids| == |a.vecs| && r == Take(Keep(FullScan(p, a, target), entries, threshold, tenant), k)
  {
    var raw :| Searched(p, a, target, k * 2, None, raw)
               && r == Take(Keep(raw, entries, threshold, tenant), k);
    SmallRaw(p, items, a, target, k * 2, raw);
    MissesBound(raw, entries, tenant, Ineligible(a, entries, tenant));
    OverFetch(FullScan(p, a, target), entries, threshold, tenant, k);
  }

  // ----- When over-fetching by two is enough -----

  /** What a search for 2k never sees. */
  function Unseen(all: seq<Hit>, n: nat): seq<Hit> { if n < |all| then all[n..] else [] }

  lemma {:induction false} KeptAbove(hits: seq<Hit>, entries: Entries, threshold: real, tenant: Option<string>)
    requires Keep(hits, entries, threshold, tenant) != []
    ensures exists i :: 0 <= i < |hits| && hits[i].similarity >= threshold
  {
    if KeepOne(hits[0], entries, threshold, tenant) == [] {
      KeptAbove(hits[1..], entries, threshold, tenant);
      var i :| 0 <= i < |hits| - 1 && hits[1..][i].similarity >= threshold;
      assert hits[i + 1].similarity >= threshold;
    }
  }

  lemma {:induction false} SeenAbove(all: seq<Hit>, entries: Entries, threshold: real, tenant: Option<string>, n: nat)
    requires Descending(all) && Keep(Unseen(all, n), entries, threshold, tenant) != []
    ensures n < |all| && forall i :: 0 <= i < n ==> all[..n][i].similarity >= threshold
  {
    KeptAbove(Unseen(all, n), entries, threshold, tenant);
    var j :| 0 <= j < |all| - n && Unseen(all, n)[j].similarity >= threshold;
    forall i | 0 <= i < n ensures all[..n][i].similarity >= threshold {
      assert all[..n][i] == all[i] && Unseen(all, n)[j] == all[n + j];
    }
  }

  /** At most k of the first 2k cannot be returned, or nothing behind them can. */
  predicate Enough(all: seq<Hit>, entries: Entries, threshold: real, tenant: Option<string>, k: nat) {
    || Misses(Take(all, 2 * k), entries, tenant) <= k
    || Keep(Unseen(all, 2 * k), entries, threshold, tenant) == []
  }

  /** Filtering the first 2k agrees with filtering everything exactly when at most k of
      those 2k cannot be returned, or nothing behind them can. */
  lemma {:induction false} OverFetchIff(all: seq<Hit>, entries: Entries, threshold: real, tenant: Option<string>, k: nat)
    requires Descending(all) && k > 0
    ensures Take(Keep(Take(all, 2 * k), entries, threshold, tenant), k)
            == Take(Keep(all, entries, threshold, tenant), k)
            <==> Enough(all, entries, threshold, tenant, k)
  {
    var raw, rest := Take(all, 2 * k), Unseen(all, 2 * k);
    assert all == raw + rest;
    KeepConcat(raw, rest, entries, threshold, tenant);
    if Misses(raw, entries, tenant) <= k {
      OverFetch(all, entries, threshold, tenant, k);
    } else if Keep(rest, entries, threshold, tenant) != [] {
      SeenAbove(all, entries, threshold, tenant, 2 * k);
      KeepCount(raw, entries, threshold, tenant);
    }
  }

  lemma {:induction false} SeenIff(all: seq<Hit>, raw: seq<Hit>, entries: Entries, threshold: real,
                                   tenant: Option<string>, k: nat, r: seq<Match>)
    requires Descending(all) && k > 0 && raw == Take(all, 2 * k)
    requires r == Take(Keep(raw, entries, threshold, tenant), k)
    ensures r == Take(Keep(all, entries, threshold, tenant), k)
            <==> Enough(all, entries, threshold, tenant, k)
  {
    OverFetchIff(all, entries, threshold, tenant, k);
  }

  /** On a small index a search returns exactly the k best eligible items at or above the
      threshold if and only if at most k of the 2k nearest items are ineligible, or nothing
      behind those 2k can be returned. */
  lemma {:induction false} OverFetchExactly(p: Params, items: seq<Item>, a: Index, entries: Entries, target: Vec,
                                            k: nat, threshold: real, tenant: Option<string>, r: seq<Match>)
    requires Built(p, items, a) && |items| <= p.maxM * 2 + 1 && |items| <= p.ef && k > 0
    requires Retrieved(p, a, entries, target, k, threshold, tenant, r)
    ensures |a.ids| == |a.vecs|
    ensures var all := FullScan(p, a, target);
            r == Take(Keep(all, entries, threshold, tenant), k)
            <==> Enough(all, entries, threshold, tenant, k)
  {
    var raw :| Searched(p, a, target, k * 2, None, raw)
               && r == Take(Keep(raw, entries, threshold, tenant), k);
    SmallRaw(p, items, a, target, k * 2, raw);
    assert k * 2 == 2 * k;
    SeenIff(FullScan(p, a, target), raw, entries, threshold, tenant, k, r);
  }

  /** Every result is a live entry of the tenant, at or above the threshold. */
  lemma {:induction false} KeepSound(hits: seq<Hit>, entries: Entries, threshold: real, tenant: Option<string>, m: Match)
    requires m in Keep(hits, entries, threshold, tenant)
    ensures exists h :: h in hits && Eligible(entries, tenant, h.id) && h.similarity >= threshold
              && m == Match(entries.vals[h.id].itemId, h.similarity, entries.vals[h.id])
  {
    if m in KeepOne(hits[0], entries, threshold, tenant) {
      assert hits[0] in hits;
    } else {
      KeepSound(hits[1..], entries, threshold, tenant, m);
      var h :| h in hits[1..] && Eligible(entries, tenant, h.id) && h.similarity >= threshold
        && m == Match(entries.vals[h.id].itemId, h.similarity, entries.vals[h.id]);
      assert h in hits;
    }
  }

  // ----- Search by text -----

  predicate TextMatch(norm: string -> string, e: IndexEntry, text: string, tenant: Option<string>) {
    norm(e.queryText) == norm(text) && (tenant.None? || e.tenant == tenant)
  }

  /** The first live key, in insertion order, whose entry has this text. */
  function FirstText(keys: seq<string>, vals: map<string, IndexEntry>, norm: string -> string, text: string,
                     tenant: Option<string>): (r: Option<string>)
    ensures r.Some? ==> r.value in keys && r.value in vals && TextMatch(norm, vals[r.value], text, tenant)
    ensures r.None? ==> forall k :: k in keys && k in vals ==> !TextMatch(norm, vals[k], text, tenant)
  {
    if keys == [] then None
    else if keys[0] in vals && TextMatch(norm, vals[keys[0]], text, tenant) then Some(keys[0])
    else FirstText(keys[1..], vals, norm, text, tenant)
  }

  /** The exact match, scored 1.0, if its entry is found under this tenant's full id. */
  function ExactHead(entries: Entries, norm: string -> string, text: string, tenant: Option<string>): seq<Ranked> {
    var key := FirstText(entries.keys, entries.vals, norm, text, tenant);
    if key.None? || key.value !in entries.vals then []
    else
      var itemId := entries.vals[key.value].itemId;
      var full := FullId(itemId, tenant);
      if itemId != "" && full in entries.vals then [Ranked(itemId, 1.0, entries.vals[full], true)] else []
  }

  function AtMostOne(x: real): real { if x < 1.0 then x else 1.0 }

  function Rank(m: Match, norm: string -> string, text: string, boost: real): Ranked {
    var isExact := norm(m.entry.queryText) == norm(text);
    Ranked(m.itemId, if isExact then AtMostOne(m.similarity + boost) else m.similarity, m.entry, isExact)
  }

  /** The semantic results whose item ids have not been seen. */
  function Merge(semantic: seq<Match>, seen: set<string>, norm: string -> string, text: string, boost: real): (r: seq<Ranked>)
    ensures forall i :: 0 <= i < |r| ==> r[i].itemId !in seen
    ensures forall i, j :: 0 <= i < j < |r| ==> r[i].itemId != r[j].itemId
  {
    if semantic == [] then []
    else if semantic[0].itemId in seen then Merge(semantic[1..], seen, norm, text, boost)
    else [Rank(semantic[0], norm, text, boost)]
         + Merge(semantic[1..], seen + {semantic[0].itemId}, norm, text, boost)
  }

  function SeenIds(head: seq<Ranked>): set<string> { set x | x in head :: x.itemId }

  function Candidates(entries: Entries, semantic: seq<Match>, norm: string -> string, text: string,
                      tenant: Option<string>, boost: real): seq<Ranked>
  {
    var head := ExactHead(entries, norm, text, tenant);
    head + Merge(semantic, SeenIds(head), norm, text, boost)
  }

  const DESCENDING: Ranked -> real := (x: Ranked) => -x.score

  /** results[:k] */
  function UpToK<T>(s: seq<T>, k: int): seq<T> {
    if k >= 0 then s[..Min(k, |s|)] else s[..Max(0, |s| + k)]
  }

  function ByText(entries: Entries, semantic: seq<Match>, norm: string -> string, text: string,
                  tenant: Option<string>, boost: real, k: int): seq<Ranked>
  {
    UpToK(SortBy(Candidates(entries, semantic, norm, text, tenant, boost), DESCENDING), k)
  }

  ghost predicate DistinctItems(s: seq<Ranked>) {
    forall i, j :: 0 <= i < j < |s| ==> s[i].itemId != s[j].itemId
  }

  lemma {:induction false} OtherItem(s: seq<Ranked>, x: Ranked, y: Ranked)
    requires DistinctItems(s) && x in s && y in s && x != y
    ensures x.itemId != y.itemId
  {
    var i :| 0 <= i < |s| && s[i] == x;
    var j :| 0 <= j < |s| && s[j] == y;
    assert i < j || j < i;
  }

  lemma {:induction false} PermutedDistinct(s: seq<Ranked>, t: seq<Ranked>)
    requires DistinctItems(s) && multiset(s) == multiset(t)
    ensures DistinctItems(t)
  {
    PermutedNoDup(s, t);
    forall i, j | 0 <= i < j < |t| ensures t[i].itemId != t[j].itemId {
      assert t[i] in multiset(s) && t[j] in multiset(s);
      OtherItem(s, t[i], t[j]);
    }
  }

  lemma {:induction false} CandidatesDistinct(entries: Entries, semantic: seq<Match>, norm: string -> string,
                                              text: string, tenant: Option<string>, boost: real)
    ensures DistinctItems(Candidates(entries, semantic, norm, text, tenant, boost))
  {
    var head := ExactHead(entries, norm, text, tenant);
    var rest := Merge(semantic, SeenIds(head), norm, text, boost);
    if head != [] { assert head[0] in head; }
  }

  /** A search by text returns at most k different items in descending score. */
  lemma {:induction false} ByTextSound(entries: Entries, semantic: seq<Match>, norm: string -> string,
                                       text: string, tenant: Option<string>, boost: real, k: nat)
    ensures var r := ByText(entries, semantic, norm, text, tenant, boost, k);
            && |r| <= k && DistinctItems(r)
            && (forall i, j :: 0 <= i < j < |r| ==> r[i].score >= r[j].score)
            && (forall x :: x in r ==> x in Candidates(entries, semantic, norm, text, tenant, boost))
  {
    var c := Candidates(entries, semantic, norm, text, tenant, boost);
    CandidatesDistinct(entries, semantic, norm, text, tenant, boost);
    SortedRanked(c);
  }

  lemma {:induction false} SortedRanked(c: seq<Ranked>)
    requires DistinctItems(c)
    ensures var t := SortBy(c, DESCENDING);
            && DistinctItems(t)
            && (forall i, j :: 0 <= i < j < |t| ==> t[i].score >= t[j].score)
            && (forall x :: x in t <==> x in c)
  {
    var t := SortBy(c, DESCENDING);
    SortByCorrect(c, DESCENDING);
    SortByMembers(c, DESCENDING);
    PermutedDistinct(c, t);
    forall i, j | 0 <= i < j < |t| ensures t[i].score >= t[j].score {
      assert DESCENDING(t[i]) <= DESCENDING(t[j]);
    }
  }

  lemma {:induction false} MergeAtMostOne(semantic: seq<Match>, seen: set<string>, norm: string -> string,
                                          text: string, boost: real)
    requires forall i :: 0 <= i < |semantic| ==> semantic[i].similarity <= 1.0
    ensures forall i :: 0 <= i < |Merge(semantic, seen, norm, text, boost)| ==>
              Merge(semantic, seen, norm, text, boost)[i].score <= 1.0
  {
    if semantic != [] {
      MergeAtMostOne(semantic[1..], seen, norm, text, boost);
      MergeAtMostOne(semantic[1..], seen + {semantic[0].itemId}, norm, text, boost);
    }
  }

  /** The first live entry with this text. */
  function FirstEntry(entries: Entries, norm: string -> string, text: string, tenant: Option<string>): Option<IndexEntry> {
    var key := FirstText(entries.keys, entries.vals, norm, text, tenant);
    if key.None? then None else Some(entries.vals[key.value])
  }

  /** The entry is looked up under its own id: a tenant was given, or it belongs to none. */
  predicate OwnId(e: IndexEntry, tenant: Option<string>) { tenant.Some? || !Given(e.tenant) }

  /** For a given tenant or none: an exact match is reported exactly when a live entry has
      the text, the first such entry has a non-empty item id, and that entry is looked up
      under its own id or its item id happens to be a live key itself. */
  lemma {:induction false} ExactFound(a: Index, entries: Entries, norm: string -> string, text: string, tenant: Option<string>)
    requires LiveOk(a, entries)
    ensures var first := FirstEntry(entries, norm, text, tenant);
            && (first.Some? <==> exists k :: k in entries.vals && TextMatch(norm, entries.vals[k], text, tenant))
            && (ExactHead(entries, norm, text, tenant) != [] <==>
                  first.Some? && first.value.itemId != ""
                  && (OwnId(first.value, tenant) || first.value.itemId in entries.vals))
  {
    var key := FirstText(entries.keys, entries.vals, norm, text, tenant);
    if key.Some? {
      assert key.value == FullId(entries.vals[key.value].itemId, entries.vals[key.value].tenant);
    }
  }

  /** What is reported is the matching entry itself exactly when that is looked up under its
      own id. */
  lemma {:induction false} ReportedIsMatched(a: Index, entries: Entries, norm: string -> string, text: string,
                                             tenant: Option<string>)
    requires LiveOk(a, entries) && ExactHead(entries, norm, text, tenant) != []
    ensures FirstEntry(entries, norm, text, tenant).Some?
    ensures var first, head := FirstEntry(entries, norm, text, tenant).value, ExactHead(entries, norm, text, tenant)[0];
            && head.score == 1.0 && head.isExact && head.itemId == first.itemId
            && (head.entry == first <==> OwnId(first, tenant))
            && (OwnId(first, tenant) ==> TextMatch(norm, head.entry, text, tenant))
  {
    var key := FirstText(entries.keys, entries.vals, norm, text, tenant);
    var full := FullId(entries.vals[key.value].itemId, tenant);
    assert key.value == FullId(entries.vals[key.value].itemId, entries.vals[key.value].tenant);
    assert full == FullId(entries.vals[full].itemId, entries.vals[full].tenant);
    if !OwnId(entries.vals[key.value], tenant) { assert |full| < |key.value|; }
  }

  /** Without a tenant, a tenant's entry with the text is missed when its item id is no live
      key; when it is one, that other entry is reported as an exact match of score 1.0. */
  lemma {:induction false} UntenantedExactMissed(a: Index, entries: Entries, norm: string -> string, text: string)
    requires LiveOk(a, entries) && FirstEntry(entries, norm, text, None).Some?
    requires Given(FirstEntry(entries, norm, text, None).value.tenant)
    ensures var itemId := FirstEntry(entries, norm, text, None).value.itemId;
            ExactHead(entries, norm, text, None)
            == if itemId != "" && itemId in entries.vals then [Ranked(itemId, 1.0, entries.vals[itemId], true)] else []
  {
  }

  /** Keys "t:h" with the text and "h" with another: the other is the exact match. */
  lemma {:induction false} WrongTextReported(norm: string -> string, text: string, other: string, domain: string)
    requires norm(text) != norm(other)
    ensures var e, o := IndexEntry("h", text, Some("t"), domain, 0.0), IndexEntry("h", other, None, domain, 0.0);
            var entries := Put(Put(EmptyDict(), "t:h", e), "h", o);
            && FirstEntry(entries, norm, text, None) == Some(e)
            && ExactHead(entries, norm, text, None) == [Ranked("h", 1.0, o, true)]
            && !TextMatch(norm, o, text, None)
  {
    var e, o := IndexEntry("h", text, Some("t"), domain, 0.0), IndexEntry("h", other, None, domain, 0.0);
    assert "h" !in Put(EmptyDict(), "t:h", e).vals;
    assert Put(Put(EmptyDict(), "t:h", e), "h", o).keys == ["t:h", "h"];
  }

  /** When no similarity exceeds 1, an exact match found for the tenant comes first. */
  lemma {:induction false} ExactComesFirst(entries: Entries, semantic: seq<Match>, norm: string -> string,
                                           text: string, tenant: Option<string>, boost: real, k: int)
    requires ExactHead(entries, norm, text, tenant) != [] && k >= 1
    requires forall i :: 0 <= i < |semantic| ==> semantic[i].similarity <= 1.0
    ensures var r := ByText(entries, semantic, norm, text, tenant, boost, k);
            |r| >= 1 && r[0] == ExactHead(entries, norm, text, tenant)[0] && r[0].score == 1.0 && r[0].isExact
  {
    var c := Candidates(entries, semantic, norm, text, tenant, boost);
    MergeAtMostOne(semantic, SeenIds(ExactHead(entries, norm, text, tenant)), norm, text, boost);
    assert forall i :: 0 <= i < |c| ==> c[i].score <= 1.0;
    FirstStaysFirst(c, DESCENDING);
  }

  // ----- Tenants -----

  /** Does this key begin with the name of the tenant and a colon? */
  predicate Under(tenant: string, key: string) { tenant + ":" <= key }

  /** A key can be a full id of the tenant exactly when it begins so; an untenanted item, or
      another tenant's, may have such a key. */
  lemma {:induction false} FullIdCollides(tenant: string, key: string)
    requires tenant != ""
    ensures (exists itemId :: FullId(itemId, Some(tenant)) == key) <==> Under(tenant, key)
  {
    if Under(tenant, key) {
      assert key == tenant + ":" + key[|tenant| + 1..];
      assert FullId(key[|tenant| + 1..], Some(tenant)) == key;
    }
    forall j | FullId(j, Some(tenant)) == key ensures Under(tenant, key) {
      assert key[..|tenant| + 1] == tenant + ":";
    }
  }

  /** Can one of these tenants spell out an id of the other? */
  predicate MayCollide(t1: string, t2: string) { Under(t1, t2) || Under(t2, t1) }

  lemma {:induction false} LongerIsUnder(i1: string, t1: string, i2: string, t2: string)
    requires t1 + ":" + i1 == t2 + ":" + i2 && |t1| < |t2|
    ensures Under(t1, t2)
  {
    var f := t1 + ":" + i1;
    assert f[..|t1| + 1] == t1 + ":" && f[..|t2|] == t2;
  }

  lemma {:induction false} EvenSplit(i1: string, t1: string, i2: string, t2: string)
    requires t1 + ":" + i1 == t2 + ":" + i2 && |t1| == |t2|
    ensures t1 == t2 && i1 == i2
  {
    var f := t1 + ":" + i1;
    assert f[..|t1|] == t1 && f[..|t1|] == t2 && f[|t1| + 1..] == i1 && f[|t1| + 1..] == i2;
  }

  /** Full ids of non-empty tenants that cannot collide determine tenant and item. */
  lemma {:induction false} FullIdInjective(i1: string, t1: string, i2: string, t2: string)
    requires t1 != "" && t2 != "" && !MayCollide(t1, t2)
    requires FullId(i1, Some(t1)) == FullId(i2, Some(t2))
    ensures t1 == t2 && i1 == i2
  {
    if |t1| < |t2| { LongerIsUnder(i1, t1, i2, t2); }
    if |t2| < |t1| { LongerIsUnder(i2, t2, i1, t1); }
    EvenSplit(i1, t1, i2, t2);
  }

  /** Two different non-empty tenants have ids in common exactly when one name begins with
      the other and a colon. */
  lemma {:induction false} TenantsCollideIff(t1: string, t2: string)
    requires t1 != "" && t2 != "" && t1 != t2
    ensures (exists i1, i2 :: FullId(i1, Some(t1)) == FullId(i2, Some(t2))) <==> MayCollide(t1, t2)
  {
    if MayCollide(t1, t2) {
      if Under(t1, t2) { Spelled(t1, t2); } else { Spelled(t2, t1); }
    } else {
      forall i1, i2 ensures FullId(i1, Some(t1)) != FullId(i2, Some(t2)) {
        if FullId(i1, Some(t1)) == FullId(i2, Some(t2)) { FullIdInjective(i1, t1, i2, t2); }
      }
    }
  }

  lemma {:induction false} Spelled(t1: string, t2: string)
    requires t1 != "" && Under(t1, t2)
    ensures FullId(t2[|t1| + 1..] + ":", Some(t1)) == FullId("", Some(t2))
  {
    assert t2 == t1 + ":" + t2[|t1| + 1..];
  }

  function Owned(keys: seq<string>, vals: map<string, IndexEntry>, tenant: string): seq<string> {
    if keys == [] then []
    else (if keys[0] in vals && vals[keys[0]].tenant == Some(tenant) then [keys[0]] else [])
         + Owned(keys[1..], vals, tenant)
  }

  function RemoveAll(entries: Entries, keys: seq<string>): Entries {
    if keys == [] then entries else Remove(RemoveAll(entries, keys[..|keys| - 1]), keys[|keys| - 1])
  }

  lemma {:induction false} OwnedMembers(keys: seq<string>, vals: map<string, IndexEntry>, tenant: string)
    ensures forall k :: k in Owned(keys, vals, tenant) <==>
              k in keys && k in vals && vals[k].tenant == Some(tenant)
  {
    if keys != [] {
      OwnedMembers(keys[1..], vals, tenant);
      forall k ensures k in keys <==> k == keys[0] || k in keys[1..] {}
    }
  }

  lemma {:induction false} RemoveAllValues(entries: Entries, keys: seq<string>)
    requires Ordered(entries)
    ensures Ordered(RemoveAll(entries, keys))
    ensures RemoveAll(entries, keys).vals == map k | k in entries.vals && k !in keys :: entries.vals[k]
  {
    if keys != [] {
      var front, last := keys[..|keys| - 1], keys[|keys| - 1];
      RemoveAllValues(entries, front);
      RemoveOrdered(RemoveAll(entries, front), last);
      assert keys == front + [last];
    }
  }

  /** What one tenant's add, delete or clear leaves as it was: every key that is not under
      its name. */
  ghost predicate OthersKept(before: Entries, after: Entries, tenant: string) {
    forall k :: k in before.vals && !Under(tenant, k) ==> k in after.vals && after.vals[k] == before.vals[k]
  }

  function ClearTenant(entries: Entries, tenant: string): Entries {
    RemoveAll(entries, Owned(entries.keys, entries.vals, tenant))
  }

  lemma {:induction false} TenantIsolation(a: Index, entries: Entries, tenant: string, itemId: string, e: IndexEntry)
    requires LiveOk(a, entries) && tenant != ""
    ensures OthersKept(entries, Put(entries, FullId(itemId, Some(tenant)), e), tenant)
    ensures OthersKept(entries, Remove(entries, FullId(itemId, Some(tenant))), tenant)
    ensures OthersKept(entries, ClearTenant(entries, tenant), tenant)
  {
    RemoveAllValues(entries, Owned(entries.keys, entries.vals, tenant));
    OwnedMembers(entries.keys, entries.vals, tenant);
    FullIdCollides(tenant, FullId(itemId, Some(tenant)));
    forall k | k in entries.vals && !Under(tenant, k) ensures entries.vals[k].tenant != Some(tenant) {
      FullIdCollides(tenant, k);
    }
  }

  /** Whose entries are always out of reach: those of tenants that cannot collide with this
      one, and untenanted entries whose id does not begin with its name and a colon. */
  lemma {:induction false} OutOfReach(a: Index, entries: Entries, tenant: string, k: string)
    requires LiveOk(a, entries) && tenant != "" && k in entries.vals
    ensures var e := entries.vals[k];
            if Given(e.tenant)
            then e.tenant.value != tenant && !MayCollide(e.tenant.value, tenant) ==> !Under(tenant, k)
            else Under(tenant, k) <==> Under(tenant, e.itemId)
  {
    var e := entries.vals[k];
    FullIdCollides(tenant, k);
    if Given(e.tenant) && e.tenant.value != tenant && !MayCollide(e.tenant.value, tenant) && Under(tenant, k) {
      var i :| FullId(i, Some(tenant)) == k;
      FullIdInjective(i, tenant, e.itemId, e.tenant.value);
    }
  }
}
