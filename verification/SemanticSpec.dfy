/** What the semantic operations read and write, as values. */
module SemanticSpec {
  import opened Options
  import opened Dicts
  import opened Policies
  import opened L1Spec
  import opened TierSpec
  import opened LayerSearch
  import opened HnswSpec
  import opened IndexSpec

  /** An answer to cache, with the sizes and the cost its entry will carry. */
  datatype Payload = Payload(response: string, textBytes: nat, dataBytes: nat, computeCost: real)

  datatype SemanticHit = SemanticHit(entry: CacheEntry, similarity: real, source: Source, isExact: bool)

  /** The boost that search_by_text gives a semantic result with the same text. */
  const BOOST := 0.05

  /** The key in the tiers is the full id of the hash in the index. */
  function CacheKey(hash: string -> string, text: string, tenant: Option<string>): string {
    FullId(hash(text), tenant)
  }

  function SemanticEntry(hash: string -> string, text: string, embedding: Vec, answer: Payload,
                         tenant: Option<string>, domain: string, now: real): CacheEntry
  {
    var e := CacheEntry(CacheKey(hash, text, tenant), text, embedding, answer.response, domain, answer.textBytes,
                        answer.dataBytes, answer.computeCost, now, now, 0, 0);
    e.(memory := Footprint(e, |embedding|))
  }

  predicate Indexes(hash: string -> string, text: string, tenant: Option<string>, e: IndexEntry) {
    e.itemId == hash(text) && e.queryText == text && e.tenant == tenant
  }

  /** A search for one result, or none when the embedding has the wrong dimension. */
  ghost predicate FoundBySearch(p: Params, a: Index, entries: Entries, embedding: Vec, threshold: real,
                                tenant: Option<string>, semantic: seq<Match>)
  {
    if |embedding| != p.dim then semantic == []
    else Retrieved(p, a, entries, embedding, 1, threshold, tenant, semantic)
  }

  /** The one result of the search by text. */
  function Best(entries: Entries, semantic: seq<Match>, norm: string -> string, text: string,
                tenant: Option<string>): seq<Ranked>
  {
    ByText(entries, semantic, norm, text, tenant, BOOST, 1)
  }

  function MatchedHit(best: Ranked, hit: Option<TierSpec.Hit>): Option<SemanticHit> {
    if hit.None? then None else Some(SemanticHit(hit.value.entry, best.score, hit.value.source, best.isExact))
  }

  function SemanticAnswer(c: TierConfig, t: Tiers, entries: Entries, semantic: seq<Match>, norm: string -> string,
                          text: string, tenant: Option<string>, now: real): Option<SemanticHit>
  {
    var best := Best(entries, semantic, norm, text, tenant);
    if best == [] then None
    else MatchedHit(best[0], Answer(c, t, FullId(best[0].itemId, tenant), None, now))
  }

  function SemanticState(c: TierConfig, t: Tiers, entries: Entries, semantic: seq<Match>, norm: string -> string,
                         text: string, tenant: Option<string>, now: real): Tiers
    requires Ordered(t.l1.entries)
  {
    var best := Best(entries, semantic, norm, text, tenant);
    if best == [] then t else Get3(c, t, FullId(best[0].itemId, tenant), None, now)
  }

  function ExactHit(hit: Option<TierSpec.Hit>): Option<SemanticHit> {
    if hit.None? then None else Some(SemanticHit(hit.value.entry, 1.0, hit.value.source, true))
  }

  function IndexAfterDelete(entries: Entries, hash: string -> string, text: string, tenant: Option<string>): Entries {
    var id := FullId(CacheKey(hash, text, tenant), tenant);
    if id in entries.vals then Remove(entries, id) else entries
  }
}
