# A verified model of the semantic cache

The repository is a semantic cache: answers are stored under the text of a question and found
again by exact text or by similarity of embeddings.  This project models the parts that carry
the logic and proves what they keep, over every input, every run and every reachable state.

* **The index** (`Sequences`, `Scores`, `LayerSearch`, `HnswSpec`, `Hnsw`, `SearchTheorems`,
  `HnswTheorems`, `InsertTheorems`, `EntryTheorems`, `TightInput`).
  `Hnsw.HnswIndex` is the layered neighbour graph with its in-place maps, its two heaps, its
  visited set, pruning and moving entry point.  Sets are iterated in an arbitrary order and the
  level of a node is random, so insertion and search are specified by relations (`Inserted`,
  `Searched`); a search is explained by a log of what it discovered.  The code departs from the
  published algorithm in several places, and the model follows the code: the result pool is a
  min-heap whose overflow pop removes the element just pushed, the queue of candidates is
  popped farthest first, insertion puts the entry point infinitely far away, and the upper
  insertion loop counts down from the id of the entry point.
* **The unified index manager** (`Dicts`, `StableSort`, `IndexSpec`, `IndexManager`,
  `OverFetchInput`): live entries over an index that never forgets a node, tenant filtering,
  over-fetching by two, exact text matches first, delete and clear.
* **The in-memory tier** (`Policies`, `L1Spec`, `L1Cache`, `EvictionTheorems`, `L1Theorems`,
  `LruTheorems`): both eviction loops, all policies, generated ids, and the text index beside
  the entries.
* **The three tiers** (`TierSpec`, `TierEffects`, `TierTheorems`, `CacheManager`): write
  strategies, tiered lookup with promotion, delete and clear, over shared tiers that may lose any
  entry at any time.
* **Several nodes** (`Cluster`): the same operations as atomic steps of nodes that share L2 and L3
  and invalidate each other through lossless message queues.
* **Semantic operations** (`SemanticSpec`, `SearchResults`, `SemanticTheorems`, `SemanticRuns`):
  put, get and delete by text, and runs over tiers and index together.
* **Metrics, embeddings, tenants** (`Reals`, `Similarity`, `Embedding`, `TenancySpec`,
  `Tenants`).

Each class is proved against functions or relations on values; the theorems are about those.
In particular every index that `UnifiedIndexManager` ever holds is one that a run of insertions
builds (`Built`), which is what the theorems about the index assume.
Scores are exact reals and a similarity is any function, so nothing depends on a metric unless a
theorem says so.

Where the code and its own documentation disagree, the model follows the code:

* The adaptive policy is documented to prefer keeping recent and frequent entries; its ranks are
  inverted and it evicts the entry with the largest ranks (`AdaptiveMaximisesRank`,
  `AdaptiveTakesTheRecent`).
* `put` of the L1 cache is documented to store its entry; a full LFU cache of used entries evicts it
  at once and reports success (`LfuRefusesNew`).
* `CacheManager.clear` is documented to return whether it succeeded; it returns None, because the
  L1 cache returns nothing and comes first in the conjunction (`TieredCacheManager.Clear`).
* `CacheManager.delete` reports success only if every configured tier held the entry
  (`TieredCacheManager.Delete`).
* Tiered lookup is meant to return current data; under L2_ONLY with promotion it does not, and
  with L3 a delete or clear that names another tenant than the row's leaves the row to be answered
  (`NeverStaleIff`, `DeleteSkipsOtherTenant`, `DeletedRowAnswers`, `ClearedRowAnswers`).
* `delete_semantic` is documented to delete from the index too; for a tenant it does not
  (`DeletedStaysIndexed`, `DeletedHidesOthers`).
* Storing for a tenant whose name begins with "q_" stores under another key, unless L2 alone is
  written (`QTenantNeverReads`).
* Untenanted exact matching finds a tenant's text and then looks it up under the wrong id; it is
  missed, or another entry is reported as exact (`UntenantedExactMissed`, `WrongTextReported`).
* Over-fetching by two is meant to make up for filtering; with more than k of the first 2k
  filtered out, eligible items behind them are lost (`OverFetchIff`, `LoseTheBest`).
* Full ids are meant to isolate tenants; tenants of which one name begins with the other and a
  colon share ids (`TenantsCollideIff`).
* The index is meant to be searched by walking its graph; the walk ends after the entry point
  unless its neighbours are all at the least distance (`OneExpansionIff`, `SearchIsLocal`), and the
  neighbours of the entry point freeze once there are 2*max_m of them: later items of no higher
  level are indexed and never found (`InsertedFreezes`, `OnlyFirstItems`, `FewAreFindable`).
* A deleted key can come back through `sync_l1_to_l2` (`DeleteIsSafe`, `SyncRevivesIff`).
* A shared text hides a resident entry from lookup by text (`SharedTextHides`, `AddedInverse`).
* Cached embeddings ignore the normalise setting (`MixedSettings`, `MixedGoesWrong`).
* The batch inner product accepts vectors of different dimensions (`ZippedAcceptsMismatch`).

## Model

| member | source | states |
|---|---|---|
| Scores.InsertNearest | src/similarity/index.py:257-262 | Pushing a score nearer than all others and popping the head of the min-heap leaves the heap as it was: an overflow pop removes the element just pushed |
| LayerSearch.PushPool | src/similarity/index.py:255-262 | One more discovery changes the pool as the code does exactly when it is nearer than the head or there is room; the pool stays the first nodes discovered, sorted |
| LayerSearch.PopQueue | src/similarity/index.py:241-245 | The popped candidate is the farthest waiting node and the queue then holds exactly the others |
| SearchTheorems.EntryExpanded | src/similarity/index.py:236-262 | A search from one entry point always expands it first: all its neighbours are discovered, and before anything else |
| SearchTheorems.DescentStays | src/similarity/index.py:195-197 | The greedy way down never moves: with ef 1 the pool is the entry point that went in |
| SearchTheorems.PoolMembers | src/similarity/index.py:213-264 | The pool is exactly the first min(ef, discovered) nodes discovered, in ascending distance; it never loses one |
| SearchTheorems.PoolSound | src/similarity/index.py:254-259 | Every pool entry is a stored node at its true distance, or an entry point |
| SearchTheorems.PoolDistinct | src/similarity/index.py:250-252 | No node is twice in the pool |
| SearchTheorems.PoolRecall | src/similarity/index.py:213-264 | When the pool has room for a full neighbour list, its i-th entry is at least as near as the i-th best of the entry point and its neighbours |
| SearchTheorems.OneExpansionIff | src/similarity/index.py:236-262 | When the pool has room for a full neighbour list, a search expands its entry point alone if and only if that has no neighbour or some neighbour is farther than the nearest node around the entry point |
| SearchTheorems.OneExpansionPool | src/similarity/index.py:213-264 | The pool is then exactly the entry point and its neighbours, in ascending distance |
| Hnsw.HnswIndex.SearchLayer | src/similarity/index.py:213-264 | The loop over the two heaps halts and returns the pool of a finished search, whatever the graph |
| Hnsw.HnswIndex.Visit | src/similarity/index.py:250-262 | A newly discovered node enters pool and queue by the code's test, and is marked visited |
| Hnsw.HnswIndex.PruneNeighbors | src/similarity/index.py:274-294 | Exactly m neighbours are kept, none farther from the node than one that is dropped |
| Hnsw.HnswIndex.LinkNeighbor | src/similarity/index.py:138-152 | Adds the edge both ways, prunes only the far end and only when it is over-full, touches no other neighbour set |
| Hnsw.HnswIndex.LinkLayer | src/similarity/index.py:131-152 | Connects the new node on one layer to the best of a search from the entry point and leaves the other layers alone |
| Hnsw.HnswIndex.InsertNode | src/similarity/index.py:121-156 | Rewires exactly the layers up to the smaller of both levels; the entry point moves to a strictly higher node only |
| Hnsw.HnswIndex.Insert | src/similarity/index.py:86-119 | Refuses a wrong dimension and a known id without any change; otherwise the item is inserted and the graph invariant kept |
| Hnsw.HnswIndex.DescendTo | src/similarity/index.py:126-128 | The descent through the upper layers returns what it was given |
| Hnsw.HnswIndex.Search | src/similarity/index.py:158-211 | Refuses a wrong dimension; otherwise returns the k best of the pool of a layer-0 search with ef or k |
| Hnsw.HnswIndex.TopK | src/similarity/index.py:202-211 | Popping the heap k times yields the k best with their similarities, best first |
| HnswTheorems.InsertedKeepsWellFormed | src/similarity/index.py:86-156 | Every insert keeps: ids distinct, edges between different existing nodes that reach the layer, out-degree at most m, or 2*max_m on layer 0, entry point of maximum level |
| HnswTheorems.BuiltWellFormed | src/similarity/index.py:86-156 | The graph invariant holds in every index that any run of inserts can build, which stores exactly the items inserted |
| HnswTheorems.InsertedKeepsComplete | src/similarity/index.py:130-152 | While there are at most 2*max_m other nodes and at most ef, an insert keeps layer 0 a complete graph |
| HnswTheorems.BuiltComplete | src/similarity/index.py:86-156 | Over every run of inserts of that size, in any order and at any levels, layer 0 is complete |
| InsertTheorems.InsertedLists | src/similarity/index.py:130-152 | Of every insertion, told by the neighbour lists before and after: the neighbours of the new node get it as a neighbour and, when they then have more than their limit, lose only the least similar ones; no other list changes, and none above the lower of both levels |
| InsertTheorems.LinkedUpToTop | src/similarity/index.py:130-152 | The new node has neighbours on exactly the layers up to the lower of its level and the entry point's |
| InsertTheorems.NearestAreChosen | src/similarity/index.py:131-136 | With room for the neighbours of the entry point, none of them is more similar to the new item than a neighbour chosen instead |
| InsertTheorems.BuiltDegrees | src/similarity/index.py:144-152 | In every index that insertions can build, at most 2*max_m neighbours on layer 0 and at most m on any other |
| HnswTheorems.CompleteExact | src/similarity/index.py:158-211 | Over a complete layer 0 every search with room for all nodes is the brute-force scan |
| InsertTheorems.EffortCounts | src/similarity/index.py:158-211 | An ef given by the caller replaces the default unless it is zero: with room for all nodes under it the search of a complete layer is the scan |
| HnswTheorems.SmallIndexExact | src/similarity/index.py:86-264 | Small-index exactness: with at most 2*max_m+1 and at most ef items, search equals the first k of the scan by descending similarity, ties by insertion order |
| HnswTheorems.SearchSound | src/similarity/index.py:158-211 | Every search of every reachable index returns at most k distinct stored ids with their true similarities in descending order, and something when there is something |
| HnswTheorems.SearchRecall | src/similarity/index.py:158-264 | At any size, with 2*max_m+1 at most the pool size, the i-th result is at least as similar as the i-th best of the entry point and its layer-0 neighbours |
| HnswTheorems.SearchIsLocal | src/similarity/index.py:158-264 | At any size, with 2*max_m+1 at most the pool size and neighbours not all at the least distance, the results are exactly the k best of the entry point and its layer-0 neighbours: nothing else is ever searched |
| EntryTheorems.ChoosesOthers | src/similarity/index.py:126-152 | With ef above 2*max_m, once the entry point has 2*max_m layer-0 neighbours, an insertion chooses 2*max_m neighbours and never the entry point, which its search puts infinitely far away |
| EntryTheorems.InsertedFreezes | src/similarity/index.py:86-156 | Freezing, under the same conditions: every insertion either leaves the entry point and its neighbours as they are, or, at a higher level, makes the new node an entry point with as many |
| EntryTheorems.BuiltFull | src/similarity/index.py:86-156 | With ef above 2*max_m, over every run of more than 2*max_m insertions the entry point has exactly 2*max_m layer-0 neighbours |
| EntryTheorems.GrownUnmoved | src/similarity/index.py:86-156 | With ef above 2*max_m, from an entry point with 2*max_m neighbours, over every run of insertions at no higher level, entry point and neighbours stay the same |
| EntryTheorems.GrownSearch | src/similarity/index.py:158-264 | After such a run every search returns the k best of what surrounded the entry point before it, in an uneven neighbourhood |
| EntryTheorems.OnlyFirstItems | src/similarity/index.py:86-264 | With ef above 2*max_m, however many items of no higher level follow the first 2*max_m+1, every search that tells those apart is the brute-force scan of those first ones alone |
| EntryTheorems.FewAreFindable | src/similarity/index.py:86-264 | With ef above 2*max_m, in every index of any larger size that insertions can build, 2*max_m+1 items are all that searches in an uneven neighbourhood ever return, however many results are asked for |
| EntryTheorems.BoundIsTight | src/similarity/index.py:86-264 | The bound of small-index exactness is tight, for ef above 2*max_m: with 2*max_m+2 items, the last the most similar and at no higher level, search is not the scan |
| TightInput.OneTooMany | src/similarity/index.py:86-211 | For every m, max_m and larger ef the index itself, built by its own insertions, answers with the scan at 2*max_m+1 items and not with it at 2*max_m+2 |
| StableSort.FirstStaysFirst | src/cache/index_manager.py:310-313 | A stable sort leaves the first element first when no other key is strictly smaller |
| StableSort.SortByStable | src/cache/index_manager.py:310-313 | Items with equal keys keep their order |
| IndexSpec.KeepSound | src/cache/index_manager.py:233-251 | Every kept result is the live entry of a hit at or above the threshold that passes the filter, with the similarity the index reported |
| SearchResults.KeptIsVisible | src/cache/index_manager.py:233-251 | With a tenant, every result of the filter is an entry of that tenant; all are live and at or above the threshold |
| SearchResults.VisibleIsKept | src/cache/index_manager.py:233-251 | Every hit of a live entry at or above the threshold, of the tenant if one is given, is kept |
| SearchResults.FoundAreVisible | src/cache/index_manager.py:193-257 | Every result of a search over any well-formed index is a live entry, of the tenant if one is given, at its true similarity and at or above the threshold; at most k, best first |
| SearchResults.VisibleIsFound | src/cache/index_manager.py:193-257 | On a small index of at most 2k items every live entry at or above the threshold, of the tenant if one is given, is returned, or k that are as similar |
| IndexSpec.OverFetch | src/cache/index_manager.py:226-253 | Filtering the first 2k of a descending list and taking k equals filtering all of it, when at most k of those 2k cannot be returned |
| IndexSpec.OverFetchSuffices | src/cache/index_manager.py:193-257 | On a small index with at most k ineligible items, a search returns exactly the k best eligible items at or above the threshold |
| IndexSpec.OverFetchIff | src/cache/index_manager.py:229-251 | For every descending list and every k > 0: filtering the first 2k and taking k equals filtering everything if and only if at most k of those 2k cannot be returned, or nothing behind them can |
| IndexSpec.OverFetchExactly | src/cache/index_manager.py:193-257 | The same for the search of every small index that insertions can build: it returns exactly the k best eligible items at or above the threshold if and only if that holds of the scan of the index |
| OverFetchInput.TwoMissesLose | src/cache/index_manager.py:226-253 | On a built index of three items with the two nearest deleted, a search for one result returns nothing although the third is eligible and above the threshold |
| OverFetchInput.LoseTheBest | src/cache/index_manager.py:122-350 | The manager's own add, delete and search calls produce that index and that empty result |
| IndexSpec.ByTextSound | src/cache/index_manager.py:259-313 | A search by text returns at most k results with distinct item ids in descending score |
| SearchResults.TextResultIsReported | src/cache/index_manager.py:293-313 | Every result of a search by text is the exact match with score 1.0, or a semantic result with its own similarity if its text is another and 0.05 more, at most 1.0, and marked exact if it is the text |
| SearchResults.NoneIsLost | src/cache/index_manager.py:301-309 | The item id of every semantic result is reported once, seen before or not |
| SearchResults.LeftOutIsWorse | src/cache/index_manager.py:310-313 | What the cut at k leaves out scores no higher than the k results |
| IndexSpec.ExactFound | src/cache/index_manager.py:293-299 | With a tenant or without: an exact match is reported if and only if a live entry has the text, the first such entry has a non-empty item id, and that entry is looked up under its own id or its item id is itself a live key |
| IndexSpec.ReportedIsMatched | src/cache/index_manager.py:293-299 | The entry reported as exact, with score 1.0, is the matching entry itself if and only if a tenant was given or the entry belongs to none |
| SearchResults.ExactIsTenants | src/cache/index_manager.py:293-324 | With a tenant, the entry reported as exact is that tenant's own live entry and has the text |
| IndexSpec.ExactComesFirst | src/cache/index_manager.py:290-313 | When no similarity exceeds 1 the exact match is the first result, with score 1.0 |
| IndexSpec.UntenantedExactMissed | src/cache/index_manager.py:295-299 | Without a tenant, when the first live entry with the text belongs to a tenant: nothing is reported if its item id is no live key, and otherwise the entry under that key, as an exact match of score 1.0 |
| IndexSpec.WrongTextReported | src/cache/index_manager.py:293-299 | With live keys "t:h" and "h" of different texts, the text of the first is answered with the entry of the second as an exact match |
| IndexSpec.FullIdInjective | src/cache/index_manager.py:431-435 | Full ids of non-empty tenants, of which neither name begins with the other and a colon, determine both tenant and item |
| IndexSpec.FullIdCollides | src/cache/index_manager.py:431-435 | A key is the full id of some item of the tenant if and only if it begins with the tenant's name and a colon, so untenanted items can take such a key |
| IndexSpec.TenantsCollideIff | src/cache/index_manager.py:431-435 | Two different non-empty tenants have a full id in common if and only if one name begins with the other and a colon |
| IndexSpec.TenantIsolation | src/cache/index_manager.py:122-387 | Add, delete and clear of one tenant leave every entry unchanged whose key does not begin with its name and a colon, whatever the names of the other tenants |
| IndexSpec.OutOfReach | src/cache/index_manager.py:431-435 | Those are all entries of tenants that cannot collide with it, and exactly the untenanted entries whose item id does not begin so |
| IndexSpec.LivePut | src/cache/index_manager.py:155-182 | Adding keeps: every live key is indexed and is the full id of its entry |
| IndexManager.UnifiedIndexManager.Add | src/cache/index_manager.py:122-191 | Refuses a wrong dimension; refreshes the entry of an indexed id and keeps its first embedding; otherwise inserts |
| IndexManager.UnifiedIndexManager.Search | src/cache/index_manager.py:193-257 | Nothing for a wrong dimension; otherwise the filtered first 2k of an index search, at most k of them |
| IndexManager.UnifiedIndexManager.Filter | src/cache/index_manager.py:233-253 | The loop with its early exit computes the first k survivors of threshold and tenant filter |
| IndexManager.UnifiedIndexManager.FindExactMatch | src/cache/index_manager.py:315-324 | Finds the first live entry, in insertion order, with this text and tenant |
| IndexManager.UnifiedIndexManager.SearchByText | src/cache/index_manager.py:259-313 | The exact match, then unseen semantic results, stably sorted by score, cut at k |
| IndexManager.UnifiedIndexManager.Delete | src/cache/index_manager.py:326-350 | Forgets exactly that entry; the index keeps its node |
| IndexManager.UnifiedIndexManager.Clear | src/cache/index_manager.py:352-387 | Without a tenant everything and a fresh index, with a tenant exactly its entries; returns how many |
| Policies.SelectVictim | src/cache/policies.py:31-47 | For every policy: a resident id, and none exactly when the cache is empty |
| Policies.VictimIsLeast | src/cache/policies.py:31-173 | The victim is expired when the TTL policy finds an expired entry; otherwise no resident entry has a smaller key under the policy, where EvictionTheorems.VictimGoesFirst says what the keys mean |
| EvictionTheorems.VictimGoesFirst | src/cache/policies.py:31-173 | By the fields of the entries: the victim was used longest ago under LRU, has fewest accesses and among those the oldest creation under LFU, the oldest creation under FIFO, is too old or else was used longest ago under TTL, and under the cost-aware policy has the least of half its cost plus 30 for each access minus a fifth of its idle seconds |
| EvictionTheorems.EarliestOfEquals | src/cache/policies.py:31-173 | Under every policy but the adaptive one, whoever was inserted before the victim would have to go strictly later |
| EvictionTheorems.PutEvictsInOrder | src/cache/l1_cache.py:97-201 | Over all evictions of a put, for memory and for size: no entry that goes would have had to stay longer than an old entry that stays |
| EvictionTheorems.FitMemoryMinimal | src/cache/l1_cache.py:97-115 | The last entry evicted for memory had to go: with it the new one did not fit |
| EvictionTheorems.OneVictimSuffices | src/cache/l1_cache.py:97-115 | When evicting the victim makes room, every other entry stays as it was |
| EvictionTheorems.FitMemoryIff | src/cache/l1_cache.py:97-115 | Nothing is evicted for memory if and only if the new entry fits or the cache is empty |
| EvictionTheorems.FitSizeExactly | src/cache/l1_cache.py:117-126 | The size limit leaves exactly as many entries as it allows |
| EvictionTheorems.PutWithRoom | src/cache/l1_cache.py:162-201 | A put with room changes no other entry and stores the new one under its id with every field as given and its size in bytes |
| EvictionTheorems.PutEvictsVictim | src/cache/l1_cache.py:97-201 | A put that does not fit beside what is resident evicts the victim, even when its entry replaces one of the same id |
| EvictionTheorems.FullPutEvictsOne | src/cache/l1_cache.py:117-201 | A put into a full cache evicts exactly one of the old entries and the new one, whichever goes first by its fields |
| EvictionTheorems.LfuRefusesNew | src/cache/policies.py:62-89 | A full LFU cache of entries that have all been used evicts every unused new entry at once, and stays as it was |
| EvictionTheorems.GetRecordsAccess | src/cache/l1_cache.py:203-227 | A get of an entry in time sets its access time and counts one access, of an expired one removes it, and changes no other entry |
| Policies.SelectAdaptive | src/cache/policies.py:209-249 | The minimum-tracking loop of the adaptive policy picks the first entry of least score |
| Policies.AdaptiveMaximisesRank | src/cache/policies.py:220-247 | The victim of the adaptive policy has the largest weighted sum of recency and frequency ranks of all resident entries |
| Policies.AdaptiveTakesTheRecent | src/cache/policies.py:220-247 | Whatever the store: an entry that is both the most recent and the most frequent is the adaptive policy's victim, for any weights that are not negative and not both zero |
| L1Cache.Cache.EvictEntry | src/cache/l1_cache.py:128-160 | Removes the entry and whatever the text index says about its text |
| L1Cache.Cache.CheckMemoryLimit | src/cache/l1_cache.py:97-115 | The loop halts; it evicts victims until the new entry fits or nothing is left |
| L1Cache.Cache.CheckSizeLimit | src/cache/l1_cache.py:117-126 | The loop halts; it evicts victims down to max_size |
| L1Cache.Cache.Put | src/cache/l1_cache.py:162-201 | Memory eviction, id generation, storing, text index, size eviction, in this order; what the entry becomes |
| L1Cache.Cache.Get | src/cache/l1_cache.py:203-227 | A resident unexpired entry with its access recorded; an expired one is evicted |
| L1Cache.Cache.FindExactMatch | src/cache/l1_cache.py:273-293 | The id that the text index names, if it is resident and unexpired |
| L1Cache.Cache.Delete | src/cache/l1_cache.py:358-372 | Reports whether the id was resident and evicts exactly it |
| L1Cache.Cache.Clear | src/cache/l1_cache.py:374-379 | Empties entries and text index; the id counter goes on |
| L1Spec.DecimalInjective | src/cache/l1_cache.py:87-91 | Different counters give different ids |
| L1Theorems.PutWithinCapacity | src/cache/l1_cache.py:97-201 | After every put, for every policy: at most max_size entries and memory at most the limit or the new entry alone |
| L1Theorems.StepKeysOk | src/cache/l1_cache.py:162-379 | Every operation keeps: an entry is stored under its own id, and a resident "q_" id was generated before |
| L1Theorems.GeneratedIdsNeverCollide | src/cache/l1_cache.py:87-91 | Over every run, the next generated id is not resident |
| L1Theorems.AddedInverse | src/cache/l1_cache.py:185-190 | Storing an entry keeps the text index the exact inverse of the entries if and only if its id and text belong together |
| L1Theorems.FindExactIff | src/cache/l1_cache.py:273-293 | While the text index is exact, a text is found if and only if exact matching is on and an unexpired entry with it is resident |
| L1Theorems.RunInverse | src/cache/l1_cache.py:128-293 | Over every run of put, evict, expire, delete and clear in which the ids under which entries are stored, generated ones included, and the texts are one to one, the text index is exactly the inverse of the entries |
| L1Theorems.SharedTextHides | src/cache/l1_cache.py:144-147 | In any state, of two resident ids with one text, evicting either hides the other from lookup by text |
| LruTheorems.LruRefinesList | src/cache/policies.py:31-47 | Over every run with an increasing clock in which no put must free memory, of any length, with any ttl and with generated ids, the residents ordered by stamp are the list of the textbook LRU cache, which drops an id whose get comes too late |
| LruTheorems.LruInclusion | src/cache/l1_cache.py:117-227 | On a run in which no put must free memory in the larger cache, with any ttl, what the smaller LRU cache keeps is kept, with equal stamps, by the larger |
| LruTheorems.HitsGrow | src/cache/l1_cache.py:203-227 | On such a run hits never drop as the capacity grows |
| LruTheorems.LruKeepsLatest | src/cache/policies.py:31-47 | Over every such run of puts and gets in which no get finds its id expired, the residents are exactly the max_size ids with the latest touches |
| L1Theorems.PutSubset | src/cache/l1_cache.py:162-201 | After a put, L1 holds old entries as they were and possibly the new one |
| TierTheorems.TierStepAgrees | src/cache/cache_manager.py:248-441 | Every operation, and every loss of an entry, keeps: any tier holding a key holds the response of its last put |
| TierTheorems.TierRunAgrees | src/cache/cache_manager.py:248-441 | The same over every run from empty tiers, against the map of last puts in which a delete counts once it reaches the row and a clear once it clears everything |
| TierEffects.PutWritesL2 | src/cache/cache_manager.py:268-296 | Under WRITE_THROUGH and WRITE_BACK a put writes L2 under the entry's id with its text, embedding, answer, times and counts, and no other key |
| TierEffects.PutWritesL3 | src/cache/l3_cache.py:276-333 | It writes a row: a new one belongs to the tenant of the put, an existing one takes over answer and metadata only; no other row changes |
| TierEffects.PutWritesL1 | src/cache/cache_manager.py:266-304 | Under every strategy but L2_ONLY a put with room is resident in L1 with every field |
| TierEffects.PutElsewhere | src/cache/cache_manager.py:298-309 | L1_ONLY leaves L2 and L3 alone; L2_ONLY writes L2 alone, and without L2 the put fails and changes nothing |
| TierEffects.OthersReadL2 | src/cache/cache_manager.py:248-356 | What one node puts under WRITE_THROUGH or WRITE_BACK, every node whose L1 lacks it reads from L2 |
| TierEffects.OthersReadL3 | src/cache/cache_manager.py:248-386 | Where L2 has lost it or does not exist it is read from L3, unless another tenant's row is asked for |
| TierEffects.WhoAnswers | src/cache/cache_manager.py:316-386 | The first of L1 in time, L2 and L3 with a visible row, of the tenant if one is given, answers with what it holds; otherwise nothing does |
| TierEffects.PromotedFromL2 | src/cache/cache_manager.py:337-353 | A promoted hit of L2 is in L1 afterwards, if that has room, and no other entry changes |
| TierEffects.PromotedFromL3 | src/cache/cache_manager.py:355-379 | A promoted hit of L3 is in L1, if that has room, and in L2 afterwards, and its row counts one more hit |
| TierEffects.SecondGetFromL1 | src/cache/cache_manager.py:316-386 | The next get of it in time is answered by L1 |
| TierEffects.NothingCopied | src/cache/cache_manager.py:316-386 | A hit in L1, a miss and a hit that is not promoted copy nothing; a row that answers counts one more hit |
| TierEffects.DeleteRemoves | src/cache/cache_manager.py:388-414 | A delete removes its id from L1 and L2 and its row unless that is another tenant's, and touches nothing else |
| TierEffects.HeldByAllIff | src/cache/cache_manager.py:388-414 | It reports success if and only if it changes every configured tier |
| TierEffects.ClearRemoves | src/cache/cache_manager.py:416-441 | A clear empties L1 and L2 and removes exactly the rows of the tenant, or all |
| TierTheorems.ReachingRunAgrees | src/cache/cache_manager.py:248-441 | Over every run whose deletes and clears reach the rows they are meant for: any tier that holds a key holds the response of its last put since its last delete or clear, a map that depends on the operations alone |
| TierTheorems.AgreementIsFresh | src/cache/cache_manager.py:316-386 | Unless writes are confined to an L2 whose hits are copied to an L1 of size at least 1, a lookup answers with the response of the last put since the last delete that reached the row, or with nothing |
| TierTheorems.L2OnlyGoesStale | src/cache/cache_manager.py:307-356 | Under L2_ONLY with promotion, put, get, put, get answers with the first response, whatever the ttl |
| TierTheorems.NeverStaleIff | src/cache/cache_manager.py:248-441 | Over all runs a lookup answers with the response of the last put since the last delete or clear, or with nothing, if and only if writes are not confined to an L2 whose hits are copied to L1, and no strategy in use writes rows to L3 |
| TierTheorems.NeverStaleIfReachedIff | src/cache/cache_manager.py:248-441 | Over the runs whose deletes and clears reach their rows the first condition alone is exact |
| TierTheorems.DeletedRowAnswers | src/cache/l3_cache.py:395-420 | With L3, under WRITE_THROUGH or WRITE_BACK: put for one tenant and delete for another, and the deleted response is answered |
| TierTheorems.ClearedRowAnswers | src/cache/l3_cache.py:276-333 | A key put for one tenant and again for another survives the clear of the second with its response, because the row keeps the first tenant |
| TierTheorems.DeleteSkipsOtherTenant | src/cache/l3_cache.py:395-420 | After a delete a lookup answers if and only if a visible row that it may see belongs to another tenant than the delete names, and then with that row's response |
| TierTheorems.ClearSkipsOtherTenants | src/cache/cache_manager.py:416-441 | After a clear a lookup answers if and only if a visible row that it may see belongs to another tenant than the clear names |
| CacheManager.Tallied | src/cache/cache_manager.py:76-93 | Every request is counted once, as a hit of one tier or a miss, and promotions never exceed the hits of their tier |
| CacheManager.CountsTheTier | src/cache/cache_manager.py:76-93 | Each lookup adds one request and one hit of the tier that answered or one miss, and one promotion exactly when the hit is copied |
| CacheManager.TieredCacheManager.Initialize | src/cache/cache_manager.py:206-247 | Afterwards the manager is initialised over the shared tiers that could be reached, L1 untouched |
| CacheManager.TieredCacheManager.Put | src/cache/cache_manager.py:248-314 | Writes exactly the tiers of the strategy, the lower ones with the entry as L1 stamped it; fails only uninitialised or under L2_ONLY without L2 |
| CacheManager.TieredCacheManager.Get | src/cache/cache_manager.py:316-386 | The first tier that holds the key answers, its hit is copied upwards as configured; the counters say which tier it was |
| CacheManager.TieredCacheManager.Delete | src/cache/cache_manager.py:388-414 | Deletes in all tiers, publishes the key if there is an L2, and reports whether every configured tier held it |
| CacheManager.TieredCacheManager.Clear | src/cache/cache_manager.py:416-441 | Clears L1 and L2, in L3 the tenant's rows or all, publishes a flush, and returns None |
| CacheManager.TieredCacheManager.SyncL1ToL2 | src/cache/cache_manager.py:443-467 | Writes the L1 entries to L2 one after the other, skipping the expired |
| Cluster.PushUpExactly | src/cache/cache_manager.py:443-467 | Afterwards a key is in L2 if and only if it was there or L1 holds it unexpired, with the L1 entry as sent over the wire in the latter case and unchanged in the former |
| CacheManager.TieredCacheManager.SyncL2ToL1 | src/cache/cache_manager.py:469-497 | Puts the L2 entries into L1 in scan order; without an L2 nothing changes |
| CacheManager.TieredCacheManager.Receive | src/cache/cache_manager.py:616-622 | A flush message clears L1, any other evicts that key |
| CacheManager.TieredCacheManager.PutSemantic | src/cache/cache_manager.py:793-862 | Stores under the hashed key in the tiers and, if that worked and the dimension is right, makes the text's entry live in the index |
| CacheManager.TieredCacheManager.GetSemantic | src/cache/cache_manager.py:638-751 | Looks up the key of the best result by text in the tiers, with the domain from the caller or the classifier and the threshold from the caller, the adaptive manager or the index; without an index manager, the text itself |
| CacheManager.TieredCacheManager.DeleteSemantic | src/cache/cache_manager.py:981-1004 | Deletes the key in the tiers, and in the index the key prefixed with the tenant once more |
| Cluster.NextConsistent | src/cache/cache_manager.py:248-632 | Every step of every node keeps all tiers storing entries under their own ids |
| Cluster.NextGone | src/cache/cache_manager.py:388-632 | Every step that stores nothing under a deleted key keeps it gone, each node waiting for its own invalidation, if and only if it is no sync_l1_to_l2 of a node that holds the key unexpired |
| Cluster.DeleteIsSafe | src/cache/cache_manager.py:388-467 | After a delete, over every later run of all nodes that does not store the key again, the key stays out of L2, L3 and the L1 of every node that has consumed the invalidation, if and only if the delete reaches the row and no sync_l1_to_l2 is taken by a node that still holds the key unexpired |
| Cluster.ClearIsSafe | src/cache/cache_manager.py:416-467 | After a clear, over every later run that does not store a key again, the key stays out of L2, L3 and the L1 of every node that has consumed the flush, if and only if no row of it is another tenant's than the clear names and no sync_l1_to_l2 is taken by a node that still holds it unexpired |
| Cluster.MessagesReachAll | src/cache/cache_manager.py:594-632 | A delete sends its key and a clear a flush to the end of every node's queue; nothing else sends, and no other node's L1 is touched |
| Cluster.ReceivedOnly | src/cache/cache_manager.py:616-622 | A message takes exactly its key out of L1, a flush everything |
| Cluster.PulledIn | src/cache/cache_manager.py:469-497 | With room for all, sync_l2_to_l1 leaves L1 with what it held and with exactly the scanned keys that L2 holds, as L2 holds them |
| Cluster.PlainSpared | src/cache/cache_manager.py:248-632 | For a key that the cache never generates, a run stores it again only by putting it |
| Cluster.ConsumedNeverRevives | src/cache/cache_manager.py:616-622 | A node that has consumed the invalidation cannot bring the key back by sync_l1_to_l2 |
| Cluster.SyncRevivesIff | src/cache/cache_manager.py:443-467 | sync_l1_to_l2 brings a key that L2 lacks back if and only if that node's L1 holds it unexpired |
| SemanticTheorems.CosineAtMostOne | src/similarity/base.py:143-157 | The default metric meets the bound on similarities that the semantic theorems use |
| SemanticTheorems.FoundAtMostOne | src/cache/index_manager.py:193-257 | Under such a metric every semantic result, from any index and for any embedding, has similarity at most 1 |
| SemanticTheorems.OwnKeyIff | src/cache/cache_manager.py:701-719 | With a tenant or without: the text of a live key is looked up under that key if and only if the first live entry with the text has its item id, or, where that entry is not reported, the semantic result has it |
| SearchResults.SimilarIsReported | src/cache/cache_manager.py:701-740 | A lookup that finds only a similar text answers with what the tiers hold under its key and from where, with its own similarity and not as exact; the same text, indexed but not reported itself, counts 0.05 more, at most 1.0, and as exact |
| SearchResults.ExactIsReported | src/cache/cache_manager.py:701-740 | An exact match is answered with what the tiers hold under its key and from where, similarity 1.0 |
| SearchResults.NothingIsReported | src/cache/cache_manager.py:742-746 | With nothing found, nothing is answered and no tier touched |
| SearchResults.SemanticIsStored | src/cache/cache_manager.py:824-843 | With room, put_semantic leaves in L1 under its hashed key the text, embedding, domain and answer, as created now and never used |
| SemanticTheorems.LookedUpIs | src/cache/cache_manager.py:701-719 | The key that get_semantic looks up, in every case: from the first live entry with the text, else from the semantic result, else none |
| SemanticTheorems.TenantKeyIff | src/cache/cache_manager.py:701-719 | With a tenant: under its own key if and only if no entry stored before it has the same text after lower and strip |
| SemanticTheorems.SemanticReportsTheText | src/cache/cache_manager.py:824-856 | With hashes free of colons that do not collide on live texts, the entry that put_semantic indexed and that is reported as exact carries the text, with a tenant or without |
| SemanticTheorems.ReadYourWrite | src/cache/cache_manager.py:638-862 | For any history of the tiers and any live entries: a put of a text, any steps that do not put its key again, deletes and clears among them, and the entry the first with its text; get_semantic answers if and only if some tier holds the key, with that response, exact, similarity 1.0, whatever index, embedding and threshold |
| SemanticRuns.SemanticReadYourWrite | src/cache/cache_manager.py:638-1004 | Semantic read-your-write over one history of tiers and index together, with puts, gets and deletes by text, deletes, clears and losses: after a put_semantic that succeeds and steps that neither put its key again nor make the index forget it, if nothing was put under a text that counts as the same, get_semantic in any spelling of the text answers if and only if some tier holds the key, with that response, exact, similarity 1.0 |
| SemanticRuns.NextSound | src/cache/cache_manager.py:638-1004 | Every such operation keeps the index well-formed and every live entry indexed under the full id of the hash of its text |
| SemanticTheorems.IndexedIsFirst | src/cache/cache_manager.py:845-856 | Indexing a text makes its entry the first with that text unless another live entry has it |
| SemanticTheorems.DeletedStaysIndexed | src/cache/cache_manager.py:981-1004 | After delete_semantic of a live text the tiers hold its key no more, and its index entry stays live, unchanged, if and only if a tenant was given |
| SearchResults.OthersStayIndexed | src/cache/cache_manager.py:981-1004 | delete_semantic takes nothing out of the index but the entry under the hashed key, prefixed twice for a tenant |
| SemanticTheorems.DeletedHidesOthers | src/cache/cache_manager.py:981-1004 | A tenant's deleted text, if its entry came first, is then answered with nothing even when other entries are similar |
| SemanticTheorems.RenamedNeverHeld | src/cache/l1_cache.py:181-186 | Outside L2_ONLY, over every run, no tier ever holds a key that looks generated but is not |
| SemanticTheorems.QTenantNeverReads | src/cache/cache_manager.py:824-843 | For a tenant whose name begins with "q_", nothing stored by put_semantic is ever found under its key, if and only if writes are not confined to an existing L2 |
| Similarity.CauchySchwarz | src/similarity/base.py:147-157 | The squared dot product is at most the product of the squared norms, in every dimension |
| Similarity.CosineInRange | src/similarity/base.py:143-157 | Cosine similarity is defined exactly for non-empty vectors of equal dimension and lies in [-1, 1], zero norms included |
| Similarity.CosineScale | src/similarity/base.py:143-157 | Stretching a vector does not change its cosine similarity to any other |
| Similarity.CosineSelf | src/similarity/base.py:129-137 | 1 for a non-zero vector and itself, -1 for it and its opposite |
| Similarity.CosineBatch | src/similarity/base.py:159-188 | The batch form equals the single form at every position where that is defined and is 0.0 where it refuses |
| Similarity.DistancesOrdered | src/similarity/base.py:206-323 | Chebyshev distance is at most Euclidean, Euclidean at most Manhattan; zero exactly for equal vectors |
| Similarity.NearnessOrdered | src/similarity/base.py:206-323 | The three distance-based similarities lie in (0, 1], are 1 exactly for equal vectors, and are always ordered |
| Similarity.DistanceBack | src/similarity/base.py:263-323 | One more coordinate adds its difference to the Manhattan distance and counts in the Chebyshev distance if it is the largest |
| Similarity.EuclideanBack | src/similarity/base.py:195-230 | The square of the Euclidean distance grows by the square of the difference |
| Similarity.CosineIs | src/similarity/base.py:143-157 | Cosine similarity times both norms is the dot product; it is zero where a norm is |
| Similarity.ZippedAgrees | src/similarity/base.py:244-261 | The batch inner product equals the single form wherever that is defined |
| Similarity.ZippedAcceptsMismatch | src/similarity/base.py:249-261 | The batch inner product scores vectors that the single form refuses, with any number at all |
| Embedding.KeepFits | src/embedding/service.py:74-82 | What a full cache drops is its oldest record, nothing else changes, and it never outgrows max_size |
| Embedding.KeepLosesOne | src/embedding/service.py:74-82 | A full cache loses exactly one record to a new one, any other cache none |
| Embedding.AnswersInTime | src/embedding/service.py:58-72 | A cached record answers if and only if it is not older than a time to live other than zero |
| Embedding.EmbeddedIsCached | src/embedding/service.py:244-309 | What was embedded is in the cache with its time and answers until it is too old |
| Embedding.Transparent | src/embedding/service.py:244-382 | Cache transparency: after any history of single and batch calls under one setting every text is answered with exactly the provider's record, and the cache fits its size |
| Embedding.EmbeddingCache.Get | src/embedding/service.py:58-72 | Answers an unexpired record; an expired one is dropped |
| Embedding.EmbeddingCache.Set | src/embedding/service.py:74-82 | Drops the oldest record of a full cache first, even for a cached text, then stores; fails for size zero |
| Embedding.EmbeddingService.EmbedText | src/embedding/service.py:244-309 | The cached record or the provider's, which is then cached; the provider's own while the cache is truthful, and it stays truthful; when it fails |
| Embedding.EmbeddingService.EmbedBatch | src/embedding/service.py:311-382 | At every position the record of that text, cached or the provider's; what the cache holds afterwards; when it fails |
| Embedding.EmbeddingService.PlaceAll | src/embedding/service.py:353-367 | The loop puts each provider record at its own position and into the cache, in order |
| Embedding.UncachedAt | src/embedding/service.py:337-348 | The listed positions are exactly those of texts that are not cached |
| Embedding.MixedSettings | src/embedding/service.py:244-382 | After any history of single and batch calls under mixed settings, a text is answered with the provider's record for the setting asked for if and only if it is not cached unexpired, was last fetched under that setting, or has the same record under both |
| Embedding.HistoryHeld | src/embedding/service.py:244-382 | Over every such history a cached record is the provider's for the setting under which its text was last fetched, and the cache never outgrows max_size |
| Embedding.MixedGoesWrong | src/embedding/service.py:342-360 | Every text whose records differ is answered wrongly after being fetched under one setting and asked for under the other |
| TenancySpec.StepNeverUnder | src/cache/multi_tenancy.py:235-393 | Every operation keeps: recorded bytes of a registered tenant cover what it has stored, unless it registers with values stored |
| TenancySpec.RegisterIff | src/cache/multi_tenancy.py:128-147 | Registering keeps that if and only if the tenant is registered already or has nothing stored |
| TenancySpec.RunNeverUnder | src/cache/multi_tenancy.py:128-393 | Over every run in which registration precedes the first put, recorded bytes never understate stored bytes |
| TenancySpec.AcceptedPut | src/cache/multi_tenancy.py:300-326 | An accepted put leaves less stored than the quota plus the size of that value |
| TenancySpec.PutStores | src/cache/multi_tenancy.py:300-326 | A put is refused, without any change, if and only if the tenant is registered and has reached one of its four limits; otherwise exactly its value is stored, its size charged and one query counted |
| TenancySpec.GetCharges | src/cache/multi_tenancy.py:328-351 | A get changes no value and is charged with the size of what it returns |
| TenancySpec.DeleteRemoves | src/cache/multi_tenancy.py:353-372 | A delete removes exactly its value and credits the size, never below zero |
| TenancySpec.ClearRemoves | src/cache/multi_tenancy.py:374-393 | A clear removes exactly the tenant's values and credits all their bytes |
| TenancySpec.RegistrationOnly | src/cache/multi_tenancy.py:128-166 | Registering changes no value and no known tenant; unregistering keeps the values and forgets the rest |
| TenancySpec.ReregisterForgets | src/cache/multi_tenancy.py:128-166 | Unregistering and registering again forgets what is stored |
| TenancySpec.OthersUntouched | src/cache/multi_tenancy.py:300-393 | No operation of one tenant changes the values or the usage of another |
| Tenants.TenantManager.RegisterTenant | src/cache/multi_tenancy.py:128-147 | A new tenant gets its quota and zero usage; a known one is refused |
| Tenants.TenantManager.IsWithinQuota | src/cache/multi_tenancy.py:201-233 | All four limits for a registered tenant; always true for an unregistered one |
| Tenants.TenantAwareCache.Put | src/cache/multi_tenancy.py:300-326 | Refused without change over quota; otherwise stored, and its size added |
| Tenants.TenantAwareCache.Get | src/cache/multi_tenancy.py:328-351 | The stored value; a hit adds its size to the recorded bytes as well |
| Tenants.TenantAwareCache.Delete | src/cache/multi_tenancy.py:353-372 | Removes exactly that value and subtracts its size, not below zero |
| Tenants.TenantAwareCache.Clear | src/cache/multi_tenancy.py:374-393 | The loop of evictions subtracts the tenant's stored bytes in all; its namespace is empty and the number of values returned |

## Left out

- Floating-point rounding, infinities and NaN: similarities, times and sizes are exact reals.
- Heap layout: a heap is the sorted list of its elements, which is what its pops observe.
- The random level of a node: a parameter, so that every theorem holds for all levels; seed and `ml` with it.
- Dimension 0: the metric would refuse its empty vectors; here any similarity function is total.
- Clock readings: each operation reads the clock once, and the reading is a parameter.
- SHA-256: hashes are injective; the text index and the embedding cache are keyed by the text itself, and `put_semantic` uses an abstract function of the text.
- Lower-casing and stripping of texts: one abstract function `norm`.
- Aliasing of entries: an entry is a value here, while in the code the object put into L1 is the caller's; what the object becomes is returned as `stored`.
- `update_on_access` of the eviction policies: it fills maps that no selection reads.
- Failures of Redis and PostgreSQL, connection handling, and the tenant rows that L3 creates: the shared tiers are maps that may lose entries but do not fail.
- Serialisation: responses are opaque texts; a response text that is itself JSON comes back from L3 parsed, which the model does not show.
- Atomicity inside an operation: every manager operation is one step; threads, locks and the timing of pub/sub are not modelled.
- EntryTheorems.OnlyFirstItems: assumes that some neighbour of the entry point is farther from the target than another node around it; where all are equally near and nothing is nearer the search goes on (`OneExpansionIff`).
- LruTheorems.LruInclusion: assumes that no put must free memory, because the memory check runs before an overwritten entry is taken out.
- Cluster.DeleteIsSafe: assumes lossless queues.
- SemanticTheorems.ReadYourWrite: takes the live entries at the read as given; `SemanticRuns.SemanticReadYourWrite` derives them from the history.
- SemanticRuns.SemanticReadYourWrite: assumes a key that does not begin with "q_" (`QTenantNeverReads` says what happens otherwise), a non-empty hash, that no other text counts as the same (`OwnKeyIff` says which key is looked up otherwise), similarities of at most 1 (`CosineAtMostOne`), and that the configuration is not one where lookups go stale (`NeverStaleIff`).
- Counts returned by the two sync methods, latency and size metrics of the tiers, and `get_stats`: plain counters.
- `find_match` and `search_similar` of the L1 cache, how a domain is classified and how thresholds adapt (both are parameters of `get_semantic`), and the domain and threshold that a semantic result echoes: thin layers over what is modelled.
- Provider failures and retries, token and cost metrics of the embedding service, clearing its cache.
- Tenant metrics, hourly resets, `TenantVerifier`: counters that no decision reads.
- Entry-count and concurrency limits of a quota are checked as the code does, but nothing in the code ever updates those counters.
- HTTP routes, authentication, configuration, monitoring, query deduplication, the ML experiments and benchmarks.
