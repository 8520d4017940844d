/** The embedding service over its cache.

    The provider is a function of the text and of the normalise setting; it never fails. */
module Embedding {
  import opened Options
  import opened Dicts
  import opened Policies

  datatype Record = Record(text: string, embedding: seq<real>, tokens: nat)

  /** A cached record and when it was cached.  Keys are texts: the hash is injective. */
  datatype Slot = Slot(record: Record, stamp: real)

  type Slots = Dict<Slot>

  /** A time to live of zero counts as none. */
  predicate Stale(ttl: Option<int>, s: Slot, now: real) {
    ttl.Some? && ttl.value != 0 && now - s.stamp > ttl.value as real
  }

  /** What the cache answers for a text. */
  function Cached(ttl: Option<int>, slots: Slots, text: string, now: real): Option<Record> {
    if text in slots.vals && !Stale(ttl, slots.vals[text], now) then Some(slots.vals[text].record) else None
  }

  /** Every cached record is the provider's own for that text and this setting. */
  ghost predicate Truthful(provide: (string, bool) -> Record, slots: Slots, normalize: bool) {
    forall k :: k in slots.vals ==> slots.vals[k].record == provide(k, normalize)
  }

  /** The record of one text: the cached one, or else the provider's. */
  function Embedded(provide: (string, bool) -> Record, ttl: Option<int>, slots: Slots, text: string,
                    normalize: bool, now: real): Record
  {
    var hit := Cached(ttl, slots, text, now);
    if hit.Some? then hit.value else provide(text, normalize)
  }

  // ----- What the cache operations do -----

  function DropStale(ttl: Option<int>, slots: Slots, text: string, now: real): Slots {
    if text in slots.vals && Stale(ttl, slots.vals[text], now) then Remove(slots, text) else slots
  }

  function StampOf(slots: Slots): string -> Key {
    (k: string) => (if k in slots.vals then slots.vals[k].stamp else 0.0, 0.0)
  }

  /** A full cache drops its oldest record first, even when the text is cached already. */
  function Keep(maxSize: nat, slots: Slots, text: string, record: Record, now: real): Slots {
    var room := if |slots.keys| >= maxSize && slots.keys != []
                then Remove(slots, Least(slots.keys, StampOf(slots))) else slots;
    Put(room, text, Slot(record, now))
  }

  lemma {:induction false} OldestIsOldest(slots: Slots)
    requires Ordered(slots) && slots.keys != []
    ensures var oldest := Least(slots.keys, StampOf(slots));
            && oldest in slots.vals && (forall l :: l in slots.vals ==> slots.vals[oldest].stamp <= slots.vals[l].stamp)
            && Ordered(Remove(slots, oldest)) && |Remove(slots, oldest).keys| == |slots.keys| - 1
  {
    var oldest := Least(slots.keys, StampOf(slots));
    LeastIsLeast(slots.keys, StampOf(slots));
    RemoveOrdered(slots, oldest);
    forall l | l in slots.vals ensures slots.vals[oldest].stamp <= slots.vals[l].stamp {
      assert l in slots.keys;
    }
  }

  /** What is dropped is the oldest, and the cache never outgrows its size. */
  lemma {:induction false} KeepFits(maxSize: nat, slots: Slots, text: string, record: Record, now: real)
    requires Ordered(slots) && |slots.keys| <= maxSize && maxSize > 0
    ensures var r := Keep(maxSize, slots, text, record, now);
            && Ordered(r) && |r.keys| <= maxSize && text in r.vals && r.vals[text] == Slot(record, now)
            && (forall k :: k in r.vals && k != text ==> k in slots.vals && r.vals[k] == slots.vals[k])
            && (forall k, l :: k in slots.vals && k !in r.vals && l in slots.vals ==>
                  |slots.keys| == maxSize && slots.vals[k].stamp <= slots.vals[l].stamp)
  {
    if |slots.keys| >= maxSize {
      OldestIsOldest(slots);
      PutOrdered(Remove(slots, Least(slots.keys, StampOf(slots))), text, Slot(record, now));
    } else {
      PutOrdered(slots, text, Slot(record, now));
    }
  }

  lemma {:induction false} KeepTruthful(provide: (string, bool) -> Record, maxSize: nat, slots: Slots, text: string,
                                         normalize: bool, now: real)
    requires Ordered(slots) && |slots.keys| <= maxSize && maxSize > 0 && Truthful(provide, slots, normalize)
    ensures Truthful(provide, Keep(maxSize, slots, text, provide(text, normalize), now), normalize)
  {
    KeepFits(maxSize, slots, text, provide(text, normalize), now);
  }

  function DropAllStale(ttl: Option<int>, slots: Slots, texts: seq<string>, now: real): Slots {
    if texts == [] then slots
    else DropStale(ttl, DropAllStale(ttl, slots, texts[..|texts| - 1], now), texts[|texts| - 1], now)
  }

  /** The positions of the texts that are not cached, in order. */
  function Uncached(ttl: Option<int>, slots: Slots, texts: seq<string>, now: real): (r: seq<nat>)
    ensures forall j :: 0 <= j < |r| ==> r[j] < |texts|
  {
    if texts == [] then []
    else
      var n := |texts| - 1;
      Uncached(ttl, slots, texts[..n], now) + if Cached(ttl, slots, texts[n], now).None? then [n] else []
  }

  predicate Listed(indices: seq<nat>, i: nat) { i in indices }

  lemma {:induction false} UncachedAt(ttl: Option<int>, slots: Slots, texts: seq<string>, i: nat, now: real)
    requires i < |texts|
    ensures Listed(Uncached(ttl, slots, texts, now), i) <==> Cached(ttl, slots, texts[i], now).None?
  {
    var n := |texts| - 1;
    var front := Uncached(ttl, slots, texts[..n], now);
    if i < n { UncachedAt(ttl, slots, texts[..n], i, now); }
  }

  /** These records put at these positions. */
  function Placed(found: seq<Option<Record>>, indices: seq<nat>, records: seq<Record>): (r: seq<Option<Record>>)
    requires |indices| == |records| && forall j :: 0 <= j < |indices| ==> indices[j] < |found|
    ensures |r| == |found|
  {
    if indices == [] then found
    else
      var n := |indices| - 1;
      Placed(found, indices[..n], records[..n])[indices[n] := Some(records[n])]
  }

  lemma {:induction false} PlacedNext(found: seq<Option<Record>>, indices: seq<nat>, records: seq<Record>, j: nat)
    requires |indices| == |records| && j < |indices| && forall i :: 0 <= i < |indices| ==> indices[i] < |found|
    ensures Placed(found, indices[..j + 1], records[..j + 1])
            == Placed(found, indices[..j], records[..j])[indices[j] := Some(records[j])]
  {
    assert indices[..j + 1][..j] == indices[..j] && records[..j + 1][..j] == records[..j];
  }

  /** When the record at each position depends on the position only, that is what is there. */
  lemma {:induction false} PlacedAt(found: seq<Option<Record>>, indices: seq<nat>, records: seq<Record>,
                                    at: nat -> Record, i: nat)
    requires |indices| == |records| && i < |found|
    requires forall j :: 0 <= j < |indices| ==> indices[j] < |found| && records[j] == at(indices[j])
    ensures Placed(found, indices, records)[i] == if Listed(indices, i) then Some(at(i)) else found[i]
  {
    if indices != [] {
      var n := |indices| - 1;
      PlacedAt(found, indices[..n], records[..n], at, i);
      assert Listed(indices, i) <==> Listed(indices[..n], i) || indices[n] == i;
    }
  }

  /** The provider's records for the texts at these positions, kept one after the other. */
  function KeepAll(provide: (string, bool) -> Record, maxSize: nat, slots: Slots, texts: seq<string>,
                   indices: seq<nat>, normalize: bool, now: real): Slots
    requires forall j :: 0 <= j < |indices| ==> indices[j] < |texts|
  {
    if indices == [] then slots
    else
      var front, last := indices[..|indices| - 1], texts[indices[|indices| - 1]];
      Keep(maxSize, KeepAll(provide, maxSize, slots, texts, front, normalize, now), last,
           provide(last, normalize), now)
  }

  /** The cache after a batch. */
  function AfterBatch(provide: (string, bool) -> Record, maxSize: nat, ttl: Option<int>, slots: Slots,
                      texts: seq<string>, normalize: bool, now: real): Slots
  {
    KeepAll(provide, maxSize, DropAllStale(ttl, slots, texts, now), texts, Uncached(ttl, slots, texts, now),
            normalize, now)
  }

  lemma {:induction false} DropAllOrdered(ttl: Option<int>, slots: Slots, texts: seq<string>, now: real)
    requires Ordered(slots)
    ensures var r := DropAllStale(ttl, slots, texts, now);
            && Ordered(r) && |r.keys| <= |slots.keys|
            && (forall k :: k in r.vals ==> k in slots.vals && r.vals[k] == slots.vals[k])
  {
    if texts != [] {
      var rest := DropAllStale(ttl, slots, texts[..|texts| - 1], now);
      DropAllOrdered(ttl, slots, texts[..|texts| - 1], now);
      RemoveOrdered(rest, texts[|texts| - 1]);
    }
  }

  /** Dropping stale records changes no answer. */
  lemma {:induction false} DropAllAnswers(ttl: Option<int>, slots: Slots, texts: seq<string>, text: string, now: real)
    ensures Cached(ttl, DropAllStale(ttl, slots, texts, now), text, now) == Cached(ttl, slots, text, now)
  {
    if texts != [] { DropAllAnswers(ttl, slots, texts[..|texts| - 1], text, now); }
  }

  lemma {:induction false} DropAllEmpty(ttl: Option<int>, slots: Slots, texts: seq<string>, now: real)
    requires slots.vals == map[]
    ensures DropAllStale(ttl, slots, texts, now) == slots
  {
    if texts != [] { DropAllEmpty(ttl, slots, texts[..|texts| - 1], now); }
  }

  // ----- Whose records the cache holds -----

  /** Every cached record is the provider's for the setting noted for its text. */
  ghost predicate HeldFor(provide: (string, bool) -> Record, slots: Slots, settings: map<string, bool>) {
    forall k :: k in slots.vals ==> k in settings && slots.vals[k].record == provide(k, settings[k])
  }

  /** The texts a batch has to fetch. */
  ghost function Missing(ttl: Option<int>, slots: Slots, texts: seq<string>, now: real): set<string> {
    set i: nat | i < |texts| && Cached(ttl, slots, texts[i], now).None? :: texts[i]
  }

  ghost function Refetched(settings: map<string, bool>, missing: set<string>, normalize: bool): map<string, bool> {
    settings + map t | t in missing :: normalize
  }

  lemma {:induction false} KeepHeld(provide: (string, bool) -> Record, maxSize: nat, slots: Slots, text: string,
                                    normalize: bool, now: real, settings: map<string, bool>)
    requires Ordered(slots) && |slots.keys| <= maxSize && maxSize > 0 && HeldFor(provide, slots, settings)
    requires text in settings && settings[text] == normalize
    ensures var r := Keep(maxSize, slots, text, provide(text, normalize), now);
            Ordered(r) && |r.keys| <= maxSize && HeldFor(provide, r, settings)
  {
    KeepFits(maxSize, slots, text, provide(text, normalize), now);
  }

  lemma {:induction false} KeepAllHeld(provide: (string, bool) -> Record, maxSize: nat, slots: Slots, texts: seq<string>,
                                       indices: seq<nat>, normalize: bool, now: real, settings: map<string, bool>)
    requires Ordered(slots) && |slots.keys| <= maxSize && maxSize > 0 && HeldFor(provide, slots, settings)
    requires forall j :: 0 <= j < |indices| ==>
               indices[j] < |texts| && texts[indices[j]] in settings && settings[texts[indices[j]]] == normalize
    ensures var r := KeepAll(provide, maxSize, slots, texts, indices, normalize, now);
            Ordered(r) && |r.keys| <= maxSize && HeldFor(provide, r, settings)
  {
    if indices != [] {
      var front, last := indices[..|indices| - 1], texts[indices[|indices| - 1]];
      KeepAllHeld(provide, maxSize, slots, texts, front, normalize, now, settings);
      KeepHeld(provide, maxSize, KeepAll(provide, maxSize, slots, texts, front, normalize, now), last, normalize, now,
               settings);
    }
  }

  /** What is still cached under one of the texts is an answer to it. */
  lemma {:induction false} DroppedFresh(ttl: Option<int>, slots: Slots, texts: seq<string>, i: nat, now: real)
    requires Ordered(slots) && i < |texts|
    ensures var r := DropAllStale(ttl, slots, texts, now);
            texts[i] in r.vals ==> !Stale(ttl, r.vals[texts[i]], now)
  {
    var n := |texts| - 1;
    if i < n { DroppedFresh(ttl, slots, texts[..n], i, now); }
  }

  lemma {:induction false} DroppedHeld(provide: (string, bool) -> Record, ttl: Option<int>, slots: Slots,
                                       texts: seq<string>, normalize: bool, now: real, settings: map<string, bool>)
    requires Ordered(slots) && HeldFor(provide, slots, settings)
    ensures HeldFor(provide, DropAllStale(ttl, slots, texts, now),
                    Refetched(settings, Missing(ttl, slots, texts, now), normalize))
  {
    var r := DropAllStale(ttl, slots, texts, now);
    DropAllOrdered(ttl, slots, texts, now);
    forall k | k in r.vals ensures k !in Missing(ttl, slots, texts, now) {
      if k in Missing(ttl, slots, texts, now) {
        var i: nat :| i < |texts| && Cached(ttl, slots, texts[i], now).None? && texts[i] == k;
        DroppedFresh(ttl, slots, texts, i, now);
        DropAllAnswers(ttl, slots, texts, k, now);
      }
    }
  }

  lemma {:induction false} BatchHeld(provide: (string, bool) -> Record, maxSize: nat, ttl: Option<int>, slots: Slots,
                                     texts: seq<string>, normalize: bool, now: real, settings: map<string, bool>)
    requires Ordered(slots) && |slots.keys| <= maxSize && maxSize > 0 && HeldFor(provide, slots, settings)
    ensures var r := AfterBatch(provide, maxSize, ttl, slots, texts, normalize, now);
            && Ordered(r) && |r.keys| <= maxSize
            && HeldFor(provide, r, Refetched(settings, Missing(ttl, slots, texts, now), normalize))
  {
    var indices, missing := Uncached(ttl, slots, texts, now), Missing(ttl, slots, texts, now);
    DropAllOrdered(ttl, slots, texts, now);
    DroppedHeld(provide, ttl, slots, texts, normalize, now, settings);
    forall j | 0 <= j < |indices| ensures texts[indices[j]] in missing {
      UncachedAt(ttl, slots, texts, indices[j], now);
      assert Listed(indices, indices[j]);
    }
    KeepAllHeld(provide, maxSize, DropAllStale(ttl, slots, texts, now), texts, indices, normalize, now,
                Refetched(settings, missing, normalize));
  }

  // ----- Histories -----

  /** A call of the service and the clock reading it sees. */
  datatype Call = One(text: string, now: real) | Many(texts: seq<string>, normalize: bool, now: real)

  /** What the service is configured with; `own` is the setting of the single form. */
  datatype Setup = Setup(provide: (string, bool) -> Record, own: bool, blank: string -> bool, maxSize: nat,
                         ttl: Option<int>)

  /** A call as a batch: the single form embeds one text under the provider's own setting,
      and refuses a blank one. */
  function TextsOf(s: Setup, c: Call): seq<string> {
    match c
    case One(text, _) => if s.blank(text) then [] else [text]
    case Many(texts, _, _) => texts
  }

  function SettingOf(s: Setup, c: Call): bool { if c.One? then s.own else c.normalize }

  function AfterCalls(s: Setup, calls: seq<Call>): Slots {
    if calls == [] then EmptyDict()
    else
      var last := calls[|calls| - 1];
      AfterBatch(s.provide, s.maxSize, s.ttl, AfterCalls(s, calls[..|calls| - 1]), TextsOf(s, last),
                 SettingOf(s, last), last.now)
  }

  /** The setting under which each text was last fetched. */
  ghost function LastFetched(s: Setup, calls: seq<Call>): map<string, bool> {
    if calls == [] then map[]
    else
      var front, last := calls[..|calls| - 1], calls[|calls| - 1];
      Refetched(LastFetched(s, front), Missing(s.ttl, AfterCalls(s, front), TextsOf(s, last), last.now),
                SettingOf(s, last))
  }

  /** Over every history, with any mix of settings: a cached record is the provider's for
      the setting under which its text was last fetched, and the cache fits its size. */
  lemma {:induction false} HistoryHeld(s: Setup, calls: seq<Call>)
    requires s.maxSize > 0
    ensures var slots := AfterCalls(s, calls);
            Ordered(slots) && |slots.keys| <= s.maxSize && HeldFor(s.provide, slots, LastFetched(s, calls))
  {
    if calls != [] {
      var front, last := calls[..|calls| - 1], calls[|calls| - 1];
      HistoryHeld(s, front);
      BatchHeld(s.provide, s.maxSize, s.ttl, AfterCalls(s, front), TextsOf(s, last), SettingOf(s, last), last.now,
                LastFetched(s, front));
    }
  }

  /** The setting asked for, or one that gives the same record. */
  predicate Harmless(provide: (string, bool) -> Record, ttl: Option<int>, slots: Slots, settings: map<string, bool>,
                     text: string, normalize: bool, now: real)
  {
    || Cached(ttl, slots, text, now).None?
    || (text in settings && settings[text] == normalize)
    || provide(text, true) == provide(text, false)
  }

  lemma {:induction false} HeldIff(provide: (string, bool) -> Record, ttl: Option<int>, slots: Slots,
                                   settings: map<string, bool>, text: string, normalize: bool, now: real)
    requires HeldFor(provide, slots, settings)
    ensures Embedded(provide, ttl, slots, text, normalize, now) == provide(text, normalize)
            <==> Harmless(provide, ttl, slots, settings, text, normalize, now)
  {
  }

  /** After any history the answer is the provider's for the setting asked for exactly when
      the text is not cached unexpired, was last fetched under that setting, or has the same
      record under both. */
  lemma {:induction false} MixedSettings(s: Setup, calls: seq<Call>, text: string, normalize: bool, now: real)
    requires s.maxSize > 0
    ensures Embedded(s.provide, s.ttl, AfterCalls(s, calls), text, normalize, now) == s.provide(text, normalize)
            <==> Harmless(s.provide, s.ttl, AfterCalls(s, calls), LastFetched(s, calls), text, normalize, now)
  {
    HistoryHeld(s, calls);
    HeldIff(s.provide, s.ttl, AfterCalls(s, calls), LastFetched(s, calls), text, normalize, now);
  }

  lemma {:induction false} UniformFetched(s: Setup, calls: seq<Call>, normalize: bool)
    requires forall i :: 0 <= i < |calls| ==> SettingOf(s, calls[i]) == normalize
    ensures forall t :: t in LastFetched(s, calls) ==> LastFetched(s, calls)[t] == normalize
  {
    if calls != [] { UniformFetched(s, calls[..|calls| - 1], normalize); }
  }

  /** The cache is transparent: after any history of single and batch calls under one
      setting, every text is answered with exactly the provider's record. */
  lemma {:induction false} Transparent(s: Setup, calls: seq<Call>, normalize: bool, text: string, now: real)
    requires s.maxSize > 0 && forall i :: 0 <= i < |calls| ==> SettingOf(s, calls[i]) == normalize
    ensures Truthful(s.provide, AfterCalls(s, calls), normalize) && |AfterCalls(s, calls).keys| <= s.maxSize
    ensures Embedded(s.provide, s.ttl, AfterCalls(s, calls), text, normalize, now) == s.provide(text, normalize)
  {
    HistoryHeld(s, calls);
    UniformFetched(s, calls, normalize);
  }

  /** Any text whose records differ can be answered wrongly: fetch it under one setting and
      ask for the other. */
  lemma {:induction false} MixedGoesWrong(s: Setup, text: string, now: real)
    requires s.maxSize > 0 && s.provide(text, true) != s.provide(text, false)
    requires s.ttl.Some? ==> s.ttl.value >= 0
    ensures Embedded(s.provide, s.ttl, AfterCalls(s, [Many([text], true, now)]), text, false, now)
            != s.provide(text, false)
  {
    var calls := [Many([text], true, now)];
    assert calls[..0] == [] && [text][..0] == [];
    SingleBatch(s.provide, s.maxSize, s.ttl, EmptyDict(), text, true, now);
  }

  lemma {:induction false} SingleBatch(provide: (string, bool) -> Record, maxSize: nat, ttl: Option<int>, slots: Slots,
                                       text: string, normalize: bool, now: real)
    ensures AfterBatch(provide, maxSize, ttl, slots, [text], normalize, now)
            == if Cached(ttl, slots, text, now).Some? then slots
               else Keep(maxSize, DropStale(ttl, slots, text, now), text, provide(text, normalize), now)
  {
    assert [text][..0] == [];
    var dropped := DropStale(ttl, slots, text, now);
    assert DropAllStale(ttl, slots, [text], now) == dropped;
    if Cached(ttl, slots, text, now).None? {
      assert Uncached(ttl, slots, [text], now) == [0];
      assert [0][..0] == [];
      assert KeepAll(provide, maxSize, dropped, [text], [], normalize, now) == dropped;
    } else {
      assert Uncached(ttl, slots, [text], now) == [];
    }
  }

  class EmbeddingCache {
    const maxSize: nat
    const ttl: Option<int>
    var slots: Slots

    ghost predicate Valid()
      reads this
    {
      Ordered(slots) && |slots.keys| <= maxSize
    }

    constructor (maxSize: nat, ttl: Option<int>)
      ensures Valid() && slots == EmptyDict() && this.maxSize == maxSize && this.ttl == ttl
    {
      this.maxSize, this.ttl := maxSize, ttl;
      slots := EmptyDict();
    }

    /** A stale record is dropped when it is asked for. */
    method Get(text: string, now: real) returns (r: Option<Record>)
      requires Valid()
      modifies this
      ensures Valid()
      ensures r == Cached(ttl, old(slots), text, now)
      ensures slots == DropStale(ttl, old(slots), text, now)
    {
      if text !in slots.vals { return None; }
      var slot := slots.vals[text];
      if Stale(ttl, slot, now) {
        RemoveOrdered(slots, text);
        slots := Remove(slots, text);
        return None;
      }
      r := Some(slot.record);
    }

    /** A cache of size zero has nothing to drop and fails. */
    method Set(text: string, record: Record, now: real) returns (ok: bool)
      requires Valid()
      modifies this
      ensures Valid() && (ok <==> maxSize > 0)
      ensures slots == if ok then Keep(maxSize, old(slots), text, record, now) else old(slots)
    {
      ghost var before := slots;
      if |slots.keys| >= maxSize {
        if slots.keys == [] { return false; }
        var oldest := Least(slots.keys, StampOf(slots));
        slots := Remove(slots, oldest);
      }
      slots := Put(slots, text, Slot(record, now));
      KeepFits(maxSize, before, text, record, now);
      ok := true;
    }
  }

  class EmbeddingService {
    const cache: EmbeddingCache
    const provide: (string, bool) -> Record
    /** The provider's own normalise setting, which the single form uses. */
    const normalize: bool
    /** Is nothing left of the text when it is stripped? */
    const blank: string -> bool
    var initialized: bool

    ghost predicate Valid()
      reads this, cache
    {
      cache.Valid()
    }

    constructor (provide: (string, bool) -> Record, normalize: bool, blank: string -> bool, maxSize: nat,
                 ttl: Option<int>)
      ensures Valid() && fresh(cache) && !initialized && cache.slots == EmptyDict()
      ensures this.provide == provide && this.normalize == normalize && this.blank == blank
      ensures cache.maxSize == maxSize && cache.ttl == ttl
    {
      this.provide, this.normalize, this.blank := provide, normalize, blank;
      cache := new EmbeddingCache(maxSize, ttl);
      initialized := false;
    }

    /** The record of one text. */
    method EmbedText(text: string, now: real) returns (r: Result<Record>)
      requires Valid()
      modifies cache
      ensures Valid()
      ensures r.Ok? <==> initialized && !blank(text) && cache.maxSize > 0
      ensures r.Ok? ==> r.value == Embedded(provide, cache.ttl, old(cache.slots), text, normalize, now)
      ensures cache.slots == if r.Err? then old(cache.slots)
                             else AfterBatch(provide, cache.maxSize, cache.ttl, old(cache.slots), [text], normalize, now)
      ensures r.Ok? && old(Truthful(provide, cache.slots, normalize)) ==>
                r.value == provide(text, normalize) && Truthful(provide, cache.slots, normalize)
    {
      if !initialized { return Err(NotInitialized); }
      if blank(text) { return Err(InvalidArgument); }
      assert cache.maxSize == 0 ==> text !in cache.slots.keys;
      SingleBatch(provide, cache.maxSize, cache.ttl, cache.slots, text, normalize, now);
      var cached := cache.Get(text, now);
      if cached.Some? { return Ok(cached.value); }
      var record := provide(text, normalize);
      if cache.maxSize > 0 && Truthful(provide, cache.slots, normalize) {
        KeepTruthful(provide, cache.maxSize, cache.slots, text, normalize, now);
      }
      var ok := cache.Set(text, record, now);
      r := if ok then Ok(record) else Err(InvalidArgument);
    }

    /** The records of a batch, each at the position of its text. */
    method EmbedBatch(texts: seq<string>, normalize: bool, now: real) returns (r: Result<seq<Record>>)
      requires Valid()
      modifies cache
      ensures Valid()
      ensures r.Ok? <==> initialized && texts != [] && cache.maxSize > 0
      ensures r.Ok? ==>
                && |r.value| == |texts|
                && (forall i :: 0 <= i < |texts| ==>
                      r.value[i] == Embedded(provide, cache.ttl, old(cache.slots), texts[i], normalize, now))
      ensures cache.slots == if r.Ok? then AfterBatch(provide, cache.maxSize, cache.ttl, old(cache.slots), texts,
                                                      normalize, now)
                             else old(cache.slots)
    {
      if !initialized { return Err(NotInitialized); }
      if texts == [] { return Err(InvalidArgument); }
      var ok, results := EmbedAll(texts, normalize, now);
      if !ok { return Err(InvalidArgument); }
      var records := Collected(results[..]);
      r := Ok(records);
    }

    method EmbedAll(texts: seq<string>, normalize: bool, now: real)
      returns (ok: bool, results: array<Option<Record>>)
      requires Valid() && texts != []
      modifies cache
      ensures Valid() && fresh(results) && results.Length == |texts| && (ok <==> cache.maxSize > 0)
      ensures ok ==> forall i :: 0 <= i < |texts| ==>
                results[i] == Some(Embedded(provide, cache.ttl, old(cache.slots), texts[i], normalize, now))
      ensures cache.slots == if ok then AfterBatch(provide, cache.maxSize, cache.ttl, old(cache.slots), texts,
                                                   normalize, now)
                             else old(cache.slots)
    {
      ghost var slots := cache.slots;
      assert cache.maxSize == 0 ==> slots.keys == [] && texts[0] !in slots.keys;
      if cache.maxSize == 0 {
        DropAllEmpty(cache.ttl, slots, texts, now);
        UncachedAt(cache.ttl, slots, texts, 0, now);
      }
      var uncached;
      results, uncached := LookUpAll(texts, now);
      ghost var found := results[..];
      var records := seq(|uncached|, j requires 0 <= j < |uncached| => provide(texts[uncached[j]], normalize));
      ok := PlaceAll(texts, results, uncached, records, normalize, now);
      ghost var at := (i: nat) => if i < |texts| then provide(texts[i], normalize) else provide("", normalize);
      forall i: nat | ok && i < |texts|
        ensures results[..][i] == Some(Embedded(provide, cache.ttl, slots, texts[i], normalize, now))
      {
        UncachedAt(cache.ttl, slots, texts, i, now);
        PlacedAt(found, uncached, records, at, i);
      }
    }

    /** First pass: what is cached goes to its position, the other positions are listed. */
    method LookUpAll(texts: seq<string>, now: real) returns (results: array<Option<Record>>, uncached: seq<nat>)
      requires Valid()
      modifies cache
      ensures Valid() && fresh(results) && results.Length == |texts|
      ensures forall i :: 0 <= i < |texts| ==> results[i] == Cached(cache.ttl, old(cache.slots), texts[i], now)
      ensures uncached == Uncached(cache.ttl, old(cache.slots), texts, now)
      ensures cache.slots == DropAllStale(cache.ttl, old(cache.slots), texts, now)
    {
      results := new Option<Record>[|texts|](_ => None);
      uncached := [];
      ghost var slots := cache.slots;
      for i := 0 to |texts|
        invariant Valid() && cache.slots == DropAllStale(cache.ttl, slots, texts[..i], now)
        invariant forall j :: 0 <= j < i ==> results[j] == Cached(cache.ttl, slots, texts[j], now)
        invariant uncached == Uncached(cache.ttl, slots, texts[..i], now)
      {
        DropAllAnswers(cache.ttl, slots, texts[..i], texts[i], now);
        assert texts[..i + 1][..i] == texts[..i];
        var cached := cache.Get(texts[i], now);
        results[i] := cached;
        if cached.None? { uncached := uncached + [i]; }
      }
      assert texts[..|texts|] == texts;
    }

    method PlaceOne(results: array<Option<Record>>, index: nat, text: string, record: Record, now: real)
      returns (ok: bool)
      requires Valid() && index < results.Length
      modifies cache, results
      ensures Valid() && (ok <==> cache.maxSize > 0)
      ensures results[..] == old(results[..])[index := Some(record)]
      ensures cache.slots == if ok then Keep(cache.maxSize, old(cache.slots), text, record, now) else old(cache.slots)
    {
      results[index] := Some(record);
      ok := cache.Set(text, record, now);
    }

    /** Second pass: the provider's records go to the listed positions and into the cache. */
    method PlaceAll(texts: seq<string>, results: array<Option<Record>>, uncached: seq<nat>, records: seq<Record>,
                    normalize: bool, now: real) returns (ok: bool)
      requires Valid() && results.Length == |texts| && |records| == |uncached|
      requires forall j :: 0 <= j < |uncached| ==>
                 uncached[j] < |texts| && records[j] == provide(texts[uncached[j]], normalize)
      modifies cache, results
      ensures Valid() && (ok <==> uncached == [] || cache.maxSize > 0)
      ensures ok ==> results[..] == Placed(old(results[..]), uncached, records)
      ensures cache.slots == if ok then KeepAll(provide, cache.maxSize, old(cache.slots), texts, uncached, normalize, now)
                             else old(cache.slots)
    {
      ghost var before, found := cache.slots, results[..];
      for j := 0 to |uncached|
        invariant Valid() && (j > 0 ==> cache.maxSize > 0)
        invariant results[..] == Placed(found, uncached[..j], records[..j])
        invariant cache.slots == KeepAll(provide, cache.maxSize, before, texts, uncached[..j], normalize, now)
      {
        ok := PlaceOne(results, uncached[j], texts[uncached[j]], records[j], now);
        if !ok { return; }
        PlacedNext(found, uncached, records, j);
        KeepAllNext(provide, cache.maxSize, before, texts, uncached, j, normalize, now);
      }
      assert uncached[..|uncached|] == uncached && records[..|records|] == records;
      ok := true;
    }
  }

  lemma {:induction false} KeepAllNext(provide: (string, bool) -> Record, maxSize: nat, slots: Slots,
                                       texts: seq<string>, indices: seq<nat>, j: nat, normalize: bool, now: real)
    requires j < |indices| && forall i :: 0 <= i < |indices| ==> indices[i] < |texts|
    ensures KeepAll(provide, maxSize, slots, texts, indices[..j + 1], normalize, now)
            == Keep(maxSize, KeepAll(provide, maxSize, slots, texts, indices[..j], normalize, now),
                    texts[indices[j]], provide(texts[indices[j]], normalize), now)
  {
    assert indices[..j + 1][..j] == indices[..j];
  }

  function Collected(found: seq<Option<Record>>): (r: seq<Record>)
    requires forall i :: 0 <= i < |found| ==> found[i].Some?
    ensures |r| == |found| && forall i :: 0 <= i < |found| ==> found[i] == Some(r[i])
  {
    seq(|found|, i requires 0 <= i < |found| => found[i].value)
  }

  // ----- Hits and misses -----

  /** A record answers as long as it is not older than a time to live other than zero. */
  lemma {:induction false} AnswersInTime(ttl: Option<int>, slots: Slots, text: string, now: real)
    ensures Cached(ttl, slots, text, now).Some? <==>
            text in slots.vals
            && (ttl.None? || ttl.value == 0 || now <= slots.vals[text].stamp + ttl.value as real)
    ensures Cached(ttl, slots, text, now).Some? ==> Cached(ttl, slots, text, now).value == slots.vals[text].record
  {
  }

  /** Asking drops a record that is too old, and nothing else. */
  lemma {:induction false} DropsTheStale(ttl: Option<int>, slots: Slots, text: string, now: real)
    ensures var r := DropStale(ttl, slots, text, now).vals;
            && (forall k :: k != text ==> (k in r <==> k in slots.vals) && (k in r ==> r[k] == slots.vals[k]))
            && (text in r <==> Cached(ttl, slots, text, now).Some?) && (text in r ==> r[text] == slots.vals[text])
  {
  }

  /** A cache that is full loses one record to a new one, any other none. */
  lemma {:induction false} KeepLosesOne(maxSize: nat, slots: Slots, text: string, record: Record, now: real, k: string, l: string)
    requires Ordered(slots) && |slots.keys| <= maxSize && maxSize > 0 && k in slots.vals && l in slots.vals
    requires var r := Keep(maxSize, slots, text, record, now).vals; k !in r && l !in r
    ensures k == l && |slots.keys| == maxSize
  {
    KeepFits(maxSize, slots, text, record, now);
  }

  /** What was embedded is then answered from the cache, with its time, until it is too old. */
  lemma {:induction false} EmbeddedIsCached(s: Setup, slots: Slots, text: string, normalize: bool, now: real, later: real)
    requires Ordered(slots) && |slots.keys| <= s.maxSize && s.maxSize > 0 && Cached(s.ttl, slots, text, now).None?
    ensures var r := AfterBatch(s.provide, s.maxSize, s.ttl, slots, [text], normalize, now);
            && text in r.vals && r.vals[text] == Slot(s.provide(text, normalize), now)
            && (s.ttl.None? || s.ttl.value == 0 || later <= now + s.ttl.value as real ==>
                  Cached(s.ttl, r, text, later) == Some(s.provide(text, normalize)))
  {
    SingleBatch(s.provide, s.maxSize, s.ttl, slots, text, normalize, now);
  }
}
