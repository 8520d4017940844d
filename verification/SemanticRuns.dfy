/** Runs over the tiers and the index together: what put_semantic wrote, get_semantic reads. */
module SemanticRuns {
  import opened Options
  import opened Dicts
  import opened Policies
  import opened L1Spec
  import opened LayerSearch
  import opened HnswSpec
  import opened HnswTheorems
  import opened IndexSpec
  import opened TierSpec
  import opened TierTheorems
  import opened SemanticSpec
  import opened SemanticTheorems

  datatype Setup = Setup(c: TierConfig, p: Params, norm: string -> string, hash: string -> string)

  /** `grown` is the index after an insertion and `found` what a search returned. */
  datatype SemanticOp =
    | SPut(text: string, embedding: Vec, answer: Payload, tenant: Option<string>, domain: string, level: nat, grown: Index)
    | SGet(asked: string, target: Vec, asTenant: Option<string>, threshold: real, found: seq<Match>)
    | SDelete(deleted: string, ofTenant: Option<string>)
    | SForget(owner: Option<string>) // clear of the index
    | STier(op: TierOp)              // any operation on the tiers alone

  datatype SemanticEvent = SemanticEvent(op: SemanticOp, now: real)

  datatype Joint = Joint(tiers: Tiers, index: Index, entries: Entries)

  /** What the operation does to the tiers. */
  function Touches(u: Setup, s: Joint, op: SemanticOp, now: real): Option<TierOp> {
    match op
    case SPut(text, embedding, answer, tenant, domain, _, _) =>
      Some(TPut(SemanticEntry(u.hash, text, embedding, answer, tenant, domain, now), "default"))
    case SGet(text, _, tenant, _, found) =>
      var key := LookedUp(s.entries, found, u.norm, text, tenant);
      if key.None? then None else Some(TGet(key.value, None))
    case SDelete(text, tenant) => Some(TDelete(CacheKey(u.hash, text, tenant), None))
    case SForget(_) => None
    case STier(op) => Some(op)
  }

  function Touched(u: Setup, s: Joint, op: SemanticOp, now: real): (t: Tiers)
    requires Ordered(s.tiers.l1.entries)
    ensures Ordered(t.l1.entries)
  {
    var step := Touches(u, s, op, now);
    if step.None? then s.tiers
    else TierStepOrdered(u.c, s.tiers, step.value, now); TierStep(u.c, s.tiers, step.value, now)
  }

  /** put_semantic succeeds and its embedding has the dimension of the index. */
  predicate Adds(u: Setup, s: Joint, op: SemanticOp) {
    op.SPut? && PutOk(u.c, s.tiers) && |op.embedding| == u.p.dim
  }

  function EntriesAfter(u: Setup, s: Joint, op: SemanticOp, now: real): Entries {
    match op
    case SPut(text, _, _, tenant, domain, _, _) =>
      var key := CacheKey(u.hash, text, tenant);
      var createdAt := if key in s.index.ids then 0.0 else now;
      if Adds(u, s, op) then Put(s.entries, key, IndexEntry(u.hash(text), text, tenant, domain, createdAt)) else s.entries
    case SDelete(text, tenant) => IndexAfterDelete(s.entries, u.hash, text, tenant)
    case SForget(owner) => if owner.None? then EmptyDict() else ClearTenant(s.entries, owner.value)
    case _ => s.entries
  }

  function IndexAfter(u: Setup, s: Joint, op: SemanticOp): Index {
    if Adds(u, s, op) && CacheKey(u.hash, op.text, op.tenant) !in s.index.ids then op.grown
    else if op.SForget? && op.owner.None? then EMPTY
    else s.index
  }

  /** The index grows as an insertion may make it grow, and a search finds what it may find. */
  ghost predicate Possible(u: Setup, s: Joint, op: SemanticOp) {
    match op
    case SPut(text, embedding, _, tenant, _, level, grown) =>
      var key := CacheKey(u.hash, text, tenant);
      Adds(u, s, op) && key !in s.index.ids ==> Inserted(u.p, s.index, Item(key, embedding, level), grown)
    case SGet(_, target, tenant, threshold, found) =>
      FoundBySearch(u.p, s.index, s.entries, target, threshold, tenant, found)
    case _ => true
  }

  /** The state after a run, and the response last put under each key. */
  function Run(u: Setup, withL2: bool, withL3: bool, events: seq<SemanticEvent>): (r: (Joint, Responses))
    ensures Ordered(r.0.tiers.l1.entries)
  {
    if events == [] then (Joint(StartTiers(withL2, withL3), EMPTY, EmptyDict()), map[])
    else
      var (s, spec) := Run(u, withL2, withL3, events[..|events| - 1]);
      var e := events[|events| - 1];
      (Next(u, s, e), SpecAfter(u, s, spec, e))
  }

  function Next(u: Setup, s: Joint, e: SemanticEvent): (r: Joint)
    requires Ordered(s.tiers.l1.entries)
    ensures Ordered(r.tiers.l1.entries)
  {
    Joint(Touched(u, s, e.op, e.now), IndexAfter(u, s, e.op), EntriesAfter(u, s, e.op, e.now))
  }

  function SpecAfter(u: Setup, s: Joint, spec: Responses, e: SemanticEvent): Responses {
    var step := Touches(u, s, e.op, e.now);
    if step.None? then spec else SpecStep(s.tiers, spec, step.value)
  }

  ghost predicate Happens(u: Setup, withL2: bool, withL3: bool, events: seq<SemanticEvent>) {
    events == [] ||
    var front := events[..|events| - 1];
    Happens(u, withL2, withL3, front) && Possible(u, Run(u, withL2, withL3, front).0, events[|events| - 1].op)
  }

  // ----- What every step keeps -----

  /** The index is well-formed and every live entry is in it, under the hash of its text. */
  ghost predicate Sound(u: Setup, s: Joint) {
    WellFormed(u.p, s.index) && LiveOk(s.index, s.entries) && Hashed(s.entries, u.hash)
  }

  lemma {:induction false} AddSound(u: Setup, s: Joint, op: SemanticOp, now: real)
    requires Sound(u, s) && Possible(u, s, op) && Adds(u, s, op)
    ensures WellFormed(u.p, IndexAfter(u, s, op)) && LiveOk(IndexAfter(u, s, op), EntriesAfter(u, s, op, now))
    ensures Hashed(EntriesAfter(u, s, op, now), u.hash)
  {
    var key := CacheKey(u.hash, op.text, op.tenant);
    var after := IndexAfter(u, s, op);
    if key !in s.index.ids {
      InsertedKeepsWellFormed(u.p, s.index, Item(key, op.embedding, op.level), after);
      assert after.ids[|s.index.ids|] == key;
      assert forall id :: id in s.index.ids ==> id in after.ids;
    }
    var e := IndexEntry(u.hash(op.text), op.text, op.tenant, op.domain, if key in s.index.ids then 0.0 else now);
    LivePut(s.index, after, s.entries, u.hash(op.text), op.tenant, e);
  }

  lemma {:induction false} ClearSound(u: Setup, s: Joint, owner: string)
    requires Sound(u, s)
    ensures LiveOk(s.index, ClearTenant(s.entries, owner)) && Hashed(ClearTenant(s.entries, owner), u.hash)
  {
    RemoveAllValues(s.entries, Owned(s.entries.keys, s.entries.vals, owner));
  }

  /** Every operation that can happen keeps tiers, index and live entries sound. */
  lemma {:induction false} NextSound(u: Setup, s: Joint, e: SemanticEvent)
    requires Ordered(s.tiers.l1.entries) && Sound(u, s) && Possible(u, s, e.op)
    ensures Sound(u, Next(u, s, e))
  {
    match e.op
    case SPut(_, _, _, _, _, _, _) => if Adds(u, s, e.op) { AddSound(u, s, e.op, e.now); }
    case SDelete(text, tenant) => LiveRemove(s.index, s.entries, FullId(CacheKey(u.hash, text, tenant), tenant));
    case SForget(owner) =>
      if owner.Some? { ClearSound(u, s, owner.value); } else { EmptyWellFormed(u.p); }
    case _ =>
  }

  lemma {:induction false} RunSound(u: Setup, withL2: bool, withL3: bool, events: seq<SemanticEvent>)
    requires Happens(u, withL2, withL3, events)
    ensures Sound(u, Run(u, withL2, withL3, events).0)
  {
    if events == [] {
      EmptyWellFormed(u.p);
    } else {
      var front := events[..|events| - 1];
      RunSound(u, withL2, withL3, front);
      NextSound(u, Run(u, withL2, withL3, front).0, events[|events| - 1]);
    }
  }

  lemma {:induction false} RunAgrees(u: Setup, withL2: bool, withL3: bool, events: seq<SemanticEvent>)
    requires !StalePossible(u.c, withL2)
    ensures var (s, spec) := Run(u, withL2, withL3, events); InStep(u.c, withL2, s.tiers, spec)
  {
    if events != [] {
      var e, front := events[|events| - 1], events[..|events| - 1];
      RunAgrees(u, withL2, withL3, front);
      var (s, spec) := Run(u, withL2, withL3, front);
      var step := Touches(u, s, e.op, e.now);
      if step.Some? { StepInStep(u.c, withL2, s.tiers, spec, step.value, e.now); }
    }
  }

  // ----- One text -----

  predicate Matches(u: Setup, other: string, ofTenant: Option<string>, text: string, tenant: Option<string>) {
    u.norm(other) == u.norm(text) && (tenant.None? || ofTenant == tenant)
  }

  /** Nothing else is put under a text that a lookup of this one would take for the same. */
  predicate Alike(u: Setup, op: SemanticOp, text: string, tenant: Option<string>) {
    op.SPut? && Matches(u, op.text, op.tenant, text, tenant) ==> u.hash(op.text) == u.hash(text)
  }

  ghost predicate OneHash(u: Setup, entries: Entries, text: string, tenant: Option<string>) {
    forall k :: k in entries.vals && TextMatch(u.norm, entries.vals[k], text, tenant) ==>
      entries.vals[k].itemId == u.hash(text)
  }

  lemma {:induction false} NextOneHash(u: Setup, s: Joint, e: SemanticEvent, text: string, tenant: Option<string>)
    requires Ordered(s.tiers.l1.entries) && Ordered(s.entries) && OneHash(u, s.entries, text, tenant)
    requires Alike(u, e.op, text, tenant)
    ensures OneHash(u, Next(u, s, e).entries, text, tenant)
  {
    if e.op.SForget? && e.op.owner.Some? {
      RemoveAllValues(s.entries, Owned(s.entries.keys, s.entries.vals, e.op.owner.value));
    }
  }

  lemma {:induction false} RunOneHash(u: Setup, withL2: bool, withL3: bool, events: seq<SemanticEvent>, text: string,
                                      tenant: Option<string>)
    requires Happens(u, withL2, withL3, events)
    requires forall i :: 0 <= i < |events| ==> Alike(u, events[i].op, text, tenant)
    ensures OneHash(u, Run(u, withL2, withL3, events).0.entries, text, tenant)
  {
    if events != [] {
      var front := events[..|events| - 1];
      RunOneHash(u, withL2, withL3, front, text, tenant);
      RunSound(u, withL2, withL3, front);
      NextOneHash(u, Run(u, withL2, withL3, front).0, events[|events| - 1], text, tenant);
    }
  }

  /** The step neither puts this key again nor makes the index forget its entry.  The tiers
      may lose, delete or clear it. */
  predicate Leaves(u: Setup, op: SemanticOp, text: string, tenant: Option<string>) {
    var key := CacheKey(u.hash, text, tenant);
    match op
    case SPut(other, _, _, ofTenant, _, _, _) => CacheKey(u.hash, other, ofTenant) != key
    case SDelete(other, ofTenant) => FullId(CacheKey(u.hash, other, ofTenant), ofTenant) != key
    case SForget(owner) => owner.Some? && owner != tenant
    case STier(op) => LeavesAlone(op, key)
    case SGet(_, _, _, _, _) => true
  }

  /** The text is live in the index, and no tier can hold anything but its response. */
  ghost predicate Written(u: Setup, s: Joint, spec: Responses, text: string, tenant: Option<string>, response: string) {
    var key := CacheKey(u.hash, text, tenant);
    && key in s.entries.vals && Indexes(u.hash, text, tenant, s.entries.vals[key])
    && Only(spec, key, response)
  }

  lemma {:induction false} EntriesKeep(u: Setup, s: Joint, e: SemanticEvent, text: string, tenant: Option<string>)
    requires Ordered(s.tiers.l1.entries) && Ordered(s.entries) && Leaves(u, e.op, text, tenant)
    requires var key := CacheKey(u.hash, text, tenant); key in s.entries.vals && s.entries.vals[key].tenant == tenant
    ensures var key := CacheKey(u.hash, text, tenant);
            key in Next(u, s, e).entries.vals && Next(u, s, e).entries.vals[key] == s.entries.vals[key]
  {
    if e.op.SForget? && e.op.owner.Some? {
      var owner := e.op.owner.value;
      RemoveAllValues(s.entries, Owned(s.entries.keys, s.entries.vals, owner));
      OwnedMembers(s.entries.keys, s.entries.vals, owner);
    }
  }

  lemma {:induction false} NextWritten(u: Setup, s: Joint, spec: Responses, e: SemanticEvent, text: string,
                                       tenant: Option<string>, response: string)
    requires Ordered(s.tiers.l1.entries) && Ordered(s.entries)
    requires Written(u, s, spec, text, tenant, response) && Leaves(u, e.op, text, tenant)
    ensures Written(u, Next(u, s, e), SpecAfter(u, s, spec, e), text, tenant, response)
  {
    EntriesKeep(u, s, e, text, tenant);
    var step := Touches(u, s, e.op, e.now);
    if step.Some? { SpecStepStays(s.tiers, spec, step.value, CacheKey(u.hash, text, tenant), response); }
  }

  lemma {:induction false} PutWrites(u: Setup, s: Joint, spec: Responses, e: SemanticEvent)
    requires Ordered(s.tiers.l1.entries) && Adds(u, s, e.op)
    ensures Written(u, Next(u, s, e), SpecAfter(u, s, spec, e), e.op.text, e.op.tenant, e.op.answer.response)
  {
  }

  lemma {:induction false} OneMore(u: Setup, withL2: bool, withL3: bool, front: seq<SemanticEvent>, e: SemanticEvent)
    ensures var (s, spec) := Run(u, withL2, withL3, front);
            && Run(u, withL2, withL3, front + [e]) == (Next(u, s, e), SpecAfter(u, s, spec, e))
            && (Happens(u, withL2, withL3, front + [e]) ==> Happens(u, withL2, withL3, front) && Possible(u, s, e.op))
  {
    assert (front + [e])[..|front|] == front;
  }

  /** The response of a put is written after the run, and stays so. */
  ghost predicate WrittenBy(u: Setup, withL2: bool, withL3: bool, events: seq<SemanticEvent>, put: SemanticOp)
    requires put.SPut?
  {
    var (s, spec) := Run(u, withL2, withL3, events);
    Written(u, s, spec, put.text, put.tenant, put.answer.response)
  }

  lemma {:induction false} FirstWritten(u: Setup, withL2: bool, withL3: bool, before: seq<SemanticEvent>, put: SemanticEvent)
    requires Adds(u, Run(u, withL2, withL3, before).0, put.op)
    ensures WrittenBy(u, withL2, withL3, before + [put], put.op)
  {
    OneMore(u, withL2, withL3, before, put);
    var (s, spec) := Run(u, withL2, withL3, before);
    PutWrites(u, s, spec, put);
  }

  lemma {:induction false} LastWritten(u: Setup, withL2: bool, withL3: bool, front: seq<SemanticEvent>, e: SemanticEvent,
                                       put: SemanticOp)
    requires put.SPut? && WrittenBy(u, withL2, withL3, front, put)
    requires Happens(u, withL2, withL3, front + [e]) && Leaves(u, e.op, put.text, put.tenant)
    ensures WrittenBy(u, withL2, withL3, front + [e], put)
  {
    OneMore(u, withL2, withL3, front, e);
    RunSound(u, withL2, withL3, front);
    var (s, spec) := Run(u, withL2, withL3, front);
    NextWritten(u, s, spec, e, put.text, put.tenant, put.answer.response);
  }

  ghost predicate AllLeave(u: Setup, after: seq<SemanticEvent>, put: SemanticOp)
    requires put.SPut?
  {
    forall i :: 0 <= i < |after| ==> Leaves(u, after[i].op, put.text, put.tenant)
  }

  lemma {:induction false} LastLeaves(u: Setup, after: seq<SemanticEvent>, put: SemanticOp)
    requires put.SPut? && after != [] && AllLeave(u, after, put)
    ensures AllLeave(u, after[..|after| - 1], put) && Leaves(u, after[|after| - 1].op, put.text, put.tenant)
  {
  }

  lemma {:induction false} HappensBefore(u: Setup, withL2: bool, withL3: bool, front: seq<SemanticEvent>, e: SemanticEvent)
    requires Happens(u, withL2, withL3, front + [e])
    ensures Happens(u, withL2, withL3, front)
  {
    OneMore(u, withL2, withL3, front, e);
  }

  lemma {:induction false} RunWritten(u: Setup, withL2: bool, withL3: bool, first: seq<SemanticEvent>,
                                      after: seq<SemanticEvent>, put: SemanticOp)
    requires put.SPut? && WrittenBy(u, withL2, withL3, first, put) && Happens(u, withL2, withL3, first + after)
    requires AllLeave(u, after, put)
    ensures WrittenBy(u, withL2, withL3, first + after, put)
    decreases |after|
  {
    if after == [] {
      assert first + after == first;
    } else {
      var rest, last := after[..|after| - 1], after[|after| - 1];
      LastLeaves(u, after, put);
      assert first + after == first + rest + [last];
      HappensBefore(u, withL2, withL3, first + rest, last);
      RunWritten(u, withL2, withL3, first, rest, put);
      LastWritten(u, withL2, withL3, first + rest, last, put);
    }
  }

  // ----- Reading it back -----

  lemma {:induction false} WrittenIsBest(u: Setup, s: Joint, text: string, asked: string, tenant: Option<string>,
                                         found: seq<Match>)
    requires Sound(u, s) && OneHash(u, s.entries, text, tenant)
    requires var key := CacheKey(u.hash, text, tenant);
             key in s.entries.vals && Indexes(u.hash, text, tenant, s.entries.vals[key])
    requires u.norm(asked) == u.norm(text) && u.hash(text) != ""
    requires forall i :: 0 <= i < |found| ==> found[i].similarity <= 1.0
    ensures var key := CacheKey(u.hash, text, tenant);
            Best(s.entries, found, u.norm, asked, tenant) == [Ranked(u.hash(text), 1.0, s.entries.vals[key], true)]
  {
    var key := CacheKey(u.hash, text, tenant);
    var first := FirstText(s.entries.keys, s.entries.vals, u.norm, asked, tenant);
    assert key in s.entries.keys && TextMatch(u.norm, s.entries.vals[key], asked, tenant);
    assert TextMatch(u.norm, s.entries.vals[first.value], text, tenant);
    HeadIsBest(s.entries, found, u.norm, asked, tenant);
  }

  lemma {:induction false} WrittenIsRead(u: Setup, withL2: bool, s: Joint, spec: Responses, text: string, asked: string,
                                         tenant: Option<string>, response: string, found: seq<Match>, now: real)
    requires Sound(u, s) && OneHash(u, s.entries, text, tenant) && InStep(u.c, withL2, s.tiers, spec)
    requires Written(u, s, spec, text, tenant, response) && Plain(CacheKey(u.hash, text, tenant))
    requires u.norm(asked) == u.norm(text) && u.hash(text) != ""
    requires forall i :: 0 <= i < |found| ==> found[i].similarity <= 1.0
    ensures ReadBack(u, s, text, asked, tenant, response, found, now)
  {
    WrittenIsBest(u, s, text, asked, tenant, found);
    HitAgrees(u.c, s.tiers, spec, CacheKey(u.hash, text, tenant), None, now);
  }

  /** get_semantic of `asked` answers exactly when some tier holds the key of `text`, and then
      with this response as an exact match. */
  ghost predicate ReadBack(u: Setup, s: Joint, text: string, asked: string, tenant: Option<string>, response: string,
                           found: seq<Match>, now: real)
  {
    var key := CacheKey(u.hash, text, tenant);
    var r := SemanticAnswer(u.c, s.tiers, s.entries, found, u.norm, asked, tenant, now);
    && (r.Some? <==> Lookup(u.c, s.tiers, key, None, now).Some?)
    && (r.Some? ==> r.value.entry.response == response && r.value.similarity == 1.0 && r.value.isExact)
  }

  lemma {:induction false} RunReadsBack(u: Setup, withL2: bool, withL3: bool, events: seq<SemanticEvent>, put: SemanticOp,
                                        asked: string, target: Vec, threshold: real, found: seq<Match>, now: real)
    requires !StalePossible(u.c, withL2) && AtMostOneSimilar(u.p)
    requires put.SPut? && WrittenBy(u, withL2, withL3, events, put) && u.hash(put.text) != ""
    requires Plain(CacheKey(u.hash, put.text, put.tenant)) && u.norm(asked) == u.norm(put.text)
    requires Happens(u, withL2, withL3, events)
    requires Possible(u, Run(u, withL2, withL3, events).0, SGet(asked, target, put.tenant, threshold, found))
    requires forall i :: 0 <= i < |events| ==> Alike(u, events[i].op, put.text, put.tenant)
    ensures ReadBack(u, Run(u, withL2, withL3, events).0, put.text, asked, put.tenant, put.answer.response, found, now)
  {
    var (s, spec) := Run(u, withL2, withL3, events);
    RunSound(u, withL2, withL3, events);
    RunAgrees(u, withL2, withL3, events);
    RunOneHash(u, withL2, withL3, events, put.text, put.tenant);
    FoundAtMostOne(u.p, s.index, s.entries, target, threshold, put.tenant, found);
    WrittenIsRead(u, withL2, s, spec, put.text, asked, put.tenant, put.answer.response, found, now);
  }

  lemma {:induction false} AllAlike(u: Setup, before: seq<SemanticEvent>, put: SemanticEvent, after: seq<SemanticEvent>)
    requires put.op.SPut?
    requires forall i :: 0 <= i < |before| ==> Alike(u, before[i].op, put.op.text, put.op.tenant)
    requires forall i :: 0 <= i < |after| ==> Alike(u, after[i].op, put.op.text, put.op.tenant)
    ensures var events := before + [put] + after;
            forall i :: 0 <= i < |events| ==> Alike(u, events[i].op, put.op.text, put.op.tenant)
  {
  }

  /** Read your write: take any history of semantic and tier operations, a put_semantic that
      succeeds, and any later operations that neither put its key again nor make the index
      forget its entry; the tiers may lose, delete or clear the key.  If nothing else was ever
      put under a text that counts as the same, then get_semantic of the text, in any
      spelling of the same normal form, answers exactly when some tier still holds the key,
      and then with that response, as an exact match of similarity 1. */
  lemma {:induction false} SemanticReadYourWrite(u: Setup, withL2: bool, withL3: bool, before: seq<SemanticEvent>,
                                                 put: SemanticEvent, after: seq<SemanticEvent>, asked: string,
                                                 target: Vec, threshold: real, found: seq<Match>, now: real)
    requires !StalePossible(u.c, withL2) && AtMostOneSimilar(u.p)
    requires Adds(u, Run(u, withL2, withL3, before).0, put.op) && u.hash(put.op.text) != ""
    requires Plain(CacheKey(u.hash, put.op.text, put.op.tenant)) && u.norm(asked) == u.norm(put.op.text)
    requires forall i :: 0 <= i < |before| ==> Alike(u, before[i].op, put.op.text, put.op.tenant)
    requires forall i :: 0 <= i < |after| ==>
               Alike(u, after[i].op, put.op.text, put.op.tenant) && Leaves(u, after[i].op, put.op.text, put.op.tenant)
    requires var events := before + [put] + after;
             Happens(u, withL2, withL3, events)
             && Possible(u, Run(u, withL2, withL3, events).0, SGet(asked, target, put.op.tenant, threshold, found))
    ensures ReadBack(u, Run(u, withL2, withL3, before + [put] + after).0, put.op.text, asked, put.op.tenant,
                     put.op.answer.response, found, now)
  {
    FirstWritten(u, withL2, withL3, before, put);
    RunWritten(u, withL2, withL3, before + [put], after, put.op);
    AllAlike(u, before, put, after);
    RunReadsBack(u, withL2, withL3, before + [put] + after, put.op, asked, target, threshold, found, now);
  }
}
