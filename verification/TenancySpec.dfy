/** Byte accounting of tenants, as values. */
module TenancySpec {
  import opened Sequences
  import opened Dicts

  type Bytes = seq<bv8>
  type Namespace = Dict<Bytes>

  datatype Quota = Quota(maxEntries: int, maxBytes: int, maxQueries: int, maxConcurrent: int)

  /** `entries` and `concurrent` are read by the quota check but nothing ever changes them. */
  datatype Usage = Usage(entries: nat, bytes: nat, queries: nat, concurrent: nat)

  const UNUSED := Usage(0, 0, 0, 0)

  datatype Tenancy = Tenancy(quotas: map<string, Quota>, usage: map<string, Usage>, storage: map<string, Namespace>)

  function SizeOf(keys: seq<string>, vals: map<string, Bytes>): nat {
    if keys == [] then 0
    else (if keys[0] in vals then |vals[keys[0]]| else 0) + SizeOf(keys[1..], vals)
  }

  function SpaceOf(s: Tenancy, t: string): Namespace { if t in s.storage then s.storage[t] else EmptyDict() }

  /** The bytes a tenant has stored. */
  function StoredBytes(s: Tenancy, t: string): nat { SizeOf(SpaceOf(s, t).keys, SpaceOf(s, t).vals) }

  /** An unregistered tenant has no checks to fail. */
  predicate WithinQuota(quotas: map<string, Quota>, usage: map<string, Usage>, t: string) {
    t in quotas && t in usage ==>
      && usage[t].entries < quotas[t].maxEntries
      && usage[t].bytes < quotas[t].maxBytes
      && usage[t].queries < quotas[t].maxQueries
      && usage[t].concurrent < quotas[t].maxConcurrent
  }

  /** Every access adds the size of the value, reads as well as writes. */
  function Accessed(usage: map<string, Usage>, t: string, size: nat): map<string, Usage> {
    if t in usage then usage[t := usage[t].(bytes := usage[t].bytes + size, queries := usage[t].queries + 1)] else usage
  }

  function NotNegative(a: int): nat { if a < 0 then 0 else a }

  function Evicted(usage: map<string, Usage>, t: string, size: nat): map<string, Usage> {
    if t in usage then usage[t := usage[t].(bytes := NotNegative(usage[t].bytes - size))] else usage
  }

  datatype Op =
    | Register(tenant: string, quota: Quota) | Unregister(tenant: string)
    | PutValue(tenant: string, key: string, value: Bytes) | GetValue(tenant: string, key: string)
    | DeleteValue(tenant: string, key: string) | ClearTenant(tenant: string)

  function Step(s: Tenancy, op: Op): Tenancy {
    var t, space := op.tenant, SpaceOf(s, op.tenant);
    match op
    case Register(_, quota) =>
      if t in s.quotas then s else s.(quotas := s.quotas[t := quota], usage := s.usage[t := UNUSED])
    case Unregister(_) => s.(quotas := s.quotas - {t}, usage := s.usage - {t})
    case PutValue(_, k, v) =>
      if !WithinQuota(s.quotas, s.usage, t) then s
      else s.(storage := s.storage[t := Put(space, k, v)], usage := Accessed(s.usage, t, |v|))
    case GetValue(_, k) => s.(usage := Accessed(s.usage, t, if k in space.vals then |space.vals[k]| else 0))
    case DeleteValue(_, k) =>
      if k !in space.vals then s
      else s.(storage := s.storage[t := Remove(space, k)], usage := Evicted(s.usage, t, |space.vals[k]|))
    case ClearTenant(_) =>
      if t !in s.storage then s
      else s.(storage := s.storage[t := EmptyDict()], usage := Evicted(s.usage, t, StoredBytes(s, t)))
  }

  // ----- The size of a namespace -----

  lemma {:induction false} SizeDrop(keys: seq<string>, vals: map<string, Bytes>, k: string)
    requires NoDup(keys)
    ensures SizeOf(Drop(keys, k), vals - {k}) + (if k in keys && k in vals then |vals[k]| else 0) == SizeOf(keys, vals)
  {
    if keys != [] {
      SizeDrop(keys[1..], vals, k);
      assert k in keys <==> k == keys[0] || k in keys[1..];
      if keys[0] == k {
        assert Drop(keys, k) == Drop(keys[1..], k);
      } else {
        assert Drop(keys, k) == [keys[0]] + Drop(keys[1..], k);
      }
    }
  }

  lemma {:induction false} SizeUpdate(keys: seq<string>, vals: map<string, Bytes>, k: string, v: Bytes)
    ensures SizeOf(keys, vals[k := v]) <= SizeOf(keys, vals) + if k in keys then Count(keys, k) * |v| else 0
  {
    if keys != [] {
      SizeUpdate(keys[1..], vals, k, v);
      assert k in keys <==> k == keys[0] || k in keys[1..];
      if keys[0] == k { assert Count(keys, k) * |v| == Count(keys[1..], k) * |v| + |v|; }
    }
  }

  function Count(keys: seq<string>, k: string): nat {
    if keys == [] then 0 else (if keys[0] == k then 1 else 0) + Count(keys[1..], k)
  }

  lemma {:induction false} CountOnce(keys: seq<string>, k: string)
    requires NoDup(keys)
    ensures Count(keys, k) == if k in keys then 1 else 0
  {
    if keys != [] {
      CountOnce(keys[1..], k);
      assert k in keys <==> k == keys[0] || k in keys[1..];
    }
  }

  lemma {:induction false} SizeAppend(keys: seq<string>, vals: map<string, Bytes>, k: string)
    ensures SizeOf(keys + [k], vals) == SizeOf(keys, vals) + if k in vals then |vals[k]| else 0
  {
    if keys == [] {
      assert keys + [k] == [k] && [k][1..] == [];
    } else {
      assert (keys + [k])[1..] == keys[1..] + [k] && (keys + [k])[0] == keys[0];
      SizeAppend(keys[1..], vals, k);
    }
  }

  lemma {:induction false} SizePut(space: Namespace, k: string, v: Bytes)
    requires Ordered(space)
    ensures SizeOf(Put(space, k, v).keys, Put(space, k, v).vals) <= SizeOf(space.keys, space.vals) + |v|
  {
    CountOnce(space.keys, k);
    SizeUpdate(space.keys, space.vals, k, v);
    SizeAppend(space.keys, space.vals[k := v], k);
  }

  lemma {:induction false} SizeRemove(space: Namespace, k: string)
    requires Ordered(space) && k in space.vals
    ensures SizeOf(Remove(space, k).keys, Remove(space, k).vals) == SizeOf(space.keys, space.vals) - |space.vals[k]|
  {
    SizeDrop(space.keys, space.vals, k);
  }

  // ----- Accounting -----

  ghost predicate Wellformed(s: Tenancy) {
    && s.quotas.Keys == s.usage.Keys
    && (forall t :: t in s.storage ==> Ordered(s.storage[t]))
  }

  ghost predicate NeverUnder(s: Tenancy) {
    forall t :: t in s.usage ==> Covered(s, t)
  }

  predicate Covered(s: Tenancy, t: string)
    requires t in s.usage
  {
    s.usage[t].bytes >= StoredBytes(s, t)
  }

  lemma {:induction false} StepWellformed(s: Tenancy, op: Op)
    requires Wellformed(s)
    ensures Wellformed(Step(s, op))
  {
    var space := SpaceOf(s, op.tenant);
    match op
    case PutValue(_, k, v) => PutOrdered(space, k, v);
    case DeleteValue(_, k) => RemoveOrdered(space, k);
    case _ =>
  }

  /** An operation of one tenant changes neither the values nor the usage of another. */
  lemma {:induction false} OthersUntouched(s: Tenancy, op: Op, other: string)
    requires other != op.tenant
    ensures SpaceOf(Step(s, op), other) == SpaceOf(s, other)
    ensures other in Step(s, op).usage <==> other in s.usage
    ensures other in s.usage ==> Step(s, op).usage[other] == s.usage[other]
  {
  }

  lemma {:induction false} StepCovers(s: Tenancy, op: Op)
    requires Wellformed(s) && NeverUnder(s) && op.tenant in Step(s, op).usage
    requires op.Register? && op.tenant !in s.quotas ==> StoredBytes(s, op.tenant) == 0
    ensures Covered(Step(s, op), op.tenant)
  {
    var t, space := op.tenant, SpaceOf(s, op.tenant);
    if t in s.usage { assert Covered(s, t); }
    match op
    case PutValue(_, k, v) => SizePut(space, k, v);
    case DeleteValue(_, k) => if k in space.vals { SizeRemove(space, k); }
    case _ =>
  }

  /** The recorded usage of a registered tenant never falls below what it has stored, step
      by step, provided no tenant is registered while it has values stored. */
  lemma {:induction false} StepNeverUnder(s: Tenancy, op: Op)
    requires Wellformed(s) && NeverUnder(s)
    requires op.Register? && op.tenant !in s.quotas ==> StoredBytes(s, op.tenant) == 0
    ensures NeverUnder(Step(s, op))
  {
    var r := Step(s, op);
    forall t | t in r.usage ensures Covered(r, t) {
      if t == op.tenant {
        StepCovers(s, op);
      } else {
        OthersUntouched(s, op, t);
        assert Covered(s, t);
      }
    }
  }

  /** Registering keeps the accounting exactly when the tenant has nothing stored or is
      registered already. */
  lemma {:induction false} RegisterIff(s: Tenancy, t: string, quota: Quota)
    requires Wellformed(s) && NeverUnder(s)
    ensures NeverUnder(Step(s, Register(t, quota))) <==> t in s.quotas || StoredBytes(s, t) == 0
  {
    if t in s.quotas || StoredBytes(s, t) == 0 {
      StepNeverUnder(s, Register(t, quota));
    } else {
      assert !Covered(Step(s, Register(t, quota)), t);
    }
  }

  // ----- Runs -----

  function Run(ops: seq<Op>): Tenancy {
    if ops == [] then Tenancy(map[], map[], map[]) else Step(Run(ops[..|ops| - 1]), ops[|ops| - 1])
  }

  /** Registrations come before anything is stored. */
  ghost predicate RegisteredFirst(ops: seq<Op>) {
    forall i :: 0 <= i < |ops| && ops[i].Register? ==> NothingBefore(ops, i)
  }

  ghost predicate NothingBefore(ops: seq<Op>, i: int)
    requires 0 <= i < |ops|
  {
    forall j :: 0 <= j < i ==> !(ops[j].PutValue? && ops[j].tenant == ops[i].tenant)
  }

  lemma {:induction false} NothingStored(ops: seq<Op>, t: string)
    requires forall j :: 0 <= j < |ops| ==> !(ops[j].PutValue? && ops[j].tenant == t)
    ensures StoredBytes(Run(ops), t) == 0 && SpaceOf(Run(ops), t).vals == map[]
  {
    if ops != [] {
      var front, last := ops[..|ops| - 1], ops[|ops| - 1];
      NothingStored(front, t);
      if last.tenant != t { OthersUntouched(Run(front), last, t); }
    }
  }

  /** Over every run in which a tenant is registered before its first put: what is recorded
      covers what is stored. */
  lemma {:induction false} RunNeverUnder(ops: seq<Op>)
    requires RegisteredFirst(ops)
    ensures Wellformed(Run(ops)) && NeverUnder(Run(ops))
  {
    if ops != [] {
      var front, last := ops[..|ops| - 1], ops[|ops| - 1];
      assert forall i :: 0 <= i < |front| && front[i].Register? ==> NothingBefore(ops, i);
      RunNeverUnder(front);
      if last.Register? {
        assert NothingBefore(ops, |ops| - 1);
        NothingStored(front, last.tenant);
      }
      StepWellformed(Run(front), last);
      StepNeverUnder(Run(front), last);
    }
  }

  /** An accepted put of a registered tenant leaves less stored than its quota and the value
      together. */
  lemma {:induction false} AcceptedPut(s: Tenancy, t: string, k: string, v: Bytes)
    requires Wellformed(s) && NeverUnder(s) && t in s.usage && WithinQuota(s.quotas, s.usage, t)
    ensures StoredBytes(Step(s, PutValue(t, k, v)), t) < s.quotas[t].maxBytes + |v|
  {
    assert Covered(s, t);
    SizePut(SpaceOf(s, t), k, v);
  }

  /** Unregistering and registering again forgets what is still stored. */
  lemma {:induction false} ReregisterForgets(s: Tenancy, t: string, quota: Quota)
    requires t in s.quotas && StoredBytes(s, t) > 0
    ensures var r := Step(Step(s, Unregister(t)), Register(t, quota));
            t in r.usage && r.usage[t].bytes == 0 && StoredBytes(r, t) == StoredBytes(s, t) && !NeverUnder(r)
  {
    var r := Step(Step(s, Unregister(t)), Register(t, quota));
    assert !Covered(r, t);
  }

  // ----- What each operation does -----

  /** What a tenant has under a key. */
  function ValueOf(s: Tenancy, t: string, k: string): (r: (bool, Bytes))
    ensures !r.0 ==> r.1 == []
  {
    if t in s.storage && k in s.storage[t].vals then (true, s.storage[t].vals[k]) else (false, [])
  }

  ghost predicate OtherValuesSame(s: Tenancy, r: Tenancy, t: string, k: string) {
    forall u, l :: u != t || l != k ==> ValueOf(r, u, l) == ValueOf(s, u, l)
  }

  /** One more query, and this many more bytes. */
  predicate Charged(s: Tenancy, r: Tenancy, t: string, bytes: nat) {
    if t in s.usage
    then t in r.usage && r.usage[t].bytes == s.usage[t].bytes + bytes && r.usage[t].queries == s.usage[t].queries + 1
         && r.usage[t].entries == s.usage[t].entries && r.usage[t].concurrent == s.usage[t].concurrent
    else t !in r.usage
  }

  /** So many bytes fewer, but never less than none. */
  predicate Credited(s: Tenancy, r: Tenancy, t: string, bytes: nat) {
    if t in s.usage
    then t in r.usage && r.usage[t].queries == s.usage[t].queries
         && (bytes <= s.usage[t].bytes ==> r.usage[t].bytes + bytes == s.usage[t].bytes)
         && (bytes > s.usage[t].bytes ==> r.usage[t].bytes == 0)
    else t !in r.usage
  }

  /** A put is refused exactly when the tenant is registered and has reached one of its four
      limits; then nothing changes.  Otherwise its value, and no other, is stored and charged. */
  lemma {:induction false} PutStores(s: Tenancy, t: string, k: string, v: Bytes)
    ensures var r := Step(s, PutValue(t, k, v));
            if t in s.quotas && t in s.usage
               && (s.usage[t].entries >= s.quotas[t].maxEntries || s.usage[t].bytes >= s.quotas[t].maxBytes
                   || s.usage[t].queries >= s.quotas[t].maxQueries || s.usage[t].concurrent >= s.quotas[t].maxConcurrent)
            then r == s && !WithinQuota(s.quotas, s.usage, t)
            else WithinQuota(s.quotas, s.usage, t) && ValueOf(r, t, k) == (true, v) && OtherValuesSame(s, r, t, k)
                 && Charged(s, r, t, |v|) && r.quotas == s.quotas
  {
  }

  /** A get changes no value and is charged with the size of what it returns. */
  lemma {:induction false} GetCharges(s: Tenancy, t: string, k: string)
    ensures var r := Step(s, GetValue(t, k));
            r.storage == s.storage && r.quotas == s.quotas && Charged(s, r, t, |ValueOf(s, t, k).1|)
  {
  }

  /** A delete removes that value and no other, and credits its size. */
  lemma {:induction false} DeleteRemoves(s: Tenancy, t: string, k: string)
    ensures var r := Step(s, DeleteValue(t, k));
            && !ValueOf(r, t, k).0 && OtherValuesSame(s, r, t, k) && r.quotas == s.quotas
            && (if ValueOf(s, t, k).0 then Credited(s, r, t, |ValueOf(s, t, k).1|) else r == s)
  {
  }

  /** A clear removes the values of that tenant and of no other, and credits all its bytes. */
  lemma {:induction false} ClearRemoves(s: Tenancy, t: string)
    ensures var r := Step(s, ClearTenant(t));
            && (forall u, k :: ValueOf(r, u, k) == if u == t then (false, []) else ValueOf(s, u, k))
            && r.quotas == s.quotas && (t in s.storage ==> Credited(s, r, t, StoredBytes(s, t)))
            && (t !in s.storage ==> r == s)
  {
  }

  /** Registering touches no value and no known tenant, and starts a new one from nothing;
      unregistering forgets quota and usage and keeps the values. */
  lemma {:induction false} RegistrationOnly(s: Tenancy, t: string, quota: Quota)
    ensures var r, u := Step(s, Register(t, quota)), Step(s, Unregister(t));
            && r.storage == s.storage && u.storage == s.storage
            && (if t in s.quotas then r == s
                else t in r.quotas && r.quotas[t] == quota && t in r.usage && r.usage[t] == Usage(0, 0, 0, 0))
            && t !in u.quotas && t !in u.usage
            && (forall o :: o != t ==> (o in u.quotas <==> o in s.quotas) && (o in s.quotas ==> u.quotas[o] == s.quotas[o]))
  {
  }
}
