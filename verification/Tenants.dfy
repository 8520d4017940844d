/** Tenant registration and the tenant-aware cache, updated in place. */
module Tenants {
  import opened Options
  import opened Dicts
  import opened TenancySpec

  class TenantManager {
    var quotas: map<string, Quota>
    var usage: map<string, Usage>

    constructor ()
      ensures quotas == map[] && usage == map[]
    {
      quotas, usage := map[], map[];
    }

    method RegisterTenant(tenant: string, quota: Quota) returns (ok: bool)
      modifies this
      ensures ok <==> tenant !in old(quotas)
      ensures quotas == if ok then old(quotas)[tenant := quota] else old(quotas)
      ensures usage == if ok then old(usage)[tenant := UNUSED] else old(usage)
    {
      if tenant in quotas { return false; }
      quotas := quotas[tenant := quota];
      usage := usage[tenant := UNUSED];
      ok := true;
    }

    method UnregisterTenant(tenant: string) returns (ok: bool)
      modifies this
      ensures ok <==> tenant in old(quotas)
      ensures quotas == old(quotas) - {tenant}
      ensures usage == if ok then old(usage) - {tenant} else old(usage)
    {
      if tenant !in quotas { return false; }
      quotas := quotas - {tenant};
      usage := usage - {tenant};
      ok := true;
    }

    /** All checks of an empty list hold: a tenant without quota is never refused. */
    method IsWithinQuota(tenant: string) returns (ok: bool)
      ensures ok <==> WithinQuota(quotas, usage, tenant)
    {
      var checks: seq<bool> := [];
      if tenant in quotas && tenant in usage {
        var quota, used := quotas[tenant], usage[tenant];
        checks := [used.entries < quota.maxEntries, used.bytes < quota.maxBytes,
                   used.queries < quota.maxQueries, used.concurrent < quota.maxConcurrent];
      }
      ok := true;
      for i := 0 to |checks|
        invariant ok <==> forall j :: 0 <= j < i ==> checks[j]
      {
        ok := ok && checks[i];
      }
      assert tenant in quotas && tenant in usage && ok ==> checks[0] && checks[1] && checks[2] && checks[3];
    }

    method RecordCacheAccess(tenant: string, size: nat)
      modifies this`usage
      ensures usage == Accessed(old(usage), tenant, size)
    {
      if tenant in usage {
        var used := usage[tenant];
        usage := usage[tenant := used.(bytes := used.bytes + size, queries := used.queries + 1)];
      }
    }

    method RecordEviction(tenant: string, size: nat)
      modifies this`usage
      ensures usage == Evicted(old(usage), tenant, size)
    {
      if tenant in usage {
        var used := usage[tenant];
        usage := usage[tenant := used.(bytes := NotNegative(used.bytes - size))];
      }
    }
  }

  class TenantAwareCache {
    const manager: TenantManager
    var storage: map<string, Namespace>

    ghost function State(): Tenancy
      reads this, manager
    {
      Tenancy(manager.quotas, manager.usage, storage)
    }

    ghost predicate Valid()
      reads this, manager
    {
      Wellformed(State())
    }

    constructor (manager: TenantManager)
      requires manager.quotas.Keys == manager.usage.Keys
      ensures Valid() && this.manager == manager && storage == map[]
    {
      this.manager := manager;
      storage := map[];
    }

    method Put(tenant: string, key: string, value: Bytes) returns (ok: bool)
      requires Valid()
      modifies this, manager`usage
      ensures Valid()
      ensures ok <==> WithinQuota(manager.quotas, old(manager.usage), tenant)
      ensures State() == Step(old(State()), PutValue(tenant, key, value))
    {
      StepWellformed(State(), PutValue(tenant, key, value));
      ok := manager.IsWithinQuota(tenant);
      if !ok { return; }
      if tenant !in storage { storage := storage[tenant := EmptyDict()]; }
      storage := storage[tenant := Dicts.Put(storage[tenant], key, value)];
      assert storage == old(storage)[tenant := Dicts.Put(SpaceOf(old(State()), tenant), key, value)];
      manager.RecordCacheAccess(tenant, |value|);
    }

    method Get(tenant: string, key: string) returns (r: Option<Bytes>)
      requires Valid()
      modifies manager`usage
      ensures Valid()
      ensures State() == Step(old(State()), GetValue(tenant, key))
      ensures var space := SpaceOf(old(State()), tenant);
              r == if key in space.vals then Some(space.vals[key]) else None
    {
      if tenant !in storage {
        manager.RecordCacheAccess(tenant, 0);
        return None;
      }
      if key in storage[tenant].vals {
        var value := storage[tenant].vals[key];
        manager.RecordCacheAccess(tenant, |value|);
        return Some(value);
      }
      manager.RecordCacheAccess(tenant, 0);
      return None;
    }

    method Delete(tenant: string, key: string) returns (ok: bool)
      requires Valid()
      modifies this, manager`usage
      ensures Valid()
      ensures ok <==> key in SpaceOf(old(State()), tenant).vals
      ensures State() == Step(old(State()), DeleteValue(tenant, key))
    {
      StepWellformed(State(), DeleteValue(tenant, key));
      if tenant !in storage { return false; }
      if key in storage[tenant].vals {
        var value := storage[tenant].vals[key];
        storage := storage[tenant := Remove(storage[tenant], key)];
        manager.RecordEviction(tenant, |value|);
        return true;
      }
      return false;
    }

    /** Records one eviction for every value, then empties the namespace. */
    method Clear(tenant: string) returns (count: nat)
      requires Valid()
      modifies this, manager`usage
      ensures Valid()
      ensures count == |SpaceOf(old(State()), tenant).keys|
      ensures State() == Step(old(State()), ClearTenant(tenant))
    {
      if tenant !in storage { return 0; }
      var space := storage[tenant];
      count := |space.keys|;
      EvictAll(tenant, space);
      storage := storage[tenant := EmptyDict()];
    }

    method EvictAll(tenant: string, space: Namespace)
      requires Ordered(space)
      modifies manager`usage
      ensures manager.usage == Evicted(old(manager.usage), tenant, SizeOf(space.keys, space.vals))
    {
      for i := 0 to |space.keys|
        invariant manager.usage == Evicted(old(manager.usage), tenant, SizeOf(space.keys[..i], space.vals))
      {
        assert space.keys[i] in space.keys;
        SizeAppend(space.keys[..i], space.vals, space.keys[i]);
        assert space.keys[..i + 1] == space.keys[..i] + [space.keys[i]];
        manager.RecordEviction(tenant, |space.vals[space.keys[i]]|);
      }
      assert space.keys[..|space.keys|] == space.keys;
    }
  }
}
