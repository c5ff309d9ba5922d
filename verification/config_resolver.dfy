/**
 * The tenant configuration cache: a map from tenant id to configuration,
 * filled by read-through on a miss, with refresh, eviction and clearing.
 *
 * The platform fetch is the `fetch` argument of each call: what
 * `fetchConfigFromPlatform` answers at that moment, success or failure. A
 * ghost log records every fetch, so call counts can be stated.
 */
module ConfigResolution {
  import opened Wrappers
  import opened AppTypes
  import opened Reactive

  type Fetch = Uuid -> Result<AppConfig, Throwable>

  /** The default `fetchConfigFromPlatform`: an otherwise empty configuration for the tenant, marked active. */
  function DefaultFetchConfig(tenantId: Uuid): (r: Result<AppConfig, Throwable>)
    ensures r.Success?
    ensures r.value.tenantId == Some(tenantId) && r.value.active
    ensures r.value.tenantName.None? && r.value.featureFlags == map[] && r.value.settings == map[]
  {
    Success(AppConfig(Some(tenantId), None, map[], map[], true))
  }

  /** Two caches agree on every tenant other than `t`. */
  ghost predicate AgreeExcept(m1: map<Uuid, AppConfig>, m2: map<Uuid, AppConfig>, t: Uuid) {
    forall u :: u != t ==> (u in m1 <==> u in m2) && (u in m1 ==> m1[u] == m2[u])
  }

  /** A fetch that always answers with a configuration for the tenant it was asked about. */
  ghost predicate TenantFaithful(fetch: Fetch) {
    forall u :: fetch(u).Success? ==> fetch(u).value.tenantId == Some(u)
  }

  lemma DefaultFetchIsTenantFaithful()
    ensures TenantFaithful(DefaultFetchConfig)
  {
  }

  class ConfigResolver {
    var configCache: map<Uuid, AppConfig>
    /** The tenant ids the platform was asked about, oldest first. */
    ghost var fetchLog: seq<Uuid>

    /** Only a fetch puts a tenant in the cache. */
    ghost predicate Valid()
      reads this
    {
      forall t :: t in configCache ==> t in fetchLog
    }

    /** Every cached configuration belongs to the tenant it is cached under. */
    predicate KeysMatchTenants()
      reads this
    {
      forall t :: t in configCache ==> configCache[t].tenantId == Some(t)
    }

    constructor ()
      ensures Valid() && KeysMatchTenants()
      ensures configCache == map[] && fetchLog == []
    {
      configCache := map[];
      fetchLog := [];
    }

    /**
     * `isCached(tenantId)`: whether the cache holds an entry for the tenant.
     * In a valid resolver, a cached tenant is one the platform was asked about.
     */
    function IsCached(tenantId: Uuid): (b: bool)
      reads this
      ensures b <==> tenantId in configCache.Keys
      ensures Valid() && b ==> tenantId in fetchLog
    {
      tenantId in configCache
    }

    /**
     * `resolveConfig(tenantId)`: a hit answers from the cache without a fetch;
     * a miss fetches once, stores a success under that tenant id and returns
     * it, and passes a failure on without caching it.
     */
    method ResolveConfig(tenantId: Uuid, fetch: Fetch) returns (r: Result<AppConfig, Throwable>)
      requires Valid()
      modifies this
      ensures Valid()
      ensures old(IsCached(tenantId)) ==>
        && r == Success(old(configCache[tenantId]))
        && configCache == old(configCache) && fetchLog == old(fetchLog)
      ensures !old(IsCached(tenantId)) ==>
        && r == fetch(tenantId)
        && fetchLog == old(fetchLog) + [tenantId]
        && configCache == if r.Success? then old(configCache)[tenantId := r.value] else old(configCache)
      ensures r.Success? ==> IsCached(tenantId) && configCache[tenantId] == r.value
      ensures AgreeExcept(old(configCache), configCache, tenantId)
      ensures old(KeysMatchTenants()) && TenantFaithful(fetch) ==> KeysMatchTenants()
    {
      if tenantId in configCache {
        r := Success(configCache[tenantId]);
        return;
      }
      fetchLog := fetchLog + [tenantId];
      r := fetch(tenantId);
      if r.Success? {
        configCache := configCache[tenantId := r.value];
      }
    }

    /**
     * `refreshConfig(tenantId)`: evicts the tenant and resolves it again, so it
     * always fetches exactly once. A failed refresh leaves the tenant evicted.
     */
    method RefreshConfig(tenantId: Uuid, fetch: Fetch) returns (r: Result<AppConfig, Throwable>)
      requires Valid()
      modifies this
      ensures Valid()
      ensures r == fetch(tenantId)
      ensures fetchLog == old(fetchLog) + [tenantId]
      ensures configCache == if r.Success? then old(configCache)[tenantId := r.value] else old(configCache) - {tenantId}
      ensures AgreeExcept(old(configCache), configCache, tenantId)
      ensures old(KeysMatchTenants()) && TenantFaithful(fetch) ==> KeysMatchTenants()
    {
      configCache := configCache - {tenantId};
      r := ResolveConfig(tenantId, fetch);
    }

    /** `clearCache()`: afterwards no tenant is cached. */
    method ClearCache()
      requires Valid()
      modifies this
      ensures Valid() && KeysMatchTenants()
      ensures configCache == map[] && fetchLog == old(fetchLog)
      ensures forall t :: !IsCached(t)
    {
      configCache := map[];
    }

    /** `clearCacheForTenant(tenantId)`: only that tenant is evicted. */
    method ClearCacheForTenant(tenantId: Uuid)
      requires Valid()
      modifies this
      ensures Valid()
      ensures configCache == old(configCache) - {tenantId} && fetchLog == old(fetchLog)
      ensures !IsCached(tenantId)
      ensures AgreeExcept(old(configCache), configCache, tenantId)
      ensures old(KeysMatchTenants()) ==> KeysMatchTenants()
    {
      configCache := configCache - {tenantId};
    }
  }

  /**
   * Two `resolveConfig` calls in a row for the same tenant: when the first
   * succeeds, the second answers the same configuration without a fetch, even
   * if the platform's answer changed in between, so at most one fetch happens.
   * A failure is not remembered, so after a failed first call the second fetches again.
   */
  method ConsecutiveResolves(resolver: ConfigResolver, tenantId: Uuid, first: Fetch, second: Fetch)
    returns (r1: Result<AppConfig, Throwable>, r2: Result<AppConfig, Throwable>)
    requires resolver.Valid()
    modifies resolver
    ensures resolver.Valid()
    ensures r1.Success? ==> r2 == r1 && |resolver.fetchLog| <= |old(resolver.fetchLog)| + 1
    ensures r1.Failure? ==> r2 == second(tenantId) && resolver.fetchLog == old(resolver.fetchLog) + [tenantId, tenantId]
  {
    r1 := resolver.ResolveConfig(tenantId, first);
    r2 := resolver.ResolveConfig(tenantId, second);
  }
}
