/**
  lib/cache.ts: the single-instance cache used in place of Redis. Its
  MemoryCache takes a default lifetime (3600 s when omitted) that `set` uses
  for an omitted or zero ttl.
 */
module Cache {
  import opened Strings
  import opened TtlCache

  /** The constructor's own parameter default. */
  const DefaultTtl := 3600

  /** The policy of `new MemoryCache(ttl)`; an omitted argument is the parameter default. */
  function PolicyFor(ttl: Option<int>): (p: SetPolicy)
    ensures p.FalsyTtlUsesDefault?
    ensures p.defaultTtl == (if ttl.Some? then ttl.value else DefaultTtl)
  {
    FalsyTtlUsesDefault(ttl.GetOr(DefaultTtl))
  }

  /** createCache */
  method CreateCache(ttl: Option<int>) returns (c: MemoryCache)
    ensures fresh(c) && c.entries == map[] && c.policy == PolicyFor(ttl)
  {
    c := new MemoryCache(PolicyFor(ttl));
  }

  /** `set` with an omitted or zero ttl uses the cache's default lifetime. */
  lemma FalsyTtlMeansDefault(ttl: Option<int>, setTtl: Option<int>)
    requires setTtl.None? || setTtl == Some(0)
    ensures Lifetime(PolicyFor(ttl), setTtl) == (if ttl.Some? then ttl.value else 3600)
  {
  }

  /**
    A cache built with `new MemoryCache(0)` stores every entry without an
    explicit ttl with a lifetime of zero: `ttl || 0` is 0.
   */
  lemma ZeroDefaultExpiresAtOnce(value: string, now: int)
    ensures Stored(PolicyFor(Some(0)), value, None, now).expireAt == now
  {
  }
}
