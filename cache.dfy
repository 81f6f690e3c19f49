/** The drawn-entity cache of src/entities/baseEntity/baseCache.js: one store
    shared by every drawer, keyed by strings 'e1', 'e2', … that are stamped on
    the entities themselves. `Properties.cache` is passed in as `enabled`. */
module BaseCache {
  import opened Js

  /** The key stamped by the n-th `_setCache`. */
  function CacheKey(n: nat): string
  {
    "e" + DecimalString(n)
  }

  /** Different counters give different keys. */
  lemma {:induction false} CacheKeyInjective(a: nat, b: nat)
    requires CacheKey(a) == CacheKey(b)
    ensures a == b
  {
    assert DecimalString(a) == CacheKey(a)[1..];
    assert DecimalString(b) == CacheKey(b)[1..];
    DecimalStringInjective(a, b);
  }

  /** Every key handed out before the counter reached `n`. */
  ghost function KeysBelow(n: nat): set<string>
  {
    set i | 1 <= i < n :: CacheKey(i)
  }

  /** A DXF entity as the cache sees it: its `_cache` stamp. */
  class CachedEntity {
    var stamp: Option<string>

    constructor(stamp: Option<string>)
      ensures this.stamp == stamp
    {
      this.stamp := stamp;
    }
  }

  /** The module-level `__cache` map and `__index` counter. */
  class Cache<M> {
    var store: map<string, M>
    var index: nat

    /** Every stored key was handed out, and the counter has not yet been used. */
    ghost predicate Valid()
      reads this
    {
      index >= 1 && store.Keys <= KeysBelow(index)
    }

    constructor()
      ensures Valid() && store == map[] && index == 1
    {
      store := map[];
      index := 1;
    }

    /** `_getCached(entity)`: nothing when caching is off or the entity carries
        no (or an empty) stamp; otherwise what the store holds under the stamp,
        which is nothing for a stamp it never saw. */
    function GetCached(e: CachedEntity, enabled: bool): (r: Option<M>)
      reads this, e
      ensures r.Some? <==> enabled && e.stamp.Some? && e.stamp.value != "" && e.stamp.value in store
      ensures r.Some? ==> r.value == store[e.stamp.value]
    {
      if e.stamp.Some? && e.stamp.value != "" && enabled && e.stamp.value in store
      then Some(store[e.stamp.value]) else None
    }

    /** `_setCache(entity, model)`: stamps the entity with the next key, advances
        the counter and stores the model under that key. The key is new, so no
        earlier entry is replaced. */
    method SetCache(e: CachedEntity, m: M)
      requires Valid()
      modifies this, e
      ensures Valid()
      ensures e.stamp == Some(CacheKey(old(index)))
      ensures index == old(index) + 1
      ensures CacheKey(old(index)) !in old(store)
      ensures store == old(store)[CacheKey(old(index)) := m]
    {
      KeyIsNew(index);
      e.stamp := Some(CacheKey(index));
      store := store[CacheKey(index) := m];
      index := index + 1;
    }

    /** The next key is not among those handed out before it. */
    static lemma KeyIsNew(n: nat)
      ensures CacheKey(n) !in KeysBelow(n)
    {
      if CacheKey(n) in KeysBelow(n) {
        var i :| 1 <= i < n && CacheKey(i) == CacheKey(n);
        CacheKeyInjective(i, n);
      }
    }
  }

  /** Stamping and storing, then reading back with caching on, returns the model;
      an entry stored earlier under another entity's stamp is still there. */
  method SetThenGet<M>(c: Cache<M>, e: CachedEntity, other: CachedEntity, m: M) returns (got: Option<M>, kept: Option<M>)
    requires c.Valid() && e != other
    requires other.stamp.Some? && other.stamp.value in c.store
    modifies c, e
    ensures got == Some(m)
    ensures kept == Some(old(c.store)[old(other.stamp).value])
  {
    c.SetCache(e, m);
    got := c.GetCached(e, true);
    kept := c.GetCached(other, true);
  }
}
