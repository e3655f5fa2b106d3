/**
 The enrichment cache: LRU with expiry (M4/app/cache/memory_lru.py), keyed per
 tenant (M4/app/security/tenant_guard.py).
 */
module EnrichmentCache {
  import opened Results
  import opened OrderedDicts
  import opened EnrichmentModel

  datatype Slot = Slot(tenant: string, provider: string, namespace: string, lookup: string, isGlobal: bool)

  datatype CacheEntry = CacheEntry(slot: Slot, cachedAt: real, ttl: int, data: Fields)

  type Cached = OrderedDict<CacheEntry>

  function EffectiveTenant(s: Slot): string {
    if s.isGlobal then "__global__" else s.tenant
  }

  function BuildKey(s: Slot): string {
    EffectiveTenant(s) + ":" + (s.provider + ":" + (s.namespace + ":" + s.lookup))
  }

  predicate ColonFree(s: Slot) {
    ':' !in s.tenant && ':' !in s.provider && ':' !in s.namespace
  }

  /** Two slots share a key exactly when they agree on the effective tenant, provider, namespace and lookup. */
  lemma KeysAreSeparate(a: Slot, b: Slot)
    requires ColonFree(a) && ColonFree(b)
    ensures BuildKey(a) == BuildKey(b) <==>
            EffectiveTenant(a) == EffectiveTenant(b) && a.provider == b.provider && a.namespace == b.namespace
                && a.lookup == b.lookup
  {
    if BuildKey(a) == BuildKey(b) {
      ColonSplit(EffectiveTenant(a), a.provider + ":" + (a.namespace + ":" + a.lookup),
                 EffectiveTenant(b), b.provider + ":" + (b.namespace + ":" + b.lookup));
      ColonSplit(a.provider, a.namespace + ":" + a.lookup, b.provider, b.namespace + ":" + b.lookup);
      ColonSplit(a.namespace, a.lookup, b.namespace, b.lookup);
    }
  }

  /** With a colon in a namespace, two different slots can share a key. */
  lemma ColonsCollide()
    ensures var a := Slot("t", "p", "n:x", "k", false);
            var b := Slot("t", "p", "n", "x:k", false);
            a != b && BuildKey(a) == BuildKey(b)
  {
    assert "n:x" + ":" + "k" == "n" + ":" + "x:k";
  }

  predicate Expired(e: CacheEntry, now: real) {
    now - e.cachedAt > e.ttl as real
  }

  // ---- the operations on values ----

  function Fetched(d: Cached, key: string, now: real): (Cached, Option<CacheEntry>) {
    if key !in d.entries || key !in d.order then (d, None)
    else if Expired(d.entries[key], now) then (d.Delete(key), None)
    else (d.MoveToEnd(key), Some(d.entries[key]))
  }

  function Stored(d: Cached, maxSize: nat, e: CacheEntry): Cached {
    var key := BuildKey(e.slot);
    var room :=
      if key in d.order then d.MoveToEnd(key)
      else if d.Size() >= maxSize && d.order != [] then d.PopFirst()
      else d;
    room.Assign(key, e)
  }

  /** What the cache always satisfies: bounded, and every entry filed under its own key. */
  ghost predicate Filed(d: Cached, maxSize: nat) {
    && d.Valid() && d.Size() <= maxSize
    && forall k :: k in d.entries ==> k == BuildKey(d.entries[k].slot)
  }

  lemma FetchKeeps(d: Cached, maxSize: nat, key: string, now: real)
    requires Filed(d, maxSize)
    ensures Filed(Fetched(d, key, now).0, maxSize)
    ensures forall k :: k in Fetched(d, key, now).0.entries ==>
              k in d.entries && Fetched(d, key, now).0.entries[k] == d.entries[k]
  {
    WithoutDistinct(d.order, key);
  }

  lemma StoreKeeps(d: Cached, maxSize: nat, e: CacheEntry)
    requires Filed(d, maxSize) && maxSize >= 1
    ensures Filed(Stored(d, maxSize, e), maxSize)
    ensures forall k :: k in Stored(d, maxSize, e).entries ==>
              Stored(d, maxSize, e).entries[k] == e || (k in d.entries
                  && Stored(d, maxSize, e).entries[k] == d.entries[k])
    ensures BuildKey(e.slot) in Stored(d, maxSize, e).entries && Stored(d, maxSize, e).entries[BuildKey(e.slot)] == e
  {
  }

  /** A hit was stored for this provider, namespace and lookup, and, unless both are global, for this tenant. */
  lemma HitIsOwn(d: Cached, maxSize: nat, s: Slot, now: real)
    requires Filed(d, maxSize) && ColonFree(s)
    requires forall k :: k in d.entries ==> ColonFree(d.entries[k].slot)
    requires Fetched(d, BuildKey(s), now).1.Some?
    ensures var hit := Fetched(d, BuildKey(s), now).1.value;
            && hit in d.entries.Values
            && hit.slot.provider == s.provider && hit.slot.namespace == s.namespace && hit.slot.lookup == s.lookup
            && EffectiveTenant(hit.slot) == EffectiveTenant(s)
            && now - hit.cachedAt <= hit.ttl as real
  {
    KeysAreSeparate(d.entries[BuildKey(s)].slot, s);
  }

  class MemoryLRUCache {
    const maxSize: nat
    var entries: Cached

    ghost predicate Valid()
      reads this
    {
      maxSize >= 1 && Filed(entries, maxSize)
    }

    constructor (maxSize: nat)
      requires maxSize >= 1
      ensures Valid() && this.maxSize == maxSize && entries == OrderedDict([], map[])
    {
      this.maxSize := maxSize;
      entries := OrderedDict([], map[]);
    }

    method Get(slot: Slot, now: real) returns (hit: Option<CacheEntry>)
      requires Valid()
      modifies this
      ensures Valid()
      ensures (entries, hit) == Fetched(old(entries), BuildKey(slot), now)
    {
      var key := BuildKey(slot);
      FetchKeeps(entries, maxSize, key, now);
      if key !in entries.entries {
        return None;
      }
      var entry := entries.entries[key];
      if Expired(entry, now) {
        entries := entries.Delete(key);
        return None;
      }
      entries := entries.MoveToEnd(key);
      return Some(entry);
    }

    method Set(slot: Slot, data: Fields, ttl: int, now: real)
      requires Valid()
      modifies this
      ensures Valid()
      ensures entries == Stored(old(entries), maxSize, CacheEntry(slot, now, ttl, data))
    {
      var key, entry := BuildKey(slot), CacheEntry(slot, now, ttl, data);
      StoreKeeps(entries, maxSize, entry);
      if key in entries.entries {
        entries := entries.MoveToEnd(key);
      } else if entries.Size() >= maxSize {
        entries := entries.PopFirst();
      }
      entries := entries.Assign(key, entry);
    }

    method Invalidate(slot: Slot) returns (found: bool)
      requires Valid()
      modifies this
      ensures Valid()
      ensures found <==> BuildKey(slot) in old(entries).entries
      ensures entries == if found then old(entries).Delete(BuildKey(slot)) else old(entries)
      ensures entries.entries == old(entries).entries - {BuildKey(slot)}
    {
      var key := BuildKey(slot);
      found := key in entries.entries;
      if found {
        entries := entries.Delete(key);
      }
    }

    method Clear()
      requires Valid()
      modifies this
      ensures Valid() && entries == OrderedDict([], map[])
    {
      entries := OrderedDict([], map[]);
    }
  }
}
