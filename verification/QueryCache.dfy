/** The cache of query transformations. */
module QueryCaching {
  import opened Text

  datatype CacheEntry = CacheEntry(originalQuery: string, transformedQuery: string, argCount: int, isTenantQuery: bool,
                                   hash: nat)

  /** `after` keeps only entries of `before`. */
  ghost predicate Keeps(after: map<nat, CacheEntry>, before: map<nat, CacheEntry>) {
    forall h :: h in after ==> h in before && after[h] == before[h]
  }

  /** Every entry of `before`, but for the one under `hash`, is still in `after`. */
  ghost predicate Survive(before: map<nat, CacheEntry>, after: map<nat, CacheEntry>, hash: nat) {
    forall h :: h in before && h != hash ==> h in after && after[h] == before[h]
  }

  /** Entries that survive have room. */
  lemma SurvivorsFit(before: map<nat, CacheEntry>, after: map<nat, CacheEntry>, hash: nat)
    requires Survive(before, after, hash)
    ensures |before.Keys - {hash}| <= |after|
  {
    SubsetSize(before.Keys - {hash}, after.Keys);
    assert |after.Keys| == |after|;
  }

  lemma {:induction false} SubsetSize<T>(a: set<T>, b: set<T>)
    requires a <= b
    ensures |a| <= |b|
  {
    if a != {} {
      var x :| x in a;
      SubsetSize(a - {x}, b - {x});
    }
  }

  class QueryCache {
    const hashQuery: string -> nat
    const maxSize: nat
    var entries: map<nat, CacheEntry>
    var hits: nat
    var misses: nat
    /** The number of lookups since the cache was made or cleared. */
    ghost var gets: nat

    ghost predicate Valid()
      reads this
    {
      && maxSize >= 1 && |entries| <= maxSize && hits + misses == gets
      && forall h :: h in entries ==> entries[h].hash == h && hashQuery(entries[h].originalQuery) == h
    }

    constructor (hash: string -> nat, size: int)
      ensures Valid() && entries == map[] && hits == misses == gets == 0
      ensures hashQuery == hash && maxSize == if size <= 0 then 1000 else size
    {
      hashQuery := hash;
      maxSize := if size <= 0 then 1000 else size;
      entries, hits, misses, gets := map[], 0, 0, 0;
    }

    /** The lookup compares hashes only. */
    method Get(originalQuery: string) returns (found: Option<CacheEntry>)
      requires Valid()
      modifies this
      ensures Valid() && entries == old(entries) && gets == old(gets) + 1
      ensures var hash := hashQuery(originalQuery);
              found == if hash in entries then Some(entries[hash]) else None
      ensures hits == old(hits) + (if found.Some? then 1 else 0)
    {
      var hash := hashQuery(originalQuery);
      gets := gets + 1;
      if hash in entries {
        hits := hits + 1;
        return Some(entries[hash]);
      }
      misses := misses + 1;
      return None;
    }

    /** Stores an entry; a full cache first drops arbitrary entries, even when it already holds this query. The other
        entries survive if the cache is not full or holds nothing else, and some do not if it is full and holds more
        others than half its capacity, which is the case of every full cache for more than two entries. */
    method Put(originalQuery: string, transformedQuery: string, argCount: int, isTenantQuery: bool)
      requires Valid()
      modifies this
      ensures Valid() && hits == old(hits) && misses == old(misses) && gets == old(gets)
      ensures var hash := hashQuery(originalQuery);
              && hash in entries
              && entries[hash] == CacheEntry(originalQuery, transformedQuery, argCount, isTenantQuery, hash)
              && Keeps(entries - {hash}, old(entries))
              && (|old(entries)| < maxSize ==> entries == old(entries)[hash := entries[hash]])
              && (|old(entries)| == maxSize ==> |entries| <= maxSize / 2 + 1)
              && (|old(entries)| < maxSize || old(entries).Keys <= {hash} ==> Survive(old(entries), entries, hash))
              && (|old(entries)| == maxSize && |old(entries).Keys - {hash}| > maxSize / 2 ==>
                    !Survive(old(entries), entries, hash))
      ensures maxSize > 2 ==> (Survive(old(entries), entries, hashQuery(originalQuery)) <==> |old(entries)| < maxSize)
    {
      var hash := hashQuery(originalQuery);
      ghost var before := entries;
      assert |before.Keys| == |before|;
      if |entries| >= maxSize {
        EvictHalf();
        if Survive(before, entries, hash) {
          SurvivorsFit(before, entries, hash);
        }
      }
      entries := entries[hash := CacheEntry(originalQuery, transformedQuery, argCount, isTenantQuery, hash)];
    }

    /** Removes entries, in no particular order, until half the capacity is in use. */
    method EvictHalf()
      requires Valid()
      modifies this
      ensures Valid() && hits == old(hits) && misses == old(misses) && gets == old(gets)
      ensures Keeps(entries, old(entries))
      ensures |entries| == if |old(entries)| <= maxSize / 2 then |old(entries)| else maxSize / 2
    {
      var targetSize := maxSize / 2;
      var toRemove := |entries| - targetSize;
      if toRemove <= 0 {
        return;
      }
      var removed := 0;
      while removed < toRemove
        invariant 0 <= removed <= toRemove
        invariant Valid() && hits == old(hits) && misses == old(misses) && gets == old(gets)
        invariant Keeps(entries, old(entries))
        invariant |entries| == |old(entries)| - removed
      {
        assert |entries.Keys| == |entries|;
        var hash :| hash in entries.Keys;
        assert (entries - {hash}).Keys == entries.Keys - {hash};
        assert |(entries - {hash}).Keys| == |entries - {hash}|;
        entries := entries - {hash};
        removed := removed + 1;
      }
    }

    method Clear()
      requires Valid()
      modifies this
      ensures Valid() && entries == map[] && hits == misses == gets == 0
    {
      entries, hits, misses, gets := map[], 0, 0, 0;
    }

    /** The counters account for every lookup. */
    method Stats() returns (h: nat, m: nat, size: nat, hitRate: real)
      requires Valid()
      ensures h == hits && m == misses && size == |entries|
      ensures h + m == gets && size <= maxSize
      ensures 0.0 <= hitRate <= 100.0 && (gets > 0 ==> hitRate * gets as real == 100.0 * h as real)
    {
      h, m, size, hitRate := hits, misses, |entries|, 0.0;
      var total := h + m;
      if total > 0 {
        var ratio := h as real / total as real;
        assert ratio * total as real == h as real;
        hitRate := ratio * 100.0;
        RatioBounds(h, total, ratio);
      }
    }
  }

  lemma RatioBounds(h: nat, total: nat, ratio: real)
    requires 0 < total && h <= total && ratio * total as real == h as real
    ensures 0.0 <= ratio <= 1.0
    ensures (ratio * 100.0) * total as real == 100.0 * h as real
  {
    assert (ratio - 1.0) * total as real <= 0.0;
  }
}
