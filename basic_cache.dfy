/**
 * BasicCache of 0x01-caching/0-basic_cache.py: `cache_data` with no bound and
 * no eviction.
 */
module BasicCaching {
  import opened Wrappers

  class BasicCache<K(==), V> {
    /** `cache_data`. */
    var cacheData: map<K, V>

    constructor ()
      ensures cacheData == map[]
    {
      cacheData := map[];
    }

    /** `put`: stores the item unless the key or the item is `None`. */
    method Put(key: Option<K>, item: Option<V>)
      modifies this
      ensures key.None? || item.None? ==> cacheData == old(cacheData)
      ensures key.Some? && item.Some? ==> cacheData == old(cacheData)[key.value := item.value]
      // nothing is ever removed, and the cache grows by at most one entry
      ensures old(cacheData).Keys <= cacheData.Keys && |cacheData| <= |old(cacheData)| + 1
      // every other key keeps its item
      ensures forall x :: x in old(cacheData) && Some(x) != key ==> cacheData[x] == old(cacheData)[x]
    {
      if key.Some? && item.Some? {
        if key.value !in cacheData {
          assert |cacheData[key.value := item.value]| == |cacheData| + 1;
        } else {
          assert |cacheData[key.value := item.value]| == |cacheData|;
        }
        cacheData := cacheData[key.value := item.value];
      }
    }

    /** `get`: `cache_data.get(key, None)`, which changes nothing. */
    method Get(key: Option<K>) returns (r: Option<V>)
      ensures r.Some? <==> key.Some? && key.value in cacheData
      ensures r.Some? ==> r.value == cacheData[key.value]
    {
      r := Lookup(cacheData, key);
    }
  }
}
