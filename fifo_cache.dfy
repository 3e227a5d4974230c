/**
 * FIFOCache of 0x01-caching/1-fifo_cache.py: an `OrderedDict` that is written
 * first and trimmed afterwards, dropping its front (oldest) entry whenever the
 * write took it past `MAX_ITEMS`.
 */
module FifoCaching {
  import opened Wrappers
  import opened Orders

  class FifoCache<K(==), V> {
    /** `BaseCaching.MAX_ITEMS`. */
    const maxItems: nat
    /** The values of `cache_data`. */
    var cacheData: map<K, V>
    /** The iteration order of `cache_data`. */
    var order: seq<K>
    /** When each present key was inserted (an update does not count). */
    ghost var stamp: map<K, nat>
    ghost var clock: nat

    /** The order and the stamps agree with `cache_data`. */
    ghost predicate Consistent()
      reads this
    {
      1 <= maxItems && Stamped(order, cacheData, stamp, clock, OldestFirst)
    }

    /** What holds between calls: also within the bound. */
    ghost predicate Valid()
      reads this
    {
      Consistent() && |cacheData| <= maxItems
    }

    constructor (maxItems: nat)
      requires 1 <= maxItems
      ensures Valid() && this.maxItems == maxItems
      ensures cacheData == map[] && order == []
    {
      this.maxItems := maxItems;
      cacheData, order := map[], [];
      stamp, clock := map[], 0;
    }

    /** `put`: returns the key reported by `DISCARD:`, if any. */
    method Put(key: Option<K>, item: Option<V>) returns (discarded: Option<K>)
      requires Valid()
      modifies this
      ensures Valid()
      ensures key.None? || item.None? ==> unchanged(this) && discarded == None
      ensures key.Some? && item.Some? && key.value in old(cacheData) ==>
        && cacheData == old(cacheData)[key.value := item.value]
        && order == old(order) && stamp == old(stamp) && clock == old(clock) && discarded == None
      // a new key is stamped with the current time, and a discarded key loses its stamp
      ensures key.Some? && item.Some? && key.value !in old(cacheData) ==>
        && stamp == (if discarded.Some? then old(stamp) - {discarded.value} else old(stamp))[key.value := old(clock)]
        && clock == old(clock) + 1
      ensures key.Some? && item.Some? && key.value !in old(cacheData) && |old(cacheData)| < maxItems ==>
        && cacheData == old(cacheData)[key.value := item.value]
        && order == old(order) + [key.value] && discarded == None
      ensures key.Some? && item.Some? && key.value !in old(cacheData) && |old(cacheData)| == maxItems ==>
        && discarded == Some(old(order)[0])
        && cacheData == old(cacheData)[key.value := item.value] - {old(order)[0]}
        && order == old(order)[1..] + [key.value]
      // the put key is always there afterwards, with the new item
      ensures key.Some? && item.Some? ==> key.value in cacheData && cacheData[key.value] == item.value
      // the discarded key is the earliest inserted of the keys that were present, never the put key
      ensures discarded.Some? ==>
        && discarded != key && discarded.value in old(cacheData) && discarded.value !in cacheData
        && forall x :: x in old(cacheData) ==> old(stamp)[discarded.value] <= old(stamp)[x]
    {
      discarded := None;
      if key.None? || item.None? {
        return;
      }
      var k, v := key.value, item.value;
      StampedTracks(order, cacheData, stamp, clock, OldestFirst);
      if k in cacheData || |cacheData| < maxItems {
        Assign(k, v);
      } else {
        var first := AssignAndTrim(k, v);
        discarded := Some(first);
      }
    }

    /** A new key written into a full cache, which then drops its front entry. */
    method AssignAndTrim(k: K, v: V) returns (first: K)
      requires Valid() && k !in cacheData && |cacheData| == maxItems
      modifies this
      ensures Valid()
      ensures first == old(order)[0] && first != k && first in old(cacheData)
      ensures forall x :: x in old(cacheData) ==> old(stamp)[first] <= old(stamp)[x]
      ensures cacheData == old(cacheData)[k := v] - {first}
      ensures order == old(order)[1..] + [k]
      ensures stamp == (old(stamp) - {first})[k := old(clock)] && clock == old(clock) + 1
    {
      StampedTracks(order, cacheData, stamp, clock, OldestFirst);
      StampedFirstIsOldest(order, cacheData, stamp, clock);
      first := order[0];
      StampedDropFirst(order, cacheData, stamp, clock, OldestFirst);
      StampedAppend(order[1..], cacheData - {first}, stamp - {first}, clock, k, v);
      assert (cacheData - {first})[k := v] == cacheData[k := v] - {first};
      order := order[1..] + [k];
      cacheData := cacheData[k := v] - {first};
      stamp, clock := (stamp - {first})[k := clock], clock + 1;
    }

    /** `cache_data[key] = item`: a new key is appended, a present one keeps its place. */
    method Assign(k: K, v: V)
      requires Consistent()
      modifies this
      ensures Consistent()
      ensures cacheData == old(cacheData)[k := v]
      ensures k in old(cacheData) ==> order == old(order) && stamp == old(stamp) && clock == old(clock)
      ensures k !in old(cacheData) ==>
        order == old(order) + [k] && stamp == old(stamp)[k := old(clock)] && clock == old(clock) + 1
    {
      if k !in cacheData {
        StampedAppend(order, cacheData, stamp, clock, k, v);
        order := order + [k];
        stamp := stamp[k := clock];
        clock := clock + 1;
      } else {
        StampedAssign(order, cacheData, stamp, clock, OldestFirst, k, v);
      }
      cacheData := cacheData[k := v];
    }

    /** `get`: a lookup that changes nothing. */
    method Get(key: Option<K>) returns (r: Option<V>)
      ensures r.Some? <==> key.Some? && key.value in cacheData
      ensures r.Some? ==> r.value == cacheData[key.value]
    {
      r := Lookup(cacheData, key);
    }
  }
}
