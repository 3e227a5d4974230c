/**
 * MRUCache of 0x01-caching/4-mru_cache.py: an `OrderedDict` whose front is the
 * most recently inserted or read key. A new key arriving at a full cache drops
 * the front entry and then takes the front itself; putting a present key again
 * only replaces its value.
 */
module MruCaching {
  import opened Wrappers
  import opened Orders

  class MruCache<K(==), V> {
    /** `BaseCaching.MAX_ITEMS`. */
    const maxItems: nat
    /** The values of `cache_data`. */
    var cacheData: map<K, V>
    /** The iteration order of `cache_data`, front first. */
    var order: seq<K>
    /** When each present key was inserted or last read (a repeated put does not count). */
    ghost var stamp: map<K, nat>
    ghost var clock: nat

    /** The order lists the keys newest first, and the cache is within the bound. */
    ghost predicate Valid()
      reads this
    {
      1 <= maxItems && Stamped(order, cacheData, stamp, clock, NewestFirst) && |cacheData| <= maxItems
    }

    constructor (maxItems: nat)
      requires 1 <= maxItems
      ensures Valid() && this.maxItems == maxItems
      ensures cacheData == map[] && order == []
    {
      this.maxItems := maxItems;
      cacheData, order := map[], [];
      stamp, clock := map[], 0;
    }

    /** `put`: returns the key reported by `DISCARD:`, if any. */
    method Put(key: Option<K>, item: Option<V>) returns (discarded: Option<K>)
      requires Valid()
      modifies this
      ensures Valid()
      ensures key.None? || item.None? ==> unchanged(this) && discarded == None
      // a present key gets the new item and keeps its place
      ensures key.Some? && item.Some? && key.value in old(cacheData) ==>
        && cacheData == old(cacheData)[key.value := item.value]
        && order == old(order) && stamp == old(stamp) && clock == old(clock) && discarded == None
      // a new key is stamped with the current time, and a discarded key loses its stamp
      ensures key.Some? && item.Some? && key.value !in old(cacheData) ==>
        && stamp == (if discarded.Some? then old(stamp) - {discarded.value} else old(stamp))[key.value := old(clock)]
        && clock == old(clock) + 1
      // a new key goes to the front
      ensures key.Some? && item.Some? && key.value !in old(cacheData) && |old(cacheData)| < maxItems ==>
        && cacheData == old(cacheData)[key.value := item.value]
        && order == [key.value] + old(order) && discarded == None
      ensures key.Some? && item.Some? && key.value !in old(cacheData) && |old(cacheData)| == maxItems ==>
        && discarded == Some(old(order)[0])
        && cacheData == (old(cacheData) - {old(order)[0]})[key.value := item.value]
        && order == [key.value] + old(order)[1..]
      ensures key.Some? && item.Some? ==> key.value in cacheData && cacheData[key.value] == item.value
      // the discarded key is the most recently inserted or read of the keys that were present
      ensures discarded.Some? ==>
        && discarded != key && discarded.value in old(cacheData) && discarded.value !in cacheData
        && forall x :: x in old(cacheData) ==> old(stamp)[x] <= old(stamp)[discarded.value]
    {
      discarded := None;
      if key.None? || item.None? {
        return;
      }
      var k, v := key.value, item.value;
      StampedTracks(order, cacheData, stamp, clock, NewestFirst);
      if k !in cacheData {
        if |cacheData| + 1 > maxItems {
          StampedFirstIsNewest(order, cacheData, stamp, clock);
          var front := PopFirst();
          discarded := Some(front);
        }
        assert |cacheData| < maxItems;
        InsertFront(k, v);
      } else {
        StampedAssign(order, cacheData, stamp, clock, NewestFirst, k, v);
        cacheData := cacheData[k := v];
      }
    }

    /** `cache_data.popitem(last=False)`: the front entry leaves and its key is returned. */
    method PopFirst() returns (front: K)
      requires 1 <= maxItems && Stamped(order, cacheData, stamp, clock, NewestFirst) && |order| > 0
      modifies this
      ensures Stamped(order, cacheData, stamp, clock, NewestFirst)
      ensures front == old(order)[0] && order == old(order)[1..]
      ensures cacheData == old(cacheData) - {front} && stamp == old(stamp) - {front} && clock == old(clock)
    {
      front := order[0];
      StampedDropFirst(order, cacheData, stamp, clock, NewestFirst);
      order, cacheData, stamp := order[1..], cacheData - {front}, stamp - {front};
    }

    /**
     * `cache_data[key] = item` on a new key, which appends it, followed by
     * `cache_data.move_to_end(key, last=False)`, which brings it to the front.
     */
    method InsertFront(k: K, v: V)
      requires Stamped(order, cacheData, stamp, clock, NewestFirst) && k !in cacheData
      modifies this
      ensures Stamped(order, cacheData, stamp, clock, NewestFirst)
      ensures cacheData == old(cacheData)[k := v] && order == [k] + old(order)
      ensures stamp == old(stamp)[k := old(clock)] && clock == old(clock) + 1
    {
      StampedHas(order, cacheData, stamp, clock, NewestFirst, k);
      MoveLastToFront(order, k);
      StampedPrepend(order, cacheData, stamp, clock, k, v);
      cacheData := cacheData[k := v];
      order := MoveToFront(order + [k], k);
      stamp, clock := stamp[k := clock], clock + 1;
    }

    /** `get`: a hit moves the key to the front; the value is not changed. */
    method Get(key: Option<K>) returns (r: Option<V>)
      requires Valid()
      modifies this
      ensures Valid()
      ensures r.Some? <==> key.Some? && key.value in old(cacheData)
      ensures r.Some? ==> r.value == old(cacheData)[key.value]
      ensures cacheData == old(cacheData)
      ensures r.Some? ==> key.value in old(order) && order == MoveToFront(old(order), key.value)
      ensures r.Some? ==> stamp == old(stamp)[key.value := old(clock)] && clock == old(clock) + 1
      ensures r.None? ==> unchanged(this)
    {
      if key.Some? && key.value in cacheData {
        StampedHas(order, cacheData, stamp, clock, NewestFirst, key.value);
        StampedMoveToFront(order, cacheData, stamp, clock, key.value);
        order := MoveToFront(order, key.value);
        stamp, clock := stamp[key.value := clock], clock + 1;
      }
      r := Lookup(cacheData, key);
    }
  }
}
