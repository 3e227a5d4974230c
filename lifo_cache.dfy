/**
 * LIFOCache of 0x01-caching/2-lifo_cache.py: an `OrderedDict` in which every
 * put moves its key to the end, and a new key arriving at a full cache first
 * drops the entry at the end. The class defines no `get`.
 */
module LifoCaching {
  import opened Wrappers
  import opened Orders

  class LifoCache<K(==), V> {
    /** `BaseCaching.MAX_ITEMS`. */
    const maxItems: nat
    /** The values of `cache_data`. */
    var cacheData: map<K, V>
    /** The iteration order of `cache_data`. */
    var order: seq<K>
    /** When each present key was last put (updates included). */
    ghost var stamp: map<K, nat>
    ghost var clock: nat

    /** The order and the stamps agree with `cache_data`. */
    ghost predicate Consistent()
      reads this
    {
      1 <= maxItems && Stamped(order, cacheData, stamp, clock, OldestFirst)
    }

    /** What holds between calls: also within the bound. */
    ghost predicate Valid()
      reads this
    {
      Consistent() && |cacheData| <= maxItems
    }

    constructor (maxItems: nat)
      requires 1 <= maxItems
      ensures Valid() && this.maxItems == maxItems
      ensures cacheData == map[] && order == []
    {
      this.maxItems := maxItems;
      cacheData, order := map[], [];
      stamp, clock := map[], 0;
    }

    /** `put`: returns the key reported by `DISCARD:`, if any. */
    method Put(key: Option<K>, item: Option<V>) returns (discarded: Option<K>)
      requires Valid()
      modifies this
      ensures Valid()
      ensures key.None? || item.None? ==> unchanged(this) && discarded == None
      ensures key.Some? && item.Some? && key.value in old(cacheData) ==>
        && cacheData == old(cacheData)[key.value := item.value]
        && key.value in old(order) && order == MoveToEnd(old(order), key.value) && discarded == None
      ensures key.Some? && item.Some? && key.value !in old(cacheData) && |old(cacheData)| < maxItems ==>
        && cacheData == old(cacheData)[key.value := item.value]
        && order == old(order) + [key.value] && discarded == None
      ensures key.Some? && item.Some? && key.value !in old(cacheData) && |old(cacheData)| == maxItems ==>
        && discarded == Some(old(order)[|old(order)| - 1])
        && cacheData == (old(cacheData) - {discarded.value})[key.value := item.value]
        && order == old(order)[..|old(order)| - 1] + [key.value]
      // the put key ends up last, with the new item
      ensures key.Some? && item.Some? ==>
        && key.value in cacheData && cacheData[key.value] == item.value
        && order[|order| - 1] == key.value
      // every put, update or not, stamps the key with the current time; a discarded key loses its stamp
      ensures key.Some? && item.Some? ==>
        && stamp == (if discarded.Some? then old(stamp) - {discarded.value} else old(stamp))[key.value := old(clock)]
        && clock == old(clock) + 1
      // no other key is touched, except the discarded one
      ensures forall x :: x in old(cacheData) && Some(x) != key && Some(x) != discarded ==>
        x in cacheData && cacheData[x] == old(cacheData)[x]
      // the discarded key is the most recently put of the keys that were present, never the put key
      ensures discarded.Some? ==>
        && discarded != key && discarded.value in old(cacheData) && discarded.value !in cacheData
        && forall x :: x in old(cacheData) ==> old(stamp)[x] <= old(stamp)[discarded.value]
    {
      discarded := None;
      if key.None? || item.None? {
        return;
      }
      var k, v := key.value, item.value;
      discarded := MakeRoom(k);
      WriteLast(k, v);
    }

    /** The eviction step of `put`: a new key arriving at a full cache drops the last entry. */
    method MakeRoom(k: K) returns (discarded: Option<K>)
      requires Valid()
      modifies this
      ensures Valid() && (|cacheData| < maxItems || k in cacheData)
      ensures k in old(cacheData) || |old(cacheData)| < maxItems ==> unchanged(this) && discarded == None
      ensures k !in old(cacheData) && |old(cacheData)| == maxItems ==>
        && discarded == Some(old(order)[|old(order)| - 1])
        && cacheData == old(cacheData) - {discarded.value}
        && order == old(order)[..|old(order)| - 1]
        && stamp == old(stamp) - {discarded.value} && clock == old(clock)
      ensures discarded.Some? ==>
        && discarded.value != k && discarded.value in old(cacheData)
        && forall x :: x in old(cacheData) ==> old(stamp)[x] <= old(stamp)[discarded.value]
    {
      discarded := None;
      StampedTracks(order, cacheData, stamp, clock, OldestFirst);
      if k !in cacheData && |cacheData| + 1 > maxItems {
        StampedLastIsNewest(order, cacheData, stamp, clock);
        var last := PopLast();
        discarded := Some(last);
      }
    }

    /** The write step of `put`: `cache_data[key] = item`, then `move_to_end(key, last=True)`. */
    method WriteLast(k: K, v: V)
      requires Valid() && (|cacheData| < maxItems || k in cacheData)
      modifies this
      ensures Valid()
      ensures k in old(cacheData) <==> k in old(order)
      ensures cacheData == old(cacheData)[k := v]
      ensures k in old(cacheData) ==> order == MoveToEnd(old(order), k)
      ensures k !in old(cacheData) ==> order == old(order) + [k]
      ensures stamp == old(stamp)[k := old(clock)] && clock == old(clock) + 1
    {
      StampedHas(order, cacheData, stamp, clock, OldestFirst, k);
      if k in cacheData {
        Rewrite(k, v);
      } else {
        Append(k, v);
      }
    }

    /** A present key: the value is replaced in place, then the key moves to the end. */
    method Rewrite(k: K, v: V)
      requires Valid() && k in cacheData && k in order
      modifies this
      ensures Valid()
      ensures cacheData == old(cacheData)[k := v] && order == MoveToEnd(old(order), k)
      ensures stamp == old(stamp)[k := old(clock)] && clock == old(clock) + 1
    {
      StampedAssign(order, cacheData, stamp, clock, OldestFirst, k, v);
      StampedMoveToEnd(order, cacheData[k := v], stamp, clock, k);
      assert |cacheData[k := v]| == |cacheData|;
      cacheData, order := cacheData[k := v], MoveToEnd(order, k);
      stamp, clock := stamp[k := clock], clock + 1;
    }

    /** A new key: it is appended, and moving it to the end leaves it there. */
    method Append(k: K, v: V)
      requires Valid() && k !in cacheData && |cacheData| < maxItems
      modifies this
      ensures Valid()
      ensures cacheData == old(cacheData)[k := v] && order == old(order) + [k]
      ensures stamp == old(stamp)[k := old(clock)] && clock == old(clock) + 1
    {
      StampedHas(order, cacheData, stamp, clock, OldestFirst, k);
      StampedAppend(order, cacheData, stamp, clock, k, v);
      MoveLastToEnd(order, k);
      assert |cacheData[k := v]| == |cacheData| + 1;
      cacheData, order := cacheData[k := v], MoveToEnd(order + [k], k);
      stamp, clock := stamp[k := clock], clock + 1;
    }

    /** `cache_data.popitem(last=True)`: the last entry leaves and its key is returned. */
    method PopLast() returns (last: K)
      requires Consistent() && |order| > 0
      modifies this
      ensures Consistent()
      ensures last == old(order)[|old(order)| - 1] && order == old(order)[..|old(order)| - 1]
      ensures cacheData == old(cacheData) - {last} && stamp == old(stamp) - {last} && clock == old(clock)
    {
      last := order[|order| - 1];
      StampedDropLast(order, cacheData, stamp, clock, OldestFirst);
      order := order[..|order| - 1];
      cacheData := cacheData - {last};
      stamp := stamp - {last};
    }
  }
}
