/**
 * LRUCache of 0x01-caching/3-lru_cache.py: a dictionary plus a list `keys`
 * from least to most recently used. Puts and hits move their key to the end
 * of the list; a new key arriving at a full cache drops `keys[0]`.
 */
module LruCaching {
  import opened Wrappers
  import opened Orders

  /** Python's `bool(x)`: `None` is false, any other object as `truthy` says. */
  predicate Truthy<T>(x: Option<T>, truthy: T -> bool): (b: bool)
    ensures x.None? ==> !b
  {
    x.Some? && truthy(x.value)
  }

  class LruCache<K(==), V> {
    /** `BaseCaching.MAX_ITEMS`. */
    const maxItems: nat
    /** The truth value of each key and each item (`0`, `""`, `[]` and the like are false). */
    const keyTruthy: K -> bool
    const itemTruthy: V -> bool
    /** `cache_data`. */
    var cacheData: map<K, V>
    /** `self.keys`. */
    var keys: seq<K>
    /** When each present key was last put or read. */
    ghost var stamp: map<K, nat>
    ghost var clock: nat

    /** `keys` lists the keys of `cache_data` from least to most recently used, within the bound. */
    ghost predicate Valid()
      reads this
    {
      1 <= maxItems && Stamped(keys, cacheData, stamp, clock, OldestFirst) && |cacheData| <= maxItems
    }

    constructor (maxItems: nat, keyTruthy: K -> bool, itemTruthy: V -> bool)
      requires 1 <= maxItems
      ensures Valid() && this.maxItems == maxItems
      ensures this.keyTruthy == keyTruthy && this.itemTruthy == itemTruthy
      ensures cacheData == map[] && keys == []
    {
      this.maxItems := maxItems;
      this.keyTruthy, this.itemTruthy := keyTruthy, itemTruthy;
      cacheData, keys := map[], [];
      stamp, clock := map[], 0;
    }

    /** `put`: returns the key reported by `DISCARD:`, if any. */
    method Put(key: Option<K>, item: Option<V>) returns (discarded: Option<K>)
      requires Valid()
      modifies this
      ensures Valid()
      // a false key or a false item is ignored
      ensures !Truthy(key, keyTruthy) || !Truthy(item, itemTruthy) ==> unchanged(this) && discarded == None
      ensures Truthy(key, keyTruthy) && Truthy(item, itemTruthy) ==>
        && key.value in cacheData && cacheData[key.value] == item.value
        && keys[|keys| - 1] == key.value
      // every accepted put stamps the key with the current time; a discarded key loses its stamp
      ensures Truthy(key, keyTruthy) && Truthy(item, itemTruthy) ==>
        && stamp == (if discarded.Some? then old(stamp) - {discarded.value} else old(stamp))[key.value := old(clock)]
        && clock == old(clock) + 1
      ensures Truthy(key, keyTruthy) && Truthy(item, itemTruthy) && key.value in old(keys) ==>
        && cacheData == old(cacheData)[key.value := item.value]
        && keys == MoveToEnd(old(keys), key.value) && discarded == None
      ensures Truthy(key, keyTruthy) && Truthy(item, itemTruthy) && key.value !in old(keys) && |old(cacheData)| < maxItems ==>
        && cacheData == old(cacheData)[key.value := item.value]
        && keys == old(keys) + [key.value] && discarded == None
      ensures Truthy(key, keyTruthy) && Truthy(item, itemTruthy) && key.value !in old(keys) && |old(cacheData)| == maxItems ==>
        && discarded == Some(old(keys)[0])
        && cacheData == (old(cacheData) - {old(keys)[0]})[key.value := item.value]
        && keys == old(keys)[1..] + [key.value]
      // the discarded key is the least recently used of the keys that were present
      ensures discarded.Some? ==>
        && discarded != key && discarded.value in old(cacheData) && discarded.value !in cacheData
        && forall x :: x in old(cacheData) ==> old(stamp)[discarded.value] <= old(stamp)[x]
    {
      discarded := None;
      if Truthy(key, keyTruthy) && Truthy(item, itemTruthy) {
        var k, v := key.value, item.value;
        StampedTracks(keys, cacheData, stamp, clock, OldestFirst);
        StampedHas(keys, cacheData, stamp, clock, OldestFirst, k);
        if |cacheData| == maxItems && k !in keys {
          StampedFirstIsOldest(keys, cacheData, stamp, clock);
          var delKey := PopFront();
          discarded := Some(delKey);
        }
        assert |cacheData| < maxItems || k in keys;
        Touch(k, v);
      }
    }

    /** `del_key = self.keys.pop(0)` and `del self.cache_data[del_key]`. */
    method PopFront() returns (delKey: K)
      requires 1 <= maxItems && Stamped(keys, cacheData, stamp, clock, OldestFirst) && |keys| > 0
      modifies this
      ensures Stamped(keys, cacheData, stamp, clock, OldestFirst)
      ensures delKey == old(keys)[0] && keys == old(keys)[1..]
      ensures cacheData == old(cacheData) - {delKey} && stamp == old(stamp) - {delKey} && clock == old(clock)
    {
      delKey := keys[0];
      StampedDropFirst(keys, cacheData, stamp, clock, OldestFirst);
      keys, cacheData, stamp := keys[1..], cacheData - {delKey}, stamp - {delKey};
    }

    /** The end of `put`: drop `k` from `keys` if there, store the item, append `k`. */
    method Touch(k: K, v: V)
      requires Stamped(keys, cacheData, stamp, clock, OldestFirst)
      modifies this
      ensures Stamped(keys, cacheData, stamp, clock, OldestFirst)
      ensures cacheData == old(cacheData)[k := v] && stamp == old(stamp)[k := old(clock)] && clock == old(clock) + 1
      ensures keys == if k in old(keys) then MoveToEnd(old(keys), k) else old(keys) + [k]
    {
      StampedHas(keys, cacheData, stamp, clock, OldestFirst, k);
      if k in keys {
        StampedMoveToEnd(keys, cacheData, stamp, clock, k);
        StampedAssign(MoveToEnd(keys, k), cacheData, stamp[k := clock], clock + 1, OldestFirst, k, v);
        keys := Remove(keys, k);
      } else {
        StampedAppend(keys, cacheData, stamp, clock, k, v);
      }
      cacheData := cacheData[k := v];
      keys := keys + [k];
      stamp, clock := stamp[k := clock], clock + 1;
    }

    /** `get`: a hit moves the key to the end of `keys`. */
    method Get(key: Option<K>) returns (r: Option<V>)
      requires Valid()
      modifies this
      ensures Valid()
      ensures r.Some? <==> key.Some? && key.value in old(cacheData)
      ensures r.Some? ==> r.value == old(cacheData)[key.value]
      ensures cacheData == old(cacheData)
      ensures r.Some? ==> key.value in old(keys) && keys == MoveToEnd(old(keys), key.value)
      ensures r.Some? ==> stamp == old(stamp)[key.value := old(clock)] && clock == old(clock) + 1
      ensures r.None? ==> unchanged(this)
    {
      if key.Some? {
        StampedHas(keys, cacheData, stamp, clock, OldestFirst, key.value);
      }
      if key.Some? && key.value in keys {
        MoveKeyToEnd(key.value);
      }
      r := Lookup(cacheData, key);
    }

    /** `self.keys.remove(key)` followed by `self.keys.append(key)`. */
    method MoveKeyToEnd(k: K)
      requires Stamped(keys, cacheData, stamp, clock, OldestFirst) && k in keys
      modifies this
      ensures Stamped(keys, cacheData, stamp, clock, OldestFirst)
      ensures keys == MoveToEnd(old(keys), k) && cacheData == old(cacheData)
      ensures stamp == old(stamp)[k := old(clock)] && clock == old(clock) + 1
    {
      StampedMoveToEnd(keys, cacheData, stamp, clock, k);
      keys := Remove(keys, k);
      keys := keys + [k];
      stamp, clock := stamp[k := clock], clock + 1;
    }
  }
}
