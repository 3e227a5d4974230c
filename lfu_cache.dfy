/**
 * LFUCache of 0x01-caching/100-lfu_cache.py: `cache_data` plus a dictionary
 * `__stats` counting the puts and hits of every present key. A new key
 * arriving at a full cache drops the key with the smallest count; of several
 * such keys, Python's `min` takes the first in the iteration order of
 * `__stats`, which is the order in which the keys entered it.
 */
module LfuCaching {
  import opened Wrappers
  import opened Orders

  /**
   * The index Python's `min(order, key=freq.get)` picks: a left-to-right
   * scan that replaces its candidate only by a strictly smaller count.
   */
  function FirstMin<K>(order: seq<K>, freq: map<K, nat>): (i: nat)
    requires |order| > 0 && forall j :: 0 <= j < |order| ==> order[j] in freq
    ensures i < |order|
    ensures forall j :: 0 <= j < |order| ==> freq[order[i]] <= freq[order[j]]
    ensures forall j :: 0 <= j < i ==> freq[order[i]] < freq[order[j]]
  {
    if |order| == 1 then 0
    else
      var best := FirstMin(order[..|order| - 1], freq);
      if freq[order[|order| - 1]] < freq[order[best]] then |order| - 1 else best
  }

  /** Every counted key has been used at least once. */
  ghost predicate Positive<K>(stats: map<K, nat>) {
    forall k :: k in stats ==> stats[k] >= 1
  }

  /**
   * `d` is the key the eviction rule names: no key has a smaller count, and
   * of the keys with the same count none entered `__stats` earlier.
   */
  ghost predicate LeastFrequentOldest<K>(stats: map<K, nat>, since: map<K, nat>, d: K) {
    && since.Keys == stats.Keys
    && d in stats
    && (forall x :: x in stats ==> stats[d] <= stats[x])
    && (forall x :: x in stats && stats[x] == stats[d] ==> since[d] <= since[x])
  }

  /** The key order of a stamped map lists only its keys. */
  lemma StampedIndexIn<K, V>(order: seq<K>, m: map<K, V>, since: map<K, nat>, clock: nat)
    requires Stamped(order, m, since, clock, OldestFirst)
    ensures forall j :: 0 <= j < |order| ==> order[j] in m
  {
    forall j | 0 <= j < |order| ensures order[j] in m {
      ElemsIn(order, order[j]);
    }
  }

  /** The key `min` picks from the `__stats` order is the one the eviction rule names. */
  lemma FirstMinIsLeastFrequentOldest<K>(order: seq<K>, stats: map<K, nat>, since: map<K, nat>, clock: nat)
    requires Stamped(order, stats, since, clock, OldestFirst) && |order| > 0
    ensures forall j :: 0 <= j < |order| ==> order[j] in stats
    ensures LeastFrequentOldest(stats, since, order[FirstMin(order, stats)])
  {
    StampedIndexIn(order, stats, since, clock);
    var i := FirstMin(order, stats);
    var d := order[i];
    forall x | x in stats && stats[x] == stats[d] ensures since[d] <= since[x] {
      ElemsIn(order, x);
      var j :| 0 <= j < |order| && order[j] == x;
      if i < j {
        ChainPair(order, since, OldestFirst, i, j);
      }
    }
    forall x | x in stats ensures stats[d] <= stats[x] {
      ElemsIn(order, x);
    }
  }

  /** The eviction rule names at most one key, since no two keys entered `__stats` at the same time. */
  lemma LeastFrequentOldestUnique<K>(order: seq<K>, stats: map<K, nat>, since: map<K, nat>, clock: nat, a: K, b: K)
    requires Stamped(order, stats, since, clock, OldestFirst)
    requires LeastFrequentOldest(stats, since, a) && LeastFrequentOldest(stats, since, b)
    ensures a == b
  {
    ElemsIn(order, a);
    ElemsIn(order, b);
    var i :| 0 <= i < |order| && order[i] == a;
    var j :| 0 <= j < |order| && order[j] == b;
    if i < j {
      ChainPair(order, since, OldestFirst, i, j);
    } else if j < i {
      ChainPair(order, since, OldestFirst, j, i);
    }
  }

  /** Popping a present key shrinks a dictionary by one. */
  lemma MapRemoveSize<K, V>(m: map<K, V>, k: K)
    requires k in m
    ensures |m - {k}| == |m| - 1
  {
    assert (m - {k}).Keys == m.Keys - {k};
  }

  class LfuCache<K(==), V> {
    /** `BaseCaching.MAX_ITEMS`. */
    const maxItems: nat
    /** `cache_data`. */
    var cacheData: map<K, V>
    /** The counts of `__stats`. */
    var stats: map<K, nat>
    /** The iteration order of `__stats`. */
    var statsOrder: seq<K>
    /** When each key of `__stats` entered it (an increment does not count). */
    ghost var since: map<K, nat>
    ghost var clock: nat

    /** `__stats` counts exactly the keys of `cache_data`, and the cache is within the bound. */
    ghost predicate Valid()
      reads this
    {
      && 1 <= maxItems
      && Stamped(statsOrder, stats, since, clock, OldestFirst)
      && stats.Keys == cacheData.Keys
      && Positive(stats)
      && |cacheData| <= maxItems
    }

    constructor (maxItems: nat)
      requires 1 <= maxItems
      ensures Valid() && this.maxItems == maxItems
      ensures cacheData == map[] && stats == map[] && statsOrder == [] && since == map[]
    {
      this.maxItems := maxItems;
      cacheData, stats, statsOrder := map[], map[], [];
      since, clock := map[], 0;
    }

    /** `put`: returns the key reported by `DISCARD:`, if any. */
    method Put(key: Option<K>, item: Option<V>) returns (discarded: Option<K>)
      requires Valid()
      modifies this
      ensures Valid()
      ensures key.None? || item.None? ==> unchanged(this) && discarded == None
      // a present key gets the new item and one more use, and keeps its place in `__stats`
      ensures key.Some? && item.Some? && key.value in old(cacheData) ==>
        && cacheData == old(cacheData)[key.value := item.value]
        && stats == old(stats)[key.value := old(stats)[key.value] + 1]
        && statsOrder == old(statsOrder) && since == old(since) && clock == old(clock) && discarded == None
      // a new key starts with one use, after the other keys
      ensures key.Some? && item.Some? && key.value !in old(cacheData) && |old(cacheData)| < maxItems ==>
        && cacheData == old(cacheData)[key.value := item.value]
        && stats == old(stats)[key.value := 1]
        && statsOrder == old(statsOrder) + [key.value] && discarded == None
      ensures key.Some? && item.Some? && key.value !in old(cacheData) && |old(cacheData)| == maxItems ==>
        && discarded.Some?
        && cacheData == (old(cacheData) - {discarded.value})[key.value := item.value]
        && stats == (old(stats) - {discarded.value})[key.value := 1]
        && statsOrder == Remove(old(statsOrder), discarded.value) + [key.value]
      ensures key.Some? && item.Some? && key.value !in old(cacheData) ==>
        && since == (if discarded.Some? then old(since) - {discarded.value} else old(since))[key.value := old(clock)]
        && clock == old(clock) + 1
      // the discarded key is the least used of the keys that were present, the earliest of a tie
      ensures discarded.Some? ==>
        && discarded != key && discarded.value in old(cacheData) && discarded.value !in cacheData
        && LeastFrequentOldest(old(stats), old(since), discarded.value)
    {
      discarded := None;
      if key.None? || item.None? {
        return;
      }
      var k, v := key.value, item.value;
      discarded := Balance(k);
      Store(k, v);
    }

    /** `self.cache_data.update({key: item})` once `_balance` has made room. */
    method Store(k: K, v: V)
      requires 1 <= maxItems && Stamped(statsOrder, stats, since, clock, OldestFirst) && Positive(stats)
      requires stats.Keys == cacheData.Keys + {k} && |cacheData| <= maxItems
      requires |cacheData| < maxItems || k in cacheData
      modifies this
      ensures Valid()
      ensures cacheData == old(cacheData)[k := v]
      ensures stats == old(stats) && statsOrder == old(statsOrder) && since == old(since) && clock == old(clock)
    {
      if k !in cacheData {
        assert |cacheData[k := v]| == |cacheData| + 1;
      } else {
        assert |cacheData[k := v]| == |cacheData|;
      }
      cacheData := cacheData[k := v];
    }

    /**
     * `_balance`: makes room for a new key by dropping the least used one,
     * then counts one more use of `keyIn`.
     */
    method Balance(keyIn: K) returns (keyOut: Option<K>)
      requires Valid()
      modifies this
      ensures Stamped(statsOrder, stats, since, clock, OldestFirst) && Positive(stats)
      ensures stats.Keys == cacheData.Keys + {keyIn}
      ensures |cacheData| <= maxItems && (|cacheData| < maxItems || keyIn in cacheData)
      ensures keyIn in old(stats) ==>
        && keyOut == None && cacheData == old(cacheData)
        && stats == old(stats)[keyIn := old(stats)[keyIn] + 1] && statsOrder == old(statsOrder)
        && since == old(since) && clock == old(clock)
      ensures keyIn !in old(stats) ==>
        && since == (if keyOut.Some? then old(since) - {keyOut.value} else old(since))[keyIn := old(clock)]
        && clock == old(clock) + 1
      ensures keyIn !in old(stats) && |old(cacheData)| < maxItems ==>
        && keyOut == None && cacheData == old(cacheData)
        && stats == old(stats)[keyIn := 1] && statsOrder == old(statsOrder) + [keyIn]
      ensures keyIn !in old(stats) && |old(cacheData)| == maxItems ==>
        && keyOut.Some?
        && cacheData == old(cacheData) - {keyOut.value}
        && stats == (old(stats) - {keyOut.value})[keyIn := 1]
        && statsOrder == Remove(old(statsOrder), keyOut.value) + [keyIn]
      ensures keyOut.Some? ==>
        && keyOut.value != keyIn && keyOut.value in old(cacheData)
        && LeastFrequentOldest(old(stats), old(since), keyOut.value)
    {
      keyOut := None;
      if keyIn !in stats {
        if |cacheData| == maxItems {
          var d := Evict();
          keyOut := Some(d);
        }
        Register(keyIn);
      } else {
        Increment(keyIn);
      }
    }

    /**
     * `min(self.__stats, key=self.__stats.get)` followed by popping that key
     * from `cache_data` and from `__stats`.
     */
    method Evict() returns (d: K)
      requires Valid() && |cacheData| == maxItems
      modifies this
      ensures Stamped(statsOrder, stats, since, clock, OldestFirst) && Positive(stats)
      ensures stats.Keys == cacheData.Keys && |cacheData| < maxItems
      ensures d in old(cacheData) && LeastFrequentOldest(old(stats), old(since), d)
      ensures cacheData == old(cacheData) - {d} && stats == old(stats) - {d}
      ensures statsOrder == Remove(old(statsOrder), d) && since == old(since) - {d} && clock == old(clock)
    {
      d := LeastUsed();
      Drop(d);
    }

    /** `min(self.__stats, key=self.__stats.get)`: the first key of `__stats` with the smallest count. */
    method LeastUsed() returns (d: K)
      requires Valid() && |cacheData| > 0
      ensures d in cacheData && LeastFrequentOldest(stats, since, d)
    {
      StampedTracks(statsOrder, stats, since, clock, OldestFirst);
      assert |stats| == |cacheData| by {
        assert |stats.Keys| == |cacheData.Keys|;
      }
      FirstMinIsLeastFrequentOldest(statsOrder, stats, since, clock);
      d := statsOrder[FirstMin(statsOrder, stats)];
    }

    /** `self.cache_data.pop(keyOut)` and `self.__stats.pop(keyOut)`. */
    method Drop(d: K)
      requires Valid() && d in stats
      modifies this
      ensures Stamped(statsOrder, stats, since, clock, OldestFirst) && Positive(stats)
      ensures stats.Keys == cacheData.Keys && |cacheData| == |old(cacheData)| - 1
      ensures cacheData == old(cacheData) - {d} && stats == old(stats) - {d}
      ensures statsOrder == Remove(old(statsOrder), d) && since == old(since) - {d} && clock == old(clock)
    {
      StampedRemove(statsOrder, stats, since, clock, OldestFirst, d);
      MapRemoveSize(cacheData, d);
      statsOrder, stats, since, cacheData := Remove(statsOrder, d), stats - {d}, since - {d}, cacheData - {d};
    }

    /** `self.__stats[keyIn] = 0 + 1` for a new key, which joins the end of `__stats`. */
    method Register(k: K)
      requires Stamped(statsOrder, stats, since, clock, OldestFirst) && Positive(stats) && k !in stats
      modifies this
      ensures Stamped(statsOrder, stats, since, clock, OldestFirst) && Positive(stats)
      ensures stats == old(stats)[k := 1] && statsOrder == old(statsOrder) + [k]
      ensures since == old(since)[k := old(clock)] && clock == old(clock) + 1 && cacheData == old(cacheData)
    {
      StampedAppend(statsOrder, stats, since, clock, k, 1);
      statsOrder, stats := statsOrder + [k], stats[k := 1];
      since, clock := since[k := clock], clock + 1;
    }

    /** `self.__stats[key] += 1` for a counted key, which keeps its place. */
    method Increment(k: K)
      requires Stamped(statsOrder, stats, since, clock, OldestFirst) && Positive(stats) && k in stats
      modifies this
      ensures Stamped(statsOrder, stats, since, clock, OldestFirst) && Positive(stats)
      ensures stats == old(stats)[k := old(stats)[k] + 1]
      ensures statsOrder == old(statsOrder) && since == old(since) && clock == old(clock) && cacheData == old(cacheData)
    {
      StampedAssign(statsOrder, stats, since, clock, OldestFirst, k, stats[k] + 1);
      stats := stats[k := stats[k] + 1];
    }

    /** `get`: a hit counts one more use of the key; a miss changes nothing. */
    method Get(key: Option<K>) returns (r: Option<V>)
      requires Valid()
      modifies this
      ensures Valid()
      ensures r.Some? <==> key.Some? && key.value in old(cacheData)
      ensures r.Some? ==> r.value == old(cacheData)[key.value]
      ensures cacheData == old(cacheData) && statsOrder == old(statsOrder) && since == old(since) && clock == old(clock)
      ensures r.Some? ==> stats == old(stats)[key.value := old(stats)[key.value] + 1]
      ensures r.None? ==> unchanged(this)
    {
      r := Lookup(cacheData, key);
      if key.Some? && key.value in stats {
        Increment(key.value);
      }
    }
  }
}
