/**
 * Short runs of each cache with `MAX_ITEMS == 2`, as a client would issue
 * them. Each outcome follows from the contracts of `put` and `get` alone.
 */
module CacheScenarios {
  import opened Wrappers
  import Orders
  import BasicCaching
  import FifoCaching
  import LifoCaching
  import LruCaching
  import MruCaching
  import LfuCaching

  /** A stored item is read back, and a put with a `None` item is ignored. */
  method BasicReadBack() returns (r: Option<int>, ignored: Option<int>)
    ensures r == Some(1) && ignored == None
  {
    var c := new BasicCaching.BasicCache<char, int>();
    c.Put(Some('a'), Some(1));
    c.Put(Some('b'), None);
    r := c.Get(Some('a'));
    ignored := c.Get(Some('b'));
  }

  /** `put(a); put(b); put(c)` drops `a`, the first one in. */
  method FifoDropsFirstIn() returns (d: Option<char>, keys: set<char>)
    ensures d == Some('a') && keys == {'b', 'c'}
  {
    var c := new FifoCaching.FifoCache<char, int>(2);
    FifoFill(c);
    d := c.Put(Some('c'), Some(3));
    keys := c.cacheData.Keys;
  }

  /** `put(a); put(b)` on an empty FIFO cache. */
  method FifoFill(c: FifoCaching.FifoCache<char, int>)
    requires c.Valid() && c.maxItems == 2 && c.order == [] && c.cacheData == map[]
    modifies c
    ensures c.Valid() && c.order == ['a', 'b'] && c.cacheData == map['a' := 1, 'b' := 2] && |c.cacheData| == 2
  {
    var _ := c.Put(Some('a'), Some(1));
    var _ := c.Put(Some('b'), Some(2));
  }

  /** `put(a); put(b); put(c)` drops `b`, the last one put. */
  method LifoDropsLastIn() returns (d: Option<char>, keys: set<char>)
    ensures d == Some('b') && keys == {'a', 'c'}
  {
    var c := new LifoCaching.LifoCache<char, int>(2);
    LifoFill(c);
    d := c.Put(Some('c'), Some(3));
    keys := c.cacheData.Keys;
  }

  /** `put(a); put(b)` on an empty LIFO cache. */
  method LifoFill(c: LifoCaching.LifoCache<char, int>)
    requires c.Valid() && c.maxItems == 2 && c.order == [] && c.cacheData == map[]
    modifies c
    ensures c.Valid() && c.order == ['a', 'b'] && c.cacheData == map['a' := 1, 'b' := 2] && |c.cacheData| == 2
  {
    var _ := c.Put(Some('a'), Some(1));
    var _ := c.Put(Some('b'), Some(2));
  }

  /** Putting `a` again makes it the last one put, so `c` then drops `a`. */
  method LifoUpdateCountsAsPut() returns (d: Option<char>, keys: set<char>)
    ensures d == Some('a') && keys == {'b', 'c'}
  {
    var c := new LifoCaching.LifoCache<char, int>(2);
    LifoFill(c);
    var _ := c.Put(Some('a'), Some(10));
    assert c.order == ['b', 'a'] by {
      assert Orders.Remove(['a', 'b'], 'a') == ['b'];
    }
    d := c.Put(Some('c'), Some(3));
    keys := c.cacheData.Keys;
  }

  /** `put(a); put(b); get(a); put(c)` drops `b`, the least recently used; an item `0` is ignored. */
  method LruDropsLeastRecent() returns (d: Option<char>, keys: set<char>, hit: Option<int>)
    ensures d == Some('b') && keys == {'a', 'c'} && hit == Some(1)
  {
    var c := new LruCaching.LruCache<char, int>(2, k => true, v => v != 0);
    LruFill(c);
    hit := LruIgnoreThenRead(c);
    d := LruPutAfterRead(c);
    keys := c.cacheData.Keys;
  }

  /** `put(c)` once `a` has been read after `b` was put. */
  method LruPutAfterRead(c: LruCaching.LruCache<char, int>) returns (d: Option<char>)
    requires c.Valid() && c.maxItems == 2 && c.keys == ['b', 'a'] && c.cacheData == map['a' := 1, 'b' := 2]
    requires |c.cacheData| == 2 && c.keyTruthy('c') && c.itemTruthy(3)
    modifies c
    ensures d == Some('b') && c.cacheData.Keys == {'a', 'c'}
  {
    d := c.Put(Some('c'), Some(3));
  }

  /** `put(a); put(b)` on an empty LRU cache. */
  method LruFill(c: LruCaching.LruCache<char, int>)
    requires c.Valid() && c.maxItems == 2 && c.keys == [] && c.cacheData == map[]
    requires c.keyTruthy('a') && c.keyTruthy('b') && c.itemTruthy(1) && c.itemTruthy(2)
    modifies c
    ensures c.Valid() && c.keys == ['a', 'b'] && c.cacheData == map['a' := 1, 'b' := 2] && |c.cacheData| == 2
  {
    var _ := c.Put(Some('a'), Some(1));
    var _ := c.Put(Some('b'), Some(2));
  }

  /** `put(z, 0)`, which is ignored, then `get(a)`, which makes `a` the most recent. */
  method LruIgnoreThenRead(c: LruCaching.LruCache<char, int>) returns (hit: Option<int>)
    requires c.Valid() && c.maxItems == 2 && c.keys == ['a', 'b'] && c.cacheData == map['a' := 1, 'b' := 2]
    requires !c.itemTruthy(0)
    modifies c
    ensures c.Valid() && c.keys == ['b', 'a'] && c.cacheData == map['a' := 1, 'b' := 2] && |c.cacheData| == 2
    ensures hit == Some(1)
  {
    var _ := c.Put(Some('z'), Some(0));
    hit := c.Get(Some('a'));
    assert c.keys == ['b', 'a'] by {
      assert Orders.Remove(['a', 'b'], 'a') == ['b'];
    }
  }

  /** `put(a); put(b); get(a); put(c)` drops `a`, the most recently read. */
  method MruDropsMostRecent() returns (d: Option<char>, keys: set<char>)
    ensures d == Some('a') && keys == {'b', 'c'}
  {
    var c := new MruCaching.MruCache<char, int>(2);
    MruFill(c);
    MruRead(c);
    d := c.Put(Some('c'), Some(3));
    keys := c.cacheData.Keys;
  }

  /** `get(a)` after `put(a); put(b)`: `a` comes back to the front. */
  method MruRead(c: MruCaching.MruCache<char, int>)
    requires c.Valid() && c.maxItems == 2 && c.order == ['b', 'a'] && c.cacheData == map['a' := 1, 'b' := 2]
    modifies c
    ensures c.Valid() && c.order == ['a', 'b'] && c.cacheData == map['a' := 1, 'b' := 2] && |c.cacheData| == 2
  {
    var _ := c.Get(Some('a'));
    assert c.order == ['a', 'b'] by {
      assert Orders.Remove(['b', 'a'], 'a') == ['b'];
    }
  }

  /** `put(a); put(b)` on an empty MRU cache. */
  method MruFill(c: MruCaching.MruCache<char, int>)
    requires c.Valid() && c.maxItems == 2 && c.order == [] && c.cacheData == map[]
    modifies c
    ensures c.Valid() && c.order == ['b', 'a'] && c.cacheData == map['a' := 1, 'b' := 2] && |c.cacheData| == 2
  {
    var _ := c.Put(Some('a'), Some(1));
    var _ := c.Put(Some('b'), Some(2));
  }

  /** `put(a); put(b); get(a); get(a); put(c)` drops `b`, used once against three uses of `a`. */
  method LfuDropsLeastUsed() returns (d: Option<char>, keys: set<char>, uses: nat)
    ensures d == Some('b') && keys == {'a', 'c'} && uses == 3
  {
    var c := new LfuCaching.LfuCache<char, int>(2);
    LfuFill(c);
    LfuReadTwice(c);
    d := LfuPutAfterReads(c);
    keys := c.cacheData.Keys;
    uses := c.stats['a'];
  }

  /** `put(c)` once `a` has three uses and `b` one. */
  method LfuPutAfterReads(c: LfuCaching.LfuCache<char, int>) returns (d: Option<char>)
    requires c.Valid() && c.maxItems == 2 && c.cacheData == map['a' := 1, 'b' := 2] && |c.cacheData| == 2
    requires c.stats == map['a' := 3, 'b' := 1]
    modifies c
    ensures d == Some('b') && c.cacheData.Keys == {'a', 'c'} && 'a' in c.stats && c.stats['a'] == 3
  {
    ghost var stats, since := c.stats, c.since;
    assert 'c' !in c.cacheData;
    d := c.Put(Some('c'), Some(3));
    assert d.Some?;
    LeastUsedOnce(stats, since, d.value);
  }

  /** `get(a)` twice: `a` is now used three times. */
  method LfuReadTwice(c: LfuCaching.LfuCache<char, int>)
    requires c.Valid() && c.cacheData == map['a' := 1, 'b' := 2] && c.stats == map['a' := 1, 'b' := 1]
    modifies c
    ensures c.Valid() && c.cacheData == map['a' := 1, 'b' := 2] && c.stats == map['a' := 3, 'b' := 1]
    ensures |c.cacheData| == 2
  {
    LfuRead(c, 1);
    LfuRead(c, 2);
  }

  /** `get(a)` on a cache holding `a` and `b`: one more use of `a`. */
  method LfuRead(c: LfuCaching.LfuCache<char, int>, uses: nat)
    requires c.Valid() && c.cacheData == map['a' := 1, 'b' := 2] && c.stats == map['a' := uses, 'b' := 1]
    modifies c
    ensures c.Valid() && c.cacheData == map['a' := 1, 'b' := 2] && c.stats == map['a' := uses + 1, 'b' := 1]
  {
    var r := c.Get(Some('a'));
    assert r.Some?;
    assert c.stats == map['a' := uses, 'b' := 1]['a' := uses + 1];
  }

  /** `put(a); put(b); put(c)`: `a` and `b` are used once each, and `a`, counted first, goes. */
  method LfuTieGoesToFirstCounted() returns (d: Option<char>, keys: set<char>)
    ensures d == Some('a') && keys == {'b', 'c'}
  {
    var c := new LfuCaching.LfuCache<char, int>(2);
    LfuFill(c);
    d := LfuPutAfterFill(c);
    keys := c.cacheData.Keys;
  }

  /** `put(c)` once `a` and `b` have one use each, `a` counted first. */
  method LfuPutAfterFill(c: LfuCaching.LfuCache<char, int>) returns (d: Option<char>)
    requires c.Valid() && c.maxItems == 2 && c.cacheData == map['a' := 1, 'b' := 2] && |c.cacheData| == 2
    requires c.stats == map['a' := 1, 'b' := 1] && c.since.Keys == {'a', 'b'} && c.since['a'] < c.since['b']
    modifies c
    ensures d == Some('a') && c.cacheData.Keys == {'b', 'c'}
  {
    ghost var stats, since := c.stats, c.since;
    assert 'c' !in c.cacheData;
    d := c.Put(Some('c'), Some(3));
    assert d.Some?;
    TieBreak(stats, since, d.value);
  }

  /** `put(a); put(b)` on an empty LFU cache: both used once, `a` counted first. */
  method LfuFill(c: LfuCaching.LfuCache<char, int>)
    requires c.Valid() && c.maxItems == 2 && c.cacheData == map[] && c.stats == map[] && c.since == map[]
    modifies c
    ensures c.Valid() && c.cacheData == map['a' := 1, 'b' := 2] && |c.cacheData| == 2
    ensures c.stats == map['a' := 1, 'b' := 1]
    ensures c.since == map['a' := old(c.clock), 'b' := old(c.clock) + 1]
  {
    LfuPutFirst(c);
    assert 'b' !in c.cacheData && |c.cacheData| < c.maxItems;
    var _ := c.Put(Some('b'), Some(2));
  }

  /** `put(a)` on an empty LFU cache. */
  method LfuPutFirst(c: LfuCaching.LfuCache<char, int>)
    requires c.Valid() && c.maxItems == 2 && c.cacheData == map[] && c.stats == map[] && c.since == map[]
    modifies c
    ensures c.Valid() && c.cacheData == map['a' := 1] && |c.cacheData| == 1
    ensures c.stats == map['a' := 1] && c.since == map['a' := old(c.clock)] && c.clock == old(c.clock) + 1
  {
    var _ := c.Put(Some('a'), Some(1));
  }

  /** Of two keys used once each, the one counted first is the eviction rule's choice. */
  lemma TieBreak(stats: map<char, nat>, since: map<char, nat>, d: char)
    requires stats == map['a' := 1, 'b' := 1] && since.Keys == {'a', 'b'} && since['a'] < since['b']
    requires LfuCaching.LeastFrequentOldest(stats, since, d)
    ensures d == 'a'
  {
    assert d in stats.Keys;
  }

  /** A key used three times is not the eviction rule's choice against a key used once. */
  lemma LeastUsedOnce(stats: map<char, nat>, since: map<char, nat>, d: char)
    requires stats == map['a' := 3, 'b' := 1]
    requires LfuCaching.LeastFrequentOldest(stats, since, d)
    ensures d == 'b'
  {
    assert d in stats.Keys;
    assert stats[d] <= stats['b'];
  }
}
