# alx-backend: caching and pagination in Dafny

This project models two groups of Python exercises from the alx-backend
repository.

The first group is the bounded key/value caches of `0x01-caching`: `BasicCache`,
`FIFOCache`, `LIFOCache`, `LRUCache`, `MRUCache` and `LFUCache`. Each cache is a
Dafny `class`. Its fields are those the Python object updates in place:
- `cache_data`, modelled as a `map`;
- the iteration order of an `OrderedDict`, or the `keys` list of `LRUCache`, modelled as a `seq`;
- for `LFUCache`, the `__stats` counter dictionary, modelled as a `map` plus its key order.

Every `put`, and the `get` of `LRUCache`, `MRUCache` and `LFUCache`, is a
`modifies this` method whose contract gives the whole new state. The `get` of
`BasicCache` and `FIFOCache` changes nothing and has no `modifies` clause;
`LIFOCache` has no `get` of its own.
- `put` returns the key it reports with `DISCARD:` as an `Option`.
- A Python `None` key or item is `None` of `Option`.

Every eviction rule is also stated independently of the order fields. A ghost
clock stamps each key when it is inserted, put or read; which events count
depends on the cache. The contract of `put` then says which key was dropped:
- FIFO: the one inserted earliest.
- LIFO: the one put last, updates included.
- LRU: the one least recently put or read.
- MRU: the one most recently inserted or read.
- LFU: the one with the fewest uses, the earliest counted of a tie.

Short scenario methods derive concrete outcomes from these contracts alone.

The second group is the pagination helpers of `0x00-pagination`:
- `index_range`;
- `Server.get_page` over a given dataset;
- `Server.get_hyper`, with its page count and neighbouring pages;
- the deletion-resilient `Server.get_hyper_index`, a loop over the indexed dataset.

The indexed dataset is given as the sequence of its `(index, row)` items in
iteration order. The lemmas show several things:
- pages tile the data;
- reading pages 1 to n gives a prefix of the data;
- `get_hyper`'s links are present exactly when the neighbouring page exists;
- without deletions, `get_hyper_index` returns the same rows `get_page` does.

One module per source file: `BasicCaching`, `FifoCaching`, `LifoCaching`,
`LruCaching`, `MruCaching`, `LfuCaching`, `PageRange`, `SimplePagination`,
`HypermediaPagination` and `DelPagination`. Shared definitions live in
`Wrappers` (Python's `None`-or-value) and `Orders` (sequences as key orders,
and the stamp orderings). `CacheScenarios` holds the scenarios.

## Model

| member | source | states |
|---|---|---|
| Wrappers.Lookup | 0x01-caching/0-basic_cache.py:28 | `dict.get(key, None)`: a value exactly when the key is not `None` and present, and then the stored one |
| BasicCaching.BasicCache.constructor | 0x01-caching/0-basic_cache.py:9 | the cache starts empty |
| BasicCaching.BasicCache.Put | 0x01-caching/0-basic_cache.py:15-21 | a `None` key or item leaves the cache as it was; otherwise exactly that key is set; nothing is removed, the size grows by at most one and every other key keeps its item |
| BasicCaching.BasicCache.Get | 0x01-caching/0-basic_cache.py:23-28 | changes nothing; returns the stored item of a present key and `None` otherwise |
| FifoCaching.FifoCache.constructor | 0x01-caching/1-fifo_cache.py:21-28 | an empty ordered dictionary with the given bound |
| FifoCaching.FifoCache.Put | 0x01-caching/1-fifo_cache.py:30-43 | a `None` key or item is a no-op; a present key gets its new item in place with nothing dropped; a new key is appended, and if that overflows the bound the front key is dropped and reported; the put key is always there afterwards; only a key inserted no later than every other present key is dropped, never the put key; a new key is stamped with the current time and the dropped key loses its stamp, while an update leaves every stamp alone; the order keeps listing the keys within the bound |
| FifoCaching.FifoCache.AssignAndTrim | 0x01-caching/1-fifo_cache.py:40-43 | a new key written into a full cache, then `popitem(False)`: the front key goes, it is the earliest inserted, and the new key ends the order with the current time as its stamp |
| FifoCaching.FifoCache.Assign | 0x01-caching/1-fifo_cache.py:40 | `cache_data[key] = item`: a new key is appended and stamped, a present key keeps its place and stamp |
| FifoCaching.FifoCache.Get | 0x01-caching/1-fifo_cache.py:45-51 | changes nothing; the stored item of a present key, `None` otherwise |
| LifoCaching.LifoCache.constructor | 0x01-caching/2-lifo_cache.py:23-33 | an empty ordered dictionary with the given bound |
| LifoCaching.LifoCache.Put | 0x01-caching/2-lifo_cache.py:35-59 | a `None` key or item is a no-op; a present key is never a cause for eviction and moves to the end with its new item; a new key at a full cache first drops the last key and reports it; after every put the key holds the item and is last; every other key keeps its item; every put, update or not, stamps the key with the current time and the dropped key loses its stamp; the dropped key is the most recently put of those present, updates included |
| LifoCaching.LifoCache.MakeRoom | 0x01-caching/2-lifo_cache.py:53-56 | only a new key at a full cache causes `popitem(True)`, which drops and returns the last key, the most recently put one |
| LifoCaching.LifoCache.WriteLast | 0x01-caching/2-lifo_cache.py:58-59 | `cache_data[key] = item` then `move_to_end(key)`: the key holds the item and is last, whether it was present or not |
| LifoCaching.LifoCache.Rewrite | 0x01-caching/2-lifo_cache.py:58-59 | a present key gets its item in place and is then moved to the end |
| LifoCaching.LifoCache.Append | 0x01-caching/2-lifo_cache.py:58-59 | a new key is appended, and moving it to the end leaves it there |
| LifoCaching.LifoCache.PopLast | 0x01-caching/2-lifo_cache.py:55 | `popitem(True)`: the last key leaves map and order and is returned |
| LruCaching.Truthy | 0x01-caching/3-lru_cache.py:34 | the `if key and item` test: `None` is false, any other object as its truth value says |
| LruCaching.LruCache.constructor | 0x01-caching/3-lru_cache.py:16-21 | empty `cache_data` and an empty `keys` list |
| LruCaching.LruCache.Put | 0x01-caching/3-lru_cache.py:23-43 | a false key or false item (not only `None`) is ignored; otherwise the key ends `keys` and holds the item; a present key just moves to the end; a new key at a full cache first drops `keys[0]` from both structures and reports it; the dropped key is the least recently put or read, never the put key; every accepted put stamps the key with the current time and the dropped key loses its stamp; `keys` keeps listing each present key once, within the bound |
| LruCaching.LruCache.PopFront | 0x01-caching/3-lru_cache.py:37-38 | `keys.pop(0)` and `del cache_data[del_key]` |
| LruCaching.LruCache.Touch | 0x01-caching/3-lru_cache.py:40-43 | `keys.remove(key)` if present, the assignment, then `keys.append(key)`: the key is last and restamped |
| LruCaching.LruCache.Get | 0x01-caching/3-lru_cache.py:45-62 | a hit returns the stored item, leaves the items alone, moves the key to the end of `keys` and stamps it with the current time; a miss returns `None` and changes nothing |
| LruCaching.LruCache.MoveKeyToEnd | 0x01-caching/3-lru_cache.py:58-60 | `keys.remove(key)` then `keys.append(key)` |
| MruCaching.MruCache.constructor | 0x01-caching/4-mru_cache.py:19-26 | an empty ordered dictionary with the given bound |
| MruCaching.MruCache.Put | 0x01-caching/4-mru_cache.py:28-47 | a `None` key or item is a no-op; a present key gets its item and keeps its place, with nothing dropped; a new key goes to the front, first dropping and reporting the front key when the cache is full; a new key is stamped with the current time and the dropped key loses its stamp, while an update leaves every stamp alone; the dropped key is the most recently inserted or read one |
| MruCaching.MruCache.PopFirst | 0x01-caching/4-mru_cache.py:41 | `popitem(last=False)`: the front key leaves and is returned |
| MruCaching.MruCache.InsertFront | 0x01-caching/4-mru_cache.py:44-45 | a new key is appended, then `move_to_end(key, last=False)` puts it before the others |
| MruCaching.MruCache.Get | 0x01-caching/4-mru_cache.py:49-56 | a hit moves the key to the front, stamps it with the current time and returns its unchanged item; a miss returns `None` and changes nothing |
| LfuCaching.FirstMin | 0x01-caching/100-lfu_cache.py:89 | `min(__stats, key=__stats.get)`: an index of a smallest count, and no earlier index has that count |
| LfuCaching.FirstMinIsLeastFrequentOldest | 0x01-caching/100-lfu_cache.py:89 | the key `min` picks from the `__stats` order has the fewest uses, and no key with as few uses entered `__stats` earlier |
| LfuCaching.LeastFrequentOldestUnique | 0x01-caching/100-lfu_cache.py:89 | that description names at most one key, so the eviction choice is fully determined |
| LfuCaching.LfuCache.constructor | 0x01-caching/100-lfu_cache.py:19-31 | empty `cache_data` and `__stats` |
| LfuCaching.LfuCache.Put | 0x01-caching/100-lfu_cache.py:33-49 | a `None` key or item changes nothing; a present key gets its item and one more use, keeps its place in `__stats` and drops nothing; a new key starts with one use at the end of `__stats`; at a full cache a new key first drops the least used key, the earliest counted of a tie, from both dictionaries, and reports it; the dropped key is never the put key; `__stats` keeps counting exactly the keys of `cache_data`, each at least once, within the bound |
| LfuCaching.LfuCache.Store | 0x01-caching/100-lfu_cache.py:47 | `cache_data.update({key: item})` once room is made: the key holds the item, and the counts are untouched |
| LfuCaching.LfuCache.Balance | 0x01-caching/100-lfu_cache.py:70-93 | a counted key gets one more use and nothing is dropped; a new key at a full cache drops the key the eviction rule names and returns it; a new key gets count 1 at the end of `__stats` |
| LfuCaching.LfuCache.Evict | 0x01-caching/100-lfu_cache.py:89-91 | the `min` choice, then its removal from both dictionaries |
| LfuCaching.LfuCache.LeastUsed | 0x01-caching/100-lfu_cache.py:89 | changes nothing and returns the present key the eviction rule names |
| LfuCaching.LfuCache.Drop | 0x01-caching/100-lfu_cache.py:90-91 | `cache_data.pop(keyOut)` and `__stats.pop(keyOut)`: one key fewer in both |
| LfuCaching.LfuCache.Register | 0x01-caching/100-lfu_cache.py:92 | `__stats.get(keyIn, 0) + 1` for a new key: count 1, at the end of the order |
| LfuCaching.LfuCache.Increment | 0x01-caching/100-lfu_cache.py:92 | one more use of a counted key, which keeps its place in the order |
| LfuCaching.LfuCache.Get | 0x01-caching/100-lfu_cache.py:51-68 | a hit returns the stored item and adds one use; a miss returns `None` and changes nothing; the items and the `__stats` order never change |
| Orders.Remove | 0x01-caching/3-lru_cache.py:40-41 | `list.remove` on a present key gives a list one shorter |
| Orders.IndexOf | 0x01-caching/3-lru_cache.py:41 | the position `list.remove` works on: an occurrence of the key with none before it |
| Orders.RemoveFirst | 0x01-caching/3-lru_cache.py:41 | `list.remove` drops exactly the first occurrence of the key, and the other keys keep their order |
| Orders.RemoveIn | 0x01-caching/3-lru_cache.py:41 | in a list without repetitions, exactly the other keys remain |
| Orders.MoveToEnd | 0x01-caching/2-lifo_cache.py:59 | `move_to_end(key)`: same length, the key last |
| Orders.MoveToFront | 0x01-caching/4-mru_cache.py:45 | `move_to_end(key, last=False)`: same length, the key first |
| Orders.MoveLastToEnd | 0x01-caching/2-lifo_cache.py:58-59 | moving a just-appended key to the end changes nothing |
| Orders.MoveLastToFront | 0x01-caching/4-mru_cache.py:44-45 | moving a just-appended key to the front puts it before all the others |
| Orders.TracksSize | 0x01-caching/3-lru_cache.py:35-36 | when a list holds each key of the dictionary once, their lengths agree, so `len(cache_data)` may be read off the order |
| Orders.StampedFirstIsOldest | 0x01-caching/1-fifo_cache.py:42 | in an oldest-first order the front key is the oldest present |
| Orders.StampedLastIsNewest | 0x01-caching/2-lifo_cache.py:55 | in an oldest-first order the last key is the newest present |
| Orders.StampedFirstIsNewest | 0x01-caching/4-mru_cache.py:41 | in a newest-first order the front key is the newest present |
| Orders.StampedMoveToEnd | 0x01-caching/3-lru_cache.py:59-60 | moving a key to the end while restamping it keeps the order oldest first |
| Orders.StampedMoveToFront | 0x01-caching/4-mru_cache.py:55 | moving a key to the front while restamping it keeps the order newest first |
| Orders.StampedRemove | 0x01-caching/100-lfu_cache.py:90-91 | removing a key from order, map and stamps keeps the bookkeeping consistent |
| PageRange.IndexRange | 0x00-pagination/0-simple_helper_function.py:7-20 | `end - start == page_size`; page 1 starts at 0; for `page >= 1` and `page_size >= 0`, `0 <= start <= end` |
| PageRange.PagesTile | 0x00-pagination/0-simple_helper_function.py:18-20 | the end of page `p` is the start of page `p + 1` |
| PageRange.PageOf | 0x00-pagination/1-simple_pagination.py:20-22 | every index `i >= 0` is on page `i / page_size + 1` |
| PageRange.PageOfUnique | 0x00-pagination/3-hypermedia_del_pagination.py:33 | and on no other page, so pages do not overlap |
| SimplePagination.GetPage | 0x00-pagination/1-simple_pagination.py:57-73 | at most `page_size` rows; none when the page starts at or past the end; otherwise `min(page_size, len - start)` rows, row `i` being `data[start + i]` |
| SimplePagination.PageSlice | 0x00-pagination/3-hypermedia_del_pagination.py:84-88 | a page is the slice of the data between the clamped ends of its index range |
| SimplePagination.FirstPages | 0x00-pagination/1-simple_pagination.py:69-73 | pages `1 .. n` read in turn are the data before the start of page `n + 1`: no row twice, none skipped |
| SimplePagination.ConsecutivePages | 0x00-pagination/1-simple_pagination.py:69-73 | two consecutive pages together are one contiguous slice of the data |
| HypermediaPagination.IndexRange | 0x00-pagination/2-hypermedia_pagination.py:12-23 | this file's formula computes the same range as the helper's |
| HypermediaPagination.GetPage | 0x00-pagination/2-hypermedia_pagination.py:52-71 | the plain slice gives the same rows as the `get_page` with the early return, so the `IndexError` branch is never taken |
| HypermediaPagination.CeilDiv | 0x00-pagination/2-hypermedia_pagination.py:85 | `math.ceil(a / b)`: the least `r` with `a <= r * b` |
| HypermediaPagination.GetHyper | 0x00-pagination/2-hypermedia_pagination.py:73-96 | `page` is echoed and `page_size` counts the returned rows, at most the requested size; `total_pages` is the ceiling of `len / page_size`; `next_page` is `page + 1` exactly when that page has rows, and then this page is full; `prev_page` is `page - 1` exactly when `page > 1`; this page has rows exactly when `page <= total_pages` |
| HypermediaPagination.PageBounds | 0x00-pagination/2-hypermedia_pagination.py:85-86 | with `total_pages` pages, a page starts before the end exactly when its number is at most `total_pages` |
| DelPagination.Eligible | 0x00-pagination/3-hypermedia_del_pagination.py:113-115 | the rows whose index passes the walk's `i >= start` test, in iteration order |
| DelPagination.EligibleAllOrNone | 0x00-pagination/3-hypermedia_del_pagination.py:114-115 | the test selects at most every row: all of them when every index is at least `start`, none when every index is below it |
| DelPagination.Take | 0x00-pagination/3-hypermedia_del_pagination.py:115-117 | at most `page_size` leading rows, in order |
| DelPagination.Cut | 0x00-pagination/3-hypermedia_del_pagination.py:114-121 | the items the loop has walked once the page fills: they hold `page_size` rows at or after the start, and the last of them is one |
| DelPagination.EligiblePrefix | 0x00-pagination/3-hypermedia_del_pagination.py:114-118 | the rows collected from a prefix of the items begin the rows collected from all of them |
| DelPagination.CutUnique | 0x00-pagination/3-hypermedia_del_pagination.py:119-121 | the point where the page fills is unique |
| DelPagination.EligibleWithoutGaps | 0x00-pagination/3-hypermedia_del_pagination.py:113-118 | when no row was deleted, the rows at or after `start` are the rows from position `start` on |
| DelPagination.HyperIndexWithoutGaps | 0x00-pagination/3-hypermedia_del_pagination.py:69-121 | without deletions, index `(page - 1) * page_size` gives exactly page `page` of `get_page` |
| DelPagination.GetHyperIndex | 0x00-pagination/3-hypermedia_del_pagination.py:90-128 | `index` is echoed and `page_size` is the number of rows; the rows are the first `page_size` rows, in iteration order, whose index is at least `index`, so gaps do not shrink the page; `next_index` is present exactly when the page filled and an item follows the last collected one, and then it is that item's index |
| CacheScenarios.BasicReadBack | 0x01-caching/0-basic_cache.py:20-28 | a stored item is read back; a put with a `None` item stores nothing |
| CacheScenarios.FifoDropsFirstIn | 0x01-caching/1-fifo_cache.py:40-43 | with room for two, `put(a); put(b); put(c)` drops `a` and keeps `b` and `c` |
| CacheScenarios.LifoDropsLastIn | 0x01-caching/2-lifo_cache.py:53-59 | the same puts drop `b`, the last one put |
| CacheScenarios.LifoUpdateCountsAsPut | 0x01-caching/2-lifo_cache.py:58-59 | putting `a` again makes it the last one put, so `put(c)` then drops `a` |
| CacheScenarios.LruDropsLeastRecent | 0x01-caching/3-lru_cache.py:34-43 | an item `0` is ignored; after `get(a)` the next new key drops `b` |
| CacheScenarios.MruDropsMostRecent | 0x01-caching/4-mru_cache.py:39-56 | after `get(a)` the next new key drops `a` |
| CacheScenarios.LfuDropsLeastUsed | 0x01-caching/100-lfu_cache.py:64-92 | after two hits on `a`, a new key drops `b`, and `a` has three uses |
| CacheScenarios.LfuTieGoesToFirstCounted | 0x01-caching/100-lfu_cache.py:89 | of two keys used once each, the one counted first is dropped |
| CacheScenarios.TieBreak | 0x01-caching/100-lfu_cache.py:89 | for the scenario's counts `a = 1, b = 1`, with `a` counted before `b`, the eviction rule names `a` |
| CacheScenarios.LeastUsedOnce | 0x01-caching/100-lfu_cache.py:89 | for the scenario's counts `a = 3, b = 1`, the eviction rule names `b` |

## Left out

- `BaseCaching` (imported from `base_caching`, which is not among the modelled files): `MAX_ITEMS` is a constructor parameter of at least 1, and `cache_data` starts empty. `print_cache` is not modelled. `LIFOCache` has no `get` of its own, and none is invented for it.
- The `print("DISCARD: ...")` output: `put` returns the reported key instead.
- The `RLock` of `LFUCache`: the model is single-threaded.
- Python truthiness in `LRUCache.put`: a key or item is false when it is `None` or when the functions given to the constructor say so (`0`, `""`, `[]` and the like). No concrete type decides this.
- The eviction stamps (`stamp`, `since`, `clock`) are ghost fields. They let the contracts say which key is oldest, newest, or least used. The Python objects keep no such data.
- `Server.dataset()` (CSV reading, dropping the header, caching the list): the dataset is a parameter.
- `Server.indexed_dataset()`: it is called but not defined in the repository. The items of the dictionary it would return are a parameter. Distinct indexes are not required: the walk is modelled as written, over whatever items it is given.
- The runtime type checks (`type(page) == int`): the parameters are `int`. The asserts on the values become preconditions. `index is None` cannot arise with an `int` parameter.
- The default arguments (`page=1`, `page_size=10` of `get_page` and `get_hyper`, `index=None`, `page_size=10` of `get_hyper_index`): every parameter is passed explicitly.
- Orders.Remove: on a missing key it returns the sequence unchanged, where `list.remove` raises `ValueError` and `dict.pop` raises `KeyError`. Every call the caches make is on a present key (`3-lru_cache.py` lines 40-41 and 58-59 test `key in self.keys` first; `100-lfu_cache.py` lines 90-91 pop the key `min` just returned). So the error path is never taken.
- `math.ceil` over float division: it is integer ceiling division. That agrees with it while the sizes are exact as floats, below 2^53.
- The `index_range` of `1-simple_pagination.py` and of `3-hypermedia_del_pagination.py` is the same expression as that of `0-simple_helper_function.py`. All three are `PageRange.IndexRange`.
- Likewise, the `get_page` of `3-hypermedia_del_pagination.py` is the same code as the one in `1-simple_pagination.py`. Both are `SimplePagination.GetPage`.
- Where the repository's prose describes the textbook policies, the model follows the code:
  - `MRUCache.put` on a present key does not move it to the front.
  - `LIFOCache.put` moves every put key to the end, updates included. So an update decides which key is dropped next.
  - `FIFOCache.put` writes first and trims afterwards.
  - No cache checks its capacity argument.
