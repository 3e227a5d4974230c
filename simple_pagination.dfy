/**
 * `Server.get_page` of 0x00-pagination/1-simple_pagination.py over a given
 * dataset (the rows of the CSV file without its header). The `get_page` of
 * 3-hypermedia_del_pagination.py is the same code.
 */
module SimplePagination {
  import opened Wrappers
  import opened PageRange

  /**
   * The rows of page `page`: nothing when the page starts past the end,
   * otherwise `data[start:end]`, which Python cuts short at the end.
   */
  function GetPage<Row>(data: seq<Row>, page: int, pageSize: int): (r: seq<Row>)
    requires page > 0 && pageSize > 0
    ensures |r| <= pageSize
    ensures IndexRange(page, pageSize).0 >= |data| ==> r == []
    ensures IndexRange(page, pageSize).0 < |data| ==> |r| == Min(pageSize, |data| - IndexRange(page, pageSize).0)
    ensures forall i :: 0 <= i < |r| ==> r[i] == data[IndexRange(page, pageSize).0 + i]
  {
    var (start, end) := IndexRange(page, pageSize);
    if start > |data| then [] else data[start..Min(end, |data|)]
  }

  /** The concatenation of pages `1 .. n`. */
  ghost function PagesUpTo<Row>(data: seq<Row>, n: nat, pageSize: int): seq<Row>
    requires pageSize > 0
  {
    if n == 0 then [] else PagesUpTo(data, n - 1, pageSize) + GetPage(data, n, pageSize)
  }

  /** A page is the slice of the data between the clamped ends of its index range. */
  lemma PageSlice<Row>(data: seq<Row>, page: int, pageSize: int)
    requires page > 0 && pageSize > 0
    ensures var (start, end) := IndexRange(page, pageSize);
      GetPage(data, page, pageSize) == data[Min(start, |data|)..Min(end, |data|)]
  {
  }

  /**
   * Pages `1 .. n` read in turn give the rows before the start of page
   * `n + 1`, no row twice and none skipped.
   */
  lemma {:induction false} FirstPages<Row>(data: seq<Row>, n: nat, pageSize: int)
    requires pageSize > 0
    ensures PagesUpTo(data, n, pageSize) == data[..Min(IndexRange(n + 1, pageSize).0, |data|)]
  {
    if n > 0 {
      var lo, hi := Min(IndexRange(n, pageSize).0, |data|), Min(IndexRange(n, pageSize).1, |data|);
      calc {
        PagesUpTo(data, n, pageSize);
        PagesUpTo(data, n - 1, pageSize) + GetPage(data, n, pageSize);
        { FirstPages(data, n - 1, pageSize); PageSlice(data, n, pageSize); }
        data[..lo] + data[lo..hi];
        { assert data[..hi] == data[..lo] + data[lo..hi]; }
        data[..hi];
        { PagesTile(n, pageSize); }
        data[..Min(IndexRange(n + 1, pageSize).0, |data|)];
      }
    }
  }

  /** Two consecutive pages are adjacent slices of the data. */
  lemma ConsecutivePages<Row>(data: seq<Row>, page: int, pageSize: int)
    requires page > 0 && pageSize > 0
    ensures (page - 1) * pageSize < |data| ==>
      GetPage(data, page, pageSize) + GetPage(data, page + 1, pageSize)
        == data[(page - 1) * pageSize..Min((page + 1) * pageSize, |data|)]
  {
    var start := (page - 1) * pageSize;
    assert start + pageSize == page * pageSize;
    assert page * pageSize + pageSize == (page + 1) * pageSize;
    if start < |data| {
      var mid := Min(page * pageSize, |data|);
      assert GetPage(data, page, pageSize) == data[start..mid];
      if page * pageSize < |data| {
        assert GetPage(data, page + 1, pageSize) == data[mid..Min((page + 1) * pageSize, |data|)];
      }
    }
  }
}
