/**
 * 0x00-pagination/2-hypermedia_pagination.py: its own `index_range`, a
 * `get_page` that slices without the early return, and `get_hyper`, which
 * wraps a page with the links to the neighbouring pages.
 */
module HypermediaPagination {
  import opened Wrappers
  import PageRange
  import SimplePagination

  /** This file's `index_range`, written with the factors the other way round. */
  function IndexRange(page: int, pageSize: int): (r: (int, int))
    ensures r == PageRange.IndexRange(page, pageSize)
  {
    (pageSize * (page - 1), page * pageSize)
  }

  /** This file's `get_page`: `data[start:end]`; a Python slice never raises `IndexError`. */
  function GetPage<Row>(data: seq<Row>, page: int, pageSize: int): (r: seq<Row>)
    requires page > 0 && pageSize > 0
    ensures r == SimplePagination.GetPage(data, page, pageSize)
  {
    var (start, end) := IndexRange(page, pageSize);
    data[Min(start, |data|)..Min(end, |data|)]
  }

  /** `math.ceil(a / b)` on whole numbers: the least `r` with `a <= r * b`. */
  function CeilDiv(a: nat, b: nat): (r: nat)
    requires b > 0
    ensures (r - 1) * b < a <= r * b
  {
    var q, m := (a + b - 1) / b, (a + b - 1) % b;
    assert a + b - 1 == q * b + m && 0 <= m < b;
    assert (q - 1) * b == q * b - b;
    q
  }

  /** The dictionary `get_hyper` returns. */
  datatype HyperPage<Row> = HyperPage(
    pageSize: nat,
    page: int,
    data: seq<Row>,
    nextPage: Option<int>,
    prevPage: Option<int>,
    totalPages: nat)

  /** `get_hyper`: the page with its size, the neighbouring page numbers and the page count. */
  function GetHyper<Row>(data: seq<Row>, page: int, pageSize: int): (r: HyperPage<Row>)
    requires page > 0 && pageSize > 0
    ensures r.page == page && r.data == SimplePagination.GetPage(data, page, pageSize)
    ensures r.pageSize == |r.data| <= pageSize
    // `total_pages` pages of `pageSize` rows hold the data, and one page fewer would not
    ensures (r.totalPages - 1) * pageSize < |data| <= r.totalPages * pageSize
    // a next page is offered exactly when it has rows
    ensures r.nextPage.Some? <==> SimplePagination.GetPage(data, page + 1, pageSize) != []
    ensures r.nextPage.Some? ==> r.nextPage.value == page + 1 && |r.data| == pageSize
    ensures r.prevPage.Some? <==> page > 1
    ensures r.prevPage.Some? ==> r.prevPage.value == page - 1
    // this page has rows exactly when it is one of the `total_pages` pages
    ensures r.data != [] <==> page <= r.totalPages
  {
    var rows := GetPage(data, page, pageSize);
    var totalPages := CeilDiv(|data|, pageSize);
    var nextPage := if page < totalPages then Some(page + 1) else None;
    var prevPage := if page > 1 then Some(page - 1) else None;
    PageBounds(|data|, page, pageSize, totalPages);
    PageBounds(|data|, page + 1, pageSize, totalPages);
    HyperPage(|rows|, page, rows, nextPage, prevPage, totalPages)
  }

  /** With `total` pages of `pageSize` rows, page `page` starts before the end exactly when `page <= total`. */
  lemma PageBounds(n: nat, page: int, pageSize: int, total: nat)
    requires page > 0 && pageSize > 0
    requires (total - 1) * pageSize < n <= total * pageSize
    ensures (page - 1) * pageSize < n <==> page <= total
  {
    if page <= total {
      PageRange.MulMonotone(page - 1, total - 1, pageSize);
    } else {
      PageRange.MulMonotone(total, page - 1, pageSize);
    }
  }
}
