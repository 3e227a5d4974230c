/**
 * `index_range` of 0x00-pagination/0-simple_helper_function.py: the half-open
 * range of row indexes that page `page` (counted from 1) covers when pages
 * hold `pageSize` rows each. The helpers of 1-simple_pagination.py and
 * 3-hypermedia_del_pagination.py compute the same expression.
 */
module PageRange {

  /** `(start, end)` of a page. */
  function IndexRange(page: int, pageSize: int): (r: (int, int))
    ensures r.1 - r.0 == pageSize
    ensures page == 1 ==> r.0 == 0
    ensures page >= 1 && pageSize >= 0 ==> 0 <= r.0 <= r.1
  {
    var start := (page - 1) * pageSize;
    var end := start + pageSize;
    (start, end)
  }

  /** A product grows with its left factor. */
  lemma MulMonotone(a: int, b: int, c: nat)
    requires a <= b
    ensures a * c <= b * c
  {
    assert b * c == a * c + (b - a) * c;
  }

  /** Each page ends where the next one starts, so pages tile the indexes without overlap. */
  lemma PagesTile(page: int, pageSize: int)
    ensures IndexRange(page, pageSize).1 == IndexRange(page + 1, pageSize).0
  {
    assert (page - 1) * pageSize + pageSize == page * pageSize;
  }

  /** Every index `i >= 0` lies on page `i / pageSize + 1`. */
  lemma PageOf(i: int, pageSize: int)
    requires 0 <= i && pageSize > 0
    ensures IndexRange(i / pageSize + 1, pageSize).0 <= i < IndexRange(i / pageSize + 1, pageSize).1
  {
    var q, m := i / pageSize, i % pageSize;
    assert i == q * pageSize + m && 0 <= m < pageSize;
    assert IndexRange(q + 1, pageSize).0 == q * pageSize;
  }

  /** ... and on no other page. */
  lemma PageOfUnique(i: int, pageSize: int, page: int)
    requires pageSize > 0
    requires IndexRange(page, pageSize).0 <= i < IndexRange(page, pageSize).1
    ensures page == i / pageSize + 1
  {
    var q, m := i / pageSize, i % pageSize;
    assert i == q * pageSize + m && 0 <= m < pageSize;
    if page - 1 < q {
      MulMonotone(page, q, pageSize);
    } else if page - 1 > q {
      MulMonotone(q + 1, page - 1, pageSize);
    }
  }
}
