/**
 * `Server.get_hyper_index` of 0x00-pagination/3-hypermedia_del_pagination.py:
 * a walk over the indexed dataset, a dictionary from row index to row given
 * here as its items in iteration order, which may have gaps where rows were
 * deleted. The page holds the first `page_size` rows whose index is at least
 * the requested one, and `next_index` is the index of the entry right after.
 */
module DelPagination {
  import opened Wrappers
  import PageRange
  import SimplePagination

  /**
   * The rows of the entries whose index is at least `start`, in iteration
   * order: the rows the walk's `i >= start` test lets through.
   */
  function Eligible<Row>(data: seq<(int, Row)>, start: int): seq<Row>
  {
    if data == [] then []
    else
      var last := data[|data| - 1];
      Eligible(data[..|data| - 1], start) + (if last.0 >= start then [last.1] else [])
  }

  /**
   * At most every row is selected: all of them when every index is at least
   * `start`, and none when every index is below it.
   */
  lemma {:induction false} EligibleAllOrNone<Row>(data: seq<(int, Row)>, start: int)
    ensures |Eligible(data, start)| <= |data|
    ensures (forall j :: 0 <= j < |data| ==> data[j].0 >= start) ==> Eligible(data, start) == Rows(data)
    ensures (forall j :: 0 <= j < |data| ==> data[j].0 < start) ==> Eligible(data, start) == []
  {
    if data != [] {
      var init := data[..|data| - 1];
      assert forall j :: 0 <= j < |init| ==> init[j] == data[j];
      assert Rows(data) == Rows(init) + [data[|data| - 1].1];
      EligibleAllOrNone(init, start);
    }
  }

  /** The first `n` elements of `s` (none when `n <= 0`), as a slice that Python cuts short. */
  function Take<T>(s: seq<T>, n: int): (r: seq<T>)
    ensures |r| == if n <= 0 then 0 else Min(n, |s|)
    ensures forall i :: 0 <= i < |r| ==> r[i] == s[i]
  {
    if n <= 0 then [] else s[..Min(n, |s|)]
  }

  /**
   * The length of the shortest prefix of `data` holding `n` eligible entries:
   * it holds `n` of them and, unless it is empty, ends on one.
   */
  function Cut<Row>(data: seq<(int, Row)>, start: int, n: nat): (len: nat)
    requires n <= |Eligible(data, start)|
    ensures len <= |data| && |Eligible(data[..len], start)| == n
    ensures n == 0 ==> len == 0
    ensures n > 0 ==> data[len - 1].0 >= start
  {
    if n == 0 then
      assert data[..0] == [];
      0
    else
      var init := data[..|data| - 1];
      assert data[..|data|] == data;
      if |Eligible(init, start)| >= n then
        var len := Cut(init, start, n);
        assert data[..len] == init[..len];
        len
      else
        |data|
  }

  /** The eligible rows of a prefix begin the eligible rows of the whole. */
  lemma {:induction false} EligiblePrefix<Row>(data: seq<(int, Row)>, start: int, len: nat)
    requires len <= |data|
    ensures |Eligible(data[..len], start)| <= |Eligible(data, start)|
    ensures Eligible(data, start)[..|Eligible(data[..len], start)|] == Eligible(data[..len], start)
    decreases |data|
  {
    if len == |data| {
      assert data[..len] == data;
    } else {
      var init := data[..|data| - 1];
      assert data[..len] == init[..len];
      EligiblePrefix(init, start, len);
    }
  }

  /** The shortest prefix holding `n` eligible entries is unique, so it is the one `Cut` names. */
  lemma {:induction false} CutUnique<Row>(data: seq<(int, Row)>, start: int, n: nat, len: nat)
    requires len <= |data| && |Eligible(data[..len], start)| == n
    requires n == 0 ==> len == 0
    requires n > 0 ==> data[len - 1].0 >= start
    ensures n <= |Eligible(data, start)| && Cut(data, start, n) == len
    decreases |data|
  {
    EligiblePrefix(data, start, len);
    if n > 0 {
      var init := data[..|data| - 1];
      if len == |data| {
        assert data[..len] == data;
      } else {
        assert data[..len] == init[..len];
        CutUnique(init, start, n, len);
      }
    }
  }

  /** The rows of the entries, in iteration order. */
  function Rows<Row>(data: seq<(int, Row)>): (r: seq<Row>)
    ensures |r| == |data| && forall i :: 0 <= i < |data| ==> r[i] == data[i].1
  {
    seq(|data|, i requires 0 <= i < |data| => data[i].1)
  }

  /** No row was deleted: entry `j` holds row index `j`. */
  ghost predicate WithoutGaps<Row>(data: seq<(int, Row)>) {
    forall j :: 0 <= j < |data| ==> data[j].0 == j
  }

  /** Without gaps, the rows at or after `start` are the rows from position `start` on. */
  lemma {:induction false} EligibleWithoutGaps<Row>(data: seq<(int, Row)>, start: int)
    requires WithoutGaps(data) && 0 <= start
    ensures Eligible(data, start) == Rows(data)[Min(start, |data|)..]
  {
    if data != [] {
      var n := |data|;
      var init := data[..n - 1];
      EligibleWithoutGaps(init, start);
      assert Rows(init) == Rows(data)[..n - 1];
      if n - 1 >= start {
        assert Rows(data)[start..] == Rows(data)[start..n - 1] + [data[n - 1].1];
      }
    }
  }

  /** Without deletions, asking for index `(page - 1) * page_size` gives page `page` of `get_page`. */
  lemma HyperIndexWithoutGaps<Row>(data: seq<(int, Row)>, page: int, pageSize: int)
    requires WithoutGaps(data) && page > 0 && pageSize > 0
    ensures Take(Eligible(data, (page - 1) * pageSize), pageSize) == SimplePagination.GetPage(Rows(data), page, pageSize)
  {
    var start := (page - 1) * pageSize;
    assert start >= 0 by {
      PageRange.MulMonotone(0, page - 1, pageSize);
    }
    EligibleWithoutGaps(data, start);
    SimplePagination.PageSlice(Rows(data), page, pageSize);
  }

  /** The dictionary `get_hyper_index` returns. */
  datatype HyperIndex<Row> = HyperIndex(index: int, nextIndex: Option<int>, pageSize: nat, data: seq<Row>)

  /**
   * `get_hyper_index(index, page_size)` over `data`, the items of the indexed
   * dataset. The assertion of the source becomes the precondition: `index` is
   * at least 0 and at most the largest index.
   */
  method GetHyperIndex<Row>(data: seq<(int, Row)>, index: int, pageSize: int) returns (r: HyperIndex<Row>)
    requires 0 <= index && exists j :: 0 <= j < |data| && index <= data[j].0
    ensures r.index == index && r.pageSize == |r.data|
    // the page is the first `page_size` rows at or after `index`, skipping deleted indexes
    ensures r.data == Take(Eligible(data, index), pageSize)
    ensures 0 <= pageSize <= |Eligible(data, index)| ==> |r.data| == pageSize
    // a next index is given exactly when the page filled up and some entry follows its last row
    ensures r.nextIndex.Some? <==>
      0 <= pageSize <= |Eligible(data, index)| && Cut(data, index, pageSize) < |data|
    ensures r.nextIndex.Some? ==>
      |r.data| == pageSize && r.nextIndex.value == data[Cut(data, index, pageSize)].0
  {
    var pageData: seq<Row> := [];
    var dataCount := 0;
    var nextIndex: Option<int> := None;
    var start := if index != 0 then index else 0;
    for j := 0 to |data|
      invariant pageData == Take(Eligible(data[..j], start), pageSize) && dataCount == |pageData|
      invariant nextIndex == None
      invariant dataCount == pageSize ==>
        && |Eligible(data[..j], start)| == pageSize
        && (pageSize == 0 ==> j == 0)
        && (pageSize > 0 ==> data[j - 1].0 >= start)
    {
      var (i, item) := data[j];
      assert data[..j + 1][..j] == data[..j];
      if i >= start && dataCount < pageSize {
        pageData := pageData + [item];
        dataCount := dataCount + 1;
        continue;
      }
      if dataCount == pageSize {
        CutUnique(data, start, pageSize, j);
        EligiblePrefix(data, start, j);
        nextIndex := Some(i);
        break;
      }
    }
    if nextIndex.None? {
      assert data[..|data|] == data;
      if dataCount == pageSize {
        CutUnique(data, start, pageSize, |data|);
      }
    }
    r := HyperIndex(index, nextIndex, |pageData|, pageData);
  }
}
