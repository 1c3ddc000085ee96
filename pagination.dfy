/**
 * The `usePagination` hook: the current page is state that only `SetCurrentPage`
 * changes; the total page count, the 1-based start and end indices shown to the
 * user and the page's items are derived from the items, the page size and the page.
 */
module Pagination {
  import opened Seqs

  /** What the hook returns besides the page state and its setter. */
  datatype PageView<T> = PageView(currentItems: seq<T>, startIndex: int, endIndex: int, totalPages: nat)

  /** `Math.ceil(n / k)`. */
  function TotalPages(n: nat, k: nat): (t: nat)
    requires k > 0
    ensures n <= t * k
    ensures t == 0 || (t - 1) * k < n
    ensures t == 0 <==> n == 0
  {
    (n + k - 1) / k
  }

  /** `items.length ? (currentPage - 1) * itemsPerPage + 1 : 0`. */
  function StartIndex(n: nat, k: nat, page: int): int {
    if n > 0 then (page - 1) * k + 1 else 0
  }

  /** `Math.min(currentPage * itemsPerPage, items.length)`. */
  function EndIndex(n: nat, k: nat, page: int): (e: int)
    ensures e <= n
  {
    Min(page * k, n)
  }

  /** `items.slice((currentPage - 1) * itemsPerPage, currentPage * itemsPerPage)`. */
  function CurrentItems<T>(items: seq<T>, k: nat, page: int): seq<T> {
    Slice(items, (page - 1) * k, page * k)
  }

  function Paginate<T>(items: seq<T>, k: nat, page: int): PageView<T>
    requires k > 0
  {
    PageView(CurrentItems(items, k, page), StartIndex(|items|, k, page), EndIndex(|items|, k, page),
             TotalPages(|items|, k))
  }

  lemma MulMonotone(a: int, b: int, k: nat)
    requires a <= b
    ensures a * k <= b * k
  {
  }

  /** For a page from 1 on, the page is the contiguous run of at most `k` items starting at `(page-1)*k`. */
  lemma {:induction false} PageIsContiguousSlice<T>(items: seq<T>, k: nat, page: int)
    requires k > 0 && page >= 1
    ensures var v := Paginate(items, k, page); var lo := (page - 1) * k;
      && |v.currentItems| <= k
      && |v.currentItems| == Max(0, Min(page * k, |items|) - lo)
      && (forall i :: 0 <= i < |v.currentItems| ==> v.currentItems[i] == items[lo + i])
      && v.endIndex <= |items|
  {
    MulMonotone(0, page - 1, k);
    assert (page - 1) * k + k == page * k;
  }

  /** On every existing page the shown range has as many entries as the page has items. */
  lemma {:induction false} PageCountMatchesRange<T>(items: seq<T>, k: nat, page: int)
    requires k > 0
    requires 1 <= page <= TotalPages(|items|, k)
    ensures var v := Paginate(items, k, page);
      && 1 <= v.startIndex <= v.endIndex <= |items|
      && |v.currentItems| == v.endIndex - v.startIndex + 1
  {
    var t := TotalPages(|items|, k);
    MulMonotone(page - 1, t - 1, k);
    MulMonotone(0, page - 1, k);
    assert (page - 1) * k + k == page * k;
    PageIsContiguousSlice(items, k, page);
  }

  /** The page is never clamped: past the last page nothing is shown and the range is empty. */
  lemma {:induction false} PastLastPage<T>(items: seq<T>, k: nat, page: int)
    requires k > 0
    requires page > TotalPages(|items|, k)
    ensures var v := Paginate(items, k, page);
      && v.currentItems == []
      && (|items| > 0 ==> v.startIndex > v.endIndex)
      && (|items| == 0 ==> v.startIndex == 0 == v.endIndex)
  {
    var t := TotalPages(|items|, k);
    MulMonotone(t, page - 1, k);
    MulMonotone(0, page - 1, k);
    assert (page - 1) * k + k == page * k;
    PageIsContiguousSlice(items, k, page);
  }

  /** Page 0 shows nothing. */
  lemma PageZeroIsEmpty<T>(items: seq<T>, k: nat)
    requires k > 0
    ensures CurrentItems(items, k, 0) == []
  {
  }

  /** A negative page is not rejected: `slice` counts negative bounds from the end of the list. */
  lemma {:induction false} NegativePageCountsFromEnd<T>(items: seq<T>, k: nat, page: int)
    requires k > 0 && page < 0
    requires |items| + (page - 1) * k >= 0
    ensures CurrentItems(items, k, page) == items[|items| + (page - 1) * k..|items| + page * k]
  {
    assert (page - 1) * k + k == page * k;
    MulMonotone(page, 0, k);
  }

  /** The empty list has no pages and shows the range 0-0 on page 1. */
  lemma EmptyListView<T>(items: seq<T>, k: nat)
    requires k > 0 && items == []
    ensures Paginate(items, k, 1) == PageView([], 0, 0, 0)
  {
  }

  /** Pages `from + 1` to the last one, in order. */
  function PagesFrom<T>(items: seq<T>, k: nat, from: nat): seq<seq<T>>
    requires k > 0 && from <= TotalPages(|items|, k)
  {
    seq(TotalPages(|items|, k) - from, i requires 0 <= i < TotalPages(|items|, k) - from =>
      CurrentItems(items, k, from + i + 1))
  }

  /** Every page from 1 to `totalPages`. */
  function AllPages<T>(items: seq<T>, k: nat): (pages: seq<seq<T>>)
    requires k > 0
    ensures |pages| == TotalPages(|items|, k)
  {
    PagesFrom(items, k, 0)
  }

  lemma {:induction false} PagesFromCoverRest<T>(items: seq<T>, k: nat, from: nat)
    requires k > 0 && from <= TotalPages(|items|, k)
    ensures Flatten(PagesFrom(items, k, from)) == items[Min(from * k, |items|)..]
    decreases TotalPages(|items|, k) - from
  {
    var n, t := |items|, TotalPages(|items|, k);
    var pages := PagesFrom(items, k, from);
    if from == t {
      assert pages == [];
    } else {
      MulMonotone(from, t - 1, k);
      assert from * k + k == (from + 1) * k;
      var first := CurrentItems(items, k, from + 1);
      assert first == items[from * k..Min((from + 1) * k, n)];
      assert pages[0] == first;
      assert pages[1..] == PagesFrom(items, k, from + 1);
      PagesFromCoverRest(items, k, from + 1);
      assert items[from * k..] == items[from * k..Min((from + 1) * k, n)] + items[Min((from + 1) * k, n)..];
    }
  }

  /**
   * The pages partition the list: concatenating pages 1..totalPages gives back
   * exactly the items, in order, and every page holds between 1 and `k` items.
   */
  lemma {:induction false} PagesPartitionItems<T>(items: seq<T>, k: nat)
    requires k > 0
    ensures Flatten(AllPages(items, k)) == items
    ensures forall i :: 0 <= i < |AllPages(items, k)| ==> 1 <= |AllPages(items, k)[i]| <= k
  {
    PagesFromCoverRest(items, k, 0);
    forall i | 0 <= i < |AllPages(items, k)|
      ensures 1 <= |AllPages(items, k)[i]| <= k
    {
      PageCountMatchesRange(items, k, i + 1);
      PageIsContiguousSlice(items, k, i + 1);
    }
  }

  /** Twenty-five items in pages of ten: pages 1 and 3 show 1-10 and 21-25 of three pages. */
  lemma TwentyFiveInPagesOfTen<T>(items: seq<T>)
    requires |items| == 25
    ensures Paginate(items, 10, 1) == PageView(items[0..10], 1, 10, 3)
    ensures Paginate(items, 10, 3) == PageView(items[20..25], 21, 25, 3)
  {
  }

  /** The hook's state: the current page, starting at 1 and changed only by `SetCurrentPage`. */
  class Pager {
    var currentPage: int

    constructor ()
      ensures currentPage == 1
    {
      currentPage := 1;
    }

    /** `setCurrentPage(page)`: any number is accepted, nothing clamps it. */
    method SetCurrentPage(page: int)
      modifies this
      ensures currentPage == page
    {
      currentPage := page;
    }

    /** The values the hook derives for `items` and `itemsPerPage` on the current page. */
    function View<T>(items: seq<T>, itemsPerPage: nat): PageView<T>
      requires itemsPerPage > 0
      reads this
    {
      Paginate(items, itemsPerPage, currentPage)
    }
  }
}
