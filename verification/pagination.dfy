/**
 * The page list of the pagination control (components/Pagination.tsx):
 * page numbers and "..." markers around the current page, and the
 * previous/next links. Links, URLs and rendering are not modelled.
 */
module Pagination {
  import opened JsBuiltins

  /** One entry of the `pages` array: a page number or the "..." marker. */
  datatype PageItem = Number(n: int) | Ellipsis

  /** The page numbers `lo..hi`, in order; empty when `lo > hi`. */
  function Run(lo: int, hi: int): (r: seq<PageItem>)
    ensures |r| == if lo <= hi then hi - lo + 1 else 0
    ensures forall k :: 0 <= k < |r| ==> r[k] == Number(lo + k)
    decreases hi - lo
  {
    if lo > hi then [] else [Number(lo)] + Run(lo + 1, hi)
  }

  lemma RunSnoc(lo: int, hi: int)
    requires lo <= hi
    ensures Run(lo, hi) == Run(lo, hi - 1) + [Number(hi)]
  {
  }

  /**
   * The list the control shows: every page when there are at most seven,
   * otherwise the first and last page, the current page and its
   * neighbours, and "..." for each gap.
   */
  function Window(currentPage: int, totalPages: int): seq<PageItem> {
    if totalPages <= 7 then Run(1, totalPages)
    else
      [Number(1)]
      + (if currentPage > 3 then [Ellipsis] else [])
      + Run(Max(2, currentPage - 1), Min(totalPages - 1, currentPage + 1))
      + (if currentPage < totalPages - 2 then [Ellipsis] else [])
      + [Number(totalPages)]
  }

  /**
   * The page-list construction: `null` (`None`) for a single page or none,
   * otherwise the `pages` array pushed entry by entry.
   */
  method PageList(currentPage: int, totalPages: int) returns (r: Option<seq<PageItem>>)
    ensures totalPages <= 1 ==> r == None
    ensures totalPages > 1 ==> r == Some(Window(currentPage, totalPages))
  {
    if totalPages <= 1 {
      return None;
    }
    var pages: seq<PageItem> := [];
    if totalPages <= 7 {
      var i := 1;
      while i <= totalPages
        invariant 1 <= i <= totalPages + 1
        invariant pages == Run(1, i - 1)
      {
        RunSnoc(1, i);
        pages := pages + [Number(i)];
        i := i + 1;
      }
    } else {
      pages := pages + [Number(1)];
      assert pages == [Number(1)];
      if currentPage > 3 {
        pages := pages + [Ellipsis];
      }
      var head := pages;
      assert head == [Number(1)] + (if currentPage > 3 then [Ellipsis] else []);
      var lo, hi := Max(2, currentPage - 1), Min(totalPages - 1, currentPage + 1);
      var i := lo;
      while i <= hi
        invariant lo <= i <= Max(lo, hi + 1)
        invariant pages == head + Run(lo, i - 1)
      {
        RunSnoc(lo, i);
        pages := pages + [Number(i)];
        i := i + 1;
      }
      assert pages == head + Run(lo, hi);
      if currentPage < totalPages - 2 {
        pages := pages + [Ellipsis];
      }
      pages := pages + [Number(totalPages)];
      assert pages == Window(currentPage, totalPages);
    }
    assert pages == Window(currentPage, totalPages);
    return Some(pages);
  }

  /** Entry `i` of a window with more than seven pages, read off its five parts. */
  lemma LargeWindowAt(currentPage: int, totalPages: int, i: int)
    requires totalPages > 7
    requires 0 <= i < |Window(currentPage, totalPages)|
    ensures var r := Window(currentPage, totalPages);
      var lo, hi := Max(2, currentPage - 1), Min(totalPages - 1, currentPage + 1);
      var left := if currentPage > 3 then 1 else 0;
      var m := if lo <= hi then hi - lo + 1 else 0;
      && |r| == 2 + left + m + (if currentPage < totalPages - 2 then 1 else 0)
      && r[i] == (if i == 0 then Number(1)
                  else if i < 1 + left then Ellipsis
                  else if i < 1 + left + m then Number(lo + i - 1 - left)
                  else if i < |r| - 1 then Ellipsis
                  else Number(totalPages))
  {
  }

  /** Numbers strictly increase from left to right and lie in `1..totalPages`. */
  predicate NumbersIncreasing(r: seq<PageItem>, totalPages: int) {
    && (forall i :: 0 <= i < |r| && r[i].Number? ==> 1 <= r[i].n <= totalPages)
    && (forall i, j :: 0 <= i < j < |r| && r[i].Number? && r[j].Number? ==> r[i].n < r[j].n)
  }

  /**
   * "..." stands exactly for skipped pages: it sits between two numbers more
   * than one apart, and two numbers side by side are consecutive pages.
   */
  predicate EllipsisMarksGaps(r: seq<PageItem>) {
    && |r| >= 2 && r[0].Number? && r[|r| - 1].Number?
    && (forall i :: 0 <= i < |r| - 1 && r[i].Number? && r[i + 1].Number? ==> r[i + 1].n == r[i].n + 1)
    && (forall i :: 0 < i < |r| - 1 && r[i].Ellipsis? ==>
          r[i - 1].Number? && r[i + 1].Number? && r[i + 1].n > r[i - 1].n + 1)
  }

  /** With two to seven pages the list is exactly `1..totalPages`, without "...". */
  lemma SmallWindow(currentPage: int, totalPages: int)
    requires 2 <= totalPages <= 7
    ensures var r := Window(currentPage, totalPages);
      |r| == totalPages && forall i :: 0 <= i < |r| ==> r[i] == Number(i + 1)
  {
  }

  /** With more than seven pages: first 1, last `totalPages`, at most seven entries. */
  lemma LargeWindowShape(currentPage: int, totalPages: int)
    requires totalPages > 7
    ensures var r := Window(currentPage, totalPages);
      && r[0] == Number(1) && r[|r| - 1] == Number(totalPages)
      && 2 <= |r| <= 7
  {
  }

  /** Whatever the current page, numbers strictly increase and stay in range. */
  lemma WindowIncreasing(currentPage: int, totalPages: int)
    requires totalPages > 1
    ensures NumbersIncreasing(Window(currentPage, totalPages), totalPages)
  {
  }

  /** Whatever the current page, "..." marks exactly the skipped runs. */
  lemma WindowGaps(currentPage: int, totalPages: int)
    requires totalPages > 1
    ensures EllipsisMarksGaps(Window(currentPage, totalPages))
  {
    if totalPages > 7 {
      LargeWindowGaps(currentPage, totalPages);
    }
  }

  lemma LargeWindowGaps(currentPage: int, totalPages: int)
    requires totalPages > 7
    ensures EllipsisMarksGaps(Window(currentPage, totalPages))
  {
    var r := Window(currentPage, totalPages);
    LargeWindowAt(currentPage, totalPages, 0);
    LargeWindowAt(currentPage, totalPages, |r| - 1);
    forall i | 0 <= i < |r| - 1 && r[i].Number? && r[i + 1].Number?
      ensures r[i + 1].n == r[i].n + 1
    {
      LargeWindowAt(currentPage, totalPages, i);
      LargeWindowAt(currentPage, totalPages, i + 1);
    }
    forall i | 0 < i < |r| - 1 && r[i].Ellipsis?
      ensures r[i - 1].Number? && r[i + 1].Number? && r[i + 1].n > r[i - 1].n + 1
    {
      LargeWindowAt(currentPage, totalPages, i - 1);
      LargeWindowAt(currentPage, totalPages, i);
      LargeWindowAt(currentPage, totalPages, i + 1);
    }
  }

  /** A current page in range is always shown. */
  lemma WindowShowsCurrent(currentPage: int, totalPages: int)
    requires 1 <= currentPage <= totalPages && totalPages > 1
    ensures Number(currentPage) in Window(currentPage, totalPages)
  {
    if totalPages > 7 {
      var r := Window(currentPage, totalPages);
      var left := if currentPage > 3 then 1 else 0;
      var k := if currentPage == 1 then 0
        else if currentPage == totalPages then |r| - 1
        else 1 + left + currentPage - Max(2, currentPage - 1);
      LargeWindowAt(currentPage, totalPages, k);
      assert r[k] == Number(currentPage);
    } else {
      assert Window(currentPage, totalPages)[currentPage - 1] == Number(currentPage);
    }
  }

  /**
   * For a current page in range and more than seven pages, the left "..."
   * appears exactly when page 2 is left out (`currentPage > 3`), the right
   * one exactly when page `totalPages - 1` is left out (`currentPage < totalPages - 2`).
   */
  lemma WindowEllipses(currentPage: int, totalPages: int)
    requires 1 <= currentPage <= totalPages && totalPages > 7
    ensures var r := Window(currentPage, totalPages);
      && (r[1] == Ellipsis <==> currentPage > 3)
      && (Number(2) in r <==> currentPage <= 3)
      && (r[|r| - 2] == Ellipsis <==> currentPage < totalPages - 2)
      && (Number(totalPages - 1) in r <==> currentPage >= totalPages - 2)
  {
  }

  /** The "Prev" or "Next" link: the page it leads to and whether it is disabled. */
  datatype NavLink = NavLink(target: int, disabled: bool)

  function PrevLink(currentPage: int): NavLink {
    NavLink(currentPage - 1, currentPage == 1)
  }

  function NextLink(currentPage: int, totalPages: int): NavLink {
    NavLink(currentPage + 1, currentPage == totalPages)
  }

  /**
   * On a page in range, Prev is disabled exactly on the first page and Next
   * exactly on the last, and an enabled link leads to a page in range.
   */
  lemma NavLinksInRange(currentPage: int, totalPages: int)
    requires 1 <= currentPage <= totalPages
    ensures PrevLink(currentPage).disabled <==> currentPage == 1
    ensures NextLink(currentPage, totalPages).disabled <==> currentPage == totalPages
    ensures !PrevLink(currentPage).disabled ==> 1 <= PrevLink(currentPage).target < currentPage
    ensures !NextLink(currentPage, totalPages).disabled ==>
      currentPage < NextLink(currentPage, totalPages).target <= totalPages
  {
  }
}
