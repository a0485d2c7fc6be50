/** Client-side pagination shared by the Accounts, Classes, Teachers and Notices
    pages: a page window `items.slice((p - 1) * k, p * k)`, a page count
    `Math.ceil(n / k)`, the Previous/Next steps and the page-number buttons. */
module Pagination {
  import opened Wrappers

  /** How `Array.prototype.slice` resolves an index against a length `n`:
      a negative index counts from the end, and the result is clipped to `0..n`. */
  function ResolveIndex(i: int, n: nat): (r: nat)
    ensures r <= n
    ensures 0 <= i <= n ==> r == i
    ensures i > n ==> r == n
    ensures i < 0 ==> r == Max(n + i, 0)
  {
    if i < 0 then Max(n + i, 0) else Min(i, n)
  }

  /** `xs.slice(start, end)`. */
  function JsSlice<T>(xs: seq<T>, start: int, end: int): seq<T>
  {
    var from := ResolveIndex(start, |xs|);
    var to := ResolveIndex(end, |xs|);
    if to <= from then [] else xs[from..to]
  }

  /** The rows shown on page `page` with `perPage` rows a page:
      `indexOfLast = page * perPage`, `indexOfFirst = indexOfLast - perPage`,
      `xs.slice(indexOfFirst, indexOfLast)`. */
  function PageWindow<T>(xs: seq<T>, page: int, perPage: nat): seq<T>
  {
    JsSlice(xs, page * perPage - perPage, page * perPage)
  }

  /** `Math.ceil(n / perPage)`. */
  function TotalPages(n: nat, perPage: nat): nat
    requires perPage > 0
  {
    (n + perPage - 1) / perPage
  }

  /** The page count is the ceiling of `n / perPage`: the least number of pages
      that hold `n` rows; it is 0 exactly for an empty list. */
  lemma TotalPagesIsCeiling(n: nat, perPage: nat)
    requires perPage > 0
    ensures TotalPages(n, perPage) * perPage >= n
    ensures TotalPages(n, perPage) > 0 ==> (TotalPages(n, perPage) - 1) * perPage < n
    ensures TotalPages(n, perPage) == 0 <==> n == 0
  {
    var t := TotalPages(n, perPage);
    var r := (n + perPage - 1) % perPage;
    assert n + perPage - 1 == t * perPage + r;
    assert (t - 1) * perPage == t * perPage - perPage;
  }

  /** For a page number from 1 on, the window is the slice between
      `(page - 1) * perPage` and `page * perPage`, clipped to the list,
      and so holds at most `perPage` rows. */
  lemma PageWindowIsClippedSlice<T>(xs: seq<T>, page: int, perPage: nat)
    requires perPage > 0 && page >= 1
    ensures Min((page - 1) * perPage, |xs|) <= Min(page * perPage, |xs|)
    ensures PageWindow(xs, page, perPage)
         == xs[Min((page - 1) * perPage, |xs|)..Min(page * perPage, |xs|)]
    ensures |PageWindow(xs, page, perPage)| <= perPage
  {
    assert page * perPage - perPage == (page - 1) * perPage;
    assert (page - 1) * perPage >= 0;
  }

  /** Page 0, which the Accounts page can reach, shows nothing. */
  lemma PageZeroIsEmpty<T>(xs: seq<T>, perPage: nat)
    ensures PageWindow(xs, 0, perPage) == []
  {
  }

  /** A page after the last one shows nothing. */
  lemma PageBeyondLastIsEmpty<T>(xs: seq<T>, page: int, perPage: nat)
    requires perPage > 0 && page > TotalPages(|xs|, perPage)
    ensures PageWindow(xs, page, perPage) == []
  {
    TotalPagesIsCeiling(|xs|, perPage);
    var t := TotalPages(|xs|, perPage);
    assert (page - 1) * perPage >= t * perPage by {
      assert page - 1 >= t;
    }
    PageWindowIsClippedSlice(xs, page, perPage);
  }

  /** Row `i` of the list is row `i % perPage` of page `i / perPage + 1`. */
  lemma RowOnItsPage<T>(xs: seq<T>, perPage: nat, i: nat)
    requires perPage > 0 && i < |xs|
    ensures i / perPage + 1 <= TotalPages(|xs|, perPage)
    ensures i % perPage < |PageWindow(xs, i / perPage + 1, perPage)|
    ensures PageWindow(xs, i / perPage + 1, perPage)[i % perPage] == xs[i]
  {
    var p := i / perPage + 1;
    assert i == (p - 1) * perPage + i % perPage;
    assert p * perPage == (p - 1) * perPage + perPage;
    PageWindowIsClippedSlice(xs, p, perPage);
    TotalPagesIsCeiling(|xs|, perPage);
    var t := TotalPages(|xs|, perPage);
    assert (p - 1) * perPage < t * perPage;
    CancelFactor(p - 1, t, perPage);
  }

  /** Cancelling a positive factor on both sides of `<`. */
  lemma CancelFactor(a: int, b: int, k: nat)
    requires k > 0 && a * k < b * k
    ensures a < b
  {
    assert (b - a) * k > 0;
  }

  /** Pages 1 to `count`, one after the other. */
  function Pages<T>(xs: seq<T>, perPage: nat, count: nat): seq<T>
  {
    if count == 0 then [] else Pages(xs, perPage, count - 1) + PageWindow(xs, count, perPage)
  }

  /** The first `count` pages are the first `count * perPage` rows. */
  lemma {:induction false} PagesArePrefix<T>(xs: seq<T>, perPage: nat, count: nat)
    requires perPage > 0
    ensures Pages(xs, perPage, count) == xs[..Min(count * perPage, |xs|)]
  {
    if count > 0 {
      PagesArePrefix(xs, perPage, count - 1);
      PageWindowIsClippedSlice(xs, count, perPage);
      var a := Min((count - 1) * perPage, |xs|);
      var b := Min(count * perPage, |xs|);
      assert (count - 1) * perPage <= count * perPage;
      assert xs[..a] + xs[a..b] == xs[..b];
    }
  }

  /** Read one after the other, pages 1 to `TotalPages` give back the whole
      list in order: every row is shown on exactly one page, none is lost. */
  lemma PagesCoverList<T>(xs: seq<T>, perPage: nat)
    requires perPage > 0
    ensures Pages(xs, perPage, TotalPages(|xs|, perPage)) == xs
  {
    TotalPagesIsCeiling(|xs|, perPage);
    PagesArePrefix(xs, perPage, TotalPages(|xs|, perPage));
  }

  /** The Previous handler of Accounts, Teachers and Notices: `Math.max(p - 1, 1)`. */
  function ClampedPrev(page: int): int
  {
    Max(page - 1, 1)
  }

  /** The Next handler of Accounts, Teachers and Notices: `Math.min(p + 1, totalPages)`. */
  function ClampedNext(page: int, totalPages: nat): int
  {
    Min(page + 1, totalPages)
  }

  /** Previous never goes below page 1 and, from a page above 1, goes back one page. */
  lemma ClampedPrevBounds(page: int)
    ensures ClampedPrev(page) >= 1
    ensures page > 1 ==> ClampedPrev(page) == page - 1
    ensures page >= 1 ==> ClampedPrev(page) <= page
  {
  }

  /** Next never goes past the last page and, from a page before it, advances one page;
      on an empty list (no pages) it goes to page 0. */
  lemma ClampedNextBounds(page: int, totalPages: nat)
    ensures ClampedNext(page, totalPages) <= totalPages
    ensures page < totalPages ==> ClampedNext(page, totalPages) == page + 1
    ensures page >= 0 ==> ClampedNext(page, totalPages) >= 0
    ensures totalPages == 0 && page >= 0 ==> ClampedNext(page, totalPages) == 0
  {
  }

  /** Starting from a page in 1..totalPages, Previous and Next stay in 1..totalPages. */
  lemma ClampedStepsStayInRange(page: int, totalPages: nat)
    requires 1 <= page <= totalPages
    ensures 1 <= ClampedPrev(page) <= totalPages
    ensures 1 <= ClampedNext(page, totalPages) <= totalPages
  {
  }

  /** The Previous button of Classes: disabled on page 1, otherwise `p - 1`. */
  function GuardedPrev(page: int): int
  {
    if page == 1 then page else page - 1
  }

  /** The Next button of Classes: disabled when `page == totalPages`, otherwise `p + 1`. */
  function GuardedNext(page: int, totalPages: nat): int
  {
    if page == totalPages then page else page + 1
  }

  /** From a page in 1..totalPages the guarded buttons stay in 1..totalPages. */
  lemma GuardedStepsStayInRange(page: int, totalPages: nat)
    requires 1 <= page <= totalPages
    ensures 1 <= GuardedPrev(page) <= totalPages
    ensures 1 <= GuardedNext(page, totalPages) <= totalPages
  {
  }

  /** The guarded Previous keeps a page of 1 or more at 1 or more. */
  lemma GuardedPrevAtLeastOne(page: int)
    requires page >= 1
    ensures GuardedPrev(page) >= 1
  {
  }

  /** Past the last page the guarded Next is never disabled: on an empty list
      (`totalPages == 0`) page 1 goes to 2, 3, ..., and every one of them is empty. */
  lemma GuardedNextPastLastPage<T>(xs: seq<T>, perPage: nat, page: int)
    requires perPage > 0 && page > TotalPages(|xs|, perPage)
    ensures GuardedNext(page, TotalPages(|xs|, perPage)) == page + 1
    ensures PageWindow(xs, page + 1, perPage) == []
  {
    PageBeyondLastIsEmpty(xs, page + 1, perPage);
  }

  /** The page-number buttons: `Array.from({length: totalPages}, (_, i) => i + 1)`. */
  function PageNumbers(totalPages: nat): (r: seq<nat>)
    ensures |r| == totalPages
    ensures forall i :: 0 <= i < totalPages ==> r[i] == i + 1
  {
    if totalPages == 0 then [] else PageNumbers(totalPages - 1) + [totalPages]
  }

  /** Teachers and Notices render the pagination controls only for `totalPages > 1`. */
  function ShowPagination(totalPages: nat): bool
  {
    totalPages > 1
  }

  /** The controls are shown exactly when the list has more rows than fit on one page. */
  lemma ShowPaginationIff(n: nat, perPage: nat)
    requires perPage > 0
    ensures ShowPagination(TotalPages(n, perPage)) <==> n > perPage
  {
    TotalPagesIsCeiling(n, perPage);
    var t := TotalPages(n, perPage);
    if t > 1 {
      assert (t - 1) * perPage >= perPage;
    }
    if n > perPage {
      assert t * perPage > perPage;
    }
  }
}
