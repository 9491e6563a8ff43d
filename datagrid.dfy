/** The paged table, client/src/components/DataGrid.js: the number of pages,
    the rows of the current page, the Previous and Next handlers that move
    the page within bounds, and what the component renders. The page is
    component state; the rows are a property the parent replaces. */
module DataGrid {
  import opened Wrappers

  /** `Math.ceil(rows.length / pageSize)`. */
  function TotalPages(count: nat, pageSize: nat): (n: nat)
    requires pageSize > 0
    ensures n * pageSize >= count
    ensures n > 0 ==> (n - 1) * pageSize < count
    ensures n == 0 <==> count == 0
  {
    var n := (count + pageSize - 1) / pageSize;
    assert count + pageSize - 1 == n * pageSize + (count + pageSize - 1) % pageSize;
    n
  }

  function Min(a: int, b: int): int {
    if a <= b then a else b
  }

  /** `rows.slice(page * pageSize, page * pageSize + pageSize)`: slicing
      past the end gives the rows that are there, or none. */
  function PageRows<T>(rows: seq<T>, page: nat, pageSize: nat): (r: seq<T>)
    ensures |r| <= pageSize
    ensures page * pageSize <= |rows| ==> |r| == Min(pageSize, |rows| - page * pageSize)
    ensures page * pageSize >= |rows| ==> r == []
    ensures forall k :: 0 <= k < |r| ==> page * pageSize + k < |rows| && r[k] == rows[page * pageSize + k]
  {
    var start := page * pageSize;
    if start >= |rows| then [] else rows[start .. Min(start + pageSize, |rows|)]
  }

  /** Pages `0 .. n-1` one after the other. */
  function FirstPages<T>(rows: seq<T>, n: nat, pageSize: nat): seq<T> {
    if n == 0 then [] else FirstPages(rows, n - 1, pageSize) + PageRows(rows, n - 1, pageSize)
  }

  /** The first `n` pages are the first `n * pageSize` rows. */
  lemma {:induction false} FirstPagesArePrefix<T>(rows: seq<T>, n: nat, pageSize: nat)
    requires pageSize > 0
    ensures FirstPages(rows, n, pageSize) == rows[..Min(n * pageSize, |rows|)]
  {
    if n > 0 {
      FirstPagesArePrefix(rows, n - 1, pageSize);
      var start := (n - 1) * pageSize;
      NextPageStart(n - 1, pageSize);
      var end := Min(start + pageSize, |rows|);
      if start < |rows| {
        assert PageRows(rows, n - 1, pageSize) == rows[start..end];
        assert rows[..end] == rows[..start] + rows[start..end];
      }
    }
  }

  /** The page after page `m` starts one page size further on. */
  lemma NextPageStart(m: nat, k: nat)
    ensures (m + 1) * k == m * k + k
  {
  }

  /** Every row is on exactly one page: the pages, in order, are the rows. */
  lemma PagesCoverRows<T>(rows: seq<T>, pageSize: nat)
    requires pageSize > 0
    ensures FirstPages(rows, TotalPages(|rows|, pageSize), pageSize) == rows
  {
    FirstPagesArePrefix(rows, TotalPages(|rows|, pageSize), pageSize);
  }

  // ---------------------------------------------------------------------------
  // What the component renders
  // ---------------------------------------------------------------------------

  /** The pagination bar: `Page {currentPage + 1} of {totalPages}` and the
      two buttons' `disabled` flags. */
  datatype Controls = Controls(pageNumber: nat, totalPages: nat, previousDisabled: bool, nextDisabled: bool)

  datatype View<T> =
    | Loading
    | Empty
    | Table(shown: seq<T>, controls: Option<Controls>)

  /** The render: the loading message, the empty state for no rows, or the
      current page with the bar shown when there is more than one page. */
  function Render<T>(rows: seq<T>, pageSize: nat, page: nat, loading: bool): (v: View<T>)
    requires pageSize > 0
    ensures loading <==> v.Loading?
    ensures v.Empty? <==> !loading && rows == []
    ensures v.Table? ==> v.shown == PageRows(rows, page, pageSize)
    ensures v.Table? ==> (v.controls.Some? <==> |rows| > pageSize)
    ensures v.Table? && v.controls.Some? ==>
      && v.controls.value.pageNumber == page + 1
      && v.controls.value.totalPages == TotalPages(|rows|, pageSize)
      && (v.controls.value.previousDisabled <==> page == 0)
      && (v.controls.value.nextDisabled <==> page + 1 == TotalPages(|rows|, pageSize))
  {
    var total := TotalPages(|rows|, pageSize);
    MoreThanOnePage(|rows|, pageSize);
    if loading then Loading
    else if rows == [] then Empty
    else Table(PageRows(rows, page, pageSize),
               if total > 1 then Some(Controls(page + 1, total, page == 0, page == total - 1)) else None)
  }

  /** There is more than one page exactly when the rows overflow one. */
  lemma MoreThanOnePage(count: nat, pageSize: nat)
    requires pageSize > 0
    ensures TotalPages(count, pageSize) > 1 <==> count > pageSize
  {
    var n := TotalPages(count, pageSize);
    if n > 1 {
      AtLeastOnce(n - 1, pageSize);
    } else if n == 1 {
      assert n * pageSize == pageSize;
    }
  }

  lemma AtLeastOnce(m: nat, k: nat)
    requires m >= 1
    ensures m * k >= k
  {
    var rest: nat := m - 1;
    assert m * k == rest * k + k;
  }

  /** On a page that exists, the table shows at least one row and the bar
      never offers a move past either end. */
  lemma RenderInRange<T>(rows: seq<T>, pageSize: nat, page: nat)
    requires pageSize > 0 && page < TotalPages(|rows|, pageSize)
    ensures var v := Render(rows, pageSize, page, false);
      && v.Table? && v.shown != []
      && (v.controls.Some? ==> v.controls.value.pageNumber <= v.controls.value.totalPages)
  {
  }

  // ---------------------------------------------------------------------------
  // The component state
  // ---------------------------------------------------------------------------

  class Grid<T> {
    var rows: seq<T>
    var pageSize: nat
    var currentPage: nat

    ghost predicate Valid()
      reads this
    {
      pageSize > 0
    }

    /** The page is one that exists (or there are no rows). */
    ghost predicate InRange()
      reads this
      requires Valid()
    {
      rows == [] || currentPage < TotalPages(|rows|, pageSize)
    }

    /** `useState(0)`. */
    constructor (rows: seq<T>, pageSize: nat)
      requires pageSize > 0
      ensures Valid() && InRange()
      ensures this.rows == rows && this.pageSize == pageSize && currentPage == 0
    {
      this.rows, this.pageSize, currentPage := rows, pageSize, 0;
    }

    /** What the grid shows: the loading message while loading, the empty
        state without rows, and otherwise the rows of the current page, in
        order, never none while the page is in range, with the page bar
        exactly when the rows overflow one page. */
    function View(loading: bool): (v: View<T>)
      reads this
      requires Valid()
      ensures loading <==> v.Loading?
      ensures v.Empty? <==> !loading && rows == []
      ensures v.Table? ==> |v.shown| <= pageSize
      ensures v.Table? ==> forall k :: 0 <= k < |v.shown| ==>
        currentPage * pageSize + k < |rows| && v.shown[k] == rows[currentPage * pageSize + k]
      ensures v.Table? && InRange() ==> v.shown != []
      ensures v.Table? ==> v.shown == PageRows(rows, currentPage, pageSize)
      ensures v.Table? ==> (v.controls.Some? <==> |rows| > pageSize)
      ensures v.Table? && v.controls.Some? ==>
        && v.controls.value.pageNumber == currentPage + 1
        && v.controls.value.totalPages == TotalPages(|rows|, pageSize)
        && (v.controls.value.previousDisabled <==> currentPage == 0)
        && (v.controls.value.nextDisabled <==> currentPage + 1 == TotalPages(|rows|, pageSize))
    {
      RenderShowsPage(rows, pageSize, currentPage, loading);
      Render(rows, pageSize, currentPage, loading)
    }

    /** `handlePrevious`: one page back, never below the first. */
    method Previous()
      requires Valid()
      modifies this`currentPage
      ensures currentPage == if old(currentPage) == 0 then 0 else old(currentPage) - 1
      ensures currentPage <= old(currentPage)
      ensures old(InRange()) ==> InRange()
    {
      currentPage := if currentPage == 0 then 0 else currentPage - 1;
    }

    /** `handleNext`: one page on, never past the last. The button that
        calls it is rendered only when there are two pages or more. */
    method Next()
      requires Valid() && TotalPages(|rows|, pageSize) > 1
      modifies this`currentPage
      ensures currentPage == Min(TotalPages(|rows|, pageSize) - 1, old(currentPage) + 1)
      ensures currentPage < TotalPages(|rows|, pageSize)
      ensures InRange()
    {
      currentPage := Min(TotalPages(|rows|, pageSize) - 1, currentPage + 1);
    }

    /** The parent passes new rows; the page is kept as it is. */
    method SetRows(rows: seq<T>)
      requires Valid()
      modifies this`rows
      ensures this.rows == rows && Valid()
    {
      this.rows := rows;
    }
  }

  // ---------------------------------------------------------------------------
  // Rendering a page that is no longer there
  // ---------------------------------------------------------------------------

  /** As written, rows that shrink under the kept page leave it past the
      end: with one page left, the grid renders an empty table and no bar,
      though there are rows to show. */
  lemma StalePageShowsNothing<T>(rows: seq<T>, pageSize: nat, page: nat)
    requires pageSize > 0 && rows != [] && |rows| <= pageSize && page > 0
    ensures Render(rows, pageSize, page, false) == Table([], None)
  {
  }

  /** Removing the one row of the second page: eleven rows by ten, Next,
      then the parent passes the ten rows left. */
  method StalePageScenario() returns (v: View<nat>)
    ensures v == Table([], None)
  {
    var g := new Grid(seq(11, k => k), 10);
    g.Next();
    g.SetRows(seq(10, k => k));
    v := g.View(false);
  }

  /** The render with the page clamped to the rows shown. */
  function RenderClamped<T>(rows: seq<T>, pageSize: nat, page: nat, loading: bool): (v: View<T>)
    requires pageSize > 0
    ensures rows != [] && !loading ==> v.Table? && v.shown != []
    ensures page < TotalPages(|rows|, pageSize) ==> v == Render(rows, pageSize, page, loading)
  {
    var total := TotalPages(|rows|, pageSize);
    var p := if rows == [] || page < total then page else total - 1;
    RenderInRangeIfRows(rows, pageSize, p);
    Render(rows, pageSize, p, loading)
  }

  /** With the page clamped, the same removal shows the ten rows left. */
  lemma StalePageClamped()
    ensures RenderClamped(seq(10, (k: nat) => k), 10, 1, false) == Table(seq(10, (k: nat) => k), None)
  {
    var rows := seq(10, (k: nat) => k);
    assert TotalPages(|rows|, 10) == 1;
    assert rows[0..10] == rows;
  }

  /** A table rendered at a page that exists is never empty. */
  lemma RenderShowsPage<T>(rows: seq<T>, pageSize: nat, page: nat, loading: bool)
    requires pageSize > 0
    ensures Render(rows, pageSize, page, loading).Table? && page < TotalPages(|rows|, pageSize) ==>
      Render(rows, pageSize, page, loading).shown != []
  {
    if !loading && page < TotalPages(|rows|, pageSize) {
      RenderInRange(rows, pageSize, page);
    }
  }

  lemma RenderInRangeIfRows<T>(rows: seq<T>, pageSize: nat, page: nat)
    requires pageSize > 0
    requires rows != [] ==> page < TotalPages(|rows|, pageSize)
    ensures rows != [] ==> Render(rows, pageSize, page, false).Table? && Render(rows, pageSize, page, false).shown != []
  {
    if rows != [] {
      RenderInRange(rows, pageSize, page);
    }
  }
}
