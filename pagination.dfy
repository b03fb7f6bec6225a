/** The page selector under the tables: a window of at most five
    consecutive page numbers around the current page, the previous and next
    buttons, and the "... last page" shortcut (Pagination). */
module Pagination {

  /** How many page buttons are shown at once. */
  const MaxVisible: int := 5

  function Max(a: int, b: int): int { if a < b then b else a }
  function Min(a: int, b: int): int { if a < b then a else b }

  /** The first page of the window: centred on the page, clamped at 1, and
      moved left when the window would run past the last page. */
  function WindowStart(page: int, totalPages: int): int {
    var start := Max(1, page - MaxVisible / 2);
    var end := Min(totalPages, start + MaxVisible - 1);
    if end - start < MaxVisible - 1 then Max(1, end - MaxVisible + 1) else start
  }

  /** The last page of the window: clamped at the page count. */
  function WindowEnd(page: int, totalPages: int): int {
    Min(totalPages, Max(1, page - MaxVisible / 2) + MaxVisible - 1)
  }

  /** getPageNumbers: start, start + 1, ..., end (empty when end < start,
      as Array.from with a negative length gives an empty array). */
  function PageNumbers(page: int, totalPages: int): (r: seq<int>)
    ensures |r| <= MaxVisible
    ensures forall i :: 0 <= i < |r| ==> 1 <= r[i] <= totalPages
    ensures forall i :: 0 <= i < |r| ==> r[i] == r[0] + i
  {
    var start := WindowStart(page, totalPages);
    var end := WindowEnd(page, totalPages);
    seq(Max(0, end - start + 1), i => start + i)
  }

  /** For a page that exists, the window shows that page, is as long as it
      can be (five pages, or every page when there are fewer), and is
      exactly the range of pages it starts and ends with. */
  lemma WindowAroundPage(page: int, totalPages: int)
    requires 1 <= page <= totalPages
    ensures page in PageNumbers(page, totalPages)
    ensures |PageNumbers(page, totalPages)| == Min(MaxVisible, totalPages)
    ensures PageNumbers(page, totalPages)[0] == Max(1, Min(page - 2, totalPages - 4))
  {
    var r := PageNumbers(page, totalPages);
    var start := WindowStart(page, totalPages);
    assert r[page - start] == page;
  }

  /** Which controls are live for the current page. */
  datatype Controls = Controls(prevDisabled: bool, nextDisabled: bool, showsLastPageLink: bool)

  /** The controls as written: Prev is off on page 1, Next on the last page,
      and the shortcut to the last page shows while page < totalPages - 2. */
  function ControlsOf(page: int, totalPages: int): Controls {
    Controls(page == 1, page == totalPages, page < totalPages - 2)
  }

  /** Prev and Next, when live, lead to a page that exists. */
  lemma NavigationStaysInRange(page: int, totalPages: int)
    requires 1 <= page <= totalPages
    ensures !ControlsOf(page, totalPages).prevDisabled ==> 1 <= page - 1 <= totalPages
    ensures !ControlsOf(page, totalPages).nextDisabled ==> 1 <= page + 1 <= totalPages
  {
  }

  /** With more than five pages, the shortcut shows exactly when the last
      page is not already in the window. */
  lemma LastPageLinkWhenManyPages(page: int, totalPages: int)
    requires 1 <= page <= totalPages && totalPages > MaxVisible
    ensures ControlsOf(page, totalPages).showsLastPageLink <==> totalPages !in PageNumbers(page, totalPages)
  {
    var r := PageNumbers(page, totalPages);
    if totalPages in r {
      var i :| 0 <= i < |r| && r[i] == totalPages;
    }
    if page >= totalPages - 2 {
      WindowAroundPage(page, totalPages);
      assert r[|r| - 1] == totalPages;
    }
  }

  /** With four pages, on page 1 the window already holds page 4 and the
      shortcut shows it a second time. */
  lemma LastPageShownTwice()
    ensures PageNumbers(1, 4) == [1, 2, 3, 4]
    ensures ControlsOf(1, 4).showsLastPageLink
  {
    assert PageNumbers(1, 4)[3] == 4;
  }

  /** The shortcut as evidently intended: shown only when the window stops
      before the last page. */
  function ShowsLastPageLink(page: int, totalPages: int): (r: bool)
    ensures r ==> totalPages > MaxVisible || page > totalPages
  {
    WindowEnd(page, totalPages) < totalPages
  }

  /** The corrected shortcut never repeats a page of the window, and it is
      offered whenever the last page is not in the window. */
  lemma ShortcutNeverRepeats(page: int, totalPages: int)
    requires 1 <= page <= totalPages
    ensures ShowsLastPageLink(page, totalPages) <==> totalPages !in PageNumbers(page, totalPages)
  {
    var r := PageNumbers(page, totalPages);
    if totalPages in r {
      var i :| 0 <= i < |r| && r[i] == totalPages;
    }
    WindowAroundPage(page, totalPages);
    if !ShowsLastPageLink(page, totalPages) {
      assert r[|r| - 1] == totalPages;
    }
  }

  /** It agrees with the shortcut as written whenever there are more than
      five pages. */
  lemma ShortcutAgreesWhenManyPages(page: int, totalPages: int)
    requires 1 <= page <= totalPages && totalPages > MaxVisible
    ensures ShowsLastPageLink(page, totalPages) == ControlsOf(page, totalPages).showsLastPageLink
  {
    LastPageLinkWhenManyPages(page, totalPages);
    ShortcutNeverRepeats(page, totalPages);
  }
}
