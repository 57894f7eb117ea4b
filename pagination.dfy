/**
 * The pagination bar of the table widget (`updatePagination`): the number of
 * pages, the sliding window of at most five numbered buttons, the shortcut,
 * ellipsis and Previous/Next controls around it, and what each control does
 * to the current page when it is clicked.
 */
module Pagination {

  import opened Wrappers

  /** `maxVisibleButtons`: the most numbered page buttons shown at once. */
  const MaxVisible: nat := 5

  function Min(a: int, b: int): int { if a <= b then a else b }
  function Max(a: int, b: int): int { if a >= b then a else b }

  /** `Math.ceil(filtered / pageSize)`, in integer arithmetic. */
  function TotalPages(filtered: nat, pageSize: int): nat
    requires pageSize > 0
  {
    (filtered + pageSize - 1) / pageSize
  }

  /** The page count is the least number of pages of `pageSize` rows that holds `filtered` rows. */
  lemma TotalPagesBounds(filtered: nat, pageSize: int)
    requires pageSize > 0
    ensures filtered <= TotalPages(filtered, pageSize) * pageSize < filtered + pageSize
  {
    var q := (filtered + pageSize - 1) / pageSize;
    var r := (filtered + pageSize - 1) % pageSize;
    assert q * pageSize == filtered + pageSize - 1 - r;
  }

  /** No rows make no pages. */
  lemma NoRowsNoPages(pageSize: int)
    requires pageSize > 0
    ensures TotalPages(0, pageSize) == 0
  {
    assert 0 <= pageSize - 1 < pageSize;
  }

  /** The half-open range `[start, end)` of page indices that get a numbered button. */
  datatype Window = Window(start: nat, end: nat)

  /**
   * `startPage`/`endPage` after the adjustment step: a window centred on the
   * current page where possible, shifted left near the last page, always as
   * wide as it can be and containing the current page whenever that page exists.
   */
  function PageWindow(totalPages: nat, currentPage: nat): (w: Window)
    ensures w.start <= w.end <= totalPages
    ensures w.end - w.start == Min(MaxVisible, totalPages)
    ensures currentPage < totalPages ==> w.start <= currentPage < w.end
  {
    var start0 := Max(0, currentPage - MaxVisible / 2);
    var end := Min(totalPages, start0 + MaxVisible);
    var start := if end - start0 < MaxVisible then Max(0, end - MaxVisible) else start0;
    Window(start, end)
  }

  /** One `li` of the pagination bar, in the order the code appends them. */
  datatype PageItem =
    | Previous(disabled: bool)
    | FirstShortcut                         // the button labelled 1
    | Ellipsis
    | PageButton(index: nat, active: bool)  // labelled index + 1
    | LastShortcut(pages: nat)              // labelled with the page count
    | Next(disabled: bool)

  /** The numbered buttons for a window, each marked active when it is the current page. */
  function Buttons(w: Window, currentPage: nat): seq<PageItem>
    requires w.start <= w.end
  {
    seq(w.end - w.start, k requires 0 <= k < w.end - w.start =>
      PageButton(w.start + k, w.start + k == currentPage))
  }

  /** Controls before the numbered buttons: Previous, the First shortcut, the leading ellipsis. */
  function Head(w: Window, currentPage: nat): seq<PageItem>
  {
    [Previous(currentPage == 0)]
    + (if currentPage > 2 then [FirstShortcut] else [])
    + (if w.start > 1 then [Ellipsis] else [])
  }

  /** Controls after the numbered buttons: the trailing ellipsis, the Last shortcut, Next. */
  function Tail(w: Window, totalPages: nat, currentPage: nat): seq<PageItem>
  {
    (if w.end < totalPages then [Ellipsis] else [])
    + (if currentPage < totalPages - 3 then [LastShortcut(totalPages)] else [])
    + [Next(currentPage == totalPages - 1)]
  }

  /** The whole bar `updatePagination` renders for a filtered row count. */
  function Bar(filtered: nat, pageSize: int, currentPage: nat): seq<PageItem>
    requires pageSize > 0
  {
    var total := TotalPages(filtered, pageSize);
    var w := PageWindow(total, currentPage);
    Head(w, currentPage) + Buttons(w, currentPage) + Tail(w, total, currentPage)
  }

  /**
   * `updatePagination` itself: appends the controls one by one, the numbered
   * buttons in a loop from `startPage` up to `endPage`.
   */
  method RenderPagination(filtered: nat, pageSize: int, currentPage: nat) returns (items: seq<PageItem>)
    requires pageSize > 0
    ensures items == Bar(filtered, pageSize, currentPage)
  {
    var totalPages: int := TotalPages(filtered, pageSize);
    var startPage := Max(0, currentPage - MaxVisible / 2);
    var endPage := Min(totalPages, startPage + MaxVisible);
    if endPage - startPage < MaxVisible {
      startPage := Max(0, endPage - MaxVisible);
    }
    ghost var w := PageWindow(totalPages, currentPage);
    assert w == Window(startPage, endPage);

    var head := [Previous(currentPage == 0)];
    if currentPage > 2 {
      head := head + [FirstShortcut];
    }
    if startPage > 1 {
      head := head + [Ellipsis];
    }
    var buttons: seq<PageItem> := [];
    var i := startPage;
    while i < endPage
      invariant startPage <= i <= endPage
      invariant |buttons| == i - startPage
      invariant forall k :: 0 <= k < |buttons| ==>
        buttons[k] == PageButton(startPage + k, startPage + k == currentPage)
    {
      buttons := buttons + [PageButton(i, i == currentPage)];
      i := i + 1;
    }
    var tail: seq<PageItem> := [];
    if endPage < totalPages {
      tail := tail + [Ellipsis];
    }
    if currentPage < totalPages - 3 {
      tail := tail + [LastShortcut(totalPages)];
    }
    tail := tail + [Next(currentPage == totalPages - 1)];
    assert head == Head(w, currentPage);
    assert buttons == Buttons(w, currentPage);
    assert tail == Tail(w, totalPages, currentPage);
    items := head + buttons + tail;
  }

  /** Head and tail hold no numbered button; the numbered buttons sit between them. */
  lemma BarParts(filtered: nat, pageSize: int, currentPage: nat)
    requires pageSize > 0
    ensures var total := TotalPages(filtered, pageSize);
            var w := PageWindow(total, currentPage);
            var h := Head(w, currentPage);
            var items := Bar(filtered, pageSize, currentPage);
            && (forall k :: 0 <= k < |items| && items[k].PageButton? ==> |h| <= k < |h| + (w.end - w.start))
            && (forall k :: |h| <= k < |h| + (w.end - w.start) ==>
                  items[k] == PageButton(w.start + (k - |h|), w.start + (k - |h|) == currentPage))
  {
    var total := TotalPages(filtered, pageSize);
    var w := PageWindow(total, currentPage);
    var h, b, t := Head(w, currentPage), Buttons(w, currentPage), Tail(w, total, currentPage);
    var items := h + b + t;
    assert items == Bar(filtered, pageSize, currentPage);
    forall k | 0 <= k < |items| && items[k].PageButton?
      ensures |h| <= k < |h| + |b|
    {
    }
    forall k | |h| <= k < |h| + |b|
      ensures items[k] == b[k - |h|]
    {
    }
  }

  /**
   * The numbered buttons are exactly the pages of the window, each once and in
   * increasing order; there are min(5, totalPages) of them, all existing pages.
   */
  lemma {:induction false} BarNumberedButtons(filtered: nat, pageSize: int, currentPage: nat, p: int)
    requires pageSize > 0
    ensures var total := TotalPages(filtered, pageSize);
            var w := PageWindow(total, currentPage);
            var items := Bar(filtered, pageSize, currentPage);
            && w.end - w.start == Min(MaxVisible, total)
            && ((exists k :: 0 <= k < |items| && items[k].PageButton? && items[k].index == p)
                <==> w.start <= p < w.end)
            && (forall k :: 0 <= k < |items| && items[k].PageButton? ==> items[k].index < total)
            && (forall j, k :: 0 <= j < k < |items| && items[j].PageButton? && items[k].PageButton?
                  ==> items[j].index < items[k].index)
  {
    var total := TotalPages(filtered, pageSize);
    var w := PageWindow(total, currentPage);
    var h := Head(w, currentPage);
    var items := Bar(filtered, pageSize, currentPage);
    BarParts(filtered, pageSize, currentPage);
    if w.start <= p < w.end {
      var k := |h| + (p - w.start);
      assert items[k].PageButton? && items[k].index == p;
    }
  }

  /**
   * Exactly one numbered button is marked active when the current page
   * exists, and it is the current page's; otherwise none is.
   */
  lemma {:induction false} BarActiveButton(filtered: nat, pageSize: int, currentPage: nat)
    requires pageSize > 0
    ensures var total := TotalPages(filtered, pageSize);
            var items := Bar(filtered, pageSize, currentPage);
            && (forall k :: 0 <= k < |items| && items[k].PageButton? && items[k].active
                  ==> items[k].index == currentPage)
            && (forall j, k ::
                  (0 <= j < |items| && 0 <= k < |items| && items[j].PageButton? && items[j].active
                   && items[k].PageButton? && items[k].active) ==> j == k)
            && (currentPage < total <==> exists k :: 0 <= k < |items| && items[k] == PageButton(currentPage, true))
  {
    var total := TotalPages(filtered, pageSize);
    var w := PageWindow(total, currentPage);
    var h := Head(w, currentPage);
    var items := Bar(filtered, pageSize, currentPage);
    BarParts(filtered, pageSize, currentPage);
    if currentPage < total {
      var k := |h| + (currentPage - w.start);
      assert items[k] == PageButton(currentPage, true);
    }
  }

  /**
   * The shortcut buttons: "1" appears iff the current page is past the third,
   * the last-page button iff more than three pages follow the current one,
   * and it is labelled with the page count.
   */
  lemma {:induction false} BarShortcuts(filtered: nat, pageSize: int, currentPage: nat)
    requires pageSize > 0
    ensures var total := TotalPages(filtered, pageSize);
            var items := Bar(filtered, pageSize, currentPage);
            && (FirstShortcut in items <==> currentPage > 2)
            && (LastShortcut(total) in items <==> currentPage < total - 3)
            && (forall k :: 0 <= k < |items| && items[k].LastShortcut? ==> items[k].pages == total)
  {
    var total := TotalPages(filtered, pageSize);
    var w := PageWindow(total, currentPage);
    var h, b, t := Head(w, currentPage), Buttons(w, currentPage), Tail(w, total, currentPage);
    var items := h + b + t;
    assert items == Bar(filtered, pageSize, currentPage);
    assert FirstShortcut !in b && FirstShortcut !in t;
    assert FirstShortcut in items <==> FirstShortcut in h;
    assert forall k :: 0 <= k < |b| ==> !b[k].LastShortcut?;
    assert forall k :: 0 <= k < |h| ==> !h[k].LastShortcut?;
    assert forall k :: 0 <= k < |items| && items[k].LastShortcut? ==> items[k] in t;
    assert LastShortcut(total) in items <==> LastShortcut(total) in t;
  }

  /** An ellipsis placed before every numbered button. */
  ghost predicate LeadingEllipsis(items: seq<PageItem>)
  {
    exists k :: 0 <= k < |items| && items[k] == Ellipsis && forall j :: 0 <= j < k ==> !items[j].PageButton?
  }

  /** An ellipsis placed after every numbered button. */
  ghost predicate TrailingEllipsis(items: seq<PageItem>)
  {
    exists k :: 0 <= k < |items| && items[k] == Ellipsis && forall j :: k < j < |items| ==> !items[j].PageButton?
  }

  /**
   * The ellipses: one before the numbered buttons iff the window starts after
   * the second page, one after them iff the window stops before the last page.
   */
  lemma {:induction false} BarEllipses(filtered: nat, pageSize: int, currentPage: nat)
    requires pageSize > 0
    ensures var total := TotalPages(filtered, pageSize);
            var w := PageWindow(total, currentPage);
            var items := Bar(filtered, pageSize, currentPage);
            && (LeadingEllipsis(items) <==> w.start > 1)
            && (TrailingEllipsis(items) <==> w.end < total)
  {
    var total := TotalPages(filtered, pageSize);
    var w := PageWindow(total, currentPage);
    var h, b, t := Head(w, currentPage), Buttons(w, currentPage), Tail(w, total, currentPage);
    var items := h + b + t;
    assert items == Bar(filtered, pageSize, currentPage);
    BarParts(filtered, pageSize, currentPage);
    if w.start > 1 {
      assert items[|h| - 1] == Ellipsis;
    } else {
      // every ellipsis then follows the first numbered button
      forall k | 0 <= k < |items| && items[k] == Ellipsis
        ensures |h| < k && items[|h|].PageButton?
      {
      }
    }
    if w.end < total {
      assert items[|h| + |b|] == Ellipsis;
    } else {
      // every ellipsis then precedes the last numbered button
      forall k | 0 <= k < |items| && items[k] == Ellipsis
        ensures k < |h| + |b| - 1 && items[|h| + |b| - 1].PageButton?
      {
      }
    }
  }

  /** Previous opens the bar and Next closes it. */
  lemma BarEnds(filtered: nat, pageSize: int, currentPage: nat)
    requires pageSize > 0
    ensures var total := TotalPages(filtered, pageSize);
            var items := Bar(filtered, pageSize, currentPage);
            && |items| >= 2
            && items[0] == Previous(currentPage == 0)
            && items[|items| - 1] == Next(currentPage == total - 1)
  {
  }

  /**
   * With no matching rows there are no numbered buttons, ellipses or
   * last-page shortcut: the bar is Previous, the "1" shortcut when the
   * current page is past the third, and a Next that is not marked disabled.
   */
  lemma EmptyBar(pageSize: int, currentPage: nat)
    requires pageSize > 0
    ensures Bar(0, pageSize, currentPage)
            == [Previous(currentPage == 0)] + (if currentPage > 2 then [FirstShortcut] else []) + [Next(false)]
  {
    NoRowsNoPages(pageSize);
  }

  /** A click on one of the bar's controls. */
  datatype Click = PrevClick | FirstClick | PageClick(page: nat) | LastClick | NextClick

  /**
   * The page a click moves to, or None when the handler's guard lets nothing
   * happen; `totalPages` is the count captured by the rendered bar. From a page
   * that exists, every click lands on a page that exists, and a guarded
   * control that fires always changes the page.
   */
  function ClickTarget(c: Click, currentPage: nat, totalPages: nat): (r: Option<nat>)
    ensures (currentPage < totalPages && (c.PageClick? ==> c.page < totalPages) && r.Some?)
              ==> r.value < totalPages
    ensures r.Some? && !c.PageClick? ==> r.value != currentPage
    ensures c.PageClick? ==> r == Some(c.page)
  {
    match c
    case PrevClick => if currentPage > 0 then Some(currentPage - 1) else None
    case FirstClick => if currentPage > 0 then Some(0) else None
    case PageClick(i) => Some(i)
    case LastClick => if currentPage < totalPages - 1 then Some(totalPages - 1) else None
    case NextClick => if currentPage < totalPages - 1 then Some(currentPage + 1) else None
  }

  /**
   * The requests a click issues: none when its guard fails, two for the First
   * and Last shortcuts (they fetch through `goToPage` and then once more), one otherwise.
   */
  function ClickRequests(c: Click, currentPage: nat, totalPages: nat): (n: nat)
    ensures n == 0 <==> ClickTarget(c, currentPage, totalPages).None?
    ensures n <= 2
  {
    if ClickTarget(c, currentPage, totalPages).None? then 0
    else if c.FirstClick? || c.LastClick? then 2
    else 1
  }

  /**
   * A control rendered disabled does nothing when clicked. Previous is
   * disabled exactly when it does nothing; Next is too as long as the current
   * page exists, but with no pages at all it is not marked disabled although
   * its click does nothing.
   */
  lemma {:induction false} DisabledControls(filtered: nat, pageSize: int, currentPage: nat)
    requires pageSize > 0
    ensures var total := TotalPages(filtered, pageSize);
            var items := Bar(filtered, pageSize, currentPage);
            && |items| >= 2
            && (items[0].disabled <==> ClickTarget(PrevClick, currentPage, total).None?)
            && (items[|items| - 1].disabled ==> ClickTarget(NextClick, currentPage, total).None?)
            && (currentPage < total ==>
                  (items[|items| - 1].disabled <==> ClickTarget(NextClick, currentPage, total).None?))
            && (filtered == 0 ==>
                  !items[|items| - 1].disabled && ClickTarget(NextClick, currentPage, total).None?)
  {
    var total := TotalPages(filtered, pageSize);
    BarEnds(filtered, pageSize, currentPage);
    Guards(currentPage, total);
    if filtered == 0 {
      NoRowsNoPages(pageSize);
    }
  }

  /** The guards of Previous and Next against the pages each control is marked disabled on. */
  lemma Guards(currentPage: nat, total: nat)
    ensures currentPage == 0 <==> ClickTarget(PrevClick, currentPage, total).None?
    ensures currentPage == total - 1 ==> ClickTarget(NextClick, currentPage, total).None?
    ensures currentPage < total ==> (currentPage == total - 1 <==> ClickTarget(NextClick, currentPage, total).None?)
    ensures total == 0 ==> currentPage != total - 1 && ClickTarget(NextClick, currentPage, total).None?
  {
  }
}
