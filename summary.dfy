/**
 * The "showing rows X to Y" line of the table widget (`updateTableInfo`).
 */
module Summary {

  import opened Pagination

  /** The 1-based numbers of the first and last row reported for a page. */
  datatype RowRange = RowRange(first: int, last: int)

  /** Which page (0-based) row number `n` (1-based) falls on. */
  function PageOfRow(n: nat, pageSize: int): nat
    requires n >= 1 && pageSize > 0
  {
    (n - 1) / pageSize
  }

  /** `start = currentPage * pageSize + 1`, `end = min((currentPage + 1) * pageSize, filtered)`. */
  function ShownRange(currentPage: nat, pageSize: int, filtered: nat): RowRange
    requires pageSize > 0
  {
    RowRange(currentPage * pageSize + 1, Min((currentPage + 1) * pageSize, filtered))
  }

  /**
   * The range holds exactly the rows that fall on the current page: a row
   * number lies in it iff it is a filtered row and its page is the current
   * one. It starts at row 1 or later, ends at the last filtered row or
   * earlier, and spans at most one page.
   */
  lemma ShownRangeRows(currentPage: nat, pageSize: int, filtered: nat)
    requires pageSize > 0
    ensures var r := ShownRange(currentPage, pageSize, filtered);
            && r.first >= 1 && r.last <= filtered
            && r.last - r.first + 1 <= pageSize
            && forall n: nat :: 1 <= n ==>
                 (r.first <= n <= r.last <==> n <= filtered && PageOfRow(n, pageSize) == currentPage)
  {
    var r := ShownRange(currentPage, pageSize, filtered);
    assert (currentPage + 1) * pageSize == currentPage * pageSize + pageSize;
    forall n: nat | 1 <= n
      ensures r.first <= n <= r.last <==> n <= filtered && PageOfRow(n, pageSize) == currentPage
    {
      PageOfRowBounds(n, pageSize, currentPage);
    }
  }

  /** Row `n` is on page `p` exactly when `p * pageSize < n <= (p + 1) * pageSize`. */
  lemma PageOfRowBounds(n: nat, pageSize: int, p: nat)
    requires n >= 1 && pageSize > 0
    ensures PageOfRow(n, pageSize) == p <==> p * pageSize < n <= p * pageSize + pageSize
  {
    var q := (n - 1) / pageSize;
    var r := (n - 1) % pageSize;
    assert n - 1 == q * pageSize + r;
    if q < p {
      MulMonotone(q + 1, p, pageSize);
      assert (q + 1) * pageSize == q * pageSize + pageSize;
    } else if q > p {
      MulMonotone(p + 1, q, pageSize);
      assert (p + 1) * pageSize == p * pageSize + pageSize;
    }
  }

  lemma MulMonotone(a: int, b: int, c: int)
    requires a <= b && c > 0
    ensures a * c <= b * c
  {
    assert b * c - a * c == (b - a) * c;
  }

  /**
   * For a page that exists the range is non-empty; every page but the last
   * is full and the last one ends at the last filtered row.
   */
  lemma {:induction false} ExistingPageRange(currentPage: nat, pageSize: int, filtered: nat)
    requires pageSize > 0
    requires currentPage < TotalPages(filtered, pageSize)
    ensures var r := ShownRange(currentPage, pageSize, filtered);
            && r.first <= r.last
            && (currentPage < TotalPages(filtered, pageSize) - 1 ==> r.last - r.first + 1 == pageSize)
            && (currentPage == TotalPages(filtered, pageSize) - 1 ==> r.last == filtered)
  {
    var total := TotalPages(filtered, pageSize);
    TotalPagesBounds(filtered, pageSize);
    MulMonotone(currentPage + 1, total, pageSize);
    assert (currentPage + 1) * pageSize == currentPage * pageSize + pageSize;
    if currentPage < total - 1 {
      MulMonotone(currentPage + 2, total, pageSize);
      assert (currentPage + 2) * pageSize == currentPage * pageSize + 2 * pageSize;
    } else {
      assert (total - 1) * pageSize == total * pageSize - pageSize;
    }
  }

  /** One matching row on the first page of ten reads "1 to 1". */
  lemma SingleRowRange()
    ensures ShownRange(0, 10, 1) == RowRange(1, 1)
  {
  }

  /** With no matching rows the first page reports the empty range "1 to 0". */
  lemma EmptyRange(pageSize: int)
    requires pageSize > 0
    ensures ShownRange(0, pageSize, 0) == RowRange(1, 0)
  {
  }
}
