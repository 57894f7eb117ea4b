/**
 * The table widget set up by `initDataTable`: its state (the closure
 * variables `currentPage`, `pageSize`, `orderColumn`, `orderDir`,
 * `searchQuery`, `totalRecords`, `headers`), the requests it issues, what it
 * has rendered, and one method per event handler.
 *
 * A request is recorded as the parameters it carries; the network is not
 * modelled, and a response is applied by `Respond` with whatever data it
 * brings, in whatever order responses arrive.
 */
module DataTable {

  import opened Wrappers
  import opened Pagination
  import opened Summary
  import opened Query
  import opened Layout
  import Csv

  /** The body of a successful response: `{ data, recordsFiltered, recordsTotal }`. */
  datatype Response = Response(data: seq<Record>, recordsFiltered: nat, recordsTotal: int)

  /** What `updateTableInfo` writes: rows shown, their range, the total, and the filtered count. */
  datatype Info = Info(displayed: nat, range: RowRange, total: int, filtered: nat)

  /** `options.pageSize || 10`: an absent or zero page size falls back to ten. */
  function InitialPageSize(configured: nat): (size: nat)
    ensures size > 0
    ensures configured > 0 ==> size == configured
  {
    if configured == 0 then 10 else configured
  }

  /** `n` copies of `x`. */
  function Repeat<T>(x: T, n: nat): (xs: seq<T>)
    ensures |xs| == n && forall k :: 0 <= k < n ==> xs[k] == x
  {
    seq(n, _ => x)
  }

  class Controller {
    /** `options.hasAction`. */
    const hasAction: bool
    /** `options.actionButtons` when it is a function. */
    const actionButtons: Option<Record -> string>

    var currentPage: nat
    var pageSize: int
    /** `orderColumn` and `orderDir`. */
    var order: Order
    var searchQuery: string
    /** The current value of each custom filter control found on the page, by parameter name. */
    var filters: map<string, string>
    var totalRecords: int
    /** The column keys, taken once from the first record of a response. */
    var headers: seq<string>

    /** The parameters of every request issued so far, in order. */
    var requests: seq<map<string, Param>>
    /** How many of those requests have completed, successfully or not. */
    var completed: nat
    /** Loading overlays on the page: one added per request, one removed per completion. */
    var loaders: nat

    var headerRow: seq<HeaderCell>
    var body: seq<seq<BodyCell>>
    /** The rendered pagination bar and the page count its click handlers captured. */
    var pager: seq<PageItem>
    var pagerTotal: nat
    /** The summary line, once a response has been shown. */
    var info: Option<Info>

    ghost predicate Valid()
      reads this
    {
      StateValid() && PagerValid() && TableValid()
    }

    /** The state and the request log: a positive page size, a sort column among the known ones, a loader per pending request. */
    ghost predicate StateValid()
      reads this`pageSize, this`headers, this`order, this`requests, this`completed, this`loaders
    {
      && pageSize > 0
      && (if headers == [] then order.column == 0 else order.column < |headers|)
      && completed <= |requests|
      && loaders == |requests| - completed
    }

    /** Every numbered button on the bar is for a page that exists. */
    ghost predicate PagerValid()
      reads this`pager, this`pagerTotal
    {
      forall k :: 0 <= k < |pager| && pager[k].PageButton? ==> pager[k].index < pagerTotal
    }

    /**
     * The header row, once built, is that of the known keys; every body row
     * has a cell and, when the action column has its formatter, spans the
     * header's width.
     */
    ghost predicate TableValid()
      reads this`headers, this`headerRow, this`body
    {
      && (headers != [] ==> headerRow != [])
      && (headerRow != [] ==> headerRow == HeaderRow(headers, hasAction))
      && (headerRow == [] ==> body == [])
      && (forall k :: 0 <= k < |body| ==> |body[k]| > 0)
      && ((!hasAction || actionButtons.Some?) ==>
            forall k :: 0 <= k < |body| ==> Span(body[k]) == |headerRow|)
    }

    /** The parameters `fetchData` sends for the current state. */
    function Request(): map<string, Param>
      reads this`searchQuery, this`currentPage, this`pageSize, this`order, this`filters
    {
      RequestParams(searchQuery, currentPage, pageSize, order, filters)
    }

    /** A numbered button for page `i` is on the rendered bar. */
    ghost predicate Offered(i: nat)
      reads this`pager
    {
      exists k :: 0 <= k < |pager| && pager[k].PageButton? && pager[k].index == i
    }

    /** `initDataTable`: the initial state, then the first `fetchData`. */
    constructor (configuredPageSize: nat, hasAction: bool, actionButtons: Option<Record -> string>,
                 filters: map<string, string>)
      ensures Valid()
      ensures this.hasAction == hasAction && this.actionButtons == actionButtons
      ensures currentPage == 0 && pageSize == InitialPageSize(configuredPageSize)
      ensures order == Order(0, Asc) && searchQuery == "" && this.filters == filters
      ensures totalRecords == 0 && headers == []
      ensures requests == [RequestParams("", 0, pageSize, Order(0, Asc), filters)]
      ensures completed == 0 && loaders == 1
      ensures headerRow == [] && body == [] && pager == [] && pagerTotal == 0 && info == None
    {
      this.hasAction := hasAction;
      this.actionButtons := actionButtons;
      currentPage := 0;
      pageSize := InitialPageSize(configuredPageSize);
      order := Order(0, Asc);
      searchQuery := "";
      this.filters := filters;
      totalRecords := 0;
      headers := [];
      headerRow := [];
      body := [];
      pager := [];
      pagerTotal := 0;
      info := None;
      requests := [RequestParams("", 0, InitialPageSize(configuredPageSize), Order(0, Asc), filters)];
      completed := 0;
      loaders := 1;
    }

    /** `fetchData`: show a loader and issue a request for the current state. */
    method Fetch()
      requires Valid()
      modifies this`requests, this`loaders
      ensures Valid()
      ensures requests == old(requests) + [Request()]
      ensures loaders == old(loaders) + 1
    {
      requests := requests + [Request()];
      loaders := loaders + 1;
    }

    /** A click on the header of column `index`. The page is kept. */
    method SortBy(index: nat)
      requires Valid()
      requires index < |headers|
      modifies this`order, this`requests, this`loaders
      ensures Valid()
      ensures order == ClickHeader(old(order), index)
      ensures requests == old(requests) + [Request()]
      ensures loaders == old(loaders) + 1
    {
      order := ClickHeader(order, index);
      Fetch();
    }

    /**
     * The page the widget is on after a click whose handler moves to `target`,
     * or stays when the handler's guard fails.
     */
    static function Landing(target: Option<nat>, currentPage: nat): nat
    {
      if target.Some? then target.value else currentPage
    }

    /** The Previous button, once a bar has been rendered: one page back, unless on the first page. */
    method PreviousPage()
      requires Valid()
      requires pager != []
      modifies this`currentPage, this`requests, this`loaders
      ensures Valid()
      ensures currentPage == Landing(ClickTarget(PrevClick, old(currentPage), pagerTotal), old(currentPage))
      ensures requests == old(requests) + Repeat(Request(), ClickRequests(PrevClick, old(currentPage), pagerTotal))
    {
      if currentPage > 0 {
        currentPage := currentPage - 1;
        Fetch();
      }
    }

    /**
     * The "1" shortcut, when the rendered bar has it: to the first page,
     * fetching twice (through `goToPage` and once more).
     */
    method FirstPage()
      requires Valid()
      requires FirstShortcut in pager
      modifies this`currentPage, this`requests, this`loaders
      ensures Valid()
      ensures currentPage == Landing(ClickTarget(FirstClick, old(currentPage), pagerTotal), old(currentPage))
      ensures requests == old(requests) + Repeat(Request(), ClickRequests(FirstClick, old(currentPage), pagerTotal))
    {
      ghost var page0, before := currentPage, requests;
      if currentPage > 0 {
        currentPage := 0;
        Fetch();
        Fetch();
        assert ClickRequests(FirstClick, page0, pagerTotal) == 2;
        assert requests == before + Repeat(Request(), 2);
      }
    }

    /** A numbered button: to its page, fetching even when it is the current one. */
    method GoToPage(i: nat)
      requires Valid()
      requires Offered(i)
      modifies this`currentPage, this`requests, this`loaders
      ensures Valid()
      ensures i < pagerTotal
      ensures currentPage == Landing(ClickTarget(PageClick(i), old(currentPage), pagerTotal), old(currentPage))
      ensures requests == old(requests) + Repeat(Request(), ClickRequests(PageClick(i), old(currentPage), pagerTotal))
    {
      ghost var before := requests;
      currentPage := i;
      Fetch();
      assert requests == before + Repeat(Request(), 1);
    }

    /**
     * The last-page shortcut, when the rendered bar has it: to the last page,
     * fetching twice, unless already there or beyond.
     */
    method LastPage()
      requires Valid()
      requires LastShortcut(pagerTotal) in pager
      modifies this`currentPage, this`requests, this`loaders
      ensures Valid()
      ensures currentPage == Landing(ClickTarget(LastClick, old(currentPage), pagerTotal), old(currentPage))
      ensures requests == old(requests) + Repeat(Request(), ClickRequests(LastClick, old(currentPage), pagerTotal))
    {
      ghost var before := requests;
      if currentPage < pagerTotal - 1 {
        assert ClickRequests(LastClick, currentPage, pagerTotal) == 2;
        currentPage := pagerTotal - 1;
        Fetch();
        Fetch();
        assert requests == before + Repeat(Request(), 2);
      } else {
        assert requests == before + Repeat(Request(), 0);
      }
    }

    /** The Next button, once a bar has been rendered: one page on, unless on the last page or beyond. */
    method NextPage()
      requires Valid()
      requires pager != []
      modifies this`currentPage, this`requests, this`loaders
      ensures Valid()
      ensures currentPage == Landing(ClickTarget(NextClick, old(currentPage), pagerTotal), old(currentPage))
      ensures requests == old(requests) + Repeat(Request(), ClickRequests(NextClick, old(currentPage), pagerTotal))
    {
      if currentPage < pagerTotal - 1 {
        currentPage := currentPage + 1;
        Fetch();
      }
    }

    /** Typing in the search box: new search text, back to the first page. */
    method Search(text: string)
      requires Valid()
      modifies this`searchQuery, this`currentPage, this`requests, this`loaders
      ensures Valid()
      ensures searchQuery == text && currentPage == 0
      ensures requests == old(requests) + [Request()]
      ensures "start" !in filters ==> requests[|requests| - 1]["start"] == Number(0)
      ensures "search" !in filters ==> requests[|requests| - 1]["search"] == Text(text)
    {
      searchQuery := text;
      currentPage := 0;
      Fetch();
      RequestParamsValues(searchQuery, currentPage, pageSize, order, filters);
    }

    /** Choosing a page size: the new size, back to the first page. */
    method ChangePageSize(size: int)
      requires Valid()
      requires size > 0
      modifies this`pageSize, this`currentPage, this`requests, this`loaders
      ensures Valid()
      ensures pageSize == size && currentPage == 0
      ensures requests == old(requests) + [Request()]
      ensures "start" !in filters ==> requests[|requests| - 1]["start"] == Number(0)
      ensures "length" !in filters ==> requests[|requests| - 1]["length"] == Number(size)
    {
      pageSize := size;
      currentPage := 0;
      Fetch();
      RequestParamsValues(searchQuery, currentPage, pageSize, order, filters);
    }

    /** A custom filter control changes to `value`: back to the first page. */
    method ChangeFilter(name: string, value: string)
      requires Valid()
      requires name in filters
      modifies this`filters, this`currentPage, this`requests, this`loaders
      ensures Valid()
      ensures filters == old(filters)[name := value] && currentPage == 0
      ensures requests == old(requests) + [Request()]
      ensures requests[|requests| - 1][name] == Text(value)
      ensures "start" !in filters ==> requests[|requests| - 1]["start"] == Number(0)
    {
      filters := filters[name := value];
      currentPage := 0;
      Fetch();
      RequestParamsValues(searchQuery, currentPage, pageSize, order, filters);
    }

    /**
     * The table part of a response: `buildTableHeader` from the first
     * record's keys (none when there is no record) while no columns are
     * known, then `updateTable` under the columns.
     */
    method RenderTable(data: seq<Record>)
      requires StateValid() && TableValid()
      modifies this`headers, this`headerRow, this`body
      ensures StateValid() && TableValid()
      ensures old(headers) == [] ==> headers == (if data == [] then [] else data[0].keys)
      ensures old(headers) != [] ==> headers == old(headers)
      ensures headerRow == HeaderRow(headers, hasAction)
      ensures body == BodyRows(headers, data, hasAction, actionButtons)
    {
      if headers == [] {
        headers := if data == [] then [] else data[0].keys;
        headerRow := HeaderRow(headers, hasAction);
      }
      body := BodyRows(headers, data, hasAction, actionButtons);
      if !hasAction || actionButtons.Some? {
        BodyMatchesHeader(headers, data, hasAction, actionButtons);
      }
    }

    /** `updatePagination`: the bar for the filtered count, and the page count its handlers capture. */
    method UpdatePagination(filtered: nat)
      requires pageSize > 0
      modifies this`pager, this`pagerTotal
      ensures PagerValid()
      ensures pager == Bar(filtered, pageSize, currentPage)
      ensures pagerTotal == TotalPages(filtered, pageSize)
    {
      pager := RenderPagination(filtered, pageSize, currentPage);
      pagerTotal := TotalPages(filtered, pageSize);
      BarNumberedButtons(filtered, pageSize, currentPage, 0);
    }

    /** `updateTableInfo`: the summary line for the current page. */
    method UpdateTableInfo(filtered: nat, displayed: nat, total: int)
      requires pageSize > 0
      modifies this`info
      ensures info == Some(Info(displayed, ShownRange(currentPage, pageSize, filtered), total, filtered))
    {
      info := Some(Info(displayed, ShownRange(currentPage, pageSize, filtered), total, filtered));
    }

    /**
     * The rest of the success handler after the table: the pagination bar for
     * the filtered count, the total kept in `totalRecords`, and the summary.
     */
    method RenderCounts(filtered: nat, displayed: nat, total: int)
      requires pageSize > 0
      modifies this`pager, this`pagerTotal, this`totalRecords, this`info
      ensures PagerValid()
      ensures pager == Bar(filtered, pageSize, currentPage)
      ensures pagerTotal == TotalPages(filtered, pageSize)
      ensures totalRecords == total
      ensures info == Some(Info(displayed, ShownRange(currentPage, pageSize, filtered), total, filtered))
    {
      UpdatePagination(filtered);
      totalRecords := total;
      UpdateTableInfo(filtered, displayed, totalRecords);
    }

    /**
     * A response arrives: take the column keys from its first record if they
     * are not known yet, then render the body, the pagination bar and the
     * summary for the state as it is now, and remove one loader. The current
     * page is left as it is, even when it is past the last page.
     */
    method Respond(r: Response)
      requires Valid()
      requires completed < |requests|
      modifies this`headers, this`headerRow, this`body, this`pager, this`pagerTotal, this`totalRecords,
               this`info, this`completed, this`loaders
      ensures Valid()
      ensures old(headers) == [] ==> headers == (if r.data == [] then [] else r.data[0].keys)
      ensures old(headers) != [] ==> headers == old(headers)
      ensures headerRow == HeaderRow(headers, hasAction)
      ensures body == BodyRows(headers, r.data, hasAction, actionButtons)
      ensures pager == Bar(r.recordsFiltered, pageSize, currentPage)
      ensures pagerTotal == TotalPages(r.recordsFiltered, pageSize)
      ensures totalRecords == r.recordsTotal
      ensures info == Some(Info(|r.data|, ShownRange(currentPage, pageSize, r.recordsFiltered),
                                r.recordsTotal, r.recordsFiltered))
      ensures completed == old(completed) + 1 && loaders == old(loaders) - 1
    {
      RenderTable(r.data);
      RenderCounts(r.recordsFiltered, |r.data|, r.recordsTotal);
      completed := completed + 1;
      loaders := loaders - 1;
    }

    /** A request fails: the error is logged, the page is left as it was, and one loader is removed. */
    method Fail()
      requires Valid()
      requires completed < |requests|
      modifies this`completed, this`loaders
      ensures Valid()
      ensures completed == old(completed) + 1 && loaders == old(loaders) - 1
    {
      completed := completed + 1;
      loaders := loaders - 1;
    }

    /**
     * `exportTableToCSV`: the CSV text of every rendered row, which reads back
     * as exactly the text of the table's cells.
     */
    method ExportCsv() returns (csv: string)
      requires Valid()
      ensures csv == Csv.Encode(Snapshot(headerRow, body))
      ensures Csv.Decode(csv) == Some(Snapshot(headerRow, body))
    {
      var rows := Snapshot(headerRow, body);
      csv := Csv.Export(rows);
      Csv.DecodeEncode(rows);
    }
  }
}
