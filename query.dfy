/**
 * What the table widget sends to its data endpoint: the sort order a header
 * click produces, and the query parameters of one request (`fetchData`).
 */
module Query {

  /** `orderDir`, sent as "asc" or "desc". */
  datatype Direction = Asc | Desc

  function DirectionName(d: Direction): (name: string)
    ensures name == "asc" || name == "desc"
    ensures d == Asc <==> name == "asc"
  {
    match d
    case Asc => "asc"
    case Desc => "desc"
  }

  /** The other direction: `orderDir === 'asc' ? 'desc' : 'asc'`. */
  function Flip(d: Direction): (e: Direction)
    ensures e != d
  {
    if d == Asc then Desc else Asc
  }

  /** The sort state: `orderColumn` (an index into the header keys) and `orderDir`. */
  datatype Order = Order(column: nat, dir: Direction)

  /**
   * A click on the header of column `index`: the same column reverses the
   * direction, another column becomes the sort column, ascending.
   */
  function ClickHeader(o: Order, index: nat): (r: Order)
    ensures r.column == index
    ensures o.column == index ==> r.dir != o.dir
    ensures o.column != index ==> r.dir == Asc
  {
    if o.column == index then Order(index, Flip(o.dir)) else Order(index, Asc)
  }

  /** Two clicks on the sort column give back the order it had. */
  lemma ClickSameHeaderTwice(o: Order)
    ensures ClickHeader(ClickHeader(o, o.column), o.column) == o
  {
  }

  /** Two clicks on another column sort it descending. */
  lemma ClickOtherHeaderTwice(o: Order, index: nat)
    requires o.column != index
    ensures ClickHeader(ClickHeader(o, index), index) == Order(index, Desc)
  {
  }

  /** A query-string value: the JavaScript value before `searchParams.append` turns it into text. */
  datatype Param = Text(text: string) | Number(value: int)

  /** The names of the parameters every request carries before the custom filters. */
  const BaseNames: set<string> := {"search", "start", "length", "orderColumn", "orderDir"}

  /**
   * The `params` object of `fetchData` for a table state: the five built-in
   * parameters, then one parameter per custom filter spread over them.
   */
  function RequestParams(search: string, currentPage: nat, pageSize: int, order: Order, filters: map<string, string>)
    : map<string, Param>
  {
    var base := map[
      "search" := Text(search),
      "start" := Number(currentPage * pageSize),
      "length" := Number(pageSize),
      "orderColumn" := Number(order.column),
      "orderDir" := Text(DirectionName(order.dir))];
    base + map name | name in filters :: Text(filters[name])
  }

  /**
   * A request asks for rows from `currentPage * pageSize` on, `pageSize` of
   * them, with the search text and the sort order, and carries every custom
   * filter; a filter whose name is that of a built-in parameter replaces it.
   */
  lemma RequestParamsValues(search: string, currentPage: nat, pageSize: int, order: Order, filters: map<string, string>)
    ensures var p := RequestParams(search, currentPage, pageSize, order, filters);
            && p.Keys == BaseNames + filters.Keys
            && (forall name :: name in filters ==> p[name] == Text(filters[name]))
            && ("search" !in filters ==> p["search"] == Text(search))
            && ("start" !in filters ==> p["start"] == Number(currentPage * pageSize))
            && ("length" !in filters ==> p["length"] == Number(pageSize))
            && ("orderColumn" !in filters ==> p["orderColumn"] == Number(order.column))
            && ("orderDir" !in filters ==> p["orderDir"] == Text(DirectionName(order.dir)))
  {
  }
}
