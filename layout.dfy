/**
 * The rows of the rendered table, as abstract cells rather than DOM nodes:
 * the header row (`buildTableHeader`), the body rows (`updateTable`), how many
 * columns each spans, and the text of every cell that the CSV export reads.
 */
module Layout {

  import opened Wrappers

  /** Label of the trailing action column. */
  const ActionLabel: string := "Aksi"

  /** Text of the placeholder row shown when a page has no records. */
  const NoDataMessage: string := "Tidak ada data untuk ditampilkan."

  /** A `th`: the select-all checkbox, a sortable column named by its key, or the action column. */
  datatype HeaderCell = SelectAll | Column(key: string) | ActionHeader

  /**
   * The header row for the column keys: the select-all cell, one cell per key
   * in order (the cell of key `i` is the one whose click sorts by column `i`),
   * and the action cell when there is an action column.
   */
  function HeaderRow(keys: seq<string>, hasAction: bool): (row: seq<HeaderCell>)
    ensures |row| == 1 + |keys| + (if hasAction then 1 else 0)
    ensures row[0] == SelectAll
    ensures forall i :: 0 <= i < |keys| ==> row[1 + i] == Column(keys[i])
    ensures hasAction ==> row[|row| - 1] == ActionHeader
  {
    [SelectAll]
    + seq(|keys|, i requires 0 <= i < |keys| => Column(keys[i]))
    + (if hasAction then [ActionHeader] else [])
  }

  /**
   * One element of the response's `data` array: its keys in their own order
   * (`Object.keys`) and the values of its fields that are neither null nor
   * undefined, as the text they render to.
   */
  datatype Record = Record(keys: seq<string>, values: map<string, string>)

  /** `item[key] ?? ''`: a missing or null field shows as the empty text. */
  function FieldText(r: Record, key: string): string
  {
    if key in r.values then r.values[key] else ""
  }

  /** A `td`: a row's selection checkbox, a field value, the action markup, or the no-data placeholder. */
  datatype BodyCell = RowCheckbox | Value(text: string) | Actions(markup: string) | NoData(colSpan: nat)

  /** The row of one record: its checkbox, its fields in header order, and the action cell when there is one. */
  function RecordRow(headers: seq<string>, r: Record, action: Option<string>): (row: seq<BodyCell>)
    ensures |row| == 1 + |headers| + (if action.Some? then 1 else 0)
    ensures row[0] == RowCheckbox
    ensures forall i :: 0 <= i < |headers| ==> row[1 + i] == Value(FieldText(r, headers[i]))
    ensures forall i :: 0 <= i < |row| ==> !row[i].NoData?
  {
    [RowCheckbox]
    + seq(|headers|, i requires 0 <= i < |headers| => Value(FieldText(r, headers[i])))
    + (if action.Some? then [Actions(action.value)] else [])
  }

  /**
   * The action cell's markup for a record: the formatter's output when the
   * action column is on and `actionButtons` is a function, otherwise no cell.
   */
  function ActionFor(r: Record, hasAction: bool, actionButtons: Option<Record -> string>): Option<string>
  {
    if hasAction && actionButtons.Some? then Some(actionButtons.value(r)) else None
  }

  /**
   * The body for a page of records: one placeholder row spanning every column
   * when there are none, else one row per record. The action cell is produced
   * only when the action column is on and a formatter was supplied.
   */
  function BodyRows(headers: seq<string>, data: seq<Record>, hasAction: bool, actionButtons: Option<Record -> string>)
    : (rows: seq<seq<BodyCell>>)
    ensures |data| == 0 ==> rows == [[NoData(|headers| + (if hasAction then 2 else 1))]]
    ensures |data| > 0 ==> |rows| == |data| && forall k :: 0 <= k < |data| ==>
              rows[k] == RecordRow(headers, data[k], ActionFor(data[k], hasAction, actionButtons))
    ensures forall k :: 0 <= k < |rows| ==> |rows[k]| > 0
  {
    if |data| == 0 then [[NoData(|headers| + (if hasAction then 2 else 1))]]
    else
      var rows := seq(|data|, k requires 0 <= k < |data| =>
        RecordRow(headers, data[k], ActionFor(data[k], hasAction, actionButtons)));
      assert forall k :: 0 <= k < |data| ==> |rows[k]| > 0;
      rows
  }

  /** How many table columns a cell covers. */
  function CellSpan(c: BodyCell): nat
  {
    if c.NoData? then c.colSpan else 1
  }

  /** How many table columns a row covers. */
  function Span(row: seq<BodyCell>): nat
  {
    if row == [] then 0 else CellSpan(row[0]) + Span(row[1..])
  }

  /** A row without a placeholder cell covers one column per cell. */
  lemma {:induction false} SpanOfPlainRow(row: seq<BodyCell>)
    requires forall k :: 0 <= k < |row| ==> !row[k].NoData?
    ensures Span(row) == |row|
  {
    if row != [] {
      SpanOfPlainRow(row[1..]);
    }
  }

  /**
   * Every body row covers exactly as many columns as the header row
   * (1 + |headers| + 1 for the action column), the placeholder's `colSpan`
   * included, as long as an action column comes with its formatter.
   */
  lemma {:induction false} BodyMatchesHeader(headers: seq<string>, data: seq<Record>, hasAction: bool,
                                             actionButtons: Option<Record -> string>)
    requires !hasAction || actionButtons.Some?
    ensures var rows := BodyRows(headers, data, hasAction, actionButtons);
            forall k :: 0 <= k < |rows| ==> Span(rows[k]) == |HeaderRow(headers, hasAction)|
  {
    var rows := BodyRows(headers, data, hasAction, actionButtons);
    forall k | 0 <= k < |rows|
      ensures Span(rows[k]) == |HeaderRow(headers, hasAction)|
    {
      if |data| == 0 {
        assert Span(rows[k]) == CellSpan(rows[k][0]) + Span([]);
      } else {
        SpanOfPlainRow(rows[k]);
      }
    }
  }

  /**
   * With the action column on but no formatter function, the header has the
   * action cell while record rows have none: each record row is one column short.
   */
  lemma {:induction false} MissingFormatterShortRows(headers: seq<string>, data: seq<Record>)
    requires |data| > 0
    ensures var rows := BodyRows(headers, data, true, None);
            forall k :: 0 <= k < |rows| ==> Span(rows[k]) == |HeaderRow(headers, true)| - 1
  {
    var rows := BodyRows(headers, data, true, None);
    forall k | 0 <= k < |rows|
      ensures Span(rows[k]) == |HeaderRow(headers, true)| - 1
    {
      SpanOfPlainRow(rows[k]);
    }
  }

  /** The `innerText` of a header cell. */
  function HeaderText(c: HeaderCell): string
  {
    match c
    case SelectAll => ""
    case Column(key) => key
    case ActionHeader => ActionLabel
  }

  /** The `innerText` of a body cell. */
  function BodyText(c: BodyCell): string
  {
    match c
    case RowCheckbox => ""
    case Value(text) => text
    case Actions(markup) => markup
    case NoData(_) => NoDataMessage
  }

  /**
   * The table as the CSV export sees it: the text of every cell of every `tr`,
   * the header row first when it has been built. Row for row and cell for cell
   * it follows the rendered table.
   */
  function Snapshot(header: seq<HeaderCell>, body: seq<seq<BodyCell>>): (rows: seq<seq<string>>)
    ensures |rows| == (if header == [] then 0 else 1) + |body|
    ensures header != [] ==> rows[0] == seq(|header|, i requires 0 <= i < |header| => HeaderText(header[i]))
    ensures forall k :: 0 <= k < |body| ==>
              var row := rows[k + (if header == [] then 0 else 1)];
              |row| == |body[k]| && forall i :: 0 <= i < |row| ==> row[i] == BodyText(body[k][i])
    ensures (forall k :: 0 <= k < |body| ==> |body[k]| > 0) ==> forall k :: 0 <= k < |rows| ==> |rows[k]| > 0
  {
    (if header == [] then [] else [seq(|header|, i requires 0 <= i < |header| => HeaderText(header[i]))])
    + seq(|body|, k requires 0 <= k < |body| =>
        seq(|body[k]|, i requires 0 <= i < |body[k]| => BodyText(body[k][i])))
  }
}
