/**
 * CSV export of the rendered table (`exportTableToCSV`). Every cell becomes a
 * field wrapped in double quotes with each inner double quote doubled (the
 * escaping of section 2, rules 5 to 7, of RFC 4180); fields are joined with
 * commas and rows with a bare line feed (not the CRLF of rule 1). `Decode`
 * reads such text back, and the encoding round-trips for every table whose
 * rows each have at least one cell.
 */
module Csv {

  import opened Wrappers

  /** How many double quotes `s` holds. */
  function Quotes(s: string): nat
  {
    if s == [] then 0 else (if s[0] == '"' then 1 else 0) + Quotes(s[1..])
  }

  /**
   * `s.replace(/"/g, '""')`: every double quote doubled. The text grows by one
   * character per quote, and a text without quotes is left as it is.
   */
  function Escape(s: string): (e: string)
    ensures |e| == |s| + Quotes(s)
    ensures Quotes(s) == 0 ==> e == s
  {
    if s == [] then []
    else (if s[0] == '"' then "\"\"" else [s[0]]) + Escape(s[1..])
  }

  /** One cell as a CSV field. */
  function Field(cell: string): string
  {
    "\"" + Escape(cell) + "\""
  }

  /** `Array.prototype.join`: the parts with `sep` between neighbours. */
  function Join(parts: seq<string>, sep: string): string
  {
    if |parts| == 0 then ""
    else if |parts| == 1 then parts[0]
    else parts[0] + sep + Join(parts[1..], sep)
  }

  function Fields(cells: seq<string>): (fs: seq<string>)
    ensures |fs| == |cells|
  {
    seq(|cells|, k requires 0 <= k < |cells| => Field(cells[k]))
  }

  /** One table row as a CSV line. */
  function Line(cells: seq<string>): string
  {
    Join(Fields(cells), ",")
  }

  function Lines(rows: seq<seq<string>>): (ls: seq<string>)
    ensures |ls| == |rows|
  {
    seq(|rows|, k requires 0 <= k < |rows| => Line(rows[k]))
  }

  /** The whole file: `csv.join('\n')`. */
  function Encode(rows: seq<seq<string>>): string
  {
    Join(Lines(rows), "\n")
  }

  /**
   * `exportTableToCSV` without the download: for every row, push the quoted
   * field of every cell, join them with commas and push the line; finally
   * join the lines with line feeds.
   */
  method Export(rows: seq<seq<string>>) returns (csv: string)
    ensures csv == Encode(rows)
  {
    var lines: seq<string> := [];
    for i := 0 to |rows|
      invariant |lines| == i
      invariant forall k :: 0 <= k < i ==> lines[k] == Line(rows[k])
    {
      var row := rows[i];
      var fields: seq<string> := [];
      for j := 0 to |row|
        invariant |fields| == j
        invariant forall k :: 0 <= k < j ==> fields[k] == Field(row[k])
      {
        fields := fields + [Field(row[j])];
      }
      assert fields == Fields(row);
      lines := lines + [Join(fields, ",")];
    }
    assert lines == Lines(rows);
    csv := Join(lines, "\n");
  }

  /**
   * Reads the inside of a quoted field (after its opening quote): a doubled
   * quote stands for one quote, a single quote closes the field. Gives the
   * text and what follows the closing quote.
   */
  function Unquote(s: string): (r: Option<(string, string)>)
    ensures r.Some? ==> |r.value.1| < |s|
    decreases |s|
  {
    if s == [] then None
    else if s[0] == '"' then
      if |s| > 1 && s[1] == '"' then
        match Unquote(s[2..])
        case None => None
        case Some(p) => Some(("\"" + p.0, p.1))
      else Some(("", s[1..]))
    else
      match Unquote(s[1..])
      case None => None
      case Some(p) => Some(([s[0]] + p.0, p.1))
  }

  /** Reads one line of comma-separated quoted fields; gives the cells and what follows. */
  function ParseLine(s: string): (r: Option<(seq<string>, string)>)
    ensures r.Some? ==> |r.value.0| > 0 && |r.value.1| < |s|
    decreases |s|
  {
    if s == [] || s[0] != '"' then None
    else
      match Unquote(s[1..])
      case None => None
      case Some(p) =>
        if p.1 != [] && p.1[0] == ',' then
          match ParseLine(p.1[1..])
          case None => None
          case Some(q) => Some(([p.0] + q.0, q.1))
        else Some(([p.0], p.1))
  }

  /** Reads lines separated by line feeds up to the end of the text. */
  function ParseLines(s: string): (r: Option<seq<seq<string>>>)
    ensures r.Some? ==> |r.value| > 0
    decreases |s|
  {
    match ParseLine(s)
    case None => None
    case Some(p) =>
      if p.1 == [] then Some([p.0])
      else if p.1[0] == '\n' then
        match ParseLines(p.1[1..])
        case None => None
        case Some(rows) => Some([p.0] + rows)
      else None
  }

  /** The inverse of `Encode`: the rows of a CSV text, or None when it is not one. */
  function Decode(s: string): Option<seq<seq<string>>>
  {
    if s == [] then Some([]) else ParseLines(s)
  }

  /** Undoubling the quotes of an escaped text gives the text back, and stops at its closing quote. */
  lemma {:induction false} UnquoteEscape(t: string, rest: string)
    requires rest == [] || rest[0] != '"'
    ensures Unquote(Escape(t) + "\"" + rest) == Some((t, rest))
  {
    var s := Escape(t) + "\"" + rest;
    if t == [] {
      assert s == "\"" + rest;
    } else if t[0] == '"' {
      UnquoteEscape(t[1..], rest);
      assert s == "\"\"" + (Escape(t[1..]) + "\"" + rest);
      assert s[2..] == Escape(t[1..]) + "\"" + rest;
      assert "\"" + t[1..] == t;
    } else {
      UnquoteEscape(t[1..], rest);
      assert s == [t[0]] + (Escape(t[1..]) + "\"" + rest);
      assert s[1..] == Escape(t[1..]) + "\"" + rest;
      assert [t[0]] + t[1..] == t;
    }
  }

  /** A field followed by no comma reads as a line of that one cell. */
  lemma ParseLastField(cell: string, rest: string)
    requires rest == [] || rest[0] == '\n'
    ensures ParseLine(Field(cell) + rest) == Some(([cell], rest))
  {
    var s := Field(cell) + rest;
    assert s[1..] == Escape(cell) + "\"" + rest;
    UnquoteEscape(cell, rest);
    assert Unquote(s[1..]) == Some((cell, rest));
  }

  /** A field, a comma, then a line read as `cells`: the field's cell comes first. */
  lemma ParseFieldComma(cell: string, tail: string, cells: seq<string>, rest: string)
    requires ParseLine(tail) == Some((cells, rest))
    ensures ParseLine(Field(cell) + "," + tail) == Some(([cell] + cells, rest))
  {
    var s := Field(cell) + "," + tail;
    var more := "," + tail;
    assert s[1..] == Escape(cell) + "\"" + more;
    UnquoteEscape(cell, more);
    assert Unquote(s[1..]) == Some((cell, more));
    assert more[1..] == tail;
  }

  /** A line reads back as its cells, one per field, whatever follows it on a new line. */
  lemma {:induction false} ParseLineOfLine(cells: seq<string>, rest: string)
    requires |cells| > 0
    requires rest == [] || rest[0] == '\n'
    ensures ParseLine(Line(cells) + rest) == Some((cells, rest))
  {
    if |cells| == 1 {
      assert Line(cells) == Field(cells[0]);
      ParseLastField(cells[0], rest);
      assert [cells[0]] == cells;
    } else {
      var tail := Line(cells[1..]) + rest;
      assert Fields(cells)[1..] == Fields(cells[1..]);
      assert Line(cells) + rest == Field(cells[0]) + "," + tail;
      ParseLineOfLine(cells[1..], rest);
      ParseFieldComma(cells[0], tail, cells[1..], rest);
      assert [cells[0]] + cells[1..] == cells;
    }
  }

  lemma {:induction false} ParseLinesOfEncode(rows: seq<seq<string>>)
    requires |rows| > 0
    requires forall k :: 0 <= k < |rows| ==> |rows[k]| > 0
    ensures ParseLines(Encode(rows)) == Some(rows)
  {
    var ls := Lines(rows);
    if |rows| == 1 {
      assert Encode(rows) == Line(rows[0]) + "";
      ParseLineOfLine(rows[0], "");
      assert [rows[0]] == rows;
    } else {
      var rest := "\n" + Encode(rows[1..]);
      assert ls[1..] == Lines(rows[1..]);
      assert Encode(rows) == Line(rows[0]) + rest;
      ParseLineOfLine(rows[0], rest);
      assert rest[1..] == Encode(rows[1..]);
      ParseLinesOfEncode(rows[1..]);
      assert [rows[0]] + rows[1..] == rows;
    }
  }

  /** The export round-trips: decoding the CSV text gives back every row and every cell. */
  lemma {:induction false} DecodeEncode(rows: seq<seq<string>>)
    requires forall k :: 0 <= k < |rows| ==> |rows[k]| > 0
    ensures Decode(Encode(rows)) == Some(rows)
  {
    if |rows| > 0 {
      assert Encode(rows) != [] by {
        var ls := Lines(rows);
        if |rows| > 1 {
          assert Encode(rows) == ls[0] + "\n" + Join(ls[1..], "\n");
        }
        assert Fields(rows[0])[0] == Field(rows[0][0]);
        if |rows[0]| > 1 {
          assert Line(rows[0]) == Field(rows[0][0]) + "," + Join(Fields(rows[0])[1..], ",");
        }
      }
      ParseLinesOfEncode(rows);
    }
  }

  /**
   * Rows without cells are why `DecodeEncode` asks for non-empty rows: an
   * empty table and a table of one empty row export the same text.
   */
  lemma EmptyRowIsInvisible()
    ensures Encode([]) == Encode([[]]) == ""
  {
  }
}
