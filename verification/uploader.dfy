/** The CSV reader of the upload component (`csvToJson`): a plain splitter on `'\n'`
    and `','` with no quoting, positional alignment of cells to the header names,
    and per-column conversion of the trimmed cell text. `Date.parse` and `parseFloat`
    are left uninterpreted: they are parameters from the trimmed cell text to a
    JavaScript number. */
module Uploader {
  import opened Wrappers
  import opened Text
  import opened JsNumber

  /** A field of a parsed row: `null` or a JavaScript number (possibly NaN). */
  datatype Value = Null | Num(n: Number)

  /** A parsed row: one entry per distinct header name. A key that is not in the map
      reads as `undefined`. */
  type Row = map<string, Value>

  /** What the upload component hands to its parent for every file it read. */
  datatype Dataset = Dataset(fileName: string, data: seq<Row>)

  /** The one column converted with `Date.parse` rather than `parseFloat`. */
  const TimestampHeader: string := "Timestamp"

  /** The cell made of one comma-separated piece: `null` when its trimmed text is
      empty, otherwise the trimmed text. */
  function CellOf(piece: string): Option<string> {
    var t := Trim(piece);
    if t == "" then None else Some(t)
  }

  /** The cells of one data line, in order. */
  function Cells(line: string): seq<Option<string>> {
    var pieces := Split(line, ',');
    seq(|pieces|, i requires 0 <= i < |pieces| => CellOf(pieces[i]))
  }

  /** `values[idx] ?? null`: a position beyond the last cell reads as `null`. */
  function CellAt(cells: seq<Option<string>>, i: nat): Option<string> {
    if i < |cells| then cells[i] else None
  }

  /** The value stored for one header and one cell. */
  function Convert(header: string, cell: Option<string>,
                   dateParse: string -> Number, parseFloat: string -> Number): Value
  {
    if header == TimestampHeader && cell.Some? then Num(dateParse(cell.value))
    else if cell.Some? then Num(parseFloat(cell.value))
    else Null
  }

  /** Position `i` holds the last occurrence of its header name among the first `n`. */
  predicate LastAt(headers: seq<string>, n: nat, i: nat)
    requires i < n <= |headers|
  {
    forall j :: i < j < n ==> headers[j] != headers[i]
  }

  /** The `reduce` over the first `n` headers: every header name becomes a key, and a
      name that occurs more than once keeps the value of its last occurrence, later
      assignments overwriting earlier ones. */
  function Reduce(headers: seq<string>, cells: seq<Option<string>>, n: nat,
                  dateParse: string -> Number, parseFloat: string -> Number): (r: Row)
    requires n <= |headers|
    ensures forall h :: h in r <==> h in headers[..n]
    ensures forall i {:trigger LastAt(headers, n, i)} :: 0 <= i < n && LastAt(headers, n, i) ==>
              r[headers[i]] == Convert(headers[i], CellAt(cells, i), dateParse, parseFloat)
  {
    if n == 0 then map[]
    else
      var acc := Reduce(headers, cells, n - 1, dateParse, parseFloat);
      var h := headers[n - 1];
      assert forall i :: 0 <= i < n - 1 && LastAt(headers, n, i) ==> LastAt(headers, n - 1, i);
      acc[h := Convert(h, CellAt(cells, n - 1), dateParse, parseFloat)]
  }

  /** One data line turned into a row aligned to the headers. */
  function RowFromLine(headers: seq<string>, line: string,
                       dateParse: string -> Number, parseFloat: string -> Number): (r: Row)
    ensures forall h :: h in r <==> h in headers
  {
    assert headers[..|headers|] == headers;
    Reduce(headers, Cells(line), |headers|, dateParse, parseFloat)
  }

  /** The lines of the trimmed input. */
  function Lines(csv: string): seq<string> {
    Split(Trim(csv), '\n')
  }

  /** The header names: the first line split on commas, each name trimmed. */
  function Headers(csv: string): seq<string> {
    HeaderNames(Lines(csv)[0])
  }

  /** The names in a header line: its comma-separated pieces, each trimmed. */
  function HeaderNames(line: string): seq<string> {
    var names := Split(line, ',');
    seq(|names|, i requires 0 <= i < |names| => Trim(names[i]))
  }

  /** Every line after the first. */
  function DataLines(csv: string): seq<string> {
    Lines(csv)[1..]
  }

  /** `csvToJson`: one row per line after the header line, blank lines included, so as
      many rows as the trimmed input has `'\n'` characters; every row has exactly the
      header names as keys. */
  function CsvToJson(csv: string, dateParse: string -> Number, parseFloat: string -> Number)
    : (rows: seq<Row>)
    ensures |rows| == |DataLines(csv)| == Count(Trim(csv), '\n')
    ensures forall k, h :: 0 <= k < |rows| ==> (h in rows[k] <==> h in Headers(csv))
    ensures forall k :: 0 <= k < |rows| ==>
              rows[k] == RowFromLine(Headers(csv), DataLines(csv)[k], dateParse, parseFloat)
  {
    assert |Lines(csv)| == Count(Trim(csv), '\n') + 1;
    RowsOf(Headers(csv), DataLines(csv), dateParse, parseFloat)
  }

  /** The `lines.map` step: one row per data line, in order. */
  function RowsOf(headers: seq<string>, lines: seq<string>,
                  dateParse: string -> Number, parseFloat: string -> Number): (rows: seq<Row>)
    ensures |rows| == |lines|
    ensures forall k, h :: 0 <= k < |rows| ==> (h in rows[k] <==> h in headers)
    ensures forall k :: 0 <= k < |rows| ==> rows[k] == RowFromLine(headers, lines[k], dateParse, parseFloat)
  {
    seq(|lines|, k requires 0 <= k < |lines| => RowFromLine(headers, lines[k], dateParse, parseFloat))
  }

  /** A cell is `null` exactly when its text is empty or whitespace only; otherwise it is
      the text without surrounding whitespace. */
  lemma CellNullIffBlank(piece: string)
    ensures CellOf(piece) == None <==> AllWhitespace(piece)
    ensures CellOf(piece).Some? ==> CellOf(piece).value == Trim(piece) && Clean(Trim(piece))
  {
    TrimEmptyIff(piece);
  }

  /** A `'\r'` ending a cell (the last cell of a line in a CRLF file) does not change it. */
  lemma CellIgnoresCarriageReturn(piece: string)
    ensures CellOf(piece + ['\r']) == CellOf(piece)
  {
    TrimIgnoresTrailingWhitespace(piece, '\r');
  }

  /** The value each row holds for a header name, read off the line's comma-separated
      pieces at the name's last position: `null` when the piece is missing or blank,
      `Date.parse` of the trimmed piece in the `Timestamp` column, `parseFloat` of the
      trimmed piece in every other column. */
  lemma CsvToJsonValues(csv: string, dateParse: string -> Number, parseFloat: string -> Number,
                        k: nat, i: nat)
    requires k < |CsvToJson(csv, dateParse, parseFloat)|
    requires i < |Headers(csv)| && LastAt(Headers(csv), |Headers(csv)|, i)
    ensures var v := CsvToJson(csv, dateParse, parseFloat)[k][Headers(csv)[i]];
            var pieces := Split(DataLines(csv)[k], ',');
            && (i >= |pieces| || AllWhitespace(pieces[i]) ==> v == Null)
            && (i < |pieces| && !AllWhitespace(pieces[i]) && Headers(csv)[i] == TimestampHeader ==>
                  v == Num(dateParse(Trim(pieces[i]))))
            && (i < |pieces| && !AllWhitespace(pieces[i]) && Headers(csv)[i] != TimestampHeader ==>
                  v == Num(parseFloat(Trim(pieces[i]))))
  {
    RowValues(Headers(csv), DataLines(csv)[k], dateParse, parseFloat, i);
  }

  /** `CsvToJsonValues` for one line and its row. */
  lemma RowValues(headers: seq<string>, line: string, dateParse: string -> Number, parseFloat: string -> Number,
                  i: nat)
    requires i < |headers| && LastAt(headers, |headers|, i)
    ensures var v := RowFromLine(headers, line, dateParse, parseFloat)[headers[i]];
            var pieces := Split(line, ',');
            && (i >= |pieces| || AllWhitespace(pieces[i]) ==> v == Null)
            && (i < |pieces| && !AllWhitespace(pieces[i]) && headers[i] == TimestampHeader ==>
                  v == Num(dateParse(Trim(pieces[i]))))
            && (i < |pieces| && !AllWhitespace(pieces[i]) && headers[i] != TimestampHeader ==>
                  v == Num(parseFloat(Trim(pieces[i]))))
  {
    var pieces := Split(line, ',');
    var cells := Cells(line);
    assert RowFromLine(headers, line, dateParse, parseFloat)[headers[i]]
        == Convert(headers[i], CellAt(cells, i), dateParse, parseFloat);
    if i < |pieces| {
      CellNullIffBlank(pieces[i]);
      assert CellAt(cells, i) == CellOf(pieces[i]);
    }
  }

  /** A line that is blank (or only `'\r'`) still yields a row, every field `null`. */
  lemma {:induction false} BlankLineAllNull(headers: seq<string>, line: string, n: nat,
                                           dateParse: string -> Number, parseFloat: string -> Number)
    requires AllWhitespace(line)
    requires n <= |headers|
    ensures forall h :: h in Reduce(headers, Cells(line), n, dateParse, parseFloat) ==>
              Reduce(headers, Cells(line), n, dateParse, parseFloat)[h] == Null
  {
    assert ',' !in line;
    SplitWithoutSeparator(line, ',');
    CellNullIffBlank(line);
    if n == 0 {
    } else {
      BlankLineAllNull(headers, line, n - 1, dateParse, parseFloat);
    }
  }

  /** `Reduce` reads only the cells at the first `n` positions. */
  lemma {:induction false} ReduceReadsFirstCells(headers: seq<string>, c1: seq<Option<string>>,
                                                c2: seq<Option<string>>, n: nat,
                                                dateParse: string -> Number, parseFloat: string -> Number)
    requires n <= |headers|
    requires forall i :: 0 <= i < n ==> CellAt(c1, i) == CellAt(c2, i)
    ensures Reduce(headers, c1, n, dateParse, parseFloat) == Reduce(headers, c2, n, dateParse, parseFloat)
  {
    if n == 0 {
    } else {
      ReduceReadsFirstCells(headers, c1, c2, n - 1, dateParse, parseFloat);
      assert CellAt(c1, n - 1) == CellAt(c2, n - 1);
    }
  }

  /** Cells beyond the number of headers are ignored: appending more comma-separated
      text to a line that already has a cell for every header leaves its row unchanged. */
  lemma ExtraCellsIgnored(headers: seq<string>, line: string, extra: string,
                          dateParse: string -> Number, parseFloat: string -> Number)
    requires |Split(line, ',')| >= |headers|
    ensures RowFromLine(headers, line + [','] + extra, dateParse, parseFloat)
         == RowFromLine(headers, line, dateParse, parseFloat)
  {
    var a := Split(line, ',');
    SplitAppend(line, extra, ',');
    var c1, c2 := Cells(line + [','] + extra), Cells(line);
    forall i | 0 <= i < |headers| ensures CellAt(c1, i) == CellAt(c2, i) {
      assert Split(line + [','] + extra, ',')[i] == a[i];
    }
    ReduceReadsFirstCells(headers, c1, c2, |headers|, dateParse, parseFloat);
  }

  /** Splitting text that has a separator added between two parts splits each part. */
  lemma SplitAppend(line: string, extra: string, sep: char)
    ensures Split(line + [sep] + extra, sep) == Split(line, sep) + Split(extra, sep)
  {
    var a, b := Split(line, sep), Split(extra, sep);
    JoinAppend(a, b, sep);
    SplitJoin(a + b, sep);
  }

  /** Joining two runs of pieces is joining each and putting a separator between. */
  lemma {:induction false} JoinAppend(a: seq<string>, b: seq<string>, sep: char)
    requires |a| > 0 && |b| > 0
    ensures Join(a + b, sep) == Join(a, sep) + [sep] + Join(b, sep)
  {
    if |a| > 1 {
      assert (a + b)[1..] == a[1..] + b;
      JoinAppend(a[1..], b, sep);
    } else {
      assert (a + b)[1..] == b;
    }
  }

  /** No quoting: a comma between double quotes still separates two cells, and the
      quote characters stay in the cell text. */
  lemma QuotedCommaStillSplits()
    ensures Cells("\"a,b\"") == [Some("\"a"), Some("b\"")]
  {
    var p, q := "\"a", "b\"";
    assert Join([p, q], ',') == "\"a,b\"";
    SplitJoin([p, q], ',');
    CleanTrimmed(p);
    CleanTrimmed(q);
  }

  /** Text with no whitespace at either end is its own trim. */
  lemma CleanTrimmed(s: string)
    requires s != [] && Clean(s)
    ensures Trim(s) == s && CellOf(s) == Some(s)
  {
    assert TrimmedAt(s, 0, s);
    var i :| TrimmedAt(s, i, Trim(s));
    TrimUnique(s, 0, s, i, Trim(s));
  }
}
