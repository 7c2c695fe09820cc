/** An end-to-end run of the page: upload a three-line telemetry file with the header
    `Timestamp,heading`, drag across it from the first to the last timestamp, release. */
module Scenario {
  import opened Wrappers
  import opened Text
  import opened JsNumber
  import opened Uploader
  import opened Axis
  import opened ZoomGraph
  import Page

  /** The header line and three data lines, joined by `'\n'`. */
  function TelemetryCsv(d0: string, n0: string, d1: string, n1: string, d2: string, n2: string): string {
    (TimestampHeader + "," + HeadingKey) + "\n" + ((d0 + "," + n0) + "\n" + ((d1 + "," + n1) + "\n" + (d2 + "," + n2)))
  }

  /** A cell that reads back as itself: not blank, no surrounding whitespace, and no
      comma or line break in it. */
  predicate PlainCell(c: string) {
    c != [] && Clean(c) && ',' !in c && '\n' !in c
  }

  /** A data line of two plain cells under the headers `Timestamp,heading`. */
  lemma TwoCellRow(date: string, num: string, dateParse: string -> Number, parseFloat: string -> Number)
    requires PlainCell(date) && PlainCell(num)
    ensures RowFromLine([TimestampHeader, HeadingKey], date + "," + num, dateParse, parseFloat)
         == map[TimestampHeader := Num(dateParse(date)), HeadingKey := Num(parseFloat(num))]
  {
    assert Join([date, num], ',') == date + "," + num;
    SplitJoin([date, num], ',');
    CleanTrimmed(date);
    CleanTrimmed(num);
    var hs: seq<string> := [TimestampHeader, HeadingKey];
    var cells := Cells(date + "," + num);
    assert cells == [Some(date), Some(num)];
    assert Reduce(hs, cells, 1, dateParse, parseFloat) == map[TimestampHeader := Num(dateParse(date))];
  }

  /** The lines of the file. */
  lemma TelemetryLines(d0: string, n0: string, d1: string, n1: string, d2: string, n2: string)
    requires PlainCell(d0) && PlainCell(n0) && PlainCell(d1) && PlainCell(n1)
    requires PlainCell(d2) && PlainCell(n2)
    ensures Lines(TelemetryCsv(d0, n0, d1, n1, d2, n2))
         == [TimestampHeader + "," + HeadingKey, d0 + "," + n0, d1 + "," + n1, d2 + "," + n2]
  {
    var l0, l1, l2, l3 := TimestampHeader + "," + HeadingKey, d0 + "," + n0, d1 + "," + n1, d2 + "," + n2;
    var csv := TelemetryCsv(d0, n0, d1, n1, d2, n2);
    TelemetryClean(d0, n0, d1, n1, d2, n2);
    assert '\n' !in l0 by {
      assert l0 == "Timestamp,heading";
    }
    assert '\n' !in l1 && '\n' !in l2 && '\n' !in l3;
    LinesOfFour(csv, l0, l1, l2, l3);
  }

  /** The file starts with the header's first letter and ends with the last cell's last
      character, so it has no whitespace to trim. */
  lemma TelemetryClean(d0: string, n0: string, d1: string, n1: string, d2: string, n2: string)
    requires PlainCell(n2)
    ensures TelemetryCsv(d0, n0, d1, n1, d2, n2) != []
    ensures Clean(TelemetryCsv(d0, n0, d1, n1, d2, n2))
  {
    var csv := TelemetryCsv(d0, n0, d1, n1, d2, n2);
    assert csv[0] == 'T';
    assert csv[|csv| - 1] == n2[|n2| - 1];
  }

  /** A clean text of four lines. */
  lemma LinesOfFour(csv: string, l0: string, l1: string, l2: string, l3: string)
    requires csv != [] && Clean(csv)
    requires csv == l0 + "\n" + (l1 + "\n" + (l2 + "\n" + l3))
    requires '\n' !in l0 && '\n' !in l1 && '\n' !in l2 && '\n' !in l3
    ensures Lines(csv) == [l0, l1, l2, l3]
  {
    CleanTrimmed(csv);
    SplitFour(l0, l1, l2, l3, '\n');
  }

  /** Four separator-free parts joined by the separator split back into the four. */
  lemma SplitFour(l0: string, l1: string, l2: string, l3: string, sep: char)
    requires sep !in l0 && sep !in l1 && sep !in l2 && sep !in l3
    ensures Split(l0 + [sep] + (l1 + [sep] + (l2 + [sep] + l3)), sep) == [l0, l1, l2, l3]
  {
    SplitWithoutSeparator(l3, sep);
    SplitCons(l2, l3, sep);
    SplitCons(l1, l2 + [sep] + l3, sep);
    SplitCons(l0, l1 + [sep] + (l2 + [sep] + l3), sep);
  }

  /** A header line of two plain names gives those names. */
  lemma NamesOfLine(a: string, b: string)
    requires PlainCell(a) && PlainCell(b)
    ensures HeaderNames(a + "," + b) == [a, b]
  {
    var names := Split(a + "," + b, ',');
    assert names == [a, b] by {
      assert a + "," + b == a + [','] + b;
      SplitTwo(a, b, ',');
    }
    CleanTrimmed(a);
    CleanTrimmed(b);
    var hs := HeaderNames(a + "," + b);
    assert |hs| == 2 && hs[0] == Trim(names[0]) && hs[1] == Trim(names[1]);
  }

  /** Two separator-free parts joined by the separator split back into the two. */
  lemma SplitTwo(a: string, b: string, sep: char)
    requires sep !in a && sep !in b
    ensures Split(a + [sep] + b, sep) == [a, b]
  {
    assert Join([a, b], sep) == a + [sep] + b by { assert [a, b][1..] == [b]; }
    SplitJoin([a, b], sep);
  }

  /** The two header names of the file are plain. */
  lemma HeaderNamesPlain()
    ensures PlainCell(TimestampHeader) && PlainCell(HeadingKey)
  {
    assert PlainCell("Timestamp");
    assert PlainCell("heading");
  }

  /** The header names and data lines of the file. */
  lemma TelemetryHeaders(d0: string, n0: string, d1: string, n1: string, d2: string, n2: string)
    requires PlainCell(d0) && PlainCell(n0) && PlainCell(d1) && PlainCell(n1)
    requires PlainCell(d2) && PlainCell(n2)
    ensures Headers(TelemetryCsv(d0, n0, d1, n1, d2, n2)) == [TimestampHeader, HeadingKey]
    ensures DataLines(TelemetryCsv(d0, n0, d1, n1, d2, n2)) == [d0 + "," + n0, d1 + "," + n1, d2 + "," + n2]
  {
    var csv := TelemetryCsv(d0, n0, d1, n1, d2, n2);
    TelemetryLines(d0, n0, d1, n1, d2, n2);
    HeaderNamesPlain();
    NamesOfLine(TimestampHeader, HeadingKey);
  }

  /** The rows the page gets from the file: one per data line, keyed by the two names. */
  lemma TelemetryRows(d0: string, n0: string, d1: string, n1: string, d2: string, n2: string,
                      dateParse: string -> Number, parseFloat: string -> Number)
    requires PlainCell(d0) && PlainCell(n0) && PlainCell(d1) && PlainCell(n1)
    requires PlainCell(d2) && PlainCell(n2)
    ensures var rows := CsvToJson(TelemetryCsv(d0, n0, d1, n1, d2, n2), dateParse, parseFloat);
            && |rows| == 3
            && rows[0] == map[TimestampHeader := Num(dateParse(d0)), HeadingKey := Num(parseFloat(n0))]
            && rows[1] == map[TimestampHeader := Num(dateParse(d1)), HeadingKey := Num(parseFloat(n1))]
            && rows[2] == map[TimestampHeader := Num(dateParse(d2)), HeadingKey := Num(parseFloat(n2))]
  {
    TelemetryHeaders(d0, n0, d1, n1, d2, n2);
    RowsOfThreeLines(TelemetryCsv(d0, n0, d1, n1, d2, n2), d0, n0, d1, n1, d2, n2, dateParse, parseFloat);
  }

  /** Any text with those headers and those three data lines gives those three rows. */
  lemma RowsOfThreeLines(csv: string, d0: string, n0: string, d1: string, n1: string, d2: string, n2: string,
                         dateParse: string -> Number, parseFloat: string -> Number)
    requires PlainCell(d0) && PlainCell(n0) && PlainCell(d1) && PlainCell(n1)
    requires PlainCell(d2) && PlainCell(n2)
    requires Headers(csv) == [TimestampHeader, HeadingKey]
    requires DataLines(csv) == [d0 + "," + n0, d1 + "," + n1, d2 + "," + n2]
    ensures var rows := CsvToJson(csv, dateParse, parseFloat);
            && |rows| == 3
            && rows[0] == map[TimestampHeader := Num(dateParse(d0)), HeadingKey := Num(parseFloat(n0))]
            && rows[1] == map[TimestampHeader := Num(dateParse(d1)), HeadingKey := Num(parseFloat(n1))]
            && rows[2] == map[TimestampHeader := Num(dateParse(d2)), HeadingKey := Num(parseFloat(n2))]
  {
    TwoCellRow(d0, n0, dateParse, parseFloat);
    TwoCellRow(d1, n1, dateParse, parseFloat);
    TwoCellRow(d2, n2, dateParse, parseFloat);
  }

  /** The smaller and the larger of two headings. */
  function Min(a: real, b: real): real { if a <= b then a else b }
  function Max(a: real, b: real): real { if a >= b then a else b }

  /** What the two parsers give on the cells of the file: three distinct timestamps and
      three finite headings. */
  predicate ParsesTo(d0: string, n0: string, d1: string, n1: string, d2: string, n2: string,
                     dateParse: string -> Number, parseFloat: string -> Number,
                     ms0: int, ms1: int, ms2: int, h0: real, h1: real, h2: real)
  {
    && dateParse(d0) == Finite(ms0 as real) && dateParse(d1) == Finite(ms1 as real)
    && dateParse(d2) == Finite(ms2 as real)
    && parseFloat(n0) == Finite(h0) && parseFloat(n1) == Finite(h1) && parseFloat(n2) == Finite(h2)
  }

  /** The heading domain over all three rows. */
  lemma DomainOfThree(rows: seq<Row>, h0: real, h1: real, h2: real)
    requires |rows| == 3
    requires FieldNumber(rows[0], HeadingKey) == Finite(h0)
    requires FieldNumber(rows[1], HeadingKey) == Finite(h1)
    requires FieldNumber(rows[2], HeadingKey) == Finite(h2)
    ensures AxisYDomain(rows, 0, 2, HeadingKey, 1.0)
         == (Finite(Min(Min(h0, h1), h2) - 1.0), Finite(Max(Max(h0, h1), h2) + 1.0))
  {
    ColumnOfThree(rows, h0, h1, h2);
    LowHighOfThree(h0, h1, h2);
    var lo, hi := Min(Min(h0, h1), h2), Max(Max(h0, h1), h2);
    assert AxisYDomain(rows, 0, 2, HeadingKey, 1.0).0 == Sub(Finite(lo), 1.0);
    assert AxisYDomain(rows, 0, 2, HeadingKey, 1.0).1 == Add(Finite(hi), 1.0);
  }

  /** The heading column of three rows. */
  lemma ColumnOfThree(rows: seq<Row>, h0: real, h1: real, h2: real)
    requires |rows| == 3
    requires FieldNumber(rows[0], HeadingKey) == Finite(h0)
    requires FieldNumber(rows[1], HeadingKey) == Finite(h1)
    requires FieldNumber(rows[2], HeadingKey) == Finite(h2)
    ensures Column(Slice(rows, 0, 3), HeadingKey) == [Finite(h0), Finite(h1), Finite(h2)]
  {
    var col := Column(Slice(rows, 0, 3), HeadingKey);
    assert |col| == 3 && col[0] == Finite(h0) && col[1] == Finite(h1) && col[2] == Finite(h2);
  }

  /** The least and greatest of three finite numbers. */
  lemma LowHighOfThree(h0: real, h1: real, h2: real)
    ensures IsLowest([Finite(h0), Finite(h1), Finite(h2)], Finite(Min(Min(h0, h1), h2)))
    ensures IsHighest([Finite(h0), Finite(h1), Finite(h2)], Finite(Max(Max(h0, h1), h2)))
  {
    var col := [Finite(h0), Finite(h1), Finite(h2)];
    var lo, hi := Min(Min(h0, h1), h2), Max(Max(h0, h1), h2);
    assert lo == h0 || lo == h1 || lo == h2;
    assert hi == h0 || hi == h1 || hi == h2;
    assert Finite(lo) in col && Finite(hi) in col;
  }

  /** On any freshly uploaded dataset, a left-to-right drag between two timestamps
      that both occur commits the view: the x-axis spans the two timestamps and the
      y-axis is the heading domain between their first rows. */
  lemma {:induction false} DragOnDataset(rows: seq<Row>, ms0: int, ms2: int, from: nat, to: nat)
    requires ms0 < ms2 && ms0 != 0 && ms2 != 0
    requires FindIndex(rows, ms0) == Some(from) && FindIndex(rows, ms2) == Some(to)
    ensures var h := Page.Run(Page.Initial, [ Page.DataParsed(Dataset("flight.csv", rows)),
                                              Page.Chart(MouseDown(Some(ms0))),
                                              Page.Chart(MouseMove(Some(ms2))),
                                              Page.Chart(MouseUp) ]);
            h.zoomGraph == Committed(Page.InitialZoom, ms0, ms2, AxisYDomain(rows, from, to, HeadingKey, 1.0))
  {
    var evs := [ Page.DataParsed(Dataset("flight.csv", rows)),
                 Page.Chart(MouseDown(Some(ms0))),
                 Page.Chart(MouseMove(Some(ms2))),
                 Page.Chart(MouseUp) ];
    var h1 := Page.Step(Page.Initial, evs[0]);
    var h2 := Page.Step(h1, evs[1]);
    var h3 := Page.Step(h2, evs[2]);
    var h4 := Page.Step(h3, evs[3]);
    assert h3.jsonData == [Dataset("flight.csv", rows)];
    assert Ordered(h3.zoomGraph) == (ms0, ms2);
    assert Page.Present(rows, ms0) && Page.Present(rows, ms2);
    assert Page.Run(Page.Initial, evs) == Page.Run(h1, evs[1..]);
    assert Page.Run(h1, evs[1..]) == Page.Run(h2, evs[2..]);
    assert Page.Run(h2, evs[2..]) == Page.Run(h3, evs[3..]);
    assert Page.Run(h3, evs[3..]) == Page.Run(h4, evs[4..]);
  }

  /** Three rows with the given timestamps and headings: the first and the last timestamp
      are found at their own rows, the middle one at its own row unless it repeats the
      first, and the heading domain over all three. */
  lemma LookupsOfThree(rows: seq<Row>, ms0: int, ms1: int, ms2: int, h0: real, h1: real, h2: real)
    requires |rows| == 3
    requires rows[0] == map[TimestampHeader := Num(Finite(ms0 as real)), HeadingKey := Num(Finite(h0))]
    requires rows[1] == map[TimestampHeader := Num(Finite(ms1 as real)), HeadingKey := Num(Finite(h1))]
    requires rows[2] == map[TimestampHeader := Num(Finite(ms2 as real)), HeadingKey := Num(Finite(h2))]
    requires ms0 != ms2 && ms1 != ms2
    ensures FindIndex(rows, ms0) == Some(0) && FindIndex(rows, ms2) == Some(2)
    ensures FindIndex(rows, ms1) == if ms0 == ms1 then Some(0) else Some(1)
    ensures AxisYDomain(rows, 0, 2, HeadingKey, 1.0)
            == (Finite(Min(Min(h0, h1), h2) - 1.0), Finite(Max(Max(h0, h1), h2) + 1.0))
  {
    assert HasTimestamp(rows[0], ms0);
    assert !HasTimestamp(rows[0], ms2) && !HasTimestamp(rows[1], ms2) && HasTimestamp(rows[2], ms2);
    assert HasTimestamp(rows[1], ms1);
    if ms0 != ms1 {
      assert !HasTimestamp(rows[0], ms1);
    }
    DomainOfThree(rows, h0, h1, h2);
  }

  /** Upload the file, drag from the first timestamp to the last (later) one, release:
      the x-axis spans the two timestamps and the y-axis the least and greatest heading
      widened by 1. */
  lemma DragAcrossUpload(d0: string, n0: string, d1: string, n1: string, d2: string, n2: string,
                         dateParse: string -> Number, parseFloat: string -> Number,
                         ms0: int, ms1: int, ms2: int, h0: real, h1: real, h2: real)
    requires PlainCell(d0) && PlainCell(n0) && PlainCell(d1) && PlainCell(n1)
    requires PlainCell(d2) && PlainCell(n2)
    requires ParsesTo(d0, n0, d1, n1, d2, n2, dateParse, parseFloat, ms0, ms1, ms2, h0, h1, h2)
    requires ms0 < ms2 && ms1 != ms2 && ms0 != 0 && ms2 != 0
    ensures var rows := CsvToJson(TelemetryCsv(d0, n0, d1, n1, d2, n2), dateParse, parseFloat);
            var h := Page.Run(Page.Initial, [ Page.DataParsed(Dataset("flight.csv", rows)),
                                              Page.Chart(MouseDown(Some(ms0))),
                                              Page.Chart(MouseMove(Some(ms2))),
                                              Page.Chart(MouseUp) ]);
            && h.zoomGraph.left == AtTime(ms0) && h.zoomGraph.right == AtTime(ms2)
            && h.zoomGraph.bottom == Bound(Finite(Min(Min(h0, h1), h2) - 1.0))
            && h.zoomGraph.top == Bound(Finite(Max(Max(h0, h1), h2) + 1.0))
            && h.zoomGraph.refAreaLeft.None? && h.zoomGraph.refAreaRight.None?
  {
    var rows := CsvToJson(TelemetryCsv(d0, n0, d1, n1, d2, n2), dateParse, parseFloat);
    TelemetryRows(d0, n0, d1, n1, d2, n2, dateParse, parseFloat);
    LookupsOfThree(rows, ms0, ms1, ms2, h0, h1, h2);
    DragOnDataset(rows, ms0, ms2, 0, 2);
  }

  /** The cells of the example flight log are plain. */
  lemma ExampleCellsPlain()
    ensures PlainCell("2024-01-01T00:00:00Z") && PlainCell("2024-01-01T00:01:00Z")
    ensures PlainCell("2024-01-01T00:02:00Z")
    ensures PlainCell("10") && PlainCell("20") && PlainCell("15")
  {
    TimestampPlain("2024-01-01T00:00:00Z");
    TimestampPlain("2024-01-01T00:01:00Z");
    TimestampPlain("2024-01-01T00:02:00Z");
  }

  /** An ISO timestamp of the example's shape is a plain cell. */
  lemma TimestampPlain(d: string)
    requires |d| == 20 && d[0] == '2' && d[19] == 'Z'
    requires forall k :: 0 <= k < |d| ==> d[k] != ',' && d[k] != '\n'
    ensures PlainCell(d)
  {
  }

  /** The example flight log: headings 10, 20 and 15 one minute apart. Dragging from the
      first to the third timestamp zooms the x-axis to those two instants and the y-axis
      to (9, 21). */
  lemma ExampleDrag(dateParse: string -> Number, parseFloat: string -> Number)
    requires dateParse("2024-01-01T00:00:00Z") == Finite(1704067200000.0)
    requires dateParse("2024-01-01T00:01:00Z") == Finite(1704067260000.0)
    requires dateParse("2024-01-01T00:02:00Z") == Finite(1704067320000.0)
    requires parseFloat("10") == Finite(10.0) && parseFloat("20") == Finite(20.0)
    requires parseFloat("15") == Finite(15.0)
    ensures var rows := CsvToJson(TelemetryCsv("2024-01-01T00:00:00Z", "10", "2024-01-01T00:01:00Z", "20",
                                               "2024-01-01T00:02:00Z", "15"), dateParse, parseFloat);
            var h := Page.Run(Page.Initial, [ Page.DataParsed(Dataset("flight.csv", rows)),
                                              Page.Chart(MouseDown(Some(1704067200000))),
                                              Page.Chart(MouseMove(Some(1704067320000))),
                                              Page.Chart(MouseUp) ]);
            && h.zoomGraph.left == AtTime(1704067200000) && h.zoomGraph.right == AtTime(1704067320000)
            && h.zoomGraph.bottom == Bound(Finite(9.0)) && h.zoomGraph.top == Bound(Finite(21.0))
  {
    ExampleCellsPlain();
    assert ParsesTo("2024-01-01T00:00:00Z", "10", "2024-01-01T00:01:00Z", "20", "2024-01-01T00:02:00Z", "15",
                    dateParse, parseFloat, 1704067200000, 1704067260000, 1704067320000, 10.0, 20.0, 15.0);
    assert Min(Min(10.0, 20.0), 15.0) - 1.0 == 9.0 && Max(Max(10.0, 20.0), 15.0) + 1.0 == 21.0;
    DragAcrossUpload("2024-01-01T00:00:00Z", "10", "2024-01-01T00:01:00Z", "20", "2024-01-01T00:02:00Z", "15",
                     dateParse, parseFloat, 1704067200000, 1704067260000, 1704067320000, 10.0, 20.0, 15.0);
  }
}
