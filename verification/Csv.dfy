/**
 * Report exports (apps/web/lib/export.ts): the CSV printer, and an independent reader
 * for the grammar in section 2 of RFC 4180 (with LF as the line break) that undoes it.
 */
module Csv {
  import opened Wrappers
  import opened FirstSeenOrder

  /** A cell; a number comes with the text that `String` gives for it. */
  datatype Cell = Str(s: string) | Num(s: string) | Bool(b: bool) | Null | Undefined

  /** The own properties of a row object, in the order of `Object.keys`. */
  type Row = seq<(string, Cell)>

  // ---- The printer ----

  function CellText(cell: Cell): string {
    match cell
    case Str(s) => s
    case Num(s) => s
    case Bool(b) => if b then "true" else "false"
    case Null => ""
    case Undefined => ""
  }

  predicate NeedsQuotes(s: string) {
    '"' in s || ',' in s || '\n' in s || '\r' in s
  }

  /** `s.replace(/"/g, '""')` */
  function Doubled(s: string): string {
    if s == "" then "" else (if s[0] == '"' then "\"\"" else [s[0]]) + Doubled(s[1..])
  }

  function CsvField(cell: Cell): string {
    var s := CellText(cell);
    if NeedsQuotes(s) then "\"" + Doubled(s) + "\"" else s
  }

  function Join(parts: seq<string>, separator: char): string {
    if parts == [] then ""
    else if |parts| == 1 then parts[0]
    else parts[0] + [separator] + Join(parts[1..], separator)
  }

  function Lookup(row: Row, column: string): Cell {
    if row == [] then Undefined
    else if row[0].0 == column then row[0].1
    else Lookup(row[1..], column)
  }

  function Fields(cells: seq<Cell>): seq<string> {
    if cells == [] then [] else [CsvField(cells[0])] + Fields(cells[1..])
  }

  function Line(cells: seq<Cell>): string {
    Join(Fields(cells), ',')
  }

  function HeaderCells(cols: seq<string>): seq<Cell> {
    if cols == [] then [] else [Str(cols[0])] + HeaderCells(cols[1..])
  }

  function RowCells(row: Row, cols: seq<string>): seq<Cell> {
    if cols == [] then [] else [Lookup(row, cols[0])] + RowCells(row, cols[1..])
  }

  function BodyCells(rows: seq<Row>, cols: seq<string>): seq<seq<Cell>> {
    if rows == [] then [] else [RowCells(rows[0], cols)] + BodyCells(rows[1..], cols)
  }

  function Lines(records: seq<seq<Cell>>): seq<string> {
    if records == [] then [] else [Line(records[0])] + Lines(records[1..])
  }

  function Print(rows: seq<Row>, cols: seq<string>): string {
    var header := Line(HeaderCells(cols));
    var body := Join(Lines(BodyCells(rows, cols)), '\n');
    if body != "" then header + "\n" + body else header
  }

  // ---- The reader ----

  type Read<T> = Option<(T, string)>

  /** 2DQUOTE or any other character, up to the closing DQUOTE. */
  function ReadQuoted(t: string): (r: Read<string>)
    ensures r.Some? ==> |r.value.1| < |t|
  {
    if t == "" then None
    else if t[0] == '"' && (|t| == 1 || t[1] != '"') then Some(("", t[1..]))
    else
      var more := ReadQuoted(if t[0] == '"' then t[2..] else t[1..]);
      if more.None? then None else Some(([t[0]] + more.value.0, more.value.1))
  }

  /** TEXTDATA excludes commas, quotes and line breaks. */
  function ReadPlain(t: string): (r: Read<string>)
    ensures r.Some? ==> |r.value.1| <= |t|
  {
    if t == "" || t[0] == ',' || t[0] == '\n' then Some(("", t))
    else if t[0] == '"' || t[0] == '\r' then None
    else
      var more := ReadPlain(t[1..]);
      if more.None? then None else Some(([t[0]] + more.value.0, more.value.1))
  }

  function ReadField(t: string): (r: Read<string>)
    ensures r.Some? ==> |r.value.1| <= |t|
  {
    if t != "" && t[0] == '"' then ReadQuoted(t[1..]) else ReadPlain(t)
  }

  /** record = field *(COMMA field) */
  function ReadRecord(t: string): (r: Read<seq<string>>)
    ensures r.Some? ==> |r.value.1| <= |t| && |r.value.0| >= 1
    decreases |t|
  {
    var field := ReadField(t);
    if field.None? then None
    else
      var (text, rest) := field.value;
      if rest != "" && rest[0] == ',' then
        var more := ReadRecord(rest[1..]);
        if more.None? then None else Some(([text] + more.value.0, more.value.1))
      else Some(([text], rest))
  }

  /** file = record *(LF record) [LF] */
  function ReadFile(t: string): (r: Option<seq<seq<string>>>)
    ensures r.Some? ==> |r.value| >= 1 && forall i :: 0 <= i < |r.value| ==> |r.value[i]| >= 1
    decreases |t|
  {
    var record := ReadRecord(t);
    if record.None? then None
    else
      var (fields, rest) := record.value;
      if rest == "" || rest == "\n" then Some([fields])
      else if rest[0] != '\n' then None
      else
        var more := ReadFile(rest[1..]);
        if more.None? then None else Some([fields] + more.value)
  }

  // ---- The reader undoes the printer ----

  predicate EndsField(rest: string) {
    rest == "" || rest[0] == ',' || rest[0] == '\n'
  }

  lemma {:induction false} ReadDoubled(s: string, rest: string)
    requires EndsField(rest)
    ensures ReadQuoted(Doubled(s) + "\"" + rest) == Some((s, rest))
  {
    var t := Doubled(s) + "\"" + rest;
    if s == "" {
      assert t == "\"" + rest && t[1..] == rest;
    } else {
      ReadDoubled(s[1..], rest);
      var tail := Doubled(s[1..]) + "\"" + rest;
      assert s == [s[0]] + s[1..];
      if s[0] == '"' {
        assert t == "\"\"" + tail && t[2..] == tail;
      } else {
        assert t == [s[0]] + tail && t[1..] == tail;
      }
    }
  }

  lemma {:induction false} ReadUnquoted(s: string, rest: string)
    requires !NeedsQuotes(s) && EndsField(rest)
    ensures ReadPlain(s + rest) == Some((s, rest))
  {
    if s == "" {
      assert s + rest == rest;
    } else {
      ReadUnquoted(s[1..], rest);
      assert (s + rest)[1..] == s[1..] + rest;
      assert s == [s[0]] + s[1..];
    }
  }

  lemma FieldRoundTrip(cell: Cell, rest: string)
    requires EndsField(rest)
    ensures ReadField(CsvField(cell) + rest) == Some((CellText(cell), rest))
  {
    var s := CellText(cell);
    if NeedsQuotes(s) {
      ReadDoubled(s, rest);
      assert CsvField(cell) + rest == "\"" + (Doubled(s) + "\"" + rest);
    } else {
      ReadUnquoted(s, rest);
    }
  }

  function Texts(cells: seq<Cell>): seq<string> {
    if cells == [] then [] else [CellText(cells[0])] + Texts(cells[1..])
  }

  function AllTexts(records: seq<seq<Cell>>): seq<seq<string>> {
    if records == [] then [] else [Texts(records[0])] + AllTexts(records[1..])
  }

  /** Joined parts: the first, and a separator and the rest if there are more. */
  lemma LineParts(cells: seq<Cell>)
    requires |cells| >= 1
    ensures Line(cells) == if |cells| == 1 then CsvField(cells[0]) else CsvField(cells[0]) + [','] + Line(cells[1..])
  {
    assert Fields(cells)[1..] == Fields(cells[1..]);
    assert |cells| > 1 ==> Fields(cells[1..]) != [];
  }

  lemma LinesParts(records: seq<seq<Cell>>)
    requires |records| >= 1
    ensures Join(Lines(records), '\n') == if |records| == 1 then Line(records[0])
                                         else Line(records[0]) + ['\n'] + Join(Lines(records[1..]), '\n')
  {
    assert Lines(records)[1..] == Lines(records[1..]);
    assert |records| > 1 ==> Lines(records[1..]) != [];
  }

  /** A field followed by a comma, a line break or the end is the first field of the record. */
  lemma ReadRecordStep(cell: Cell, rest: string)
    requires EndsField(rest)
    ensures ReadRecord(CsvField(cell) + rest) ==
      if rest != "" && rest[0] == ',' then
        var more := ReadRecord(rest[1..]);
        if more.None? then None else Some(([CellText(cell)] + more.value.0, more.value.1))
      else Some(([CellText(cell)], rest))
  {
    FieldRoundTrip(cell, rest);
  }

  lemma LoneField(cells: seq<Cell>, rest: string)
    requires |cells| == 1 && (rest == "" || rest[0] == '\n')
    ensures ReadRecord(CsvField(cells[0]) + rest) == Some((Texts(cells), rest))
  {
    ReadRecordStep(cells[0], rest);
    assert Texts(cells) == [CellText(cells[0])];
  }

  lemma MoreFields(cells: seq<Cell>, rest: string)
    requires |cells| > 1 && ReadRecord(Line(cells[1..]) + rest) == Some((Texts(cells[1..]), rest))
    ensures ReadRecord(CsvField(cells[0]) + [','] + Line(cells[1..]) + rest) == Some((Texts(cells), rest))
  {
    var more := Line(cells[1..]) + rest;
    AfterComma(CsvField(cells[0]), Line(cells[1..]), rest);
    ReadRecordStep(cells[0], [','] + more);
  }

  lemma AfterComma(field: string, line: string, rest: string)
    ensures field + [','] + line + rest == field + ([','] + (line + rest))
    ensures ([','] + (line + rest))[1..] == line + rest
  {
  }

  lemma {:induction false} RecordRoundTrip(cells: seq<Cell>, rest: string)
    requires |cells| >= 1 && (rest == "" || rest[0] == '\n')
    ensures ReadRecord(Line(cells) + rest) == Some((Texts(cells), rest))
  {
    LineParts(cells);
    if |cells| == 1 {
      LoneField(cells, rest);
    } else {
      RecordRoundTrip(cells[1..], rest);
      MoreFields(cells, rest);
    }
  }

  /** A record followed by a line break or the end is the first record of the file. */
  lemma ReadFileStep(cells: seq<Cell>, rest: string)
    requires |cells| >= 1 && (rest == "" || rest[0] == '\n')
    ensures ReadFile(Line(cells) + rest) ==
      if rest == "" || rest == "\n" then Some([Texts(cells)])
      else
        var more := ReadFile(rest[1..]);
        if more.None? then None else Some([Texts(cells)] + more.value)
  {
    RecordRoundTrip(cells, rest);
  }

  /** Only the lone empty field prints as an empty line. */
  lemma EmptyLine(cells: seq<Cell>)
    requires |cells| >= 1
    ensures Line(cells) == "" <==> |cells| == 1 && CellText(cells[0]) == ""
  {
    LineParts(cells);
  }

  /** Of several records, the last is lost if it prints as an empty line. */
  predicate LosesLast(records: seq<seq<Cell>>) {
    |records| > 1 && Line(records[|records| - 1]) == ""
  }

  lemma LoneRecord(records: seq<seq<Cell>>)
    requires |records| == 1 && |records[0]| >= 1
    ensures ReadFile(Line(records[0])) == Some(AllTexts(records))
  {
    ReadFileStep(records[0], "");
    assert Line(records[0]) + "" == Line(records[0]);
    LoneTexts(records);
  }

  lemma LoneTexts(records: seq<seq<Cell>>)
    requires |records| == 1
    ensures AllTexts(records) == [Texts(records[0])]
  {
    assert AllTexts(records[1..]) == [];
  }

  /** Joined lines read back as they were, except for an empty last line. */
  lemma {:induction false} FileRoundTrip(records: seq<seq<Cell>>)
    requires |records| >= 1 && forall i :: 0 <= i < |records| ==> |records[i]| >= 1
    ensures ReadFile(Join(Lines(records), '\n'))
         == Some(if LosesLast(records) then AllTexts(records[..|records| - 1]) else AllTexts(records))
  {
    LinesParts(records);
    if |records| == 1 {
      LoneRecord(records);
    } else {
      var tail := Join(Lines(records[1..]), '\n');
      ReadFileStep(records[0], ['\n'] + tail);
      assert Line(records[0]) + ['\n'] + tail == Line(records[0]) + (['\n'] + tail);
      assert (['\n'] + tail)[1..] == tail;
      LinesParts(records[1..]);
      DropLast(records);
      if tail == "" {
        LoneTexts(records[..1]);
      } else {
        FileRoundTrip(records[1..]);
      }
    }
  }

  lemma DropLast(records: seq<seq<Cell>>)
    requires |records| >= 2
    ensures records[..|records| - 1][1..] == records[1..][..|records| - 2]
    ensures AllTexts(records[..|records| - 1]) == [Texts(records[0])] + AllTexts(records[1..][..|records| - 2])
    ensures LosesLast(records[1..]) <==> LosesLast(records) && |records| > 2
  {
    assert records[..|records| - 1][1..] == records[1..][..|records| - 2];
  }

  /** What a reader should get back: the column names, then the text of every cell. */
  function Expected(rows: seq<Row>, cols: seq<string>): seq<seq<string>> {
    [cols] + AllTexts(BodyCells(rows, cols))
  }

  lemma {:induction false} HeaderTexts(cols: seq<string>)
    ensures |HeaderCells(cols)| == |cols| && Texts(HeaderCells(cols)) == cols
  {
    if cols != [] {
      HeaderTexts(cols[1..]);
      assert HeaderCells(cols)[1..] == HeaderCells(cols[1..]);
    }
  }

  lemma {:induction false} BodyShape(rows: seq<Row>, cols: seq<string>)
    ensures |BodyCells(rows, cols)| == |rows| == |AllTexts(BodyCells(rows, cols))|
    ensures forall i :: 0 <= i < |rows| ==> BodyCells(rows, cols)[i] == RowCells(rows[i], cols)
    ensures forall i :: 0 <= i < |rows| ==> AllTexts(BodyCells(rows, cols))[i] == Texts(RowCells(rows[i], cols))
  {
    if rows != [] {
      BodyShape(rows[1..], cols);
      assert BodyCells(rows, cols)[1..] == BodyCells(rows[1..], cols);
    }
  }

  lemma {:induction false} RowShape(row: Row, cols: seq<string>)
    ensures |RowCells(row, cols)| == |cols|
    ensures forall i :: 0 <= i < |cols| ==> RowCells(row, cols)[i] == Lookup(row, cols[i])
  {
    if cols != [] {
      RowShape(row, cols[1..]);
    }
  }

  /** With a single column, the last row must not be an empty cell. */
  predicate Readable(rows: seq<Row>, cols: seq<string>) {
    || |cols| >= 2
    || (|cols| == 1 && (rows == [] || CellText(Lookup(rows[|rows| - 1], cols[0])) != ""))
  }

  lemma {:induction false} LengthsOfTexts(records: seq<seq<Cell>>)
    ensures |AllTexts(records)| == |records|
  {
    if records != [] {
      LengthsOfTexts(records[1..]);
    }
  }

  /** When there is a body, the file is the header and the body, line by line. */
  lemma PrintWithBody(rows: seq<Row>, cols: seq<string>)
    requires rows != []
    ensures var body, records := BodyCells(rows, cols), [HeaderCells(cols)] + BodyCells(rows, cols);
      Print(rows, cols) == if |rows| == 1 && Line(body[0]) == "" then Line(HeaderCells(cols)) else Join(Lines(records), '\n')
  {
    var records := [HeaderCells(cols)] + BodyCells(rows, cols);
    LinesParts(BodyCells(rows, cols));
    LinesParts(records);
    assert records[1..] == BodyCells(rows, cols);
    BodyShape(rows, cols);
  }

  lemma RoundTripWithRows(rows: seq<Row>, cols: seq<string>)
    requires rows != [] && cols != []
    ensures ReadFile(Print(rows, cols)) == Some(Expected(rows, cols)) <==> Readable(rows, cols)
  {
    var header, records := HeaderCells(cols), [HeaderCells(cols)] + BodyCells(rows, cols);
    HeaderTexts(cols);
    BodyShape(rows, cols);
    PrintWithBody(rows, cols);
    RowShape(rows[|rows| - 1], cols);
    EmptyLine(RowCells(rows[|rows| - 1], cols));
    assert LosesLast(records) <==> !Readable(rows, cols);
    assert AllTexts(records) == Expected(rows, cols) by {
      assert records[1..] == BodyCells(rows, cols);
    }
    forall i | 0 <= i < |records| ensures |records[i]| >= 1 {
      if i > 0 { RowShape(rows[i - 1], cols); }
    }
    LengthsOfTexts(records[..|records| - 1]);
    FileRoundTrip(records);
    ReadFileStep(header, "");
    assert Line(header) + "" == Line(header);
  }

  /**
   * An RFC 4180 reader gets back the header and every cell exactly, whatever commas,
   * quotes and line breaks the cells contain, if and only if there are two columns or
   * more, or one column whose last cell is not empty.
   */
  lemma CsvRoundTrip(rows: seq<Row>, cols: seq<string>)
    ensures ReadFile(Print(rows, cols)) == Some(Expected(rows, cols)) <==> Readable(rows, cols)
  {
    if cols == [] {
      assert Expected(rows, cols)[0] == [];
    } else if rows == [] {
      HeaderTexts(cols);
      ReadFileStep(HeaderCells(cols), "");
      assert Line(HeaderCells(cols)) + "" == Line(HeaderCells(cols));
      assert [cols] + [] == [cols];
    } else {
      RoundTripWithRows(rows, cols);
    }
  }

  // ---- Derived columns ----

  function Keys(row: Row): seq<string> {
    seq(|row|, i requires 0 <= i < |row| => row[i].0)
  }

  /** The keys of all rows, row by row. */
  function AllKeys(rows: seq<Row>): seq<string> {
    if rows == [] then [] else AllKeys(rows[..|rows| - 1]) + Keys(rows[|rows| - 1])
  }

  /** Every key of every row, each once. */
  method DeriveColumns(rows: seq<Row>) returns (seen: seq<string>)
    ensures seen == FirstSeen(AllKeys(rows))
  {
    seen := [];
    for i := 0 to |rows|
      invariant seen == FirstSeen(AllKeys(rows[..i]))
    {
      var keys := Keys(rows[i]);
      assert rows[..i + 1][..i] == rows[..i];
      ghost var before := AllKeys(rows[..i]);
      assert before + keys[..0] == before;
      for j := 0 to |keys|
        invariant seen == FirstSeen(before + keys[..j])
      {
        assert (before + keys[..j + 1])[..|before| + j] == before + keys[..j];
        if keys[j] !in seen {
          seen := seen + [keys[j]];
        }
      }
      assert keys[..|keys|] == keys;
    }
    assert rows[..|rows|] == rows;
  }

  // ---- What the cells are ----

  /** The row has this value for the column. Property names are unique. */
  predicate HasCell(row: Row, column: string, value: Cell) {
    exists x :: 0 <= x < |row| && row[x] == (column, value) && forall y :: 0 <= y < x ==> row[y].0 != column
  }

  /** The text of a value; null, undefined and missing values have none. */
  predicate IsText(value: Cell, text: string) {
    match value
    case Str(s) => text == s
    case Num(s) => text == s
    case Bool(b) => text == if b then "true" else "false"
    case Null => text == ""
    case Undefined => text == ""
  }

  lemma {:induction false} LookupIsCell(row: Row, column: string)
    ensures if exists x :: 0 <= x < |row| && row[x].0 == column then HasCell(row, column, Lookup(row, column))
            else Lookup(row, column) == Undefined
  {
    if row != [] && row[0].0 != column {
      LookupIsCell(row[1..], column);
      assert forall x :: 0 <= x < |row| - 1 ==> row[1..][x] == row[x + 1];
      if exists x :: 0 <= x < |row| && row[x].0 == column {
        var x :| 0 <= x < |row| && row[x].0 == column;
        assert row[1..][x - 1].0 == column;
        var y :| 0 <= y < |row[1..]| && row[1..][y] == (column, Lookup(row[1..], column))
          && forall z :: 0 <= z < y ==> row[1..][z].0 != column;
        assert row[y + 1] == (column, Lookup(row, column));
        forall z | 0 <= z < y + 1 ensures row[z].0 != column {
          if z > 0 { assert row[1..][z - 1].0 != column; }
        }
      }
    }
  }

  lemma {:induction false} TextsAt(cells: seq<Cell>)
    ensures |Texts(cells)| == |cells| && forall j :: 0 <= j < |cells| ==> Texts(cells)[j] == CellText(cells[j])
  {
    if cells != [] {
      TextsAt(cells[1..]);
    }
  }

  lemma ExpectedCell(rows: seq<Row>, cols: seq<string>, i: nat, j: nat)
    requires i < |rows| && j < |cols|
    ensures |Expected(rows, cols)| == |rows| + 1 && |Expected(rows, cols)[i + 1]| == |cols|
    ensures IsText(Lookup(rows[i], cols[j]), Expected(rows, cols)[i + 1][j])
  {
    BodyShape(rows, cols);
    RowTexts(rows[i], cols, j);
    assert Expected(rows, cols)[i + 1] == Texts(RowCells(rows[i], cols));
  }

  lemma RowTexts(row: Row, cols: seq<string>, j: nat)
    requires j < |cols|
    ensures |Texts(RowCells(row, cols))| == |cols| && IsText(Lookup(row, cols[j]), Texts(RowCells(row, cols))[j])
  {
    RowShape(row, cols);
    TextsAt(RowCells(row, cols));
    assert RowCells(row, cols)[j] == Lookup(row, cols[j]);
  }

  /** A field is printed as it is unless it holds a comma, a quote or a line break, and then within quotes. */
  lemma QuotedIff(cell: Cell, text: string)
    requires IsText(cell, text)
    ensures CsvField(cell) == text <==> ',' !in text && '"' !in text && '\n' !in text && '\r' !in text
    ensures CsvField(cell) != text ==> |CsvField(cell)| >= |text| + 2 && CsvField(cell)[0] == '"'
  {
    DoubledGrows(text);
  }

  lemma {:induction false} DoubledGrows(s: string)
    ensures |Doubled(s)| >= |s|
  {
    if s != "" {
      DoubledGrows(s[1..]);
    }
  }

  /** The cell read back is the text of the value that the row has for the column, or empty if it has none. */
  lemma CellIsValue(rows: seq<Row>, cols: seq<string>, i: nat, j: nat)
    requires i < |rows| && j < |cols|
    ensures |Expected(rows, cols)| == |rows| + 1 && Expected(rows, cols)[0] == cols
    ensures |Expected(rows, cols)[i + 1]| == |cols|
    ensures var cell := Expected(rows, cols)[i + 1][j];
      if exists x :: 0 <= x < |rows[i]| && rows[i][x].0 == cols[j]
      then exists value :: HasCell(rows[i], cols[j], value) && IsText(value, cell)
      else cell == ""
  {
    LookupIsCell(rows[i], cols[j]);
    ExpectedCell(rows, cols, i, j);
    if exists x :: 0 <= x < |rows[i]| && rows[i][x].0 == cols[j] {
      assert IsText(Lookup(rows[i], cols[j]), Expected(rows, cols)[i + 1][j]);
    }
  }

  /** Columns default to the union of the keys of the rows. */
  method ToCsv(rows: seq<Row>, columns: Option<seq<string>>) returns (csv: string)
    ensures var cols := if columns.Some? then columns.value else FirstSeen(AllKeys(rows));
      && csv == Print(rows, cols)
      && (ReadFile(csv) == Some(Expected(rows, cols)) <==> Readable(rows, cols))
  {
    var cols;
    if columns.Some? {
      cols := columns.value;
    } else {
      cols := DeriveColumns(rows);
    }
    csv := Print(rows, cols);
    CsvRoundTrip(rows, cols);
  }
}
