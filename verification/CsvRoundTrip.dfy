// What the writer writes, the reader reads.
module CsvRoundTrip {
  import opened Options
  import opened Decimal
  import opened CsvWriter
  import opened CsvReader

  function EncapsulateAll(cells: seq<string>): seq<string> {
    seq(|cells|, i requires 0 <= i < |cells| => Encapsulate(cells[i]))
  }

  // A record and a file with every cell encapsulated where needed.
  function RecordText(cells: seq<string>): string {
    Join(EncapsulateAll(cells), DELIMITER) + RECORD_DELIMITER
  }

  function FileText(records: seq<seq<string>>): string {
    if records == [] then "" else RecordText(records[0]) + FileText(records[1..])
  }

  // The texts of the cells of a row, in column order.
  function RowTexts(columns: seq<Column>, row: Row): seq<string> {
    seq(|columns|, i requires 0 <= i < |columns| =>
      var t := CellText(columns[i], Lookup(row, columns[i].name)); if t.Ok? then t.value else "")
  }

  function RowsTexts(columns: seq<Column>, rows: seq<Row>): seq<seq<string>> {
    seq(|rows|, i requires 0 <= i < |rows| => RowTexts(columns, rows[i]))
  }

  // ----- reading back what was written -----

  lemma EndReads(last: bool, tail: string)
    ensures EndOfCell((if last then "\r\n" else ";") + tail) == Some(Cell("", last, tail))
  {
  }

  lemma {:induction false} PlainReads(text: string, last: bool, tail: string)
    requires !NeedsEncapsulation(text)
    ensures ReadPlain(text + (if last then "\r\n" else ";") + tail) == Some(Cell(text, last, tail))
  {
    var end := if last then "\r\n" else ";";
    if text == "" {
      EndReads(last, tail);
      assert text + end + tail == end + tail;
    } else {
      assert !Special(text[0]);
      assert forall i :: 0 <= i < |text| - 1 ==> text[1..][i] == text[i + 1];
      PlainReads(text[1..], last, tail);
      var s := text + end + tail;
      assert s[0] == text[0] && s[1..] == text[1..] + end + tail;
      assert [text[0]] + text[1..] == text;
    }
  }

  lemma {:induction false} QuotedReads(text: string, last: bool, tail: string)
    ensures ReadQuoted(DoubleQuotes(text) + "\"" + (if last then "\r\n" else ";") + tail) == Some(Cell(text, last, tail))
  {
    hide ReadQuoted, EndOfCell;
    var end := if last then "\r\n" else ";";
    var s := DoubleQuotes(text) + "\"" + end + tail;
    if text == "" {
      EndReads(last, tail);
      ClosingQuoteReads(last, tail);
      assert s == "\"" + (end + tail);
    } else {
      QuotedReads(text[1..], last, tail);
      var rest := DoubleQuotes(text[1..]) + "\"" + end + tail;
      QuotedCharReads(text[0], rest);
      assert s == (if text[0] == '"' then "\"\"" else [text[0]]) + rest;
      assert [text[0]] + text[1..] == text;
    }
  }

  lemma ClosingQuoteReads(last: bool, tail: string)
    ensures var end := if last then "\r\n" else ";"; ReadQuoted("\"" + (end + tail)) == EndOfCell(end + tail)
  {
  }

  lemma QuotedCharReads(c: char, rest: string)
    ensures ReadQuoted((if c == '"' then "\"\"" else [c]) + rest) == Prepend(c, ReadQuoted(rest))
  {
  }

  lemma CellReads(text: string, last: bool, tail: string)
    ensures ReadCell(Encapsulate(text) + (if last then "\r\n" else ";") + tail) == Some(Cell(text, last, tail))
  {
    hide ReadQuoted, ReadPlain, DoubleQuotes;
    var end := if last then "\r\n" else ";";
    if NeedsEncapsulation(text) {
      QuotedReads(text, last, tail);
      assert (Encapsulate(text) + end + tail)[1..] == DoubleQuotes(text) + "\"" + end + tail;
    } else {
      PlainReads(text, last, tail);
      assert text != "" ==> !Special(text[0]);
    }
  }

  lemma RecordTextSteps(cells: seq<string>)
    requires cells != []
    ensures RecordText(cells) == Encapsulate(cells[0]) + if |cells| == 1 then "\r\n" else ";" + RecordText(cells[1..])
  {
    hide Encapsulate;
    if |cells| > 1 {
      assert EncapsulateAll(cells)[1..] == EncapsulateAll(cells[1..]);
    }
  }

  lemma {:induction false} RecordReads(cells: seq<string>, tail: string)
    requires cells != []
    ensures ReadRecord(RecordText(cells) + tail) == Some(Record(cells, tail))
  {
    hide RecordText, ReadCell, Encapsulate;
    var s := RecordText(cells) + tail;
    RecordTextSteps(cells);
    if |cells| == 1 {
      CellReads(cells[0], true, tail);
      assert cells == [cells[0]];
    } else {
      var more := RecordText(cells[1..]) + tail;
      CellReads(cells[0], false, more);
      assert s == Encapsulate(cells[0]) + ";" + more;
      RecordReads(cells[1..], tail);
      assert cells == [cells[0]] + cells[1..];
    }
  }

  lemma {:induction false} FileReads(records: seq<seq<string>>)
    requires forall i :: 0 <= i < |records| ==> records[i] != []
    ensures ReadFile(FileText(records)) == Some(records)
  {
    if records != [] {
      RecordReads(records[0], FileText(records[1..]));
      FileReads(records[1..]);
      assert records == [records[0]] + records[1..];
      assert |FileText(records)| >= 2;
    }
  }

  // ----- the writer produces the encapsulated form of its cell texts -----

  lemma NumericNeedsNothing(v: int)
    ensures !NeedsEncapsulation(FormatNumeric(v)) && FormatNumeric(v) != ""
  {
    UnsignedChars(if v < 0 then -v else v);
    ReplaceKeepsPlain(NumberText(v));
  }

  lemma UnsignedChars(v: nat)
    ensures Unsigned(v) != "" && forall i :: 0 <= i < |Unsigned(v)| ==> IsDigit(Unsigned(v)[i]) || Unsigned(v)[i] == '.'
  {
    NaturalReadsBack(v / 100);
    NaturalReadsBack(v % 100 / 10);
    Pad2ReadsBack(v % 100);
  }

  lemma {:induction false} ReplaceKeepsPlain(s: string)
    requires forall i :: 0 <= i < |s| ==> !Special(s[i])
    ensures var r := ReplaceFirst(s, '.', ','); |r| == |s| && forall i :: 0 <= i < |r| ==> !Special(r[i])
  {
    if s != "" {
      ReplaceKeepsPlain(s[1..]);
    }
  }

  lemma CellIsEncapsulatedText(column: Column, value: Value)
    ensures FormatCell(column, value) == match CellText(column, value) { case Error(c) => Error(c) case Ok(s) => Ok(Encapsulate(s)) }
  {
    if value.Num? {
      NumericNeedsNothing(value.hundredths);
    }
  }

  lemma {:induction false} CellsAreEncapsulated(columns: seq<Column>, row: Row)
    requires FormatCells(columns, row).Ok?
    ensures FormatCells(columns, row).value == EncapsulateAll(RowTexts(columns, row))
  {
    if columns != [] {
      CellIsEncapsulatedText(columns[0], Lookup(row, columns[0].name));
      CellsAreEncapsulated(columns[1..], row);
      assert RowTexts(columns, row)[1..] == RowTexts(columns[1..], row);
    }
  }

  lemma {:induction false} LinesAreRecords(columns: seq<Column>, rows: seq<Row>, header: string)
    requires FormatLines(columns, rows).Ok?
    ensures Join([header] + FormatLines(columns, rows).value, RECORD_DELIMITER) + RECORD_DELIMITER ==
      header + RECORD_DELIMITER + FileText(RowsTexts(columns, rows))
  {
    if rows != [] {
      var lines := FormatLines(columns, rows).value;
      CellsAreEncapsulated(columns, rows[0]);
      LinesAreRecords(columns, rows[1..], lines[0]);
      assert ([header] + lines)[1..] == [lines[0]] + lines[1..];
      assert RowsTexts(columns, rows)[1..] == RowsTexts(columns, rows[1..]);
    }
  }

  // ----- no shorter text reads as the same records -----

  lemma {:induction false} PlainIsShortest(s: string)
    requires ReadPlain(s).Some?
    ensures var c := ReadPlain(s).value;
      !NeedsEncapsulation(c.text) && |s| == |c.text| + (if c.last then 2 else 1) + |c.rest|
  {
    if s[0] != ';' && s[0] != '\r' {
      PlainIsShortest(s[1..]);
      var t := ReadPlain(s[1..]).value.text;
      assert ReadPlain(s).value.text == [s[0]] + t;
    }
  }

  lemma {:induction false} QuotedIsShortest(s: string)
    requires ReadQuoted(s).Some?
    ensures var c := ReadQuoted(s).value; |s| == |DoubleQuotes(c.text)| + 1 + (if c.last then 2 else 1) + |c.rest|
  {
    if s[0] != '"' {
      QuotedIsShortest(s[1..]);
      assert ReadQuoted(s).value.text[1..] == ReadQuoted(s[1..]).value.text;
    } else if |s| >= 2 && s[1] == '"' {
      QuotedIsShortest(s[2..]);
      assert ReadQuoted(s).value.text[1..] == ReadQuoted(s[2..]).value.text;
    }
  }

  lemma {:induction false} DoublingGrows(s: string)
    ensures |s| <= |DoubleQuotes(s)|
  {
    if s != "" {
      DoublingGrows(s[1..]);
    }
  }

  lemma CellIsShortest(s: string)
    requires ReadCell(s).Some?
    ensures var c := ReadCell(s).value; |s| >= |Encapsulate(c.text)| + (if c.last then 2 else 1) + |c.rest|
  {
    if s[0] == '"' {
      QuotedIsShortest(s[1..]);
      DoublingGrows(ReadCell(s).value.text);
    } else {
      PlainIsShortest(s);
    }
  }

  lemma {:induction false} RecordIsShortest(s: string)
    requires ReadRecord(s).Some?
    ensures |s| >= |RecordText(ReadRecord(s).value.cells)| + |ReadRecord(s).value.rest|
    decreases |s|
  {
    CellIsShortest(s);
    var c := ReadCell(s).value;
    if !c.last {
      RecordIsShortest(c.rest);
      var cells := ReadRecord(s).value.cells;
      assert EncapsulateAll(cells)[1..] == EncapsulateAll(cells[1..]);
      assert cells[1..] == ReadRecord(c.rest).value.cells;
    }
  }

  lemma {:induction false} FileIsShortest(s: string)
    requires ReadFile(s).Some?
    ensures |s| >= |FileText(ReadFile(s).value)|
    decreases |s|
  {
    if s != "" {
      RecordIsShortest(s);
      FileIsShortest(ReadRecord(s).value.rest);
    }
  }

  lemma {:induction false} JoinGrows(names: seq<string>)
    ensures |Join(EncapsulateAll(names), DELIMITER)| >= |Join(names, DELIMITER)|
    ensures (exists i :: 0 <= i < |names| && NeedsEncapsulation(names[i])) ==>
      |Join(EncapsulateAll(names), DELIMITER)| > |Join(names, DELIMITER)|
    ensures (forall i :: 0 <= i < |names| ==> !NeedsEncapsulation(names[i])) ==> EncapsulateAll(names) == names
  {
    if names != [] {
      JoinGrows(names[1..]);
      DoublingGrows(names[0]);
      assert EncapsulateAll(names)[1..] == EncapsulateAll(names[1..]);
    }
  }

  // Whatever the cells contain, the reader recovers the header and every cell text, with one cell per column in each
  // record, if and only if no column name needs encapsulation: the writer never encapsulates the header.
  lemma WrittenTableReadsBack(columns: seq<Column>, rows: seq<Row>)
    requires columns != [] && WriteCsv(columns, rows).Ok?
    ensures ReadFile(WriteCsv(columns, rows).value) == Some([Names(columns)] + RowsTexts(columns, rows)) <==>
      forall i :: 0 <= i < |columns| ==> !NeedsEncapsulation(columns[i].name)
  {
    var names, records, text := Names(columns), RowsTexts(columns, rows), WriteCsv(columns, rows).value;
    LinesAreRecords(columns, rows, Join(names, DELIMITER));
    JoinGrows(names);
    var all := [names] + records;
    assert all[1..] == records && FileText(all) == RecordText(names) + FileText(records);
    if forall i :: 0 <= i < |columns| ==> !NeedsEncapsulation(columns[i].name) {
      assert text == FileText(all);
      FileReads(all);
    } else {
      var i :| 0 <= i < |columns| && NeedsEncapsulation(columns[i].name);
      assert NeedsEncapsulation(names[i]);
      assert |text| < |FileText(all)|;
      if ReadFile(text) == Some(all) {
        FileIsShortest(text);
      }
    }
  }

  // ----- numeric cells -----

  // Reading a numeric cell with the declared decimal symbol ',', in hundredths.
  function ReadAmount(s: string): Option<int> {
    if s != "" && s[0] == '-' then
      var r := ReadUnsigned(s[1..]); if r.None? then None else Some(-r.value)
    else
      ReadUnsigned(s)
  }

  function LeadingDigits(s: string): (n: nat)
    ensures n <= |s| && AllDigits(s[..n])
  {
    if s == "" || !IsDigit(s[0]) then 0 else 1 + LeadingDigits(s[1..])
  }

  function ReadUnsigned(s: string): Option<int> {
    var n := LeadingDigits(s);
    if n == 0 then None else ReadFraction(100 * NumberOf(s[..n]), s[n..])
  }

  // At most two digits after the decimal symbol.
  function ReadFraction(whole: int, s: string): Option<int> {
    if s == "" then Some(whole)
    else if 2 <= |s| <= 3 && s[0] == ',' && AllDigits(s[1..]) then
      Some(whole + if |s| == 2 then 10 * NumberOf(s[1..]) else NumberOf(s[1..]))
    else None
  }

  lemma {:induction false} ReplaceAfterDigits(digits: string, rest: string)
    requires AllDigits(digits)
    ensures ReplaceFirst(digits + rest, '.', ',') == digits + ReplaceFirst(rest, '.', ',')
  {
    if digits == "" {
      assert digits + rest == rest;
    } else {
      assert (digits + rest)[1..] == digits[1..] + rest;
      assert IsDigit(digits[0]);
      ReplaceAfterDigits(digits[1..], rest);
    }
  }

  lemma UnsignedReadsBack(v: nat)
    ensures ReadUnsigned(ReplaceFirst(Unsigned(v), '.', ',')) == Some(v)
  {
    var whole, f := Natural(v / 100), v % 100;
    NaturalReadsBack(v / 100);
    ReplaceAfterDigits(whole, Fraction(f));
    if f == 0 {
      LeadingDigitsEnd(whole, "");
    } else {
      var digits := Fraction(f)[1..];
      assert Fraction(f) == "." + digits && ReplaceFirst("." + digits, '.', ',') == "," + digits;
      FractionDigits(f);
      LeadingDigitsEnd(whole, "," + digits);
    }
  }

  lemma FractionDigits(f: nat)
    requires 0 < f < 100
    ensures var digits := Fraction(f)[1..];
      && AllDigits(digits) && 1 <= |digits| <= 2
      && f == (if |digits| == 1 then 10 * NumberOf(digits) else NumberOf(digits))
  {
    if f % 10 == 0 {
      NaturalReadsBack(f / 10);
      NaturalLength(f / 10, 1);
      assert Pow10(1) == 10 * Pow10(0);
    } else {
      Pad2ReadsBack(f);
    }
  }

  lemma {:induction false} LeadingDigitsEnd(whole: string, rest: string)
    requires AllDigits(whole) && (rest == "" || !IsDigit(rest[0]))
    ensures LeadingDigits(whole + rest) == |whole| && (whole + rest)[..|whole|] == whole && (whole + rest)[|whole|..] == rest
  {
    if whole == "" {
      assert whole + rest == rest;
    } else {
      LeadingDigitsEnd(whole[1..], rest);
      assert (whole + rest)[1..] == whole[1..] + rest;
    }
  }

  // The amount of a numeric cell is recovered exactly from its text.
  lemma NumericCellReadsBack(v: int)
    ensures ReadAmount(FormatNumeric(v)) == Some(v)
  {
    var u := if v < 0 then -v else v;
    UnsignedReadsBack(u);
    UnsignedChars(u);
    assert Unsigned(u)[0] != '-';
    hide ReadUnsigned, Unsigned, IsDigit;
    if v < 0 {
      assert NumberText(v)[1..] == Unsigned(u);
      assert FormatNumeric(v)[1..] == ReplaceFirst(Unsigned(u), '.', ',');
    }
  }

  // ----- what the reader finds of each value -----

  // The value of a row in a column; a missing one counts as absent.
  function ValueIn(row: Row, name: string): Value {
    if name in row then row[name] else Absent
  }

  // The writer throws on this value: a string where a number is due, or a text beyond the column's length.
  predicate DoesNotFit(column: Column, value: Value) {
    match value
    case Absent => false
    case Str(t) => column.kind.Numeric? || 0 <= column.maxLength < |t|
    case Num(h) => column.kind.Text? && 0 <= column.maxLength < |NumberText(h)|
  }

  // What a reader finds in the cell of a value: nothing for an absent one, a string exactly, the amount of a number with
  // a decimal comma in a numeric column, and with a decimal point in a text column.
  ghost predicate Conveys(column: Column, value: Value, cell: string) {
    match value
    case Absent => cell == ""
    case Str(t) => cell == t
    case Num(h) => if column.kind.Numeric? then ReadAmount(cell) == Some(h)
                   else ReadAmount(ReplaceFirst(cell, '.', ',')) == Some(h) && cell == NumberText(h)
  }

  lemma TextConveys(column: Column, value: Value)
    ensures CellText(column, value).Error? <==> DoesNotFit(column, value)
    ensures CellText(column, value).Ok? ==> Conveys(column, value, CellText(column, value).value)
  {
    if value.Num? {
      NumericCellReadsBack(value.hundredths);
    }
    hide ReadAmount, NumberText, ReplaceFirst;
  }

  lemma {:induction false} CellsFailIff(columns: seq<Column>, row: Row)
    ensures FormatCells(columns, row).Error? <==>
      exists j :: 0 <= j < |columns| && DoesNotFit(columns[j], ValueIn(row, columns[j].name))
  {
    if columns != [] {
      var rest := columns[1..];
      TextConveys(columns[0], Lookup(row, columns[0].name));
      CellIsEncapsulatedText(columns[0], Lookup(row, columns[0].name));
      CellsFailIff(rest, row);
      hide CellText, DoesNotFit, Conveys, FormatCell, Encapsulate;
      if j :| 0 <= j < |rest| && DoesNotFit(rest[j], ValueIn(row, rest[j].name)) {
        assert DoesNotFit(columns[j + 1], ValueIn(row, columns[j + 1].name));
      }
      if j :| 0 <= j < |columns| && DoesNotFit(columns[j], ValueIn(row, columns[j].name)) {
        assert j > 0 ==> DoesNotFit(rest[j - 1], ValueIn(row, rest[j - 1].name));
      }
    }
  }

  ghost predicate RowDoesNotFit(columns: seq<Column>, row: Row) {
    exists j :: 0 <= j < |columns| && DoesNotFit(columns[j], ValueIn(row, columns[j].name))
  }

  // The writer throws exactly if some value does not fit its column.
  lemma {:induction false} WritingFailsIff(columns: seq<Column>, rows: seq<Row>)
    ensures WriteCsv(columns, rows).Error? <==> exists i :: 0 <= i < |rows| && RowDoesNotFit(columns, rows[i])
  {
    if rows != [] {
      var rest := rows[1..];
      CellsFailIff(columns, rows[0]);
      WritingFailsIff(columns, rest);
      hide RowDoesNotFit, FormatCells, Join;
      assert RowDoesNotFit(columns, rows[0]) <==> FormatCells(columns, rows[0]).Error? by { RowFailsIff(columns, rows[0]); }
      if i :| 0 <= i < |rest| && RowDoesNotFit(columns, rest[i]) {
        assert RowDoesNotFit(columns, rows[i + 1]);
      }
      if i :| 0 <= i < |rows| && RowDoesNotFit(columns, rows[i]) {
        assert i > 0 ==> RowDoesNotFit(columns, rest[i - 1]);
      }
    }
  }

  lemma RowFailsIff(columns: seq<Column>, row: Row)
    ensures RowDoesNotFit(columns, row) <==> FormatCells(columns, row).Error?
  {
    CellsFailIff(columns, row);
  }

  lemma {:induction false} WrittenCellsFit(columns: seq<Column>, rows: seq<Row>, i: nat, j: nat)
    requires WriteCsv(columns, rows).Ok? && i < |rows| && j < |columns|
    ensures CellText(columns[j], Lookup(rows[i], columns[j].name)).Ok?
  {
    WritingFailsIff(columns, rows);
    assert !RowDoesNotFit(columns, rows[i]);
    TextConveys(columns[j], ValueIn(rows[i], columns[j].name));
  }

  // The records that the reader finds convey the table: the names of the columns, and then, row by row and column by
  // column, the values.
  ghost predicate ConveysTable(columns: seq<Column>, rows: seq<Row>, records: seq<seq<string>>) {
    && |records| == |rows| + 1
    && (forall i :: 0 <= i < |records| ==> |records[i]| == |columns|)
    && (forall j :: 0 <= j < |columns| ==> records[0][j] == columns[j].name)
    && (forall i, j :: 0 <= i < |rows| && 0 <= j < |columns| ==>
          Conveys(columns[j], ValueIn(rows[i], columns[j].name), records[i + 1][j]))
  }

  // Whatever the values are, as far as they fit: a reader of a table with plain column names finds every one of them.
  lemma WrittenValuesReadBack(columns: seq<Column>, rows: seq<Row>)
    requires columns != [] && WriteCsv(columns, rows).Ok?
    requires forall j :: 0 <= j < |columns| ==> !NeedsEncapsulation(columns[j].name)
    ensures ReadFile(WriteCsv(columns, rows).value).Some?
    ensures ConveysTable(columns, rows, ReadFile(WriteCsv(columns, rows).value).value)
  {
    WrittenTableReadsBack(columns, rows);
    hide WriteCsv, ReadFile, CellText, Conveys, NeedsEncapsulation;
    var records := [Names(columns)] + RowsTexts(columns, rows);
    forall i, j | 0 <= i < |rows| && 0 <= j < |columns|
      ensures Conveys(columns[j], ValueIn(rows[i], columns[j].name), records[i + 1][j])
    {
      WrittenCellsFit(columns, rows, i, j);
      TextConveys(columns[j], ValueIn(rows[i], columns[j].name));
      assert records[i + 1][j] == RowTexts(columns, rows[i])[j];
    }
  }
}
