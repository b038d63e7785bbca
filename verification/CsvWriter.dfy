// The DSFinV-K CSV writer: ';' between cells, CR LF after each record, '"' around cells that need it.
module CsvWriter {
  import opened Decimal

  datatype Result<T> = Ok(value: T) | Error(column: string)

  datatype Kind = Text | Numeric

  // maxLength < 0 stands for a column without a declared maximum length.
  datatype Column = Column(name: string, kind: Kind, maxLength: int)

  // A cell value: null or undefined, a string, or a number given in hundredths.
  datatype Value = Absent | Str(text: string) | Num(hundredths: int)

  type Row = map<string, Value>

  const DELIMITER := ";"
  const RECORD_DELIMITER := "\r\n"

  // Number.prototype.toString of v / 100: no trailing zeros, and no decimal point for whole numbers.
  function NumberText(v: int): string {
    if v < 0 then "-" + Unsigned(-v) else Unsigned(v)
  }

  function Unsigned(v: nat): string {
    Natural(v / 100) + Fraction(v % 100)
  }

  function Fraction(f: nat): string
    requires f < 100
  {
    if f == 0 then "" else if f % 10 == 0 then "." + Natural(f / 10) else "." + Pad2(f)
  }

  // String.prototype.replace with a string pattern of one character: only the first occurrence is replaced.
  function ReplaceFirst(s: string, pattern: char, replacement: char): string {
    if s == "" then "" else if s[0] == pattern then [replacement] + s[1..] else [s[0]] + ReplaceFirst(s[1..], pattern, replacement)
  }

  function FormatNumeric(v: int): string {
    ReplaceFirst(NumberText(v), '.', ',')
  }

  predicate Special(c: char) {
    c == ';' || c == '"' || c == '\n' || c == '\r'
  }

  predicate NeedsEncapsulation(field: string) {
    exists i :: 0 <= i < |field| && Special(field[i])
  }

  function DoubleQuotes(field: string): string {
    if field == "" then "" else (if field[0] == '"' then "\"\"" else [field[0]]) + DoubleQuotes(field[1..])
  }

  function Encapsulate(field: string): string {
    if NeedsEncapsulation(field) then "\"" + DoubleQuotes(field) + "\"" else field
  }

  // The text a cell stands for, before encapsulation; an error where the writer throws.
  function CellText(column: Column, value: Value): Result<string> {
    if value.Absent? then Ok("")
    else if column.kind.Numeric? then
      if value.Num? then Ok(FormatNumeric(value.hundredths)) else Error(column.name)
    else
      var s := if value.Str? then value.text else NumberText(value.hundredths);
      if 0 <= column.maxLength < |s| then Error(column.name) else Ok(s)
  }

  // Numeric cells and absent cells are written as they are, text cells encapsulated.
  function FormatCell(column: Column, value: Value): Result<string> {
    match CellText(column, value)
    case Error(c) => Error(c)
    case Ok(s) => if value.Absent? || column.kind.Numeric? then Ok(s) else Ok(Encapsulate(s))
  }

  function Lookup(row: Row, name: string): Value {
    if name in row then row[name] else Absent
  }

  function FormatCells(columns: seq<Column>, row: Row): Result<seq<string>> {
    if columns == [] then Ok([])
    else
      match FormatCell(columns[0], Lookup(row, columns[0].name))
      case Error(c) => Error(c)
      case Ok(cell) =>
        match FormatCells(columns[1..], row)
        case Error(c) => Error(c)
        case Ok(cells) => Ok([cell] + cells)
  }

  // Array.prototype.join
  function Join(parts: seq<string>, separator: string): string {
    if parts == [] then "" else if |parts| == 1 then parts[0] else parts[0] + separator + Join(parts[1..], separator)
  }

  function FormatLines(columns: seq<Column>, rows: seq<Row>): Result<seq<string>> {
    if rows == [] then Ok([])
    else
      match FormatCells(columns, rows[0])
      case Error(c) => Error(c)
      case Ok(cells) =>
        match FormatLines(columns, rows[1..])
        case Error(c) => Error(c)
        case Ok(lines) => Ok([Join(cells, DELIMITER)] + lines)
  }

  function Names(columns: seq<Column>): seq<string> {
    seq(|columns|, i requires 0 <= i < |columns| => columns[i].name)
  }

  function WriteCsv(columns: seq<Column>, rows: seq<Row>): Result<string> {
    match FormatLines(columns, rows)
    case Error(c) => Error(c)
    case Ok(lines) => Ok(Join([Join(Names(columns), DELIMITER)] + lines, RECORD_DELIMITER) + RECORD_DELIMITER)
  }
}
