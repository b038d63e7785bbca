// A reader for the format that index.xml declares: cells separated by ';', records ended by CR LF, cells optionally
// enclosed in '"' with enclosed quotes doubled, as in section 2 of RFC 4180 with another delimiter. It is strict:
// a quote or a lone line-break character inside an unenclosed cell is an error.
module CsvReader {
  import opened Options

  // A cell, whether it ends its record, and what follows.
  datatype Cell = Cell(text: string, last: bool, rest: string)
  datatype Record = Record(cells: seq<string>, rest: string)

  function EndOfCell(s: string): (r: Option<Cell>)
    ensures r.Some? ==> |r.value.rest| < |s|
  {
    if s != "" && s[0] == ';' then Some(Cell("", false, s[1..]))
    else if |s| >= 2 && s[0] == '\r' && s[1] == '\n' then Some(Cell("", true, s[2..]))
    else None
  }

  function Prepend(c: char, r: Option<Cell>): Option<Cell> {
    if r.None? then None else Some(r.value.(text := [c] + r.value.text))
  }

  function ReadPlain(s: string): (r: Option<Cell>)
    ensures r.Some? ==> |r.value.rest| < |s|
  {
    if s == "" then None
    else if s[0] == ';' || s[0] == '\r' then EndOfCell(s)
    else if s[0] == '"' || s[0] == '\n' then None
    else Prepend(s[0], ReadPlain(s[1..]))
  }

  // What follows an opening quote.
  function ReadQuoted(s: string): (r: Option<Cell>)
    ensures r.Some? ==> |r.value.rest| < |s|
  {
    if s == "" then None
    else if s[0] != '"' then Prepend(s[0], ReadQuoted(s[1..]))
    else if |s| >= 2 && s[1] == '"' then Prepend('"', ReadQuoted(s[2..]))
    else EndOfCell(s[1..])
  }

  function ReadCell(s: string): (r: Option<Cell>)
    ensures r.Some? ==> |r.value.rest| < |s|
  {
    if s != "" && s[0] == '"' then ReadQuoted(s[1..]) else ReadPlain(s)
  }

  function ReadRecord(s: string): (r: Option<Record>)
    ensures r.Some? ==> r.value.cells != [] && |r.value.rest| < |s|
    decreases |s|
  {
    var cell := ReadCell(s);
    if cell.None? then None
    else if cell.value.last then Some(Record([cell.value.text], cell.value.rest))
    else
      var more := ReadRecord(cell.value.rest);
      if more.None? then None else Some(Record([cell.value.text] + more.value.cells, more.value.rest))
  }

  function ReadFile(s: string): Option<seq<seq<string>>>
    decreases |s|
  {
    if s == "" then Some([])
    else
      var record := ReadRecord(s);
      if record.None? then None
      else
        var more := ReadFile(record.value.rest);
        if more.None? then None else Some([record.value.cells] + more.value)
  }
}
