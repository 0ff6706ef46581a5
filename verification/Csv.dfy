/**
 * The CSV reader of the correctness script (apps/indexer/scripts/correctness.ts) and the printer it inverts: section 2
 * of RFC 4180, with psql's convention that an unquoted empty field is NULL and `""` the empty string.
 */
module Csv {
  import opened Options

  type Value = Option<string>

  /* ---------------------------------------------------------------- the reader */

  /** What the reader has so far: whole records, the record and the field being read, and how. */
  datatype Reading = Reading(records: seq<seq<Value>>, record: seq<Value>, field: string, quoted: bool, inQuotes: bool)

  const START := Reading([], [], "", false, false)

  function FieldEnded(r: Reading): Reading {
    r.(record := r.record + [if r.quoted || r.field != "" then Some(r.field) else None], field := "", quoted := false)
  }

  function RecordEnded(r: Reading): Reading {
    var e := FieldEnded(r);
    e.(records := e.records + [e.record], record := [])
  }

  predicate StartsWith(text: string, c: char) { text != "" && text[0] == c }

  /** One turn of the reader's loop: how far it moves, and what it has then. */
  function Turn(text: string, r: Reading): (t: (nat, Reading))
    requires text != ""
    ensures 1 <= t.0 <= |text|
  {
    var c, doubled, crLf := text[0], StartsWith(text[1..], '"'), StartsWith(text[1..], '\n');
    if r.inQuotes then
      if c != '"' then (1, r.(field := r.field + [c]))
      else if doubled then (2, r.(field := r.field + "\""))
      else (1, r.(inQuotes := false))
    else if c == '"' then (1, r.(inQuotes := true, quoted := true))
    else if c == ',' then (1, FieldEnded(r))
    else if c == '\n' || c == '\r' then (if c == '\r' && crLf then 2 else 1, RecordEnded(r))
    else (1, r.(field := r.field + [c]))
  }

  /** Reads the text to its end. */
  function Read(text: string, r: Reading): Reading
    decreases |text|
  {
    if text == "" then r else
    var (n, r') := Turn(text, r);
    Read(text[n..], r')
  }

  function Finished(r: Reading): seq<seq<Value>> {
    if r.field != "" || r.quoted || r.record != [] then RecordEnded(r).records else r.records
  }

  function Records(text: string): seq<seq<Value>> { Finished(Read(text, START)) }

  type Row = map<string, Value>

  /** A row by column name: a missing value is NULL, a name given twice takes the last column. */
  function RowOf(header: seq<Value>, values: seq<Value>): Row {
    if header == [] then map[] else
    var n := |header| - 1;
    RowOf(header[..n], values)[header[n].GetOr("") := if n < |values| then values[n] else None]
  }

  function Rows(text: string): seq<Row> {
    var records := Records(text);
    if records == [] then [] else RowsOf(records[0], records[1..])
  }

  function RowsOf(header: seq<Value>, records: seq<seq<Value>>): (rows: seq<Row>)
    ensures |rows| == |records| && forall i | 0 <= i < |records| :: rows[i] == RowOf(header, records[i])
  {
    if records == [] then [] else [RowOf(header, records[0])] + RowsOf(header, records[1..])
  }

  /** The reader has read `text` up to `index` and has `r`. */
  ghost predicate IsRead(text: string, index: nat, r: Reading) {
    index <= |text| && Read(text[index..], r) == Read(text, START)
  }

  lemma {:induction false} ReadOn(text: string, index: nat, r: Reading, n: nat, r': Reading)
    requires IsRead(text, index, r) && index < |text| && Turn(text[index..], r) == (n, r')
    ensures IsRead(text, index + n, r')
  {
    hide Turn;
    assert text[index..][n..] == text[index + n..];
  }

  method ParseCsv(text: string) returns (rows: seq<Row>)
    ensures rows == Rows(text)
  {
    var records: seq<seq<Value>>, record: seq<Value>, field, quoted, inQuotes := [], [], "", false, false;
    var index := 0;
    while index < |text|
      invariant IsRead(text, index, Reading(records, record, field, quoted, inQuotes))
    {
      var c := text[index];
      ghost var (n, next) := Turn(text[index..], Reading(records, record, field, quoted, inQuotes));
      ReadOn(text, index, Reading(records, record, field, quoted, inQuotes), n, next);
      if inQuotes {
        if c == '"' && index + 1 < |text| && text[index + 1] == '"' {
          field := field + "\"";
          index := index + 2;
        } else if c == '"' {
          inQuotes := false;
          index := index + 1;
        } else {
          field := field + [c];
          index := index + 1;
        }
      } else if c == '"' {
        inQuotes := true;
        quoted := true;
        index := index + 1;
      } else if c == ',' {
        record := record + [if quoted || field != "" then Some(field) else None];
        field, quoted := "", false;
        index := index + 1;
      } else if c == '\n' || c == '\r' {
        record := record + [if quoted || field != "" then Some(field) else None];
        field, quoted := "", false;
        records := records + [record];
        record := [];
        index := index + if c == '\r' && index + 1 < |text| && text[index + 1] == '\n' then 2 else 1;
      } else {
        field := field + [c];
        index := index + 1;
      }
    }
    if field != "" || quoted || record != [] {
      record := record + [if quoted || field != "" then Some(field) else None];
      records := records + [record];
    }
    assert records == Records(text);
    if records == [] { return []; }
    rows := RowsOf(records[0], records[1..]);
  }

  /* ---------------------------------------------------------------- the printer */

  /** A field as written: nothing for NULL, bare text, or text between quotes. */
  datatype Cell = Null | Bare(text: string) | Quoted(text: string)

  predicate Special(c: char) { c == '"' || c == ',' || c == '\n' || c == '\r' }

  predicate Plain(text: string) { forall i | 0 <= i < |text| :: !Special(text[i]) }

  /** Bare text is not empty (that would be NULL) and needs no quotes; anything may stand between quotes. */
  predicate Writable(cell: Cell) { cell.Bare? ==> cell.text != "" && Plain(cell.text) }

  function ValueOf(cell: Cell): Value { if cell.Null? then None else Some(cell.text) }

  function EscapedChar(c: char): string { if c == '"' then "\"\"" else [c] }

  function Escaped(text: string): string {
    if text == "" then "" else EscapedChar(text[0]) + Escaped(text[1..])
  }

  function PrintCell(cell: Cell): string {
    match cell
    case Null => ""
    case Bare(text) => text
    case Quoted(text) => "\"" + Escaped(text) + "\""
  }

  /** A record: at least one field. */
  function PrintRecord(cells: seq<Cell>): string
    requires cells != []
  {
    if |cells| == 1 then PrintCell(cells[0]) else PrintCell(cells[0]) + "," + PrintRecord(cells[1..])
  }

  /** How a record ends: with LF or CRLF, or, for the last one only, with the text. */
  datatype End = Lf | CrLf | EndOfText
  datatype Line = Line(cells: seq<Cell>, end: End)

  ghost predicate IsTable(lines: seq<Line>) {
    && (forall i | 0 <= i < |lines| :: lines[i].cells != [] && AllWritable(lines[i].cells))
    && (forall i | 0 <= i < |lines| :: lines[i].end.EndOfText? ==> i == |lines| - 1)
  }

  function PrintEnd(end: End): string { match end case Lf => "\n" case CrLf => "\r\n" case EndOfText => "" }

  function Print(lines: seq<Line>): string
    requires forall i | 0 <= i < |lines| :: lines[i].cells != []
  {
    if lines == [] then "" else PrintRecord(lines[0].cells) + PrintEnd(lines[0].end) + Print(lines[1..])
  }

  function Values(cells: seq<Cell>): seq<Value> {
    if cells == [] then [] else [ValueOf(cells[0])] + Values(cells[1..])
  }

  function Content(lines: seq<Line>): seq<seq<Value>> {
    if lines == [] then [] else [Values(lines[0].cells)] + Content(lines[1..])
  }

  /* ---------------------------------------------------------------- the reader undoes the printer */

  /** Text that ends a field: nothing, a comma or a line break. */
  predicate Stops(rest: string) { rest == "" || rest[0] == ',' || rest[0] == '\n' || rest[0] == '\r' }

  lemma {:induction false} Regroup(a: string, b: string, c: string, d: string)
    ensures a + b + c + d == a + (b + c + d)
  {
  }

  lemma {:induction false} ReadEscaped(text: string, rest: string, r: Reading)
    requires r.inQuotes && Stops(rest)
    ensures Read(Escaped(text) + "\"" + rest, r) == Read(rest, r.(field := r.field + text, inQuotes := false))
    decreases |text|
  {
    if text == "" {
      var all := "\"" + rest;
      assert Escaped(text) + "\"" + rest == all && all[1..] == rest;
      assert r.field + text == r.field;
    } else {
      Regroup(EscapedChar(text[0]), Escaped(text[1..]), "\"", rest);
      ReadEscaped(text[1..], rest, r.(field := r.field + [text[0]]));
      Joined(r.field, text);
    }
  }

  lemma {:induction false} Joined(before: string, text: string)
    requires text != ""
    ensures before + [text[0]] + text[1..] == before + text
  {
  }

  lemma {:induction false} ReadBare(text: string, rest: string, r: Reading)
    requires !r.inQuotes && Plain(text)
    ensures Read(text + rest, r) == Read(rest, r.(field := r.field + text))
    decreases text
  {
    if text == "" {
      assert text + rest == rest && r.field + text == r.field;
    } else {
      assert (text + rest)[1..] == text[1..] + rest;
      ReadBare(text[1..], rest, r.(field := r.field + [text[0]]));
      Joined(r.field, text);
    }
  }

  /** Reading a field as written leaves its text, marked as quoted if it was. */
  function FieldRead(cell: Cell, r: Reading): Reading {
    r.(field := if cell.Null? then "" else cell.text, quoted := cell.Quoted?)
  }

  predicate AtField(r: Reading) { r.field == "" && !r.quoted && !r.inQuotes }

  lemma {:induction false} ReadCell(cell: Cell, rest: string, r: Reading)
    requires AtField(r) && Writable(cell) && Stops(rest)
    ensures Read(PrintCell(cell) + rest, r) == Read(rest, FieldRead(cell, r))
  {
    match cell
    case Null => assert PrintCell(cell) + rest == rest;
    case Bare(text) => ReadBare(text, rest, r); assert r.field + text == text;
    case Quoted(text) =>
      var all := PrintCell(cell) + rest;
      assert all == "\"" + (Escaped(text) + "\"" + rest) && all[1..] == Escaped(text) + "\"" + rest;
      ReadEscaped(text, rest, r.(inQuotes := true, quoted := true));
      assert r.field + text == text;
  }

  ghost predicate AllWritable(cells: seq<Cell>) { forall i | 0 <= i < |cells| :: Writable(cells[i]) }

  /** Reading a record as written, up to its end, leaves its last field to be ended. */
  function RecordRead(cells: seq<Cell>, r: Reading): Reading
    requires cells != []
  {
    if |cells| == 1 then FieldRead(cells[0], r)
    else RecordRead(cells[1..], r.(record := r.record + [ValueOf(cells[0])]))
  }

  lemma {:induction false} ReadRecord(cells: seq<Cell>, rest: string, r: Reading)
    requires AtField(r) && cells != [] && AllWritable(cells) && Stops(rest)
    ensures Read(PrintRecord(cells) + rest, r) == Read(rest, RecordRead(cells, r))
    decreases |cells|
  {
    if |cells| == 1 {
      ReadCell(cells[0], rest, r);
    } else {
      Chain(PrintCell(cells[0]), ",", PrintRecord(cells[1..]), rest);
      ReadField(cells[0], PrintRecord(cells[1..]) + rest, r);
      ReadRecord(cells[1..], rest, r.(record := r.record + [ValueOf(cells[0])]));
    }
  }

  lemma {:induction false} ReadField(cell: Cell, tail: string, r: Reading)
    requires AtField(r) && Writable(cell)
    ensures Read(PrintCell(cell) + ("," + tail), r) == Read(tail, r.(record := r.record + [ValueOf(cell)]))
  {
    ReadCell(cell, "," + tail, r);
    assert ("," + tail)[1..] == tail;
  }

  lemma {:induction false} RecordReadEnds(cells: seq<Cell>, r: Reading)
    requires AtField(r) && cells != [] && AllWritable(cells)
    ensures FieldEnded(RecordRead(cells, r)) == r.(record := r.record + Values(cells))
    ensures !RecordRead(cells, r).inQuotes && |RecordRead(cells, r).record| == |r.record| + |cells| - 1
    decreases |cells|
  {
    if |cells| == 1 {
      assert Values(cells) == [ValueOf(cells[0])];
    } else {
      var more := r.record + [ValueOf(cells[0])];
      RecordReadEnds(cells[1..], r.(record := more));
      assert more + Values(cells[1..]) == r.record + Values(cells);
    }
  }

  lemma {:induction false} ReadLine(line: Line, rest: string, r: Reading)
    requires AtField(r) && r.record == [] && line.cells != [] && !line.end.EndOfText? && AllWritable(line.cells)
    ensures Read(PrintRecord(line.cells) + (PrintEnd(line.end) + rest), r)
         == Read(rest, r.(records := r.records + [Values(line.cells)]))
  {
    var tail := PrintEnd(line.end) + rest;
    ReadRecord(line.cells, tail, r);
    RecordReadEnds(line.cells, r);
    assert r.record + Values(line.cells) == Values(line.cells);
  }

  lemma {:induction false} PrintHead(lines: seq<Line>, rest: string)
    requires lines != [] && forall i | 0 <= i < |lines| :: lines[i].cells != []
    ensures Print(lines) + rest == PrintRecord(lines[0].cells) + (PrintEnd(lines[0].end) + (Print(lines[1..]) + rest))
  {
    Chain(PrintRecord(lines[0].cells), PrintEnd(lines[0].end), Print(lines[1..]), rest);
  }

  lemma {:induction false} Chain(a: string, b: string, c: string, d: string)
    ensures a + b + c + d == a + (b + (c + d))
  {
  }

  lemma {:induction false} ContentHead(records: seq<seq<Value>>, lines: seq<Line>)
    requires lines != []
    ensures records + [Values(lines[0].cells)] + Content(lines[1..]) == records + Content(lines)
  {
  }

  lemma {:induction false} ReadLines(lines: seq<Line>, rest: string, r: Reading)
    requires AtField(r) && r.record == [] && IsTable(lines) && forall i | 0 <= i < |lines| :: !lines[i].end.EndOfText?
    ensures Read(Print(lines) + rest, r) == Read(rest, r.(records := r.records + Content(lines)))
    decreases |lines|
  {
    if lines == [] {
      assert Print(lines) + rest == rest && r.records + Content(lines) == r.records;
    } else {
      PrintHead(lines, rest);
      ReadLine(lines[0], Print(lines[1..]) + rest, r);
      ReadLines(lines[1..], rest, r.(records := r.records + [Values(lines[0].cells)]));
      ContentHead(r.records, lines);
    }
  }

  lemma {:induction false} PrintSplit(lines: seq<Line>, last: Line)
    requires (forall i | 0 <= i < |lines| :: lines[i].cells != []) && last.cells != []
    ensures Print(lines + [last]) == Print(lines) + (PrintRecord(last.cells) + PrintEnd(last.end))
    decreases |lines|
  {
    if lines == [] {
      assert (lines + [last])[1..] == [];
    } else {
      assert (lines + [last])[1..] == lines[1..] + [last];
      PrintSplit(lines[1..], last);
    }
  }

  /** The last line is a single NULL with no line break: it prints as nothing at all. */
  predicate LastIsLost(lines: seq<Line>) {
    OpenEnded(lines) && lines[|lines| - 1].cells == [Null]
  }

  predicate OpenEnded(lines: seq<Line>) { lines != [] && lines[|lines| - 1].end.EndOfText? }

  lemma {:induction false} ReadAllEnded(lines: seq<Line>)
    requires IsTable(lines) && !OpenEnded(lines)
    ensures Records(Print(lines)) == Content(lines)
  {
    assert forall i | 0 <= i < |lines| :: !lines[i].end.EndOfText?;
    ReadLines(lines, "", START);
    assert Print(lines) + "" == Print(lines);
    assert [] + Content(lines) == Content(lines);
  }

  lemma {:induction false} ContentSplit(before: seq<Line>, last: Line)
    ensures Content(before + [last]) == Content(before) + [Values(last.cells)]
    decreases |before|
  {
    if before == [] {
      assert (before + [last])[1..] == [];
    } else {
      assert (before + [last])[1..] == before[1..] + [last];
      ContentSplit(before[1..], last);
    }
  }

  lemma {:induction false} ReadOpenEnd(before: seq<Line>, last: Line)
    requires IsTable(before) && last.cells != [] && forall i | 0 <= i < |before| :: !before[i].end.EndOfText?
    requires last.end.EndOfText? && AllWritable(last.cells)
    ensures Records(Print(before + [last]))
         == if last.cells == [Null] then Content(before) else Content(before) + [Values(last.cells)]
  {
    var text := PrintRecord(last.cells) + "";
    PrintSplit(before, last);
    assert PrintRecord(last.cells) + PrintEnd(last.end) == text;
    ReadLines(before, text, START);
    assert START.records + Content(before) == Content(before);
    var r := START.(records := Content(before));
    ReadRecord(last.cells, "", r);
    LastRecord(last.cells, r);
  }

  lemma {:induction false} ReadOpenEnded(lines: seq<Line>)
    requires IsTable(lines) && OpenEnded(lines)
    ensures Records(Print(lines)) == Content(lines) <==> !LastIsLost(lines)
    ensures LastIsLost(lines) ==> Records(Print(lines)) == Content(lines[..|lines| - 1])
  {
    var before, last := lines[..|lines| - 1], lines[|lines| - 1];
    assert lines == before + [last];
    assert forall i | 0 <= i < |before| :: before[i] == lines[i];
    ReadOpenEnd(before, last);
    ContentSplit(before, last);
  }

  lemma {:induction false} LastRecord(cells: seq<Cell>, r: Reading)
    requires AtField(r) && r.record == [] && cells != [] && AllWritable(cells)
    ensures Finished(RecordRead(cells, r)) == if cells == [Null] then r.records else r.records + [Values(cells)]
  {
    RecordReadEnds(cells, r);
    assert r.record + Values(cells) == Values(cells);
    assert cells == [Null] <==> |cells| == 1 && cells[0].Null?;
  }

  /**
   * The reader undoes the printer, for any texts, quotes and line breaks, except for a last record of a single NULL
   * printed without its line break: that one, and only that one, is lost.
   */
  lemma {:induction false} ReadsWhatIsPrinted(lines: seq<Line>)
    requires IsTable(lines)
    ensures Records(Print(lines)) == Content(lines) <==> !LastIsLost(lines)
    ensures LastIsLost(lines) ==> Records(Print(lines)) == Content(lines[..|lines| - 1])
  {
    if OpenEnded(lines) {
      ReadOpenEnded(lines);
    } else {
      ReadAllEnded(lines);
    }
  }

  /* ---------------------------------------------------------------- rows by column name */

  predicate DistinctNames(header: seq<Value>) {
    forall i, j | 0 <= i < j < |header| :: header[i].GetOr("") != header[j].GetOr("")
  }

  function Names(header: seq<Value>): set<string> { set v | v in header :: v.GetOr("") }

  predicate UnderItsName(header: seq<Value>, values: seq<Value>, j: nat)
    requires j < |header|
  {
    var row, name := RowOf(header, values), header[j].GetOr("");
    name in row && row[name] == if j < |values| then values[j] else None
  }

  lemma {:induction false} RowByName(header: seq<Value>, values: seq<Value>)
    requires DistinctNames(header)
    ensures forall j | 0 <= j < |header| :: UnderItsName(header, values, j)
    ensures RowOf(header, values).Keys == Names(header)
    decreases |header|
  {
    if header != [] {
      var n := |header| - 1;
      RowByName(header[..n], values);
      forall j | 0 <= j < |header| ensures UnderItsName(header, values, j) {
        if j < n { assert UnderItsName(header[..n], values, j); }
      }
      assert header == header[..n] + [header[n]];
      assert Names(header) == Names(header[..n]) + {header[n].GetOr("")};
    }
  }

  lemma {:induction false} ValuesAt(cells: seq<Cell>)
    ensures |Values(cells)| == |cells| && forall j | 0 <= j < |cells| :: Values(cells)[j] == ValueOf(cells[j])
  {
    if cells != [] { ValuesAt(cells[1..]); }
  }

  lemma {:induction false} ContentAt(lines: seq<Line>, i: nat)
    requires i < |lines|
    ensures |Content(lines)| == |lines| && Content(lines)[i] == Values(lines[i].cells)
    decreases |lines|
  {
    if i > 0 { ContentAt(lines[1..], i - 1); } else if |lines| > 1 { ContentAt(lines[1..], 0); }
  }

  /** A printed table with distinct column names, read back: every cell under its column's name, and nothing else. */
  lemma {:induction false} TableReadBack(lines: seq<Line>, i: nat, j: nat)
    requires IsTable(lines) && !LastIsLost(lines) && i + 1 < |lines| && j < |lines[0].cells| == |lines[i + 1].cells|
    requires DistinctNames(Values(lines[0].cells))
    ensures var rows := Rows(Print(lines));
      var name := ValueOf(lines[0].cells[j]).GetOr("");
      && |rows| == |lines| - 1 && name in rows[i] && rows[i][name] == ValueOf(lines[i + 1].cells[j])
      && rows[i].Keys == Names(Values(lines[0].cells))
  {
    ReadsWhatIsPrinted(lines);
    ContentAt(lines, 0);
    ContentAt(lines, i + 1);
    ValuesAt(lines[0].cells);
    ValuesAt(lines[i + 1].cells);
    var header, values := Values(lines[0].cells), Values(lines[i + 1].cells);
    RowByName(header, values);
    assert UnderItsName(header, values, j);
  }
}
