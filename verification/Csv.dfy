/** The hand-written CSV reader, and the proof that it inverts every writer that follows RFC 4180. */
module Csv {
  import opened Prelude

  // ------------------------------------------------------------------ the reader

  /** What the reader carries from one character to the next. */
  datatype Scan = Scan(records: seq<seq<string>>, row: seq<string>, field: string, inQuotes: bool) {
    function PushField(): Scan {
      this.(row := row + [field], field := "")
    }

    function PushRow(): Scan {
      Scan(records + [row + [field]], [], "", inQuotes)
    }
  }

  const START := Scan([], [], "", false)

  /** The state after reading `text`. A doubled quote inside quotes is consumed as one step. */
  function ScanFrom(text: string, s: Scan): Scan
    decreases |text|
  {
    if text == "" then s
    else if s.inQuotes then
      if text[0] != '"' then ScanFrom(text[1..], s.(field := s.field + [text[0]]))
      else if |text| > 1 && text[1] == '"' then ScanFrom(text[2..], s.(field := s.field + ['"']))
      else ScanFrom(text[1..], s.(inQuotes := false))
    else if text[0] == '"' then ScanFrom(text[1..], s.(inQuotes := true))
    else if text[0] == ',' then ScanFrom(text[1..], s.PushField())
    else if text[0] == '\n' then ScanFrom(text[1..], s.PushRow())
    else if text[0] == '\r' then ScanFrom(text[1..], s)
    else ScanFrom(text[1..], s.(field := s.field + [text[0]]))
  }

  /** The last record needs no line ending, but it must have left something behind. */
  function Finish(s: Scan): seq<seq<string>> {
    if s.field != "" || s.row != [] then s.PushRow().records else s.records
  }

  function Records(text: string): seq<seq<string>> {
    Finish(ScanFrom(text, START))
  }

  method ReadRecords(text: string) returns (records: seq<seq<string>>)
    ensures records == Records(text)
  {
    records := [];
    var field := "";
    var row: seq<string> := [];
    var inQuotes := false;
    var i := 0;
    while i < |text|
      invariant 0 <= i <= |text|
      invariant ScanFrom(text[i..], Scan(records, row, field, inQuotes)) == ScanFrom(text, START)
    {
      var c := text[i];
      ghost var rest := text[i..];
      assert text[i + 1..] == rest[1..];
      if inQuotes {
        if c == '"' {
          if i + 1 < |text| && text[i + 1] == '"' {
            assert text[i + 2..] == rest[2..];
            field := field + ['"'];
            i := i + 1;
          } else {
            inQuotes := false;
          }
        } else {
          field := field + [c];
        }
      } else if c == '"' {
        inQuotes := true;
      } else if c == ',' {
        row, field := row + [field], "";
      } else if c == '\n' {
        records, row, field := records + [row + [field]], [], "";
      } else if c == '\r' {
        // handled when the newline arrives
      } else {
        field := field + [c];
      }
      i := i + 1;
    }
    assert text[i..] == "";
    if field != "" || row != [] {
      records := records + [row + [field]];
    }
  }

  // ------------------------------------------------------------------ writers (RFC 4180, section 2)

  /** A field together with the writer's choice to quote it. */
  datatype Cell = Cell(value: string, quoted: bool)

  datatype Ending = LF | CRLF

  datatype Line = Line(cells: seq<Cell>, ending: Ending)

  /** Terminated lines, then possibly one record that the text ends without terminating. */
  datatype Document = Document(lines: seq<Line>, last: Option<seq<Cell>>)

  predicate Special(c: char) {
    c == '"' || c == ',' || c == '\n' || c == '\r'
  }

  ghost predicate LegalCells(cells: seq<Cell>) {
    cells != [] && forall i :: 0 <= i < |cells| ==> LegalCell(cells[i])
  }

  /** Only a field without quotes, commas and line breaks may stand bare. */
  ghost predicate LegalCell(cell: Cell) {
    cell.quoted || forall i :: 0 <= i < |cell.value| ==> !Special(cell.value[i])
  }

  ghost predicate Legal(doc: Document) {
    && (forall i :: 0 <= i < |doc.lines| ==> LegalCells(doc.lines[i].cells))
    && (doc.last.Some? ==> LegalCells(doc.last.value))
  }

  function Escape(value: string): string {
    if value == "" then ""
    else (if value[0] == '"' then ['"', '"'] else [value[0]]) + Escape(value[1..])
  }

  function WriteCell(cell: Cell): string {
    if cell.quoted then ['"'] + Escape(cell.value) + ['"'] else cell.value
  }

  function WriteCells(cells: seq<Cell>): string
    requires cells != []
  {
    if |cells| == 1 then WriteCell(cells[0]) else WriteCell(cells[0]) + [','] + WriteCells(cells[1..])
  }

  function WriteEnding(e: Ending): string {
    match e case LF => "\n" case CRLF => "\r\n"
  }

  function Write(doc: Document): string
    requires forall i :: 0 <= i < |doc.lines| ==> doc.lines[i].cells != []
    requires doc.last.Some? ==> doc.last.value != []
    decreases |doc.lines|
  {
    if doc.lines == [] then
      match doc.last case None => "" case Some(cells) => WriteCells(cells)
    else
      var line := doc.lines[0];
      WriteCells(line.cells) + WriteEnding(line.ending) + Write(doc.(lines := doc.lines[1..]))
  }

  function Values(cells: seq<Cell>): seq<string> {
    if cells == [] then [] else [cells[0].value] + Values(cells[1..])
  }

  function Content(doc: Document): seq<seq<string>>
    decreases |doc.lines|
  {
    if doc.lines != [] then [Values(doc.lines[0].cells)] + Content(doc.(lines := doc.lines[1..]))
    else match doc.last case None => [] case Some(cells) => [Values(cells)]
  }

  // ------------------------------------------------------------------ inversion

  lemma {:induction false} ReadEscaped(value: string, rest: string, s: Scan)
    requires s.inQuotes && (rest == "" || rest[0] != '"')
    ensures ScanFrom(Escape(value) + ['"'] + rest, s)
            == ScanFrom(rest, s.(field := s.field + value, inQuotes := false))
    decreases |value|
  {
    var text := Escape(value) + ['"'] + rest;
    if value == "" {
      assert text[1..] == rest;
      assert s.field + value == s.field;
    } else {
      var tail := Escape(value[1..]) + ['"'] + rest;
      ReadEscaped(value[1..], rest, s.(field := s.field + [value[0]]));
      assert s.field + [value[0]] + value[1..] == s.field + value;
      if value[0] == '"' {
        assert text[2..] == tail;
      } else {
        assert text[1..] == tail;
      }
    }
  }

  lemma {:induction false} ReadBare(value: string, rest: string, s: Scan)
    requires !s.inQuotes && forall i :: 0 <= i < |value| ==> !Special(value[i])
    ensures ScanFrom(value + rest, s) == ScanFrom(rest, s.(field := s.field + value))
    decreases |value|
  {
    if value == "" {
      assert value + rest == rest;
      assert s.field + value == s.field;
    } else {
      assert (value + rest)[1..] == value[1..] + rest;
      ReadBare(value[1..], rest, s.(field := s.field + [value[0]]));
      assert s.field + [value[0]] + value[1..] == s.field + value;
    }
  }

  lemma ReadCell(cell: Cell, rest: string, s: Scan)
    requires LegalCell(cell) && !s.inQuotes && s.field == "" && (rest == "" || rest[0] != '"')
    ensures ScanFrom(WriteCell(cell) + rest, s) == ScanFrom(rest, s.(field := cell.value))
  {
    assert "" + cell.value == cell.value;
    if cell.quoted {
      var text := WriteCell(cell) + rest;
      assert text[1..] == Escape(cell.value) + ['"'] + rest;
      ReadEscaped(cell.value, rest, s.(inQuotes := true));
    } else {
      ReadBare(cell.value, rest, s);
    }
  }

  /** The state in which reading a written record leaves all its fields but the last in the row. */
  function Pending(s: Scan, cells: seq<Cell>): Scan
    requires cells != []
    decreases |cells|
  {
    var read := s.(field := cells[0].value);
    if |cells| == 1 then read else Pending(read.PushField(), cells[1..])
  }

  lemma {:induction false} PendingRow(s: Scan, cells: seq<Cell>)
    requires cells != []
    ensures var p := Pending(s, cells);
            p.row + [p.field] == s.row + Values(cells) && p.records == s.records && p.inQuotes == s.inQuotes
    decreases |cells|
  {
    if |cells| > 1 {
      var next := s.(field := cells[0].value).PushField();
      PendingRow(next, cells[1..]);
      PrependValue(s.row, cells);
    } else {
      assert Values(cells) == [cells[0].value];
    }
  }

  lemma PrependValue(row: seq<string>, cells: seq<Cell>)
    requires cells != []
    ensures row + [cells[0].value] + Values(cells[1..]) == row + Values(cells)
  {
  }

  /** Nothing is pending exactly when the record is one empty field. */
  lemma NothingPending(s: Scan, cells: seq<Cell>)
    requires cells != [] && s.row == []
    ensures Pending(s, cells).row == [] && Pending(s, cells).field == "" <==> |cells| == 1 && cells[0].value == ""
  {
    if |cells| > 1 {
      PendingRow(s, cells);
      ValuesLength(cells);
    }
  }

  lemma {:induction false} ValuesLength(cells: seq<Cell>)
    ensures |Values(cells)| == |cells|
    decreases |cells|
  {
    if cells != [] {
      ValuesLength(cells[1..]);
    }
  }

  lemma {:induction false} ReadCells(cells: seq<Cell>, rest: string, s: Scan)
    requires LegalCells(cells) && !s.inQuotes && s.field == "" && (rest == "" || rest[0] != '"')
    ensures ScanFrom(WriteCells(cells) + rest, s) == ScanFrom(rest, Pending(s, cells))
    decreases |cells|
  {
    var first := cells[0];
    if |cells| == 1 {
      ReadCell(first, rest, s);
    } else {
      var more := [','] + (WriteCells(cells[1..]) + rest);
      assert WriteCells(cells) + rest == WriteCell(first) + more;
      ReadCell(first, more, s);
      var read := s.(field := first.value);
      ReadComma(WriteCells(cells[1..]) + rest, read);
      ReadCells(cells[1..], rest, read.PushField());
    }
  }

  lemma ReadComma(rest: string, s: Scan)
    requires !s.inQuotes
    ensures ScanFrom([','] + rest, s) == ScanFrom(rest, s.PushField())
  {
    assert ([','] + rest)[1..] == rest;
  }

  lemma ReadEnding(ending: Ending, rest: string, s: Scan)
    requires !s.inQuotes
    ensures ScanFrom(WriteEnding(ending) + rest, s) == ScanFrom(rest, s.PushRow())
  {
    var text := WriteEnding(ending) + rest;
    if ending.CRLF? {
      assert text[1..] == ['\n'] + rest;
      assert text[1..][1..] == rest;
    } else {
      assert text[1..] == rest;
    }
  }

  lemma ReadLine(line: Line, rest: string, records: seq<seq<string>>)
    requires LegalCells(line.cells)
    ensures ScanFrom(WriteCells(line.cells) + WriteEnding(line.ending) + rest, Scan(records, [], "", false))
            == ScanFrom(rest, Scan(records + [Values(line.cells)], [], "", false))
  {
    var s := Scan(records, [], "", false);
    var more := WriteEnding(line.ending) + rest;
    assert WriteCells(line.cells) + WriteEnding(line.ending) + rest == WriteCells(line.cells) + more;
    ReadCells(line.cells, more, s);
    PendingRow(s, line.cells);
    ReadEnding(line.ending, rest, Pending(s, line.cells));
    assert [] + Values(line.cells) == Values(line.cells);
  }

  /** The one text shape whose last record is lost: an unterminated record of a single empty field. */
  predicate EndsInEmptyField(doc: Document) {
    doc.last.Some? && |doc.last.value| == 1 && doc.last.value[0].value == ""
  }

  /** What reading a written document returns. */
  function Survivors(doc: Document): seq<seq<string>> {
    Content(if EndsInEmptyField(doc) then doc.(last := None) else doc)
  }

  lemma SurvivorsStep(doc: Document)
    requires doc.lines != []
    ensures Survivors(doc) == [Values(doc.lines[0].cells)] + Survivors(doc.(lines := doc.lines[1..]))
  {
  }

  lemma ReadLast(cells: seq<Cell>, records: seq<seq<string>>)
    requires LegalCells(cells)
    ensures Finish(ScanFrom(WriteCells(cells), Scan(records, [], "", false)))
            == records + if |cells| == 1 && cells[0].value == "" then [] else [Values(cells)]
  {
    var s := Scan(records, [], "", false);
    assert WriteCells(cells) + "" == WriteCells(cells);
    ReadCells(cells, "", s);
    PendingRow(s, cells);
    NothingPending(s, cells);
    assert ScanFrom("", Pending(s, cells)) == Pending(s, cells);
    assert [] + Values(cells) == Values(cells);
    hide ScanFrom, WriteCells, Pending, Values;
  }

  lemma {:induction false} ReadDocument(doc: Document, records: seq<seq<string>>)
    requires Legal(doc)
    ensures Finish(ScanFrom(Write(doc), Scan(records, [], "", false))) == records + Survivors(doc)
    decreases |doc.lines|
  {
    if doc.lines == [] {
      if doc.last.Some? {
        ReadLast(doc.last.value, records);
      }
    } else {
      var rest := doc.(lines := doc.lines[1..]);
      var first := Values(doc.lines[0].cells);
      ReadLine(doc.lines[0], Write(rest), records);
      ReadDocument(rest, records + [first]);
      SurvivorsStep(doc);
      assert records + [first] + Survivors(rest) == records + ([first] + Survivors(rest));
    }
  }

  lemma {:induction false} ContentLength(doc: Document)
    ensures |Content(doc)| == |doc.lines| + if doc.last.Some? then 1 else 0
    decreases |doc.lines|
  {
    if doc.lines != [] {
      ContentLength(doc.(lines := doc.lines[1..]));
    }
  }

  /** Reading inverts writing exactly when the text does not end in a lone empty field. */
  lemma ReadingInvertsWriting(doc: Document)
    requires Legal(doc)
    ensures Records(Write(doc)) == Content(doc) <==> !EndsInEmptyField(doc)
    ensures EndsInEmptyField(doc) ==> Records(Write(doc)) == Content(doc.(last := None))
  {
    ReadDocument(doc, []);
    assert [] + Survivors(doc) == Survivors(doc);
    ContentLength(doc);
    ContentLength(doc.(last := None));
    hide Content, Write, ScanFrom, Finish;
  }

  // ------------------------------------------------------------------ headers and rows

  /** The characters that the language's string trimming removes. */
  predicate IsSpace(c: char) {
    || '\t' <= c <= '\r' || c == ' ' || c == '\U{00A0}' || c == '\U{1680}' || '\U{2000}' <= c <= '\U{200A}'
    || c == '\U{2028}' || c == '\U{2029}' || c == '\U{202F}' || c == '\U{205F}' || c == '\U{3000}' || c == '\U{FEFF}'
  }

  function TrimStart(s: string): string {
    if s != "" && IsSpace(s[0]) then TrimStart(s[1..]) else s
  }

  function TrimEnd(s: string): string {
    if s != "" && IsSpace(s[|s| - 1]) then TrimEnd(s[..|s| - 1]) else s
  }

  function Trim(s: string): string {
    TrimEnd(TrimStart(s))
  }

  datatype Parsed = Parsed(headers: seq<string>, rows: seq<map<string, string>>)

  predicate NonEmpty(record: seq<string>) {
    exists i :: 0 <= i < |record| && Trim(record[i]) != ""
  }

  function DropEmpty(records: seq<seq<string>>): seq<seq<string>> {
    if records == [] then []
    else (if NonEmpty(records[0]) then [records[0]] else []) + DropEmpty(records[1..])
  }

  function TrimAll(cells: seq<string>): seq<string> {
    seq(|cells|, i requires 0 <= i < |cells| => Trim(cells[i]))
  }

  /** The first `n` columns of a record keyed by header; a repeated header takes its last column. */
  function RowOf(headers: seq<string>, record: seq<string>, n: nat): map<string, string>
    requires n <= |headers|
  {
    if n == 0 then map[]
    else RowOf(headers, record, n - 1)[headers[n - 1] := if n - 1 < |record| then Trim(record[n - 1]) else ""]
  }

  function Table(records: seq<seq<string>>): Parsed {
    var full := DropEmpty(records);
    if full == [] then Parsed([], [])
    else
      var headers := TrimAll(full[0]);
      Parsed(headers, seq(|full| - 1, i requires 0 <= i < |full| - 1 => RowOf(headers, full[i + 1], |headers|)))
  }

  function Parse(text: string): Parsed {
    Table(Records(text))
  }

  method ParseCsv(text: string) returns (parsed: Parsed)
    ensures parsed == Parse(text)
  {
    var records := ReadRecords(text);
    parsed := Table(records);
  }

  /** Looking a column up by a header that is not repeated later finds that column's trimmed cell. */
  lemma {:induction false} RowLookup(headers: seq<string>, record: seq<string>, n: nat, k: nat)
    requires k < n <= |headers| && forall j :: k < j < n ==> headers[j] != headers[k]
    ensures headers[k] in RowOf(headers, record, n)
    ensures RowOf(headers, record, n)[headers[k]] == if k < |record| then Trim(record[k]) else ""
  {
    if k < n - 1 {
      RowLookup(headers, record, n - 1, k);
    }
  }

  ghost predicate AllSpace(s: string) {
    forall i :: 0 <= i < |s| ==> IsSpace(s[i])
  }

  lemma {:induction false} TrimStartIsCore(s: string) returns (before: string)
    ensures s == before + TrimStart(s) && AllSpace(before)
    ensures TrimStart(s) != "" ==> !IsSpace(TrimStart(s)[0])
  {
    before := "";
    if s != "" && IsSpace(s[0]) {
      var rest := TrimStartIsCore(s[1..]);
      before := [s[0]] + rest;
      assert s == [s[0]] + s[1..];
    }
  }

  lemma {:induction false} TrimEndIsCore(s: string) returns (after: string)
    ensures s == TrimEnd(s) + after && AllSpace(after)
    ensures TrimEnd(s) != "" ==> !IsSpace(TrimEnd(s)[|TrimEnd(s)| - 1])
  {
    after := "";
    if s != "" && IsSpace(s[|s| - 1]) {
      var rest := TrimEndIsCore(s[..|s| - 1]);
      after := rest + [s[|s| - 1]];
      assert s == s[..|s| - 1] + [s[|s| - 1]];
    }
  }

  /** Trimming takes the spaces off both ends and nothing else. */
  lemma TrimIsCore(s: string) returns (before: string, after: string)
    ensures s == before + Trim(s) + after && AllSpace(before) && AllSpace(after)
    ensures Trim(s) != "" ==> !IsSpace(Trim(s)[0]) && !IsSpace(Trim(s)[|Trim(s)| - 1])
  {
    before := TrimStartIsCore(s);
    after := TrimEndIsCore(TrimStart(s));
    assert Trim(s) != "" ==> Trim(s)[0] == TrimStart(s)[0];
  }

  /** A record without a cell that holds more than spaces. */
  ghost predicate Blank(record: seq<string>) {
    forall i :: 0 <= i < |record| ==> AllSpace(record[i])
  }

  lemma BlankIffNotNonEmpty(record: seq<string>)
    ensures Blank(record) <==> !NonEmpty(record)
  {
    forall i | 0 <= i < |record|
      ensures AllSpace(record[i]) <==> Trim(record[i]) == ""
    {
      var before, after := TrimIsCore(record[i]);
      if Trim(record[i]) != "" {
        assert record[i][|before|] == Trim(record[i])[0];
      }
    }
  }

  /** A record under these headers: missing cells are blank, and a repeated header takes its last column. */
  ghost predicate RowUnder(headers: seq<string>, record: seq<string>, row: map<string, string>) {
    && row.Keys == Elements(headers)
    && forall k :: 0 <= k < |headers| && (forall j :: k < j < |headers| ==> headers[j] != headers[k]) ==>
         headers[k] in row && row[headers[k]] == if k < |record| then Trim(record[k]) else ""
  }

  lemma RowOfIsUnder(headers: seq<string>, record: seq<string>)
    ensures RowUnder(headers, record, RowOf(headers, record, |headers|))
  {
    RowKeys(headers, record, |headers|);
    assert headers[..|headers|] == headers;
    forall k | 0 <= k < |headers| && (forall j :: k < j < |headers| ==> headers[j] != headers[k])
      ensures headers[k] in RowOf(headers, record, |headers|)
      ensures RowOf(headers, record, |headers|)[headers[k]] == if k < |record| then Trim(record[k]) else ""
    {
      RowLookup(headers, record, |headers|, k);
    }
  }

  lemma {:induction false} RowKeys(headers: seq<string>, record: seq<string>, n: nat)
    requires n <= |headers|
    ensures RowOf(headers, record, n).Keys == Elements(headers[..n])
  {
    if n > 0 {
      RowKeys(headers, record, n - 1);
      assert headers[..n] == headers[..n - 1] + [headers[n - 1]];
    }
  }

  /**
   * A table is read record by record: blank records are skipped wherever they stand, the first other one is
   * the header, and each later one a row under it.
   */
  lemma TableRowByRow(first: seq<string>, record: seq<string>, rest: seq<seq<string>>)
    ensures Table([]) == Parsed([], [])
    ensures Blank(first) ==> Table([first] + rest) == Table(rest)
    ensures !Blank(first) ==> |Table([first] + rest).headers| == |first|
    ensures !Blank(first) ==> forall i :: 0 <= i < |first| ==> Table([first] + rest).headers[i] == Trim(first[i])
    ensures !Blank(first) ==> Table([first]).rows == []
    ensures !Blank(first) && Blank(record) ==> Table([first, record] + rest) == Table([first] + rest)
    ensures !Blank(first) && !Blank(record) ==>
              && Table([first, record] + rest).rows != []
              && Table([first, record] + rest).rows[1..] == Table([first] + rest).rows
              && RowUnder(Table([first] + rest).headers, record, Table([first, record] + rest).rows[0])
  {
    BlankIffNotNonEmpty(first);
    BlankIffNotNonEmpty(record);
    hide Blank, NonEmpty, RowUnder;
    assert ([first] + rest)[1..] == rest;
    assert ([first, record] + rest)[1..] == [record] + rest && ([record] + rest)[1..] == rest;
    assert [first][1..] == [];
    if NonEmpty(first) {
      RowOfIsUnder(TrimAll(first), record);
      var full := DropEmpty(rest);
      assert DropEmpty([first] + rest) == [first] + full;
      if NonEmpty(record) {
        assert DropEmpty([first, record] + rest) == [first, record] + full;
        assert Table([first, record] + rest).rows[1..] == Table([first] + rest).rows;
      } else {
        assert DropEmpty([first, record] + rest) == [first] + full;
      }
    }
  }
}
