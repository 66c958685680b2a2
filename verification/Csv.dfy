/** The import's CSV scanner, the two CSV writers, and what the one reads back
    from the others. */
module Csv {
  import opened Text

  // ----- scanning a line -----

  /** The fields of the rest of a line, given the field begun and whether the
      scanner is inside quotes. */
  function Scan(line: string, current: string, quoted: bool): seq<string>
    decreases |line|
  {
    if line == [] then [Trim(current)]
    else if line[0] == '"' && quoted && |line| >= 2 && line[1] == '"' then Scan(line[2..], current + "\"", quoted)
    else if line[0] == '"' then Scan(line[1..], current, !quoted)
    else if line[0] == ',' && !quoted then [Trim(current)] + Scan(line[1..], "", false)
    else Scan(line[1..], current + [line[0]], quoted)
  }

  method SplitCsvLine(line: string) returns (values: seq<string>)
    ensures values == Scan(line, "", false)
  {
    hide Trim;
    values := [];
    var current, quoted, index := "", false, 0;
    while index < |line|
      invariant index <= |line|
      invariant values + Scan(line[index..], current, quoted) == Scan(line, "", false)
    {
      assert line[index..][1..] == line[index + 1..];
      var c := line[index];
      if c == '"' && quoted && index + 1 < |line| && line[index + 1] == '"' {
        assert line[index..][2..] == line[index + 2..];
        current := current + "\"";
        index := index + 1;
      } else if c == '"' {
        quoted := !quoted;
      } else if c == ',' && !quoted {
        values := values + [Trim(current)];
        current := "";
      } else {
        current := current + [c];
      }
      index := index + 1;
    }
    assert line[index..] == [];
    values := values + [Trim(current)];
  }

  // ----- writing a line -----

  function DoubleQuotes(s: string): string {
    if s == [] then [] else (if s[0] == '"' then "\"\"" else [s[0]]) + DoubleQuotes(s[1..])
  }

  function Quote(s: string): string {
    "\"" + DoubleQuotes(s) + "\""
  }

  /** The export writer quotes only when it must. */
  function CsvEscape(s: string): string {
    if '"' in s || ',' in s || '\n' in s then Quote(s) else s
  }

  /** The two writers: the problem-rows report quotes every cell. */
  datatype Writer = Export | ProblemRows

  function Cell(w: Writer, s: string): string {
    if w == Export then CsvEscape(s) else Quote(s)
  }

  function Cells(w: Writer, fields: seq<string>): seq<string> {
    if fields == [] then [] else [Cell(w, fields[0])] + Cells(w, fields[1..])
  }

  function Line(w: Writer, fields: seq<string>): string {
    Join(Cells(w, fields), ",")
  }

  function Trimmed(fields: seq<string>): seq<string> {
    if fields == [] then [] else [Trim(fields[0])] + Trimmed(fields[1..])
  }

  lemma {:induction false} ScanQuotedBody(s: string, rest: string, current: string)
    requires rest == [] || rest[0] != '"'
    ensures Scan(DoubleQuotes(s) + "\"" + rest, current, true) == Scan(rest, current + s, false)
    decreases |s|
  {
    hide Trim;
    var all := DoubleQuotes(s) + "\"" + rest;
    if s == [] {
      assert all == "\"" + rest && all[1..] == rest && current + s == current;
    } else {
      var more := DoubleQuotes(s[1..]) + "\"" + rest;
      assert current + s == (current + [s[0]]) + s[1..];
      if s[0] == '"' {
        assert all == "\"\"" + more && all[2..] == more;
      } else {
        assert all == [s[0]] + more && all[1..] == more;
      }
      ScanQuotedBody(s[1..], rest, current + [s[0]]);
    }
  }

  lemma {:induction false} ScanPlain(s: string, rest: string, current: string)
    requires '"' !in s && ',' !in s
    ensures Scan(s + rest, current, false) == Scan(rest, current + s, false)
    decreases |s|
  {
    hide Trim;
    if s == [] {
      assert s + rest == rest && current + s == current;
    } else {
      assert s == [s[0]] + s[1..];
      assert (s + rest)[0] == s[0] && (s + rest)[1..] == s[1..] + rest;
      assert current + s == (current + [s[0]]) + s[1..];
      ScanPlain(s[1..], rest, current + [s[0]]);
    }
  }

  /** Scanning a written cell gives the field back, whichever writer wrote it. */
  lemma ScanCell(w: Writer, s: string, rest: string)
    requires rest == [] || rest[0] == ','
    ensures Scan(Cell(w, s) + rest, "", false) == Scan(rest, s, false)
  {
    hide Trim, DoubleQuotes;
    if w == Export && !('"' in s || ',' in s || '\n' in s) {
      ScanPlain(s, rest, "");
      assert "" + s == s;
    } else {
      var all := Quote(s) + rest;
      assert all == "\"" + (DoubleQuotes(s) + "\"" + rest);
      assert all[1..] == DoubleQuotes(s) + "\"" + rest;
      ScanQuotedBody(s, rest, "");
      assert "" + s == s;
    }
  }

  /** For every non-empty list of fields, scanning the written line gives back each
      field trimmed. */
  lemma {:induction false} LineRoundTrip(w: Writer, fields: seq<string>)
    requires fields != []
    ensures Scan(Line(w, fields), "", false) == Trimmed(fields)
    decreases |fields|
  {
    hide Trim, Cell;
    var first := Cell(w, fields[0]);
    if |fields| == 1 {
      assert fields[1..] == [] && Cells(w, fields) == [first] && Line(w, fields) == first;
      assert Trimmed(fields) == [Trim(fields[0])];
      assert first + [] == first;
      ScanCell(w, fields[0], "");
    } else {
      var rest := Line(w, fields[1..]);
      CellsLength(w, fields[1..]);
      assert Cells(w, fields) == [first] + Cells(w, fields[1..]);
      assert Cells(w, fields)[1..] == Cells(w, fields[1..]);
      assert Line(w, fields) == first + ("," + rest);
      ScanCell(w, fields[0], "," + rest);
      assert ("," + rest)[1..] == rest;
      LineRoundTrip(w, fields[1..]);
    }
  }

  lemma {:induction false} CellsLength(w: Writer, fields: seq<string>)
    ensures |Cells(w, fields)| == |fields|
  {
    hide Cell;
    if fields != [] { CellsLength(w, fields[1..]); }
  }

  // ----- whole documents -----

  /** Splitting at line feeds, each with the carriage return before it if any. */
  function SplitLines(s: string, current: string): seq<string>
    decreases |s|
  {
    if s == [] then [current]
    else if s[0] == '\n' then [current] + SplitLines(s[1..], "")
    else if s[0] == '\r' && |s| >= 2 && s[1] == '\n' then [current] + SplitLines(s[2..], "")
    else SplitLines(s[1..], current + [s[0]])
  }

  predicate NoBreak(s: string) {
    '\n' !in s && '\r' !in s
  }

  function NonBlank(lines: seq<string>): seq<string> {
    if lines == [] then [] else (if Trim(lines[0]) != "" then [lines[0]] else []) + NonBlank(lines[1..])
  }

  /** `Object.fromEntries`: each header with the value at its position, or the
      empty text; a later header of the same name wins. */
  function Entries(headers: seq<string>, values: seq<string>): map<string, string> {
    if headers == [] then map[]
    else
      map[headers[0] := if values == [] then "" else values[0]]
      + Entries(headers[1..], if values == [] then [] else values[1..])
  }

  function Records(headers: seq<string>, lines: seq<string>): seq<map<string, string>> {
    if lines == [] then [] else [Entries(headers, Scan(lines[0], "", false))] + Records(headers, lines[1..])
  }

  function ParseCsv(source: string): seq<map<string, string>> {
    var lines := NonBlank(SplitLines(source, ""));
    if lines == [] then []
    else Records(Trimmed(Scan(lines[0], "", false)), lines[1..])
  }

  function Lines(w: Writer, rows: seq<seq<string>>): seq<string> {
    if rows == [] then [] else [Line(w, rows[0])] + Lines(w, rows[1..])
  }

  /** A document: the header line unescaped, then the rows; the problem-rows
      report ends with a line feed. */
  function Document(w: Writer, headers: seq<string>, rows: seq<seq<string>>): string {
    Join([Join(headers, ",")] + Lines(w, rows), "\n") + if w == ProblemRows then "\n" else ""
  }

  function Rows(headers: seq<string>, rows: seq<seq<string>>): seq<map<string, string>> {
    if rows == [] then [] else [Entries(headers, Trimmed(rows[0]))] + Rows(headers, rows[1..])
  }

  /** A header that needs no quoting and no trimming. */
  predicate PlainHeader(h: string) {
    '"' !in h && ',' !in h && NoBreak(h) && Trim(h) == h
  }

  predicate CleanRow(headers: seq<string>, row: seq<string>) {
    |row| == |headers| && forall i :: 0 <= i < |row| ==> NoBreak(row[i])
  }

  predicate CleanTable(headers: seq<string>, rows: seq<seq<string>>) {
    && (forall i :: 0 <= i < |headers| ==> PlainHeader(headers[i]))
    && (forall i :: 0 <= i < |rows| ==> CleanRow(headers, rows[i]))
  }

  lemma {:induction false} SplitOneLine(line: string, rest: string, current: string)
    requires NoBreak(line)
    ensures SplitLines(line + "\n" + rest, current) == [current + line] + SplitLines(rest, "")
    decreases |line|
  {
    var all := line + "\n" + rest;
    if line == [] {
      assert all == "\n" + rest && all[1..] == rest && current + line == current;
    } else {
      assert all[0] == line[0] && line[0] in line;
      assert all[1..] == line[1..] + "\n" + rest;
      assert current + line == (current + [line[0]]) + line[1..];
      assert forall c :: c in line[1..] ==> c in line;
      SplitOneLine(line[1..], rest, current + [line[0]]);
    }
  }

  lemma {:induction false} SplitLastLine(line: string, current: string)
    requires NoBreak(line)
    ensures SplitLines(line, current) == [current + line]
    decreases |line|
  {
    if line == [] {
      assert current + line == current;
    } else {
      assert line[0] in line;
      assert current + line == (current + [line[0]]) + line[1..];
      assert forall c :: c in line[1..] ==> c in line;
      SplitLastLine(line[1..], current + [line[0]]);
    }
  }

  lemma {:induction false} SplitJoined(lines: seq<string>, tail: bool)
    requires lines != [] && forall i :: 0 <= i < |lines| ==> NoBreak(lines[i])
    ensures SplitLines(Join(lines, "\n") + (if tail then "\n" else ""), "") == lines + (if tail then [""] else [])
    decreases |lines|
  {
    hide NoBreak;
    var end := if tail then "\n" else "";
    if |lines| == 1 {
      assert "" + lines[0] == lines[0] && lines == [lines[0]];
      if tail {
        assert lines[0] + "\n" + "" == lines[0] + end;
        SplitOneLine(lines[0], "", "");
      } else {
        assert lines[0] + end == lines[0];
        SplitLastLine(lines[0], "");
      }
    } else {
      var rest := Join(lines[1..], "\n") + end;
      assert Join(lines, "\n") + end == lines[0] + "\n" + rest;
      SplitOneLine(lines[0], rest, "");
      assert "" + lines[0] == lines[0];
      SplitJoined(lines[1..], tail);
      assert lines == [lines[0]] + lines[1..];
    }
  }

  lemma {:induction false} NonBlankAll(lines: seq<string>, tail: bool)
    requires forall i :: 0 <= i < |lines| ==> Trim(lines[i]) != ""
    ensures NonBlank(lines + (if tail then [""] else [])) == lines
    decreases |lines|
  {
    hide Trim;
    var all := lines + if tail then [""] else [];
    if lines == [] {
      assert Trim("") == "" by { EmptyTrims(); }
      if tail { assert all == [""] && all[1..] == []; }
    } else {
      assert all[0] == lines[0] && all[1..] == lines[1..] + if tail then [""] else [];
      NonBlankAll(lines[1..], tail);
      assert lines == [lines[0]] + lines[1..];
    }
  }

  lemma {:induction false} TrimStartKeeps(s: string, c: char)
    requires c in s && !IsSpace(c)
    ensures c in TrimStart(s)
    decreases |s|
  {
    if IsSpace(s[0]) {
      assert s == [s[0]] + s[1..];
      TrimStartKeeps(s[1..], c);
    }
  }

  lemma {:induction false} TrimEndKeeps(s: string, c: char)
    requires c in s && !IsSpace(c)
    ensures c in TrimEnd(s)
    decreases |s|
  {
    if IsSpace(s[|s| - 1]) {
      assert s == s[..|s| - 1] + [s[|s| - 1]];
      TrimEndKeeps(s[..|s| - 1], c);
    }
  }

  lemma TrimKeeps(s: string, c: char)
    requires c in s && !IsSpace(c)
    ensures Trim(s) != ""
  {
    hide TrimStart, TrimEnd;
    TrimStartKeeps(s, c);
    TrimEndKeeps(s, c);
    TrimEndKeeps(TrimStart(s), c);
    TrimStartKeeps(TrimEnd(s), c);
  }

  /** A line of two or more cells has a comma, so it is not blank. */
  lemma JoinHasComma(parts: seq<string>)
    requires |parts| >= 2
    ensures Trim(Join(parts, ",")) != ""
  {
    hide Trim;
    assert Join(parts, ",")[|parts[0]|] == ',';
    TrimKeeps(Join(parts, ","), ',');
  }

  lemma {:induction false} DoubledNoBreak(s: string)
    requires NoBreak(s)
    ensures NoBreak(DoubleQuotes(s))
  {
    if s != [] {
      assert s[0] in s && forall c :: c in s[1..] ==> c in s;
      DoubledNoBreak(s[1..]);
    }
  }

  lemma {:induction false} JoinNoBreak(parts: seq<string>)
    requires forall i :: 0 <= i < |parts| ==> NoBreak(parts[i])
    ensures NoBreak(Join(parts, ","))
    decreases |parts|
  {
    if |parts| > 1 { JoinNoBreak(parts[1..]); }
  }

  lemma {:induction false} CellsNoBreak(w: Writer, fields: seq<string>)
    requires forall i :: 0 <= i < |fields| ==> NoBreak(fields[i])
    ensures forall i :: 0 <= i < |Cells(w, fields)| ==> NoBreak(Cells(w, fields)[i])
    decreases |fields|
  {
    hide NoBreak, Cell;
    if fields != [] {
      CellsNoBreak(w, fields[1..]);
      CellNoBreak(w, fields[0]);
    }
  }

  lemma CellNoBreak(w: Writer, s: string)
    requires NoBreak(s)
    ensures NoBreak(Cell(w, s))
  {
    DoubledNoBreak(s);
  }

  lemma {:induction false} LinesClean(w: Writer, headers: seq<string>, rows: seq<seq<string>>)
    requires |headers| >= 2 && forall i :: 0 <= i < |rows| ==> CleanRow(headers, rows[i])
    ensures |Lines(w, rows)| == |rows|
    ensures forall i :: 0 <= i < |rows| ==> NoBreak(Lines(w, rows)[i]) && Trim(Lines(w, rows)[i]) != ""
    decreases |rows|
  {
    hide Trim, NoBreak, Cell;
    if rows != [] {
      assert CleanRow(headers, rows[0]);
      CellsLength(w, rows[0]);
      CellsNoBreak(w, rows[0]);
      JoinNoBreak(Cells(w, rows[0]));
      JoinHasComma(Cells(w, rows[0]));
      assert forall i :: 0 <= i < |rows| - 1 ==> rows[1..][i] == rows[i + 1];
      LinesClean(w, headers, rows[1..]);
    }
  }

  lemma {:induction false} RecordsAreRows(w: Writer, headers: seq<string>, rows: seq<seq<string>>)
    requires headers != [] && forall i :: 0 <= i < |rows| ==> |rows[i]| == |headers|
    ensures Records(headers, Lines(w, rows)) == Rows(headers, rows)
    decreases |rows|
  {
    hide Trim, Scan, Line, Entries;
    if rows != [] {
      LineRoundTrip(w, rows[0]);
      assert forall i :: 0 <= i < |rows| - 1 ==> rows[1..][i] == rows[i + 1];
      RecordsAreRows(w, headers, rows[1..]);
      assert Lines(w, rows)[1..] == Lines(w, rows[1..]);
    }
  }

  /** The unescaped header line scans back to the headers themselves. */
  lemma HeaderLine(headers: seq<string>)
    requires headers != [] && forall i :: 0 <= i < |headers| ==> PlainHeader(headers[i])
    ensures Trimmed(Scan(Join(headers, ","), "", false)) == headers
  {
    hide Trim, Scan, CsvEscape;
    PlainCells(headers);
    LineRoundTrip(Export, headers);
    PlainTrimmed(headers);
  }

  lemma {:induction false} PlainCells(headers: seq<string>)
    requires forall i :: 0 <= i < |headers| ==> PlainHeader(headers[i])
    ensures Cells(Export, headers) == headers
    decreases |headers|
  {
    hide Trim;
    if headers != [] {
      assert PlainHeader(headers[0]);
      PlainCells(headers[1..]);
    }
  }

  lemma {:induction false} PlainTrimmed(headers: seq<string>)
    requires forall i :: 0 <= i < |headers| ==> PlainHeader(headers[i])
    ensures Trimmed(headers) == headers
    decreases |headers|
  {
    hide Trim;
    if headers != [] {
      assert PlainHeader(headers[0]);
      PlainTrimmed(headers[1..]);
    }
  }

  /** A whole document with two or more plain headers parses back to its rows, each
      field trimmed, for both writers and any number of rows. */
  lemma DocumentRoundTrip(w: Writer, headers: seq<string>, rows: seq<seq<string>>)
    requires |headers| >= 2 && CleanTable(headers, rows)
    ensures ParseCsv(Document(w, headers, rows)) == Rows(headers, rows)
  {
    hide Trim, Scan, NoBreak, PlainHeader, Line, Entries;
    var head := Join(headers, ",");
    var lines := [head] + Lines(w, rows);
    LinesClean(w, headers, rows);
    HeadersNoBreak(headers);
    JoinNoBreak(headers);
    JoinHasComma(headers);
    forall i | 0 <= i < |lines| ensures NoBreak(lines[i]) && Trim(lines[i]) != "" {
      if i > 0 { assert lines[i] == Lines(w, rows)[i - 1]; }
    }
    SplitJoined(lines, w == ProblemRows);
    NonBlankAll(lines, w == ProblemRows);
    HeaderLine(headers);
    RecordsAreRows(w, headers, rows);
    assert lines[1..] == Lines(w, rows);
    assert Document(w, headers, rows) == Join(lines, "\n") + if w == ProblemRows then "\n" else "";
  }

  lemma HeadersNoBreak(headers: seq<string>)
    requires forall i :: 0 <= i < |headers| ==> PlainHeader(headers[i])
    ensures forall i :: 0 <= i < |headers| ==> NoBreak(headers[i])
  {
    hide Trim;
    forall i | 0 <= i < |headers| ensures NoBreak(headers[i]) { assert PlainHeader(headers[i]); }
  }

  predicate Distinct(headers: seq<string>) {
    forall i, j :: 0 <= i < j < |headers| ==> headers[i] != headers[j]
  }

  /** With distinct headers each one gives its own column. */
  lemma {:induction false} EntriesAt(headers: seq<string>, values: seq<string>, i: nat)
    requires Distinct(headers) && i < |headers| == |values|
    ensures headers[i] in Entries(headers, values) && Entries(headers, values)[headers[i]] == values[i]
    ensures forall h :: h in Entries(headers, values) ==> h in headers
    decreases |headers|
  {
    assert headers == [headers[0]] + headers[1..];
    if i > 0 {
      EntriesAt(headers[1..], values[1..], i - 1);
    } else {
      EntryKeys(headers[1..], values[1..]);
      assert headers[0] !in headers[1..];
    }
  }

  lemma {:induction false} EntryKeys(headers: seq<string>, values: seq<string>)
    ensures forall h :: h in Entries(headers, values) ==> h in headers
    decreases |headers|
  {
    if headers != [] {
      EntryKeys(headers[1..], if values == [] then [] else values[1..]);
      assert headers == [headers[0]] + headers[1..];
    }
  }

  /** Reading a written document cell by cell. */
  lemma CellReadsBack(w: Writer, headers: seq<string>, rows: seq<seq<string>>, r: nat, i: nat)
    requires |headers| >= 2 && CleanTable(headers, rows) && Distinct(headers)
    requires r < |rows| && i < |headers|
    ensures var parsed := ParseCsv(Document(w, headers, rows));
            && |parsed| == |rows| && headers[i] in parsed[r] && parsed[r][headers[i]] == Trim(rows[r][i])
  {
    hide Trim, ParseCsv, Document, PlainHeader, NoBreak, Entries;
    DocumentRoundTrip(w, headers, rows);
    RowsAt(headers, rows, r);
    assert CleanRow(headers, rows[r]);
    TrimmedAt(rows[r], i);
    EntriesAt(headers, Trimmed(rows[r]), i);
  }

  lemma {:induction false} RowsAt(headers: seq<string>, rows: seq<seq<string>>, r: nat)
    requires r < |rows|
    ensures |Rows(headers, rows)| == |rows| && Rows(headers, rows)[r] == Entries(headers, Trimmed(rows[r]))
    decreases |rows|
  {
    hide Entries, Trim;
    RowsLength(headers, rows);
    if r > 0 { RowsAt(headers, rows[1..], r - 1); }
  }

  lemma {:induction false} RowsLength(headers: seq<string>, rows: seq<seq<string>>)
    ensures |Rows(headers, rows)| == |rows|
    decreases |rows|
  {
    hide Entries, Trim;
    if rows != [] { RowsLength(headers, rows[1..]); }
  }

  lemma {:induction false} TrimmedAt(fields: seq<string>, i: nat)
    requires i < |fields|
    ensures |Trimmed(fields)| == |fields| && Trimmed(fields)[i] == Trim(fields[i])
    decreases |fields|
  {
    hide Trim;
    TrimmedLength(fields);
    if i > 0 { TrimmedAt(fields[1..], i - 1); }
  }

  lemma {:induction false} TrimmedLength(fields: seq<string>)
    ensures |Trimmed(fields)| == |fields|
    decreases |fields|
  {
    hide Trim;
    if fields != [] { TrimmedLength(fields[1..]); }
  }

  // ----- one column -----

  /** The rows of a one-column table whose line is not blank: the export writer
      leaves a blank cell bare, the report writer always quotes. */
  function Kept(w: Writer, rows: seq<seq<string>>): seq<seq<string>>
    decreases |rows|
  {
    if rows == [] then [] else (if Dropped(w, rows[0]) then [] else [rows[0]]) + Kept(w, rows[1..])
  }

  predicate Dropped(w: Writer, row: seq<string>) {
    w == Export && |row| == 1 && Trim(row[0]) == ""
  }

  predicate OneCell(row: seq<string>) {
    |row| == 1 && NoBreak(row[0])
  }

  lemma CellBlank(w: Writer, s: string)
    requires NoBreak(s)
    ensures Trim(Cell(w, s)) == "" <==> w == Export && Trim(s) == ""
  {
    hide Trim, DoubleQuotes;
    if w == ProblemRows || '"' in s || ',' in s {
      assert Quote(s)[0] == '"';
      TrimKeeps(Quote(s), '"');
      if '"' in s { TrimKeeps(s, '"'); } else if ',' in s { TrimKeeps(s, ','); }
    }
  }

  lemma OneCellLine(w: Writer, row: seq<string>)
    requires OneCell(row)
    ensures NoBreak(Line(w, row)) && (Trim(Line(w, row)) == "" <==> Dropped(w, row))
  {
    hide Trim, NoBreak, Cell;
    CellsLength(w, row);
    assert Cells(w, row) == [Cell(w, row[0])];
    CellBlank(w, row[0]);
    CellNoBreak(w, row[0]);
  }

  lemma {:induction false} NonBlankKept(w: Writer, rows: seq<seq<string>>)
    requires forall i :: 0 <= i < |rows| ==> OneCell(rows[i])
    ensures NonBlank(Lines(w, rows)) == Lines(w, Kept(w, rows))
    ensures |Lines(w, rows)| == |rows| && forall i :: 0 <= i < |rows| ==> NoBreak(Lines(w, rows)[i])
    decreases |rows|
  {
    hide Trim, NoBreak, Line, OneCell, Dropped;
    if rows != [] {
      var row := rows[0];
      OneCellLine(w, row);
      assert forall i :: 0 <= i < |rows| - 1 ==> rows[1..][i] == rows[i + 1];
      NonBlankKept(w, rows[1..]);
      assert Lines(w, rows)[1..] == Lines(w, rows[1..]);
      var kept := Kept(w, rows[1..]);
      assert Lines(w, rows)[0] == Line(w, row);
      if Dropped(w, row) {
        assert Kept(w, rows) == kept && NonBlank(Lines(w, rows)) == NonBlank(Lines(w, rows[1..]));
      } else {
        assert Kept(w, rows) == [row] + kept && ([row] + kept)[1..] == kept;
        assert NonBlank(Lines(w, rows)) == [Line(w, row)] + NonBlank(Lines(w, rows[1..]));
      }
    }
  }

  lemma {:induction false} NonBlankTail(lines: seq<string>, tail: bool)
    ensures NonBlank(lines + (if tail then [""] else [])) == NonBlank(lines)
    decreases |lines|
  {
    hide Trim;
    var all := lines + if tail then [""] else [];
    if lines == [] {
      EmptyTrims();
      if tail { assert all == [""] && all[1..] == []; }
    } else {
      assert all[0] == lines[0] && all[1..] == lines[1..] + if tail then [""] else [];
      NonBlankTail(lines[1..], tail);
    }
  }

  lemma {:induction false} KeptShape(w: Writer, rows: seq<seq<string>>)
    requires forall i :: 0 <= i < |rows| ==> OneCell(rows[i])
    ensures forall i :: 0 <= i < |Kept(w, rows)| ==> OneCell(Kept(w, rows)[i])
    ensures |Kept(w, rows)| <= |rows|
    ensures |Kept(w, rows)| == |rows| <==> forall i :: 0 <= i < |rows| ==> !Dropped(w, rows[i])
    ensures |Kept(w, rows)| == |rows| ==> Kept(w, rows) == rows
    decreases |rows|
  {
    hide OneCell, Dropped;
    if rows != [] {
      assert forall i :: 0 <= i < |rows| - 1 ==> rows[1..][i] == rows[i + 1];
      assert forall i :: 1 <= i < |rows| ==> rows[i] == rows[1..][i - 1];
      KeptShape(w, rows[1..]);
    }
  }

  /** A one-column document loses exactly its blank cells' rows in the export form
      and none in the report form, so it round-trips exactly when none is lost. */
  lemma OneColumnExact(w: Writer, h: string, rows: seq<seq<string>>)
    requires PlainHeader(h) && h != "" && forall i :: 0 <= i < |rows| ==> OneCell(rows[i])
    ensures ParseCsv(Document(w, [h], rows)) == Rows([h], Kept(w, rows))
    ensures ParseCsv(Document(w, [h], rows)) == Rows([h], rows) <==> forall i :: 0 <= i < |rows| ==> !Dropped(w, rows[i])
  {
    hide Trim, Scan, NoBreak, Line, Entries, Dropped;
    var lines := [h] + Lines(w, rows);
    NonBlankKept(w, rows);
    forall i | 0 <= i < |lines| ensures NoBreak(lines[i]) { if i > 0 { assert lines[i] == Lines(w, rows)[i - 1]; } }
    SplitJoined(lines, w == ProblemRows);
    NonBlankTail(lines, w == ProblemRows);
    assert lines[0] == h && lines[1..] == Lines(w, rows);
    assert NonBlank(lines) == [h] + Lines(w, Kept(w, rows));
    KeptShape(w, rows);
    OneColumnRecords(w, h, Kept(w, rows));
    RowsLength([h], Kept(w, rows));
    RowsLength([h], rows);
    assert Document(w, [h], rows) == Join(lines, "\n") + if w == ProblemRows then "\n" else "";
  }

  lemma OneColumnRecords(w: Writer, h: string, rows: seq<seq<string>>)
    requires PlainHeader(h) && forall i :: 0 <= i < |rows| ==> OneCell(rows[i])
    ensures var lines := [h] + Lines(w, rows);
            Records(Trimmed(Scan(lines[0], "", false)), lines[1..]) == Rows([h], rows)
  {
    hide Trim, Scan, Line, Entries, PlainHeader;
    var headers := [h];
    assert headers[0] == h && Join(headers, ",") == h;
    HeaderLine(headers);
    RecordsAreRows(w, headers, rows);
    assert ([h] + Lines(w, rows))[1..] == Lines(w, rows);
  }
}
