/**
 A spreadsheet's case row printed as CSV (`caseRowCsv`, `csvSafe`) and the repository's own reader
 of quoted fields (`parseCsv`), as section 2 of RFC 4180 has them.
 */
module CaseRowCsv {

  datatype Result<+T> = Ok(value: T) | Refused(reason: Refusal)

  datatype Refusal = TextAfterQuote | UnterminatedQuote

  // -------------------------------------------------------------------------
  // Printing
  // -------------------------------------------------------------------------

  predicate StartsFormula(cell: string) {
    cell != "" && (cell[0] == '=' || cell[0] == '+' || cell[0] == '-' || cell[0] == '@' || cell[0] == '\t' || cell[0] == '\r')
  }

  /** A spreadsheet opening this cell never runs it; a cell that is safe already is left alone. */
  function CsvSafe(cell: string): (r: string)
    ensures !StartsFormula(r)
    ensures !StartsFormula(cell) ==> r == cell
    ensures StartsFormula(cell) ==> |r| == |cell| + 1 && r[1..] == cell
  {
    if StartsFormula(cell) then "'" + cell else cell
  }

  function Escaped(cell: string): string {
    if cell == "" then "" else (if cell[0] == '"' then "\"\"" else [cell[0]]) + Escaped(cell[1..])
  }

  function Quoted(cell: string): string {
    ['"'] + Escaped(cell) + ['"']
  }

  /** The cells of a line, quoted and joined by commas. */
  function Joined(cells: seq<string>): string {
    if cells == [] then ""
    else if |cells| == 1 then Quoted(cells[0])
    else Quoted(cells[0]) + [','] + Joined(cells[1..])
  }

  function SafeCells(cells: seq<string>): (r: seq<string>)
    ensures |r| == |cells| && forall k :: 0 <= k < |cells| ==> r[k] == CsvSafe(cells[k])
  {
    seq(|cells|, k requires 0 <= k < |cells| => CsvSafe(cells[k]))
  }

  const LINE_END := "\r\n"

  function CaseRowCsv(header: seq<string>, row: seq<string>): string {
    Joined(SafeCells(header)) + LINE_END + (Joined(SafeCells(row)) + LINE_END)
  }

  // -------------------------------------------------------------------------
  // Reading
  // -------------------------------------------------------------------------

  datatype Reading = Reading(rows: seq<seq<string>>, row: seq<string>, field: string, quoted: bool, started: bool)

  const START := Reading([], [], "", false, false)

  function EndField(st: Reading): Reading {
    st.(row := st.row + [st.field], field := "", started := false)
  }

  function EndRow(st: Reading): Reading {
    Reading(st.rows + [st.row + [st.field]], [], "", false, false)
  }

  /** How many units a step at the front of the text takes, and what it leaves; `None` refuses. */
  datatype Taken = Taken(units: nat, st: Reading) | Broken

  function TakeQuoted(text: string, st: Reading, delimiter: char): (t: Taken)
    requires text != "" && st.quoted
    ensures t.Taken? ==> 0 < t.units <= |text|
  {
    if text[0] != '"' then Taken(1, st.(field := st.field + [text[0]]))
    else if |text| > 1 && text[1] == '"' then Taken(2, st.(field := st.field + ['"']))
    else if |text| > 1 && text[1] != delimiter && text[1] != '\n' && text[1] != '\r' then Broken
    else Taken(1, st.(quoted := false))
  }

  function TakePlain(text: string, st: Reading, delimiter: char): (t: Taken)
    requires text != "" && !st.quoted
    ensures t.Taken? && 0 < t.units <= |text|
  {
    var c := text[0];
    if c == '"' && !st.started then Taken(1, st.(quoted := true, started := true))
    else if c == delimiter then Taken(1, EndField(st))
    else if c == '\n' || c == '\r' then
      Taken(if c == '\r' && |text| > 1 && text[1] == '\n' then 2 else 1, EndRow(st))
    else Taken(1, st.(field := st.field + [c], started := true))
  }

  function Take(text: string, st: Reading, delimiter: char): (t: Taken)
    requires text != ""
    ensures t.Taken? ==> 0 < t.units <= |text|
  {
    if st.quoted then TakeQuoted(text, st, delimiter) else TakePlain(text, st, delimiter)
  }

  function Finish(st: Reading): Result<seq<seq<string>>> {
    if st.quoted then Refused(UnterminatedQuote)
    else if st.started || st.field != "" || |st.row| > 0 then Ok(EndRow(st).rows)
    else Ok(st.rows)
  }

  /** What is read of a text from here on. */
  function ReadOn(text: string, st: Reading, delimiter: char): Result<seq<seq<string>>>
    decreases |text|
  {
    if text == "" then Finish(st)
    else
      match Take(text, st, delimiter)
      case Broken => Refused(TextAfterQuote)
      case Taken(n, next) => ReadOn(text[n..], next, delimiter)
  }

  lemma ReadsOneStep(text: string, i: nat, st: Reading, delimiter: char)
    requires i < |text|
    ensures text[i..] != "" && text[i..][0] == text[i] && (i + 1 < |text| ==> text[i..][1] == text[i + 1])
    ensures var taken := Take(text[i..], st, delimiter);
            ReadOn(text[i..], st, delimiter) ==
            if taken.Broken? then Refused(TextAfterQuote) else ReadOn(text[i + taken.units..], taken.st, delimiter)
  {
    var rest := text[i..];
    assert forall n :: 0 < n <= |rest| ==> rest[n..] == text[i + n..];
  }

  /** `parseCsv`: the loop over the text. */
  method ParseCsv(text: string, delimiter: char) returns (r: Result<seq<seq<string>>>)
    ensures r == ReadOn(text, START, delimiter)
  {
    var rows: seq<seq<string>>, row: seq<string>, field, quoted, fieldStarted := [], [], "", false, false;
    var i := 0;
    while i < |text|
      invariant 0 <= i <= |text|
      invariant ReadOn(text[i..], Reading(rows, row, field, quoted, fieldStarted), delimiter) == ReadOn(text, START, delimiter)
    {
      var c := text[i];
      ReadsOneStep(text, i, Reading(rows, row, field, quoted, fieldStarted), delimiter);
      if quoted {
        if c == '"' {
          if i + 1 < |text| && text[i + 1] == '"' {
            field := field + ['"'];
            i := i + 2;
            continue;
          }
          quoted := false;
          i := i + 1;
          if i < |text| && text[i] != delimiter && text[i] != '\n' && text[i] != '\r' {
            return Refused(TextAfterQuote);
          }
          continue;
        }
        field := field + [c];
        i := i + 1;
        continue;
      }
      if c == '"' && !fieldStarted {
        quoted, fieldStarted := true, true;
        i := i + 1;
        continue;
      }
      if c == delimiter {
        row, field, fieldStarted := row + [field], "", false;
        i := i + 1;
        continue;
      }
      if c == '\n' || c == '\r' {
        rows := rows + [row + [field]];
        row, field, fieldStarted := [], "", false;
        i := i + if c == '\r' && i + 1 < |text| && text[i + 1] == '\n' then 2 else 1;
        continue;
      }
      field := field + [c];
      fieldStarted := true;
      i := i + 1;
    }
    assert text[i..] == "";
    if quoted { return Refused(UnterminatedQuote); }
    if fieldStarted || field != "" || |row| > 0 {
      rows := rows + [row + [field]];
    }
    return Ok(rows);
  }

  // -------------------------------------------------------------------------
  // What is printed reads back
  // -------------------------------------------------------------------------

  /** Text that may follow a closing quote. */
  predicate EndsCell(rest: string, delimiter: char) {
    rest == "" || rest[0] == delimiter || rest[0] == '\n' || rest[0] == '\r'
  }

  /** A quoted cell's units, quotes and line ends and commas among them, become its field. */
  lemma {:induction false} EscapedReads(cell: string, rest: string, st: Reading, delimiter: char)
    requires st.quoted && EndsCell(rest, delimiter) && delimiter != '"'
    ensures ReadOn(Escaped(cell) + ['"'] + rest, st, delimiter) ==
            ReadOn(rest, st.(field := st.field + cell, quoted := false), delimiter)
  {
    var text := Escaped(cell) + ['"'] + rest;
    if cell == "" {
      assert text == ['"'] + rest && text[1..] == rest;
      assert st.field + cell == st.field;
    } else {
      var more := Escaped(cell[1..]) + ['"'] + rest;
      var st' := st.(field := st.field + [cell[0]]);
      EscapedReads(cell[1..], rest, st', delimiter);
      assert st.field + cell == st.field + [cell[0]] + cell[1..];
      if cell[0] == '"' {
        assert text == ['"', '"'] + more && text[2..] == more;
      } else {
        assert text == [cell[0]] + more && text[1..] == more;
      }
    }
  }

  lemma QuotedReads(cell: string, rest: string, st: Reading, delimiter: char)
    requires !st.quoted && !st.started && st.field == "" && EndsCell(rest, delimiter) && delimiter != '"'
    ensures ReadOn(Quoted(cell) + rest, st, delimiter) == ReadOn(rest, st.(field := cell, started := true), delimiter)
  {
    var text := Quoted(cell) + rest;
    var more := Escaped(cell) + ['"'] + rest;
    assert text == ['"'] + more && text[1..] == more;
    EscapedReads(cell, rest, st.(quoted := true, started := true), delimiter);
    assert st.field + cell == cell;
  }

  /** A printed line's cells. No line prints without a cell: one of none reads back as one empty cell. */
  function CellsRead(cells: seq<string>): seq<string> {
    if cells == [] then [""] else cells
  }

  lemma LineEndReads(rest: string, st: Reading)
    requires !st.quoted
    ensures ReadOn(LINE_END + rest, st, ',') == ReadOn(rest, EndRow(st), ',')
  {
    assert (LINE_END + rest)[2..] == rest;
  }

  lemma {:induction false} LineReads(cells: seq<string>, rest: string, st: Reading)
    requires !st.quoted && !st.started && st.field == ""
    ensures ReadOn(Joined(cells) + LINE_END + rest, st, ',') ==
            ReadOn(rest, Reading(st.rows + [st.row + CellsRead(cells)], [], "", false, false), ',')
  {
    var text := Joined(cells) + LINE_END + rest;
    if cells == [] {
      assert text == LINE_END + rest;
      LineEndReads(rest, st);
    } else {
      var tail := if |cells| == 1 then LINE_END + rest else [','] + (Joined(cells[1..]) + LINE_END + rest);
      assert text == Quoted(cells[0]) + tail;
      QuotedReads(cells[0], tail, st, ',');
      var read := st.(field := cells[0], started := true);
      if |cells| == 1 {
        assert cells == [cells[0]];
        LineEndReads(rest, read);
      } else {
        var next := EndField(read);
        assert tail[1..] == Joined(cells[1..]) + LINE_END + rest;
        LineReads(cells[1..], rest, next);
        assert next.row + cells[1..] == st.row + cells;
      }
    }
  }

  /** For any cells at all, the printed row reads back as the safe header and the safe row. */
  lemma PrintedReadsBack(header: seq<string>, row: seq<string>)
    ensures ReadOn(CaseRowCsv(header, row), START, ',') == Ok([CellsRead(SafeCells(header)), CellsRead(SafeCells(row))])
  {
    var (first, second) := (CellsRead(SafeCells(header)), CellsRead(SafeCells(row)));
    var text := Joined(SafeCells(row)) + LINE_END;
    LineReads(SafeCells(header), text, START);
    assert text + "" == text;
    assert START.row + first == first && START.rows + [first] == [first];
    var st := Reading([first], [], "", false, false);
    LineReads(SafeCells(row), "", st);
    assert st.row + second == second && st.rows + [second] == [first, second];
  }

  /** So the print is undone exactly where neither line is empty. */
  lemma ReadsBackExactly(header: seq<string>, row: seq<string>)
    ensures ReadOn(CaseRowCsv(header, row), START, ',') == Ok([SafeCells(header), SafeCells(row)]) <==>
            header != [] && row != []
  {
    PrintedReadsBack(header, row);
  }
}
