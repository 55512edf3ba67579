/** What the CSV reader makes of text that is not quoted, or badly, and what a safe cell starts with. */
module CsvText {
  import opened CaseRowCsv

  /** By its first character: an apostrophe goes in front of `=`, `+`, `-`, `@`, a tab and a carriage return. */
  lemma CsvSafeByCharacter(cell: string)
    ensures CsvSafe(cell) ==
            if |cell| > 0 && cell[0] as int in [0x3D, 0x2B, 0x2D, 0x40, 0x09, 0x0D] then ['\''] + cell else cell
  {
  }

  /** A cell that needs no quotes: no delimiter and no line end in it, and no quote in front. */
  predicate IsBare(cell: string, delimiter: char) {
    (cell != "" ==> cell[0] != '"') &&
    forall k :: 0 <= k < |cell| ==> cell[k] != delimiter && cell[k] != '\n' && cell[k] != '\r'
  }

  /** Bare cells joined by the delimiter. */
  function BareLine(cells: seq<string>, delimiter: char): string {
    if cells == [] then "" else if |cells| == 1 then cells[0] else cells[0] + [delimiter] + BareLine(cells[1..], delimiter)
  }

  /** Units that neither end a field nor open a quote are the field's, quotes inside it included. */
  lemma {:induction false} BareReads(cell: string, rest: string, st: Reading, delimiter: char)
    requires !st.quoted && (cell != "" && !st.started ==> cell[0] != '"')
    requires forall k :: 0 <= k < |cell| ==> cell[k] != delimiter && cell[k] != '\n' && cell[k] != '\r'
    ensures ReadOn(cell + rest, st, delimiter) ==
            ReadOn(rest, st.(field := st.field + cell, started := st.started || cell != ""), delimiter)
  {
    if cell == "" {
      assert cell + rest == rest && st.field + cell == st.field;
    } else {
      assert (cell + rest)[1..] == cell[1..] + rest;
      BareReads(cell[1..], rest, st.(field := st.field + [cell[0]], started := true), delimiter);
      assert st.field + [cell[0]] + cell[1..] == st.field + cell;
    }
  }

  /** A line end: a line feed, a carriage return with one, or a carriage return not followed by one. */
  predicate IsLineEnd(end: string, rest: string) {
    end == "\n" || end == "\r\n" || (end == "\r" && (rest == "" || rest[0] != '\n'))
  }

  lemma AnyLineEndReads(end: string, rest: string, st: Reading, delimiter: char)
    requires !st.quoted && IsLineEnd(end, rest) && delimiter != '\n' && delimiter != '\r'
    ensures ReadOn(end + rest, st, delimiter) == ReadOn(rest, EndRow(st), delimiter)
  {
    assert (end + rest)[|end|..] == rest;
  }

  /** A reading at the front of a cell. */
  predicate AtCell(st: Reading) {
    !st.quoted && !st.started && st.field == ""
  }

  lemma BareCellReads(cell: string, more: string, st: Reading, delimiter: char)
    requires AtCell(st) && IsBare(cell, delimiter) && delimiter != '"'
    ensures ReadOn(cell + ([delimiter] + more), st, delimiter) == ReadOn(more, st.(row := st.row + [cell]), delimiter)
  {
    BareReads(cell, [delimiter] + more, st, delimiter);
    assert st.field + cell == cell && ([delimiter] + more)[1..] == more;
  }

  lemma LastBareCellReads(cell: string, end: string, rest: string, st: Reading, delimiter: char)
    requires AtCell(st) && IsBare(cell, delimiter) && IsLineEnd(end, rest) && delimiter != '\n' && delimiter != '\r'
    ensures ReadOn(cell + (end + rest), st, delimiter) ==
            ReadOn(rest, Reading(st.rows + [st.row + [cell]], [], "", false, false), delimiter)
  {
    BareReads(cell, end + rest, st, delimiter);
    assert st.field + cell == cell;
    AnyLineEndReads(end, rest, st.(field := cell, started := cell != ""), delimiter);
  }

  predicate AllBare(cells: seq<string>, delimiter: char) {
    forall k :: 0 <= k < |cells| ==> IsBare(cells[k], delimiter)
  }

  lemma {:induction false} BareLineReads(cells: seq<string>, end: string, rest: string, st: Reading, delimiter: char)
    requires AtCell(st) && IsLineEnd(end, rest) && delimiter != '"' && delimiter != '\n' && delimiter != '\r'
    requires AllBare(cells, delimiter)
    ensures ReadOn(BareLine(cells, delimiter) + (end + rest), st, delimiter) ==
            ReadOn(rest, Reading(st.rows + [st.row + CellsRead(cells)], [], "", false, false), delimiter)
  {
    if |cells| <= 1 {
      var cell := if cells == [] then "" else cells[0];
      assert BareLine(cells, delimiter) == cell && CellsRead(cells) == [cell];
      LastBareCellReads(cell, end, rest, st, delimiter);
    } else {
      var more := BareLine(cells[1..], delimiter) + (end + rest);
      assert BareLine(cells, delimiter) + (end + rest) == cells[0] + ([delimiter] + more);
      BareCellReads(cells[0], more, st, delimiter);
      BareLineReads(cells[1..], end, rest, st.(row := st.row + [cells[0]]), delimiter);
      assert st.row + [cells[0]] + cells[1..] == st.row + cells;
    }
  }

  /** Lines of bare cells, each with a line feed. */
  function BareText(rows: seq<seq<string>>, delimiter: char): string {
    if rows == [] then "" else BareLine(rows[0], delimiter) + "\n" + BareText(rows[1..], delimiter)
  }

  function RowsRead(rows: seq<seq<string>>): seq<seq<string>> {
    if rows == [] then [] else [CellsRead(rows[0])] + RowsRead(rows[1..])
  }

  lemma {:induction false} BareTextReads(rows: seq<seq<string>>, before: seq<seq<string>>, delimiter: char)
    requires delimiter != '"' && delimiter != '\n' && delimiter != '\r' && forall r :: r in rows ==> AllBare(r, delimiter)
    ensures ReadOn(BareText(rows, delimiter), Reading(before, [], "", false, false), delimiter) == Ok(before + RowsRead(rows))
  {
    if rows == [] {
      assert before + RowsRead(rows) == before;
    } else {
      BareRowThen(rows[0], BareText(rows[1..], delimiter), before, delimiter);
      BareTextReads(rows[1..], before + [CellsRead(rows[0])], delimiter);
      assert before + [CellsRead(rows[0])] + RowsRead(rows[1..]) == before + RowsRead(rows);
    }
  }

  lemma BareRowThen(row: seq<string>, rest: string, before: seq<seq<string>>, delimiter: char)
    requires delimiter != '"' && delimiter != '\n' && delimiter != '\r' && AllBare(row, delimiter)
    ensures ReadOn(BareLine(row, delimiter) + "\n" + rest, Reading(before, [], "", false, false), delimiter) ==
            ReadOn(rest, Reading(before + [CellsRead(row)], [], "", false, false), delimiter)
  {
    BareLineReads(row, "\n", rest, Reading(before, [], "", false, false), delimiter);
    assert BareLine(row, delimiter) + "\n" + rest == BareLine(row, delimiter) + ("\n" + rest);
    assert [] + CellsRead(row) == CellsRead(row);
  }

  /** Whatever the delimiter, text without quotes reads as its lines and their cells. */
  lemma BareReadsBack(rows: seq<seq<string>>, delimiter: char)
    requires delimiter != '"' && delimiter != '\n' && delimiter != '\r' && forall r :: r in rows ==> AllBare(r, delimiter)
    ensures ReadOn(BareText(rows, delimiter), START, delimiter) == Ok(RowsRead(rows))
  {
    BareTextReads(rows, [], delimiter);
    assert [] + RowsRead(rows) == RowsRead(rows);
  }

  /** A last line without a line end counts unless it is empty. */
  lemma LastLineCounts(cell: string, delimiter: char)
    requires IsBare(cell, delimiter)
    ensures ReadOn(cell, START, delimiter) == Ok(if cell == "" then [] else [[cell]])
  {
    BareReads(cell, "", START, delimiter);
    assert cell + "" == cell && START.field + cell == cell;
    var st := START.(field := cell, started := cell != "");
    assert st.row + [st.field] == [cell] && st.rows + [[cell]] == [[cell]];
  }

  /** A quoted field left open at the end, or followed by other text, is refused. */
  lemma {:induction false} BadQuotesAreRefused(cell: string, rest: string, st: Reading, delimiter: char)
    requires !st.quoted && !st.started && st.field == "" && delimiter != '"'
    ensures ReadOn(['"'] + Escaped(cell), st, delimiter) == Refused(UnterminatedQuote)
    ensures !EndsCell(rest, delimiter) && rest[0] != '"' ==> ReadOn(Quoted(cell) + rest, st, delimiter) == Refused(TextAfterQuote)
  {
    var open := st.(quoted := true, started := true);
    assert (['"'] + Escaped(cell))[1..] == Escaped(cell);
    EscapedStaysOpen(cell, open, delimiter);
    if !EndsCell(rest, delimiter) && rest[0] != '"' {
      assert (Quoted(cell) + rest)[1..] == Escaped(cell) + ['"'] + rest;
      EscapedThenText(cell, rest, open, delimiter);
    }
  }

  lemma {:induction false} EscapedStaysOpen(cell: string, st: Reading, delimiter: char)
    requires st.quoted
    ensures ReadOn(Escaped(cell), st, delimiter) == Refused(UnterminatedQuote)
  {
    if cell != "" {
      var st' := st.(field := st.field + [cell[0]]);
      EscapedStaysOpen(cell[1..], st', delimiter);
      var first := if cell[0] == '"' then "\"\"" else [cell[0]];
      assert Escaped(cell) == first + Escaped(cell[1..]) && Escaped(cell)[|first|..] == Escaped(cell[1..]);
    }
  }

  lemma {:induction false} EscapedThenText(cell: string, rest: string, st: Reading, delimiter: char)
    requires st.quoted && delimiter != '"' && !EndsCell(rest, delimiter) && rest[0] != '"'
    ensures ReadOn(Escaped(cell) + ['"'] + rest, st, delimiter) == Refused(TextAfterQuote)
  {
    var text := Escaped(cell) + ['"'] + rest;
    if cell == "" {
      assert text == ['"'] + rest;
    } else {
      var st' := st.(field := st.field + [cell[0]]);
      EscapedThenText(cell[1..], rest, st', delimiter);
      var first := if cell[0] == '"' then "\"\"" else [cell[0]];
      var more := Escaped(cell[1..]) + ['"'] + rest;
      assert text == first + more && text[|first|..] == more;
    }
  }
}
