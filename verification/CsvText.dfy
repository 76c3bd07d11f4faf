/**
 Rows of cells as CSV text, lines ended by CR LF, and reading them back as section
 2 of RFC 4180 has it.
 */
module CsvText {
  import opened Bytes
  import opened Strings

  type Cells = seq<string>

  const END_OF_LINE := "\r\n"

  // ------------------------------------------------------------------
  // Writing.

  predicate IsSpecial(c: char) { c == ',' || c == '"' || c == '\r' || c == '\n' }

  predicate HasSpecial(cell: string) { exists i :: 0 <= i < |cell| && IsSpecial(cell[i]) }

  /** Some cells are quoted: those with a special character, the end marker of some
      databases, and those that begin with white space. */
  predicate NeedsQuotes(cell: string) { cell != "" && (cell == "\\." || HasSpecial(cell) || IsSpace(cell[0])) }

  /** A cell without comma, quote or line end, and not beginning with white space,
      stands as it is, unless it is that marker. */
  lemma StandsAsItIs(cell: string)
    requires forall i :: 0 <= i < |cell| ==> cell[i] !in {',', '"', '\r', '\n'}
    requires cell != "\\." && (cell != "" ==> !IsSpace(cell[0]))
    ensures CellText(cell) == cell
  {
  }

  /** Between the quotes a quote is doubled, and a line ends in CR LF. */
  function Quoted(cell: string): string {
    if cell == "" then ""
    else
      (if cell[0] == '"' then "\"\"" else if cell[0] == '\r' then "" else if cell[0] == '\n' then "\r\n" else [cell[0]])
      + Quoted(cell[1..])
  }

  function CellText(cell: string): string { if NeedsQuotes(cell) then "\"" + Quoted(cell) + "\"" else cell }

  function RowText(row: Cells): string {
    if row == [] then ""
    else if |row| == 1 then CellText(row[0])
    else CellText(row[0]) + "," + RowText(row[1..])
  }

  function LineText(row: Cells): string { RowText(row) + END_OF_LINE }

  function TextOf(rows: seq<Cells>): string {
    if rows == [] then "" else TextOf(rows[..|rows| - 1]) + LineText(rows[|rows| - 1])
  }

  // ------------------------------------------------------------------
  // Reading.

  datatype Sep = Comma | LineEnd

  function ReadSep(s: string): Option<(Sep, string)> {
    if s != "" && s[0] == ',' then Some((Comma, s[1..]))
    else if |s| >= 2 && s[0] == '\r' && s[1] == '\n' then Some((LineEnd, s[2..]))
    else None
  }

  /** What follows an opening quote, up to the quote that is not doubled. */
  function ReadQuoted(s: string): Option<(string, string)> {
    if s == "" then None
    else if s[0] == '"' && (|s| == 1 || s[1] != '"') then Some(("", s[1..]))
    else
      var n := if s[0] == '"' then 2 else 1;
      match ReadQuoted(s[n..])
      case None => None
      case Some((cell, rest)) => Some(([s[0]] + cell, rest))
  }

  function ReadPlain(s: string): (string, string) {
    if s == "" || IsSpecial(s[0]) then ("", s)
    else
      var (cell, rest) := ReadPlain(s[1..]);
      ([s[0]] + cell, rest)
  }

  function ReadCell(s: string): Option<(string, string)> {
    if s != "" && s[0] == '"' then ReadQuoted(s[1..]) else Some(ReadPlain(s))
  }

  lemma {:induction false} QuotedShorter(s: string)
    requires ReadQuoted(s).Some?
    ensures |ReadQuoted(s).value.1| < |s|
  {
    if !(s[0] == '"' && (|s| == 1 || s[1] != '"')) { QuotedShorter(s[if s[0] == '"' then 2 else 1..]); }
  }

  lemma {:induction false} PlainShorter(s: string)
    ensures |ReadPlain(s).1| <= |s|
  {
    if s != "" && !IsSpecial(s[0]) { PlainShorter(s[1..]); }
  }

  lemma CellShorter(s: string)
    requires ReadCell(s).Some?
    ensures |ReadCell(s).value.1| <= |s|
  {
    if s != "" && s[0] == '"' { QuotedShorter(s[1..]); } else { PlainShorter(s); }
  }

  function ReadRow(s: string): (r: Option<(Cells, string)>)
    ensures r.Some? ==> |r.value.1| < |s|
    decreases |s|
  {
    var cell := ReadCell(s);
    if cell.None? then None
    else
      CellShorter(s);
      var sep := ReadSep(cell.value.1);
      if sep.None? then None
      else if sep.value.0 == LineEnd then Some(([cell.value.0], sep.value.1))
      else
        var more := ReadRow(sep.value.1);
        if more.None? then None else Some(([cell.value.0] + more.value.0, more.value.1))
  }

  function ReadRows(s: string): Option<seq<Cells>>
    decreases |s|
  {
    if s == "" then Some([])
    else
      match ReadRow(s)
      case None => None
      case Some((row, rest)) =>
        match ReadRows(rest)
        case None => None
        case Some(rows) => Some([row] + rows)
  }

  // ------------------------------------------------------------------
  // What is read back.

  /** The cell with every line ended by CR LF and no other CR. */
  function Normal(cell: string): string {
    if cell == "" then ""
    else
      (if cell[0] == '\r' then "" else if cell[0] == '\n' then "\r\n" else [cell[0]]) + Normal(cell[1..])
  }

  predicate PlainLines(cell: string) { forall i :: 0 <= i < |cell| ==> cell[i] != '\r' && cell[i] != '\n' }

  lemma {:induction false} PlainIsNormal(cell: string)
    requires PlainLines(cell)
    ensures Normal(cell) == cell
  {
    if cell != "" { PlainIsNormal(cell[1..]); }
  }

  /** Every line of the cell ends in CR LF already. */
  predicate EndsLines(cell: string) {
    cell == ""
    || (if cell[0] == '\r' then |cell| >= 2 && cell[1] == '\n' && EndsLines(cell[2..])
        else cell[0] != '\n' && EndsLines(cell[1..]))
  }

  lemma {:induction false} NormalEndsLines(cell: string)
    ensures EndsLines(Normal(cell))
  {
    if cell != "" {
      NormalEndsLines(cell[1..]);
      var rest := Normal(cell[1..]);
      if cell[0] == '\n' {
        assert ("\r\n" + rest)[2..] == rest;
      } else if cell[0] == '\r' {
        assert "" + rest == rest;
      } else {
        assert ([cell[0]] + rest)[1..] == rest;
      }
    }
  }

  lemma {:induction false} EndedIsNormal(cell: string)
    requires EndsLines(cell)
    ensures Normal(cell) == cell
    decreases |cell|
  {
    if cell != "" {
      if cell[0] == '\r' {
        EndedIsNormal(cell[2..]);
        assert cell[1..][1..] == cell[2..] && cell == "\r\n" + cell[2..];
        assert Normal(cell[1..]) == "\r\n" + Normal(cell[2..]);
      } else {
        EndedIsNormal(cell[1..]);
      }
    }
  }

  /** A cell is read back unchanged exactly when its lines end in CR LF. */
  lemma NormalExactly(cell: string)
    ensures Normal(cell) == cell <==> EndsLines(cell)
  {
    NormalEndsLines(cell);
    if EndsLines(cell) { EndedIsNormal(cell); }
  }

  function NormalRow(row: Cells): (r: Cells)
    ensures |r| == |row|
  {
    if row == [] then [] else [Normal(row[0])] + NormalRow(row[1..])
  }

  function NormalRows(rows: seq<Cells>): (r: seq<Cells>)
    ensures |r| == |rows|
  {
    if rows == [] then [] else [NormalRow(rows[0])] + NormalRows(rows[1..])
  }

  // ------------------------------------------------------------------
  // Round trip.

  lemma Front(c: string, body: string, rest: string)
    ensures (c + body) + rest == c + (body + rest)
    ensures (c + (body + rest))[|c|..] == body + rest
  {
  }

  lemma {:induction false} QuotedRead(cell: string, rest: string)
    requires rest == "" || rest[0] != '"'
    ensures ReadQuoted(Quoted(cell) + ("\"" + rest)) == Some((Normal(cell), rest))
  {
    if cell == "" {
      assert Quoted(cell) + ("\"" + rest) == "\"" + rest && ("\"" + rest)[1..] == rest;
    } else {
      QuotedRead(cell[1..], rest);
      OneQuoted(cell[0], Quoted(cell[1..]) + ("\"" + rest), Normal(cell[1..]), rest);
      Front(QuotedChar(cell[0]), Quoted(cell[1..]), "\"" + rest);
    }
  }

  function QuotedChar(c: char): string {
    if c == '"' then "\"\"" else if c == '\r' then "" else if c == '\n' then "\r\n" else [c]
  }

  lemma OtherQuoted(c: char, s: string, cell: string, rest: string)
    requires ReadQuoted(s) == Some((cell, rest)) && c != '"'
    ensures ReadQuoted([c] + s) == Some(([c] + cell, rest))
  {
    assert ([c] + s)[1..] == s;
  }

  lemma QuoteQuoted(s: string, cell: string, rest: string)
    requires ReadQuoted(s) == Some((cell, rest))
    ensures ReadQuoted("\"\"" + s) == Some((['"'] + cell, rest))
  {
    assert ("\"\"" + s)[2..] == s;
  }

  lemma OneQuoted(c: char, s: string, cell: string, rest: string)
    requires ReadQuoted(s) == Some((cell, rest))
    ensures ReadQuoted(QuotedChar(c) + s)
         == Some(((if c == '\r' then "" else if c == '\n' then "\r\n" else [c]) + cell, rest))
  {
    if c == '\n' {
      OtherQuoted('\n', s, cell, rest);
      OtherQuoted('\r', ['\n'] + s, ['\n'] + cell, rest);
      Joined("\r", "\n", s);
      Joined("\r", "\n", cell);
      assert "\r\n" == "\r" + "\n";
    } else if c == '"' {
      QuoteQuoted(s, cell, rest);
    } else if c == '\r' {
      assert "" + s == s && "" + cell == cell;
    } else {
      OtherQuoted(c, s, cell, rest);
    }
  }

  lemma {:induction false} PlainRead(cell: string, rest: string)
    requires !HasSpecial(cell) && rest != "" && IsSpecial(rest[0])
    ensures ReadPlain(cell + rest) == (cell, rest)
  {
    if cell == "" {
      assert cell + rest == rest;
    } else {
      assert IsSpecial(cell[0]) ==> HasSpecial(cell);
      assert (cell + rest)[0] == cell[0] && (cell + rest)[1..] == cell[1..] + rest;
      forall i | 0 <= i < |cell[1..]| ensures !IsSpecial(cell[1..][i]) { assert cell[1..][i] == cell[i + 1]; }
      PlainRead(cell[1..], rest);
      assert [cell[0]] + cell[1..] == cell;
    }
  }

  lemma QuotedCellRead(cell: string, rest: string)
    requires NeedsQuotes(cell) && rest != "" && (rest[0] == ',' || rest[0] == '\r')
    ensures ReadCell(CellText(cell) + rest) == Some((Normal(cell), rest))
  {
    QuotedRead(cell, rest);
    assert ("\"" + Quoted(cell) + "\"" + rest)[1..] == Quoted(cell) + ("\"" + rest);
  }

  lemma PlainCellRead(cell: string, rest: string)
    requires !NeedsQuotes(cell) && rest != "" && (rest[0] == ',' || rest[0] == '\r')
    ensures ReadCell(CellText(cell) + rest) == Some((Normal(cell), rest))
  {
    assert !HasSpecial(cell);
    PlainRead(cell, rest);
    assert (cell + rest)[0] != '"';
    forall i | 0 <= i < |cell| ensures cell[i] != '\r' && cell[i] != '\n' { assert !IsSpecial(cell[i]); }
    PlainIsNormal(cell);
  }

  /** A written cell is read back in its normal form, whatever separator follows. */
  lemma CellRead(cell: string, rest: string)
    requires rest != "" && (rest[0] == ',' || rest[0] == '\r')
    ensures ReadCell(CellText(cell) + rest) == Some((Normal(cell), rest))
  {
    if NeedsQuotes(cell) { QuotedCellRead(cell, rest); } else { PlainCellRead(cell, rest); }
  }

  lemma LastCellRead(cell: string, rest: string)
    ensures ReadRow(CellText(cell) + (END_OF_LINE + rest)) == Some(([Normal(cell)], rest))
  {
    var end := END_OF_LINE + rest;
    assert end[2..] == rest;
    CellRead(cell, end);
    CellNotNothing(cell, end);
  }

  lemma NextCellRead(cell: string, s: string, row: Cells, rest: string)
    requires ReadRow(s) == Some((row, rest))
    ensures ReadRow(CellText(cell) + ("," + s)) == Some(([Normal(cell)] + row, rest))
  {
    var after := "," + s;
    assert after[1..] == s;
    CellRead(cell, after);
    CellNotNothing(cell, after);
  }

  lemma CellNotNothing(cell: string, after: string)
    requires after != ""
    ensures CellText(cell) + after != ""
  {
  }

  lemma {:induction false} RowRead(row: Cells, rest: string)
    requires row != []
    ensures ReadRow(LineText(row) + rest) == Some((NormalRow(row), rest))
    decreases |row|
  {
    if |row| == 1 {
      LastCellRead(row[0], rest);
      LastCell(row);
      Joined(CellText(row[0]), END_OF_LINE, rest);
    } else {
      RowRead(row[1..], rest);
      NextCellRead(row[0], LineText(row[1..]) + rest, NormalRow(row[1..]), rest);
      LongLine(CellText(row[0]), RowText(row[1..]), rest);
    }
  }

  lemma LongLine(cell: string, more: string, rest: string)
    ensures (cell + "," + more) + END_OF_LINE + rest == cell + ("," + ((more + END_OF_LINE) + rest))
  {
  }

  lemma LastCell(row: Cells)
    requires |row| == 1
    ensures NormalRow(row) == [Normal(row[0])]
  {
    assert row[1..] == [];
  }

  lemma Joined(a: string, b: string, c: string)
    ensures (a + b) + c == a + (b + c)
  {
  }

  lemma {:induction false} TextOfFirst(rows: seq<Cells>)
    requires rows != []
    ensures TextOf(rows) == LineText(rows[0]) + TextOf(rows[1..])
  {
    var n := |rows| - 1;
    if n == 0 {
      assert rows[..0] == [] && rows[1..] == [];
    } else {
      TextOfFirst(rows[..n]);
      assert rows[..n][1..] == rows[1..][..n - 1] && rows[1..][n - 1] == rows[n];
      Joined(LineText(rows[0]), TextOf(rows[..n][1..]), LineText(rows[n]));
    }
  }

  /** The text of rows reads back as the rows, every cell in its normal form. */
  lemma {:induction false} RowsReadBack(rows: seq<Cells>)
    requires forall i :: 0 <= i < |rows| ==> rows[i] != []
    ensures ReadRows(TextOf(rows)) == Some(NormalRows(rows))
  {
    if rows != [] {
      TextOfFirst(rows);
      RowRead(rows[0], TextOf(rows[1..]));
      RowsReadBack(rows[1..]);
      assert TextOf(rows) != "";
    }
  }

  /** The text of the first rows is a beginning of the text. */
  lemma {:induction false} TextBeginning(some: seq<Cells>, all: seq<Cells>)
    requires |some| <= |all| && all[..|some|] == some
    ensures TextOf(some) <= TextOf(all)
    decreases |all|
  {
    if |some| == |all| {
      assert some == all;
    } else {
      var n := |all| - 1;
      assert all[..n][..|some|] == some;
      TextBeginning(some, all[..n]);
    }
  }

  lemma OneMoreLine(rows: seq<Cells>, row: Cells)
    ensures TextOf(rows + [row]) == TextOf(rows) + LineText(row)
  {
    assert (rows + [row])[..|rows|] == rows;
  }
}
