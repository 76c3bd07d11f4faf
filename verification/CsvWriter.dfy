/** Rows written as CSV text through a buffer to a destination that may fail. */
module CsvWriter {
  import opened CsvText
  import opened ReportWriter

  const BUFFER_SIZE := 4096

  class RowWriter {
    const buffered: BufferedWriter
    ghost var rows: seq<Cells>

    /** The text handed over is that of the rows. */
    ghost predicate Valid()
      reads this, buffered, buffered.writer
    {
      buffered.Valid() && buffered.text == TextOf(rows)
    }

    /** The destination holds a beginning of the rows' text. */
    ghost predicate Partial()
      reads this, buffered, buffered.writer
    {
      buffered.start <= buffered.writer.contents <= buffered.start + TextOf(rows)
    }

    lemma ValidIsPartial()
      requires Valid()
      ensures Partial()
    {
    }

    constructor (writer: ContextWriter)
      ensures Valid() && !buffered.failed && rows == [] && fresh(buffered) && buffered.writer == writer
      ensures buffered.start == writer.contents && buffered.startFaults == writer.faults
    {
      buffered := new BufferedWriter(writer, BUFFER_SIZE);
      rows := [];
    }

    method Write(row: Cells) returns (ok: bool)
      requires Valid() && !buffered.failed
      modifies this, buffered, buffered.writer
      ensures Valid() && rows == old(rows) + [row] && ok == !buffered.failed
      ensures buffered.writer.Counted(ok) && (buffered.writer.Faultless() ==> ok)
    {
      OneMoreLine(rows, row);
      buffered.WriteString(LineText(row));
      rows := rows + [row];
      ok := !buffered.failed;
    }

    /** Whether the context is done. */
    method Stopped() returns (stopped: bool)
      requires Valid() && !buffered.failed
      modifies buffered.writer`clock, buffered.writer`faults
      ensures buffered.writer.Counted(!stopped) && (buffered.writer.Faultless() ==> !stopped)
      ensures if stopped then Partial() else Valid()
    {
      ValidIsPartial();
      stopped := buffered.writer.Stopped();
    }

    method Finish() returns (ok: bool)
      requires Valid() && !buffered.failed
      modifies buffered, buffered.writer
      ensures Valid() && buffered.writer.Counted(ok) && (buffered.writer.Faultless() ==> ok)
      ensures Wrote(ok, buffered.start, buffered.writer.contents, TextOf(rows))
    {
      buffered.Finish();
      ok := !buffered.failed;
    }

    /** Wherever writing ends, the destination holds a beginning of the text of all
        rows that were to be written. */
    lemma HoldsBeginning(all: seq<Cells>)
      requires Partial() && |rows| <= |all| && all[..|rows|] == rows
      ensures Wrote(false, buffered.start, buffered.writer.contents, TextOf(all))
    {
      TextBeginning(rows, all);
      Extends(buffered.start, TextOf(rows), TextOf(all));
    }
  }

  lemma Extends(start: string, a: string, b: string)
    requires a <= b
    ensures start + a <= start + b
  {
  }
}
