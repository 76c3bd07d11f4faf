/**
 Writing a report to a destination that may fail or be cancelled at any point,
 directly or through a buffer.
 */
module ReportWriter {
  import opened Bytes
  import opened Strings

  /** Writing `text` took the contents from `before` to `after`: all of it, or on
      failure a beginning of it. */
  predicate Wrote(ok: bool, before: string, after: string, text: string) {
    if ok then after == before + text else before <= after <= before + text
  }

  lemma Joins(a: string, b: string, c: string)
    ensures (a + b) + c == a + (b + c)
  {
  }

  lemma ThenWrote(ok: bool, a: string, b: string, c: string, first: string, second: string)
    requires Wrote(true, a, b, first) && Wrote(ok, b, c, second)
    ensures Wrote(ok, a, c, first + second)
  {
    Joins(a, first, second);
  }

  lemma WroteLess(a: string, b: string, first: string, second: string)
    requires Wrote(false, a, b, first)
    ensures Wrote(false, a, b, first + second)
  {
    Joins(a, first, second);
  }

  datatype WriteEnd = Written | Cancelled | CutShort

  /** A writer that checks for cancellation around every write; `accepts` is how
      much the destination takes of a write that it cuts short. It counts the bytes
      that reach the destination; `faults` are the cancellations and cut writes
      seen so far. */
  class ContextWriter {
    var contents: string
    var bytesWritten: nat
    var clock: nat
    const stopped: nat -> bool
    const accepts: nat -> Option<nat>
    ghost var faults: nat

    constructor (stopped: nat -> bool, accepts: nat -> Option<nat>)
      ensures contents == "" && bytesWritten == 0 && faults == 0
      ensures this.stopped == stopped && this.accepts == accepts
    {
      contents, bytesWritten, clock, faults := "", 0, 0, 0;
      this.stopped, this.accepts := stopped, accepts;
    }

    /** Nothing is cancelled and the destination takes everything. */
    ghost predicate Faultless() { forall t :: !stopped(t) && accepts(t).None? }

    /** What has been written since is counted, and `ok` says that no fault was seen. */
    twostate predicate Counted(ok: bool)
      reads this
    {
      && bytesWritten - ByteLength(contents) == old(bytesWritten) - ByteLength(old(contents))
      && old(faults) <= faults && (ok <==> faults == old(faults))
    }

    method Stopped() returns (s: bool)
      modifies this`clock, this`faults
      ensures Faultless() ==> !s
      ensures s == stopped(old(clock)) && clock == old(clock) + 1 && Counted(!s)
    {
      s := stopped(clock);
      clock := clock + 1;
      if s { faults := faults + 1; }
    }

    /** How a write of `length` characters ends that is made at time t. */
    function EndOfWrite(t: nat, length: nat): WriteEnd {
      if stopped(t) then Cancelled
      else if accepts(t + 1).Some? && accepts(t + 1).value < length then CutShort
      else if stopped(t + 1) then Cancelled
      else Written
    }

    method Write(data: string) returns (end: WriteEnd)
      modifies this
      ensures Wrote(end == Written, old(contents), contents, data) && Counted(end == Written)
      ensures end == EndOfWrite(old(clock), |data|)
      ensures end == Written <==>
                && !stopped(old(clock)) && !stopped(old(clock) + 1)
                && !(accepts(old(clock) + 1).Some? && accepts(old(clock) + 1).value < |data|)
      ensures Faultless() ==> end == Written
    {
      var now := Stopped();
      if now { return Cancelled; }
      var taken := accepts(clock);
      if taken.Some? && taken.value < |data| {
        Append(data[..taken.value]);
        faults := faults + 1;
        return CutShort;
      }
      Append(data);
      now := Stopped();
      end := if now then Cancelled else Written;
    }

    method Append(data: string)
      modifies this`contents, this`bytesWritten
      ensures contents == old(contents) + data && Counted(true)
    {
      ByteLengthAppend(contents, data);
      contents, bytesWritten := contents + data, bytesWritten + ByteLength(data);
    }
  }

  /** Text gathered in a buffer of `capacity` characters and written when it is
      full; the first failure is kept, and nothing is written after it. */
  class BufferedWriter {
    const writer: ContextWriter
    const capacity: nat
    var buffer: string
    var failed: bool
    ghost const start: string
    ghost const startFaults: nat
    ghost var text: string   // all that was handed over

    /** Destination and buffer hold the text; after a failure the destination holds
        a beginning of it. */
    ghost predicate Valid()
      reads this, writer
    {
      && capacity > 0 && |buffer| <= capacity && start <= writer.contents
      && (!failed ==> writer.contents + buffer == start + text && writer.faults == startFaults)
      && (failed ==> Wrote(false, start, writer.contents, text) && writer.faults > startFaults)
    }

    constructor (writer: ContextWriter, capacity: nat)
      requires capacity > 0
      ensures Valid() && this.writer == writer && !failed && text == ""
      ensures start == writer.contents && startFaults == writer.faults
    {
      this.writer, this.capacity, buffer, failed := writer, capacity, "", false;
      start, startFaults, text := writer.contents, writer.faults, "";
    }

    /** Writes the buffer. */
    method Flush()
      requires !failed
      modifies this`buffer, this`failed, writer
      ensures Wrote(!failed, old(writer.contents), writer.contents, old(buffer)) && writer.Counted(!failed)
      ensures if failed then buffer == old(buffer) else buffer == ""
      ensures writer.Faultless() ==> !failed
    {
      if buffer == "" { return; }
      var end := writer.Write(buffer);
      if end == Written {
        buffer := "";
      } else {
        failed := true;
      }
    }

    /** Hands over what is still in the buffer. */
    method Finish()
      requires Valid() && !failed
      modifies this, writer
      ensures Valid() && text == old(text) && writer.Counted(!failed)
      ensures Wrote(!failed, start, writer.contents, text)
      ensures writer.Faultless() ==> !failed
    {
      Flush();
    }

    /** Fills the buffer and writes it as often as needed. */
    method WriteString(s: string)
      requires Valid() && !failed
      modifies this, writer
      ensures Valid() && text == old(text) + s && writer.Counted(!failed)
      ensures writer.Faultless() ==> !failed
    {
      text := text + s;
      var rest := s;
      assert writer.contents + buffer + rest == start + text;
      while |buffer| + |rest| > capacity && !failed
        invariant |buffer| <= capacity && start <= writer.contents && text == old(text) + s
        invariant !failed ==> writer.contents + buffer + rest == start + text && writer.faults == startFaults
        invariant failed ==> Wrote(false, start, writer.contents, text) && writer.faults > startFaults
        invariant writer.Counted(!failed) && (writer.Faultless() ==> !failed)
        decreases !failed, |rest|, |buffer|
      {
        var n := capacity - |buffer|;
        ghost var before := writer.contents;
        Split(before, buffer, rest, n);
        buffer, rest := buffer + rest[..n], rest[n..];
        Flush();
      }
      if !failed { buffer := buffer + rest; }
    }
  }

  lemma Split(contents: string, buffer: string, rest: string, n: nat)
    requires n <= |rest|
    ensures contents + buffer + rest == contents + (buffer + rest[..n]) + rest[n..]
    ensures contents + (buffer + rest[..n]) <= contents + buffer + rest
  {
  }
}
