/**
 Replacing a file: a staging file beside it is filled, synced, closed and then
 renamed over it. Every call may fail and cancellation may come at any check.
 */
module AtomicFile {
  import opened Records
  import opened Strings
  import opened ReportWriter

  /** A directory: the files in it and what reading them gives. */
  type Directory = map<Path, string>

  lemma ConcatMore(parts: seq<string>, i: nat)
    requires i < |parts|
    ensures Concat(parts[..i + 1]) == Concat(parts[..i]) + parts[i]
  {
    assert parts[..i + 1][..i] == parts[..i];
  }

  lemma {:induction false} ConcatBeginning(parts: seq<string>, n: nat)
    requires n <= |parts|
    ensures Concat(parts[..n]) <= Concat(parts)
    decreases |parts|
  {
    if n == |parts| {
      assert parts[..n] == parts;
    } else {
      assert parts[..|parts| - 1][..n] == parts[..n];
      ConcatBeginning(parts[..|parts| - 1], n);
    }
  }

  lemma ConcatAll(parts: seq<string>)
    ensures Concat(parts[..|parts|]) == Concat(parts)
  {
    assert parts[..|parts|] == parts;
  }

  /** Apart from the staging file nothing differs from the first directory. */
  ghost predicate OnlyStaging(now: Directory, first: Directory, staging: Path) {
    now - {staging} == first
  }

  /** What a reader, or a crash, can find: the directory as it was but for the
      staging file, or the directory with the whole new file and no staging. */
  ghost predicate OldOrNew(now: Directory, first: Directory, path: Path, staging: Path, whole: string) {
    OnlyStaging(now, first, staging) || now == first[path := whole]
  }

  /** So a reader of `path` gets the old file or the whole new one, and sees no
      difference at any other name but the staging file's. */
  lemma ReadersSeeOldOrNew(now: Directory, first: Directory, path: Path, staging: Path, whole: string)
    requires OldOrNew(now, first, path, staging, whole) && staging !in first && staging != path
    ensures if path in now then (path in first && now[path] == first[path]) || now[path] == whole else path !in first
    ensures forall p :: p != path && p != staging ==> (p in now <==> p in first) && (p in first ==> now[p] == first[p])
  {
    if OnlyStaging(now, first, staging) {
      forall p | p != staging ensures (p in now <==> p in first) && (p in first ==> now[p] == first[p]) {
        assert p in now - {staging} <==> p in first;
      }
    }
  }

  datatype Fault = Fine | Fails | Cancels

  class Exporter {
    const faults: nat -> Fault
    const taken: nat -> nat   // how much of a write the disk takes before it fails
    var clock: nat
    var directory: Directory
    ghost var history: seq<Directory>

    constructor (faults: nat -> Fault, taken: nat -> nat, directory: Directory)
      ensures this.faults == faults && this.directory == directory && clock == 0 && history == [directory]
    {
      this.faults, this.taken, this.directory, clock := faults, taken, directory, 0;
      history := [directory];
    }

    /** `count` calls and checks from the t-th on go well. */
    ghost predicate AllFine(from: nat, count: nat) { forall t: nat :: from <= t < from + count ==> faults(t).Fine? }

    /** The staging file gets created. */
    predicate Creates(path: Path, staging: Path)
      reads this
    {
      path != "" && faults(clock).Fine? && !faults(clock + 1).Fails? && staging !in directory
    }

    /** The end of the next call or context check. */
    method Next() returns (f: Fault)
      modifies this`clock
      ensures clock == old(clock) + 1 && f == faults(old(clock))
    {
      f := faults(clock);
      clock := clock + 1;
    }

    /** One more state of the directory. */
    method Enter(next: Directory)
      modifies this`directory, this`history
      ensures directory == next && history == old(history) + [next]
    {
      directory := next;
      history := history + [next];
    }

    /** All states since `from` are as a reader may find them. */
    ghost predicate Kept(from: nat, first: Directory, path: Path, staging: Path, whole: string)
      reads this`history
    {
      from <= |history| && forall n :: from <= n < |history| ==> OldOrNew(history[n], first, path, staging, whole)
    }

    lemma AllFineJoins(from: nat, a: nat, b: nat)
      ensures AllFine(from, a + b) <==> AllFine(from, a) && AllFine(from + a, b)
    {
    }

    lemma AllFineStops(from: nat, a: nat, b: nat)
      requires a <= b && !AllFine(from, a)
      ensures !AllFine(from, b)
    {
    }

    /** One write, with a context check before and after it; `written` counts the
        bytes that reached the staging file. */
    method WritePart(path: Path, staging: Path, part: string, ghost from: nat, ghost first: Directory,
                     ghost whole: string)
      returns (ok: bool, written: nat)
      requires staging in directory && staging !in first && staging != path
      requires OnlyStaging(directory, first, staging) && Kept(from, first, path, staging, whole)
      modifies this
      ensures staging in directory && OnlyStaging(directory, first, staging)
      ensures Kept(from, first, path, staging, whole) && old(history) <= history && clock >= old(clock)
      ensures Wrote(ok, old(directory[staging]), directory[staging], part)
      ensures written == ByteLength(directory[staging]) - ByteLength(old(directory[staging]))
      ensures (ok ==> clock == old(clock) + 3) && (ok <==> AllFine(old(clock), 3))
    {
      var before := Next();
      if !before.Fine? { return false, 0; }
      var now := Next();
      var taking := if now.Fails? && taken(clock) < |part| then part[..taken(clock)] else part;
      ByteLengthAppend(directory[staging], taking);
      Enter(directory[staging := directory[staging] + taking]);
      written := ByteLength(taking);
      if now.Fails? { return false, written; }
      var after := Next();
      ok := now.Fine? && after.Fine?;
    }

    /** The callback's writes, each going to the end of the staging file. */
    method Fill(path: Path, staging: Path, parts: seq<string>, callbackFails: bool, ghost from: nat,
                ghost first: Directory)
      returns (ok: bool, written: nat)
      requires staging in directory && directory[staging] == "" && staging !in first && staging != path
      requires OnlyStaging(directory, first, staging) && Kept(from, first, path, staging, Concat(parts))
      modifies this
      ensures staging in directory && OnlyStaging(directory, first, staging)
      ensures Kept(from, first, path, staging, Concat(parts)) && old(history) <= history
      ensures directory[staging] <= Concat(parts) && written == ByteLength(directory[staging])
      ensures ok ==> directory[staging] == Concat(parts) && clock == old(clock) + 3 * |parts|
      ensures ok <==> !callbackFails && AllFine(old(clock), 3 * |parts|)
      ensures clock >= old(clock) && |history| >= |old(history)|
    {
      written := 0;
      for i := 0 to |parts|
        invariant staging in directory && OnlyStaging(directory, first, staging)
        invariant Kept(from, first, path, staging, Concat(parts)) && old(history) <= history
        invariant directory[staging] == Concat(parts[..i]) && written == ByteLength(directory[staging])
        invariant clock == old(clock) + 3 * i && AllFine(old(clock), 3 * i)
      {
        AllFineJoins(old(clock), 3 * i, 3);
        ConcatMore(parts, i);
        ConcatBeginning(parts, i + 1);
        var count;
        ok, count := WritePart(path, staging, parts[i], from, first, Concat(parts));
        written := written + count;
        if !ok {
          AllFineStops(old(clock), 3 * (i + 1), 3 * |parts|);
          return;
        }
      }
      ConcatAll(parts);
      ok := !callbackFails;
    }

    /** Sync and close, with a context check after each. */
    method Settle() returns (ok: bool)
      modifies this`clock
      ensures ok <==> AllFine(old(clock), 5)
      ensures clock >= old(clock) && (ok ==> clock == old(clock) + 5)
    {
      var f := Next();
      if !f.Fine? { return false; }
      f := Next();
      if !f.Fine? { return false; }
      f := Next();
      if !f.Fine? { return false; }
      f := Next();
      if !f.Fine? { return false; }
      f := Next();
      ok := f.Fine?;
    }

    /** All that goes before the rename, and whether the rename itself succeeds. */
    method Prepare(path: Path, staging: Path, parts: seq<string>, callbackFails: bool, ghost from: nat,
                   ghost first: Directory)
      returns (ok: bool, written: nat)
      requires staging in directory && directory[staging] == "" && staging !in first && staging != path
      requires OnlyStaging(directory, first, staging) && Kept(from, first, path, staging, Concat(parts))
      modifies this
      ensures staging in directory && OnlyStaging(directory, first, staging)
      ensures Kept(from, first, path, staging, Concat(parts)) && old(history) <= history
      ensures directory[staging] <= Concat(parts) && written == ByteLength(directory[staging])
      ensures clock >= old(clock) && (ok ==> directory[staging] == Concat(parts))
      ensures ok <==>
                !callbackFails && AllFine(old(clock), 3 * |parts| + 5) && !faults(old(clock) + 3 * |parts| + 5).Fails?
    {
      ok, written := Fill(path, staging, parts, callbackFails, from, first);
      AllFineJoins(old(clock), 3 * |parts|, 5);
      if ok { ok := Settle(); }
      if ok {
        var f := Next();
        ok := !f.Fails?;
      }
    }

    /** Removes the staging file; the removal may fail, and that is not reported. */
    method Abandon(path: Path, staging: Path, ghost from: nat, ghost first: Directory, ghost whole: string)
      requires staging in directory && staging !in first && staging != path
      requires OnlyStaging(directory, first, staging) && Kept(from, first, path, staging, whole)
      modifies this
      ensures directory == if staging in directory then old(directory) else first
      ensures Kept(from, first, path, staging, whole) && old(history) <= history
      ensures clock == old(clock) + 1 && (staging in directory <==> !faults(old(clock)).Fine?)
    {
      var f := Next();
      if f.Fine? { Enter(directory - {staging}); }
    }

    /** The rename: the staging file takes the place of `path`. */
    method Install(path: Path, staging: Path, ghost from: nat, ghost first: Directory, ghost whole: string)
      requires staging in directory && directory[staging] == whole && staging !in first && staging != path
      requires OnlyStaging(directory, first, staging) && Kept(from, first, path, staging, whole)
      modifies this`directory, this`history
      ensures directory == first[path := whole]
      ensures Kept(from, first, path, staging, whole) && old(history) <= history
    {
      Enter((directory - {staging})[path := directory[staging]]);
    }

    /** Reading `path` gives the old file or the whole new one in every state on
        the way. It succeeds exactly when every call and check goes well, and then
        installs exactly what was written and leaves no staging file. Failure
        leaves everything as it was, except that the staging file remains exactly
        when its removal, the last call made, failed too. `written` counts the bytes
        of what got into the staging file, a beginning of the whole. */
    method WriteFileAtomic(path: Path, staging: Path, parts: seq<string>, callbackFails: bool)
      returns (ok: bool, written: nat, ghost staged: string)
      requires staging != path
      modifies this
      ensures old(history) <= history
      ensures forall n :: |old(history)| <= n < |history| ==>
                OldOrNew(history[n], old(directory), path, staging, Concat(parts))
      ensures ok ==> directory == old(directory)[path := Concat(parts)] && staged == Concat(parts)
      ensures staged <= Concat(parts) && written == ByteLength(staged)
      ensures ok <==> old(Creates(path, staging)) && !callbackFails && AllFine(old(clock) + 2, 3 * |parts| + 5)
                      && !faults(old(clock) + 3 * |parts| + 7).Fails?
      ensures !ok && !old(Creates(path, staging)) ==> directory == old(directory)
      ensures !ok && old(Creates(path, staging)) ==>
                clock > old(clock) + 2 && if faults(clock - 1).Fine? then directory == old(directory)
                                          else directory == old(directory)[staging := staged]
    {
      ok, written, staged := false, 0, "";
      if path == "" { return; }
      var f := Next();
      if !f.Fine? { return; }
      f := Next();
      if f.Fails? || staging in directory { return; }
      ghost var from, first := |history|, directory;
      assert directory[staging := ""] - {staging} == first;
      Enter(directory[staging := ""]);
      ok, written := Prepare(path, staging, parts, callbackFails, from, first);
      staged := directory[staging];
      assert directory == first[staging := staged];
      if ok {
        Install(path, staging, from, first, Concat(parts));
      } else {
        Abandon(path, staging, from, first, Concat(parts));
      }
    }
  }

  /** Two good calls, then nothing but failures. */
  function FailsLater(t: nat): Fault { if t < 2 then Fine else Fails }

  function NothingTaken(t: nat): nat { 0 }

  /** A failed export need not remove its staging file: here the write fails and
      the removal fails too. */
  method StagingLeftBehind() returns (e: Exporter, ok: bool)
    ensures fresh(e) && !ok && "report.tmp" in e.directory && e.directory.Keys == {"report.tmp"}
  {
    e := new Exporter(FailsLater, NothingTaken, map[]);
    assert e.clock == 0 && e.Creates("report.json", "report.tmp");
    assert e.faults(2) == Fails;
    var written: nat;
    ghost var staged;
    ok, written, staged := e.WriteFileAtomic("report.json", "report.tmp", ["{}"], false);
    forall p ensures p in e.directory <==> p == "report.tmp" {
      assert p !in e.directory - {"report.tmp"};
    }
  }
}
