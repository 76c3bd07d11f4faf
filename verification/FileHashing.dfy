/**
 Reading a file into its SHA-256, a buffer at a time, and the disk that a scan
 sees when every file is read that way.
 */
module FileHashing {
  import opened Bytes
  import opened Records
  import opened Scan

  datatype ReadEnd = More | AtEof | ReadFailed

  datatype CopyEnd = Copied | ContextDone | ReadError | NoProgress

  /** A file reader: the t-th call offers up to `chunk(t)` bytes and may announce
      the end together with the last bytes, or fail. */
  datatype Reader = Reader(content: Content, chunk: nat -> nat, ending: nat -> ReadEnd) {
    function Count(t: nat, pos: nat, bufferSize: nat): (n: nat)
      requires pos <= |content|
      ensures pos + n <= |content|
    {
      Min(Min(chunk(t), bufferSize), |content| - pos)
    }

    function End(t: nat, pos: nat, bufferSize: nat): ReadEnd
      requires pos <= |content|
    {
      if ending(t) == ReadFailed then ReadFailed
      else if pos == |content| then AtEof
      else if ending(t) == AtEof && pos + Count(t, pos, bufferSize) == |content| then AtEof
      else More
    }
  }

  /** How the copy ends that makes its t-th read at `pos`. */
  function CopyEndAt(source: Reader, stopped: nat -> bool, bufferSize: nat, t: nat, pos: nat): CopyEnd
    requires pos <= |source.content|
    decreases |source.content| - pos
  {
    if stopped(t) then ContextDone
    else
      var read := source.Count(t, pos, bufferSize);
      match source.End(t, pos, bufferSize)
      case AtEof => Copied
      case ReadFailed => ReadError
      case More => if read == 0 then NoProgress else CopyEndAt(source, stopped, bufferSize, t + 1, pos + read)
  }

  predicate Faultless(source: Reader, stopped: nat -> bool, t: nat) {
    !stopped(t) && source.ending(t) != ReadFailed && source.chunk(t) > 0
  }

  /** Without faults a copy completes, whatever the sizes of the reads. */
  lemma {:induction false} FaultlessCopies(source: Reader, stopped: nat -> bool, bufferSize: nat, t: nat, pos: nat)
    requires pos <= |source.content| && bufferSize > 0 && forall i :: Faultless(source, stopped, i)
    ensures CopyEndAt(source, stopped, bufferSize, t, pos) == Copied
    decreases |source.content| - pos
  {
    assert Faultless(source, stopped, t);
    if source.End(t, pos, bufferSize) == More {
      FaultlessCopies(source, stopped, bufferSize, t + 1, pos + source.Count(t, pos, bufferSize));
    }
  }

  /** Whatever chunk sizes the reader returns, a completed copy is the whole file
      and an interrupted one is a prefix; without faults the copy completes. */
  method CopyWithContext(source: Reader, stopped: nat -> bool, bufferSize: nat) returns (written: Content, end: CopyEnd)
    ensures written <= source.content
    ensures end == Copied ==> written == source.content
    ensures end == CopyEndAt(source, stopped, bufferSize, 0, 0)
    ensures bufferSize > 0 && (forall t :: Faultless(source, stopped, t)) ==> end == Copied
  {
    written := [];
    var t := 0;
    if bufferSize > 0 && forall i :: Faultless(source, stopped, i) {
      FaultlessCopies(source, stopped, bufferSize, 0, 0);
    }
    while true
      invariant written <= source.content
      invariant CopyEndAt(source, stopped, bufferSize, t, |written|) == CopyEndAt(source, stopped, bufferSize, 0, 0)
      decreases |source.content| - |written|
    {
      if stopped(t) { return written, ContextDone; }
      var read := source.Count(t, |written|, bufferSize);
      var readEnd := source.End(t, |written|, bufferSize);
      written := written + source.content[|written|..|written| + read];
      if readEnd == AtEof { return written, Copied; }
      if readEnd == ReadFailed { return written, ReadError; }
      if read == 0 { return written, NoProgress; }
      t := t + 1;
    }
  }

  // ------------------------------------------------------------------
  // Hashing.

  /** The files of a scan: whether a record can be opened as it was found, how its
      content is read, and whether it is still the same afterwards. */
  datatype Storage = Storage(
    boundaryGate: FileRecord -> Option<ScanError>,
    openGate: FileRecord -> Option<ScanError>,
    stableGate: FileRecord -> Option<ScanError>,
    reader: FileRecord -> Reader,
    stopped: FileRecord -> nat -> bool,
    bufferSize: nat,
    xxhash: Content -> nat,
    sha256: Content -> string)

  function CopyFailure(end: CopyEnd): Option<ScanError> {
    match end
    case Copied => None
    case ContextDone => Some(Cancelled)
    case ReadError | NoProgress => Some(OtherError)
  }

  /** Why the record cannot be hashed, if so: the first of the three steps to fail. */
  function FullGate(s: Storage, r: FileRecord): Option<ScanError> {
    if s.openGate(r).Some? then s.openGate(r)
    else
      var failure := CopyFailure(CopyEndAt(s.reader(r), s.stopped(r), s.bufferSize, 0, 0));
      if failure.Some? then failure else s.stableGate(r)
  }

  /** The disk as the scan sees it. */
  function DiskOf(s: Storage): Disk {
    Disk(s.boundaryGate, (r: FileRecord) => FullGate(s, r), (r: FileRecord) => s.reader(r).content, s.xxhash, s.sha256)
  }

  /** A file is opened, read through the buffer into the hash, and verified again. */
  method FullHashOf(s: Storage, r: FileRecord) returns (h: Result<FullKey, ScanError>)
    ensures h == FullHash(DiskOf(s), r)
  {
    if s.openGate(r).Some? { return Err(s.openGate(r).value); }
    var written, end := CopyWithContext(s.reader(r), s.stopped(r), s.bufferSize);
    var failure := CopyFailure(end);
    if failure.Some? { return Err(failure.value); }
    if s.stableGate(r).Some? { return Err(s.stableGate(r).value); }
    h := Ok(FullKey(r.size, s.sha256(written)));
  }

  method FullHashes(s: Storage, files: seq<FileRecord>) returns (results: seq<Result<FullKey, ScanError>>)
    ensures |results| == |files| && forall i :: 0 <= i < |files| ==> results[i] == FullHash(DiskOf(s), files[i])
  {
    results := [];
    for i := 0 to |files|
      invariant |results| == i && forall j :: 0 <= j < i ==> results[j] == FullHash(DiskOf(s), files[j])
    {
      var h := FullHashOf(s, files[i]);
      results := results + [h];
    }
  }

  /** The same files, read by other readers. */
  ghost predicate SameFiles(a: Storage, b: Storage) {
    && b == a.(reader := b.reader, stopped := b.stopped, bufferSize := b.bufferSize)
    && forall r :: b.reader(r).content == a.reader(r).content
  }

  /** The record is read without a fault. */
  ghost predicate ReadsWell(s: Storage, r: FileRecord) {
    s.bufferSize > 0 && forall t :: Faultless(s.reader(r), s.stopped(r), t)
  }

  lemma SameHashes(a: Storage, b: Storage, r: FileRecord)
    requires SameFiles(a, b) && ReadsWell(a, r) && ReadsWell(b, r)
    ensures FullHash(DiskOf(a), r) == FullHash(DiskOf(b), r) && BoundaryHash(DiskOf(a), r) == BoundaryHash(DiskOf(b), r)
  {
    FaultlessCopies(a.reader(r), a.stopped(r), a.bufferSize, 0, 0);
    FaultlessCopies(b.reader(r), b.stopped(r), b.bufferSize, 0, 0);
  }
}
