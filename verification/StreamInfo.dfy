/**
 The walk over a FILE_STREAM_INFO buffer that counts a file's named streams:
 safe on any bytes, and right on every chain of stream names.
 */
module StreamInfo {
  import opened Bytes

  const HEADER_BYTES := 24

  datatype StreamError = BadHeader | BadName | BadNextOffset

  /** A UTF-16 code unit. */
  type Unit = x: int | 0 <= x < 0x1_0000

  function Pair(low: int, high: int): int { low + 0x100 * high }

  function ReadUInt16(data: seq<byte>, at: nat): Unit
    requires at + 2 <= |data|
  {
    Pair(data[at], data[at + 1])
  }

  function ReadUInt32(data: seq<byte>, at: nat): nat
    requires at + 4 <= |data|
  {
    Pair(data[at], data[at + 1]) + 0x1_0000 * Pair(data[at + 2], data[at + 3])
  }

  /** The units of a name, from its bytes. */
  function ReadUnits(data: seq<byte>, at: nat, n: nat): (units: seq<Unit>)
    requires at + 2 * n <= |data|
    ensures |units| == n
  {
    if n == 0 then [] else ReadUnits(data, at, n - 1) + [ReadUInt16(data, at + 2 * (n - 1))]
  }

  /** The name up to its first NUL. */
  function Terminated(units: seq<Unit>): seq<Unit> {
    if units == [] || units[0] == 0 then [] else [units[0]] + Terminated(units[1..])
  }

  /** ::$DATA, the unnamed stream. */
  const UNNAMED: seq<Unit> := [58, 58, 36, 68, 65, 84, 65]

  function Upper(u: Unit): Unit { if 97 <= u <= 122 then u - 32 else u }

  /** Equality ignoring case; no letter of ::$DATA has a case variant outside ASCII. */
  predicate EqualFold(a: seq<Unit>, b: seq<Unit>) {
    |a| == |b| && forall i :: 0 <= i < |a| ==> Upper(a[i]) == Upper(b[i])
  }

  predicate CountsAsNamed(units: seq<Unit>) { Terminated(units) != [] && !EqualFold(Terminated(units), UNNAMED) }

  /** ::$DATA however its letters are written. */
  predicate IsUnnamed(name: seq<Unit>) {
    |name| == 7 && name[0] == 58 && name[1] == 58 && name[2] == 36
    && name[3] in {68, 100} && name[4] in {65, 97} && name[5] in {84, 116} && name[6] in {65, 97}
  }

  lemma {:induction false} TerminatedIsBeginning(units: seq<Unit>)
    ensures Terminated(units) <= units && 0 !in Terminated(units)
    ensures Terminated(units) == units || units[|Terminated(units)|] == 0
  {
    if units != [] && units[0] != 0 { TerminatedIsBeginning(units[1..]); }
  }

  /** A stream counts as named unless the name, up to its first NUL, is empty or
      that of the unnamed stream. */
  lemma CountsAsNamedExactly(units: seq<Unit>, n: nat)
    requires n <= |units| && 0 !in units[..n] && (n == |units| || units[n] == 0)
    ensures CountsAsNamed(units) <==> n > 0 && !IsUnnamed(units[..n])
  {
    TerminatedIsBeginning(units);
    var name := Terminated(units);
    if |name| < n { assert units[..n][|name|] == 0; }
    if n < |name| { assert name[n] == units[n]; }
    assert name == units[..n];
  }

  /** The name of n units after the header is that of a named stream. */
  predicate NamedAt(data: seq<byte>, n: nat) {
    HEADER_BYTES + 2 * n <= |data| && CountsAsNamed(ReadUnits(data, HEADER_BYTES, n))
  }

  /** Which entries are counted; the walk itself is the same whatever they are. */
  type Named = (seq<byte>, nat) -> bool

  /** `named` is the rule for named streams. */
  ghost predicate IsRule(named: Named) {
    forall data, n {:trigger NamedAt(data, n)} :: named(data, n) == NamedAt(data, n)
  }

  /** What the walk makes of one entry: whether it counts, and how far the next
      one is (0 after the last). */
  datatype Head = Head(named: bool, next: nat)

  function ReadHead(data: seq<byte>, named: Named): (r: Result<Head, StreamError>)
    ensures r.Ok? ==> |data| >= HEADER_BYTES && (r.value.next == 0 || HEADER_BYTES <= r.value.next < |data|)
  {
    if |data| < HEADER_BYTES then Err(BadHeader)
    else HeadOf(data, ReadUInt32(data, 0), ReadUInt32(data, 4), named)
  }

  /** The head of an entry with these two lengths. */
  function HeadOf(data: seq<byte>, nextOffset: nat, nameBytes: nat, named: Named): (r: Result<Head, StreamError>)
    requires |data| >= HEADER_BYTES
    ensures r.Ok? ==> r.value.next == 0 || HEADER_BYTES <= r.value.next < |data|
  {
    if nameBytes % 2 != 0 || HEADER_BYTES + nameBytes > |data| then Err(BadName)
    else if nextOffset != 0 && (nextOffset < HEADER_BYTES || nextOffset >= |data|) then Err(BadNextOffset)
    else Ok(Head(named(data, nameBytes / 2), nextOffset))
  }

  /** The count over a chain starting at the front of `data`. */
  function CountFrom(data: seq<byte>, named: Named): Result<nat, StreamError>
    decreases |data|
  {
    match ReadHead(data, named)
    case Err(e) => Err(e)
    case Ok(head) =>
      if head.next == 0 then Ok(if head.named then 1 else 0)
      else Plus(if head.named then 1 else 0, CountFrom(data[head.next..], named))
  }

  function Plus(count: nat, rest: Result<nat, StreamError>): Result<nat, StreamError> {
    match rest
    case Err(e) => Err(e)
    case Ok(n) => Ok(count + n)
  }

  /** The count fits: every entry takes at least a header. */
  lemma {:induction false} CountAtMost(data: seq<byte>, named: Named)
    requires CountFrom(data, named).Ok?
    ensures HEADER_BYTES * CountFrom(data, named).value <= |data|
    decreases |data|
  {
    var head := ReadHead(data, named).value;
    if head.next != 0 { CountAtMost(data[head.next..], named); }
  }

  // ------------------------------------------------------------------
  // As it runs.

  lemma ReadsFurther(data: seq<byte>, offset: nat, at: nat)
    requires offset <= |data|
    ensures offset + at + 4 <= |data| ==> ReadUInt32(data, offset + at) == ReadUInt32(data[offset..], at)
    ensures offset + at + 2 <= |data| ==> ReadUInt16(data, offset + at) == ReadUInt16(data[offset..], at)
  {
  }

  method ReadName(buffer: seq<byte>, offset: nat, nameBytes: nat) returns (units: seq<Unit>)
    requires nameBytes % 2 == 0 && offset + HEADER_BYTES + nameBytes <= |buffer|
    ensures units == ReadUnits(buffer[offset..], HEADER_BYTES, nameBytes / 2)
  {
    var nameUnits := new Unit[nameBytes / 2](_ => 0);
    var nameStart := offset + HEADER_BYTES;
    for index := 0 to nameUnits.Length
      invariant nameUnits[..index] == ReadUnits(buffer[offset..], HEADER_BYTES, index)
    {
      var unitStart := nameStart + index * 2;
      ReadsFurther(buffer, offset, HEADER_BYTES + 2 * index);
      nameUnits[index] := ReadUInt16(buffer, unitStart);
    }
    units := nameUnits[..];
  }

  method ReadEntry(buffer: seq<byte>, offset: nat, ghost rule: Named) returns (r: Result<Head, StreamError>)
    requires offset <= |buffer| && IsRule(rule)
    ensures r == ReadHead(buffer[offset..], rule)
  {
    if |buffer| - offset < HEADER_BYTES { return Err(BadHeader); }
    ReadsFurther(buffer, offset, 0);
    ReadsFurther(buffer, offset, 4);
    var nextOffset := ReadUInt32(buffer, offset);
    var nameBytes := ReadUInt32(buffer, offset + 4);
    if nameBytes % 2 != 0 || offset + HEADER_BYTES + nameBytes > |buffer| { return Err(BadName); }
    var units := ReadName(buffer, offset, nameBytes);
    var name := Terminated(units);
    var named := name != [] && !EqualFold(name, UNNAMED);
    assert named == NamedAt(buffer[offset..], nameBytes / 2);
    if nextOffset == 0 { return Ok(Head(named, 0)); }
    if nextOffset < HEADER_BYTES || offset + nextOffset >= |buffer| { return Err(BadNextOffset); }
    r := Ok(Head(named, nextOffset));
  }

  lemma CountStops(data: seq<byte>, count: nat, named: Named)
    requires ReadHead(data, named).Ok? ==> ReadHead(data, named).value.next == 0
    ensures Plus(count, CountFrom(data, named))
         == match ReadHead(data, named)
            case Err(e) => Err(e)
            case Ok(head) => Ok(count + if head.named then 1 else 0)
  {
  }

  lemma CountGoesOn(data: seq<byte>, count: nat, head: Head, named: Named)
    requires ReadHead(data, named) == Ok(head) && head.next != 0
    ensures Plus(count, CountFrom(data, named))
         == Plus(count + (if head.named then 1 else 0), CountFrom(data[head.next..], named))
  {
  }

  lemma Suffix(buffer: seq<byte>, offset: nat, next: nat)
    requires offset + next <= |buffer|
    ensures buffer[offset..][next..] == buffer[offset + next..]
  {
  }

  lemma WalkGoesOn(buffer: seq<byte>, offset: nat, count: nat, head: Head, named: Named)
    requires offset <= |buffer| && ReadHead(buffer[offset..], named) == Ok(head) && head.next != 0
    ensures offset + head.next <= |buffer|
    ensures Plus(count + (if head.named then 1 else 0), CountFrom(buffer[offset + head.next..], named))
         == Plus(count, CountFrom(buffer[offset..], named))
  {
    CountGoesOn(buffer[offset..], count, head, named);
    Suffix(buffer, offset, head.next);
  }

  /** One turn of the walk: the result, or how far it has come. */
  method Advance(buffer: seq<byte>, offset: nat, count: nat, ghost rule: Named)
    returns (done: Option<Result<nat, StreamError>>, newCount: nat, newOffset: nat)
    requires offset <= |buffer| && IsRule(rule)
    ensures done.Some? ==> done.value == Plus(count, CountFrom(buffer[offset..], rule))
    ensures done.None? ==> offset < newOffset <= |buffer|
    ensures done.None? ==>
              Plus(newCount, CountFrom(buffer[newOffset..], rule)) == Plus(count, CountFrom(buffer[offset..], rule))
  {
    newCount, newOffset := count, offset;
    var head := ReadEntry(buffer, offset, rule);
    if head.Err? || head.value.next == 0 { CountStops(buffer[offset..], count, rule); }
    if head.Err? { return Some(Err(head.error)), newCount, newOffset; }
    if head.value.named { newCount := newCount + 1; }
    if head.value.next == 0 { return Some(Ok(newCount)), newCount, newOffset; }
    WalkGoesOn(buffer, offset, count, head.value, rule);
    newOffset := offset + head.value.next;
    done := None;
  }

  /** The walk ends, reads only inside the buffer, and counts what the chain says. */
  method CountNamedStreamsInBuffer(buffer: seq<byte>, ghost rule: Named) returns (r: Result<nat, StreamError>)
    requires IsRule(rule)
    ensures r == CountFrom(buffer, rule)
  {
    var count, offset := 0, 0;
    assert buffer[0..] == buffer;
    while true
      invariant offset <= |buffer| && CountFrom(buffer, rule) == Plus(count, CountFrom(buffer[offset..], rule))
      decreases |buffer| - offset
    {
      var done, newCount, newOffset := Advance(buffer, offset, count, rule);
      if done.Some? { return done.value; }
      count, offset := newCount, newOffset;
    }
  }

  // ------------------------------------------------------------------
  // Chains.

  function WriteUInt32(v: nat): (bytes: seq<byte>)
    requires v < 0x1_0000_0000
    ensures |bytes| == 4
  {
    [v % 0x100, v / 0x100 % 0x100, v / 0x1_0000 % 0x100, v / 0x100_0000]
  }

  lemma WordRoundTrip(v: nat)
    requires v < 0x1_0000_0000
    ensures ReadUInt32(WriteUInt32(v), 0) == v
  {
    var a, b, c := v / 0x100, v / 0x1_0000, v / 0x100_0000;
    assert b == a / 0x100 && c == b / 0x100;
    assert v == a * 0x100 + v % 0x100 && a == b * 0x100 + a % 0x100 && b == c * 0x100 + b % 0x100;
  }

  function UnitBytes(units: seq<Unit>): (bytes: seq<byte>)
    ensures |bytes| == 2 * |units|
  {
    if units == [] then []
    else UnitBytes(units[..|units| - 1]) + [units[|units| - 1] % 0x100, units[|units| - 1] / 0x100]
  }

  /** One entry: the name, the 16 bytes of sizes in its header, and the padding
      after the name (for the last entry, the rest of the buffer). */
  datatype Entry = Entry(name: seq<Unit>, sizes: seq<byte>, padding: seq<byte>)

  function EntryLength(e: Entry): nat { HEADER_BYTES + 2 * |e.name| + |e.padding| }

  predicate GoodEntry(e: Entry) { |e.sizes| == 16 && EntryLength(e) < 0x1_0000_0000 }

  function EntryBytes(e: Entry, last: bool): (bytes: seq<byte>)
    requires GoodEntry(e)
    ensures |bytes| == EntryLength(e)
  {
    WriteUInt32(if last then 0 else EntryLength(e)) + WriteUInt32(2 * |e.name|) + e.sizes + UnitBytes(e.name)
      + e.padding
  }

  predicate GoodEntries(entries: seq<Entry>) { forall e :: e in entries ==> GoodEntry(e) }

  function ChainBytes(entries: seq<Entry>): (bytes: seq<byte>)
    requires entries != [] && GoodEntries(entries)
    ensures |bytes| >= HEADER_BYTES
  {
    assert entries[0] in entries;
    if |entries| == 1 then EntryBytes(entries[0], true)
    else
      assert GoodEntries(entries[1..]);
      EntryBytes(entries[0], false) + ChainBytes(entries[1..])
  }

  function CountNamed(entries: seq<Entry>): nat {
    if entries == [] then 0 else (if CountsAsNamed(entries[0].name) then 1 else 0) + CountNamed(entries[1..])
  }

  lemma ReadAtBytes(data: seq<byte>, at: nat, v: nat)
    requires v < 0x1_0000_0000 && at + 4 <= |data| && data[at..at + 4] == WriteUInt32(v)
    ensures ReadUInt32(data, at) == v
  {
    WordRoundTrip(v);
    var word := data[at..at + 4];
    assert word[0] == data[at] && word[1] == data[at + 1] && word[2] == data[at + 2] && word[3] == data[at + 3];
  }

  lemma {:induction false} UnitBytesAt(units: seq<Unit>, i: nat)
    requires i < |units|
    ensures ReadUInt16(UnitBytes(units), 2 * i) == units[i]
  {
    var n := |units| - 1;
    if i < n { UnitBytesAt(units[..n], i); }
  }

  lemma Parts(a: seq<byte>, b: seq<byte>, c: seq<byte>, d: seq<byte>, e: seq<byte>)
    requires |a| == 4 && |b| == 4 && |c| == 16
    ensures var data := a + b + c + d + e;
            data[0..4] == a && data[4..8] == b && data[24..24 + |d|] == d && data[24 + |d|..] == e
  {
  }

  lemma UnitRead(data: seq<byte>, at: nat, name: seq<Unit>, i: nat)
    requires at + 2 * |name| <= |data| && data[at..at + 2 * |name|] == UnitBytes(name) && i < |name|
    ensures ReadUInt16(data, at + 2 * i) == name[i]
  {
    var bytes := data[at..at + 2 * |name|];
    UnitBytesAt(name, i);
    assert bytes[2 * i] == data[at + 2 * i] && bytes[2 * i + 1] == data[at + 2 * i + 1];
  }

  lemma {:induction false} NameRead(data: seq<byte>, at: nat, name: seq<Unit>, n: nat)
    requires n <= |name| && at + 2 * |name| <= |data| && data[at..at + 2 * |name|] == UnitBytes(name)
    ensures ReadUnits(data, at, n) == name[..n]
  {
    if n > 0 {
      NameRead(data, at, name, n - 1);
      UnitRead(data, at, name, n - 1);
    }
  }

  /** The header and name of an entry are read back, whatever follows. */
  lemma EntryRead(e: Entry, last: bool, rest: seq<byte>)
    requires GoodEntry(e)
    ensures var data := EntryBytes(e, last) + rest;
            && |data| == EntryLength(e) + |rest| && data[EntryLength(e)..] == rest
            && ReadUInt32(data, 0) == (if last then 0 else EntryLength(e)) && ReadUInt32(data, 4) == 2 * |e.name|
            && ReadUnits(data, HEADER_BYTES, |e.name|) == e.name
  {
    var data := EntryBytes(e, last) + rest;
    var next := if last then 0 else EntryLength(e);
    Parts(WriteUInt32(next), WriteUInt32(2 * |e.name|), e.sizes, UnitBytes(e.name), e.padding);
    var bytes := EntryBytes(e, last);
    assert data[0..4] == bytes[0..4] && data[4..8] == bytes[4..8];
    assert data[HEADER_BYTES..HEADER_BYTES + 2 * |e.name|] == bytes[HEADER_BYTES..HEADER_BYTES + 2 * |e.name|];
    ReadAtBytes(data, 0, next);
    ReadAtBytes(data, 4, 2 * |e.name|);
    NameRead(data, HEADER_BYTES, e.name, |e.name|);
    assert e.name[..|e.name|] == e.name;
  }

  lemma HeadIs(data: seq<byte>, next: nat, n: nat, named: Named)
    requires HEADER_BYTES + 2 * n <= |data| && (next == 0 || HEADER_BYTES <= next < |data|)
    requires ReadUInt32(data, 0) == next && ReadUInt32(data, 4) == 2 * n
    ensures ReadHead(data, named) == Ok(Head(named(data, n), next))
  {
    HeadOfName(data, next, n, named);
  }

  lemma HeadOfName(data: seq<byte>, next: nat, n: nat, named: Named)
    requires HEADER_BYTES + 2 * n <= |data| && (next == 0 || HEADER_BYTES <= next < |data|)
    ensures HeadOf(data, next, 2 * n, named) == Ok(Head(named(data, n), next))
  {
    assert 2 * n % 2 == 0 && 2 * n / 2 == n;
  }

  lemma NameCounts(data: seq<byte>, name: seq<Unit>, named: Named)
    requires HEADER_BYTES + 2 * |name| <= |data| && ReadUnits(data, HEADER_BYTES, |name|) == name && IsRule(named)
    ensures named(data, |name|) == CountsAsNamed(name)
  {
    assert NamedAt(data, |name|) == CountsAsNamed(name);
  }

  lemma HeadOfEntry(e: Entry, last: bool, rest: seq<byte>, named: Named)
    requires GoodEntry(e) && (!last ==> rest != []) && IsRule(named)
    ensures ReadHead(EntryBytes(e, last) + rest, named)
         == Ok(Head(CountsAsNamed(e.name), if last then 0 else EntryLength(e)))
  {
    EntryRead(e, last, rest);
    HeadIs(EntryBytes(e, last) + rest, if last then 0 else EntryLength(e), |e.name|, named);
    NameCounts(EntryBytes(e, last) + rest, e.name, named);
  }

  /** On the chain of any list of names, with any padding, the walk counts the
      names that are not empty and not the unnamed stream. */
  lemma {:induction false} ChainCounted(entries: seq<Entry>, named: Named)
    requires entries != [] && GoodEntries(entries) && IsRule(named)
    ensures CountFrom(ChainBytes(entries), named) == Ok(CountNamed(entries))
    decreases |entries|
  {
    var e := entries[0];
    assert e in entries;
    if |entries| == 1 {
      HeadOfEntry(e, true, [], named);
      assert EntryBytes(e, true) + [] == EntryBytes(e, true);
      assert CountNamed(entries[1..]) == 0;
    } else {
      var rest := entries[1..];
      assert GoodEntries(rest);
      HeadOfEntry(e, false, ChainBytes(rest), named);
      EntryRead(e, false, ChainBytes(rest));
      ChainCounted(rest, named);
    }
  }
}
