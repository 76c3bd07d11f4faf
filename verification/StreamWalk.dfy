/**
 Which buffers the walk over the streams accepts: those whose entries follow each
 other to a last one, and what it counts is the named ones among them.
 */
module StreamWalk {
  import opened Bytes
  import opened StreamInfo

  /** A whole entry stands at `at`: its header, and a name of whole units. */
  predicate EntryAt(data: seq<byte>, at: nat) {
    at + 24 <= |data| && ReadUInt32(data, at + 4) % 2 == 0 && at + 24 + ReadUInt32(data, at + 4) <= |data|
  }

  /** The entries follow each other from the first: each says how far the next is,
      at least its own header away and inside the buffer, and the last says zero. */
  predicate IsWalk(data: seq<byte>, first: nat, entries: seq<nat>)
    decreases |entries|
  {
    entries != [] && entries[0] == first && EntryAt(data, first)
    && var next := ReadUInt32(data, first);
       if |entries| == 1 then next == 0
       else next >= 24 && first + next < |data| && IsWalk(data, first + next, entries[1..])
  }

  /** The name in the entry at `at`. */
  function NameAt(data: seq<byte>, at: nat): seq<Unit>
    requires EntryAt(data, at)
  {
    ReadUnits(data, at + 24, ReadUInt32(data, at + 4) / 2)
  }

  function NamedCount(data: seq<byte>, first: nat, entries: seq<nat>): nat
    requires IsWalk(data, first, entries)
    decreases |entries|
  {
    (if CountsAsNamed(NameAt(data, first)) then 1 else 0)
    + if |entries| == 1 then 0 else NamedCount(data, first + ReadUInt32(data, first), entries[1..])
  }

  lemma {:induction false} UnitsFurther(data: seq<byte>, offset: nat, at: nat, n: nat)
    requires offset + at + 2 * n <= |data|
    ensures ReadUnits(data[offset..], at, n) == ReadUnits(data, offset + at, n)
  {
    if n > 0 {
      UnitsFurther(data, offset, at, n - 1);
      ReadsFurther(data, offset, at + 2 * (n - 1));
    }
  }

  lemma HeadOfExactly(part: seq<byte>, next: nat, nameBytes: nat, named: Named)
    requires |part| >= HEADER_BYTES
    ensures var head := HeadOf(part, next, nameBytes, named);
            && (head.Ok? <==> nameBytes % 2 == 0 && 24 + nameBytes <= |part| && (next == 0 || 24 <= next < |part|))
            && (head.Ok? ==> head.value == Head(named(part, nameBytes / 2), next))
  {
  }

  lemma RuleAt(data: seq<byte>, at: nat, n: nat, rule: Named)
    requires IsRule(rule) && at + 24 + 2 * n <= |data|
    ensures rule(data[at..], n) == CountsAsNamed(ReadUnits(data, at + 24, n))
  {
    UnitsFurther(data, at, 24, n);
    assert rule(data[at..], n) == NamedAt(data[at..], n);
  }

  /** The two lengths in the header at `at`. */
  lemma LengthsAt(data: seq<byte>, at: nat)
    requires at + 24 <= |data|
    ensures ReadUInt32(data[at..], 0) == ReadUInt32(data, at) && ReadUInt32(data[at..], 4) == ReadUInt32(data, at + 4)
  {
    ReadsFurther(data, at, 0);
    ReadsFurther(data, at, 4);
  }

  lemma HeadAt(data: seq<byte>, at: nat, next: nat, nameBytes: nat, rule: Named)
    requires at + 24 <= |data| && IsRule(rule)
             && next == ReadUInt32(data, at) && nameBytes == ReadUInt32(data, at + 4)
    ensures ReadHead(data[at..], rule) == HeadOf(data[at..], next, nameBytes, rule)
  {
    LengthsAt(data, at);
  }

  /** What the walk makes of the entry at `at`. */
  lemma EntryHead(data: seq<byte>, at: nat, rule: Named)
    requires at <= |data| && IsRule(rule)
    ensures ReadHead(data[at..], rule).Ok? <==>
              EntryAt(data, at) && var next := ReadUInt32(data, at); next == 0 || (next >= 24 && at + next < |data|)
    ensures ReadHead(data[at..], rule).Ok? ==>
              ReadHead(data[at..], rule).value == Head(CountsAsNamed(NameAt(data, at)), ReadUInt32(data, at))
  {
    if at + 24 <= |data| {
      var next, nameBytes := ReadUInt32(data, at), ReadUInt32(data, at + 4);
      HeadAt(data, at, next, nameBytes, rule);
      HeadOfExactly(data[at..], next, nameBytes, rule);
      if EntryAt(data, at) { RuleAt(data, at, nameBytes / 2, rule); }
    }
  }

  lemma CountAfter(data: seq<byte>, first: nat, head: Head, rule: Named)
    requires first <= |data| && ReadHead(data[first..], rule) == Ok(head)
    ensures head.next == 0 ==> CountFrom(data[first..], rule) == Ok(if head.named then 1 else 0)
    ensures head.next != 0 ==>
              first + head.next <= |data|
              && CountFrom(data[first..], rule)
                 == Plus(if head.named then 1 else 0, CountFrom(data[first + head.next..], rule))
  {
    if head.next != 0 { assert data[first..][head.next..] == data[first + head.next..]; }
  }

  lemma CountWith(data: seq<byte>, first: nat, head: Head, rule: Named, rest: nat)
    requires first <= |data| && ReadHead(data[first..], rule) == Ok(head)
    requires if head.next == 0 then rest == 0
             else first + head.next <= |data| && CountFrom(data[first + head.next..], rule) == Ok(rest)
    ensures CountFrom(data[first..], rule) == Ok((if head.named then 1 else 0) + rest)
  {
    CountAfter(data, first, head, rule);
  }

  /** These are the entries of a walk, `count` of them named. */
  predicate Walks(data: seq<byte>, first: nat, entries: seq<nat>, count: nat) {
    IsWalk(data, first, entries) && count == NamedCount(data, first, entries)
  }

  /** The entry at the front of a walk and what follows it. */
  lemma WalkParts(data: seq<byte>, first: nat, entries: seq<nat>, count: nat, rule: Named)
    returns (head: Head, rest: nat)
    requires first <= |data| && IsRule(rule) && Walks(data, first, entries, count)
    ensures ReadHead(data[first..], rule) == Ok(head) && (head.next == 0 <==> |entries| == 1)
    ensures count == (if head.named then 1 else 0) + rest && entries != []
    ensures if |entries| == 1 then rest == 0
            else first + head.next < |data| && Walks(data, first + head.next, entries[1..], rest)
  {
    EntryHead(data, first, rule);
    head := Head(CountsAsNamed(NameAt(data, first)), ReadUInt32(data, first));
    rest := if |entries| == 1 then 0 else NamedCount(data, first + head.next, entries[1..]);
  }

  lemma {:induction false} CountOfWalk(data: seq<byte>, first: nat, entries: seq<nat>, count: nat, rule: Named,
                                       walks: (nat, seq<nat>, nat) -> bool)
    requires first <= |data| && IsRule(rule) && walks(first, entries, count)
    requires forall n: nat, s: seq<nat>, c: nat {:trigger walks(n, s, c)} :: walks(n, s, c) == Walks(data, n, s, c)
    ensures CountFrom(data[first..], rule) == Ok(count)
    decreases |entries|
  {
    assert Walks(data, first, entries, count);
    var head, rest := WalkParts(data, first, entries, count, rule);
    if |entries| > 1 {
      assert walks(first + head.next, entries[1..], rest);
      CountOfWalk(data, first + head.next, entries[1..], rest, rule, walks);
    }
    CountWith(data, first, head, rule, rest);
  }

  /** A buffer that is walked to the end yields the number of named streams. */
  lemma WalkCounted(data: seq<byte>, first: nat, entries: seq<nat>, rule: Named)
    requires first <= |data| && IsRule(rule) && IsWalk(data, first, entries)
    ensures CountFrom(data[first..], rule) == Ok(NamedCount(data, first, entries))
  {
    var count := NamedCount(data, first, entries);
    CountOfWalk(data, first, entries, count, rule, (n: nat, s: seq<nat>, c: nat) => Walks(data, n, s, c));
  }

  lemma WalkGrows(data: seq<byte>, first: nat, head: Head, rest: seq<nat>, rule: Named)
    requires first <= |data| && IsRule(rule) && ReadHead(data[first..], rule) == Ok(head)
    requires if head.next == 0 then rest == []
             else first + head.next < |data| && IsWalk(data, first + head.next, rest)
    ensures IsWalk(data, first, [first] + rest)
  {
    EntryHead(data, first, rule);
    assert ([first] + rest)[1..] == rest;
  }

  /** And every buffer for which there is a count can be walked to the end. */
  lemma {:induction false} CountedWalk(data: seq<byte>, first: nat, rule: Named) returns (entries: seq<nat>)
    requires first <= |data| && IsRule(rule) && CountFrom(data[first..], rule).Ok?
    ensures IsWalk(data, first, entries)
    decreases |data| - first
  {
    var head := ReadHead(data[first..], rule).value;
    CountAfter(data, first, head, rule);
    var rest: seq<nat> := [];
    if head.next != 0 { rest := CountedWalk(data, first + head.next, rule); }
    WalkGrows(data, first, head, rest, rule);
    entries := [first] + rest;
  }
}
