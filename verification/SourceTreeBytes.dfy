/**
 The bytes whose hash identifies a source tree: the canonical text in UTF-8.
 Different trees have different bytes.
 */
module SourceTreeBytes {
  import opened Bytes
  import opened SourceTree

  // ------------------------------------------------------------------
  // UTF-8.

  /** A code point that UTF-16 can write. */
  type CodePoint = c: int | 0 <= c < 0x11_0000

  function Encode(c: CodePoint): (bytes: seq<byte>)
    ensures 1 <= |bytes| <= 4
  {
    if c < 0x80 then [c]
    else if c < 0x800 then [0xC0 + c / 64, 0x80 + c % 64]
    else if c < 0x1_0000 then [0xE0 + c / 4096, 0x80 + c / 64 % 64, 0x80 + c % 64]
    else [0xF0 + c / 0x4_0000, 0x80 + c / 4096 % 64, 0x80 + c / 64 % 64, 0x80 + c % 64]
  }

  /** How many bytes the first one announces. */
  function Announced(first: byte): nat {
    if first < 0xC0 then 1 else if first < 0xE0 then 2 else if first < 0xF0 then 3 else 4
  }

  /** The code point written at the front of `s`, if something is. */
  function Decode(s: seq<byte>): int {
    if s == [] || |s| < Announced(s[0]) then -1
    else if Announced(s[0]) == 1 then s[0]
    else if Announced(s[0]) == 2 then (s[0] as int - 0xC0) * 64 + Low(s[1])
    else if Announced(s[0]) == 3 then (s[0] as int - 0xE0) * 4096 + Low(s[1]) * 64 + Low(s[2])
    else (s[0] as int - 0xF0) * 0x4_0000 + Low(s[1]) * 4096 + Low(s[2]) * 64 + Low(s[3])
  }

  /** What a byte after the first adds. */
  function Low(b: byte): int { b as int - 0x80 }

  lemma DecodesEncoded(c: CodePoint, rest: seq<byte>)
    ensures Announced(Encode(c)[0]) == |Encode(c)| && Decode(Encode(c) + rest) == c
  {
    var s := Encode(c) + rest;
    assert forall i :: 0 <= i < |Encode(c)| ==> s[i] == Encode(c)[i];
    Digits(c);
  }

  /** The digits to base 64. */
  lemma Digits(c: nat)
    ensures c == c / 64 * 64 + c % 64 && c / 64 == c / 4096 * 64 + c / 64 % 64
    ensures c / 4096 == c / 0x4_0000 * 64 + c / 4096 % 64
  {
    assert c / 64 / 64 == c / 4096 && c / 4096 / 64 == c / 0x4_0000;
  }

  /** Equal bytes start with the same code point. */
  lemma SameFirst(c: CodePoint, x: seq<byte>, d: CodePoint, y: seq<byte>)
    requires Encode(c) + x == Encode(d) + y
    ensures c == d && x == y
  {
    DecodesEncoded(c, x);
    DecodesEncoded(d, y);
    assert x == (Encode(c) + x)[|Encode(c)|..] && y == (Encode(d) + y)[|Encode(d)|..];
  }

  /** The units that write the first code point. */
  function FirstUnits(t: Text): (n: nat)
    requires WellFormed(t) && t != []
    ensures n <= |t| && WellFormed(t[n..])
  {
    if IsHigh(t[0]) then 2 else 1
  }

  function FirstCode(t: Text): CodePoint
    requires WellFormed(t) && t != []
  {
    if IsHigh(t[0]) then 0x1_0000 + (t[0] as int - 0xD800) * 0x400 + (t[1] as int - 0xDC00) else t[0]
  }

  function Utf8(t: Text): (bytes: seq<byte>)
    requires WellFormed(t)
  {
    if t == [] then [] else Encode(FirstCode(t)) + Utf8(t[FirstUnits(t)..])
  }

  /** The count that goes before a path is that of its bytes. */
  lemma {:induction false} ByteCountExactly(t: Text)
    requires WellFormed(t)
    ensures |Utf8(t)| == ByteCount(t)
  {
    if t != [] { ByteCountExactly(t[FirstUnits(t)..]); }
  }

  lemma SameCodeSameUnits(a: Text, b: Text)
    requires WellFormed(a) && WellFormed(b) && a != [] && b != [] && FirstCode(a) == FirstCode(b)
    ensures FirstUnits(a) == FirstUnits(b) && a[..FirstUnits(a)] == b[..FirstUnits(b)]
  {
    if IsHigh(a[0]) {
      assert IsHigh(b[0]) && a[0] == b[0] && a[1] == b[1];
    }
  }

  /** Different texts have different bytes. */
  lemma {:induction false} Utf8Injective(a: Text, b: Text)
    requires WellFormed(a) && WellFormed(b) && Utf8(a) == Utf8(b)
    ensures a == b
    decreases |a|
  {
    if a == [] || b == [] {
      ByteCountExactly(a);
      ByteCountExactly(b);
      if a == [] { NoBytesNoText(b); } else { NoBytesNoText(a); }
    } else {
      var n, m := FirstUnits(a), FirstUnits(b);
      SameFirst(FirstCode(a), Utf8(a[n..]), FirstCode(b), Utf8(b[m..]));
      SameCodeSameUnits(a, b);
      Utf8Injective(a[n..], b[m..]);
      assert a == a[..n] + a[n..] && b == b[..m] + b[m..];
    }
  }

  // ------------------------------------------------------------------
  // The canonical text can be encoded.

  lemma {:induction false} JoinedWellFormed(a: Text, b: Text)
    requires WellFormed(a) && WellFormed(b)
    ensures WellFormed(a + b)
    decreases |a|
  {
    if a == [] {
      assert a + b == b;
    } else {
      var n := FirstUnits(a);
      JoinedWellFormed(a[n..], b);
      assert (a + b)[n..] == a[n..] + b;
    }
  }

  lemma {:induction false} PlainWellFormed(t: Text)
    requires forall i :: 0 <= i < |t| ==> !IsHigh(t[i]) && !IsLow(t[i])
    ensures WellFormed(t)
  {
    if t != [] { PlainWellFormed(t[1..]); }
  }

  /** A file hash is hexadecimal. */
  predicate PlainHash(f: File) { forall i :: 0 <= i < |f.hash| ==> f.hash[i] < 0x80 && f.hash[i] != NEWLINE }

  lemma LineWellFormed(f: File)
    requires Encodable(f) && PlainHash(f)
    ensures WellFormed(Line(f))
  {
    var count, length := Decimal(ByteCount(f.path)) + [COLON], [NUL] + Decimal(f.length) + [NUL] + f.hash + [NEWLINE];
    PlainWellFormed(count);
    PlainWellFormed(length);
    JoinedWellFormed(f.path, length);
    JoinedWellFormed(count, f.path + length);
    LineJoins(Decimal(ByteCount(f.path)), f.path, Decimal(f.length), f.hash);
  }

  lemma LineJoins(count: Text, path: Text, length: Text, hash: Text)
    ensures count + [COLON] + path + [NUL] + length + [NUL] + hash + [NEWLINE]
         == (count + [COLON]) + (path + ([NUL] + length + [NUL] + hash + [NEWLINE]))
  {
  }

  predicate AllPlain(files: seq<File>) { forall f :: f in files ==> PlainHash(f) }

  lemma {:induction false} TreeTextWellFormed(files: seq<File>)
    requires AllEncodable(files) && AllPlain(files)
    ensures WellFormed(TreeText(files))
  {
    if files != [] {
      LineWellFormed(files[0]);
      TreeTextWellFormed(files[1..]);
      JoinedWellFormed(Line(files[0]), TreeText(files[1..]));
    }
  }

  lemma CanonicalWellFormed(disk: Disk, paths: seq<Text>)
    requires Readable(disk, paths) && forall p :: p in paths ==> PlainHash(FileAt(disk, p))
    ensures WellFormed(CanonicalText(disk, paths))
  {
    CanonicalReadable(disk, paths);
    var files := FilesAt(disk, Canonical(paths));
    forall f | f in files ensures PlainHash(f) {
      var i :| 0 <= i < |files| && files[i] == f;
      assert Canonical(paths)[i] in paths;
    }
    TreeTextWellFormed(files);
  }

  /** What is hashed: the same bytes exactly for the same files, however they were
      enumerated. */
  lemma SameBytesExactly(disk: Disk, paths: seq<Text>, disk': Disk, paths': seq<Text>)
    requires Readable(disk, paths) && Readable(disk', paths') && Distinct(paths) && Distinct(paths')
    requires forall p :: p in paths ==> PlainHash(FileAt(disk, p))
    requires forall p :: p in paths' ==> PlainHash(FileAt(disk', p))
    ensures WellFormed(CanonicalText(disk, paths)) && WellFormed(CanonicalText(disk', paths'))
    ensures Utf8(CanonicalText(disk, paths)) == Utf8(CanonicalText(disk', paths'))
       <==> Tree(disk, paths) == Tree(disk', paths')
  {
    CanonicalWellFormed(disk, paths);
    CanonicalWellFormed(disk', paths');
    SameTextExactly(disk, paths, disk', paths');
    if Utf8(CanonicalText(disk, paths)) == Utf8(CanonicalText(disk', paths')) {
      Utf8Injective(CanonicalText(disk, paths), CanonicalText(disk', paths'));
    }
  }
}
