/**
 The canonical text of a source tree, whose hash identifies the tree: equal
 texts come from equal trees, and the order in which files are enumerated does
 not matter.
 */
module SourceTree {
  import opened Bytes
  import opened Sorting

  /** A UTF-16 code unit. */
  type Unit = x: int | 0 <= x < 0x1_0000

  type Text = seq<Unit>

  const NUL: Unit := 0
  const NEWLINE: Unit := 10
  const COLON: Unit := 58
  const BACKSLASH: Unit := 92
  const SLASH: Unit := 47

  datatype File = File(path: Text, length: nat, hash: Text)

  // ------------------------------------------------------------------
  // Lengths in UTF-8.

  predicate IsHigh(u: Unit) { 0xD800 <= u <= 0xDBFF }

  predicate IsLow(u: Unit) { 0xDC00 <= u <= 0xDFFF }

  /** Every surrogate is part of a pair; the strict encoder refuses anything else. */
  predicate WellFormed(t: Text) {
    t == []
    || (if IsHigh(t[0]) then |t| >= 2 && IsLow(t[1]) && WellFormed(t[2..]) else !IsLow(t[0]) && WellFormed(t[1..]))
  }

  function ByteCount(t: Text): nat
    requires WellFormed(t)
  {
    if t == [] then 0
    else if IsHigh(t[0]) then 4 + ByteCount(t[2..])
    else (if t[0] < 0x80 then 1 else if t[0] < 0x800 then 2 else 3) + ByteCount(t[1..])
  }

  lemma {:induction false} NoBytesNoText(t: Text)
    requires WellFormed(t) && ByteCount(t) == 0
    ensures t == []
  {
  }

  /** Two well-formed beginnings of a text with the same number of bytes are the same. */
  lemma {:induction false} SameBeginning(a: Text, x: Text, b: Text, y: Text)
    requires WellFormed(a) && WellFormed(b) && ByteCount(a) == ByteCount(b) && a + x == b + y
    ensures a == b && x == y
    decreases |a|
  {
    if a == [] {
      NoBytesNoText(b);
      assert a + x == x && b + y == y;
    } else if b == [] {
      NoBytesNoText(a);
    } else {
      assert a[0] == (a + x)[0] && b[0] == (b + y)[0];
      var n := if IsHigh(a[0]) then 2 else 1;
      FirstUnits(a, x, b, y, n);
      SameBeginning(a[n..], x, b[n..], y);
    }
  }

  lemma FirstUnits(a: Text, x: Text, b: Text, y: Text, n: nat)
    requires n <= |a| && n <= |b| && a + x == b + y
    ensures a[n..] + x == b[n..] + y && a[..n] == b[..n]
    ensures a == a[..n] + a[n..] && b == b[..n] + b[n..]
  {
    assert a[n..] + x == (a + x)[n..] && b[n..] + y == (b + y)[n..];
    assert a[..n] == (a + x)[..n] && b[..n] == (b + y)[..n];
  }

  // ------------------------------------------------------------------
  // The text.

  function Decimal(n: nat): (t: Text)
    ensures |t| > 0 && forall i :: 0 <= i < |t| ==> 48 <= t[i] <= 57
  {
    if n < 10 then [48 + n] else Decimal(n / 10) + [48 + n % 10]
  }

  predicate Encodable(f: File) { WellFormed(f.path) && NEWLINE !in f.hash }

  function Line(f: File): Text
    requires Encodable(f)
  {
    Decimal(ByteCount(f.path)) + [COLON] + f.path + [NUL] + Decimal(f.length) + [NUL] + f.hash + [NEWLINE]
  }

  predicate AllEncodable(files: seq<File>) { forall f :: f in files ==> Encodable(f) }

  function TreeText(files: seq<File>): Text
    requires AllEncodable(files)
  {
    if files == [] then []
    else
      assert files[0] in files;
      Line(files[0]) + TreeText(files[1..])
  }

  // ------------------------------------------------------------------
  // Injectivity.

  lemma {:induction false} DecimalInjective(m: nat, n: nat)
    requires Decimal(m) == Decimal(n)
    ensures m == n
  {
    var a, b := Decimal(m), Decimal(n);
    assert a[|a| - 1] == 48 + m % 10 && b[|b| - 1] == 48 + n % 10;
    if m >= 10 && n >= 10 {
      assert a[..|a| - 1] == Decimal(m / 10) && b[..|b| - 1] == Decimal(n / 10);
      DecimalInjective(m / 10, n / 10);
    }
  }

  /** The first separator ends the same part in equal texts. */
  lemma {:induction false} SameUpTo(sep: Unit, a: Text, x: Text, b: Text, y: Text)
    requires sep !in a && sep !in b && a + [sep] + x == b + [sep] + y
    ensures a == b && x == y
  {
    FirstSeparator(sep, a, x);
    FirstSeparator(sep, b, y);
  }

  lemma FirstSeparator(sep: Unit, a: Text, x: Text)
    requires sep !in a
    ensures var s := a + [sep] + x;
            s[|a|] == sep && (forall i :: 0 <= i < |a| ==> s[i] != sep) && a == s[..|a|] && x == s[|a| + 1..]
  {
    var s := a + [sep] + x;
    forall i | 0 <= i < |a| ensures s[i] != sep { assert s[i] == a[i]; }
  }

  lemma NoSeparator(n: nat)
    ensures COLON !in Decimal(n) && NUL !in Decimal(n)
  {
  }

  function AfterLength(f: File): Text { f.hash + [NEWLINE] }

  function AfterPath(f: File): Text { Decimal(f.length) + [NUL] + AfterLength(f) }

  lemma LineParts(f: File, rest: Text)
    requires Encodable(f)
    ensures Line(f) + rest == Decimal(ByteCount(f.path)) + [COLON] + (f.path + ([NUL] + (AfterPath(f) + rest)))
    ensures AfterPath(f) + rest == Decimal(f.length) + [NUL] + (f.hash + [NEWLINE] + rest)
  {
    var a, b, c, d, e, g := Decimal(ByteCount(f.path)), [COLON], f.path, [NUL], Decimal(f.length), f.hash + [NEWLINE];
    assert Line(f) == a + b + (c + (d + (e + d + g)));
    Associates(a + b, c + (d + (e + d + g)), rest);
    Associates(c, d + (e + d + g), rest);
    Associates(d, e + d + g, rest);
    Associates(e + d, g, rest);
  }

  lemma Associates(a: Text, b: Text, c: Text)
    ensures (a + b) + c == a + (b + c)
  {
  }

  lemma FirstUnitOff(x: Text, y: Text, u: Unit)
    requires [u] + x == [u] + y
    ensures x == y
  {
    assert x == ([u] + x)[1..] && y == ([u] + y)[1..];
  }

  /** A line is read back from the front of any text. */
  lemma LineInjective(f: File, x: Text, g: File, y: Text)
    requires Encodable(f) && Encodable(g) && Line(f) + x == Line(g) + y
    ensures f == g && x == y
  {
    LineParts(f, x);
    LineParts(g, y);
    NoSeparator(ByteCount(f.path));
    NoSeparator(ByteCount(g.path));
    SameUpTo(COLON, Decimal(ByteCount(f.path)), f.path + ([NUL] + (AfterPath(f) + x)),
             Decimal(ByteCount(g.path)), g.path + ([NUL] + (AfterPath(g) + y)));
    DecimalInjective(ByteCount(f.path), ByteCount(g.path));
    SameBeginning(f.path, [NUL] + (AfterPath(f) + x), g.path, [NUL] + (AfterPath(g) + y));
    FirstUnitOff(AfterPath(f) + x, AfterPath(g) + y, NUL);
    NoSeparator(f.length);
    NoSeparator(g.length);
    SameUpTo(NUL, Decimal(f.length), f.hash + [NEWLINE] + x, Decimal(g.length), g.hash + [NEWLINE] + y);
    DecimalInjective(f.length, g.length);
    SameUpTo(NEWLINE, f.hash, x, g.hash, y);
  }

  /** Equal texts come from equal lists of files. */
  lemma {:induction false} TreeTextInjective(a: seq<File>, b: seq<File>)
    requires AllEncodable(a) && AllEncodable(b) && TreeText(a) == TreeText(b)
    ensures a == b
    decreases |a|
  {
    if a != [] && b != [] {
      assert a[0] in a && b[0] in b;
      LineInjective(a[0], TreeText(a[1..]), b[0], TreeText(b[1..]));
      TreeTextInjective(a[1..], b[1..]);
      assert a == [a[0]] + a[1..] && b == [b[0]] + b[1..];
    }
  }

  // ------------------------------------------------------------------
  // Sorting.

  /** Ordinal order: unit by unit. */
  predicate OrdinalLess(a: Text, b: Text) {
    if b == [] then false
    else if a == [] then true
    else a[0] < b[0] || (a[0] == b[0] && OrdinalLess(a[1..], b[1..]))
  }

  /** The texts agree up to n, where the first ends or has the lesser unit. */
  predicate LessFrom(a: Text, b: Text, n: nat) {
    n <= |a| && n < |b| && a[..n] == b[..n] && (n == |a| || a[n] < b[n])
  }

  lemma {:induction false} OrdinalLessExactly(a: Text, b: Text)
    ensures OrdinalLess(a, b) <==> exists n: nat :: LessFrom(a, b, n)
  {
    if a == [] && b != [] {
      assert LessFrom(a, b, 0);
    } else if a != [] && b != [] {
      OrdinalLessExactly(a[1..], b[1..]);
      if a[0] < b[0] { assert LessFrom(a, b, 0); }
      if a[0] == b[0] {
        forall n: nat | LessFrom(a[1..], b[1..], n) ensures LessFrom(a, b, n + 1) {
          assert a[..n + 1] == [a[0]] + a[1..][..n] && b[..n + 1] == [b[0]] + b[1..][..n];
        }
      }
      forall n: nat | LessFrom(a, b, n) ensures a[0] < b[0] || (a[0] == b[0] && LessFrom(a[1..], b[1..], n - 1)) {
        if n > 0 {
          assert a[0] == a[..n][0] == b[..n][0] == b[0];
          assert a[1..][..n - 1] == a[..n][1..] && b[1..][..n - 1] == b[..n][1..];
        }
      }
    }
  }

  lemma {:induction false} OrdinalTotal(a: Text, b: Text)
    ensures a != b ==> OrdinalLess(a, b) || OrdinalLess(b, a)
    ensures OrdinalLess(a, b) ==> !OrdinalLess(b, a)
  {
    if a != [] && b != [] {
      OrdinalTotal(a[1..], b[1..]);
      assert a == [a[0]] + a[1..] && b == [b[0]] + b[1..];
    }
  }

  lemma {:induction false} OrdinalTransitive(a: Text, b: Text, c: Text)
    requires OrdinalLess(a, b) && OrdinalLess(b, c)
    ensures OrdinalLess(a, c)
  {
    if a != [] && b != [] && c != [] && a[0] == b[0] == c[0] { OrdinalTransitive(a[1..], b[1..], c[1..]); }
  }

  predicate IsText(t: Text) { true }

  lemma OrdinalOrder()
    ensures TotalOn((a: Text, b: Text) => OrdinalLess(a, b), iset t: Text | IsText(t))
  {
    forall a: Text, b: Text
      ensures a != b ==> OrdinalLess(a, b) || OrdinalLess(b, a)
      ensures OrdinalLess(a, b) ==> !OrdinalLess(b, a)
    {
      OrdinalTotal(a, b);
    }
    forall a: Text, b: Text, c: Text | OrdinalLess(a, b) && OrdinalLess(b, c) ensures OrdinalLess(a, c) {
      OrdinalTransitive(a, b, c);
    }
  }

  // ------------------------------------------------------------------
  // The tree.

  /** What the disk says of the file at a relative path. */
  type Disk = Text -> (nat, Text)

  function FileAt(disk: Disk, path: Text): File { File(path, disk(path).0, disk(path).1) }

  function FilesAt(disk: Disk, paths: seq<Text>): (files: seq<File>)
    ensures |files| == |paths| && forall i :: 0 <= i < |paths| ==> files[i] == FileAt(disk, paths[i])
  {
    if paths == [] then [] else [FileAt(disk, paths[0])] + FilesAt(disk, paths[1..])
  }

  function Canonical(paths: seq<Text>): seq<Text> { SortBy((a: Text, b: Text) => OrdinalLess(a, b), paths) }

  predicate Distinct(paths: seq<Text>) { forall i, j :: 0 <= i < j < |paths| ==> paths[i] != paths[j] }

  predicate Readable(disk: Disk, paths: seq<Text>) { forall p :: p in paths ==> Encodable(FileAt(disk, p)) }

  lemma CanonicalReadable(disk: Disk, paths: seq<Text>)
    requires Readable(disk, paths)
    ensures AllEncodable(FilesAt(disk, Canonical(paths)))
  {
    forall f | f in FilesAt(disk, Canonical(paths)) ensures Encodable(f) {
      var i :| 0 <= i < |Canonical(paths)| && FilesAt(disk, Canonical(paths))[i] == f;
      assert Canonical(paths)[i] in paths;
    }
  }

  function CanonicalText(disk: Disk, paths: seq<Text>): Text
    requires Readable(disk, paths)
  {
    CanonicalReadable(disk, paths);
    TreeText(FilesAt(disk, Canonical(paths)))
  }

  /** The files of the tree, with what identifies them. */
  function Tree(disk: Disk, paths: seq<Text>): set<File> { set p | p in paths :: FileAt(disk, p) }

  lemma {:induction false} DistinctCount(paths: seq<Text>, p: Text)
    requires Distinct(paths)
    ensures multiset(paths)[p] == if p in paths then 1 else 0
  {
    if paths != [] {
      var first, rest := paths[0], paths[1..];
      DistinctCount(rest, p);
      assert paths == [first] + rest;
    }
  }

  /** The lines stand in ordinal order. */
  lemma CanonicalSorted(paths: seq<Text>, i: nat, j: nat)
    requires i < j < |Canonical(paths)|
    ensures Canonical(paths)[i] == Canonical(paths)[j]
            || exists n: nat :: LessFrom(Canonical(paths)[i], Canonical(paths)[j], n)
  {
    var less := (x: Text, y: Text) => OrdinalLess(x, y);
    OrdinalOrder();
    SortBySorts(less, paths, iset t: Text | IsText(t));
    var sorted := SortBy(less, paths);
    assert !less(sorted[j], sorted[i]);
    OrdinalTotal(sorted[i], sorted[j]);
    OrdinalLessExactly(sorted[i], sorted[j]);
  }

  lemma SamePathsSameOrder(a: seq<Text>, b: seq<Text>)
    requires Distinct(a) && Distinct(b) && forall p :: p in a <==> p in b
    ensures Canonical(a) == Canonical(b)
  {
    var less := (x: Text, y: Text) => OrdinalLess(x, y);
    var all := iset t: Text | IsText(t);
    forall p ensures multiset(a)[p] == multiset(b)[p] {
      DistinctCount(a, p);
      DistinctCount(b, p);
    }
    assert multiset(a) == multiset(b);
    OrdinalOrder();
    SortBySorts(less, a, all);
    SortBySorts(less, b, all);
    SortedPermutationUnique(less, SortBy(less, a), SortBy(less, b), all);
  }

  lemma TreeOfFiles(disk: Disk, paths: seq<Text>, f: File)
    ensures f in Tree(disk, paths) <==> f in FilesAt(disk, Canonical(paths))
  {
    if f in FilesAt(disk, Canonical(paths)) {
      var i :| 0 <= i < |Canonical(paths)| && FilesAt(disk, Canonical(paths))[i] == f;
      assert Canonical(paths)[i] in paths;
    }
    if f in Tree(disk, paths) {
      var p :| p in paths && FileAt(disk, p) == f;
      assert p in Canonical(paths);
      var i :| 0 <= i < |Canonical(paths)| && Canonical(paths)[i] == p;
      assert FilesAt(disk, Canonical(paths))[i] == f;
    }
  }

  /** Two trees have the same text exactly when they hold the same files, however
      their files were enumerated. */
  lemma SameTextExactly(disk: Disk, paths: seq<Text>, disk': Disk, paths': seq<Text>)
    requires Readable(disk, paths) && Readable(disk', paths') && Distinct(paths) && Distinct(paths')
    ensures CanonicalText(disk, paths) == CanonicalText(disk', paths') <==> Tree(disk, paths) == Tree(disk', paths')
  {
    CanonicalReadable(disk, paths);
    CanonicalReadable(disk', paths');
    if CanonicalText(disk, paths) == CanonicalText(disk', paths') {
      TreeTextInjective(FilesAt(disk, Canonical(paths)), FilesAt(disk', Canonical(paths')));
      forall f ensures f in Tree(disk, paths) <==> f in Tree(disk', paths') {
        TreeOfFiles(disk, paths, f);
        TreeOfFiles(disk', paths', f);
      }
    }
    if Tree(disk, paths) == Tree(disk', paths') { SameTreeSameFiles(disk, paths, disk', paths'); }
  }

  lemma SameTreeSameFiles(disk: Disk, paths: seq<Text>, disk': Disk, paths': seq<Text>)
    requires Distinct(paths) && Distinct(paths') && Tree(disk, paths) == Tree(disk', paths')
    ensures FilesAt(disk, Canonical(paths)) == FilesAt(disk', Canonical(paths'))
  {
    forall p ensures p in paths <==> p in paths' {
      PathOfTree(disk, paths, p);
      PathOfTree(disk', paths', p);
    }
    SamePathsSameOrder(paths, paths');
    forall p | p in paths ensures FileAt(disk, p) == FileAt(disk', p) {
      assert FileAt(disk, p) in Tree(disk', paths');
    }
    forall i | 0 <= i < |Canonical(paths)|
      ensures FileAt(disk, Canonical(paths)[i]) == FileAt(disk', Canonical(paths)[i])
    {
      assert Canonical(paths)[i] in paths;
    }
  }

  lemma PathOfTree(disk: Disk, paths: seq<Text>, p: Text)
    ensures p in paths <==> exists f :: f in Tree(disk, paths) && f.path == p
  {
    if p in paths { assert FileAt(disk, p) in Tree(disk, paths); }
  }

  // ------------------------------------------------------------------
  // As it runs.

  function Slashed(path: Text): (t: Text)
    ensures |t| == |path| && forall i :: 0 <= i < |path| ==> t[i] == if path[i] == BACKSLASH then SLASH else path[i]
  {
    if path == [] then []
    else Slashed(path[..|path| - 1]) + [if path[|path| - 1] == BACKSLASH then SLASH else path[|path| - 1]]
  }

  /** The library sort, in place. */
  method SortOrdinal(paths: array<Text>)
    modifies paths
    ensures paths[..] == Canonical(old(paths[..]))
  {
    var sorted := Canonical(paths[..]);
    SameLength(sorted, paths[..]);
    for i := 0 to paths.Length
      invariant paths[..i] == sorted[..i]
    {
      paths[i] := sorted[i];
    }
    assert paths[..] == paths[..paths.Length] && sorted == sorted[..paths.Length];
  }

  /** The path starts with the root's prefix, ignoring case as `fold` does. */
  predicate Below(prefix: Text, fold: Text -> Text, path: Text) {
    |path| >= |prefix| && fold(path[..|prefix|]) == fold(prefix)
  }

  predicate AllBelow(prefix: Text, fold: Text -> Text, paths: seq<Text>) {
    forall p :: p in paths ==> Below(prefix, fold, p)
  }

  /** The paths without the root's prefix, separated by slashes. */
  function Relatives(prefix: Text, fold: Text -> Text, paths: seq<Text>): (t: seq<Text>)
    requires AllBelow(prefix, fold, paths)
    ensures |t| == |paths|
    ensures forall i :: 0 <= i < |paths| ==> |paths[i]| >= |prefix| && t[i] == Slashed(paths[i][|prefix|..])
  {
    if paths == [] then []
    else
      var n := |paths| - 1;
      assert Below(prefix, fold, paths[n]);
      Relatives(prefix, fold, paths[..n]) + [Slashed(paths[n][|prefix|..])]
  }

  method RelativeNames(prefix: Text, fold: Text -> Text, fullPaths: seq<Text>) returns (r: Option<array<Text>>)
    ensures r.Some? <==> AllBelow(prefix, fold, fullPaths)
    ensures r.Some? ==> fresh(r.value) && r.value[..] == Relatives(prefix, fold, fullPaths)
  {
    var names: seq<Text> := [];
    for i := 0 to |fullPaths|
      invariant AllBelow(prefix, fold, fullPaths[..i]) && names == Relatives(prefix, fold, fullPaths[..i])
    {
      var path := fullPaths[i];
      if |path| < |prefix| || fold(path[..|prefix|]) != fold(prefix) {
        assert path in fullPaths && !Below(prefix, fold, path);
        return None;
      }
      assert fullPaths[..i + 1] == fullPaths[..i] + [path];
      assert fullPaths[..i + 1][..i] == fullPaths[..i];
      names := names + [Slashed(path[|prefix|..])];
    }
    assert fullPaths[..|fullPaths|] == fullPaths;
    var paths := new Text[|names|](i requires 0 <= i < |names| => names[i]);
    r := Some(paths);
  }

  /** The strict encoder refuses a path that is not well-formed UTF-16. */
  predicate AllWellFormed(paths: seq<Text>) { forall p :: p in paths ==> WellFormed(p) }

  method WriteLines(paths: seq<Text>, disk: Disk) returns (r: Option<Text>)
    requires forall p :: p in paths ==> NEWLINE !in disk(p).1
    ensures r.Some? <==> AllWellFormed(paths)
    ensures r.Some? ==> AllEncodable(FilesAt(disk, paths)) && r.value == TreeText(FilesAt(disk, paths))
  {
    var text: Text := [];
    for i := 0 to |paths|
      invariant AllWellFormed(paths[..i]) && AllEncodable(FilesAt(disk, paths[..i]))
      invariant text == TreeText(FilesAt(disk, paths[..i]))
    {
      var path := paths[i];
      assert paths[..i + 1] == paths[..i] + [path];
      if !WellFormed(path) { return None; }
      var file := FileAt(disk, path);
      ghost var before := text;
      text := text + Decimal(ByteCount(file.path)) + [COLON] + file.path + [NUL] + Decimal(file.length) + [NUL]
        + file.hash + [NEWLINE];
      LineAppended(before, file);
      OneMoreFile(disk, paths[..i], path);
    }
    assert paths[..|paths|] == paths;
    r := Some(text);
  }

  lemma {:induction false} TreeTextAppend(files: seq<File>, f: File)
    requires AllEncodable(files) && Encodable(f)
    ensures AllEncodable(files + [f]) && TreeText(files + [f]) == TreeText(files) + Line(f)
  {
    if files == [] {
      assert [] + [f] == [f] && [f][1..] == [];
      assert Line(f) + [] == [] + Line(f);
    } else {
      assert files[0] in files;
      TreeTextAppend(files[1..], f);
      assert (files + [f])[1..] == files[1..] + [f];
      Associates(Line(files[0]), TreeText(files[1..]), Line(f));
    }
  }

  lemma OneMoreFile(disk: Disk, paths: seq<Text>, path: Text)
    requires AllEncodable(FilesAt(disk, paths)) && Encodable(FileAt(disk, path))
    ensures AllEncodable(FilesAt(disk, paths + [path]))
    ensures TreeText(FilesAt(disk, paths + [path])) == TreeText(FilesAt(disk, paths)) + Line(FileAt(disk, path))
  {
    assert FilesAt(disk, paths + [path]) == FilesAt(disk, paths) + [FileAt(disk, path)];
    TreeTextAppend(FilesAt(disk, paths), FileAt(disk, path));
  }

  datatype TreeError = EscapesRoot | Unencodable

  /** The whole text of the files found below the root; refused if a path escapes
      the root, or else if one cannot be encoded. A file hash is hexadecimal, so
      it holds no newline. */
  method SourceTreeText(prefix: Text, fold: Text -> Text, fullPaths: seq<Text>, disk: Disk)
    returns (r: Result<Text, TreeError>)
    requires forall p :: NEWLINE !in disk(p).1
    ensures r == Err(EscapesRoot) <==> !AllBelow(prefix, fold, fullPaths)
    ensures r == Err(Unencodable) <==>
              AllBelow(prefix, fold, fullPaths) && !AllWellFormed(Relatives(prefix, fold, fullPaths))
    ensures r.Ok? ==> Readable(disk, Relatives(prefix, fold, fullPaths))
                      && r.value == CanonicalText(disk, Relatives(prefix, fold, fullPaths))
  {
    var found := RelativeNames(prefix, fold, fullPaths);
    if found.None? { return Err(EscapesRoot); }
    var paths := found.value;
    ghost var names := paths[..];
    SortOrdinal(paths);
    var text := WriteLines(paths[..], disk);
    forall p ensures p in names <==> p in Canonical(names) {
      assert multiset(names) == multiset(Canonical(names));
      assert p in names <==> p in multiset(names);
    }
    r := if text.None? then Err(Unencodable) else Ok(text.value);
  }

  lemma LineAppended(before: Text, f: File)
    requires Encodable(f)
    ensures before + Decimal(ByteCount(f.path)) + [COLON] + f.path + [NUL] + Decimal(f.length) + [NUL] + f.hash
            + [NEWLINE]
         == before + Line(f)
  {
  }
}
