/**
 The exported report: what it says of a list of duplicate groups, its totals,
 and its JSON form.
 */
module ReportDocument {
  import opened Bytes
  import opened Records
  import opened Int64
  import opened Json

  const SCHEMA := "twintidy.duplicate-report/v1"

  datatype File = File(path: string, size: int, createdAt: string, modifiedAt: string, category: string, root: string)

  datatype Group = Group(size: int, hash: string, files: seq<File>)

  datatype Document = Document(schema: string, generatedAt: string, folder: string, groupCount: int, fileCount: int,
                               reclaimableBytes: int, groups: seq<Group>)

  /** A time as text, empty for no time. */
  type Stamp = int -> string

  function FileOf(stamp: Stamp, r: FileRecord): File {
    File(r.path, r.size, stamp(r.createdAt), stamp(r.modifiedAt), r.category, r.scope.rootPath)
  }

  function FilesOf(stamp: Stamp, records: seq<FileRecord>): (files: seq<File>)
    ensures |files| == |records| && forall i :: 0 <= i < |records| ==> files[i] == FileOf(stamp, records[i])
  {
    if records == [] then [] else FilesOf(stamp, records[..|records| - 1]) + [FileOf(stamp, records[|records| - 1])]
  }

  function GroupOf(stamp: Stamp, g: DuplicateGroup): Group { Group(g.size, g.hash, FilesOf(stamp, g.files)) }

  function GroupsOf(stamp: Stamp, groups: seq<DuplicateGroup>): (r: seq<Group>)
    ensures |r| == |groups| && forall i :: 0 <= i < |groups| ==> r[i] == GroupOf(stamp, groups[i])
  {
    if groups == [] then [] else GroupsOf(stamp, groups[..|groups| - 1]) + [GroupOf(stamp, groups[|groups| - 1])]
  }

  const TWO62 := 0x4000_0000_0000_0000

  /** The bytes saved by keeping one copy of a group, in 64 bits. */
  function Reclaimable(size: int, fileCount: nat): int { if fileCount > 1 then Wrap((fileCount - 1) * size) else 0 }

  function FileTotal(groups: seq<DuplicateGroup>): nat {
    if groups == [] then 0 else FileTotal(groups[..|groups| - 1]) + |groups[|groups| - 1].files|
  }

  /** The running 64-bit total. */
  function ReclaimableTotal(groups: seq<DuplicateGroup>): int {
    if groups == [] then 0
    else
      var last := groups[|groups| - 1];
      Wrap(ReclaimableTotal(groups[..|groups| - 1]) + Reclaimable(last.size, |last.files|))
  }

  /** The bytes that really would be saved. */
  function ExactTotal(groups: seq<DuplicateGroup>): nat {
    if groups == [] then 0
    else
      var last := groups[|groups| - 1];
      ExactTotal(groups[..|groups| - 1]) + if |last.files| > 1 then (|last.files| - 1) * last.size else 0
  }

  lemma {:induction false} TotalWraps(groups: seq<DuplicateGroup>)
    ensures ReclaimableTotal(groups) == Wrap(ExactTotal(groups))
  {
    if groups == [] {
      WrapExactly(0);
    } else {
      var last, before := groups[|groups| - 1], groups[..|groups| - 1];
      TotalWraps(before);
      var extra: int := if |last.files| > 1 then (|last.files| - 1) * last.size else 0;
      WrapExactly(0);
      WrapAdd(extra, Wrap(ExactTotal(before)));
      WrapAdd(ExactTotal(before), extra);
    }
  }

  /** The total is the real one exactly when that fits 64 bits. */
  lemma {:induction false} TotalExactly(groups: seq<DuplicateGroup>)
    ensures ReclaimableTotal(groups) == ExactTotal(groups) <==> ExactTotal(groups) < TWO63
  {
    TotalWraps(groups);
    WrapExactly(ExactTotal(groups));
  }

  lemma OneGroupTotal(g: DuplicateGroup)
    ensures ReclaimableTotal([g]) == Wrap(Reclaimable(g.size, |g.files|))
    ensures ExactTotal([g]) == if |g.files| > 1 then (|g.files| - 1) * g.size else 0
  {
    var none: seq<DuplicateGroup> := [];
    assert [g][..0] == none && ReclaimableTotal(none) == 0 && ExactTotal(none) == 0;
  }

  /** An input that does not: three files of 2^62 bytes make a negative total. */
  lemma TotalTooLarge() returns (groups: seq<DuplicateGroup>)
    ensures |groups| == 1 && groups[0].size == TWO62 && |groups[0].files| == 3
    ensures forall f :: f in groups[0].files ==> f.size == TWO62
    ensures ExactTotal(groups) == TWO63 && ReclaimableTotal(groups) == -TWO63
  {
    var a := FileRecord("a", TWO62, 0, 0, "", Identity(1, 1), 1, 0, Scope("", Identity(1, 0), false));
    var b := a.(path := "b", identity := Identity(1, 2));
    var c := a.(path := "c", identity := Identity(1, 3));
    groups := [DuplicateGroup(TWO62, "", [a, b, c])];
    OneGroupTotal(groups[0]);
  }

  function DocumentOf(stamp: Stamp, folder: string, groups: seq<DuplicateGroup>, generatedAt: int): Document {
    Document(SCHEMA, stamp(generatedAt), folder, |groups|, FileTotal(groups), ReclaimableTotal(groups),
             GroupsOf(stamp, groups))
  }

  /** A total is in range, so adding nothing changes nothing. */
  lemma AddNothing(groups: seq<DuplicateGroup>)
    ensures Wrap(ReclaimableTotal(groups) + 0) == ReclaimableTotal(groups)
  {
    TotalWraps(groups);
    WrapAdd(ExactTotal(groups), 0);
  }

  method ExportFiles(stamp: Stamp, records: seq<FileRecord>) returns (files: seq<File>)
    ensures files == FilesOf(stamp, records)
  {
    files := [];
    for i := 0 to |records|
      invariant files == FilesOf(stamp, records[..i])
    {
      assert records[..i + 1][..i] == records[..i];
      files := files + [FileOf(stamp, records[i])];
    }
    assert records[..|records|] == records;
  }

  method ExportGroup(stamp: Stamp, group: DuplicateGroup) returns (exported: Group)
    ensures exported == GroupOf(stamp, group) && |exported.files| == |group.files|
  {
    var files := ExportFiles(stamp, group.files);
    exported := Group(group.size, group.hash, files);
  }

  lemma OneMoreGroup(groups: seq<DuplicateGroup>, n: nat)
    requires n < |groups|
    ensures FileTotal(groups[..n + 1]) == FileTotal(groups[..n]) + |groups[n].files|
    ensures ReclaimableTotal(groups[..n + 1])
         == Wrap(ReclaimableTotal(groups[..n]) + Reclaimable(groups[n].size, |groups[n].files|))
    ensures |groups[n].files| <= 1 ==> ReclaimableTotal(groups[..n + 1]) == ReclaimableTotal(groups[..n])
  {
    assert groups[..n + 1][..n] == groups[..n];
    AddNothing(groups[..n]);
  }

  method AddReclaimable(total: int, groups: seq<DuplicateGroup>, n: nat) returns (sum: int)
    requires n < |groups| && total == ReclaimableTotal(groups[..n])
    ensures sum == ReclaimableTotal(groups[..n + 1])
  {
    OneMoreGroup(groups, n);
    sum := total;
    var extra := |groups[n].files| - 1;
    if extra > 0 { sum := Wrap(sum + Wrap(extra * groups[n].size)); }
  }

  lemma OneMoreExported(stamp: Stamp, groups: seq<DuplicateGroup>, n: nat)
    requires n < |groups|
    ensures GroupsOf(stamp, groups[..n + 1]) == GroupsOf(stamp, groups[..n]) + [GroupOf(stamp, groups[n])]
  {
    assert groups[..n + 1][..n] == groups[..n];
  }

  method BuildDocument(stamp: Stamp, folder: string, groups: seq<DuplicateGroup>, generatedAt: int)
    returns (d: Document)
    ensures d == DocumentOf(stamp, folder, groups, generatedAt)
  {
    var exported: seq<Group> := [];
    var fileCount, reclaimableBytes := 0, 0;
    for n := 0 to |groups|
      invariant exported == GroupsOf(stamp, groups[..n])
      invariant fileCount == FileTotal(groups[..n]) && reclaimableBytes == ReclaimableTotal(groups[..n])
    {
      OneMoreExported(stamp, groups, n);
      OneMoreGroup(groups, n);
      var group := ExportGroup(stamp, groups[n]);
      exported := exported + [group];
      fileCount := fileCount + |group.files|;
      reclaimableBytes := AddReclaimable(reclaimableBytes, groups, n);
    }
    assert groups[..|groups|] == groups;
    d := Document(SCHEMA, stamp(generatedAt), folder, |exported|, fileCount, reclaimableBytes, exported);
  }

  datatype Summary = Summary(groupCount: int, fileCount: int, reclaimableBytes: int)

  /** The totals of the first n groups, with the number of all groups. */
  predicate CountedUpTo(groups: seq<DuplicateGroup>, n: nat, summary: Summary) {
    n <= |groups| && summary == Summary(|groups|, FileTotal(groups[..n]), ReclaimableTotal(groups[..n]))
  }

  /** Counting without building: stopped, or the document's totals. */
  method Summarize(groups: seq<DuplicateGroup>, stopped: nat -> bool) returns (summary: Summary, ok: bool)
    ensures ok ==> summary == Summary(|groups|, FileTotal(groups), ReclaimableTotal(groups))
    ensures ok <==> forall n: nat :: n < |groups| ==> !stopped(n)
    ensures !ok ==> exists n: nat :: n < |groups| && stopped(n) && CountedUpTo(groups, n, summary)
  {
    var fileCount, reclaimableBytes := 0, 0;
    for n := 0 to |groups|
      invariant fileCount == FileTotal(groups[..n]) && reclaimableBytes == ReclaimableTotal(groups[..n])
      invariant forall m: nat :: m < n ==> !stopped(m)
    {
      OneMoreGroup(groups, n);
      if stopped(n) { return Summary(|groups|, fileCount, reclaimableBytes), false; }
      fileCount := fileCount + |groups[n].files|;
      reclaimableBytes := Wrap(reclaimableBytes + Reclaimable(groups[n].size, |groups[n].files|));
    }
    assert groups[..|groups|] == groups;
    summary, ok := Summary(|groups|, fileCount, reclaimableBytes), true;
  }

  // ------------------------------------------------------------------
  // The JSON form.

  /** A text member, left out when empty. */
  function Optional(name: string, s: string): seq<Member> { if s == "" then [] else [Member(name, Text(s))] }

  function FileValue(f: File): Value {
    Object([Member("path", Text(f.path)), Member("size", Number(f.size))] + Optional("createdAt", f.createdAt)
           + Optional("modifiedAt", f.modifiedAt) + Optional("category", f.category) + Optional("root", f.root))
  }

  function FileValues(files: seq<File>): (vs: seq<Value>)
    ensures |vs| == |files| && forall i :: 0 <= i < |files| ==> vs[i] == FileValue(files[i])
  {
    if files == [] then [] else FileValues(files[..|files| - 1]) + [FileValue(files[|files| - 1])]
  }

  function GroupValue(g: Group): Value {
    Object([Member("size", Number(g.size)), Member("sha256", Text(g.hash)), Member("files", List(FileValues(g.files)))])
  }

  function GroupValues(groups: seq<Group>): (vs: seq<Value>)
    ensures |vs| == |groups| && forall i :: 0 <= i < |groups| ==> vs[i] == GroupValue(groups[i])
  {
    if groups == [] then [] else GroupValues(groups[..|groups| - 1]) + [GroupValue(groups[|groups| - 1])]
  }

  function DocumentMembers(d: Document): seq<Member> {
    [Member("schema", Text(d.schema)), Member("generatedAt", Text(d.generatedAt))] + Optional("folder", d.folder)
    + [Member("groupCount", Number(d.groupCount)), Member("fileCount", Number(d.fileCount)),
       Member("reclaimableBytes", Number(d.reclaimableBytes)), Member("groups", List(GroupValues(d.groups)))]
  }

  function DocumentValue(d: Document): Value { Object(DocumentMembers(d)) }

  // ------------------------------------------------------------------
  // Reading it back.

  function Field(members: seq<Member>, name: string): Option<Value> {
    if members == [] then None
    else if members[0].name == name then Some(members[0].value)
    else Field(members[1..], name)
  }

  function TextField(members: seq<Member>, name: string): string {
    match Field(members, name)
    case Some(Text(s)) => s
    case _ => ""
  }

  function NumberField(members: seq<Member>, name: string): int {
    match Field(members, name)
    case Some(Number(n)) => n
    case _ => 0
  }

  function ListField(members: seq<Member>, name: string): seq<Value> {
    match Field(members, name)
    case Some(List(items)) => items
    case _ => []
  }

  function ReadFile(v: Value): File {
    if !v.Object? then File("", 0, "", "", "", "")
    else
      var m := v.members;
      File(TextField(m, "path"), NumberField(m, "size"), TextField(m, "createdAt"), TextField(m, "modifiedAt"),
           TextField(m, "category"), TextField(m, "root"))
  }

  function ReadFiles(vs: seq<Value>): (files: seq<File>)
    ensures |files| == |vs| && forall i :: 0 <= i < |vs| ==> files[i] == ReadFile(vs[i])
  {
    if vs == [] then [] else ReadFiles(vs[..|vs| - 1]) + [ReadFile(vs[|vs| - 1])]
  }

  function ReadGroup(v: Value): Group {
    if !v.Object? then Group(0, "", [])
    else Group(NumberField(v.members, "size"), TextField(v.members, "sha256"), ReadFiles(ListField(v.members, "files")))
  }

  function ReadGroups(vs: seq<Value>): (groups: seq<Group>)
    ensures |groups| == |vs| && forall i :: 0 <= i < |vs| ==> groups[i] == ReadGroup(vs[i])
  {
    if vs == [] then [] else ReadGroups(vs[..|vs| - 1]) + [ReadGroup(vs[|vs| - 1])]
  }

  /** Decoding by member names; what is missing is empty or zero. */
  function ReadDocument(v: Value): Document {
    if !v.Object? then Document("", "", "", 0, 0, 0, [])
    else
      var m := v.members;
      Document(TextField(m, "schema"), TextField(m, "generatedAt"), TextField(m, "folder"),
               NumberField(m, "groupCount"),
               NumberField(m, "fileCount"), NumberField(m, "reclaimableBytes"), ReadGroups(ListField(m, "groups")))
  }

  lemma {:induction false} FieldOfRest(a: seq<Member>, b: seq<Member>, name: string)
    ensures Field(a + b, name) == if Field(a, name).Some? then Field(a, name) else Field(b, name)
  {
    if a == [] {
      assert a + b == b;
    } else {
      FieldOfRest(a[1..], b, name);
      assert (a + b)[1..] == a[1..] + b;
    }
  }

  lemma OptionalField(name: string, s: string, other: string)
    ensures Field(Optional(name, s), other) == if other == name && s != "" then Some(Text(s)) else None
  {
  }

  /** Field of members followed by an optional one. */
  lemma AfterOptional(before: seq<Member>, name: string, s: string, wanted: string)
    ensures Field(before + Optional(name, s), wanted)
         == if Field(before, wanted).Some? then Field(before, wanted)
            else if wanted == name && s != "" then Some(Text(s)) else None
  {
    FieldOfRest(before, Optional(name, s), wanted);
    OptionalField(name, s, wanted);
  }

  lemma FieldOfFirst(m: Member, rest: seq<Member>, wanted: string)
    ensures Field([m] + rest, wanted) == if m.name == wanted then Some(m.value) else Field(rest, wanted)
  {
    assert ([m] + rest)[1..] == rest;
  }

  lemma FieldOfTwo(a: Member, b: Member, wanted: string)
    ensures Field([a, b], wanted)
         == if a.name == wanted then Some(a.value) else if b.name == wanted then Some(b.value) else None
  {
    FieldOfFirst(a, [b], wanted);
    FieldOfFirst(b, [], wanted);
    assert [a] + [b] == [a, b] && [b] + [] == [b];
  }

  lemma FieldOfFour(a: Member, b: Member, c: Member, d: Member, wanted: string)
    ensures Field([a, b, c, d], wanted)
         == if a.name == wanted then Some(a.value) else if b.name == wanted then Some(b.value)
            else if c.name == wanted then Some(c.value) else if d.name == wanted then Some(d.value) else None
  {
    FieldOfRest([a, b], [c, d], wanted);
    FieldOfTwo(a, b, wanted);
    FieldOfTwo(c, d, wanted);
    assert [a, b] + [c, d] == [a, b, c, d];
  }

  lemma FileField(f: File, wanted: string)
    ensures var m := FileValue(f).members;
            Field(m, wanted) == if wanted == "path" then Some(Text(f.path))
                                else if wanted == "size" then Some(Number(f.size))
                                else if wanted == "createdAt" && f.createdAt != "" then Some(Text(f.createdAt))
                                else if wanted == "modifiedAt" && f.modifiedAt != "" then Some(Text(f.modifiedAt))
                                else if wanted == "category" && f.category != "" then Some(Text(f.category))
                                else if wanted == "root" && f.root != "" then Some(Text(f.root))
                                else None
  {
    var base := [Member("path", Text(f.path)), Member("size", Number(f.size))];
    var created := base + Optional("createdAt", f.createdAt);
    var modified := created + Optional("modifiedAt", f.modifiedAt);
    var category := modified + Optional("category", f.category);
    FieldOfTwo(base[0], base[1], wanted);
    AfterOptional(base, "createdAt", f.createdAt, wanted);
    AfterOptional(created, "modifiedAt", f.modifiedAt, wanted);
    AfterOptional(modified, "category", f.category, wanted);
    AfterOptional(category, "root", f.root, wanted);
  }

  lemma FileReadBack(f: File)
    ensures ReadFile(FileValue(f)) == f
  {
    FileField(f, "path");
    FileField(f, "size");
    FileField(f, "createdAt");
    FileField(f, "modifiedAt");
    FileField(f, "category");
    FileField(f, "root");
  }

  lemma GroupReadBack(g: Group)
    ensures ReadGroup(GroupValue(g)) == g
  {
    var read := ReadFiles(FileValues(g.files));
    forall i | 0 <= i < |g.files| ensures read[i] == g.files[i] { FileReadBack(g.files[i]); }
    assert read == g.files;
    var m := GroupValue(g).members;
    assert m == [m[0]] + [m[1], m[2]];
    FieldOfFirst(m[0], [m[1], m[2]], "size");
    FieldOfFirst(m[0], [m[1], m[2]], "sha256");
    FieldOfFirst(m[0], [m[1], m[2]], "files");
    FieldOfTwo(m[1], m[2], "sha256");
    FieldOfTwo(m[1], m[2], "files");
  }

  lemma DocumentField(d: Document, wanted: string)
    ensures Field(DocumentMembers(d), wanted)
         == if wanted == "schema" then Some(Text(d.schema))
            else if wanted == "generatedAt" then Some(Text(d.generatedAt))
            else if wanted == "folder" && d.folder != "" then Some(Text(d.folder))
            else if wanted == "groupCount" then Some(Number(d.groupCount))
            else if wanted == "fileCount" then Some(Number(d.fileCount))
            else if wanted == "reclaimableBytes" then Some(Number(d.reclaimableBytes))
            else if wanted == "groups" then Some(List(GroupValues(d.groups)))
            else None
  {
    var head := [Member("schema", Text(d.schema)), Member("generatedAt", Text(d.generatedAt))];
    var tail := [Member("groupCount", Number(d.groupCount)), Member("fileCount", Number(d.fileCount)),
                 Member("reclaimableBytes", Number(d.reclaimableBytes)), Member("groups", List(GroupValues(d.groups)))];
    FieldOfTwo(head[0], head[1], wanted);
    FieldOfFour(tail[0], tail[1], tail[2], tail[3], wanted);
    AfterOptional(head, "folder", d.folder, wanted);
    FieldOfRest(head + Optional("folder", d.folder), tail, wanted);
  }

  /** The JSON form holds the whole document. */
  lemma DocumentReadBack(d: Document)
    ensures ReadDocument(DocumentValue(d)) == d
  {
    var read := ReadGroups(GroupValues(d.groups));
    forall i | 0 <= i < |d.groups| ensures read[i] == d.groups[i] { GroupReadBack(d.groups[i]); }
    assert read == d.groups;
    DocumentField(d, "schema");
    DocumentField(d, "generatedAt");
    DocumentField(d, "folder");
    DocumentField(d, "groupCount");
    DocumentField(d, "fileCount");
    DocumentField(d, "reclaimableBytes");
    DocumentField(d, "groups");
  }

  /** What a reader of the JSON form finds: of every file of every group the path,
      size, times, category and root that the scan recorded, and the totals. */
  lemma ReportTellsRecords(stamp: Stamp, folder: string, groups: seq<DuplicateGroup>, generatedAt: int, n: nat, i: nat)
    requires n < |groups| && i < |groups[n].files|
    ensures var d, r := ReadDocument(DocumentValue(DocumentOf(stamp, folder, groups, generatedAt))), groups[n].files[i];
            && d.schema == "twintidy.duplicate-report/v1" && d.folder == folder && d.generatedAt == stamp(generatedAt)
            && d.groupCount == |d.groups| == |groups| && d.fileCount == FileTotal(groups)
            && d.groups[n].size == groups[n].size && d.groups[n].hash == groups[n].hash
            && |d.groups[n].files| == |groups[n].files|
            && var f := d.groups[n].files[i];
               && f.path == r.path && f.size == r.size && f.createdAt == stamp(r.createdAt)
               && f.modifiedAt == stamp(r.modifiedAt) && f.category == r.category && f.root == r.scope.rootPath
  {
    DocumentReadBack(DocumentOf(stamp, folder, groups, generatedAt));
  }
}
