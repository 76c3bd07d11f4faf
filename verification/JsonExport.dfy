/**
 Streaming the whole JSON report: the text written is the text of the document,
 or a beginning of it when a write fails or the export is cancelled.
 */
module JsonExport {
  import opened Records
  import opened Strings
  import opened Json
  import opened JsonLayout
  import opened ReportDocument
  import opened JsonReport
  import opened JsonWriter
  import opened ReportWriter

  // ------------------------------------------------------------------
  // Files.

  function FileText(f: File): string { Render(FilePieces(f)) }

  function FileTexts(files: seq<File>): (texts: seq<string>)
    ensures |texts| == |files|
  {
    if files == [] then [] else FileTexts(files[..|files| - 1]) + [FileText(files[|files| - 1])]
  }

  lemma {:induction false} FileTextAt(stamp: Stamp, records: seq<FileRecord>, i: nat)
    requires i < |records|
    ensures FileTexts(FilesOf(stamp, records))[i] == FileText(FileOf(stamp, records[i]))
  {
    var n := |records| - 1;
    var files := FilesOf(stamp, records);
    assert files[..n] == FilesOf(stamp, records[..n]);
    if i < n { FileTextAt(stamp, records[..n], i); }
  }

  lemma {:induction false} TextsOfFiles(files: seq<File>)
    ensures Texts(FilesPieces(files)) == FileTexts(files)
  {
    if files != [] {
      var n := |files| - 1;
      TextsOfFiles(files[..n]);
      assert FilesPieces(files)[..n] == FilesPieces(files[..n]);
    }
  }

  /** Two parts, one after the other. */
  method WriteTwo(w: ContextWriter, first: string, second: string) returns (ok: bool)
    modifies w
    ensures Wrote(ok, old(w.contents), w.contents, first + second)
    ensures w.Counted(ok) && (w.Faultless() ==> ok)
  {
    var end := w.Write(first);
    ok := end == Written;
    ghost var between := w.contents;
    if !ok {
      WroteLess(old(w.contents), w.contents, first, second);
      return;
    }
    end := w.Write(second);
    ok := end == Written;
    ThenWrote(ok, old(w.contents), between, w.contents, first, second);
  }

  method WriteFile(w: ContextWriter, stamp: Stamp, records: seq<FileRecord>, i: nat, ghost start: string)
    returns (ok: bool)
    requires i < |records|
    requires Wrote(true, start, w.contents, LinesText(FILE_GAP, FileTexts(FilesOf(stamp, records))[..i]))
    modifies w
    ensures ok ==> Wrote(true, start, w.contents, LinesText(FILE_GAP, FileTexts(FilesOf(stamp, records))[..i + 1]))
    ensures !ok ==> Wrote(false, start, w.contents, LinesText(FILE_GAP, FileTexts(FilesOf(stamp, records))))
    ensures w.Counted(ok) && (w.Faultless() ==> ok)
  {
    ghost var texts := FileTexts(FilesOf(stamp, records));
    var now := w.Stopped();
    if now {
      LinesInterrupted(FILE_GAP, texts, i, start, w.contents);
      return false;
    }
    ghost var before := w.contents;
    ok := WriteTwo(w, LineLead(FILE_GAP, i), FileText(FileOf(stamp, records[i])));
    FileTextAt(stamp, records, i);
    NextLine(FILE_GAP, texts, i);
    ThenWrote(ok, start, before, w.contents, LinesText(FILE_GAP, texts[..i]), LineLead(FILE_GAP, i) + texts[i]);
    if !ok { LinesInterrupted(FILE_GAP, texts, i + 1, start, w.contents); }
  }

  method WriteFiles(w: ContextWriter, stamp: Stamp, records: seq<FileRecord>) returns (ok: bool)
    modifies w
    ensures Wrote(ok, old(w.contents), w.contents, LinesText(FILE_GAP, FileTexts(FilesOf(stamp, records))))
    ensures w.Counted(ok) && (w.Faultless() ==> ok)
  {
    ghost var texts := FileTexts(FilesOf(stamp, records));
    for i := 0 to |records|
      invariant Wrote(true, old(w.contents), w.contents, LinesText(FILE_GAP, texts[..i])) && w.Counted(true)
    {
      ok := WriteFile(w, stamp, records, i, old(w.contents));
      if !ok { return; }
    }
    assert texts[..|records|] == texts;
    ok := true;
  }

  // ------------------------------------------------------------------
  // Closing an object whose last member is an array.

  function CloseParts(close: string, end: string): seq<string> { (if close == "" then [] else [close]) + ["]" + end] }

  lemma CloseText(close: string, end: string)
    ensures Concat(CloseParts(close, end)) == close + ("]" + end)
  {
    ConcatOne(if close == "" then [] else [close], "]" + end);
    ConcatOne([], close);
    assert [] + [close] == [close] && Concat([]) == "" && "" + close == close;
  }

  /** The array opened, its lines, and the rest. */
  lemma LastPart(parts: seq<string>, key: string, lines: string, close: string, end: string)
    ensures Concat(parts + [key + ("[" + (lines + (close + "]")))]) + end
         == Concat(parts + [key + "["]) + (lines + Concat(CloseParts(close, end)))
  {
    ConcatOne(parts, key + ("[" + (lines + (close + "]"))));
    ConcatOne(parts, key + "[");
    CloseText(close, end);
    Flatten(Concat(parts), key, lines, close, end);
  }

  lemma Flatten(before: string, key: string, lines: string, close: string, end: string)
    ensures (before + (key + ("[" + (lines + (close + "]"))))) + end
            == (before + (key + "[")) + (lines + (close + ("]" + end)))
  {
    Associates(before, key + ("[" + (lines + (close + "]"))), end);
    Associates(key, "[" + (lines + (close + "]")), end);
    Associates("[", lines + (close + "]"), end);
    Associates(lines, close + "]", end);
    Associates(close, "]", end);
    Associates(before, key + "[", lines + (close + ("]" + end)));
    Associates(key, "[", lines + (close + ("]" + end)));
  }

  // ------------------------------------------------------------------
  // Groups.

  function GroupText(g: Group): string { Render(GroupPieces(g)) }

  function FilesEnd(files: seq<File>): string { if files == [] then "" else FILES_END }

  function GroupKeys(g: Group): seq<string> {
    [KeyText("{" + GROUP_MEMBER_GAP, "size") + FormatInt(g.size), KeyText("," + GROUP_MEMBER_GAP, "sha256"),
             Quote(g.hash)]
  }

  function FilesKey(): string { KeyText("," + GROUP_MEMBER_GAP, "files") }

  lemma ThreeEntries(gap: string, open: string, a: Entry, b: Entry, c: Entry)
    requires IsPlain(a.name) && IsPlain(b.name) && IsPlain(c.name)
    ensures InStep(gap, open, [a, b, c],
                   [KeyText(open + gap, a.name) + Render(a.pieces), KeyText("," + gap, b.name), Render(b.pieces),
                    KeyText("," + gap, c.name) + Render(c.pieces)])
  {
    var first, second, value := KeyText(open + gap, a.name) + Render(a.pieces), KeyText("," + gap, b.name),
      Render(b.pieces);
    var third := KeyText("," + gap, c.name) + Render(c.pieces);
    FirstEntry(gap, open, a);
    NextEntry(gap, open, [a], [first], b);
    assert [a] + [b] == [a, b] && [first] + [second, value] == [first, second, value];
    NextEntry(gap, open, [a, b], [first, second, value], c);
    assert [a, b] + [c] == [a, b, c] && [first, second, value] + [third] == [first, second, value, third];
  }

  lemma GroupNamesPlain()
    ensures IsPlain("size") && IsPlain("sha256") && IsPlain("files")
  {
  }

  lemma GroupInStep(g: Group)
    ensures InStep(GROUP_MEMBER_GAP, "{", GroupEntries(g), GroupKeys(g) + [FilesKey() + Render(FilesLayout(g.files))])
  {
    var e := GroupEntries(g);
    GroupNamesPlain();
    ThreeEntries(GROUP_MEMBER_GAP, "{", e[0], e[1], e[2]);
    RenderOne(Tok(Num(g.size)));
    RenderOne(Tok(Str(g.hash)));
    var k, last := GroupKeys(g), FilesKey() + Render(FilesLayout(g.files));
    assert k + [last] == [k[0], k[1], k[2], last];
  }

  lemma FilesArray(files: seq<File>)
    ensures Render(FilesLayout(files)) == "[" + (LinesText(FILE_GAP, FileTexts(files)) + (FilesEnd(files) + "]"))
  {
    RenderArray(FILE_GAP, FILES_END, FilesPieces(files));
    TextsOfFiles(files);
  }

  lemma GroupInParts(g: Group)
    ensures GroupText(g) == Concat(GroupKeys(g) + [FilesKey() + "["])
                            + (LinesText(FILE_GAP, FileTexts(g.files))
                               + Concat(CloseParts(FilesEnd(g.files), GROUP_END + "}")))
  {
    RenderObject(GROUP_MEMBER_GAP, GROUP_END, GroupEntries(g));
    GroupInStep(g);
    FilesArray(g.files);
    LastPart(GroupKeys(g), FilesKey(), LinesText(FILE_GAP, FileTexts(g.files)), FilesEnd(g.files), GROUP_END + "}");
  }

  /** The first part carries the line break, the size and the name of the hash. */
  function GroupOpening(lead: string, g: Group): seq<string> {
    var keys := GroupKeys(g);
    [lead + keys[0] + keys[1], keys[2], FilesKey() + "["]
  }

  lemma OpeningText(lead: string, g: Group)
    ensures Concat(GroupOpening(lead, g)) == lead + Concat(GroupKeys(g) + [FilesKey() + "["])
  {
    var k := GroupKeys(g);
    FourParts(k[0], k[1], k[2], FilesKey() + "[");
    ThreeParts(lead + k[0] + k[1], k[2], FilesKey() + "[");
    assert k + [FilesKey() + "["] == [k[0], k[1], k[2], FilesKey() + "["];
    Associates(lead + k[0] + k[1], k[2], FilesKey() + "[");
    Associates(lead + k[0], k[1], k[2] + (FilesKey() + "["));
    Associates(lead, k[0], k[1] + (k[2] + (FilesKey() + "[")));
  }

  lemma ThreeParts(a: string, b: string, c: string)
    ensures Concat([a, b, c]) == a + b + c
  {
    ConcatOne([a, b], c);
    ConcatOne([a], b);
    ConcatOne([], a);
    assert [a, b] + [c] == [a, b, c] && [a] + [b] == [a, b] && [] + [a] == [a] && Concat([]) == "" && "" + a == a;
  }

  lemma FourParts(a: string, b: string, c: string, d: string)
    ensures Concat([a, b, c, d]) == a + (b + (c + d))
  {
    ConcatOne([a, b, c], d);
    ThreeParts(a, b, c);
    assert [a, b, c] + [d] == [a, b, c, d];
    Associates(a + b, c, d);
    Associates(a, b, c + d);
  }

  method WriteGroup(w: ContextWriter, stamp: Stamp, lead: string, group: DuplicateGroup) returns (ok: bool)
    modifies w
    ensures Wrote(ok, old(w.contents), w.contents, lead + GroupText(GroupOf(stamp, group)))
    ensures w.Counted(ok) && (w.Faultless() ==> ok)
  {
    var g := GroupOf(stamp, group);
    ghost var start := w.contents;
    ghost var opening, lines := Concat(GroupOpening(lead, g)), LinesText(FILE_GAP, FileTexts(g.files));
    ghost var closing := Concat(CloseParts(FilesEnd(g.files), GROUP_END + "}"));
    WholeGroup(lead, g);
    ok := WriteParts(w, GroupOpening(lead, g));
    if !ok { WroteLess(start, w.contents, opening, lines + closing); return; }
    ghost var begun := w.contents;
    ok := WriteFiles(w, stamp, group.files);
    if !ok {
      WroteLess(begun, w.contents, lines, closing);
      ThenWrote(false, start, begun, w.contents, opening, lines + closing);
      return;
    }
    ghost var filled := w.contents;
    ok := WriteParts(w, CloseParts(FilesEnd(g.files), GROUP_END + "}"));
    ThenWrote(ok, begun, filled, w.contents, lines, closing);
    ThenWrote(ok, start, begun, w.contents, opening, lines + closing);
  }

  lemma WholeGroup(lead: string, g: Group)
    ensures lead + GroupText(g)
         == Concat(GroupOpening(lead, g))
            + (LinesText(FILE_GAP, FileTexts(g.files)) + Concat(CloseParts(FilesEnd(g.files), GROUP_END + "}")))
  {
    GroupInParts(g);
    OpeningText(lead, g);
    Associates(lead, Concat(GroupKeys(g) + [FilesKey() + "["]),
               LinesText(FILE_GAP, FileTexts(g.files)) + Concat(CloseParts(FilesEnd(g.files), GROUP_END + "}")));
  }

  // ------------------------------------------------------------------
  // The document.

  function GroupTexts(groups: seq<Group>): (texts: seq<string>)
    ensures |texts| == |groups|
  {
    if groups == [] then [] else GroupTexts(groups[..|groups| - 1]) + [GroupText(groups[|groups| - 1])]
  }

  lemma {:induction false} GroupTextAt(stamp: Stamp, groups: seq<DuplicateGroup>, i: nat)
    requires i < |groups|
    ensures GroupTexts(GroupsOf(stamp, groups))[i] == GroupText(GroupOf(stamp, groups[i]))
  {
    var n := |groups| - 1;
    var exported := GroupsOf(stamp, groups);
    assert exported[..n] == GroupsOf(stamp, groups[..n]);
    if i < n { GroupTextAt(stamp, groups[..n], i); }
  }

  lemma {:induction false} TextsOfGroups(groups: seq<Group>)
    ensures Texts(GroupsPieces(groups)) == GroupTexts(groups)
  {
    if groups != [] {
      var n := |groups| - 1;
      TextsOfGroups(groups[..n]);
      assert GroupsPieces(groups)[..n] == GroupsPieces(groups[..n]);
    }
  }

  ghost predicate AreGroupTexts(stamp: Stamp, groups: seq<DuplicateGroup>, texts: seq<string>) {
    |texts| == |groups| && forall i :: 0 <= i < |groups| ==> texts[i] == GroupText(GroupOf(stamp, groups[i]))
  }

  method WriteGroupAt(w: ContextWriter, stamp: Stamp, groups: seq<DuplicateGroup>, i: nat, ghost texts: seq<string>,
                      ghost start: string)
    returns (ok: bool)
    requires i < |groups| && AreGroupTexts(stamp, groups, texts)
    requires Wrote(true, start, w.contents, LinesText(GROUP_GAP, texts[..i]))
    modifies w
    ensures ok ==> Wrote(true, start, w.contents, LinesText(GROUP_GAP, texts[..i + 1]))
    ensures !ok ==> Wrote(false, start, w.contents, LinesText(GROUP_GAP, texts))
    ensures w.Counted(ok) && (w.Faultless() ==> ok)
  {
    var now := w.Stopped();
    if now {
      LinesInterrupted(GROUP_GAP, texts, i, start, w.contents);
      return false;
    }
    ghost var before := w.contents;
    ok := WriteGroup(w, stamp, LineLead(GROUP_GAP, i), groups[i]);
    NextLine(GROUP_GAP, texts, i);
    ThenWrote(ok, start, before, w.contents, LinesText(GROUP_GAP, texts[..i]), LineLead(GROUP_GAP, i) + texts[i]);
    if !ok { LinesInterrupted(GROUP_GAP, texts, i + 1, start, w.contents); }
  }

  method WriteGroups(w: ContextWriter, stamp: Stamp, groups: seq<DuplicateGroup>, ghost texts: seq<string>)
    returns (ok: bool)
    requires AreGroupTexts(stamp, groups, texts)
    modifies w
    ensures Wrote(ok, old(w.contents), w.contents, LinesText(GROUP_GAP, texts))
    ensures w.Counted(ok) && (w.Faultless() ==> ok)
  {
    ghost var start := w.contents;
    for i := 0 to |groups|
      invariant Wrote(true, start, w.contents, LinesText(GROUP_GAP, texts[..i])) && w.Counted(true)
    {
      ok := WriteGroupAt(w, stamp, groups, i, texts, start);
      if !ok { return; }
    }
    assert texts[..|groups|] == texts;
    ok := true;
  }

  function NamedTexts(name: string, s: string): seq<string> {
    if s == "" then [] else [KeyText("," + MEMBER_GAP, name), Quote(s)]
  }

  function NumberText(name: string, n: int): string { KeyText("," + MEMBER_GAP, name) + FormatInt(n) }

  /** Everything before the groups but the name of the groups. */
  function HeadParts(d: Document): seq<string> {
    [KeyText("{" + MEMBER_GAP, "schema"), Quote(d.schema), KeyText("," + MEMBER_GAP, "generatedAt"),
             Quote(d.generatedAt)]
    + NamedTexts("folder", d.folder)
    + [NumberText("groupCount", d.groupCount), NumberText("fileCount", d.fileCount),
       NumberText("reclaimableBytes", d.reclaimableBytes)]
  }

  function GroupsKey(): string { KeyText("," + MEMBER_GAP, "groups") }

  function GroupsEnd(groups: seq<Group>): string { if groups == [] then "" else GROUPS_END }

  lemma MemberNamesPlain()
    ensures IsPlain("schema") && IsPlain("generatedAt") && IsPlain("folder") && IsPlain("groupCount")
            && IsPlain("fileCount")
    ensures IsPlain("reclaimableBytes") && IsPlain("groups")
  {
  }

  lemma TwoEntries(gap: string, open: string, a: Entry, b: Entry)
    requires IsPlain(a.name) && IsPlain(b.name)
    ensures InStep(gap, open, [a, b], [KeyText(open + gap, a.name), Render(a.pieces), KeyText("," + gap, b.name),
                                       Render(b.pieces)])
  {
    var first := [KeyText(open + gap, a.name), Render(a.pieces)];
    FirstEntry(gap, open, a);
    NextEntry(gap, open, [a], first, b);
    assert [a] + [b] == [a, b];
    assert first + [KeyText("," + gap, b.name), Render(b.pieces)]
        == [KeyText(open + gap, a.name), Render(a.pieces), KeyText("," + gap, b.name), Render(b.pieces)];
  }

  lemma OptionalInStep(gap: string, open: string, entries: seq<Entry>, parts: seq<string>, name: string, s: string)
    requires entries != [] && IsPlain(name) && InStep(gap, open, entries, parts) && gap == MEMBER_GAP
    ensures InStep(gap, open, entries + OptionalEntry(name, s), parts + NamedTexts(name, s))
  {
    if s == "" {
      assert entries + [] == entries && parts + [] == parts;
    } else {
      NextEntry(gap, open, entries, parts, Entry(name, [Tok(Str(s))]));
      RenderOne(Tok(Str(s)));
    }
  }

  lemma NumberInStep(open: string, entries: seq<Entry>, parts: seq<string>, name: string, n: int)
    requires entries != [] && IsPlain(name) && InStep(MEMBER_GAP, open, entries, parts)
    ensures InStep(MEMBER_GAP, open, entries + [Entry(name, [Tok(Num(n))])], parts + [NumberText(name, n)])
  {
    NextEntry(MEMBER_GAP, open, entries, parts, Entry(name, [Tok(Num(n))]));
    RenderOne(Tok(Num(n)));
  }

  lemma HeadInStep(d: Document)
    ensures InStep(MEMBER_GAP, "{", HeadEntries(d),
                   [KeyText("{" + MEMBER_GAP, "schema"), Quote(d.schema), KeyText("," + MEMBER_GAP, "generatedAt"),
                            Quote(d.generatedAt)]
                   + NamedTexts("folder", d.folder))
  {
    var a, b := Entry("schema", [Tok(Str(d.schema))]), Entry("generatedAt", [Tok(Str(d.generatedAt))]);
    MemberNamesPlain();
    RenderOne(Tok(Str(d.schema)));
    RenderOne(Tok(Str(d.generatedAt)));
    TwoEntries(MEMBER_GAP, "{", a, b);
    OptionalInStep(MEMBER_GAP, "{", [a, b],
                   [KeyText("{" + MEMBER_GAP, "schema"), Quote(d.schema), KeyText("," + MEMBER_GAP, "generatedAt"),
                            Quote(d.generatedAt)],
                   "folder", d.folder);
  }

  lemma CountsInStep(entries: seq<Entry>, parts: seq<string>, a: int, b: int, c: int)
    requires entries != [] && InStep(MEMBER_GAP, "{", entries, parts)
    ensures InStep(MEMBER_GAP, "{",
                   entries + [Entry("groupCount", [Tok(Num(a))]), Entry("fileCount", [Tok(Num(b))]),
                              Entry("reclaimableBytes", [Tok(Num(c))])],
                   parts + [NumberText("groupCount", a), NumberText("fileCount", b), NumberText("reclaimableBytes", c)])
  {
    MemberNamesPlain();
    ThreeNumbersInStep(entries, parts, "groupCount", "fileCount", "reclaimableBytes", a, b, c);
  }

  lemma ThreeNumbersInStep(entries: seq<Entry>, parts: seq<string>, k: string, l: string, m: string, a: int, b: int,
                           c: int)
    requires entries != [] && IsPlain(k) && IsPlain(l) && IsPlain(m) && InStep(MEMBER_GAP, "{", entries, parts)
    ensures InStep(MEMBER_GAP, "{",
                   entries + [Entry(k, [Tok(Num(a))]), Entry(l, [Tok(Num(b))]), Entry(m, [Tok(Num(c))])],
                   parts + [NumberText(k, a), NumberText(l, b), NumberText(m, c)])
  {
    NumberInStep("{", entries, parts, k, a);
    var x, y, p, q := Entry(k, [Tok(Num(a))]), Entry(l, [Tok(Num(b))]), NumberText(k, a), NumberText(l, b);
    NumberInStep("{", entries + [x], parts + [p], l, b);
    NumberInStep("{", entries + [x] + [y], parts + [p] + [q], m, c);
    AppendThree(entries, x, y, Entry(m, [Tok(Num(c))]));
    AppendThree(parts, p, q, NumberText(m, c));
  }

  lemma AppendThree<T>(s: seq<T>, x: T, y: T, z: T)
    ensures s + [x] + [y] + [z] == s + [x, y, z]
  {
  }

  lemma GroupsArray(groups: seq<Group>)
    ensures Render(GroupsLayout(groups)) == "[" + (LinesText(GROUP_GAP, GroupTexts(groups)) + (GroupsEnd(groups) + "]"))
  {
    RenderArray(GROUP_GAP, GROUPS_END, GroupsPieces(groups));
    TextsOfGroups(groups);
  }

  lemma AllInStep(d: Document)
    ensures InStep(MEMBER_GAP, "{", HeadEntries(d) + TailEntries(d), HeadParts(d)
            + [GroupsKey() + Render(GroupsLayout(d.groups))])
  {
    var t := TailEntries(d);
    var counted := HeadEntries(d) + [t[0], t[1], t[2]];
    HeadInStep(d);
    CountsInStep(HeadEntries(d), [KeyText("{" + MEMBER_GAP, "schema"), Quote(d.schema),
                                          KeyText("," + MEMBER_GAP, "generatedAt"),
                                  Quote(d.generatedAt)] + NamedTexts("folder", d.folder),
                 d.groupCount, d.fileCount, d.reclaimableBytes);
    MemberNamesPlain();
    NextEntry(MEMBER_GAP, "{", counted, HeadParts(d), t[3]);
    assert counted + [t[3]] == HeadEntries(d) + t;
  }

  /** The text, in the parts it is written in. */
  lemma DocumentInParts(d: Document)
    ensures DocumentText(d) == Concat(HeadParts(d) + [GroupsKey() + "["])
                               + (LinesText(GROUP_GAP, GroupTexts(d.groups))
                                  + Concat(CloseParts(GroupsEnd(d.groups), END + "}" + "\n")))
  {
    RenderObject(MEMBER_GAP, END, HeadEntries(d) + TailEntries(d));
    AllInStep(d);
    GroupsArray(d.groups);
    LastPart(HeadParts(d), GroupsKey(), LinesText(GROUP_GAP, GroupTexts(d.groups)), GroupsEnd(d.groups),
             END + "}" + "\n");
    Associates(Concat(HeadParts(d) + [GroupsKey() + Render(GroupsLayout(d.groups))]), END + "}", "\n");
  }

  lemma GroupTextsAre(stamp: Stamp, groups: seq<DuplicateGroup>)
    ensures AreGroupTexts(stamp, groups, GroupTexts(GroupsOf(stamp, groups)))
  {
    forall i | 0 <= i < |groups|
      ensures GroupTexts(GroupsOf(stamp, groups))[i] == GroupText(GroupOf(stamp, groups[i]))
    {
      GroupTextAt(stamp, groups, i);
    }
  }

  /** The streamed report: with totals from the counting pass, the text of the
      document built from the same groups. */
  method WriteJson(w: ContextWriter, stamp: Stamp, folder: string, groups: seq<DuplicateGroup>, generatedAt: int,
                   summary: Summary)
    returns (ok: bool)
    requires summary == Summary(|groups|, FileTotal(groups), ReclaimableTotal(groups))
    modifies w
    ensures Wrote(ok, old(w.contents), w.contents, DocumentText(DocumentOf(stamp, folder, groups, generatedAt)))
    ensures w.Counted(ok) && (w.Faultless() ==> ok)
  {
    ghost var d := DocumentOf(stamp, folder, groups, generatedAt);
    ghost var start := w.contents;
    ghost var opening, lines := Concat(HeadParts(d) + [GroupsKey() + "["]), LinesText(GROUP_GAP, GroupTexts(d.groups));
    ghost var closing := Concat(CloseParts(GroupsEnd(d.groups), END + "}" + "\n"));
    DocumentInParts(d);
    var head := [KeyText("{" + MEMBER_GAP, "schema"), Quote(SCHEMA), KeyText("," + MEMBER_GAP, "generatedAt"),
                         Quote(stamp(generatedAt))]
                + NamedTexts("folder", folder)
                + [NumberText("groupCount", summary.groupCount), NumberText("fileCount", summary.fileCount),
                   NumberText("reclaimableBytes", summary.reclaimableBytes)];
    ok := WriteParts(w, head + [GroupsKey() + "["]);
    if !ok { WroteLess(start, w.contents, opening, lines + closing); return; }
    ghost var begun := w.contents;
    GroupTextsAre(stamp, groups);
    ok := WriteGroups(w, stamp, groups, GroupTexts(d.groups));
    if !ok {
      WroteLess(begun, w.contents, lines, closing);
      ThenWrote(false, start, begun, w.contents, opening, lines + closing);
      return;
    }
    ghost var filled := w.contents;
    ok := WriteParts(w, CloseParts(if |groups| > 0 then GROUPS_END else "", END + "}" + "\n"));
    ThenWrote(ok, begun, filled, w.contents, lines, closing);
    ThenWrote(ok, start, begun, w.contents, opening, lines + closing);
  }
}
