/**
 The streamed JSON report: whatever the groups, the text is one JSON value that
 reads back as the document; an interrupted export has written a beginning of
 that text.
 */
module JsonReport {
  import opened Bytes
  import opened Json
  import opened JsonLayout
  import opened ReportDocument

  // ------------------------------------------------------------------
  // The text.

  function FilePieces(f: File): seq<Piece> { Compact(Tokens(FileValue(f))) }

  function FilesPieces(files: seq<File>): (items: seq<seq<Piece>>)
    ensures |items| == |files| && forall i :: 0 <= i < |files| ==> items[i] == FilePieces(files[i])
  {
    if files == [] then [] else FilesPieces(files[..|files| - 1]) + [FilePieces(files[|files| - 1])]
  }

  const FILE_GAP := "\n        "
  const FILES_END := "\n      "
  const GROUP_MEMBER_GAP := "\n      "
  const GROUP_END := "\n    "
  const GROUP_GAP := "\n    "
  const GROUPS_END := "\n  "
  const MEMBER_GAP := "\n  "
  const END := "\n"

  function FilesLayout(files: seq<File>): seq<Piece> { ArrayLayout(FILE_GAP, FILES_END, FilesPieces(files)) }

  function GroupEntries(g: Group): seq<Entry> {
    [Entry("size", [Tok(Num(g.size))]), Entry("sha256", [Tok(Str(g.hash))]), Entry("files", FilesLayout(g.files))]
  }

  function GroupPieces(g: Group): seq<Piece> { ObjectLayout(GROUP_MEMBER_GAP, GROUP_END, GroupEntries(g)) }

  function GroupsPieces(groups: seq<Group>): (items: seq<seq<Piece>>)
    ensures |items| == |groups| && forall i :: 0 <= i < |groups| ==> items[i] == GroupPieces(groups[i])
  {
    if groups == [] then [] else GroupsPieces(groups[..|groups| - 1]) + [GroupPieces(groups[|groups| - 1])]
  }

  function GroupsLayout(groups: seq<Group>): seq<Piece> { ArrayLayout(GROUP_GAP, GROUPS_END, GroupsPieces(groups)) }

  function OptionalEntry(name: string, s: string): seq<Entry> { if s == "" then [] else [Entry(name, [Tok(Str(s))])] }

  function HeadEntries(d: Document): seq<Entry> {
    [Entry("schema", [Tok(Str(d.schema))]), Entry("generatedAt", [Tok(Str(d.generatedAt))])]
      + OptionalEntry("folder", d.folder)
  }

  function TailEntries(d: Document): seq<Entry> {
    [Entry("groupCount", [Tok(Num(d.groupCount))]), Entry("fileCount", [Tok(Num(d.fileCount))]),
     Entry("reclaimableBytes", [Tok(Num(d.reclaimableBytes))]), Entry("groups", GroupsLayout(d.groups))]
  }

  function DocumentPieces(d: Document): seq<Piece> { ObjectLayout(MEMBER_GAP, END, HeadEntries(d) + TailEntries(d)) }

  function DocumentText(d: Document): string { Render(DocumentPieces(d)) + "\n" }

  // ------------------------------------------------------------------
  // It reads back.

  lemma GapsAreGaps()
    ensures IsGap(FILE_GAP) && IsGap(FILES_END) && IsGap(GROUP_MEMBER_GAP) && IsGap(GROUP_END)
    ensures IsGap(GROUP_GAP) && IsGap(GROUPS_END) && IsGap(MEMBER_GAP) && IsGap(END)
  {
  }

  lemma FilesLaidOut(files: seq<File>)
    ensures LaysOut(FilesLayout(files), List(FileValues(files)))
  {
    GapsAreGaps();
    var items, values := FilesPieces(files), FileValues(files);
    forall i | 0 <= i < |files| ensures LaysOut(items[i], values[i]) { CompactLaysOut(FileValue(files[i])); }
    ArrayLaysOut(FILE_GAP, FILES_END, items, values);
  }

  lemma GroupLaidOut(g: Group)
    ensures LaysOut(GroupPieces(g), GroupValue(g))
  {
    GapsAreGaps();
    FilesLaidOut(g.files);
    TextLaysOut(g.hash);
    NumberLaysOut(g.size);
    ObjectLaysOut(GROUP_MEMBER_GAP, GROUP_END, GroupEntries(g), GroupValue(g).members);
  }

  lemma GroupsLaidOut(groups: seq<Group>)
    ensures LaysOut(GroupsLayout(groups), List(GroupValues(groups)))
  {
    GapsAreGaps();
    var items, values := GroupsPieces(groups), GroupValues(groups);
    forall i | 0 <= i < |groups| ensures LaysOut(items[i], values[i]) { GroupLaidOut(groups[i]); }
    ArrayLaysOut(GROUP_GAP, GROUPS_END, items, values);
  }

  lemma LaidOutAppend(a: seq<Entry>, x: seq<Member>, b: seq<Entry>, y: seq<Member>)
    requires AllMembersLaidOut(a, x) && AllMembersLaidOut(b, y)
    ensures AllMembersLaidOut(a + b, x + y)
  {
  }

  lemma FourLaidOut(a: Entry, b: Entry, c: Entry, e: Entry, va: Value, vb: Value, vc: Value, ve: Value)
    requires LaysOut(a.pieces, va) && LaysOut(b.pieces, vb) && LaysOut(c.pieces, vc) && LaysOut(e.pieces, ve)
    ensures AllMembersLaidOut([a, b, c, e],
                              [Member(a.name, va), Member(b.name, vb), Member(c.name, vc), Member(e.name, ve)])
  {
  }

  lemma HeadLaidOut(d: Document)
    ensures AllMembersLaidOut(HeadEntries(d),
                              [Member("schema", Text(d.schema)), Member("generatedAt", Text(d.generatedAt))]
                                              + Optional("folder", d.folder))
  {
    TextLaysOut(d.schema);
    TextLaysOut(d.generatedAt);
    TextLaysOut(d.folder);
  }

  lemma TailLaidOut(d: Document)
    ensures AllMembersLaidOut(TailEntries(d),
                              [Member("groupCount", Number(d.groupCount)), Member("fileCount", Number(d.fileCount)),
                                               Member("reclaimableBytes", Number(d.reclaimableBytes)),
                                               Member("groups", List(GroupValues(d.groups)))])
  {
    NumberLaysOut(d.groupCount);
    NumberLaysOut(d.fileCount);
    NumberLaysOut(d.reclaimableBytes);
    GroupsLaidOut(d.groups);
    var e := TailEntries(d);
    FourLaidOut(e[0], e[1], e[2], e[3], Number(d.groupCount), Number(d.fileCount), Number(d.reclaimableBytes),
                List(GroupValues(d.groups)));
  }

  lemma DocumentLaidOut(d: Document)
    ensures LaysOut(DocumentPieces(d), DocumentValue(d))
  {
    var head := [Member("schema", Text(d.schema)), Member("generatedAt", Text(d.generatedAt))]
      + Optional("folder", d.folder);
    var tail := [Member("groupCount", Number(d.groupCount)), Member("fileCount", Number(d.fileCount)),
                 Member("reclaimableBytes", Number(d.reclaimableBytes)), Member("groups", List(GroupValues(d.groups)))];
    HeadLaidOut(d);
    TailLaidOut(d);
    LaidOutAppend(HeadEntries(d), head, TailEntries(d), tail);
    GapsAreGaps();
    ObjectLaysOut(MEMBER_GAP, END, HeadEntries(d) + TailEntries(d), head + tail);
  }

  /** For every document, with or without folder, groups and files, the text is one
      JSON value, and reading it gives the document back. */
  lemma TextReadsBack(d: Document)
    ensures Read(DocumentText(d)) == Some(DocumentValue(d))
    ensures ReadDocument(Read(DocumentText(d)).value) == d
  {
    DocumentLaidOut(d);
    var pieces := DocumentPieces(d);
    var last := [Gap(END)];
    GapsAreGaps();
    GapSeparated(END);
    SeparatedAppend(pieces, last);
    TokensAppend(pieces, last);
    RenderAppend(pieces, last);
    assert Render(last) == END + Render(last[1..]) && last[1..] == [] && END + "" == END;
    assert Tokens(DocumentValue(d)) + [] == Tokens(DocumentValue(d));
    LayoutReads(pieces + last, DocumentValue(d));
    DocumentReadBack(d);
  }
}
