/** The JSON report as it is streamed, write by write. */
module JsonWriter {
  import opened Strings
  import opened Json
  import opened JsonLayout
  import opened ReportWriter

  lemma {:induction false} ConcatBeginning(parts: seq<string>, n: nat) returns (rest: string)
    requires n <= |parts|
    ensures Concat(parts) == Concat(parts[..n]) + rest
    decreases |parts|
  {
    if n == |parts| {
      assert parts[..n] == parts;
      rest := "";
    } else {
      var before := parts[..|parts| - 1];
      rest := ConcatBeginning(before, n);
      assert before[..n] == parts[..n];
      Associates(Concat(parts[..n]), rest, parts[|parts| - 1]);
      rest := rest + parts[|parts| - 1];
    }
  }

  /** One write after the other, up to the first that fails. */
  method WriteParts(w: ContextWriter, parts: seq<string>) returns (ok: bool)
    modifies w
    ensures Wrote(ok, old(w.contents), w.contents, Concat(parts))
    ensures w.Counted(ok) && (w.Faultless() ==> ok)
  {
    for i := 0 to |parts|
      invariant Wrote(true, old(w.contents), w.contents, Concat(parts[..i])) && w.Counted(true)
    {
      ghost var before := w.contents;
      assert parts[..i + 1][..i] == parts[..i];
      var end := w.Write(parts[i]);
      ok := end == Written;
      ThenWrote(ok, old(w.contents), before, w.contents, Concat(parts[..i]), parts[i]);
      if !ok {
        ghost var rest := ConcatBeginning(parts, i + 1);
        WroteLess(old(w.contents), w.contents, Concat(parts[..i + 1]), rest);
        return;
      }
    }
    assert parts[..|parts|] == parts;
    ok := true;
  }

  // ------------------------------------------------------------------
  // Names and lines.

  /** A name that needs no escaping. */
  predicate IsPlain(name: string) { forall i :: 0 <= i < |name| ==> IsPlainChar(name[i]) }

  predicate IsPlainChar(c: char) { 'a' <= c <= 'z' || 'A' <= c <= 'Z' || IsDigit(c) }

  lemma {:induction false} PlainQuote(name: string)
    requires IsPlain(name)
    ensures Escape(name) == name
  {
    if name != "" {
      PlainQuote(name[1..]);
      assert IsPlainChar(name[0]) && EscapeChar(name[0]) == [name[0]];
    }
  }

  /** A line break or the like, a quoted name, and the colon. */
  function KeyText(lead: string, name: string): string { lead + "\"" + name + "\": " }

  lemma RenderOne(p: Piece)
    ensures Render([p]) == PieceText(p)
  {
    assert Render([p]) == PieceText(p) + Render([p][1..]) && [p][1..] == [];
  }

  lemma RenderLead(gap: string, name: string, first: bool)
    requires IsPlain(name)
    ensures Render(Lead(gap, name, first)) == KeyText((if first then "" else ",") + gap, name)
  {
    PlainQuote(name);
    var separator := if first then [] else [Tok(ValueSeparator)];
    RenderAppend(separator, [Gap(gap), Tok(Str(name)), Tok(NameSeparator), Gap(" ")]);
    assert [Gap(gap), Tok(Str(name)), Tok(NameSeparator), Gap(" ")]
      == [Gap(gap)] + ([Tok(Str(name))] + ([Tok(NameSeparator)] + [Gap(" ")]));
    RenderAppend([Gap(gap)], [Tok(Str(name))] + ([Tok(NameSeparator)] + [Gap(" ")]));
    RenderAppend([Tok(Str(name))], [Tok(NameSeparator)] + [Gap(" ")]);
    RenderAppend([Tok(NameSeparator)], [Gap(" ")]);
    RenderOne(Gap(gap));
    RenderOne(Tok(Str(name)));
    RenderOne(Tok(NameSeparator));
    RenderOne(Gap(" "));
    RenderOne(Tok(ValueSeparator));
    assert Render([]) == "";
    LeadText(gap, name);
  }

  lemma LeadText(gap: string, name: string)
    ensures "," + (gap + ("\"" + name + "\"" + (":" + " "))) == KeyText("," + gap, name)
    ensures "" + (gap + ("\"" + name + "\"" + (":" + " "))) == KeyText("" + gap, name)
  {
  }

  /** One more member line. */
  lemma RenderMember(gap: string, entries: seq<Entry>, e: Entry)
    requires IsPlain(e.name)
    ensures Render(MemberLines(gap, entries + [e]))
         == Render(MemberLines(gap, entries))
            + (KeyText((if entries == [] then "" else ",") + gap, e.name) + Render(e.pieces))
  {
    assert (entries + [e])[..|entries|] == entries;
    RenderAppend(MemberLines(gap, entries), Lead(gap, e.name, entries == []) + e.pieces);
    RenderAppend(Lead(gap, e.name, entries == []), e.pieces);
    RenderLead(gap, e.name, entries == []);
  }

  lemma RenderItemLead(gap: string, first: bool)
    ensures Render(ItemLead(gap, first)) == if first then gap else "," + gap
  {
    RenderOne(Gap(gap));
    RenderOne(Tok(ValueSeparator));
    assert [Tok(ValueSeparator), Gap(gap)] == [Tok(ValueSeparator)] + [Gap(gap)];
    RenderAppend([Tok(ValueSeparator)], [Gap(gap)]);
  }

  /** One more item line. */
  lemma RenderItem(gap: string, items: seq<seq<Piece>>, n: nat)
    requires n < |items|
    ensures Render(ItemLines(gap, items[..n + 1]))
         == Render(ItemLines(gap, items[..n])) + ((if n > 0 then "," + gap else gap) + Render(items[n]))
  {
    var more := items[..n + 1];
    assert more[..n] == items[..n] && more[n] == items[n];
    RenderAppend(ItemLines(gap, items[..n]), ItemLead(gap, n == 0) + items[n]);
    RenderAppend(ItemLead(gap, n == 0), items[n]);
    RenderItemLead(gap, n == 0);
  }

  /** Item lines as text. */
  function LinesText(gap: string, texts: seq<string>): string {
    if texts == [] then ""
    else
      var n := |texts| - 1;
      LinesText(gap, texts[..n]) + (LineLead(gap, n) + texts[n])
  }

  function LineLead(gap: string, n: nat): string { if n > 0 then "," + gap else gap }

  function Texts(items: seq<seq<Piece>>): (texts: seq<string>)
    ensures |texts| == |items|
  {
    if items == [] then [] else Texts(items[..|items| - 1]) + [Render(items[|items| - 1])]
  }

  lemma {:induction false} RenderLines(gap: string, items: seq<seq<Piece>>)
    ensures Render(ItemLines(gap, items)) == LinesText(gap, Texts(items))
    decreases |items|
  {
    if items != [] {
      var n := |items| - 1;
      RenderLines(gap, items[..n]);
      RenderItem(gap, items, n);
      assert items[..n + 1] == items && Texts(items)[..n] == Texts(items[..n]);
    }
  }

  lemma NextLine(gap: string, texts: seq<string>, n: nat)
    requires n < |texts|
    ensures LinesText(gap, texts[..n + 1]) == LinesText(gap, texts[..n]) + (LineLead(gap, n) + texts[n])
  {
    assert texts[..n + 1][..n] == texts[..n];
  }

  lemma {:induction false} LinesBeginning(gap: string, texts: seq<string>, n: nat) returns (rest: string)
    requires n <= |texts|
    ensures LinesText(gap, texts) == LinesText(gap, texts[..n]) + rest
    decreases |texts| - n
  {
    if n == |texts| {
      assert texts[..n] == texts;
      rest := "";
    } else {
      rest := LinesBeginning(gap, texts, n + 1);
      NextLine(gap, texts, n);
      Associates(LinesText(gap, texts[..n]), LineLead(gap, n) + texts[n], rest);
      rest := LineLead(gap, n) + texts[n] + rest;
    }
  }

  /** An interrupted list of lines has been written up to some line, or into it. */
  lemma LinesInterrupted(gap: string, texts: seq<string>, n: nat, before: string, after: string)
    requires n <= |texts| && Wrote(false, before, after, LinesText(gap, texts[..n]))
    ensures Wrote(false, before, after, LinesText(gap, texts))
  {
    var rest := LinesBeginning(gap, texts, n);
    WroteLess(before, after, LinesText(gap, texts[..n]), rest);
  }

  // ------------------------------------------------------------------
  // The parts of the text.

  lemma ConcatOne(parts: seq<string>, x: string)
    ensures Concat(parts + [x]) == Concat(parts) + x
  {
    assert (parts + [x])[..|parts|] == parts;
  }

  lemma ConcatTwo(parts: seq<string>, x: string, y: string)
    ensures Concat(parts + [x, y]) == Concat(parts) + (x + y)
  {
    assert parts + [x, y] == (parts + [x]) + [y];
    ConcatOne(parts + [x], y);
    ConcatOne(parts, x);
    Associates(Concat(parts), x, y);
  }

  /** The parts written so far are the opened object up to its last entry. */
  predicate InStep(gap: string, open: string, entries: seq<Entry>, parts: seq<string>) {
    open + Render(MemberLines(gap, entries)) == Concat(parts)
  }

  /** A name and its value, written as two parts or as one. */
  lemma NextEntry(gap: string, open: string, entries: seq<Entry>, parts: seq<string>, e: Entry)
    requires entries != [] && IsPlain(e.name) && InStep(gap, open, entries, parts)
    ensures InStep(gap, open, entries + [e], parts + [KeyText("," + gap, e.name), Render(e.pieces)])
    ensures InStep(gap, open, entries + [e], parts + [KeyText("," + gap, e.name) + Render(e.pieces)])
  {
    var line := KeyText("," + gap, e.name) + Render(e.pieces);
    RenderMember(gap, entries, e);
    Associates(open, Render(MemberLines(gap, entries)), line);
    ConcatTwo(parts, KeyText("," + gap, e.name), Render(e.pieces));
    ConcatOne(parts, line);
  }

  lemma FirstEntry(gap: string, open: string, e: Entry)
    requires IsPlain(e.name)
    ensures InStep(gap, open, [e], [KeyText(open + gap, e.name), Render(e.pieces)])
    ensures InStep(gap, open, [e], [KeyText(open + gap, e.name) + Render(e.pieces)])
  {
    var line := KeyText("" + gap, e.name) + Render(e.pieces);
    RenderMember(gap, [], e);
    assert [] + [e] == [e] && Render(MemberLines(gap, [])) == "";
    OpenLine(open, gap, e.name, Render(e.pieces));
    ConcatTwo([], KeyText(open + gap, e.name), Render(e.pieces));
    ConcatOne([], KeyText(open + gap, e.name) + Render(e.pieces));
    EmptyFirst(KeyText(open + gap, e.name), Render(e.pieces));
  }

  lemma OpenLine(open: string, gap: string, name: string, value: string)
    ensures open + ("" + (KeyText("" + gap, name) + value)) == KeyText(open + gap, name) + value
  {
  }

  lemma EmptyFirst(x: string, y: string)
    ensures Concat([]) == "" && "" + (x + y) == x + y
    ensures [] + [x, y] == [x, y] && [] + [x + y] == [x + y]
  {
  }

  lemma RenderArray(gap: string, close: string, items: seq<seq<Piece>>)
    ensures Render(ArrayLayout(gap, close, items))
         == "[" + (LinesText(gap, Texts(items)) + ((if items == [] then "" else close) + "]"))
  {
    var end := if items == [] then [] else [Gap(close)];
    RenderLines(gap, items);
    RenderOne(Tok(BeginArray));
    RenderOne(Tok(EndArray));
    RenderOne(Gap(close));
    RenderAppend(end, [Tok(EndArray)]);
    RenderAppend(ItemLines(gap, items), end + [Tok(EndArray)]);
    RenderAppend([Tok(BeginArray)], ItemLines(gap, items) + (end + [Tok(EndArray)]));
    assert Render([]) == "";
  }

  lemma RenderObject(gap: string, close: string, entries: seq<Entry>)
    ensures Render(ObjectLayout(gap, close, entries)) == "{" + Render(MemberLines(gap, entries)) + (close + "}")
  {
    RenderOne(Tok(BeginObject));
    RenderOne(Tok(EndObject));
    RenderOne(Gap(close));
    RenderAppend([Gap(close)], [Tok(EndObject)]);
    RenderAppend(MemberLines(gap, entries), [Gap(close)] + [Tok(EndObject)]);
    RenderAppend([Tok(BeginObject)], MemberLines(gap, entries) + ([Gap(close)] + [Tok(EndObject)]));
    Associates("{", Render(MemberLines(gap, entries)), close + "}");
  }
}
