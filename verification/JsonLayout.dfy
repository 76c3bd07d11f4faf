/**
 Laying out values over lines: objects and arrays whose parts each lay out a
 value are themselves layouts of the value they make.
 */
module JsonLayout {
  import opened Json

  /** The pieces are a layout of the value. */
  predicate LaysOut(pieces: seq<Piece>, v: Value) {
    pieces != [] && Separated(pieces) && TokensIn(pieces) == Tokens(v)
  }

  lemma TokensAssociate(a: seq<Token>, b: seq<Token>, c: seq<Token>)
    ensures (a + b) + c == a + (b + c)
  {
  }

  lemma {:induction false} TokensAppend(a: seq<Piece>, b: seq<Piece>)
    ensures TokensIn(a + b) == TokensIn(a) + TokensIn(b)
  {
    if a == [] {
      assert a + b == b;
    } else {
      TokensAppend(a[1..], b);
      Tail(a, b);
      TokensAssociate(if a[0].Tok? then [a[0].t] else [], TokensIn(a[1..]), TokensIn(b));
    }
  }

  lemma Tail(a: seq<Piece>, b: seq<Piece>)
    requires a != []
    ensures a + b != [] && (a + b)[0] == a[0] && (a + b)[1..] == a[1..] + b
  {
  }

  lemma {:induction false} RenderAppend(a: seq<Piece>, b: seq<Piece>)
    ensures Render(a + b) == Render(a) + Render(b)
  {
    if a == [] {
      assert a + b == b;
    } else {
      RenderAppend(a[1..], b);
      Tail(a, b);
      Associates(PieceText(a[0]), Render(a[1..]), Render(b));
    }
  }

  /** Joined pieces do not run a number into what follows. */
  predicate Joins(a: seq<Piece>, b: seq<Piece>) {
    a != [] && b != [] && IsNumber(a[|a| - 1]) ==> !IsNumber(b[0]) && PieceText(b[0]) != ""
  }

  lemma SeparatedAppend(a: seq<Piece>, b: seq<Piece>)
    requires Separated(a) && Separated(b) && Joins(a, b)
    ensures Separated(a + b)
  {
    var c := a + b;
    forall i | 0 <= i < |c| ensures GoodGap(c[i]) {
      if i < |a| { assert GoodGap(a[i]); } else { assert GoodGap(b[i - |a|]); }
    }
    forall i | 0 <= i < |c| - 1 && IsNumber(c[i]) ensures !IsNumber(c[i + 1]) && PieceText(c[i + 1]) != "" {
      if i < |a| - 1 {
        assert IsNumber(a[i]);
      } else if i >= |a| {
        assert IsNumber(b[i - |a|]);
      }
    }
  }

  // ------------------------------------------------------------------
  // The compact form.

  function Compact(ts: seq<Token>): (pieces: seq<Piece>)
    ensures |pieces| == |ts| && forall i :: 0 <= i < |ts| ==> pieces[i] == Tok(ts[i])
  {
    if ts == [] then [] else [Tok(ts[0])] + Compact(ts[1..])
  }

  lemma {:induction false} CompactTokens(ts: seq<Token>)
    ensures TokensIn(Compact(ts)) == ts
  {
    if ts != [] { CompactTokens(ts[1..]); }
  }

  /** No number stands directly before a number. */
  predicate Apart(ts: seq<Token>) { forall i :: 0 <= i < |ts| - 1 && ts[i].Num? ==> !ts[i + 1].Num? }

  lemma ApartAround(a: seq<Token>, t: Token, b: seq<Token>)
    requires Apart(a) && Apart(b) && !t.Num?
    ensures Apart(a + [t] + b)
  {
    var c := a + [t] + b;
    forall i | 0 <= i < |c| - 1 && c[i].Num? ensures !c[i + 1].Num? {
      if i < |a| - 1 {
        assert a[i].Num?;
      } else if i > |a| {
        assert b[i - |a| - 1].Num?;
      }
    }
  }

  lemma {:induction false} ItemsApart(items: seq<Value>)
    ensures Apart(ListTokens(items))
    decreases items
  {
    if items != [] {
      ValueApart(items[0]);
      if |items| > 1 {
        ItemsApart(items[1..]);
        ApartAround(Tokens(items[0]), ValueSeparator, ListTokens(items[1..]));
      }
    }
  }

  lemma MemberApart(m: Member)
    requires Apart(Tokens(m.value))
    ensures Apart(MemberTokens(m))
  {
    ApartAround([Str(m.name)], NameSeparator, Tokens(m.value));
    assert [Str(m.name)] + [NameSeparator] + Tokens(m.value) == MemberTokens(m);
  }

  lemma {:induction false} MembersApart(members: seq<Member>)
    ensures Apart(MembersTokens(members))
    decreases members
  {
    if members != [] {
      ValueApart(members[0].value);
      MemberApart(members[0]);
      if |members| > 1 {
        MembersApart(members[1..]);
        ApartAround(MemberTokens(members[0]), ValueSeparator, MembersTokens(members[1..]));
      }
    }
  }

  lemma {:induction false} ValueApart(v: Value)
    ensures Apart(Tokens(v))
    decreases v
  {
    match v {
      case Text(_) =>
      case Number(_) =>
      case List(items) =>
        ItemsApart(items);
        ApartAround([BeginArray], BeginArray, ListTokens(items));
        ApartAround(ListTokens(items), EndArray, []);
        Enclosed(BeginArray, ListTokens(items), EndArray);
      case Object(members) =>
        MembersApart(members);
        Enclosed(BeginObject, MembersTokens(members), EndObject);
    }
  }

  lemma Enclosed(open: Token, body: seq<Token>, close: Token)
    requires Apart(body) && !open.Num? && !close.Num?
    ensures Apart([open] + body + [close])
  {
    ApartAround(body, close, []);
    ApartAround([], open, body + [close] + []);
    assert [] + [open] + (body + [close] + []) == [open] + body + [close];
  }

  /** The compact form is a layout. */
  lemma CompactLaysOut(v: Value)
    ensures LaysOut(Compact(Tokens(v)), v)
  {
    var ts := Tokens(v);
    CompactTokens(ts);
    ValueApart(v);
    FirstToken(v);
    var pieces := Compact(ts);
    forall i | 0 <= i < |pieces| - 1 && IsNumber(pieces[i])
      ensures !IsNumber(pieces[i + 1]) && PieceText(pieces[i + 1]) != ""
    {
      assert ts[i].Num?;
    }
  }

  lemma AppendPart(before: seq<Piece>, lead: seq<Piece>, part: seq<Piece>)
    requires Separated(before) && Separated(lead) && Separated(part) && lead != []
    requires !IsNumber(lead[0]) && PieceText(lead[0]) != "" && !IsNumber(lead[|lead| - 1])
    ensures Separated(before + (lead + part))
    ensures TokensIn(before + (lead + part)) == TokensIn(before) + (TokensIn(lead) + TokensIn(part))
  {
    SeparatedAppend(lead, part);
    SeparatedAppend(before, lead + part);
    TokensAppend(lead, part);
    TokensAppend(before, lead + part);
  }

  // ------------------------------------------------------------------
  // Arrays over lines.

  predicate IsGap(gap: string) { gap != "" && forall i :: 0 <= i < |gap| ==> IsWhite(gap[i]) }

  function ItemLead(gap: string, first: bool): seq<Piece> {
    if first then [Gap(gap)] else [Tok(ValueSeparator), Gap(gap)]
  }

  /** Each item on a line of its own. */
  function ItemLines(gap: string, items: seq<seq<Piece>>): seq<Piece> {
    if items == [] then []
    else
      var n := |items| - 1;
      ItemLines(gap, items[..n]) + (ItemLead(gap, n == 0) + items[n])
  }

  predicate AllLaysOut(items: seq<seq<Piece>>, values: seq<Value>) {
    |items| == |values| && forall i :: 0 <= i < |items| ==> LaysOut(items[i], values[i])
  }

  lemma {:induction false} ListTokensAppend(items: seq<Value>, v: Value)
    ensures ListTokens(items + [v]) == if items == [] then Tokens(v)
                                       else ListTokens(items) + [ValueSeparator] + Tokens(v)
  {
    if items == [] {
      assert items + [v] == [v];
    } else {
      ListTokensAppend(items[1..], v);
      assert (items + [v])[1..] == items[1..] + [v];
      if |items| == 1 {
        assert items[1..] == [];
      } else {
        Regroup(Tokens(items[0]) + [ValueSeparator], ListTokens(items[1..]), [ValueSeparator]);
        Regroup(Tokens(items[0]) + [ValueSeparator], ListTokens(items[1..]) + [ValueSeparator], Tokens(v));
      }
    }
  }

  lemma GapSeparated(gap: string)
    requires IsGap(gap)
    ensures Separated([Gap(gap)]) && Separated([Tok(ValueSeparator), Gap(gap)])
    ensures TokensIn([Gap(gap)]) == [] && TokensIn([Tok(ValueSeparator), Gap(gap)]) == [ValueSeparator]
  {
    assert TokensIn([Gap(gap)][1..]) == [];
    assert [Tok(ValueSeparator), Gap(gap)][1..] == [Gap(gap)];
  }

  /** The tokens of one more item. */
  lemma OneMoreItem(values: seq<Value>, v: Value, lead: seq<Token>)
    requires lead == if values == [] then [] else [ValueSeparator]
    ensures ListTokens(values) + (lead + Tokens(v)) == ListTokens(values + [v])
  {
    ListTokensAppend(values, v);
    if values == [] {
      assert [] + ([] + Tokens(v)) == Tokens(v);
    } else {
      Regroup(ListTokens(values), lead, Tokens(v));
    }
  }

  lemma ItemLaidOut(gap: string, before: seq<Piece>, values: seq<Value>, part: seq<Piece>, v: Value)
    requires IsGap(gap) && Separated(before) && TokensIn(before) == ListTokens(values) && LaysOut(part, v)
    ensures Separated(before + (ItemLead(gap, values == []) + part))
    ensures TokensIn(before + (ItemLead(gap, values == []) + part)) == ListTokens(values + [v])
  {
    GapSeparated(gap);
    AppendPart(before, ItemLead(gap, values == []), part);
    OneMoreItem(values, v, TokensIn(ItemLead(gap, values == [])));
  }

  lemma LastItem<T>(items: seq<T>)
    requires items != []
    ensures items == items[..|items| - 1] + [items[|items| - 1]] && |items[..|items| - 1]| == |items| - 1
  {
  }

  lemma {:induction false} ItemLinesLayOut(gap: string, items: seq<seq<Piece>>, values: seq<Value>)
    requires IsGap(gap) && AllLaysOut(items, values)
    ensures Separated(ItemLines(gap, items)) && TokensIn(ItemLines(gap, items)) == ListTokens(values)
    decreases |items|
  {
    if items != [] {
      var n := |items| - 1;
      ItemLinesLayOut(gap, items[..n], values[..n]);
      assert LaysOut(items[n], values[n]);
      ItemLaidOut(gap, ItemLines(gap, items[..n]), values[..n], items[n], values[n]);
      LastItem(values);
    }
  }

  /** An array over lines, or closed at once when empty. */
  function ArrayLayout(gap: string, close: string, items: seq<seq<Piece>>): seq<Piece> {
    [Tok(BeginArray)] + (ItemLines(gap, items) + ((if items == [] then [] else [Gap(close)]) + [Tok(EndArray)]))
  }

  lemma EndSeparated(gap: string, t: Token)
    requires IsGap(gap) && !t.Num?
    ensures Separated([Gap(gap)] + [Tok(t)]) && TokensIn([Gap(gap)] + [Tok(t)]) == [t]
    ensures Separated([] + [Tok(t)]) && TokensIn([] + [Tok(t)]) == [t]
  {
    assert ([Gap(gap)] + [Tok(t)])[1..] == [Tok(t)] && [Tok(t)][1..] == [];
    assert [] + [Tok(t)] == [Tok(t)];
    assert TokensIn([Tok(t)]) == [t] + TokensIn([]);
  }

  lemma ArrayLaysOut(gap: string, close: string, items: seq<seq<Piece>>, values: seq<Value>)
    requires IsGap(gap) && IsGap(close) && AllLaysOut(items, values)
    ensures LaysOut(ArrayLayout(gap, close, items), List(values))
  {
    var body, end := ItemLines(gap, items), (if items == [] then [] else [Gap(close)]) + [Tok(EndArray)];
    ItemLinesLayOut(gap, items, values);
    EndSeparated(close, EndArray);
    SeparatedAppend(body, end);
    TokensAppend(body, end);
    Opens(BeginArray, body + end);
    assert [BeginArray] + (ListTokens(values) + [EndArray]) == [BeginArray] + ListTokens(values) + [EndArray];
  }

  lemma Opens(t: Token, pieces: seq<Piece>)
    requires Separated(pieces) && !t.Num?
    ensures Separated([Tok(t)] + pieces) && TokensIn([Tok(t)] + pieces) == [t] + TokensIn(pieces)
  {
    assert ([Tok(t)] + pieces)[1..] == pieces;
    SeparatedAppend([Tok(t)], pieces);
  }

  // ------------------------------------------------------------------
  // Objects over lines.

  datatype Entry = Entry(name: string, pieces: seq<Piece>)

  function Lead(gap: string, name: string, first: bool): seq<Piece> {
    (if first then [] else [Tok(ValueSeparator)]) + [Gap(gap), Tok(Str(name)), Tok(NameSeparator), Gap(" ")]
  }

  /** Each member on a line of its own. */
  function MemberLines(gap: string, entries: seq<Entry>): seq<Piece> {
    if entries == [] then []
    else
      var n := |entries| - 1;
      MemberLines(gap, entries[..n]) + (Lead(gap, entries[n].name, n == 0) + entries[n].pieces)
  }

  predicate AllMembersLaidOut(entries: seq<Entry>, members: seq<Member>) {
    |entries| == |members|
    && forall i :: 0 <= i < |entries| ==>
         entries[i].name == members[i].name && LaysOut(entries[i].pieces, members[i].value)
  }

  lemma {:induction false} MembersTokensAppend(members: seq<Member>, m: Member)
    ensures MembersTokens(members + [m])
         == if members == [] then MemberTokens(m) else MembersTokens(members) + [ValueSeparator] + MemberTokens(m)
  {
    if members == [] {
      assert members + [m] == [m];
    } else {
      MembersTokensAppend(members[1..], m);
      assert (members + [m])[1..] == members[1..] + [m];
      if |members| == 1 {
        assert members[1..] == [];
      } else {
        Regroup(MemberTokens(members[0]) + [ValueSeparator], MembersTokens(members[1..]), [ValueSeparator]);
        Regroup(MemberTokens(members[0]) + [ValueSeparator], MembersTokens(members[1..]) + [ValueSeparator],
                MemberTokens(m));
      }
    }
  }

  lemma LeadLaidOut(gap: string, name: string, first: bool)
    requires IsGap(gap)
    ensures Separated(Lead(gap, name, first))
    ensures TokensIn(Lead(gap, name, first)) == (if first then [] else [ValueSeparator]) + [Str(name), NameSeparator]
    ensures !IsNumber(Lead(gap, name, first)[|Lead(gap, name, first)| - 1])
    ensures !IsNumber(Lead(gap, name, first)[0]) && PieceText(Lead(gap, name, first)[0]) != ""
  {
    var rest := [Gap(gap), Tok(Str(name)), Tok(NameSeparator), Gap(" ")];
    assert rest[1..] == [Tok(Str(name)), Tok(NameSeparator), Gap(" ")];
    assert rest[1..][1..] == [Tok(NameSeparator), Gap(" ")];
    assert rest[1..][1..][1..] == [Gap(" ")] && [Gap(" ")][1..] == [];
    assert TokensIn([Gap(" ")]) == [];
    assert TokensIn(rest[1..][1..]) == [NameSeparator];
    assert TokensIn(rest) == [Str(name), NameSeparator];
    TokensAppend(if first then [] else [Tok(ValueSeparator)], rest);
    assert TokensIn([Tok(ValueSeparator)]) == [ValueSeparator] + TokensIn([]);
  }

  /** The tokens of one more member. */
  lemma OneMoreMember(members: seq<Member>, m: Member, lead: seq<Token>)
    requires lead == (if members == [] then [] else [ValueSeparator]) + [Str(m.name), NameSeparator]
    ensures MembersTokens(members) + (lead + Tokens(m.value)) == MembersTokens(members + [m])
  {
    MembersTokensAppend(members, m);
    assert members == [] ==> [] + (lead + Tokens(m.value)) == MemberTokens(m);
    assert members != [] ==> lead + Tokens(m.value) == [ValueSeparator] + MemberTokens(m);
    Regroup(MembersTokens(members), [ValueSeparator], MemberTokens(m));
  }

  lemma MemberLaidOut(gap: string, before: seq<Piece>, members: seq<Member>, part: seq<Piece>, m: Member)
    requires IsGap(gap) && Separated(before) && TokensIn(before) == MembersTokens(members) && LaysOut(part, m.value)
    ensures Separated(before + (Lead(gap, m.name, members == []) + part))
    ensures TokensIn(before + (Lead(gap, m.name, members == []) + part)) == MembersTokens(members + [m])
  {
    LeadLaidOut(gap, m.name, members == []);
    AppendPart(before, Lead(gap, m.name, members == []), part);
    OneMoreMember(members, m, TokensIn(Lead(gap, m.name, members == [])));
  }

  lemma {:induction false} MemberLinesLayOut(gap: string, entries: seq<Entry>, members: seq<Member>)
    requires IsGap(gap) && AllMembersLaidOut(entries, members)
    ensures Separated(MemberLines(gap, entries)) && TokensIn(MemberLines(gap, entries)) == MembersTokens(members)
    decreases |entries|
  {
    if entries != [] {
      var n := |entries| - 1;
      MemberLinesLayOut(gap, entries[..n], members[..n]);
      assert entries[n].name == members[n].name && LaysOut(entries[n].pieces, members[n].value);
      MemberLaidOut(gap, MemberLines(gap, entries[..n]), members[..n], entries[n].pieces, members[n]);
      LastItem(members);
    }
  }

  /** An object over lines. */
  function ObjectLayout(gap: string, close: string, entries: seq<Entry>): seq<Piece> {
    [Tok(BeginObject)] + (MemberLines(gap, entries) + ([Gap(close)] + [Tok(EndObject)]))
  }

  lemma ObjectLaysOut(gap: string, close: string, entries: seq<Entry>, members: seq<Member>)
    requires IsGap(gap) && IsGap(close) && AllMembersLaidOut(entries, members)
    ensures LaysOut(ObjectLayout(gap, close, entries), Object(members))
  {
    var body, end := MemberLines(gap, entries), [Gap(close)] + [Tok(EndObject)];
    MemberLinesLayOut(gap, entries, members);
    EndSeparated(close, EndObject);
    SeparatedAppend(body, end);
    TokensAppend(body, end);
    Opens(BeginObject, body + end);
    assert [BeginObject] + (MembersTokens(members) + [EndObject])
      == [BeginObject] + MembersTokens(members) + [EndObject];
  }

  lemma TextLaysOut(s: string)
    ensures LaysOut([Tok(Str(s))], Text(s))
  {
    assert TokensIn([Tok(Str(s))]) == [Str(s)] + TokensIn([]);
  }

  lemma NumberLaysOut(n: int)
    ensures LaysOut([Tok(Num(n))], Number(n))
  {
    assert TokensIn([Tok(Num(n))]) == [Num(n)] + TokensIn([]);
  }
}
