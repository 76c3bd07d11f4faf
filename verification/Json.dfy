/**
 JSON texts of objects, arrays, strings and integers (RFC 8259): a reader, and
 that it reads back every printed value, however white space is laid out
 between the tokens.
 */
module Json {
  import opened Bytes
  import opened Strings

  datatype Value = Text(s: string) | Number(n: int) | List(items: seq<Value>) | Object(members: seq<Member>)

  datatype Member = Member(name: string, value: Value)

  datatype Token =
    | BeginObject | EndObject | BeginArray | EndArray | NameSeparator | ValueSeparator | Str(s: string) | Num(n: int)

  // ------------------------------------------------------------------
  // Strings.

  function HexDigit(n: nat): (c: char)
    requires n < 16
  {
    if n < 10 then Digit(n) else 'a' + (n - 10) as char
  }

  function HexValue(c: char): Option<nat> {
    if IsDigit(c) then Some(DigitValue(c))
    else if 'a' <= c <= 'f' then Some(c as int - 'a' as int + 10)
    else if 'A' <= c <= 'F' then Some(c as int - 'A' as int + 10)
    else None
  }

  lemma HexRoundTrip(n: nat)
    requires n < 16
    ensures HexValue(HexDigit(n)) == Some(n)
  {
  }

  function Hex4(n: nat): string
    requires n < 0x1_0000
  {
    [HexDigit(n / 0x1000), HexDigit(n / 0x100 % 16), HexDigit(n / 16 % 16), HexDigit(n % 16)]
  }

  /** The escaped form of one character: quotes, backslashes and control
      characters, and those that HTML or JavaScript would misread. */
  function EscapeChar(c: char): string {
    if c == '"' || c == '\\' then ['\\', c]
    else if c == '\n' then "\\n"
    else if c == '\r' then "\\r"
    else if c == '\t' then "\\t"
    else if c as int == 8 then "\\b"
    else if c as int == 12 then "\\f"
    else if c as int < 0x20 || c == '<' || c == '>' || c == '&' || c == '\U{2028}'
      || c == '\U{2029}' then "\\u" + Hex4(c as int)
    else [c]
  }

  function Escape(s: string): string {
    if s == "" then "" else EscapeChar(s[0]) + Escape(s[1..])
  }

  predicate Harmless(c: char) {
    c as int >= 0x20 && c != '<' && c != '>' && c != '&' && c != '\U{2028}' && c != '\U{2029}'
  }

  lemma EscapedChar(c: char)
    ensures forall i :: 0 <= i < |EscapeChar(c)| ==> Harmless(EscapeChar(c)[i])
    ensures Harmless(c) && c != '"' && c != '\\' ==> EscapeChar(c) == [c]
  {
    if c as int < 0x20 || c == '<' || c == '>' || c == '&' || c == '\U{2028}' || c == '\U{2029}' {
      forall n: nat | n < 16 ensures Harmless(HexDigit(n)) {
      }
    }
  }

  /** An escaped string can be embedded in HTML and JavaScript: no control character,
      none of < > & and no line or paragraph separator is left; whatever is harmless
      already is kept as it is. */
  lemma {:induction false} EscapedIsHarmless(s: string)
    ensures forall i :: 0 <= i < |Escape(s)| ==> Harmless(Escape(s)[i])
    ensures (forall i :: 0 <= i < |s| ==> Harmless(s[i]) && s[i] != '"' && s[i] != '\\') ==> Escape(s) == s
  {
    if s != "" {
      EscapedChar(s[0]);
      EscapedIsHarmless(s[1..]);
      assert s == [s[0]] + s[1..];
    }
  }

  function Quote(s: string): string { "\"" + Escape(s) + "\"" }

  function Unescape(c: char): Option<char> {
    if c == '"' || c == '\\' || c == '/' then Some(c)
    else if c == 'n' then Some('\n')
    else if c == 'r' then Some('\r')
    else if c == 't' then Some('\t')
    else if c == 'b' then Some(8 as char)
    else if c == 'f' then Some(12 as char)
    else None
  }

  /** A \u escape; surrogates are outside what is read here. */
  function ReadHex4(s: string): Option<char>
    requires |s| >= 4
  {
    var a, b, c, d := HexValue(s[0]), HexValue(s[1]), HexValue(s[2]), HexValue(s[3]);
    if a.None? || b.None? || c.None? || d.None? then None
    else FromCode(a.value * 0x1000 + b.value * 0x100 + c.value * 16 + d.value)
  }

  function FromCode(code: nat): Option<char> {
    if code < 0xD800 then Some(code as char) else if 0xE000 <= code < 0x1_0000 then Some(code as char) else None
  }

  /** One possibly escaped character off the front. */
  function ReadChar(s: string): (r: Option<(char, string)>)
    requires s != ""
    ensures r.Some? ==> |r.value.1| < |s|
  {
    if s[0] as int < 0x20 || s[0] == '"' then None
    else if s[0] != '\\' then Some((s[0], s[1..]))
    else if |s| < 2 then None
    else if s[1] == 'u' then
      if |s| < 6 then None
      else match ReadHex4(s[2..6])
        case None => None
        case Some(c) => Some((c, s[6..]))
    else match Unescape(s[1])
      case None => None
      case Some(c) => Some((c, s[2..]))
  }

  /** The rest of a string, up to its closing quote. */
  function ReadString(s: string): (r: Option<(string, string)>)
    ensures r.Some? ==> |r.value.1| < |s|
    decreases |s|
  {
    if s == "" then None
    else if s[0] == '"' then Some(("", s[1..]))
    else match ReadChar(s)
      case None => None
      case Some((c, rest)) =>
        match ReadString(rest)
        case None => None
        case Some((more, after)) => Some(([c] + more, after))
  }

  lemma Hex4RoundTrip(c: char, rest: string)
    requires c as int < 0xD800
    ensures (Hex4(c as int) + rest)[..4] == Hex4(c as int) && (Hex4(c as int) + rest)[4..] == rest
    ensures ReadHex4(Hex4(c as int)) == Some(c)
  {
    var n := c as int;
    HexRoundTrip(n / 0x1000);
    HexRoundTrip(n / 0x100 % 16);
    HexRoundTrip(n / 16 % 16);
    HexRoundTrip(n % 16);
    var a, b := n / 16, n / 0x100;
    assert b == a / 16 && n / 0x1000 == b / 16;
    assert n == a * 16 + n % 16 && a == b * 16 + a % 16 && b == b / 16 * 16 + b % 16;
  }

  lemma CharRoundTrip(c: char, rest: string)
    ensures (EscapeChar(c) + rest) != "" && (EscapeChar(c) + rest)[0] != '"'
    ensures ReadChar(EscapeChar(c) + rest) == Some((c, rest))
  {
    var e := EscapeChar(c);
    var s := e + rest;
    if |e| == 6 {
      Hex4RoundTrip(c, rest);
      assert s[2..6] == Hex4(c as int) && s[6..] == rest;
      assert s[0] == '\\' && s[1] == 'u';
    } else if |e| == 2 {
      assert s[0] == e[0] && s[1] == e[1] && s[2..] == rest;
    } else {
      assert s[0] == e[0] && s[1..] == rest;
    }
  }

  lemma Associates(a: string, b: string, c: string)
    ensures (a + b) + c == a + (b + c)
  {
  }

  lemma {:induction false} StringRoundTrip(s: string, rest: string)
    ensures ReadString(Escape(s) + ("\"" + rest)) == Some((s, rest))
    decreases |s|
  {
    var tail := "\"" + rest;
    if s == "" {
      assert "" + tail == tail && tail[1..] == rest;
    } else {
      var after := Escape(s[1..]) + tail;
      StringRoundTrip(s[1..], rest);
      CharRoundTrip(s[0], after);
      Associates(EscapeChar(s[0]), Escape(s[1..]), tail);
      assert [s[0]] + s[1..] == s;
    }
  }

  // ------------------------------------------------------------------
  // Tokens.

  predicate IsWhite(c: char) { c == ' ' || c == '\t' || c == '\n' || c == '\r' }

  /** The digits at the front. */
  function DigitsOf(s: string): (d: string)
    ensures |d| <= |s| && s[..|d|] == d && forall i :: 0 <= i < |d| ==> IsDigit(d[i])
  {
    if s == "" || !IsDigit(s[0]) then "" else [s[0]] + DigitsOf(s[1..])
  }

  /** An integer without leading zeros off the front. */
  function ReadNumber(s: string): (r: Option<(int, string)>)
    requires s != ""
    ensures r.Some? ==> |r.value.1| < |s|
  {
    var negative := s[0] == '-';
    var body := if negative then s[1..] else s;
    var digits := DigitsOf(body);
    if digits == "" || (|digits| > 1 && digits[0] == '0') then None
    else
      var value: int := Strings.Value(digits);
      Some((if negative then -value else value, body[|digits|..]))
  }

  function Structural(c: char): Option<Token> {
    if c == '{' then Some(BeginObject)
    else if c == '}' then Some(EndObject)
    else if c == '[' then Some(BeginArray)
    else if c == ']' then Some(EndArray)
    else if c == ':' then Some(NameSeparator)
    else if c == ',' then Some(ValueSeparator)
    else None
  }

  /** One token off the front, which is no white space. */
  function ReadToken(s: string): (r: Option<(Token, string)>)
    requires s != ""
    ensures r.Some? ==> |r.value.1| < |s|
  {
    match Structural(s[0])
    case Some(t) => Some((t, s[1..]))
    case None =>
      if s[0] == '"' then
        match ReadString(s[1..])
        case None => None
        case Some((text, rest)) => Some((Str(text), rest))
      else
        match ReadNumber(s)
        case None => None
        case Some((n, rest)) => Some((Num(n), rest))
  }

  function Prepend(t: Token, rest: Option<seq<Token>>): Option<seq<Token>> {
    match rest
    case None => None
    case Some(tokens) => Some([t] + tokens)
  }

  function Lex(s: string): Option<seq<Token>>
    decreases |s|
  {
    if s == "" then Some([])
    else if IsWhite(s[0]) then Lex(s[1..])
    else match ReadToken(s)
      case None => None
      case Some((t, rest)) => Prepend(t, Lex(rest))
  }

  function TokenText(t: Token): (s: string)
    ensures s != ""
  {
    match t
    case BeginObject => "{"
    case EndObject => "}"
    case BeginArray => "["
    case EndArray => "]"
    case NameSeparator => ":"
    case ValueSeparator => ","
    case Str(s) => Quote(s)
    case Num(n) => FormatInt(n)
  }

  /** What follows does not go on with a number. */
  predicate EndsNumber(rest: string) { rest == "" || !IsDigit(rest[0]) }

  lemma {:induction false} DigitsRead(d: string, rest: string)
    requires EndsNumber(rest) && forall i :: 0 <= i < |d| ==> IsDigit(d[i])
    ensures DigitsOf(d + rest) == d && (d + rest)[|d|..] == rest
  {
    if d == "" {
      assert d + rest == rest;
    } else {
      DigitsRead(d[1..], rest);
      assert (d + rest)[1..] == d[1..] + rest;
    }
  }

  lemma PositiveRoundTrip(digits: string, n: nat, rest: string)
    requires EndsNumber(rest) && digits == Decimal(n) && digits != "" && IsDigit(digits[0])
    ensures ReadNumber(digits + rest) == Some((n as int, rest))
  {
    DigitsRead(digits, rest);
    ValueOfDecimal(n);
    assert (digits + rest)[0] == digits[0];
  }

  lemma NegativeRoundTrip(digits: string, n: nat, rest: string)
    requires EndsNumber(rest) && digits == Decimal(n)
    ensures ReadNumber("-" + digits + rest) == Some((-(n as int), rest))
  {
    DigitsRead(digits, rest);
    ValueOfDecimal(n);
    assert ("-" + digits + rest)[1..] == digits + rest;
  }

  lemma NotStructural(c: char)
    requires c == '-' || IsDigit(c)
    ensures Structural(c).None? && c != '"' && !IsWhite(c)
  {
  }

  lemma NumberRoundTrip(n: int, rest: string)
    requires EndsNumber(rest)
    ensures var s := FormatInt(n) + rest;
            s != "" && ReadNumber(s) == Some((n, rest)) && Structural(s[0]).None? && s[0] != '"' && !IsWhite(s[0])
  {
    if n < 0 {
      NegativeRoundTrip(Decimal(-n), -n, rest);
      NotStructural('-');
    } else {
      PositiveRoundTrip(Decimal(n), n, rest);
      NotStructural(Decimal(n)[0]);
    }
  }

  lemma StrRoundTrip(text: string, rest: string)
    ensures var s := Quote(text) + rest; s != "" && s[0] == '"' && ReadString(s[1..]) == Some((text, rest))
  {
    StringRoundTrip(text, rest);
    QuoteTail(text, rest, Escape(text));
  }

  lemma QuoteTail(text: string, rest: string, escaped: string)
    requires Quote(text) == "\"" + escaped + "\""
    ensures (Quote(text) + rest)[1..] == escaped + ("\"" + rest)
  {
  }

  lemma TokenRoundTrip(t: Token, rest: string)
    requires t.Num? ==> EndsNumber(rest)
    ensures var s := TokenText(t) + rest; s != "" && !IsWhite(s[0]) && ReadToken(s) == Some((t, rest))
  {
    var s := TokenText(t) + rest;
    match t {
      case Str(text) => StrRoundTrip(text, rest);
      case Num(n) => NumberRoundTrip(n, rest);
      case _ => assert s[1..] == rest;
    }
  }

  // ------------------------------------------------------------------
  // Layout.

  /** A piece of text: a token, or white space. */
  datatype Piece = Tok(t: Token) | Gap(s: string)

  predicate GoodGap(p: Piece) { p.Gap? ==> forall i :: 0 <= i < |p.s| ==> IsWhite(p.s[i]) }

  function PieceText(p: Piece): string { if p.Tok? then TokenText(p.t) else p.s }

  function Render(pieces: seq<Piece>): string {
    if pieces == [] then "" else PieceText(pieces[0]) + Render(pieces[1..])
  }

  function TokensIn(pieces: seq<Piece>): seq<Token> {
    if pieces == [] then [] else (if pieces[0].Tok? then [pieces[0].t] else []) + TokensIn(pieces[1..])
  }

  predicate IsNumber(p: Piece) { p.Tok? && p.t.Num? }

  /** Gaps are white space, and a number is followed by a piece that cannot go on
      with it. */
  predicate Separated(pieces: seq<Piece>) {
    (forall i :: 0 <= i < |pieces| ==> GoodGap(pieces[i]))
    && (forall i :: 0 <= i < |pieces| - 1 && IsNumber(pieces[i]) ==>
          !IsNumber(pieces[i + 1]) && PieceText(pieces[i + 1]) != "")
  }

  lemma {:induction false} LexGap(gap: string, rest: string)
    requires forall i :: 0 <= i < |gap| ==> IsWhite(gap[i])
    ensures Lex(gap + rest) == Lex(rest)
    decreases |gap|
  {
    if gap == "" {
      assert gap + rest == rest;
    } else {
      LexGap(gap[1..], rest);
      assert (gap + rest)[1..] == gap[1..] + rest;
    }
  }

  lemma LexToken(t: Token, rest: string)
    requires t.Num? ==> EndsNumber(rest)
    ensures Lex(TokenText(t) + rest) == Prepend(t, Lex(rest))
  {
    TokenRoundTrip(t, rest);
  }

  lemma FirstOfPiece(p: Piece, rest: string)
    requires !IsNumber(p) && GoodGap(p) && PieceText(p) != ""
    ensures EndsNumber(PieceText(p) + rest)
  {
    assert (PieceText(p) + rest)[0] == PieceText(p)[0];
  }

  lemma SeparatedTail(pieces: seq<Piece>)
    requires Separated(pieces) && pieces != []
    ensures Separated(pieces[1..])
    ensures |pieces| > 1 && IsNumber(pieces[0]) ==> EndsNumber(Render(pieces[1..]))
  {
    var tail := pieces[1..];
    forall i | 0 <= i < |tail| ensures GoodGap(tail[i]) { assert GoodGap(pieces[i + 1]); }
    forall i | 0 <= i < |tail| - 1 && IsNumber(tail[i]) ensures !IsNumber(tail[i + 1]) && PieceText(tail[i + 1]) != "" {
      assert IsNumber(pieces[i + 1]);
    }
    if |pieces| > 1 && IsNumber(pieces[0]) {
      assert !IsNumber(pieces[0 + 1]) && GoodGap(pieces[1]) && pieces[1] == tail[0];
      FirstOfPiece(pieces[1], Render(tail[1..]));
    }
  }

  /** The tokens of a text are those it was laid out from. */
  lemma {:induction false} LexRendered(pieces: seq<Piece>)
    requires Separated(pieces)
    ensures Lex(Render(pieces)) == Some(TokensIn(pieces))
  {
    if pieces != [] {
      var rest := Render(pieces[1..]);
      SeparatedTail(pieces);
      LexRendered(pieces[1..]);
      if pieces[0].Tok? {
        LexToken(pieces[0].t, rest);
      } else {
        assert GoodGap(pieces[0]);
        LexGap(pieces[0].s, rest);
        assert [] + TokensIn(pieces[1..]) == TokensIn(pieces[1..]);
      }
    }
  }

  // ------------------------------------------------------------------
  // Values.

  function ListTokens(items: seq<Value>): seq<Token> {
    if items == [] then []
    else if |items| == 1 then Tokens(items[0])
    else Tokens(items[0]) + [ValueSeparator] + ListTokens(items[1..])
  }

  function MemberTokens(m: Member): seq<Token> { [Str(m.name), NameSeparator] + Tokens(m.value) }

  function MembersTokens(members: seq<Member>): seq<Token> {
    if members == [] then []
    else if |members| == 1 then MemberTokens(members[0])
    else MemberTokens(members[0]) + [ValueSeparator] + MembersTokens(members[1..])
  }

  function Tokens(v: Value): seq<Token> {
    match v
    case Text(s) => [Str(s)]
    case Number(n) => [Num(n)]
    case List(items) => [BeginArray] + ListTokens(items) + [EndArray]
    case Object(members) => [BeginObject] + MembersTokens(members) + [EndObject]
  }

  function ParseValue(ts: seq<Token>): (r: Option<(Value, seq<Token>)>)
    ensures r.Some? ==> |r.value.1| < |ts|
    decreases |ts|, 0
  {
    if ts == [] then None
    else match ts[0]
      case Str(s) => Some((Text(s), ts[1..]))
      case Num(n) => Some((Number(n), ts[1..]))
      case BeginArray =>
        if |ts| > 1 && ts[1] == EndArray then Some((List([]), ts[2..]))
        else (match ParseItems(ts[1..])
              case None => None
              case Some((items, rest)) => Some((List(items), rest)))
      case BeginObject =>
        if |ts| > 1 && ts[1] == EndObject then Some((Object([]), ts[2..]))
        else (match ParseMembers(ts[1..])
              case None => None
              case Some((members, rest)) => Some((Object(members), rest)))
      case _ => None
  }

  /** One or more values and the end of their array. */
  function ParseItems(ts: seq<Token>): (r: Option<(seq<Value>, seq<Token>)>)
    ensures r.Some? ==> |r.value.1| < |ts|
    decreases |ts|, 1
  {
    match ParseValue(ts)
    case None => None
    case Some((v, rest)) =>
      if rest == [] then None
      else if rest[0] == EndArray then Some(([v], rest[1..]))
      else if rest[0] != ValueSeparator then None
      else match ParseItems(rest[1..])
        case None => None
        case Some((more, after)) => Some(([v] + more, after))
  }

  /** One or more members and the end of their object. */
  function ParseMembers(ts: seq<Token>): (r: Option<(seq<Member>, seq<Token>)>)
    ensures r.Some? ==> |r.value.1| < |ts|
    decreases |ts|, 1
  {
    if |ts| < 2 || !ts[0].Str? || ts[1] != NameSeparator then None
    else match ParseValue(ts[2..])
      case None => None
      case Some((v, rest)) =>
        var m := Member(ts[0].s, v);
        if rest == [] then None
        else if rest[0] == EndObject then Some(([m], rest[1..]))
        else if rest[0] != ValueSeparator then None
        else match ParseMembers(rest[1..])
          case None => None
          case Some((more, after)) => Some(([m] + more, after))
  }

  // ------------------------------------------------------------------
  // Reading back.

  lemma FirstToken(v: Value)
    ensures Tokens(v) != [] && Tokens(v)[0] != EndArray && Tokens(v)[0] != EndObject
  {
  }

  lemma Regroup(a: seq<Token>, b: seq<Token>, c: seq<Token>)
    ensures (a + b) + c == a + (b + c)
  {
  }

  lemma Split(t: Token, rest: seq<Token>)
    ensures ([t] + rest)[0] == t && ([t] + rest)[1..] == rest
  {
  }

  lemma {:induction false} ParsesItems(items: seq<Value>, rest: seq<Token>)
    requires items != []
    ensures ListTokens(items) != [] && ListTokens(items)[0] != EndArray
    ensures ParseItems(ListTokens(items) + ([EndArray] + rest)) == Some((items, rest))
    decreases items
  {
    var v := items[0];
    FirstToken(v);
    if |items| == 1 {
      Parses(v, [EndArray] + rest);
      Split(EndArray, rest);
      assert items == [v];
    } else {
      var more := ListTokens(items[1..]) + ([EndArray] + rest);
      ParsesItems(items[1..], rest);
      Parses(v, [ValueSeparator] + more);
      Split(ValueSeparator, more);
      Regroup(Tokens(v) + [ValueSeparator], ListTokens(items[1..]), [EndArray] + rest);
      Regroup(Tokens(v), [ValueSeparator], more);
      assert items == [v] + items[1..];
    }
  }

  lemma MemberSplit(name: string, tokens: seq<Token>, rest: seq<Token>)
    ensures var ts := [Str(name), NameSeparator] + tokens + rest;
            |ts| >= 2 && ts[0] == Str(name) && ts[1] == NameSeparator && ts[2..] == tokens + rest
  {
  }

  lemma {:induction false} ParsesMembers(members: seq<Member>, rest: seq<Token>)
    requires members != []
    ensures MembersTokens(members) != [] && MembersTokens(members)[0] != EndObject
    ensures ParseMembers(MembersTokens(members) + ([EndObject] + rest)) == Some((members, rest))
    decreases members
  {
    var m := members[0];
    if |members| == 1 {
      MemberSplit(m.name, Tokens(m.value), [EndObject] + rest);
      Parses(m.value, [EndObject] + rest);
      Split(EndObject, rest);
      assert members == [m];
    } else {
      var more := MembersTokens(members[1..]) + ([EndObject] + rest);
      ParsesMembers(members[1..], rest);
      MemberSplit(m.name, Tokens(m.value), [ValueSeparator] + more);
      Parses(m.value, [ValueSeparator] + more);
      Split(ValueSeparator, more);
      Regroup(MemberTokens(m) + [ValueSeparator], MembersTokens(members[1..]), [EndObject] + rest);
      Regroup(MemberTokens(m), [ValueSeparator], more);
      assert members == [m] + members[1..];
    }
  }

  /** The tokens of a value are parsed to it, whatever follows. */
  lemma {:induction false} Parses(v: Value, rest: seq<Token>)
    ensures ParseValue(Tokens(v) + rest) == Some((v, rest))
    decreases v
  {
    match v {
      case Text(s) => Split(Str(s), rest);
      case Number(n) => Split(Num(n), rest);
      case List(items) =>
        var body := ListTokens(items) + ([EndArray] + rest);
        assert Tokens(v) + rest == [BeginArray] + body;
        Split(BeginArray, body);
        if items == [] {
          assert body == [EndArray] + rest;
          Split(EndArray, rest);
          assert ([BeginArray] + body)[2..] == rest;
        } else {
          ParsesItems(items, rest);
        }
      case Object(members) =>
        var body := MembersTokens(members) + ([EndObject] + rest);
        assert Tokens(v) + rest == [BeginObject] + body;
        Split(BeginObject, body);
        if members == [] {
          assert body == [EndObject] + rest;
          Split(EndObject, rest);
          assert ([BeginObject] + body)[2..] == rest;
        } else {
          ParsesMembers(members, rest);
        }
    }
  }

  /** The value a text holds, if it is one. */
  function Read(text: string): Option<Value> {
    match Lex(text)
    case None => None
    case Some(tokens) =>
      match ParseValue(tokens)
      case None => None
      case Some((v, rest)) => if rest == [] then Some(v) else None
  }

  /** Every layout of the tokens of a value reads as that value. */
  lemma LayoutReads(pieces: seq<Piece>, v: Value)
    requires Separated(pieces) && TokensIn(pieces) == Tokens(v)
    ensures Read(Render(pieces)) == Some(v)
  {
    LexRendered(pieces);
    Parses(v, []);
    assert Tokens(v) + [] == Tokens(v);
  }
}
