/**
 JSON texts as RFC 8259 defines them, with any white space between their tokens, and the
 values they stand for. The parser reads every one of them as its value.
 */
module JsonGrammar {
  import opened CText
  import opened JsonTree
  import opened JsonParse
  import opened JsonNumber
  import opened JsonUnicode
  import JsonBuffer
  import R = JsonRoundTrip

  // ----- strings (section 7)

  /** What stands behind the first \u is an escape of some code point. */
  predicate IsEscape(e: string) {
    exists uc :: 0 < uc < 0x110000 && !IsSurrogate(uc) && IsEscapeOf(e, uc)
  }

  /** A character as it is, one of the short escapes, or an escaped code point; e is what
      stands behind the first \u. The parser drops escapes that are none of a code point. */
  datatype Piece = Plain(c: char) | Short(letter: char) | Code(uc: int, e: string) | Dropped(e: string) {
    predicate Valid() {
      Accepted() && !Dropped? && (Short? ==> letter in "\"\\/bfnrt")
    }

    predicate Accepted() {
      match this
      case Plain(c) => c !in "\"\\\0"
      case Short(letter) => letter !in "u\0"
      case Code(uc, e) => 0 < uc < 0x110000 && !IsSurrogate(uc) && IsEscapeOf(e, uc)
      case Dropped(e) => |e| in {4, 10} && !IsEscape(e)
    }

    function Text(): string {
      match this
      case Plain(c) => [c]
      case Short(letter) => ['\\', letter]
      case Code(_, e) => "\\u" + e
      case Dropped(e) => "\\u" + e
    }

    /** The bytes it stands for; the short escapes by their numbers in ASCII. */
    function Bytes(): cstring
      requires Accepted()
    {
      match this
      case Plain(c) => [c]
      case Short(letter) =>
        if letter == 'b' then [8 as char]
        else if letter == 't' then [9 as char]
        else if letter == 'n' then [10 as char]
        else if letter == 'f' then [12 as char]
        else if letter == 'r' then [13 as char]
        else [letter]
      case Code(uc, _) => Utf8(uc)
      case Dropped(_) => []
    }
  }

  predicate AllPieces(ps: seq<Piece>) {
    forall i :: 0 <= i < |ps| ==> ps[i].Valid()
  }

  predicate AcceptedPieces(ps: seq<Piece>) {
    forall i :: 0 <= i < |ps| ==> ps[i].Accepted()
  }

  function PiecesText(ps: seq<Piece>): string {
    if ps == [] then "" else ps[0].Text() + PiecesText(ps[1..])
  }

  function PiecesBytes(ps: seq<Piece>): cstring
    requires AcceptedPieces(ps)
  {
    if ps == [] then ""
    else
      assert ps[0].Accepted();
      ps[0].Bytes() + PiecesBytes(ps[1..])
  }

  function Quote(ps: seq<Piece>): string {
    "\"" + PiecesText(ps) + "\""
  }

  lemma PlainIsRead(c: char, t: string)
    requires c !in "\"\\\0" && NoNul(t) && JsonBuffer.Proper(t)
    ensures NoNul([c] + t) && JsonBuffer.Proper([c] + t) && StringBody([c] + t) == Prepend([c], StringBody(t))
  {
    hide Prepend;
    assert ([c] + t)[1..] == t;
  }

  lemma ShortIsRead(letter: char, t: string)
    requires letter in "\"\\/bfnrt" && NoNul(t) && JsonBuffer.Proper(t)
    ensures var s := ['\\', letter] + t;
            NoNul(s) && JsonBuffer.Proper(s) && StringBody(s) == Prepend(Short(letter).Bytes(), StringBody(t))
  {
    hide Prepend;
    assert (['\\', letter] + t)[2..] == t;
  }

  lemma HexIsDigit(c: char)
    requires exists d :: IsHex(c, d)
    ensures HexValue(c) >= 0 && c !in "\"\\\0"
  {
    var d :| IsHex(c, d);
    HexIsRead(c, d);
  }

  /** Four digits, and none of them anything else. */
  lemma HexAreDigits(h: string, n: int)
    requires IsHex4(h, n)
    ensures |h| == 4 && forall i :: 0 <= i < 4 ==> HexValue(h[i]) >= 0 && h[i] !in "\"\\\0"
  {
    hide IsHex, HexValue;
    HexIsDigit(h[0]);
    HexIsDigit(h[1]);
    HexIsDigit(h[2]);
    HexIsDigit(h[3]);
  }

  lemma DigitsAreProper(h: string, n: int, t: string)
    requires IsHex4(h, n) && NoNul(t) && JsonBuffer.Proper(t)
    ensures NoNul(h + t) && JsonBuffer.Proper(h + t) && JsonBuffer.FourDigits(h + t)
  {
    hide IsHex4, HexValue;
    HexAreDigits(h, n);
    var s := h + t;
    assert s[1..] == h[1..] + t && s[1..][1..] == h[2..] + t && s[1..][1..][1..] == h[3..] + t;
    assert s[1..][1..][1..][1..] == t;
    assert JsonBuffer.Proper(s[1..][1..][1..]) && JsonBuffer.Proper(s[1..][1..]) && JsonBuffer.Proper(s[1..]);
  }

  lemma UIsProper(t: string)
    requires NoNul(t) && JsonBuffer.Proper(t) && JsonBuffer.FourDigits(t)
    ensures NoNul("\\u" + t) && JsonBuffer.Proper("\\u" + t)
  {
    assert ("\\u" + t)[2..] == t;
  }

  lemma CodeIsRead(uc: int, e: string, t: string)
    requires 0 < uc < 0x110000 && !IsSurrogate(uc) && IsEscapeOf(e, uc) && NoNul(t) && JsonBuffer.Proper(t)
    ensures var s := "\\u" + e + t;
            NoNul(s) && JsonBuffer.Proper(s) && StringBody(s) == Prepend(Utf8(uc), StringBody(t))
  {
    hide Utf8, IsHex4, HighHalf, LowHalf, JsonBuffer.Proper, StringBody, UnicodeEscape;
    if uc < 0x10000 {
      DigitsAreProper(e, uc, t);
    } else {
      DigitsAreProper(e[6..], LowHalf(uc), t);
      UIsProper(e[6..] + t);
      assert e[4..6] == "\\u" && e == e[..4] + e[4..6] + e[6..];
      DigitsAreProper(e[..4], HighHalf(uc), "\\u" + (e[6..] + t));
      assert e[..4] + ("\\u" + (e[6..] + t)) == e + t;
    }
    UIsProper(e + t);
    assert "\\u" + (e + t) == "\\u" + e + t;
    EscapeIsRead(e, uc, t);
    BehindU("\\u" + e + t, e, t);
  }

  lemma BehindU(s: string, e: string, t: string)
    requires NoNul(s) && s == "\\u" + e + t && UnicodeEscape(e + t).1 == |e|
    ensures StringBody(s) == Prepend(UnicodeEscape(e + t).0, StringBody(t))
  {
    hide UnicodeEscape, Prepend;
    assert s[2..] == e + t && s[2 + |e|..] == t;
  }

  lemma PieceIsRead(p: Piece, t: string)
    requires p.Valid() && NoNul(t) && JsonBuffer.Proper(t)
    ensures var s := p.Text() + t;
            NoNul(s) && JsonBuffer.Proper(s) && StringBody(s) == Prepend(p.Bytes(), StringBody(t))
  {
    hide StringBody, Prepend, JsonBuffer.Proper, IsEscapeOf, Utf8;
    match p
    case Plain(c) => PlainIsRead(c, t);
    case Short(letter) => ShortIsRead(letter, t);
    case Code(uc, e) => CodeIsRead(uc, e, t);
  }

  lemma {:induction false} PiecesAreRead(ps: seq<Piece>, rest: string)
    requires AllPieces(ps) && NoNul(rest)
    ensures var s := PiecesText(ps) + ("\"" + rest);
            NoNul(s) && JsonBuffer.Proper(s) && NoNul(PiecesBytes(ps)) && StringBody(s) == Ok(PiecesBytes(ps), rest)
  {
    hide Piece.Text, Piece.Bytes, Piece.Valid, JsonBuffer.Proper, StringBody;
    var end := "\"" + rest;
    if ps == [] {
      assert PiecesText(ps) + end == end;
      EndIsRead(rest);
    } else {
      assert ps[0].Valid();
      PiecesAreRead(ps[1..], rest);
      var t := PiecesText(ps[1..]) + end;
      assert PiecesText(ps) + end == ps[0].Text() + t;
      PieceIsRead(ps[0], t);
    }
  }

  lemma EndIsRead(rest: string)
    requires NoNul(rest)
    ensures NoNul("\"" + rest) && JsonBuffer.Proper("\"" + rest) && StringBody("\"" + rest) == Ok([], rest)
  {
    assert ("\"" + rest)[1..] == rest;
  }

  /** A string of any pieces is read as the bytes they stand for. */
  lemma StringIsRead(ps: seq<Piece>, rest: string)
    requires AllPieces(ps) && NoNul(rest)
    ensures NoNul(Quote(ps) + rest) && NoNul(PiecesBytes(ps))
    ensures ParseString(Quote(ps) + rest) == Ok(PiecesBytes(ps), rest)
  {
    hide PiecesText, PiecesBytes, StringBody, LengthPassStops, LengthCount, JsonBuffer.Proper, AllPieces;
    PiecesAreRead(ps, rest);
    var s := PiecesText(ps) + ("\"" + rest);
    assert Quote(ps) + rest == "\"" + s;
    JsonBuffer.ProperStringIsRead(s);
    JsonBuffer.ParseIs(s);
  }

  // ----- values (sections 2 to 5)

  predicate Blanks(w: string) {
    forall i :: 0 <= i < |w| ==> w[i] in " \t\n\r"
  }

  /** White space may stand wherever a field of type string is. */
  datatype Syntax =
    | NullText
    | FalseText
    | TrueText
    | NumberText(d: Decimal)
    | StringText(ps: seq<Piece>)
    | ArrayText(gap: string, items: seq<Item>)
    | ObjectText(gap: string, entries: seq<Entry>)

  datatype Item = Item(before: string, value: Syntax, after: string)

  datatype Entry = Entry(before: string, name: seq<Piece>, colon: string, space: string, value: Syntax, after: string)

  predicate Valid(v: Syntax): (r: bool)
    ensures r ==> Accepted(v)
    decreases v, 1
  {
    match v
    case NumberText(d) => d.Valid()
    case StringText(ps) => AllPieces(ps)
    case ArrayText(gap, items) => Blanks(gap) && ValidItems(items)
    case ObjectText(gap, es) => Blanks(gap) && ValidEntries(es)
    case _ => true
  }

  predicate ValidItems(items: seq<Item>): (r: bool)
    ensures r ==> AcceptedItems(items)
    decreases items, 0
  {
    items != [] ==>
      Blanks(items[0].before) && Blanks(items[0].after) && Valid(items[0].value) && ValidItems(items[1..])
  }

  predicate ValidEntry(e: Entry): (r: bool)
    ensures r ==> AcceptedEntry(e)
    decreases e, 0
  {
    && Blanks(e.before) && AllPieces(e.name) && Blanks(e.colon) && Blanks(e.space) && Blanks(e.after)
    && Valid(e.value)
  }

  predicate ValidEntries(es: seq<Entry>): (r: bool)
    ensures r ==> AcceptedEntries(es)
    decreases es, 0
  {
    es != [] ==> ValidEntry(es[0]) && ValidEntries(es[1..])
  }

  // The same for all that the parser takes: any character up to the space is white space.

  predicate Gap(w: string) {
    forall i :: 0 <= i < |w| ==> IsBlank(w[i])
  }

  predicate Accepted(v: Syntax)
    decreases v, 1
  {
    match v
    case NumberText(d) => d.Accepted() && d.Text() != "" && d.Text()[0] in "-0123456789"
    case StringText(ps) => AcceptedPieces(ps)
    case ArrayText(gap, items) => Gap(gap) && AcceptedItems(items)
    case ObjectText(gap, es) => Gap(gap) && AcceptedEntries(es)
    case _ => true
  }

  predicate AcceptedItems(items: seq<Item>)
    decreases items, 0
  {
    items != [] ==>
      Gap(items[0].before) && Gap(items[0].after) && Accepted(items[0].value) && AcceptedItems(items[1..])
  }

  predicate AcceptedEntry(e: Entry)
    decreases e, 0
  {
    && Gap(e.before) && AcceptedPieces(e.name) && Gap(e.colon) && Gap(e.space) && Gap(e.after)
    && Accepted(e.value)
  }

  predicate AcceptedEntries(es: seq<Entry>)
    decreases es, 0
  {
    es != [] ==> AcceptedEntry(es[0]) && AcceptedEntries(es[1..])
  }

  function Text(v: Syntax): string
    decreases v, 1
  {
    match v
    case NullText => "null"
    case FalseText => "false"
    case TrueText => "true"
    case NumberText(d) => d.Text()
    case StringText(ps) => Quote(ps)
    case ArrayText(gap, items) => "[" + (if items == [] then gap else ItemsText(items)) + "]"
    case ObjectText(gap, es) => "{" + (if es == [] then gap else EntriesText(es)) + "}"
  }

  function ItemsText(items: seq<Item>): string
    requires items != []
    decreases items, 0
  {
    items[0].before + Text(items[0].value) + items[0].after
    + if |items| == 1 then "" else "," + ItemsText(items[1..])
  }

  function EntryText(e: Entry): string
    decreases e, 0
  {
    e.before + Quote(e.name) + e.colon + ":" + e.space + Text(e.value) + e.after
  }

  function EntriesText(es: seq<Entry>): string
    requires es != []
    decreases es, 0
  {
    EntryText(es[0]) + if |es| == 1 then "" else "," + EntriesText(es[1..])
  }

  /** What the text stands for. */
  function Meaning(v: Syntax): Json
    requires Accepted(v)
    decreases v, 1
  {
    match v
    case NullText => Null
    case FalseText => False
    case TrueText => True
    case NumberText(d) => Number(d.Value())
    case StringText(ps) => String(PiecesBytes(ps))
    case ArrayText(_, items) => Array(ItemsMeaning(items))
    case ObjectText(_, es) => Object(EntriesMeaning(es))
  }

  function ItemsMeaning(items: seq<Item>): seq<Json>
    requires AcceptedItems(items)
    decreases items, 0
  {
    if items == [] then [] else [Meaning(items[0].value)] + ItemsMeaning(items[1..])
  }

  function EntriesMeaning(es: seq<Entry>): seq<Member>
    requires AcceptedEntries(es)
    decreases es, 0
  {
    if es == [] then []
    else [EntryMeaning(es[0])] + EntriesMeaning(es[1..])
  }

  function EntryMeaning(e: Entry): Member
    requires AcceptedEntry(e)
    decreases e, 0
  {
    Member(PiecesBytes(e.name), Meaning(e.value))
  }

  // ----- white space and first characters

  lemma {:induction false} BlanksAreSkipped(w: string, t: string)
    requires Blanks(w)
    ensures Skip(w + t) == Skip(t)
    ensures NoNul(t) ==> NoNul(w + t)
    ensures Ends(t) ==> Ends(w + t)
  {
    if w == [] {
      assert w + t == t;
    } else {
      BlanksAreSkipped(w[1..], t);
      assert (w + t)[1..] == w[1..] + t;
    }
  }

  lemma DecimalStart(d: Decimal, rest: string)
    requires d.Valid()
    ensures d.Text() != "" && (d.Text()[0] == '-' || IsDigit(d.Text()[0])) && NoNul(d.Text())
  {
    hide Decimal.Value, WholeValue;
    assert IsDigit(d.whole[0]);
    assert NoNul(d.whole) && NoNul(d.fraction);
    assert d.exponent.Exponent? ==> NoNul(d.exponent.digits);
  }

  /** A value starts with none of the characters that end or separate values. */
  lemma ValueStart(v: Syntax, rest: string)
    requires Valid(v)
    ensures var s := Text(v) + rest; s != [] && !IsBlank(s[0]) && s[0] !in "]}:,\0" && Skip(s) == s
  {
    hide Decimal.Text, Decimal.Valid, ItemsText, EntriesText, PiecesText, AllPieces;
    if v.NumberText? {
      DecimalStart(v.d, rest);
    }
    assert (Text(v) + rest)[0] == Text(v)[0];
  }

  // ----- the parser, one construct at a time

  function Separated(last: bool, close: string, more: string): string {
    if last then close else "," + more
  }

  lemma ParseItemsSkips(s: cstring)
    ensures ParseItems(Skip(s)) == ParseItems(s)
  {
    hide ParseValue;
    R.SkipIdempotent(s);
  }

  lemma NumberStep(d: Decimal, rest: cstring)
    requires d.Valid() && Ends(rest)
    ensures NoNul(d.Text() + rest) && ParseValue(d.Text() + rest) == Ok(Number(d.Value()), rest)
  {
    hide Decimal.Text, Decimal.Value, Decimal.Valid, ParseNumber, Ends;
    DecimalStart(d, rest);
    DecimalIsRead(d, rest);
    R.NotLiteral(d.Text() + rest);
  }

  lemma StringStep(ps: seq<Piece>, rest: cstring)
    requires AllPieces(ps)
    ensures NoNul(Quote(ps) + rest) && ParseValue(Quote(ps) + rest) == Ok(String(PiecesBytes(ps)), rest)
  {
    hide PiecesText, PiecesBytes, AllPieces, ParseString;
    StringIsRead(ps, rest);
    R.NotLiteral(Quote(ps) + rest);
  }

  lemma ItemsStep(s: cstring, v: Json, tail: cstring, last: bool, more: cstring, vs: seq<Json>, rest: cstring)
    requires ParseValue(Skip(s)) == Ok(v, tail) && Skip(tail) == Separated(last, "]" + rest, more)
    requires if last then vs == [] else ParseItems(more) == Ok(vs, rest)
    ensures ParseItems(s) == Ok([v] + vs, rest)
  {
    hide ParseValue, ParseItems, Skip;
    R.ParseItemsStep(s, v, tail, vs, rest);
    assert vs == [] ==> [v] + vs == [v];
  }

  lemma MembersStep(s: cstring, m: Member, tail: cstring, last: bool, more: cstring, ms: seq<Member>, rest: cstring)
    requires ParseMember(s) == Ok(m, tail) && Skip(tail) == Separated(last, "}" + rest, more)
    requires if last then ms == [] else ParseMembers(more) == Ok(ms, rest)
    ensures ParseMembers(s) == Ok([m] + ms, rest)
  {
    hide ParseMember, ParseMembers, Skip;
    R.ParseMembersStep(s, m, tail, ms, rest);
    assert ms == [] ==> [m] + ms == [m];
  }

  lemma ArrayStep(body: string, items: seq<Json>, rest: cstring)
    requires NoNul(body)
    requires || (Skip(body) == "]" + rest && items == [])
             || (At(Skip(body), 0) != ']' && ParseItems(body) == Ok(items, rest))
    ensures ParseValue("[" + body) == Ok(Array(items), rest)
  {
    hide ParseValue, ParseItems;
    ParseItemsSkips(body);
    R.ParseArrayStep(body, items, rest);
  }

  lemma ObjectStep(body: string, ms: seq<Member>, rest: cstring)
    requires NoNul(body)
    requires || (Skip(body) == "}" + rest && ms == [])
             || (At(Skip(body), 0) != '}' && ParseMembers(body) == Ok(ms, rest))
    ensures ParseValue("{" + body) == Ok(Object(ms), rest)
  {
    hide ParseValue, ParseMembers;
    R.ParseMembersSkips(body);
    R.ParseObjectStep(body, ms, rest);
  }

  lemma MemberStep(s: cstring, name: cstring, tail: cstring, colon: cstring, v: Json, rest: cstring)
    requires ParseString(Skip(s)) == Ok(name, tail) && Skip(tail) == ":" + colon
    requires ParseValue(Skip(colon)) == Ok(v, rest)
    ensures ParseMember(s) == Ok(Member(name, v), rest)
  {
    hide ParseValue, ParseString;
    assert (":" + colon)[1..] == colon;
  }

  // ----- texts, cut where the parser stops

  lemma Cut3(a: string, b: string, c: string, d: string)
    ensures a + b + c + d == a + (b + (c + d))
  {
  }

  lemma Cut7(a: string, b: string, c: string, d: string, e: string, f: string, g: string, rest: string)
    ensures a + b + c + d + e + f + g + rest == a + (b + (c + (d + (e + (f + (g + rest))))))
  {
  }

  lemma CutMore(a: string, last: bool, more: string, close: string)
    ensures a + (if last then "" else "," + more) + close == a + Separated(last, close, more + close)
  {
    if last {
      assert a + "" + close == a + close;
    } else {
      assert a + ("," + more) + close == a + ("," + (more + close));
    }
  }

  lemma SeparatorEnds(last: bool, close: char, rest: string, more: string)
    requires close in "]}" && NoNul(rest) && NoNul(more)
    ensures var t := Separated(last, [close] + rest, more); NoNul(t) && Ends(t) && Skip(t) == t
  {
  }

  // ----- every text is read as its value

  lemma {:induction false} SyntaxIsRead(v: Syntax, rest: string)
    requires Valid(v) && NoNul(rest) && Ends(rest)
    ensures NoNul(Text(v) + rest) && ParseValue(Text(v) + rest) == Ok(Meaning(v), rest)
    decreases v, 1
  {
    hide ParseValue, PiecesText, AllPieces, Decimal.Text, Decimal.Value, Decimal.Valid, Ends, Skip;
    var s := Text(v) + rest;
    match v
    case NumberText(d) => NumberStep(d, rest);
    case StringText(ps) => StringStep(ps, rest);
    case ArrayText(gap, items) => ArrayIsRead(gap, items, rest);
    case ObjectText(gap, es) => ObjectIsRead(gap, es, rest);
    case _ => R.ParseLiteral(s, rest);
  }

  lemma {:induction false} ArrayIsRead(gap: string, items: seq<Item>, rest: string)
    requires Blanks(gap) && ValidItems(items) && NoNul(rest)
    ensures var s := "[" + (if items == [] then gap else ItemsText(items)) + "]" + rest;
            NoNul(s) && ParseValue(s) == Ok(Array(ItemsMeaning(items)), rest)
    decreases items, 1
  {
    hide ParseValue, ParseItems, ValidItems, Skip, ItemsText;
    var end := "]" + rest;
    var inner := if items == [] then gap else ItemsText(items);
    assert "[" + inner + "]" + rest == "[" + (inner + end);
    if items == [] {
      BlanksAreSkipped(gap, end);
      CloserStays(']', rest);
    } else {
      ItemsAreRead(items, rest);
    }
    ArrayStep(inner + end, ItemsMeaning(items), rest);
  }

  lemma CloserStays(c: char, rest: string)
    requires c in "]}" && NoNul(rest)
    ensures NoNul([c] + rest) && Skip([c] + rest) == [c] + rest
  {
  }

  lemma {:induction false} ItemsAreRead(items: seq<Item>, rest: string)
    requires items != [] && ValidItems(items) && NoNul(rest)
    ensures var s := ItemsText(items) + ("]" + rest);
            NoNul(s) && At(Skip(s), 0) != ']' && ParseItems(s) == Ok(ItemsMeaning(items), rest)
    decreases items, 0
  {
    hide ParseValue, ParseItems, Skip, Ends, Text, Meaning;
    var i, last, close := items[0], |items| == 1, "]" + rest;
    var more := "";
    if !last {
      ItemsAreRead(items[1..], rest);
      more := ItemsText(items[1..]) + close;
    }
    var sep := Separated(last, close, more);
    SeparatorEnds(last, ']', rest, more);
    var tail := i.after + sep;
    BlanksAreSkipped(i.after, sep);
    SyntaxIsRead(i.value, tail);
    ValueStart(i.value, tail);
    var s := i.before + (Text(i.value) + tail);
    BlanksAreSkipped(i.before, Text(i.value) + tail);
    assert ItemsText(items) + close == s by {
      CutMore(i.before + Text(i.value) + i.after, last, if last then "" else ItemsText(items[1..]), close);
      Cut3(i.before, Text(i.value), i.after, sep);
    }
    ItemsStep(s, Meaning(i.value), tail, last, more, ItemsMeaning(items[1..]), rest);
  }

  lemma {:induction false} ObjectIsRead(gap: string, es: seq<Entry>, rest: string)
    requires Blanks(gap) && ValidEntries(es) && NoNul(rest)
    ensures var s := "{" + (if es == [] then gap else EntriesText(es)) + "}" + rest;
            NoNul(s) && ParseValue(s) == Ok(Object(EntriesMeaning(es)), rest)
    decreases es, 2
  {
    hide ParseValue, ParseMembers, ValidEntries, Skip, EntriesText;
    var end := "}" + rest;
    var inner := if es == [] then gap else EntriesText(es);
    assert "{" + inner + "}" + rest == "{" + (inner + end);
    if es == [] {
      BlanksAreSkipped(gap, end);
      CloserStays('}', rest);
    } else {
      EntriesAreRead(es, rest);
    }
    ObjectStep(inner + end, EntriesMeaning(es), rest);
  }

  lemma QuoteStays(ps: seq<Piece>, rest: string)
    ensures Skip(Quote(ps) + rest) == Quote(ps) + rest && At(Quote(ps) + rest, 0) == '\"'
  {
    hide PiecesText;
  }

  lemma ColonStays(t: string)
    requires NoNul(t)
    ensures NoNul(":" + t) && Skip(":" + t) == ":" + t
  {
  }

  lemma {:induction false} EntryIsRead(e: Entry, tail: string)
    requires ValidEntry(e) && NoNul(tail) && Ends(tail)
    ensures var s := EntryText(e) + tail;
            NoNul(s) && At(Skip(s), 0) == '\"' && ParseMember(s) == Ok(EntryMeaning(e), e.after + tail)
    decreases e, 2
  {
    hide ParseValue, ParseString, ParseMember, Skip, Ends, Text, Meaning, AllPieces, Quote, PiecesBytes;
    var t := e.after + tail;
    BlanksAreSkipped(e.after, tail);
    SyntaxIsRead(e.value, t);
    ValueStart(e.value, t);
    var value := Text(e.value) + t;
    BlanksAreSkipped(e.space, value);
    var colon := e.space + value;
    ColonStays(colon);
    BlanksAreSkipped(e.colon, ":" + colon);
    var name := e.colon + (":" + colon);
    StringIsRead(e.name, name);
    QuoteStays(e.name, name);
    BlanksAreSkipped(e.before, Quote(e.name) + name);
    Cut7(e.before, Quote(e.name), e.colon, ":", e.space, Text(e.value), e.after, tail);
    MemberStep(EntryText(e) + tail, PiecesBytes(e.name), name, colon, Meaning(e.value), t);
  }

  lemma AfterIsSkipped(e: Entry, t: string)
    requires ValidEntry(e) && NoNul(t)
    ensures Skip(e.after + t) == Skip(t) && NoNul(e.after + t)
  {
    BlanksAreSkipped(e.after, t);
  }

  lemma {:induction false} EntriesAreRead(es: seq<Entry>, rest: string)
    requires es != [] && ValidEntries(es) && NoNul(rest)
    ensures var s := EntriesText(es) + ("}" + rest);
            NoNul(s) && At(Skip(s), 0) != '}' && ParseMembers(s) == Ok(EntriesMeaning(es), rest)
    decreases es, 1
  {
    hide ParseMember, ParseMembers, Skip, Ends, EntryText, EntryMeaning, ValidEntry;
    var last, close := |es| == 1, "}" + rest;
    var more := "";
    if !last {
      EntriesAreRead(es[1..], rest);
      more := EntriesText(es[1..]) + close;
    }
    var sep := Separated(last, close, more);
    SeparatorEnds(last, '}', rest, more);
    EntryIsRead(es[0], sep);
    AfterIsSkipped(es[0], sep);
    CutMore(EntryText(es[0]), last, if last then "" else EntriesText(es[1..]), close);
    MembersStep(EntryText(es[0]) + sep, EntryMeaning(es[0]), es[0].after + sep, last, more, EntriesMeaning(es[1..]),
                rest);
  }

  /** Every JSON text, white space around it included, is read as the value it stands for. */
  lemma TextIsRead(before: string, v: Syntax, after: string)
    requires Blanks(before) && Valid(v) && Blanks(after)
    ensures NoNul(before + Text(v) + after)
    ensures Parse(before + Text(v) + after, true) == Ok(Meaning(v), after)
  {
    hide ParseValue, Text, Meaning;
    assert after + "" == after;
    BlanksAreSkipped(after, "");
    SyntaxIsRead(v, after);
    ValueStart(v, after);
    BlanksAreSkipped(before, Text(v) + after);
    assert before + Text(v) + after == before + (Text(v) + after);
  }
}
