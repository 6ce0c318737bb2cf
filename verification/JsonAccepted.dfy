/**
 What the parser takes beyond RFC 8259: every text that it reads is one of a slightly wider
 grammar, and the tree it returns is what that text stands for.
 */
module JsonAccepted {
  import opened CText
  import opened JsonParse
  import opened JsonNumber
  import opened JsonUnicode
  import opened JsonGrammar
  import JsonBuffer
  import R = JsonRoundTrip
  import T = JsonTree

  // ----- numbers

  /** The digits at the start of a text, and what follows them. */
  function Digits(s: string): (string, string) {
    if s != [] && IsDigit(s[0]) then ([s[0]] + Digits(s[1..]).0, Digits(s[1..]).1) else ([], s)
  }

  lemma {:induction false} DigitsSplit(s: string)
    ensures s == Digits(s).0 + Digits(s).1 && AllDigits(Digits(s).0) && !IsDigit(At(Digits(s).1, 0))
  {
    if s != [] && IsDigit(s[0]) {
      DigitsSplit(s[1..]);
      assert [s[0]] + Digits(s[1..]).0 + Digits(s[1..]).1 == [s[0]] + s[1..];
    } else {
      EmptyFront(s);
    }
  }

  lemma DigitsAreScanned(s: string, acc: int, places: int)
    ensures AllDigits(Digits(s).0) && s == Digits(s).0 + Digits(s).1
    ensures ScanDigits(s, acc, places) == Scan(Onto(acc, Digits(s).0), places - |Digits(s).0|, Digits(s).1)
  {
    hide ScanDigits, Digits, Onto;
    DigitsSplit(s);
    ScanAll(Digits(s).0, acc, places, Digits(s).1);
  }

  lemma {:induction false} OntoZero(ds: string)
    requires AllDigits(ds)
    ensures Onto(0, "0" + ds) == Onto(0, ds)
  {
    assert ("0" + ds)[1..] == ds;
  }

  /** What is left of an integer once one 0 in front is taken off. */
  function NonZero(s: string): Scan {
    if '0' < At(s, 0) <= '9' then ScanDigits(s, 0, 0).(places := 0) else Scan(0, 0, s)
  }

  lemma NonZeroIs(s: string) returns (ds: string)
    ensures AllDigits(ds) && (ds != [] ==> ds[0] != '0') && (ds == [] ==> !('0' < At(s, 0) <= '9'))
    ensures s == ds + NonZero(s).rest && NonZero(s) == Scan(Onto(0, ds), 0, NonZero(s).rest)
  {
    hide ScanDigits;
    ds := "";
    if '0' < At(s, 0) <= '9' {
      ds := Digits(s).0;
      DigitsAreScanned(s, 0, 0);
    } else {
      EmptyFront(s);
    }
  }

  lemma ScanIntegerIs(s: string)
    ensures ScanInteger(s) == NonZero(if At(s, 0) == '0' then s[1..] else s)
  {
    hide ScanDigits;
  }

  lemma ZeroInFront(s: string, ds: string, rest: string)
    requires At(s, 0) == '0' && s[1..] == ds + rest && (ds != [] ==> ds[0] != '0')
    ensures s == "0" + ds + rest && !(|ds| >= 1 && ("0" + ds)[1] == '0')
  {
    assert s == "0" + s[1..];
  }

  lemma IntegerIs(s: string) returns (w: string)
    ensures AllDigits(w) && !(|w| >= 2 && w[0] == '0' && w[1] == '0')
    ensures w == [] ==> !IsDigit(At(s, 0))
    ensures s == w + ScanInteger(s).rest && ScanInteger(s) == Scan(WholeValue(w), 0, ScanInteger(s).rest)
  {
    hide ScanInteger, NonZero, WholeValue, Onto, AllDigits;
    ScanIntegerIs(s);
    if At(s, 0) == '0' {
      var ds := NonZeroIs(s[1..]);
      w := "0" + ds;
      WholeIs(ds);
      ZeroInFront(s, ds, NonZero(s[1..]).rest);
    } else {
      w := NonZeroIs(s);
      WholeIs(w);
    }
  }

  lemma EmptyFront(s: string)
    ensures "" + s == s
  {
  }

  lemma WholeIs(ds: string)
    requires AllDigits(ds)
    ensures AllDigits("0" + ds) && WholeValue("0" + ds) == WholeValue(ds) == Onto(0, ds)
    ensures WholeValue("") == 0
  {
    hide WholeValue, Onto;
    OntoIsWhole(ds);
    OntoIsWhole("0" + ds);
    OntoZero(ds);
    assert WholeValue("") == 0 by { EmptyWhole(); }
  }

  lemma EmptyWhole()
    ensures WholeValue("") == 0
  {
  }

  lemma FractionIs(n: Scan) returns (f: string)
    requires n.places == 0
    ensures AllDigits(f) && n.rest == (if f == [] then "" else "." + f) + ScanFraction(n).rest
    ensures ScanFraction(n) == Scan(Onto(n.value, f), -|f|, ScanFraction(n).rest)
  {
    hide ScanDigits;
    f := "";
    if At(n.rest, 0) == '.' && IsDigit(At(n.rest, 1)) {
      var s := n.rest[1..];
      f := Digits(s).0;
      DigitsAreScanned(s, n.value, 0);
      assert n.rest == "." + s;
    } else {
      EmptyFront(n.rest);
    }
  }

  lemma ExponentText(letter: char, sign: string, ds: string, rest: string)
    ensures Exponent(letter, sign, ds).Text() + rest == [letter] + sign + (ds + rest)
  {
  }

  lemma SignedIs(s: string) returns (e: Exponent)
    requires At(s, 0) in "eE" && At(s, 1) in "+-"
    ensures e.Accepted()
    ensures s == e.Text() + ScanExponent(s).rest && ScanExponent(s).value == e.Value()
  {
    hide ScanDigits, WholeValue, Onto, Digits, AllDigits, Exponent.Text;
    var ds := Digits(s[2..]).0;
    DigitsAreScanned(s[2..], 0, 0);
    OntoIsWhole(ds);
    e := Exponent(s[0], [s[1]], ds);
    ExponentText(s[0], [s[1]], ds, Digits(s[2..]).1);
    assert s == [s[0]] + [s[1]] + s[2..];
  }

  lemma UnsignedExponentIs(s: string) returns (e: Exponent)
    requires At(s, 0) in "eE" && At(s, 1) !in "+-"
    ensures e.Accepted()
    ensures s == e.Text() + ScanExponent(s).rest && ScanExponent(s).value == e.Value()
  {
    hide ScanDigits, WholeValue, Onto, Digits, AllDigits, Exponent.Text;
    var ds := Digits(s[1..]).0;
    DigitsAreScanned(s[1..], 0, 0);
    OntoIsWhole(ds);
    e := Exponent(s[0], "", ds);
    ExponentText(s[0], "", ds, Digits(s[1..]).1);
    assert s == [s[0]] + "" + s[1..];
  }

  lemma ExponentIs(s: string) returns (e: Exponent)
    ensures e.Accepted()
    ensures s == e.Text() + ScanExponent(s).rest && ScanExponent(s).value == e.Value()
  {
    if At(s, 0) in "eE" {
      hide ScanExponent, Exponent.Text, Exponent.Value;
      if At(s, 1) in "+-" {
        e := SignedIs(s);
      } else {
        e := UnsignedExponentIs(s);
      }
    } else {
      e := NoExponent;
      EmptyFront(s);
    }
  }

  lemma TextOf(d: Decimal, a: string, b: string, rest: string)
    requires a == PointText(d) + b && b == d.exponent.Text() + rest
    ensures (if d.negative then "-" else "") + (d.whole + a) == d.Text() + rest
  {
    hide PointText, Decimal.Text, Exponent.Text;
    TextIs(d);
    Regrouped(if d.negative then "-" else "", d.whole, PointText(d), d.exponent.Text(), rest);
  }

  /** The parts of a number behind its sign. */
  lemma UnsignedIs(t: string, negative: bool) returns (d: Decimal)
    ensures d.Accepted() && d.negative == negative && (d.whole == [] ==> !IsDigit(At(t, 0)))
    ensures var n := ScanFraction(ScanInteger(t));
            && n == Scan(Onto(WholeValue(d.whole), d.fraction), -|d.fraction|, n.rest)
            && ScanExponent(n.rest).value == d.exponent.Value()
            && (if negative then "-" else "") + t == d.Text() + ScanExponent(n.rest).rest
  {
    hide ScanInteger, ScanFraction, ScanExponent, Decimal.Text, Decimal.Value, Exponent.Text, Exponent.Value,
         WholeValue, Onto, PointText;
    var whole := ScanInteger(t);
    var w := IntegerIs(t);
    var f := FractionIs(whole);
    var n := ScanFraction(whole);
    var e := ExponentIs(n.rest);
    d := Decimal(negative, w, f, e);
    PointIs(d);
    TextOf(d, whole.rest, n.rest, ScanExponent(n.rest).rest);
  }

  /** What is read as a number is an accepted number of that value. */
  lemma NumberIs(s: string) returns (d: Decimal)
    requires s != [] && (s[0] == '-' || IsDigit(s[0]))
    ensures d.Accepted() && d.Text() != "" && d.Text()[0] in "-0123456789"
    ensures s == d.Text() + ParseNumber(s).rest && ParseNumber(s).value == T.Number(d.Value())
  {
    hide ParseNumber, ScanInteger, ScanFraction, ScanExponent, NumberValue, Decimal.Text, Decimal.Value, Exponent.Text,
         Exponent.Value, Exponent.Accepted, WholeValue, Onto;
    var t := if s[0] == '-' then s[1..] else s;
    var negative := s[0] == '-';
    d := UnsignedIs(t, negative);
    StartIs(d);
    SignIs(s);
    ValueFits(d);
    var n := ScanFraction(ScanInteger(t));
    PartsAreRead(s, negative, t, n.value, n.places, n.rest, ScanExponent(n.rest).value, ScanExponent(n.rest).rest);
  }

  lemma SignIs(s: string)
    requires s != []
    ensures s == (if s[0] == '-' then "-" else "") + if s[0] == '-' then s[1..] else s
  {
    EmptyFront(s);
  }

  lemma PointIs(d: Decimal)
    ensures PointText(d) == if d.fraction == [] then "" else "." + d.fraction
  {
  }

  lemma StartIs(d: Decimal)
    requires d.negative || (d.whole != [] && IsDigit(d.whole[0]))
    ensures d.Text() != "" && d.Text()[0] in "-0123456789"
  {
    hide Exponent.Text;
    if !d.negative {
      assert d.Text()[0] == d.whole[0];
    }
  }

  // ----- strings

  lemma HexIs(c: char)
    requires HexValue(c) >= 0
    ensures IsHex(c, HexValue(c))
  {
  }

  /** A number that is not 0 is written in four digits. */
  lemma Hex4Is(s: string)
    requires Hex4(s) != 0
    ensures |s| >= 4 && IsHex4(s[..4], Hex4(s))
  {
    hide HexValue, IsHex;
    HexValues(At(s, 0), At(s, 1), At(s, 2), At(s, 3));
    HexIs(s[0]);
    HexIs(s[1]);
    HexIs(s[2]);
    HexIs(s[3]);
    DigitsOf(HexValue(s[0]), HexValue(s[1]), HexValue(s[2]), HexValue(s[3]));
  }

  lemma DigitsOf(a: int, b: int, c: int, d: int)
    requires 0 <= a < 16 && 0 <= b < 16 && 0 <= c < 16 && 0 <= d < 16
    ensures var n := ((a * 16 + b) * 16 + c) * 16 + d;
            n / 4096 == a && n / 256 % 16 == b && n / 16 % 16 == c && n % 16 == d
  {
  }

  lemma HalvesOf(hi: int, lo: int)
    requires 0xD800 <= hi <= 0xDBFF && 0xDC00 <= lo <= 0xDFFF
    ensures var uc := 0x10000 + hi % 0x400 * 0x400 + lo % 0x400;
            0x10000 <= uc < 0x110000 && HighHalf(uc) == hi && LowHalf(uc) == lo
  {
  }

  /** No escape of a code point is dropped. */
  lemma NothingIsDropped(s: string, n: nat)
    requires n <= |s| && UnicodeEscape(s) == ([], n)
    ensures !IsEscape(s[..n])
  {
    hide UnicodeEscape, IsEscapeOf, Utf8, Decode;
    assert s[..n] + s[n..] == s;
    if IsEscape(s[..n]) {
      var uc :| 0 < uc < 0x110000 && !IsSurrogate(uc) && IsEscapeOf(s[..n], uc);
      Utf8Decodes(uc);
      EscapeIsRead(s[..n], uc, s[n..]);
    }
  }

  /** An escape is one of a code point, or it is dropped. */
  lemma EscapeIs(s: string) returns (p: Piece)
    requires UnicodeEscape(s).1 <= |s|
    ensures p.Accepted() && p.Text() == "\\u" + s[..UnicodeEscape(s).1] && p.Bytes() == UnicodeEscape(s).0
  {
    hide Hex4, Utf8, IsHex4, HighHalf, LowHalf;
    var (bytes, n) := UnicodeEscape(s);
    var uc := Hex4(s);
    if bytes == [] {
      NothingIsDropped(s, n);
      p := Dropped(s[..n]);
    } else if uc < 0xD800 || uc > 0xDBFF {
      Hex4Is(s);
      p := Code(uc, s[..4]);
    } else {
      var uc2 := Hex4(s[6..]);
      Hex4Is(s);
      Hex4Is(s[6..]);
      HalvesOf(uc, uc2);
      var e := s[..10];
      assert e[..4] == s[..4] && e[6..] == s[6..][..4];
      p := Code(0x10000 + uc % 0x400 * 0x400 + uc2 % 0x400, e);
    }
  }

  /** The pieces of a string, and whether it is closed; if not it reaches to the end. */
  lemma {:induction false} BodyIs(s: cstring) returns (ps: seq<Piece>, closed: bool)
    requires StringBody(s).Ok?
    ensures AcceptedPieces(ps) && PiecesBytes(ps) == StringBody(s).value
    ensures s == PiecesText(ps) + (if closed then "\"" else "") + StringBody(s).rest
    ensures !closed ==> StringBody(s).rest == []
    decreases |s|
  {
    hide UnicodeEscape, Piece.Bytes, Piece.Text, Piece.Accepted;
    if s == [] || s[0] == '\"' {
      ps, closed := [], s != [];
      EndIs(s);
    } else {
      var p, n := FirstPiece(s);
      ps, closed := BodyIs(s[n..]);
      PutInFront(p, ps, closed, s[..n], s[n..], StringBody(s).rest);
      assert s == s[..n] + s[n..];
      ps := [p] + ps;
    }
  }

  lemma EndIs(s: string)
    requires s == [] || s[0] == '\"'
    ensures s == PiecesText([]) + (if s != [] then "\"" else "") + if s != [] then s[1..] else []
  {
  }

  lemma PutInFront(p: Piece, ps: seq<Piece>, closed: bool, front: string, back: string, rest: string)
    requires p.Accepted() && AcceptedPieces(ps) && p.Text() == front
    requires back == PiecesText(ps) + (if closed then "\"" else "") + rest
    ensures AcceptedPieces([p] + ps) && PiecesBytes([p] + ps) == p.Bytes() + PiecesBytes(ps)
    ensures front + back == PiecesText([p] + ps) + (if closed then "\"" else "") + rest
  {
    hide Piece.Bytes, Piece.Text, Piece.Accepted;
    assert ([p] + ps)[1..] == ps;
    Cut3(front, PiecesText(ps), if closed then "\"" else "", rest);
    Cut3("", PiecesText(ps), if closed then "\"" else "", rest);
  }

  lemma CodePiece(s: cstring) returns (p: Piece)
    requires At(s, 0) == '\\' && At(s, 1) == 'u' && StringBody(s).Ok?
    ensures var n := 2 + UnicodeEscape(s[2..]).1;
            && n <= |s| && p.Accepted() && p.Text() == s[..n]
            && StringBody(s) == Prepend(p.Bytes(), StringBody(s[n..]))
  {
    hide UnicodeEscape, Prepend, Piece.Bytes, Piece.Text, Piece.Accepted;
    p := EscapeIs(s[2..]);
    BackslashFront(s, UnicodeEscape(s[2..]).1);
  }

  lemma BackslashFront(s: string, n: nat)
    requires At(s, 0) == '\\' && At(s, 1) == 'u' && 2 + n <= |s|
    ensures s[..2 + n] == "\\u" + s[2..][..n]
  {
  }

  lemma FirstPiece(s: cstring) returns (p: Piece, n: nat)
    requires s != [] && s[0] != '\"' && StringBody(s).Ok?
    ensures p.Accepted() && 1 <= n <= |s| && p.Text() == s[..n]
    ensures StringBody(s) == Prepend(p.Bytes(), StringBody(s[n..]))
  {
    hide UnicodeEscape, Prepend;
    if s[0] != '\\' {
      p, n := Plain(s[0]), 1;
    } else if s[1] != 'u' {
      p, n := Short(s[1]), 2;
    } else {
      hide StringBody, Piece.Bytes, Piece.Text, Piece.Accepted;
      p := CodePiece(s);
      n := 2 + UnicodeEscape(s[2..]).1;
    }
  }

  /** A string at the end of the text whose closing quote is missing. */
  ghost predicate OpenString(s: string, value: cstring, rest: string) {
    rest == [] && exists ps :: AcceptedPieces(ps) && s == "\"" + PiecesText(ps) && value == PiecesBytes(ps)
  }

  lemma StringIs(s: cstring) returns (ps: seq<Piece>)
    requires ParseString(s).Ok?
    ensures AcceptedPieces(ps)
    ensures var r := ParseString(s);
            OpenString(s, r.value, r.rest) || (s == Quote(ps) + r.rest && r.value == PiecesBytes(ps))
  {
    hide StringBody, LengthPassStops, LengthCount, PiecesText, PiecesBytes, AcceptedPieces;
    var closed;
    ps, closed := BodyIs(s[1..]);
    assert s == "\"" + s[1..];
    if closed {
      Cut3("\"", PiecesText(ps), "\"", ParseString(s).rest);
    } else {
      assert s[1..] == PiecesText(ps);
    }
  }

  // ----- values

  lemma {:induction false} SkipIs(s: string) returns (w: string)
    ensures Gap(w) && s == w + Skip(s)
  {
    w := "";
    if s != [] && IsBlank(s[0]) {
      var v := SkipIs(s[1..]);
      w := [s[0]] + v;
      assert s == [s[0]] + s[1..];
    } else {
      EmptyFront(s);
    }
  }

  /** The text s is x with rest behind it. */
  predicate Spells(x: Syntax, s: string, v: T.Json, rest: string) {
    Accepted(x) && s == Text(x) + rest && v == Meaning(x)
  }

  lemma LiteralIs(s: cstring) returns (x: Syntax)
    requires StartsWith(s, T.NULL_TEXT) || StartsWith(s, T.FALSE_TEXT) || StartsWith(s, T.TRUE_TEXT)
    ensures ParseValue(s).Ok? && Spells(x, s, ParseValue(s).value, ParseValue(s).rest)
  {
    if StartsWith(s, T.NULL_TEXT) {
      x := NullText;
      assert s == T.NULL_TEXT + s[4..];
    } else if StartsWith(s, T.FALSE_TEXT) {
      x := FalseText;
      assert s == T.FALSE_TEXT + s[5..];
    } else {
      x := TrueText;
      assert s == T.TRUE_TEXT + s[4..];
    }
  }

  lemma {:induction false} ArrayIs(s: cstring) returns (x: Syntax)
    requires ParseValue(s).Ok? && At(s, 0) == '['
    ensures Spells(x, s, ParseValue(s).value, ParseValue(s).rest)
    decreases |s|, 0
  {
    hide ParseItems, Skip, Spells;
    R.NotLiteral(s);
    var s1 := Skip(s[1..]);
    if At(s1, 0) == ']' {
      var w := SkipIs(s[1..]);
      x := EmptyArrayIs(s, w, s1);
    } else {
      ParseItemsSkips(s[1..]);
      var items := ItemsAre(s[1..]);
      x := FullArrayIs(s, items, ParseItems(s1).rest);
    }
  }

  lemma EmptyArrayIs(s: string, w: string, s1: string) returns (x: Syntax)
    requires Gap(w) && At(s, 0) == '[' && s[1..] == w + s1 && At(s1, 0) == ']'
    ensures Spells(x, s, T.Array([]), s1[1..])
  {
    x := ArrayText(w, []);
    assert s == "[" + s[1..] && s1 == "]" + s1[1..];
    Cut3("[", w, "]", s1[1..]);
  }

  lemma FullArrayIs(s: string, items: seq<Item>, rest: string) returns (x: Syntax)
    requires At(s, 0) == '[' && items != [] && AcceptedItems(items) && s[1..] == ItemsText(items) + "]" + rest
    ensures Spells(x, s, T.Array(ItemsMeaning(items)), rest)
  {
    hide AcceptedItems, ItemsText, ItemsMeaning;
    x := ArrayText("", items);
    assert s == "[" + s[1..];
    Cut3("[", ItemsText(items), "]", rest);
    assert ItemsText(items) + "]" + rest == ItemsText(items) + ("]" + rest);
  }

  /** The entries of an array up to its bracket. */
  lemma {:induction false} ItemsAre(s: cstring) returns (items: seq<Item>)
    requires ParseItems(s).Ok?
    ensures items != [] && AcceptedItems(items) && ItemsMeaning(items) == ParseItems(s).value
    ensures s == ItemsText(items) + "]" + ParseItems(s).rest
    decreases |s|, 2
  {
    hide ParseValue, Skip, Accepted, Text, Meaning, Gap, OpenString;
    var before := SkipIs(s);
    var x := ValueIs(Skip(s));
    var r := ParseValue(Skip(s));
    OpenEnds(Skip(s), r);
    var after := SkipIs(r.rest);
    var s1 := Skip(r.rest);
    var i := Item(before, x, after);
    if At(s1, 0) == ',' {
      var more := ItemsAre(s1[1..]);
      items := [i] + more;
      ItemsJoin(i, more, s, s1, ParseItems(s).rest);
    } else {
      items := [i];
      LastItemJoins(i, s, s1);
    }
  }

  lemma OpenEnds(s: string, r: Parsed<T.Json>)
    requires r.Ok?
    ensures r.value.String? && OpenString(s, r.value.text, r.rest) ==> Skip(r.rest) == []
  {
  }

  lemma ItemsJoin(i: Item, more: seq<Item>, s: string, s1: string, rest: string)
    requires more != [] && At(s1, 0) == ',' && s1[1..] == ItemsText(more) + "]" + rest
    requires s == i.before + (Text(i.value) + (i.after + s1))
    ensures s == ItemsText([i] + more) + "]" + rest
  {
    hide Text;
    assert ([i] + more)[1..] == more;
    assert s1 == "," + s1[1..];
    Cut7(i.before, Text(i.value), i.after, ",", ItemsText(more), "]", "", rest);
    assert i.before + Text(i.value) + i.after + ("," + ItemsText(more)) + "]" + rest
        == i.before + (Text(i.value) + (i.after + ("," + (ItemsText(more) + "]" + rest))));
  }

  lemma LastItemJoins(i: Item, s: string, s1: string)
    requires At(s1, 0) == ']'
    requires s == i.before + (Text(i.value) + (i.after + s1))
    ensures s == ItemsText([i]) + "]" + s1[1..]
  {
    hide Text;
    assert s1 == "]" + s1[1..];
    assert i.before + Text(i.value) + i.after + "" + "]" + s1[1..]
        == i.before + (Text(i.value) + (i.after + ("]" + s1[1..])));
  }

  lemma {:induction false} ObjectIs(s: cstring) returns (x: Syntax)
    requires ParseValue(s).Ok? && At(s, 0) == '{'
    ensures Spells(x, s, ParseValue(s).value, ParseValue(s).rest)
    decreases |s|, 0
  {
    hide ParseMembers, Skip, Spells;
    R.NotLiteral(s);
    var s1 := Skip(s[1..]);
    if At(s1, 0) == '}' {
      var w := SkipIs(s[1..]);
      x := EmptyObjectIs(s, w, s1);
    } else {
      R.ParseMembersSkips(s[1..]);
      var es := EntriesAre(s[1..]);
      x := FullObjectIs(s, es, ParseMembers(s1).rest);
    }
  }

  lemma EmptyObjectIs(s: string, w: string, s1: string) returns (x: Syntax)
    requires Gap(w) && At(s, 0) == '{' && s[1..] == w + s1 && At(s1, 0) == '}'
    ensures Spells(x, s, T.Object([]), s1[1..])
  {
    x := ObjectText(w, []);
    assert s == "{" + s[1..] && s1 == "}" + s1[1..];
    Cut3("{", w, "}", s1[1..]);
  }

  lemma FullObjectIs(s: string, es: seq<Entry>, rest: string) returns (x: Syntax)
    requires At(s, 0) == '{' && es != [] && AcceptedEntries(es) && s[1..] == EntriesText(es) + "}" + rest
    ensures Spells(x, s, T.Object(EntriesMeaning(es)), rest)
  {
    hide AcceptedEntries, EntriesText, EntriesMeaning;
    x := ObjectText("", es);
    assert s == "{" + s[1..];
    Cut3("{", EntriesText(es), "}", rest);
    assert EntriesText(es) + "}" + rest == EntriesText(es) + ("}" + rest);
  }

  /** One name, colon and value, up to the white space behind the value. */
  lemma {:induction false} EntryIs(s: cstring) returns (e: Entry)
    requires ParseMember(s).Ok?
    ensures e.after == ""
    ensures var r := ParseMember(s);
            Skip(r.rest) == [] || (AcceptedEntry(e) && EntryMeaning(e) == r.value && s == EntryText(e) + r.rest)
    decreases |s|, 1
  {
    hide ParseValue, ParseString, Skip, Accepted, Text, Meaning, OpenString, Quote, PiecesBytes, AcceptedPieces,
         EntryText;
    var before := SkipIs(s);
    var name := StringIs(Skip(s));
    var n := ParseString(Skip(s));
    OpenName(Skip(s), n);
    var colon := SkipIs(n.rest);
    var s1 := Skip(n.rest);
    var space := SkipIs(s1[1..]);
    var x := ValueIs(Skip(s1[1..]));
    var r := ParseValue(Skip(s1[1..]));
    OpenEnds(Skip(s1[1..]), r);
    e := Entry(before, name, colon, space, x, "");
    if Skip(r.rest) != [] {
      EntryJoins(e, s, s1, r.rest);
    }
  }

  lemma OpenName(s: string, r: Parsed<cstring>)
    requires r.Ok?
    ensures OpenString(s, r.value, r.rest) ==> Skip(r.rest) == []
  {
  }

  lemma EntryJoins(e: Entry, s: string, s1: string, rest: string)
    requires At(s1, 0) == ':' && e.after == ""
    requires s == e.before + (Quote(e.name) + (e.colon + s1)) && s1[1..] == e.space + (Text(e.value) + rest)
    ensures s == EntryText(e) + rest
  {
    hide Text, Quote;
    assert s1 == ":" + s1[1..];
    Cut7(e.before, Quote(e.name), e.colon, ":", e.space, Text(e.value), e.after, rest);
    EmptyFront(rest);
  }

  /** The members of an object up to its brace. */
  lemma {:induction false} EntriesAre(s: cstring) returns (es: seq<Entry>)
    requires ParseMembers(s).Ok?
    ensures es != [] && AcceptedEntries(es) && EntriesMeaning(es) == ParseMembers(s).value
    ensures s == EntriesText(es) + "}" + ParseMembers(s).rest
    decreases |s|, 3
  {
    hide ParseMember, Skip, AcceptedEntry, EntryText, EntryMeaning, Gap;
    var e0 := EntryIs(s);
    var r := ParseMember(s);
    var after := SkipIs(r.rest);
    var s1 := Skip(r.rest);
    var e := e0.(after := after);
    AfterIs(e0, after, s, s1);
    if At(s1, 0) == ',' {
      var more := EntriesAre(s1[1..]);
      es := [e] + more;
      EntriesJoin(e, more, s, s1, ParseMembers(s).rest);
    } else {
      es := [e];
      LastEntryJoins(e, s, s1);
    }
  }

  lemma AfterIs(e: Entry, after: string, s: string, s1: string)
    requires e.after == "" && AcceptedEntry(e) && Gap(after) && s == EntryText(e) + (after + s1)
    ensures AcceptedEntry(e.(after := after)) && EntryMeaning(e.(after := after)) == EntryMeaning(e)
    ensures s == EntryText(e.(after := after)) + s1
  {
    hide Accepted, Text, Meaning, Quote, AcceptedPieces, PiecesBytes;
    var front := e.before + Quote(e.name) + e.colon + ":" + e.space + Text(e.value);
    assert front + "" == front;
    assert front + (after + s1) == front + after + s1;
  }

  lemma EntriesJoin(e: Entry, more: seq<Entry>, s: string, s1: string, rest: string)
    requires more != [] && At(s1, 0) == ',' && s1[1..] == EntriesText(more) + "}" + rest && s == EntryText(e) + s1
    ensures s == EntriesText([e] + more) + "}" + rest
  {
    hide EntryText;
    assert ([e] + more)[1..] == more;
    assert s1 == "," + s1[1..];
    assert EntryText(e) + ("," + EntriesText(more)) + "}" + rest
        == EntryText(e) + ("," + (EntriesText(more) + "}" + rest));
  }

  lemma LastEntryJoins(e: Entry, s: string, s1: string)
    requires At(s1, 0) == '}' && s == EntryText(e) + s1
    ensures s == EntriesText([e]) + "}" + s1[1..]
  {
    hide EntryText;
    assert s1 == "}" + s1[1..];
    assert EntryText(e) + "" == EntryText(e);
  }

  lemma StringValueIs(s: cstring) returns (x: Syntax)
    requires ParseValue(s).Ok? && At(s, 0) == '\"'
    ensures var r := ParseValue(s);
            r.value.String? && (Spells(x, s, r.value, r.rest) || OpenString(s, r.value.text, r.rest))
  {
    hide ParseString, AcceptedPieces, PiecesBytes, Quote, OpenString;
    R.NotLiteral(s);
    var ps := StringIs(s);
    x := StringText(ps);
  }

  lemma NumberValueIs(s: cstring) returns (x: Syntax)
    requires ParseValue(s).Ok? && (At(s, 0) == '-' || IsDigit(At(s, 0)))
    ensures Spells(x, s, ParseValue(s).value, ParseValue(s).rest)
  {
    hide ParseNumber, Decimal.Text, Decimal.Value, Decimal.Accepted;
    R.NotLiteral(s);
    var d := NumberIs(s);
    x := NumberText(d);
  }

  lemma ValueStarts(s: cstring)
    requires ParseValue(s).Ok? && At(s, 0) !in "\"-[{" && !IsDigit(At(s, 0))
    ensures StartsWith(s, T.NULL_TEXT) || StartsWith(s, T.FALSE_TEXT) || StartsWith(s, T.TRUE_TEXT)
  {
  }

  /** What is read as a value is an accepted text of that value, or an open string. */
  lemma {:induction false} ValueIs(s: cstring) returns (x: Syntax)
    requires ParseValue(s).Ok?
    ensures var r := ParseValue(s);
            || Spells(x, s, r.value, r.rest)
            || (r.value.String? && OpenString(s, r.value.text, r.rest))
    decreases |s|, 1
  {
    hide ParseValue, Spells, OpenString, StartsWith;
    if At(s, 0) == '\"' {
      x := StringValueIs(s);
    } else if At(s, 0) == '-' || IsDigit(At(s, 0)) {
      x := NumberValueIs(s);
    } else if At(s, 0) == '[' {
      x := ArrayIs(s);
    } else if At(s, 0) == '{' {
      x := ObjectIs(s);
    } else {
      ValueStarts(s);
      x := LiteralIs(s);
    }
  }

  // ----- whole texts

  /** The text is an accepted text of the value, with white space in front and rest behind. */
  ghost predicate Denotes(text: string, v: T.Json, rest: string) {
    || (exists w, x :: Gap(w) && Accepted(x) && text == w + Text(x) + rest && v == Meaning(x))
    || (v.String? && exists w, t :: Gap(w) && text == w + t && OpenString(t, v.text, rest))
  }

  /** Nothing else is read: whatever the parser returns is what the text denotes, and with
      the check only white space is left behind it. */
  lemma OnlyTextsAreRead(text: cstring, requireEnd: bool)
    requires Parse(text, requireEnd).Ok?
    ensures var r := Parse(text, requireEnd); Denotes(text, r.value, r.rest) && (requireEnd ==> Gap(r.rest))
  {
    hide ParseValue, Skip, Accepted, Text, Meaning, Gap, OpenString;
    var w := SkipIs(text);
    var t := Skip(text);
    var x := ValueIs(t);
    var r := ParseValue(t);
    var end := SkipIs(r.rest);
    assert end + [] == end;
    if Spells(x, t, r.value, r.rest) {
      assert w + (Text(x) + r.rest) == w + Text(x) + r.rest;
    }
  }
}
