/**
 Parsing what the printer wrote gives back the tree that was printed, at any
 depth, formatted or not, with any text behind it that does not continue a number.
 */
module JsonRoundTrip {
  import opened CText
  import opened JsonTree
  import opened JsonLayout
  import opened JsonParse

  /** A text that cannot continue the digits of a printed number. */
  predicate EndsNumber(rest: string) {
    var c := At(rest, 0);
    !IsDigit(c) && c != '.' && c != 'e' && c != 'E'
  }

  // ----- numbers

  lemma ScanDigit(n: nat, acc: nat, places: int, rest: string)
    requires n < 10
    ensures ScanDigits([DigitChar(n)] + rest, acc, places) == ScanDigits(rest, 10 * acc + n, places - 1)
  {
    assert ([DigitChar(n)] + rest)[1..] == rest;
  }

  lemma {:induction false} ScanNatText(n: nat, places: int, rest: string)
    ensures exists p :: ScanDigits(NatText(n) + rest, 0, places) == ScanDigits(rest, n, p)
  {
    hide ScanDigits, DigitChar;
    if n < 10 {
      ScanDigit(n, 0, places, rest);
    } else {
      var d := [DigitChar(n % 10)];
      ScanNatText(n / 10, places, d + rest);
      assert NatText(n) + rest == NatText(n / 10) + (d + rest);
      var p :| ScanDigits(NatText(n / 10) + (d + rest), 0, places) == ScanDigits(d + rest, n / 10, p);
      ScanDigit(n % 10, n / 10, p, rest);
    }
  }

  lemma ScanIntegerNatText(n: nat, rest: string)
    requires EndsNumber(rest)
    ensures ScanInteger(NatText(n) + rest) == Scan(n, 0, rest)
  {
    var s := NatText(n) + rest;
    assert s[0] == NatText(n)[0];
    if n == 0 {
      assert s[1..] == rest;
    } else {
      ScanNatText(n, 0, rest);
    }
  }

  lemma NumberEnds(n: int, rest: string)
    requires EndsNumber(rest)
    ensures ScanFraction(Scan(n, 0, rest)) == Scan(n, 0, rest) && ScanExponent(rest) == Scan(0, 0, rest)
  {
  }

  lemma IntegerValue(negative: bool, m: int)
    ensures NumberValue(negative, m, 0) == (if negative then -m else m) as real
  {
  }

  lemma NumberRoundTrip(n: int, rest: string)
    requires EndsNumber(rest)
    ensures ParseNumber(IntText(n) + rest) == Ok(Number(n as real), rest)
  {
    if n < 0 {
      NegativeRoundTrip(n, rest);
    } else {
      PositiveRoundTrip(n, rest);
    }
  }

  /** The parts of a number, put together. */
  lemma ParsedNumber(s: string, t: string, negative: bool, n: int, rest: string)
    requires negative <==> At(s, 0) == '-'
    requires t == if negative then s[1..] else s
    requires ScanInteger(t) == ScanFraction(Scan(n, 0, rest)) == Scan(n, 0, rest)
    requires ScanExponent(rest) == Scan(0, 0, rest)
    ensures ParseNumber(s) == Ok(Number((if negative then -n else n) as real), rest)
  {
    hide NumberValue, ScanInteger, ScanFraction, ScanExponent;
    IntegerValue(negative, n);
  }

  lemma NegativeText(n: int, rest: string)
    requires n < 0
    ensures var s := IntText(n) + rest; s[0] == '-' && s[1..] == NatText(-n) + rest
  {
    hide NatText;
  }

  lemma NegativeRoundTrip(n: int, rest: string)
    requires EndsNumber(rest) && n < 0
    ensures ParseNumber(IntText(n) + rest) == Ok(Number(n as real), rest)
  {
    hide ParseNumber, ScanInteger, ScanFraction, ScanExponent, EndsNumber, NatText, IntText;
    var t := NatText(-n) + rest;
    ScanIntegerNatText(-n, rest);
    NumberEnds(-n, rest);
    NegativeText(n, rest);
    ParsedNumber(IntText(n) + rest, t, true, -n, rest);
  }

  lemma PositiveRoundTrip(n: nat, rest: string)
    requires EndsNumber(rest)
    ensures ParseNumber(IntText(n) + rest) == Ok(Number(n as real), rest)
  {
    hide ParseNumber, ScanInteger, ScanFraction, ScanExponent, EndsNumber, NatText;
    ScanIntegerNatText(n, rest);
    NumberEnds(n, rest);
    var s := IntText(n) + rest;
    assert s[0] == NatText(n)[0];
    ParsedNumber(s, s, false, n, rest);
  }

  // ----- strings

  /** One printed character is read back as that character. */
  lemma EscapeCharRoundTrip(c: char, t: cstring)
    requires c != '\0'
    requires StringBody(t).Ok? && LengthPassStops(t)
    ensures StringBody(EscapeChar(c) + t) == Ok([c] + StringBody(t).value, StringBody(t).rest)
    ensures LengthPassStops(EscapeChar(c) + t) && LengthCount(EscapeChar(c) + t) > LengthCount(t)
  {
    hide StringBody, LengthPassStops, LengthCount, HexDigit;
    if c >= ' ' && c != '\"' && c != '\\' {
      PlainRoundTrip(c, t);
    } else if c == '\\' {
      BackslashRoundTrip('\\', t);
    } else if c == '\"' {
      BackslashRoundTrip('\"', t);
    } else if c == BACKSPACE {
      BackslashRoundTrip('b', t);
    } else if c == FORM_FEED {
      BackslashRoundTrip('f', t);
    } else if c == '\n' {
      BackslashRoundTrip('n', t);
    } else if c == '\r' {
      BackslashRoundTrip('r', t);
    } else if c == '\t' {
      BackslashRoundTrip('t', t);
    } else {
      ControlRoundTrip(c, t);
    }
  }

  lemma PlainRoundTrip(c: char, t: cstring)
    requires c !in "\"\\\0"
    requires StringBody(t).Ok? && LengthPassStops(t)
    ensures StringBody([c] + t) == Ok([c] + StringBody(t).value, StringBody(t).rest)
    ensures LengthPassStops([c] + t) && LengthCount([c] + t) > LengthCount(t)
  {
    assert ([c] + t)[1..] == t;
  }

  lemma BackslashRoundTrip(c: char, t: cstring)
    requires c != 'u' && c != '\0'
    requires StringBody(t).Ok? && LengthPassStops(t)
    ensures StringBody(['\\', c] + t) == Ok([Unescaped(c)] + StringBody(t).value, StringBody(t).rest)
    ensures LengthPassStops(['\\', c] + t) && LengthCount(['\\', c] + t) > LengthCount(t)
  {
    assert (['\\', c] + t)[2..] == t;
  }

  lemma ControlRoundTrip(c: char, t: cstring)
    requires c < ' ' && c != '\0'
    requires StringBody(t).Ok? && LengthPassStops(t)
    ensures StringBody("\\u00" + [HexDigit(c as int / 16), HexDigit(c as int % 16)] + t) ==
            Ok([c] + StringBody(t).value, StringBody(t).rest)
    ensures LengthPassStops("\\u00" + [HexDigit(c as int / 16), HexDigit(c as int % 16)] + t)
    ensures LengthCount("\\u00" + [HexDigit(c as int / 16), HexDigit(c as int % 16)] + t) > LengthCount(t)
  {
    hide UnicodeEscape, HexDigit;
    var hex := "00" + [HexDigit(c as int / 16), HexDigit(c as int % 16)];
    var s := "\\u00" + [HexDigit(c as int / 16), HexDigit(c as int % 16)] + t;
    HexRoundTrip(c, t);
    assert s[2..] == hex + t;
    assert s[6..] == t;
    assert LengthPassStops(hex + t) && LengthCount(hex + t) >= LengthCount(t) by {
      HexDigitsPlain(c);
      PlainPassStops(hex, t);
    }
  }

  lemma HexDigitsPlain(c: char)
    requires c < ' '
    ensures HexDigit(c as int / 16) !in "\"\\" && HexDigit(c as int % 16) !in "\"\\"
  {
  }

  lemma {:induction false} PlainPassStops(p: string, t: string)
    requires LengthPassStops(t)
    requires forall i :: 0 <= i < |p| ==> p[i] != '\"' && p[i] != '\\'
    ensures LengthPassStops(p + t) && LengthCount(p + t) == |p| + LengthCount(t)
  {
    if p == [] {
      assert p + t == t;
    } else {
      PlainPassStops(p[1..], t);
      assert (p + t)[1..] == p[1..] + t;
    }
  }

  lemma HexRoundTrip(c: char, t: string)
    requires c < ' ' && c != '\0'
    ensures UnicodeEscape("00" + [HexDigit(c as int / 16), HexDigit(c as int % 16)] + t) == ([c], 4)
  {
    var s := "00" + [HexDigit(c as int / 16), HexDigit(c as int % 16)] + t;
    assert HexValue(s[2]) == c as int / 16 && HexValue(s[3]) == c as int % 16;
    assert Hex4(s) == c as int;
  }

  lemma EmptyBody(rest: cstring)
    ensures StringBody(['\"'] + rest) == Ok([], rest) && LengthPassStops(['\"'] + rest)
  {
    assert (['\"'] + rest)[1..] == rest;
  }

  lemma EscapeStep(s: cstring, end: string)
    requires s != []
    ensures Escape(s) + end == EscapeChar(s[0]) + (Escape(s[1..]) + end)
  {
    hide EscapeChar;
  }

  lemma {:induction false} StringBodyRoundTrip(s: cstring, rest: cstring)
    ensures StringBody(Escape(s) + (['\"'] + rest)) == Ok(s, rest)
    ensures LengthPassStops(Escape(s) + (['\"'] + rest))
    ensures LengthCount(Escape(s) + (['\"'] + rest)) >= |s|
  {
    hide StringBody, LengthPassStops, LengthCount, EscapeChar;
    var end := ['\"'] + rest;
    if s == [] {
      EmptyBody(rest);
      assert Escape(s) + end == end;
    } else {
      StringBodyRoundTrip(s[1..], rest);
      EscapeCharRoundTrip(s[0], Escape(s[1..]) + end);
      EscapeStep(s, end);
      assert s == [s[0]] + s[1..];
    }
  }

  lemma StringRoundTrip(s: cstring, rest: cstring)
    ensures ParseString(StringText(s) + rest) == Ok(s, rest)
  {
    hide StringBody, LengthPassStops, LengthCount, Escape;
    StringBodyRoundTrip(s, rest);
    assert (StringText(s) + rest)[1..] == Escape(s) + (['\"'] + rest);
  }

  // ----- white space

  lemma {:induction false} SkipTabs(n: nat, s: string)
    ensures Skip(Repeat('\t', n) + s) == Skip(s)
  {
    if n == 0 {
      assert Repeat('\t', n) + s == s;
    } else {
      SkipTabs(n - 1, s);
      assert (Repeat('\t', n) + s)[1..] == Repeat('\t', n - 1) + s;
    }
  }

  // ----- one step of each parse function

  lemma ParseLiteral(s: cstring, rest: cstring)
    ensures s == NULL_TEXT + rest ==> ParseValue(s) == Ok(Null, rest)
    ensures s == FALSE_TEXT + rest ==> ParseValue(s) == Ok(False, rest)
    ensures s == TRUE_TEXT + rest ==> ParseValue(s) == Ok(True, rest)
  {
    if s == NULL_TEXT + rest {
      assert s[..4] == NULL_TEXT && s[4..] == rest;
    } else if s == FALSE_TEXT + rest {
      assert s[0] == FALSE_TEXT[0];
      assert s[..4][0] == s[0];
      assert s[..5] == FALSE_TEXT && s[5..] == rest;
    } else if s == TRUE_TEXT + rest {
      assert s[0] == TRUE_TEXT[0];
      assert s[..4][0] == s[0];
      assert s[..4] == TRUE_TEXT && s[4..] == rest;
    }
  }

  /** No literal starts like any other value. */
  lemma NotLiteral(s: cstring)
    requires At(s, 0) !in ['n', 'f', 't']
    ensures !StartsWith(s, NULL_TEXT) && !StartsWith(s, FALSE_TEXT) && !StartsWith(s, TRUE_TEXT)
  {
    if |s| >= 4 {
      assert s[..4][0] == s[0];
    }
    if |s| >= 5 {
      assert s[..5][0] == s[0];
    }
  }

  lemma ParseItemsStep(s: cstring, v: Json, tail: cstring, vs: seq<Json>, rest: cstring)
    requires ParseValue(Skip(s)) == Ok(v, tail)
    ensures Skip(tail) == [']'] + rest ==> ParseItems(s) == Ok([v], rest)
    ensures forall more: cstring :: Skip(tail) == [','] + more && ParseItems(more) == Ok(vs, rest)
              ==> ParseItems(s) == Ok([v] + vs, rest)
  {
    var s1 := Skip(tail);
    if s1 == [']'] + rest {
      assert s1[1..] == rest;
    }
    forall more: cstring | s1 == [','] + more && ParseItems(more) == Ok(vs, rest)
      ensures ParseItems(s) == Ok([v] + vs, rest)
    {
      assert s1[1..] == more;
    }
  }

  lemma ParseMemberStep(s: cstring, name: cstring, colon: cstring, v: Json, tail: cstring)
    requires ParseString(Skip(s)) == Ok(name, [':'] + colon)
    requires ParseValue(Skip(colon)) == Ok(v, tail)
    ensures ParseMember(s) == Ok(Member(name, v), tail)
  {
    var s1 := [':'] + colon;
    assert Skip(s1) == s1 && s1[1..] == colon;
  }

  lemma ParseMembersStep(s: cstring, m: Member, tail: cstring, ms: seq<Member>, rest: cstring)
    requires ParseMember(s) == Ok(m, tail)
    ensures Skip(tail) == ['}'] + rest ==> ParseMembers(s) == Ok([m], rest)
    ensures forall more: cstring :: Skip(tail) == [','] + more && ParseMembers(more) == Ok(ms, rest)
              ==> ParseMembers(s) == Ok([m] + ms, rest)
  {
    var s1 := Skip(tail);
    if s1 == ['}'] + rest {
      assert s1[1..] == rest;
    }
    forall more: cstring | s1 == [','] + more && ParseMembers(more) == Ok(ms, rest)
      ensures ParseMembers(s) == Ok([m] + ms, rest)
    {
      assert s1[1..] == more;
    }
  }

  lemma ParseArrayStep(body: cstring, items: seq<Json>, rest: cstring)
    ensures Skip(body) == [']'] + rest ==> ParseValue(['['] + body) == Ok(Array([]), rest)
    ensures At(Skip(body), 0) != ']' && ParseItems(Skip(body)) == Ok(items, rest)
            ==> ParseValue(['['] + body) == Ok(Array(items), rest)
  {
    var s := ['['] + body;
    NotLiteral(s);
    assert s[1..] == body;
    if Skip(body) == [']'] + rest {
      assert Skip(body)[1..] == rest;
    }
  }

  lemma ParseObjectStep(body: cstring, ms: seq<Member>, rest: cstring)
    ensures Skip(body) == ['}'] + rest ==> ParseValue(['{'] + body) == Ok(Object([]), rest)
    ensures At(Skip(body), 0) != '}' && ParseMembers(Skip(body)) == Ok(ms, rest)
            ==> ParseValue(['{'] + body) == Ok(Object(ms), rest)
  {
    var s := ['{'] + body;
    NotLiteral(s);
    assert s[1..] == body;
    if Skip(body) == ['}'] + rest {
      assert Skip(body)[1..] == rest;
    }
  }

  // ----- the text of a member list, cut at its separators

  lemma SkipNewline(fmt: bool, s: cstring)
    ensures Skip(Newline(fmt) + s) == Skip(s)
  {
    if fmt {
      assert (Newline(fmt) + s)[1..] == s;
    } else {
      assert Newline(fmt) + s == s;
    }
  }

  lemma {:induction false} SkipIdempotent(s: string)
    ensures Skip(Skip(s)) == Skip(s)
  {
    if s != [] && IsBlank(s[0]) {
      SkipIdempotent(s[1..]);
    }
  }

  lemma ParseMembersSkips(s: cstring)
    ensures ParseMembers(Skip(s)) == ParseMembers(s)
  {
    SkipIdempotent(s);
    assert ParseMember(Skip(s)) == ParseMember(s);
  }

  // ----- the printed text, cut where the parser stops

  lemma TextStart(v: Json, depth: nat, fmt: bool, rest: cstring)
    requires AllInts(v)
    ensures Skip(Text(v, depth, fmt) + rest) == Text(v, depth, fmt) + rest
    ensures At(Text(v, depth, fmt) + rest, 0) !in [']', '}', '\0']
  {
    var s := Text(v, depth, fmt) + rest;
    assert s[0] == Text(v, depth, fmt)[0];
  }

  lemma ItemsStart(items: seq<Json>, depth: nat, fmt: bool, end: cstring)
    requires items != []
    requires AllInts(Array(items))
    ensures Skip(ItemsText(items, depth, fmt) + end) == ItemsText(items, depth, fmt) + end
    ensures At(ItemsText(items, depth, fmt) + end, 0) != ']'
  {
    hide Text;
    if |items| == 1 {
      TextStart(items[0], depth + 1, fmt, end);
    } else {
      ItemsCut(items, depth, fmt, end);
      TextStart(items[0], depth + 1, fmt, [','] + (Gap(fmt) + (ItemsText(items[1..], depth, fmt) + end)));
    }
  }

  lemma GapParses(fmt: bool, more: cstring)
    ensures ParseItems(Gap(fmt) + more) == ParseItems(more)
  {
    hide ParseValue, ParseString, ParseMembers, ParseMember;
    if fmt {
      assert (Gap(fmt) + more)[1..] == more;
    } else {
      assert Gap(fmt) + more == more;
    }
    assert Skip(Gap(fmt) + more) == Skip(more);
  }

  lemma SkipIndent(depth: nat, fmt: bool, s: cstring)
    ensures Skip(Indent(depth, fmt) + s) == Skip(s)
  {
    SkipTabs(if fmt then depth else 0, s);
  }

  lemma SkipTab(fmt: bool, s: cstring)
    ensures Skip(Tab(fmt) + s) == Skip(s)
  {
    if fmt {
      assert (Tab(fmt) + s)[1..] == s;
    } else {
      assert Tab(fmt) + s == s;
    }
  }

  /** White space in front of a member list ends at the quote of its first name. */
  lemma MembersStart(ms: seq<Member>, depth: nat, fmt: bool, end: cstring)
    requires ms != []
    requires AllInts(Object(ms))
    ensures At(Skip(MembersText(ms, depth, fmt) + end), 0) == '\"'
  {
    hide Text, MembersText, MemberHead, Indent;
    var m := ms[0];
    var tail := Newline(fmt) + end;
    if |ms| == 1 {
      LastMemberCut(ms, depth, fmt, end);
    } else {
      MembersCut(ms, depth, fmt, end);
      tail := [','] + (Newline(fmt) + (MembersText(ms[1..], depth, fmt) + end));
    }
    MemberCut(m, depth, fmt, tail);
    SkipIndent(depth, fmt, StringText(m.name) + ([':'] + (Tab(fmt) + (Text(m.value, depth, fmt) + tail))));
  }

  // ----- values

  lemma {:induction false} ValueRoundTrip(v: Json, depth: nat, fmt: bool, rest: cstring)
    requires AllInts(v)
    requires EndsNumber(rest)
    ensures ParseValue(Text(v, depth, fmt) + rest) == Ok(v, rest)
    decreases v, 1
  {
    match v
    case Array(items) => ArrayRoundTrip(items, depth, fmt, rest);
    case Object(ms) => ObjectRoundTrip(ms, depth, fmt, rest);
    case _ => ScalarRoundTrip(v, depth, fmt, rest);
  }

  lemma ScalarRoundTrip(v: Json, depth: nat, fmt: bool, rest: cstring)
    requires AllInts(v) && !v.Array? && !v.Object?
    requires EndsNumber(rest)
    ensures ParseValue(Text(v, depth, fmt) + rest) == Ok(v, rest)
  {
    var s := Text(v, depth, fmt) + rest;
    ParseLiteral(s, rest);
    match v
    case Number(d) =>
      NumberRoundTrip(d.Floor, rest);
      assert s[0] == IntText(d.Floor)[0];
      NotLiteral(s);
    case String(t) =>
      StringRoundTrip(t, rest);
      NotLiteral(s);
    case _ =>
  }

  lemma {:induction false} ArrayRoundTrip(items: seq<Json>, depth: nat, fmt: bool, rest: cstring)
    requires AllInts(Array(items))
    ensures ParseValue(Text(Array(items), depth, fmt) + rest) == Ok(Array(items), rest)
    decreases items, 1
  {
    hide ParseValue, ParseItems, Text;
    var body := ItemsText(items, depth, fmt) + ([']'] + rest);
    ArrayCut(items, depth, fmt, rest);
    ParseArrayStep(body, items, rest);
    if items == [] {
      assert body == [']'] + rest;
    } else {
      ItemsStart(items, depth, fmt, [']'] + rest);
      ItemsRoundTrip(items, depth, fmt, rest);
    }
  }

  lemma {:induction false} ItemsRoundTrip(items: seq<Json>, depth: nat, fmt: bool, rest: cstring)
    requires items != []
    requires AllInts(Array(items))
    ensures ParseItems(ItemsText(items, depth, fmt) + ([']'] + rest)) == Ok(items, rest)
    decreases items, 0
  {
    hide ParseValue, ParseItems, Text;
    var v := items[0];
    var end := [']'] + rest;
    var s := ItemsText(items, depth, fmt) + end;
    ItemsStart(items, depth, fmt, end);
    if |items| == 1 {
      ValueRoundTrip(v, depth + 1, fmt, end);
      ParseItemsStep(s, v, end, [], rest);
      assert items == [v];
    } else {
      var more := ItemsText(items[1..], depth, fmt) + end;
      var tail := [','] + (Gap(fmt) + more);
      ItemsCut(items, depth, fmt, end);
      ValueRoundTrip(v, depth + 1, fmt, tail);
      ItemsRoundTrip(items[1..], depth, fmt, rest);
      GapParses(fmt, more);
      ParseItemsStep(s, v, tail, items[1..], rest);
      assert items == [v] + items[1..];
    }
  }

  lemma {:induction false} ObjectRoundTrip(ms: seq<Member>, depth: nat, fmt: bool, rest: cstring)
    requires AllInts(Object(ms))
    ensures ParseValue(Text(Object(ms), depth, fmt) + rest) == Ok(Object(ms), rest)
    decreases ms, 2
  {
    hide ParseValue, ParseMembers, Text, MembersText;
    var close := ['}'] + rest;
    if ms == [] {
      EmptyObjectCut(depth, fmt, rest);
      var indent: nat := if depth == 0 then 0 else depth - 1;
      SkipIndent(indent, fmt, close);
      SkipNewline(fmt, Indent(indent, fmt) + close);
      ParseObjectStep(Newline(fmt) + (Indent(indent, fmt) + close), [], rest);
    } else {
      ObjectCut(ms, depth, fmt, rest);
      var end := Indent(depth, fmt) + close;
      var body := MembersText(ms, depth + 1, fmt) + end;
      SkipIndent(depth, fmt, close);
      MembersRoundTrip(ms, depth + 1, fmt, end, rest);
      MembersStart(ms, depth + 1, fmt, end);
      SkipNewline(fmt, body);
      ParseMembersSkips(body);
      ParseObjectStep(Newline(fmt) + body, ms, rest);
    }
  }

  lemma {:induction false} MemberRoundTrip(m: Member, depth: nat, fmt: bool, tail: cstring)
    requires AllInts(m.value)
    requires EndsNumber(tail)
    ensures ParseMember(MemberHead(m.name, depth, fmt) + Text(m.value, depth, fmt) + tail) == Ok(m, tail)
    decreases m, 2
  {
    hide ParseValue, ParseMember, ParseString, Text, MemberHead;
    var s := MemberHead(m.name, depth, fmt) + Text(m.value, depth, fmt) + tail;
    var value := Text(m.value, depth, fmt) + tail;
    var colon := Tab(fmt) + value;
    var name := StringText(m.name) + ([':'] + colon);
    MemberCut(m, depth, fmt, tail);
    SkipIndent(depth, fmt, name);
    StringRoundTrip(m.name, [':'] + colon);
    TextStart(m.value, depth, fmt, tail);
    SkipTab(fmt, value);
    ValueRoundTrip(m.value, depth, fmt, tail);
    ParseMemberStep(s, m.name, colon, m.value, tail);
  }

  lemma {:induction false} MembersRoundTrip(ms: seq<Member>, depth: nat, fmt: bool, end: cstring, rest: cstring)
    requires ms != []
    requires AllInts(Object(ms))
    requires EndsNumber(end) && Skip(end) == ['}'] + rest
    ensures ParseMembers(MembersText(ms, depth, fmt) + end) == Ok(ms, rest)
    decreases ms, 1
  {
    hide ParseMember, ParseMembers, Text, MemberHead, MembersText;
    var m := ms[0];
    var s := MembersText(ms, depth, fmt) + end;
    if |ms| == 1 {
      LastMemberCut(ms, depth, fmt, end);
      var tail := Newline(fmt) + end;
      SkipNewline(fmt, end);
      MemberRoundTrip(m, depth, fmt, tail);
      ParseMembersStep(s, m, tail, [], rest);
      assert ms == [m];
    } else {
      var more := MembersText(ms[1..], depth, fmt) + end;
      MembersCut(ms, depth, fmt, end);
      var tail := [','] + (Newline(fmt) + more);
      MemberRoundTrip(m, depth, fmt, tail);
      MembersRoundTrip(ms[1..], depth, fmt, end, rest);
      SkipNewline(fmt, more);
      ParseMembersSkips(Newline(fmt) + more);
      ParseMembersSkips(more);
      ParseMembersStep(s, m, tail, ms[1..], rest);
      assert ms == [m] + ms[1..];
    }
  }

  /** The law of the library: printing and parsing again changes nothing. */
  lemma PrintThenParse(v: Json, fmt: bool, requireEnd: bool)
    requires AllInts(v)
    ensures Parse(Text(v, 0, fmt), requireEnd) == Ok(v, [])
  {
    assert Text(v, 0, fmt) + [] == Text(v, 0, fmt);
    TextStart(v, 0, fmt, []);
    ValueRoundTrip(v, 0, fmt, []);
  }
}
