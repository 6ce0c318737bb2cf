/**
 Formatting, told without the tree: a reader that goes through the unformatted text and puts
 in line breaks, tabs and spaces writes the formatted text. And what the printer makes of
 single characters.
 */
module JsonPretty {
  import opened CText
  import opened JsonTree
  import opened JsonLayout
  import U = JsonUnicode

  // ----- escapes (section 7 of RFC 8259)

  /** Control characters by their letters, or else by four digits in small letters; quote and
      backslash behind a backslash; everything else as it is. */
  lemma EscapesOf(c: char)
    requires c != '\0'
    ensures c as int == 8 ==> EscapeChar(c) == "\\b"
    ensures c as int == 9 ==> EscapeChar(c) == "\\t"
    ensures c as int == 10 ==> EscapeChar(c) == "\\n"
    ensures c as int == 12 ==> EscapeChar(c) == "\\f"
    ensures c as int == 13 ==> EscapeChar(c) == "\\r"
    ensures c as int < 32 && c as int !in {8, 9, 10, 12, 13} ==>
              EscapeChar(c) == "\\u00" + [U.LOWER[c as int / 16], U.LOWER[c as int % 16]]
    ensures c in "\"\\" ==> EscapeChar(c) == ['\\', c]
    ensures c as int >= 32 && c !in "\"\\" ==> EscapeChar(c) == [c]
  {
  }

  // ----- the reader

  /** The rest of a string behind its first quote, and what follows it. */
  function Quoted(s: string): (r: (string, string))
    ensures |r.1| <= |s|
  {
    if s == "" then ("", "")
    else if s[0] == '\"' then ("\"", s[1..])
    else if s[0] == '\\' && |s| >= 2 then
      var (q, rest) := Quoted(s[2..]);
      (s[..2] + q, rest)
    else
      var (q, rest) := Quoted(s[1..]);
      ([s[0]] + q, rest)
  }

  function Tabs(n: nat): string {
    Repeat('\t', n)
  }

  /** What is written for a character outside strings. `open` holds the brackets that are
      open, the last one first. A brace starts a line with one more tab and ends one; a comma
      starts a line in an object and is followed by a space elsewhere; a tab stands behind a
      colon. */
  function Put(c: char, open: string): string {
    if c == '{' then "{\n" + Tabs(|open| + 1)
    else if c == '}' && open != "" then "\n" + Tabs(|open| - 1) + "}"
    else if c == ',' then if open != "" && open[0] == '{' then ",\n" + Tabs(|open|) else ", "
    else if c == ':' then ":\t"
    else [c]
  }

  function Brackets(c: char, open: string): string {
    if c in "{[" then [c] + open else if c in "}]" && open != "" then open[1..] else open
  }

  /** An empty object is closed one tab further left than other objects. */
  function Empty(open: string): string {
    "{\n" + Tabs(if open == "" then 0 else |open| - 1) + "}"
  }

  function Pretty(s: string, open: string): string
    decreases |s|
  {
    if s == "" then ""
    else if s[0] == '\"' then
      var (q, rest) := Quoted(s[1..]);
      "\"" + q + Pretty(rest, open)
    else if s[0] == '{' && At(s, 1) == '}' then Empty(open) + Pretty(s[2..], open)
    else Put(s[0], open) + Pretty(s[1..], Brackets(s[0], open))
  }

  // ----- one character of the unformatted text

  lemma OnePretty(c: char, rest: string, open: string)
    requires c != '\"' && !(c == '{' && At(rest, 0) == '}')
    ensures Pretty([c] + rest, open) == Put(c, open) + Pretty(rest, Brackets(c, open))
  {
    hide Put, Brackets;
    assert ([c] + rest)[1..] == rest;
  }

  lemma PlainOne(c: char, rest: string, open: string)
    requires c !in "\"{}[],:"
    ensures Pretty([c] + rest, open) == [c] + Pretty(rest, open)
  {
    hide Pretty, Tabs;
    OnePretty(c, rest, open);
  }

  lemma {:induction false} PlainPretty(w: string, rest: string, open: string)
    requires forall i :: 0 <= i < |w| ==> w[i] !in "\"{}[],:"
    ensures Pretty(w + rest, open) == w + Pretty(rest, open)
  {
    hide Pretty;
    if w == "" {
      assert w + rest == rest && w + Pretty(rest, open) == Pretty(rest, open);
    } else {
      PlainPretty(w[1..], rest, open);
      PlainOne(w[0], w[1..] + rest, open);
      assert w + rest == [w[0]] + (w[1..] + rest);
      assert [w[0]] + (w[1..] + Pretty(rest, open)) == w + Pretty(rest, open);
    }
  }

  lemma OpenArray(rest: string, open: string)
    ensures Pretty("[" + rest, open) == "[" + Pretty(rest, "[" + open)
  {
    hide Pretty;
    OnePretty('[', rest, open);
  }

  lemma CloseArray(rest: string, open: string)
    ensures Pretty("]" + rest, "[" + open) == "]" + Pretty(rest, open)
  {
    hide Pretty;
    OnePretty(']', rest, "[" + open);
    assert ("[" + open)[1..] == open;
  }

  lemma OpenObject(rest: string, open: string)
    requires At(rest, 0) != '}'
    ensures Pretty("{" + rest, open) == "{\n" + Tabs(|open| + 1) + Pretty(rest, "{" + open)
  {
    hide Pretty, Tabs;
    OnePretty('{', rest, open);
  }

  lemma CloseObject(rest: string, open: string)
    ensures Pretty("}" + rest, "{" + open) == "\n" + Tabs(|open|) + "}" + Pretty(rest, open)
  {
    hide Pretty, Tabs;
    OnePretty('}', rest, "{" + open);
    assert ("{" + open)[1..] == open;
  }

  lemma EmptyObject(rest: string, open: string)
    ensures Pretty("{}" + rest, open) == Empty(open) + Pretty(rest, open)
  {
    hide Empty;
    assert ("{}" + rest)[2..] == rest;
  }

  lemma PutComma(open: string)
    ensures Put(',', "[" + open) == ", " && Brackets(',', "[" + open) == "[" + open
    ensures Put(',', "{" + open) == ",\n" + Tabs(|open| + 1) && Brackets(',', "{" + open) == "{" + open
  {
    hide Tabs;
    assert ("[" + open)[0] == '[' && ("{" + open)[0] == '{';
    assert |"{" + open| == |open| + 1;
  }

  lemma Comma(rest: string, open: string)
    ensures Pretty("," + rest, "[" + open) == ", " + Pretty(rest, "[" + open)
    ensures Pretty("," + rest, "{" + open) == ",\n" + Tabs(|open| + 1) + Pretty(rest, "{" + open)
  {
    hide Pretty, Tabs, Put, Brackets;
    PutComma(open);
    OnePretty(',', rest, "[" + open);
    OnePretty(',', rest, "{" + open);
  }

  lemma Colon(rest: string, open: string)
    ensures Pretty(":" + rest, open) == ":\t" + Pretty(rest, open)
  {
    hide Pretty;
    OnePretty(':', rest, open);
  }

  // ----- strings

  lemma HexIsPlain(c: char)
    requires c != '\0' && |EscapeChar(c)| > 2
    ensures var e := EscapeChar(c); |e| == 6 && e[..2] == "\\u" && forall i :: 2 <= i < 6 ==> e[i] !in "\"\\"
  {
  }

  lemma PlainQuoted(c: char, t: string)
    requires c !in "\"\\"
    ensures Quoted([c] + t) == ([c] + Quoted(t).0, Quoted(t).1)
  {
    assert ([c] + t)[1..] == t;
  }

  lemma {:induction false} ControlQuoted(w: string, t: string)
    requires forall i :: 0 <= i < |w| ==> w[i] !in "\"\\"
    ensures Quoted(w + t) == (w + Quoted(t).0, Quoted(t).1)
  {
    hide Quoted;
    if w == "" {
      assert w + t == t && w + Quoted(t).0 == Quoted(t).0;
    } else {
      ControlQuoted(w[1..], t);
      PlainQuoted(w[0], w[1..] + t);
      assert w + t == [w[0]] + (w[1..] + t);
      assert [w[0]] + (w[1..] + Quoted(t).0) == w + Quoted(t).0;
    }
  }

  lemma EndQuoted(rest: string)
    ensures Quoted("\"" + rest) == ("\"", rest)
  {
    assert ("\"" + rest)[1..] == rest;
  }

  lemma PairQuoted(k: char, t: string)
    ensures Quoted(['\\', k] + t) == (['\\', k] + Quoted(t).0, Quoted(t).1)
  {
    assert (['\\', k] + t)[2..] == t && (['\\', k] + t)[..2] == ['\\', k];
  }

  lemma EscapeShapes(c: char)
    requires c != '\0'
    ensures var e := EscapeChar(c);
            || (|e| == 1 && e[0] !in "\"\\")
            || (|e| == 2 && e[0] == '\\')
            || (|e| == 6 && e[..2] == "\\u" && forall i :: 2 <= i < 6 ==> e[i] !in "\"\\")
  {
    if |EscapeChar(c)| > 2 {
      HexIsPlain(c);
    }
  }

  lemma EscapeQuoted(c: char, t: string)
    requires c != '\0'
    ensures Quoted(EscapeChar(c) + t) == (EscapeChar(c) + Quoted(t).0, Quoted(t).1)
  {
    hide Quoted, EscapeChar;
    var e := EscapeChar(c);
    EscapeShapes(c);
    if |e| == 1 {
      PlainQuoted(e[0], t);
      assert e == [e[0]];
    } else if |e| == 2 {
      PairQuoted(e[1], t);
      assert e == ['\\', e[1]];
    } else {
      ControlQuoted(e[2..], t);
      PairQuoted('u', e[2..] + t);
      assert e == "\\u" + e[2..];
      assert e + t == ['\\', 'u'] + (e[2..] + t);
      assert ['\\', 'u'] + (e[2..] + Quoted(t).0) == e + Quoted(t).0;
    }
  }

  lemma {:induction false} EscapedQuoted(s: cstring, rest: string)
    ensures Quoted(Escape(s) + ("\"" + rest)) == (Escape(s) + "\"", rest)
  {
    hide EscapeChar, Quoted;
    var end := "\"" + rest;
    if s == [] {
      EndQuoted(rest);
      assert Escape(s) + end == end && Escape(s) + "\"" == "\"";
    } else {
      EscapedQuoted(s[1..], rest);
      EscapeQuoted(s[0], Escape(s[1..]) + end);
      assert Escape(s) + end == EscapeChar(s[0]) + (Escape(s[1..]) + end);
      assert EscapeChar(s[0]) + (Escape(s[1..]) + "\"") == Escape(s) + "\"";
    }
  }

  lemma StringPretty(s: cstring, rest: string, open: string)
    ensures Pretty(StringText(s) + rest, open) == StringText(s) + Pretty(rest, open)
  {
    hide Escape, Quoted;
    EscapedQuoted(s, rest);
    var t := StringText(s) + rest;
    assert t[1..] == Escape(s) + ("\"" + rest);
    assert "\"" + (Escape(s) + "\"") + Pretty(rest, open) == StringText(s) + Pretty(rest, open);
  }

  lemma {:induction false} NatIsPlain(n: nat)
    ensures forall i :: 0 <= i < |NatText(n)| ==> NatText(n)[i] !in "\"{}[],:"
  {
  }

  lemma IntIsPlain(n: int)
    ensures forall i :: 0 <= i < |IntText(n)| ==> IntText(n)[i] !in "\"{}[],:"
  {
    hide NatText;
    NatIsPlain(if n < 0 then -n else n);
  }

  // ----- values

  /** Formatting a printed value is printing it formatted. */
  lemma {:induction false} ValuePretty(v: Json, rest: cstring, open: string)
    requires AllInts(v)
    ensures Pretty(Text(v, |open|, false) + rest, open) == Text(v, |open|, true) + Pretty(rest, open)
    decreases v, 1
  {
    match v
    case Null => PlainPretty(NULL_TEXT, rest, open);
    case False => PlainPretty(FALSE_TEXT, rest, open);
    case True => PlainPretty(TRUE_TEXT, rest, open);
    case Number(d) =>
      IntIsPlain(d.Floor);
      PlainPretty(IntText(d.Floor), rest, open);
    case String(s) => StringPretty(s, rest, open);
    case Array(items) => ArrayPretty(items, rest, open);
    case Object(ms) => ObjectPretty(ms, rest, open);
  }

  lemma {:induction false} ArrayPretty(items: seq<Json>, rest: cstring, open: string)
    requires AllInts(Array(items))
    ensures Pretty(Text(Array(items), |open|, false) + rest, open) ==
            Text(Array(items), |open|, true) + Pretty(rest, open)
    decreases items, 2
  {
    hide Pretty, ItemsText;
    var d := |open|;
    ArrayCut(items, d, false, rest);
    OpenArray(ItemsText(items, d, false) + ("]" + rest), open);
    ItemsPretty(items, rest, open);
    Regroup("[", ItemsText(items, d, true), "]", Pretty(rest, open), "");
  }

  lemma {:induction false} ItemsPretty(items: seq<Json>, rest: cstring, open: string)
    requires AllInts(Array(items))
    ensures Pretty(ItemsText(items, |open|, false) + ("]" + rest), "[" + open) ==
            ItemsText(items, |open|, true) + ("]" + Pretty(rest, open))
    decreases items, 0
  {
    hide Pretty, Text;
    var d, end, inner := |open|, "]" + rest, "[" + open;
    CloseArray(rest, open);
    if items == [] {
      assert ItemsText(items, d, false) + end == end;
      assert [] + ("]" + Pretty(rest, open)) == "]" + Pretty(rest, open);
    } else if |items| == 1 {
      ValuePretty(items[0], end, inner);
    } else {
      var more := ItemsText(items[1..], d, false) + end;
      ItemsPretty(items[1..], rest, open);
      ItemsCut(items, d, false, end);
      assert Gap(false) + more == more;
      ValuePretty(items[0], "," + more, inner);
      Comma(more, open);
      ManyItems(Text(items[0], d + 1, true), ItemsText(items[1..], d, true), "]" + Pretty(rest, open));
    }
  }

  lemma ManyItems(a: string, b: string, end: string)
    ensures a + [','] + Gap(true) + b + end == a + (", " + (b + end))
  {
  }

  lemma {:induction false} ObjectPretty(ms: seq<Member>, rest: cstring, open: string)
    requires AllInts(Object(ms))
    ensures Pretty(Text(Object(ms), |open|, false) + rest, open) == Text(Object(ms), |open|, true) + Pretty(rest, open)
    decreases ms, 2
  {
    hide Pretty, MembersText;
    var d, after := |open|, Pretty(rest, open);
    if ms == [] {
      assert Text(Object(ms), d, false) + rest == "{}" + rest;
      EmptyObject(rest, open);
      EmptyText(if d == 0 then 0 else d - 1, after);
    } else {
      var body := MembersText(ms, d + 1, false) + ("}" + rest);
      Unformatted(ms, d, rest);
      MembersQuote(ms, d + 1, "}" + rest);
      OpenObject(body, open);
      MembersPretty(ms, rest, open);
      FullText(Tabs(d + 1), Pretty(body, "{" + open), MembersText(ms, d + 1, true), Indent(d, true), after);
    }
  }

  lemma EmptyText(n: nat, after: string)
    ensures ['{'] + Newline(true) + Indent(n, true) + ['}'] + after == "{\n" + Tabs(n) + "}" + after
  {
  }

  lemma Unformatted(ms: seq<Member>, d: nat, rest: cstring)
    requires ms != [] && AllInts(Object(ms))
    ensures Text(Object(ms), d, false) + rest == "{" + (MembersText(ms, d + 1, false) + ("}" + rest))
  {
    hide MembersText;
    ObjectCut(ms, d, false, rest);
    var end := "}" + rest;
    assert Indent(d, false) + end == end;
    assert Newline(false) + (MembersText(ms, d + 1, false) + end) == MembersText(ms, d + 1, false) + end;
  }

  lemma MembersQuote(ms: seq<Member>, n: nat, end: cstring)
    requires ms != [] && AllInts(Object(ms))
    ensures var t := MembersText(ms, n, false) + end; t != [] && t[0] == '\"'
  {
    hide Text, Escape;
    assert MemberHead(ms[0].name, n, false)[0] == '\"';
  }

  lemma FullText(tabs: string, inner: string, members: string, indent: string, after: string)
    requires tabs + inner == members + (indent + ("}" + after))
    ensures "{\n" + tabs + inner == ['{'] + Newline(true) + members + indent + ['}'] + after
  {
    assert "{\n" + tabs + inner == "{\n" + (tabs + inner);
  }

  lemma HeadPretty(name: cstring, n: nat, t: cstring, open: string)
    ensures Tabs(n) + Pretty(MemberHead(name, n, false) + t, open) == MemberHead(name, n, true) + Pretty(t, open)
  {
    hide Pretty, StringText;
    var after := Pretty(t, open);
    assert MemberHead(name, n, false) + t == StringText(name) + (":" + t);
    StringPretty(name, ":" + t, open);
    Colon(t, open);
    assert Tabs(n) + (StringText(name) + (":\t" + after)) == Tabs(n) + StringText(name) + [':'] + Tab(true) + after;
  }

  lemma {:induction false} MembersPretty(ms: seq<Member>, rest: cstring, open: string)
    requires ms != [] && AllInts(Object(ms))
    ensures var d := |open|;
            Tabs(d + 1) + Pretty(MembersText(ms, d + 1, false) + ("}" + rest), "{" + open) ==
            MembersText(ms, d + 1, true) + (Indent(d, true) + ("}" + Pretty(rest, open)))
    decreases ms, 0
  {
    hide Pretty, Text, MemberHead;
    var d, m, inner := |open|, ms[0], "{" + open;
    var end, after := "}" + rest, Indent(d, true) + ("}" + Pretty(rest, open));
    var head, value := MemberHead(m.name, d + 1, true), Text(m.value, d + 1, true);
    var more := MembersText(ms[1..], d + 1, false) + end;
    var tail := if |ms| == 1 then end else "," + more;
    MembersFirst(ms, d + 1, end, tail);
    HeadPretty(m.name, d + 1, Text(m.value, d + 1, false) + tail, inner);
    ValuePretty(m.value, tail, inner);
    if |ms| == 1 {
      CloseObject(rest, open);
      LastMember(head, value, Tabs(d), Pretty(rest, open));
    } else {
      MembersPretty(ms[1..], rest, open);
      Comma(more, open);
      NextMember(head, value, Tabs(d + 1), Pretty(more, inner), MembersText(ms[1..], d + 1, true), after);
    }
  }

  lemma MembersFirst(ms: seq<Member>, n: nat, end: cstring, tail: cstring)
    requires ms != [] && AllInts(Object(ms))
    requires tail == if |ms| == 1 then end else "," + (MembersText(ms[1..], n, false) + end)
    ensures MembersText(ms, n, false) + end == MemberHead(ms[0].name, n, false) + (Text(ms[0].value, n, false) + tail)
  {
    hide Text, MemberHead, MembersText;
    var head, value := MemberHead(ms[0].name, n, false), Text(ms[0].value, n, false);
    NoLayout(end);
    if |ms| == 1 {
      LastMemberCut(ms, n, false, end);
    } else {
      MembersCut(ms, n, false, end);
      NoLayout(MembersText(ms[1..], n, false) + end);
    }
    RegroupEnd(head, value, tail);
  }

  lemma NoLayout(t: string)
    ensures Newline(false) + t == t
  {
  }

  lemma LastMember(head: string, value: string, indent: string, after: string)
    ensures head + (value + ("\n" + indent + "}" + after)) ==
            head + value + MemberTail(true, true) + [] + (indent + ("}" + after))
  {
  }

  lemma NextMember(head: string, value: string, tabs: string, inner: string, members: string, after: string)
    requires tabs + inner == members + after
    ensures head + (value + (",\n" + tabs + inner)) == head + value + MemberTail(false, true) + members + after
  {
    assert ",\n" + tabs + inner == ",\n" + (tabs + inner);
  }

  /** The formatted text of a tree is its unformatted text, formatted. */
  lemma PrettyIsFormatted(v: Json)
    requires AllInts(v)
    ensures Pretty(Text(v, 0, false), "") == Text(v, 0, true)
  {
    hide Text;
    ValuePretty(v, [], "");
    assert Text(v, 0, false) + [] == Text(v, 0, false) && Text(v, 0, true) + Pretty([], "") == Text(v, 0, true);
  }
}
