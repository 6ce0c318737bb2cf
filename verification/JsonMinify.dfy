/**
 cJSON_Minify: what it makes of a text, its in-place loop, and the theorem that
 minifying a formatted print gives the unformatted print of the same tree.
 */
module JsonMinify {
  import opened CText
  import opened JsonTree

  /** The minified text; `Overrun` means that the loop steps past the terminator,
      which it does for an unterminated string or block comment. */
  datatype Minified = Minified(text: string) | Overrun

  function Prepend(p: string, m: Minified): Minified {
    if m.Overrun? then m else Minified(p + m.text)
  }

  predicate IsMinifySpace(c: char) {
    c in " \t\r\n"
  }

  /** How far a string literal reaches behind its opening quote, closing quote
      included; |s| + 1 when the copying loop would pass the terminator. */
  function StringSpan(s: string): (n: nat)
    ensures 0 < n <= |s| + 1
  {
    if s == [] then 1
    else if s[0] == '\"' then 1
    else if s[0] == '\\' then (if |s| == 1 then 2 else 2 + StringSpan(s[2..]))
    else 1 + StringSpan(s[1..])
  }

  function LineSpan(s: string): (n: nat)
    ensures n <= |s|
  {
    if s == [] || s[0] == '\n' then 0 else 1 + LineSpan(s[1..])
  }

  /** How far a block comment reaches, its end mark included; beyond |s| when
      there is no end mark. */
  function BlockSpan(s: string): (n: nat)
    ensures 2 <= n <= |s| + 2
  {
    if s == [] || (s[0] == '*' && At(s, 1) == '/') then 2 else 1 + BlockSpan(s[1..])
  }

  function Minify(s: string): Minified
    decreases |s|
  {
    if s == [] then Minified([])
    else if IsMinifySpace(s[0]) then Minify(s[1..])
    else if s[0] == '/' && At(s, 1) == '/' then LineSpanPositive(s); Minify(s[LineSpan(s)..])
    else if s[0] == '/' && At(s, 1) == '*' then
      (if BlockSpan(s) > |s| then Overrun else Minify(s[BlockSpan(s)..]))
    else if s[0] == '\"' then
      var n := 1 + StringSpan(s[1..]);
      if n > |s| then Overrun else Prepend(s[..n], Minify(s[n..]))
    else Prepend([s[0]], Minify(s[1..]))
  }

  lemma LineSpanPositive(s: string)
    ensures s != [] && s[0] != '\n' ==> LineSpan(s) > 0
  {
  }

  // ----- pieces of printed text

  lemma {:induction false} MinifyBlanks(w: string, rest: string)
    requires forall i :: 0 <= i < |w| ==> IsMinifySpace(w[i])
    ensures Minify(w + rest) == Minify(rest)
  {
    if w == [] {
      assert w + rest == rest;
    } else {
      assert (w + rest)[1..] == w[1..] + rest;
      MinifyBlanks(w[1..], rest);
    }
  }

  predicate IsPlain(c: char) {
    !IsMinifySpace(c) && c != '/' && c != '\"'
  }

  lemma {:induction false} MinifyPlain(p: string, rest: string)
    requires forall i :: 0 <= i < |p| ==> IsPlain(p[i])
    ensures Minify(p + rest) == Prepend(p, Minify(rest))
  {
    if p == [] {
      assert p + rest == rest;
      assert Minify(rest).Minified? ==> p + Minify(rest).text == Minify(rest).text;
    } else {
      assert (p + rest)[1..] == p[1..] + rest;
      MinifyPlain(p[1..], rest);
      assert p == [p[0]] + p[1..];
      assert Minify(rest).Minified? ==> [p[0]] + (p[1..] + Minify(rest).text) == p + Minify(rest).text;
    }
  }

  lemma EscapeCharSpan(c: char, t: string)
    requires c != '\0'
    ensures StringSpan(EscapeChar(c) + t) == |EscapeChar(c)| + StringSpan(t)
  {
    hide HexDigit;
    if c >= ' ' && c != '\"' && c != '\\' {
      assert (EscapeChar(c) + t)[1..] == t;
    } else if |EscapeChar(c)| == 2 {
      PairSpan(EscapeChar(c)[1], t);
      assert EscapeChar(c) == ['\\', EscapeChar(c)[1]];
    } else {
      HexDigitsSpan(c, t);
    }
  }

  lemma PairSpan(k: char, t: string)
    ensures StringSpan(['\\', k] + t) == 2 + StringSpan(t)
  {
    assert (['\\', k] + t)[2..] == t;
  }

  lemma HexDigitsSpan(c: char, t: string)
    requires c < ' '
    ensures StringSpan("\\u00" + [HexDigit(c as int / 16), HexDigit(c as int % 16)] + t) == 6 + StringSpan(t)
  {
    var a, b := HexDigit(c as int / 16), HexDigit(c as int % 16);
    var hex := "00" + [a, b];
    PlainSpan(hex, t);
    PairSpan('u', hex + t);
    assert "\\u00" + [a, b] + t == ['\\', 'u'] + (hex + t);
  }

  lemma {:induction false} PlainSpan(p: string, t: string)
    requires forall i :: 0 <= i < |p| ==> p[i] != '\"' && p[i] != '\\'
    ensures StringSpan(p + t) == |p| + StringSpan(t)
  {
    if p == [] {
      assert p + t == t;
    } else {
      PlainSpan(p[1..], t);
      assert (p + t)[1..] == p[1..] + t;
    }
  }

  lemma {:induction false} EscapeSpan(s: cstring, rest: string)
    ensures StringSpan(Escape(s) + (['\"'] + rest)) == |Escape(s)| + 1
  {
    hide EscapeChar;
    if s == [] {
      assert Escape(s) + (['\"'] + rest) == ['\"'] + rest;
    } else {
      EscapeSpan(s[1..], rest);
      EscapeCharSpan(s[0], Escape(s[1..]) + (['\"'] + rest));
      assert Escape(s) + (['\"'] + rest) == EscapeChar(s[0]) + (Escape(s[1..]) + (['\"'] + rest));
    }
  }

  lemma MinifyQuoted(s: string, rest: string)
    requires StringSpan(s + rest) == |s|
    ensures Minify(['\"'] + s + rest) == Prepend(['\"'] + s, Minify(rest))
  {
    hide StringSpan;
    var t := ['\"'] + s + rest;
    assert t[1..] == s + rest;
    assert t[..1 + |s|] == ['\"'] + s;
    assert t[1 + |s|..] == rest;
  }

  lemma MinifyString(s: cstring, rest: string)
    ensures Minify(StringText(s) + rest) == Prepend(StringText(s), Minify(rest))
  {
    hide StringSpan, Escape, Minify, Prepend;
    var body := Escape(s) + ['\"'];
    EscapeSpan(s, rest);
    assert body + rest == Escape(s) + (['\"'] + rest);
    MinifyQuoted(body, rest);
    assert ['\"'] + body == StringText(s);
  }

  // ----- values

  /** Wherever `a` stands, minifying turns it into `b` and goes on behind it. */
  ghost predicate Shrinks(a: string, b: string) {
    forall rest :: Minify(a + rest) == Prepend(b, Minify(rest))
  }

  lemma Compose(a: string, b: string, a': string, b': string)
    requires Shrinks(a, b) && Shrinks(a', b')
    ensures Shrinks(a + a', b + b')
  {
    hide Minify;
    forall rest ensures Minify(a + a' + rest) == Prepend(b + b', Minify(rest)) {
      assert a + a' + rest == a + (a' + rest);
      assert Minify(a + (a' + rest)) == Prepend(b, Prepend(b', Minify(rest)));
      if Minify(rest).Minified? {
        assert b + (b' + Minify(rest).text) == b + b' + Minify(rest).text;
      }
    }
  }

  lemma ShrinksPlain(p: string)
    requires forall i :: 0 <= i < |p| ==> IsPlain(p[i])
    ensures Shrinks(p, p)
  {
    forall rest ensures Minify(p + rest) == Prepend(p, Minify(rest)) {
      MinifyPlain(p, rest);
    }
  }

  lemma ShrinksBlanks(w: string)
    requires forall i :: 0 <= i < |w| ==> IsMinifySpace(w[i])
    ensures Shrinks(w, [])
  {
    forall rest ensures Minify(w + rest) == Prepend([], Minify(rest)) {
      MinifyBlanks(w, rest);
      assert Minify(rest).Minified? ==> [] + Minify(rest).text == Minify(rest).text;
    }
  }

  lemma ShrinksString(s: cstring)
    ensures Shrinks(StringText(s), StringText(s))
  {
    forall rest ensures Minify(StringText(s) + rest) == Prepend(StringText(s), Minify(rest)) {
      MinifyString(s, rest);
    }
  }

  /** A printed text, formatted or not, shrinks to the unformatted text of the
      same value, and the nesting levels do not matter. */
  lemma {:induction false} ValueShrinks(v: Json, depth: nat, fmt: bool, depth': nat)
    requires AllInts(v)
    ensures Shrinks(Text(v, depth, fmt), Text(v, depth', false))
    decreases v, 1
  {
    hide Shrinks;
    match v
    case String(s) => ShrinksString(s);
    case Array(items) =>
      ShrinksPlain("[");
      ItemsShrink(items, depth, fmt, depth');
      Compose("[", "[", ItemsText(items, depth, fmt), ItemsText(items, depth', false));
      ShrinksPlain("]");
      Compose("[" + ItemsText(items, depth, fmt), "[" + ItemsText(items, depth', false), "]", "]");
    case Object(ms) => ObjectShrinks(ms, depth, fmt, depth');
    case _ => ShrinksPlain(Text(v, depth, fmt));
  }

  lemma {:induction false} ItemsShrink(items: seq<Json>, depth: nat, fmt: bool, depth': nat)
    requires AllInts(Array(items))
    ensures Shrinks(ItemsText(items, depth, fmt), ItemsText(items, depth', false))
    decreases items, 0
  {
    hide Shrinks, Text;
    if items == [] {
      ShrinksPlain([]);
    } else {
      var a, b := Text(items[0], depth + 1, fmt), Text(items[0], depth' + 1, false);
      ValueShrinks(items[0], depth + 1, fmt, depth' + 1);
      if |items| > 1 {
        ItemsShrink(items[1..], depth, fmt, depth');
        ShrinksPlain(",");
        ShrinksBlanks(Gap(fmt));
        Compose(a, b, ",", ",");
        Compose(a + ",", b + ",", Gap(fmt), []);
        Compose(a + "," + Gap(fmt), b + "," + [], ItemsText(items[1..], depth, fmt),
                ItemsText(items[1..], depth', false));
      }
    }
  }

  lemma IndentShrinks(depth: nat, fmt: bool, depth': nat)
    ensures Shrinks(Indent(depth, fmt), Indent(depth', false))
    ensures Shrinks(Newline(fmt), Newline(false))
    ensures Shrinks(Tab(fmt), Tab(false))
  {
    ShrinksBlanks(Indent(depth, fmt));
    ShrinksBlanks(Newline(fmt));
    ShrinksBlanks(Tab(fmt));
  }

  lemma {:induction false} ObjectShrinks(ms: seq<Member>, depth: nat, fmt: bool, depth': nat)
    requires AllInts(Object(ms))
    ensures Shrinks(Text(Object(ms), depth, fmt), Text(Object(ms), depth', false))
    decreases ms, 1
  {
    hide Shrinks, MembersText, Indent, Newline;
    var d, d' := depth, depth';
    var body, body' := [], [];
    if ms == [] {
      d, d' := if depth == 0 then 0 else depth - 1, if depth' == 0 then 0 else depth' - 1;
    } else {
      body, body' := MembersText(ms, depth + 1, fmt), MembersText(ms, depth' + 1, false);
      MembersShrink(ms, depth + 1, fmt, depth' + 1);
    }
    IndentShrinks(d, fmt, d');
    ShrinksPlain("{");
    ShrinksPlain("}");
    Compose("{", "{", Newline(fmt), Newline(false));
    var open, open' := "{" + Newline(fmt), "{" + Newline(false);
    if ms != [] {
      Compose(open, open', body, body');
      open, open' := open + body, open' + body';
    }
    Compose(open, open', Indent(d, fmt), Indent(d', false));
    Compose(open + Indent(d, fmt), open' + Indent(d', false), "}", "}");
  }

  lemma {:induction false} MembersShrink(ms: seq<Member>, depth: nat, fmt: bool, depth': nat)
    requires AllInts(Object(ms))
    ensures Shrinks(MembersText(ms, depth, fmt), MembersText(ms, depth', false))
    decreases ms, 0
  {
    hide Shrinks, Text, MemberHead, MemberTail;
    if ms == [] {
      ShrinksPlain([]);
    } else {
      var m := ms[0];
      var last := |ms| == 1;
      HeadShrinks(m.name, depth, fmt, depth');
      ValueShrinks(m.value, depth, fmt, depth');
      TailShrinks(last, fmt);
      MembersShrink(ms[1..], depth, fmt, depth');
      var a, b := MemberHead(m.name, depth, fmt), MemberHead(m.name, depth', false);
      Compose(a, b, Text(m.value, depth, fmt), Text(m.value, depth', false));
      a, b := a + Text(m.value, depth, fmt), b + Text(m.value, depth', false);
      Compose(a, b, MemberTail(last, fmt), MemberTail(last, false));
      a, b := a + MemberTail(last, fmt), b + MemberTail(last, false);
      Compose(a, b, MembersText(ms[1..], depth, fmt), MembersText(ms[1..], depth', false));
    }
  }

  lemma HeadShrinks(name: cstring, depth: nat, fmt: bool, depth': nat)
    ensures Shrinks(MemberHead(name, depth, fmt), MemberHead(name, depth', false))
  {
    hide Shrinks, StringText, Indent, Tab;
    IndentShrinks(depth, fmt, depth');
    ShrinksString(name);
    ShrinksPlain(":");
    var a, b := Indent(depth, fmt), Indent(depth', false);
    Compose(a, b, StringText(name), StringText(name));
    a, b := a + StringText(name), b + StringText(name);
    Compose(a, b, ":", ":");
    Compose(a + ":", b + ":", Tab(fmt), Tab(false));
  }

  lemma TailShrinks(last: bool, fmt: bool)
    ensures Shrinks(MemberTail(last, fmt), MemberTail(last, false))
  {
    hide Shrinks;
    IndentShrinks(0, fmt, 0);
    var comma := if last then [] else ",";
    ShrinksPlain(comma);
    Compose(comma, comma, Newline(fmt), Newline(false));
  }

  /** Minifying a print of a tree gives its unformatted print (which minifying
      therefore leaves alone). */
  lemma MinifyText(v: Json, fmt: bool)
    requires AllInts(v)
    ensures Minify(Text(v, 0, fmt)) == Minified(Text(v, 0, false))
  {
    ValueShrinks(v, 0, fmt, 0);
    var t, u := Text(v, 0, fmt), Text(v, 0, false);
    assert Minify(t + []) == Prepend(u, Minify([]));
    assert t + [] == t && u + [] == u;
  }

  // ----- the loop

  /** From index p on, the buffer still holds `left` and its terminator. */
  ghost predicate Unread(json: array<char>, p: nat, left: string)
    reads json
  {
    && NoNul(left)
    && p + |left| < json.Length
    && (forall i :: 0 <= i < |left| ==> json[p + i] == left[i])
    && json[p + |left|] == '\0'
  }

  lemma UnreadHead(json: array<char>, p: nat, left: string)
    requires Unread(json, p, left)
    ensures p + |left| < json.Length && json[p] == At(left, 0)
    ensures json[p] == '\0' <==> left == []
  {
    if left != [] {
      assert left[0] in left && json[p + 0] == left[0];
    }
  }

  lemma UnreadNext(json: array<char>, p: nat, left: string)
    requires Unread(json, p, left) && left != []
    ensures Unread(json, p + 1, left[1..])
    ensures json[p] == left[0] && json[p + 1] == At(left, 1)
  {
    assert json[p + 0] == left[0];
    forall i | 0 <= i < |left| - 1 ensures json[p + 1 + i] == left[1..][i] {
      assert json[p + (i + 1)] == left[i + 1];
    }
    if |left| > 1 {
      assert json[p + 1 + 0] == left[1..][0];
    }
  }

  method SkipLineComment(json: array<char>, start: nat, ghost s: string) returns (p: nat)
    requires Unread(json, start, s)
    ensures p == start + LineSpan(s) && Unread(json, p, s[LineSpan(s)..])
  {
    p := start;
    ghost var left := s;
    while json[p] != '\0' && json[p] != '\n'
      invariant start <= p && p - start + |left| == |s| && left == s[p - start..]
      invariant Unread(json, p, left)
      invariant LineSpan(s) == p - start + LineSpan(left)
      decreases |left|
    {
      left := left[1..];
      p := p + 1;
    }
  }

  method SkipBlockComment(json: array<char>, start: nat, ghost s: string) returns (p: nat)
    requires Unread(json, start, s)
    requires BlockSpan(s) <= |s|
    ensures p == start + BlockSpan(s) && Unread(json, p, s[BlockSpan(s)..])
  {
    p := start;
    ghost var left := s;
    while json[p] != '\0' && !(json[p] == '*' && json[p + 1] == '/')
      invariant start <= p && p - start + |left| == |s| && left == s[p - start..]
      invariant Unread(json, p, left)
      invariant BlockSpan(s) == p - start + BlockSpan(left)
      decreases |left|
    {
      left := left[1..];
      p := p + 1;
    }
    p := p + 2;
  }

  /** Beyond index n nothing has changed. */
  twostate predicate TailKept(json: array<char>, n: nat)
    reads json
  {
    forall i :: n < i < json.Length ==> json[i] == old(json[i])
  }

  /** Copies one character down and moves both pointers. */
  method CopyChar(json: array<char>, into: nat, p: nat, ghost out: string, ghost left: string)
    returns (into': nat, p': nat)
    requires into == |out| && into <= p && Written(json, out)
    requires Unread(json, p, left) && left != []
    modifies json
    ensures into' == into + 1 && p' == p + 1
    ensures Written(json, out + [left[0]]) && Unread(json, p', left[1..])
    ensures TailKept(json, p)
  {
    json[into] := json[p];
    into', p' := into + 1, p + 1;
  }

  /** Copies a string literal, both quotes included. */
  method CopyLiteral(json: array<char>, from: nat, start: nat, ghost out: string, ghost s: string)
    returns (into: nat, p: nat)
    requires from == |out| && from <= start && Written(json, out)
    requires Unread(json, start, s)
    requires s != [] && s[0] == '\"' && 1 + StringSpan(s[1..]) <= |s|
    modifies json
    ensures var n := 1 + StringSpan(s[1..]);
            p == start + n && into == from + n && Written(json, out + s[..n]) && Unread(json, p, s[n..])
    ensures TailKept(json, start + |s|)
  {
    ghost var done, left, n := [s[0]], s[1..], 1 + StringSpan(s[1..]);
    into, p := CopyChar(json, from, start, out, s);
    while json[p] != '\0' && json[p] != '\"'
      invariant s == done + left && p == start + |done| && into == from + |done|
      invariant Written(json, out + done) && Unread(json, p, left)
      invariant TailKept(json, start + |s|)
      invariant n == |done| + StringSpan(left)
      decreases |left|
    {
      if json[p] == '\\' {
        assert StringSpan(left) == 2 + StringSpan(left[1..][1..]);
        into, p := CopyChar(json, into, p, out + done, left);
        done, left := Advance(s, done, left, out);
      }
      into, p := CopyChar(json, into, p, out + done, left);
      done, left := Advance(s, done, left, out);
    }
    into, p := CopyChar(json, into, p, out + done, left);
    done, left := Advance(s, done, left, out);
    assert s[..n] == done && s[n..] == left;
  }

  lemma Advance(s: string, done: string, left: string, out: string) returns (done': string, left': string)
    requires s == done + left && left != []
    ensures done' == done + [left[0]] && left' == left[1..]
    ensures s == done' + left' && out + done' == out + done + [left[0]]
  {
    done', left' := done + [left[0]], left[1..];
    assert out + done' == out + done + [left[0]];
  }

  /** Minifies the C string at the start of `json` in place. A text on which the
      loop would pass the terminator is the caller's error. */
  method MinifyInPlace(json: array<char>, ghost text: string)
    requires Unread(json, 0, text)
    requires Minify(text).Minified?
    modifies json
    ensures Holds(json, Minify(text).text)
    ensures TailKept(json, |text|)
  {
    hide StringSpan, LineSpan, BlockSpan, Minify, Unread;
    MinifyEmpty();
    UnreadHead(json, 0, text);
    var into, p := 0, 0;
    ghost var out, left := [], text;
    PrependNothing(Minify(text));
    while json[p] != '\0'
      invariant into == |out| && into <= p && p + |left| == |text|
      invariant Written(json, out) && Unread(json, p, left)
      invariant p + |left| < json.Length && (json[p] == '\0' <==> left == [])
      invariant Minify(text) == Prepend(out, Minify(left))
      invariant TailKept(json, |text|)
      decreases |left|
    {
      MinifyStep(out, left);
      UnreadNext(json, p, left);
      if json[p] == ' ' {
        p := p + 1;
        left := left[1..];
      } else if json[p] == '\t' {
        p := p + 1;
        left := left[1..];
      } else if json[p] == '\r' {
        p := p + 1;
        left := left[1..];
      } else if json[p] == '\n' {
        p := p + 1;
        left := left[1..];
      } else if json[p] == '/' && json[p + 1] == '/' {
        p := SkipLineComment(json, p, left);
        left := left[LineSpan(left)..];
      } else if json[p] == '/' && json[p + 1] == '*' {
        p := SkipBlockComment(json, p, left);
        left := left[BlockSpan(left)..];
      } else if json[p] == '\"' {
        ghost var n := 1 + StringSpan(left[1..]);
        into, p := CopyLiteral(json, into, p, out, left);
        out, left := out + left[..n], left[n..];
      } else {
        into, p := CopyChar(json, into, p, out, left);
        out, left := out + [left[0]], left[1..];
      }
      UnreadHead(json, p, left);
    }
    assert out + [] == out;
    json[into] := '\0';
  }

  lemma MinifyEmpty()
    ensures Minify([]) == Minified([])
  {
  }

  lemma PrependNothing(m: Minified)
    ensures Prepend([], m) == m
  {
    if m.Minified? {
      assert [] + m.text == m.text;
    }
  }

  /** What one turn of the loop does, for output `out` written so far. */
  lemma MinifyStep(out: string, s: string)
    requires s != [] && Minify(s).Minified?
    ensures
      if IsMinifySpace(s[0]) then Minify(s) == Minify(s[1..])
      else if s[0] == '/' && At(s, 1) == '/' then 0 < LineSpan(s) && Minify(s) == Minify(s[LineSpan(s)..])
      else if s[0] == '/' && At(s, 1) == '*' then BlockSpan(s) <= |s| && Minify(s) == Minify(s[BlockSpan(s)..])
      else if s[0] == '\"' then
        var n := 1 + StringSpan(s[1..]);
        n <= |s| && Prepend(out, Minify(s)) == Prepend(out + s[..n], Minify(s[n..]))
      else Prepend(out, Minify(s)) == Prepend(out + [s[0]], Minify(s[1..]))
  {
    LineSpanPositive(s);
    if s[0] == '\"' {
      var n := 1 + StringSpan(s[1..]);
      PrependTwice(out, s[..n], Minify(s[n..]));
    } else {
      PrependTwice(out, [s[0]], Minify(s[1..]));
    }
  }

  lemma PrependTwice(a: string, b: string, m: Minified)
    ensures Prepend(a, Prepend(b, m)) == Prepend(a + b, m)
  {
    if m.Minified? {
      assert a + (b + m.text) == a + b + m.text;
    }
  }
}
