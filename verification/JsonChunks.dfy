/**
 What cJSON_Minify keeps and what it drops, told by the parts that a text consists of: white
 space, comments of both kinds, strings and single characters.
 */
module JsonChunks {
  import opened CText
  import opened JsonMinify

  /** A string is given by its units: single characters, and pairs behind a backslash. Block
      holds what stands behind the slash of a comment. */
  datatype Chunk =
    | White(c: char)
    | Line(body: string)
    | Block(u: string)
    | Quoted(units: seq<string>)
    | Other(c: char)
  {
    function Text(): string {
      match this
      case White(c) => [c]
      case Line(body) => "//" + body
      case Block(u) => "/" + u
      case Quoted(units) => "\"" + Join(units) + "\""
      case Other(c) => [c]
    }

    /** White space and comments go, all else stays. */
    function Kept(): string {
      if White? || Line? || Block? then "" else Text()
    }

    /** The chunk is one in front of this text. A line comment ends at a line break, which is
        not part of it; a slash alone starts no comment. */
    predicate ValidAt(rest: string) {
      match this
      case White(c) => c in " \t\r\n"
      case Line(body) => '\n' !in body && (rest == "" || rest[0] == '\n')
      case Block(u) => u != "" && u[0] == '*' && EndsFirst(u)
      case Quoted(units) => forall i :: 0 <= i < |units| ==> IsUnit(units[i])
      case Other(c) => c !in " \t\r\n\"" && (c == '/' ==> At(rest, 0) != '/' && At(rest, 0) != '*')
    }
  }

  predicate IsUnit(w: string) {
    (|w| == 1 && w[0] !in "\"\\") || (|w| == 2 && w[0] == '\\')
  }

  function Join(units: seq<string>): string {
    if units == [] then "" else units[0] + Join(units[1..])
  }

  /** The end mark of a block comment stands at the end, and nowhere before. The star of its
      start may already be that of its end. */
  predicate EndsFirst(u: string) {
    && |u| >= 2 && u[|u| - 2..] == "*/"
    && forall i :: 0 <= i < |u| - 2 ==> !(u[i] == '*' && u[i + 1] == '/')
  }

  function TextOf(cs: seq<Chunk>): string {
    if cs == [] then "" else cs[0].Text() + TextOf(cs[1..])
  }

  function KeptOf(cs: seq<Chunk>): string {
    if cs == [] then "" else cs[0].Kept() + KeptOf(cs[1..])
  }

  predicate Valid(cs: seq<Chunk>) {
    cs != [] ==> cs[0].ValidAt(TextOf(cs[1..])) && Valid(cs[1..])
  }

  // ----- how far a chunk reaches

  lemma {:induction false} LineReaches(body: string, rest: string)
    requires '\n' !in body && (rest == "" || rest[0] == '\n')
    ensures LineSpan(body + rest) == |body|
  {
    if body == "" {
      assert body + rest == rest;
    } else {
      LineReaches(body[1..], rest);
      assert (body + rest)[1..] == body[1..] + rest;
    }
  }

  lemma {:induction false} BlockReaches(u: string, rest: string)
    requires EndsFirst(u)
    ensures BlockSpan(u + rest) == |u|
  {
    var s := u + rest;
    if |u| == 2 {
      assert u == "*/";
    } else {
      assert u[1..][|u| - 3..] == u[|u| - 2..];
      BlockReaches(u[1..], rest);
      assert s[1..] == u[1..] + rest;
    }
  }

  lemma UnitReaches(w: string, t: string)
    requires IsUnit(w)
    ensures StringSpan(w + t) == |w| + StringSpan(t)
  {
    assert (w + t)[|w|..] == t;
  }

  lemma {:induction false} QuoteReaches(units: seq<string>, rest: string)
    requires forall i :: 0 <= i < |units| ==> IsUnit(units[i])
    ensures StringSpan(Join(units) + ("\"" + rest)) == |Join(units)| + 1
  {
    hide IsUnit;
    var end := "\"" + rest;
    if units == [] {
      assert Join(units) + end == end;
    } else {
      hide StringSpan;
      QuoteReaches(units[1..], rest);
      UnitReaches(units[0], Join(units[1..]) + end);
      assert Join(units) + end == units[0] + (Join(units[1..]) + end);
    }
  }

  // ----- one chunk

  lemma NothingInFront(m: Minified)
    ensures Prepend("", m) == m
  {
    if m.Minified? {
      assert "" + m.text == m.text;
    }
  }

  lemma Behind(p: string, rest: string)
    ensures (p + rest)[|p|..] == rest && (p + rest)[..|p|] == p
  {
  }

  lemma LineMinifies(body: string, rest: string)
    requires Line(body).ValidAt(rest)
    ensures Minify("//" + body + rest) == Minify(rest)
  {
    hide LineSpan;
    var s := "//" + body + rest;
    assert s == ("//" + body) + rest;
    LineReaches("//" + body, rest);
    Behind("//" + body, rest);
  }

  lemma BlockMinifies(u: string, rest: string)
    requires Block(u).ValidAt(rest)
    ensures Minify("/" + u + rest) == Minify(rest)
  {
    hide BlockSpan;
    var s := "/" + u + rest;
    BlockReaches(u, rest);
    OneMoreSpan(s, u + rest);
    Behind("/" + u, rest);
  }

  lemma OneMoreSpan(s: string, t: string)
    requires s == "/" + t
    ensures BlockSpan(s) == 1 + BlockSpan(t)
  {
    assert s[1..] == t;
  }

  lemma QuotedMinifies(units: seq<string>, rest: string)
    requires Quoted(units).ValidAt(rest)
    ensures Minify(Quoted(units).Text() + rest) == Prepend(Quoted(units).Text(), Minify(rest))
  {
    hide StringSpan, Join;
    var s := Quoted(units).Text() + rest;
    QuoteReaches(units, rest);
    assert s[1..] == Join(units) + ("\"" + rest);
    Behind(Quoted(units).Text(), rest);
  }

  lemma ChunkMinifies(c: Chunk, rest: string)
    requires c.ValidAt(rest)
    ensures Minify(c.Text() + rest) == Prepend(c.Kept(), Minify(rest))
  {
    NothingInFront(Minify(rest));
    match c
    case White(k) => assert ([k] + rest)[1..] == rest;
    case Line(body) => LineMinifies(body, rest);
    case Block(u) => BlockMinifies(u, rest);
    case Quoted(units) => QuotedMinifies(units, rest);
    case Other(k) => assert ([k] + rest)[1..] == rest;
  }

  /** A text made of chunks is minified to those of them that are kept. */
  lemma {:induction false} ChunksMinify(cs: seq<Chunk>)
    requires Valid(cs)
    ensures Minify(TextOf(cs)) == Minified(KeptOf(cs))
  {
    hide Chunk.Text, Chunk.Kept, Chunk.ValidAt, Minify;
    if cs == [] {
      assert Minify("") == Minified("") by { EmptyMinifies(); }
    } else {
      ChunksMinify(cs[1..]);
      ChunkMinifies(cs[0], TextOf(cs[1..]));
    }
  }

  lemma EmptyMinifies()
    ensures Minify("") == Minified("")
  {
  }

  // ----- nothing else is minified

  lemma {:induction false} LineIs(s: string)
    ensures '\n' !in s[..LineSpan(s)] && (LineSpan(s) < |s| ==> s[LineSpan(s)] == '\n')
  {
    if s != "" && s[0] != '\n' {
      LineIs(s[1..]);
      assert s[..LineSpan(s)] == [s[0]] + s[1..][..LineSpan(s[1..])];
    }
  }

  lemma OneInFront(c: char, v: string)
    requires EndsFirst(v) && !(c == '*' && v[0] == '/')
    ensures EndsFirst([c] + v)
  {
    var u := [c] + v;
    assert u[|u| - 2..] == v[|v| - 2..];
    forall i | 0 <= i < |u| - 2 ensures !(u[i] == '*' && u[i + 1] == '/') {
      assert i > 0 ==> u[i] == v[i - 1] && u[i + 1] == v[i];
    }
  }

  lemma {:induction false} BlockIs(s: string)
    requires BlockSpan(s) <= |s|
    ensures EndsFirst(s[..BlockSpan(s)])
  {
    hide EndsFirst;
    var n := BlockSpan(s);
    if s[0] == '*' && At(s, 1) == '/' {
      assert EndsFirst("*/") by { EndMark(); }
      assert s[..2] == "*/";
    } else {
      BlockIs(s[1..]);
      var v := s[1..][..n - 1];
      OneInFront(s[0], v);
      assert s[..n] == [s[0]] + v;
    }
  }

  lemma EndMark()
    ensures EndsFirst("*/")
  {
  }

  lemma {:induction false} QuoteIs(s: string) returns (units: seq<string>)
    requires StringSpan(s) <= |s|
    ensures (forall i :: 0 <= i < |units| ==> IsUnit(units[i])) && s[..StringSpan(s)] == Join(units) + "\""
    decreases |s|
  {
    var n := StringSpan(s);
    if s[0] == '\"' {
      units := [];
    } else {
      var k := if s[0] == '\\' then 2 else 1;
      var more := QuoteIs(s[k..]);
      units := [s[..k]] + more;
      assert s[..n] == s[..k] + s[k..][..n - k];
      assert units[1..] == more;
    }
  }

  lemma TwoSlashes(s: string)
    requires |s| >= 2 && s[0] == '/' && s[1] == '/'
    ensures LineSpan(s) >= 2
  {
    assert LineSpan(s) == 1 + LineSpan(s[1..]) && s[1..][0] == '/';
  }

  lemma TailEndsFirst(u: string)
    requires EndsFirst(u) && u[0] == '/'
    ensures EndsFirst(u[1..])
  {
    assert |u| > 2;
    assert u[1..][|u| - 3..] == u[|u| - 2..];
  }

  lemma LineChunk(s: string) returns (c: Chunk, rest: string)
    requires |s| >= 2 && s[0] == '/' && s[1] == '/' && Minify(s).Minified?
    ensures c.ValidAt(rest) && s == c.Text() + rest && c.Text() != "" && Minify(rest).Minified?
  {
    LineIs(s);
    var n := LineSpan(s);
    TwoSlashes(s);
    hide LineSpan;
    c, rest := Line(s[2..n]), s[n..];
    assert s[..n] == "//" + s[2..n];
    assert s == s[..n] + rest;
  }

  lemma BlockChunk(s: string) returns (c: Chunk, rest: string)
    requires |s| >= 2 && s[0] == '/' && s[1] == '*' && Minify(s).Minified?
    ensures c.ValidAt(rest) && s == c.Text() + rest && c.Text() != "" && Minify(rest).Minified?
  {
    hide BlockSpan;
    var n := BlockSpan(s);
    BlockIs(s);
    TailEndsFirst(s[..n]);
    c, rest := Block(s[..n][1..]), s[n..];
    assert s[..n] == "/" + s[..n][1..];
    assert s == s[..n] + rest;
  }

  lemma QuotedChunk(s: string) returns (c: Chunk, rest: string)
    requires s != "" && s[0] == '\"' && Minify(s).Minified?
    ensures c.ValidAt(rest) && s == c.Text() + rest && c.Text() != "" && Minify(rest).Minified?
  {
    hide StringSpan, Join, IsUnit;
    var units := QuoteIs(s[1..]);
    var n := 1 + StringSpan(s[1..]);
    c, rest := Quoted(units), s[n..];
    assert s[..n] == "\"" + s[1..][..n - 1];
    assert s == s[..n] + rest;
  }

  lemma CharChunk(s: string) returns (c: Chunk, rest: string)
    requires s != "" && s[0] != '\"' && !(s[0] == '/' && (At(s, 1) == '/' || At(s, 1) == '*')) && Minify(s).Minified?
    ensures c.ValidAt(rest) && s == c.Text() + rest && c.Text() != "" && Minify(rest).Minified?
  {
    c, rest := if IsMinifySpace(s[0]) then White(s[0]) else Other(s[0]), s[1..];
    assert s == [s[0]] + rest;
  }

  /** The first chunk of a text that minifying does not run out of. */
  lemma FirstChunk(s: string) returns (c: Chunk, rest: string)
    requires s != "" && Minify(s).Minified?
    ensures c.ValidAt(rest) && s == c.Text() + rest && c.Text() != "" && Minify(rest).Minified?
  {
    hide Minify, Chunk.ValidAt, Chunk.Text;
    if s[0] == '/' && At(s, 1) == '/' {
      c, rest := LineChunk(s);
    } else if s[0] == '/' && At(s, 1) == '*' {
      c, rest := BlockChunk(s);
    } else if s[0] == '\"' {
      c, rest := QuotedChunk(s);
    } else {
      c, rest := CharChunk(s);
    }
  }

  /** A text is minified if and only if it consists of chunks: what is left over is a string or
      a block comment without an end, which the loop runs past. */
  lemma {:induction false} SplitsIntoChunks(s: string) returns (cs: seq<Chunk>)
    requires Minify(s).Minified?
    ensures Valid(cs) && TextOf(cs) == s && Minify(s) == Minified(KeptOf(cs))
    decreases |s|
  {
    hide Minify, Chunk.Text, Chunk.ValidAt, Chunk.Kept;
    if s == "" {
      cs := [];
    } else {
      var c, rest := FirstChunk(s);
      var more := SplitsIntoChunks(rest);
      cs := [c] + more;
      assert cs[1..] == more;
    }
    ChunksMinify(cs);
  }

  lemma MinifiedIff(s: string)
    ensures Minify(s).Minified? <==> exists cs :: Valid(cs) && TextOf(cs) == s
  {
    hide Minify, Valid, TextOf;
    if Minify(s).Minified? {
      var cs := SplitsIntoChunks(s);
    }
    if cs :| Valid(cs) && TextOf(cs) == s {
      ChunksMinify(cs);
    }
  }
}
