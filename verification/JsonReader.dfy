/**
 The parser as the code runs it: loops over a position in the text. Each method
 returns exactly what the specification says of the text that was still unread.
 Item lists are sequences here; the next and prev links are not modelled.
 */
module JsonReader {
  import opened CText
  import opened JsonTree
  import opened JsonParse

  /** A parsed value with the position behind it. */
  datatype Read<+T> = Got(value: T, pos: nat) | Nothing | PastEnd

  /** From position p on, the text is `s`. */
  ghost predicate Left(text: cstring, p: nat, s: string) {
    && p + |s| == |text|
    && NoNul(s)
    && forall i :: 0 <= i < |s| ==> text[p + i] == s[i]
  }

  ghost predicate Agrees<T>(text: cstring, r: Read<T>, spec: Parsed<T>) {
    match r
    case Got(v, q) => spec.Ok? && v == spec.value && Left(text, q, spec.rest)
    case Nothing => spec.Fail?
    case PastEnd => spec.Overrun?
  }

  lemma LeftHead(text: cstring, p: nat, s: string)
    requires Left(text, p, s)
    ensures At(text, p) == At(s, 0) && At(text, p + 1) == At(s, 1) && At(text, p + 2) == At(s, 2)
    ensures At(text, p) == '\0' <==> s == []
    ensures s != [] ==> Left(text, p + 1, s[1..])
    ensures |s| >= 2 ==> Left(text, p + 2, s[2..])
  {
    if s != [] {
      assert text[p + 0] == s[0] && s[0] in s;
      forall i | 0 <= i < |s| - 1 ensures text[p + 1 + i] == s[1..][i] {
        assert text[p + (i + 1)] == s[i + 1];
      }
    }
    if |s| >= 2 {
      assert text[p + 1] == s[1];
      forall i | 0 <= i < |s| - 2 ensures text[p + 2 + i] == s[2..][i] {
        assert text[p + (i + 2)] == s[i + 2];
      }
    }
    if |s| >= 3 {
      assert text[p + 2] == s[2];
    }
  }

  lemma LeftDrop(text: cstring, p: nat, s: string, n: nat)
    requires Left(text, p, s) && n <= |s|
    ensures Left(text, p + n, s[n..])
  {
    forall i | 0 <= i < |s| - n ensures text[p + n + i] == s[n..][i] {
      assert text[p + (n + i)] == s[n + i];
    }
  }

  method SkipBlanks(text: cstring, p: nat, ghost s: string) returns (q: nat)
    requires Left(text, p, s)
    ensures p <= q && Left(text, q, Skip(s))
  {
    q := p;
    ghost var left := s;
    LeftHead(text, q, left);
    while At(text, q) != '\0' && At(text, q) <= ' '
      invariant p <= q && Left(text, q, left) && At(text, q) == At(left, 0)
      invariant Skip(s) == Skip(left)
      decreases |left|
    {
      LeftHead(text, q, left);
      left := left[1..];
      q := q + 1;
      LeftHead(text, q, left);
    }
  }

  // ----- numbers

  method ReadDigits(text: cstring, p: nat, ghost s: string, acc: int, start: int)
    returns (value: int, places: int, q: nat)
    requires Left(text, p, s)
    ensures ScanDigits(s, acc, start).value == value && ScanDigits(s, acc, start).places == places
    ensures Left(text, q, ScanDigits(s, acc, start).rest)
  {
    value, places, q := acc, start, p;
    ghost var left := s;
    LeftHead(text, q, left);
    while IsDigit(At(text, q))
      invariant Left(text, q, left) && At(text, q) == At(left, 0)
      invariant ScanDigits(s, acc, start) == ScanDigits(left, value, places)
      decreases |left|
    {
      LeftHead(text, q, left);
      value, places := value * 10 + DigitValue(At(text, q)), places - 1;
      left := left[1..];
      q := q + 1;
      LeftHead(text, q, left);
    }
  }

  method ReadInteger(text: cstring, p: nat, ghost s: string) returns (n: int, q: nat)
    requires Left(text, p, s)
    ensures ScanInteger(s) == Scan(n, 0, ScanInteger(s).rest) && Left(text, q, ScanInteger(s).rest)
  {
    n, q := 0, p;
    ghost var left := s;
    LeftHead(text, q, left);
    if At(text, q) == '0' {
      q := q + 1;
      left := left[1..];
      LeftHead(text, q, left);
    }
    if '1' <= At(text, q) <= '9' {
      var places;
      n, places, q := ReadDigits(text, q, left, 0, 0);
    }
  }

  method ReadFraction(text: cstring, p: nat, ghost s: string, whole: int) returns (n: int, scale: int, q: nat)
    requires Left(text, p, s)
    ensures var f := ScanFraction(Scan(whole, 0, s));
            f == Scan(n, scale, f.rest) && Left(text, q, f.rest)
  {
    n, scale, q := whole, 0, p;
    LeftHead(text, q, s);
    if At(text, q) == '.' && IsDigit(At(text, q + 1)) {
      n, scale, q := ReadDigits(text, q + 1, s[1..], whole, 0);
    }
  }

  method ReadExponent(text: cstring, p: nat, ghost s: string) returns (e: int, q: nat)
    requires Left(text, p, s)
    ensures ScanExponent(s).value == e && Left(text, q, ScanExponent(s).rest)
  {
    var subscale, signsubscale := 0, 1;
    q := p;
    ghost var left := s;
    LeftHead(text, q, left);
    if At(text, q) == 'e' || At(text, q) == 'E' {
      q := q + 1;
      if At(text, q) == '+' {
        q := q + 1;
        left := s[2..];
      } else if At(text, q) == '-' {
        signsubscale, q := -1, q + 1;
        left := s[2..];
      } else {
        left := s[1..];
      }
      var places;
      subscale, places, q := ReadDigits(text, q, left, 0, 0);
    }
    e := subscale * signsubscale;
  }

  method ReadNumber(text: cstring, p: nat, ghost s: string) returns (r: Read<Json>)
    requires Left(text, p, s)
    ensures Agrees(text, r, ParseNumber(s))
  {
    hide ScanInteger, ScanFraction, ScanExponent, NumberValue;
    var num, negative := p, false;
    ghost var left := s;
    LeftHead(text, num, s);
    if At(text, num) == '-' {
      negative, num := true, num + 1;
      left := s[1..];
    }
    var n, scale, exponent;
    n, num := ReadInteger(text, num, left);
    left := ScanInteger(left).rest;
    ghost var whole := n;
    n, scale, num := ReadFraction(text, num, left, n);
    left := ScanFraction(Scan(whole, 0, left)).rest;
    exponent, num := ReadExponent(text, num, left);
    r := Got(Number(NumberValue(negative, n, scale + exponent)), num);
  }

  // ----- strings

  /** The first pass over a string, which sizes the output: false when it steps past the
      terminator; len is what the loop counts. */
  method LengthPass(text: cstring, p: nat, ghost s: string) returns (ok: bool, len: nat)
    requires Left(text, p, s)
    ensures ok <==> LengthPassStops(s)
    ensures ok ==> len == LengthCount(s)
  {
    var ptr := p;
    len := 0;
    ghost var left := s;
    LeftHead(text, ptr, left);
    while At(text, ptr) != '\"' && At(text, ptr) != '\0'
      invariant Left(text, ptr, left) && At(text, ptr) == At(left, 0) && (At(text, ptr) == '\0' <==> left == [])
      invariant LengthPassStops(s) <==> LengthPassStops(left)
      invariant LengthCount(s) == len + LengthCount(left)
      decreases |left|
    {
      LeftHead(text, ptr, left);
      len := len + 1;
      if At(text, ptr) == '\\' {
        if At(text, ptr + 1) == '\0' {
          LeftHead(text, ptr + 1, left[1..]);
          return false, len;
        }
        LeftHead(text, ptr + 1, left[1..]);
        ptr := ptr + 2;
        left := left[2..];
      } else {
        ptr := ptr + 1;
        left := left[1..];
      }
      LeftHead(text, ptr, left);
    }
    return true, len;
  }

  function HexAt(text: cstring, p: nat): int {
    Hex4([At(text, p), At(text, p + 1), At(text, p + 2), At(text, p + 3)])
  }

  lemma LeftHex(text: cstring, p: nat, s: string)
    requires Left(text, p, s)
    ensures HexAt(text, p) == Hex4(s)
  {
    assert forall k :: 0 <= k < |s| ==> At(text, p + k) == s[k];
  }

  lemma LeftAt(text: cstring, p: nat, s: string, k: nat)
    requires Left(text, p, s)
    ensures At(text, p + k) == At(s, k)
  {
  }

  /** Transcodes the escape whose 'u' stands in front of position p. */
  method ReadUnicode(text: cstring, p: nat, ghost s: string) returns (bytes: string, used: nat)
    requires Left(text, p, s)
    ensures (bytes, used) == UnicodeEscape(s)
  {
    var uc := HexAt(text, p);
    LeftHex(text, p, s);
    if (0xDC00 <= uc <= 0xDFFF) || uc == 0 {
      return [], 4;
    }
    if 0xD800 <= uc <= 0xDBFF {
      LeftAt(text, p, s, 4);
      LeftAt(text, p, s, 5);
      if At(text, p + 4) != '\\' || At(text, p + 5) != 'u' {
        return [], 4;
      }
      LeftDrop(text, p, s, 6);
      LeftHex(text, p + 6, s[6..]);
      var uc2 := HexAt(text, p + 6);
      if uc2 < 0xDC00 || uc2 > 0xDFFF {
        return [], 10;
      }
      return Utf8(0x10000 + uc % 0x400 * 0x400 + uc2 % 0x400), 10;
    }
    return Utf8(uc), 4;
  }

  lemma PrependTwice(a: cstring, b: cstring, r: Parsed<cstring>)
    ensures Prepend(a, Prepend(b, r)) == Prepend(a + b, r)
  {
    if r.Ok? {
      assert a + (b + r.value) == a + b + r.value;
    }
  }

  lemma PrependNothing(r: Parsed<cstring>)
    ensures Prepend([], r) == r
  {
    if r.Ok? {
      assert [] + r.value == r.value;
    }
  }

  /** One character or escape of a string: what it contributes, where it ends. */
  method ReadStringStep(text: cstring, ptr: nat, ghost left: string, ghost out: cstring)
    returns (bytes: cstring, q: nat, ok: bool, ghost left': string)
    requires Left(text, ptr, left) && left != [] && left[0] != '\"'
    ensures !ok ==> StringBody(left).Overrun?
    ensures ok ==> Left(text, q, left') && |left'| < |left|
    ensures ok ==> Prepend(out, StringBody(left)) == Prepend(out + bytes, StringBody(left'))
  {
    LeftHead(text, ptr, left);
    if At(text, ptr) != '\\' {
      bytes, q, ok, left' := [At(text, ptr)], ptr + 1, true, left[1..];
    } else if At(text, ptr + 1) == '\0' {
      LeftHead(text, ptr + 1, left[1..]);
      bytes, q, ok, left' := [], ptr, false, left;
      return;
    } else if At(text, ptr + 1) == 'u' {
      LeftHead(text, ptr + 1, left[1..]);
      var used;
      bytes, used := ReadUnicode(text, ptr + 2, left[2..]);
      if ptr + 2 + used > |text| {
        q, ok, left' := ptr, false, left;
        return;
      }
      LeftDrop(text, ptr, left, 2 + used);
      q, ok, left' := ptr + 2 + used, true, left[2 + used..];
    } else {
      LeftHead(text, ptr + 1, left[1..]);
      bytes, q, ok, left' := [Unescaped(At(text, ptr + 1))], ptr + 2, true, left[2..];
    }
    PrependTwice(out, bytes, StringBody(left'));
  }

  method ReadString(text: cstring, p: nat, ghost s: string) returns (r: Read<cstring>)
    requires Left(text, p, s)
    ensures Agrees(text, r, ParseString(s))
  {
    hide StringBody, LengthPassStops, LengthCount;
    LeftHead(text, p, s);
    if At(text, p) != '\"' {
      return Nothing;
    }
    var sized, len := LengthPass(text, p + 1, s[1..]);
    if !sized {
      return PastEnd;
    }
    var out := new char[len + 1](_ => '\0');
    var ptr: nat, n: nat := p + 1, 0;
    ghost var left, value: cstring := s[1..], [];
    PrependNothing(StringBody(left));
    LeftHead(text, ptr, left);
    while At(text, ptr) != '\"' && At(text, ptr) != '\0'
      invariant Left(text, ptr, left) && At(text, ptr) == At(left, 0) && (At(text, ptr) == '\0' <==> left == [])
      invariant StringBody(s[1..]) == Prepend(value, StringBody(left))
      invariant n <= len && out[..n] == value
      decreases |left|
    {
      ghost var left';
      var bytes, q: nat, ok;
      bytes, q, ok, left' := ReadStringStep(text, ptr, left, value);
      if !ok || n + |bytes| > len {
        return PastEnd;
      }
      PutChars(out, n, bytes);
      n, value := n + |bytes|, value + bytes;
      ptr, left := q, left';
      LeftHead(text, ptr, left);
    }
    StringBodyEnd(value, left);
    out[n] := '\0';
    if At(text, ptr) == '\"' {
      ptr := ptr + 1;
    }
    r := Got(out[..n], ptr);
  }

  method PutChars(out: array<char>, at: nat, s: string)
    requires at + |s| <= out.Length
    modifies out
    ensures out[..at + |s|] == old(out[..at]) + s
  {
    for i := 0 to |s|
      invariant out[..at + i] == old(out[..at]) + s[..i]
    {
      out[at + i] := s[i];
    }
  }

  lemma StringBodyEnd(out: cstring, s: string)
    requires NoNul(s) && (s == [] || s[0] == '\"')
    ensures Prepend(out, StringBody(s)) == Ok(out, if s == [] then [] else s[1..])
  {
    assert out + [] == out;
  }

  // ----- values

  method ReadLiteral(text: cstring, p: nat, ghost s: string, lit: string) returns (found: bool)
    requires Left(text, p, s)
    requires NoNul(lit)
    ensures found <==> StartsWith(s, lit)
  {
    for i := 0 to |lit|
      invariant i <= |s| && s[..i] == lit[..i]
    {
      LeftAt(text, p, s, i);
      assert lit[i] in lit;
      if At(text, p + i) != lit[i] {
        assert |lit| <= |s| ==> s[..|lit|][i] == s[i];
        return false;
      }
    }
    assert lit[..|lit|] == lit;
    return true;
  }

  method ReadValue(text: cstring, p: nat, ghost s: string) returns (r: Read<Json>)
    requires Left(text, p, s)
    ensures Agrees(text, r, ParseValue(s))
    decreases |s|, 1
  {
    hide ParseItems, ParseMembers, ParseString, ParseNumber, StartsWith;
    var found := ReadLiteral(text, p, s, NULL_TEXT);
    if found {
      LiteralFits(s, NULL_TEXT);
      LeftDrop(text, p, s, 4);
      return Got(Null, p + 4);
    }
    found := ReadLiteral(text, p, s, FALSE_TEXT);
    if found {
      LiteralFits(s, FALSE_TEXT);
      LeftDrop(text, p, s, 5);
      return Got(False, p + 5);
    }
    found := ReadLiteral(text, p, s, TRUE_TEXT);
    if found {
      LiteralFits(s, TRUE_TEXT);
      LeftDrop(text, p, s, 4);
      return Got(True, p + 4);
    }
    LeftHead(text, p, s);
    if At(text, p) == '\"' {
      var t := ReadString(text, p, s);
      r := match t case Got(v, q) => Got(String(v), q) case Nothing => Nothing case PastEnd => PastEnd;
    } else if At(text, p) == '-' || IsDigit(At(text, p)) {
      r := ReadNumber(text, p, s);
    } else if At(text, p) == '[' {
      r := ReadArray(text, p, s);
    } else if At(text, p) == '{' {
      r := ReadObject(text, p, s);
    } else {
      r := Nothing;
    }
  }

  lemma LiteralFits(s: string, lit: string)
    requires StartsWith(s, lit)
    ensures |lit| <= |s|
  {
  }

  method ReadArray(text: cstring, p: nat, ghost s: string) returns (r: Read<Json>)
    requires Left(text, p, s) && At(s, 0) == '['
    requires !StartsWith(s, NULL_TEXT) && !StartsWith(s, FALSE_TEXT) && !StartsWith(s, TRUE_TEXT)
    ensures Agrees(text, r, ParseValue(s))
    decreases |s|, 0
  {
    hide ParseItems;
    LeftHead(text, p, s);
    var q := SkipBlanks(text, p + 1, s[1..]);
    ghost var left := Skip(s[1..]);
    LeftHead(text, q, left);
    if At(text, q) == ']' {
      return Got(Array([]), q + 1);
    }
    var items := ReadItems(text, q, left);
    r := match items case Got(v, end) => Got(Array(v), end) case Nothing => Nothing case PastEnd => PastEnd;
  }

  method ReadItems(text: cstring, p: nat, ghost s: string) returns (r: Read<seq<Json>>)
    requires Left(text, p, s)
    ensures Agrees(text, r, ParseItems(s))
    decreases |s|, 3
  {
    hide ParseItems, ParseValue;
    ghost var rest := s;
    var q, items := p, [];
    AfterNothing(ParseItems(s));
    while true
      invariant Left(text, q, rest) && |rest| <= |s|
      invariant After(items, ParseItems(rest)) == ParseItems(s)
      decreases |rest|
    {
      ItemsTurn(items, rest);
      q := SkipBlanks(text, q, rest);
      var v := ReadValue(text, q, Skip(rest));
      if v.Nothing? {
        return Nothing;
      }
      if v.PastEnd? {
        return PastEnd;
      }
      ghost var after := ParseValue(Skip(rest)).rest;
      q := SkipBlanks(text, v.pos, after);
      LeftHead(text, q, Skip(after));
      items := items + [v.value];
      if At(text, q) == ',' {
        q := q + 1;
        rest := Skip(after)[1..];
      } else if At(text, q) == ']' {
        return Got(items, q + 1);
      } else {
        return Nothing;
      }
    }
  }

  /** One turn of the entry loop. */
  lemma ItemsTurn(done: seq<Json>, s: string)
    requires NoNul(s)
    ensures
      match ParseValue(Skip(s))
      case Fail => After(done, ParseItems(s)) == Fail
      case Overrun => After(done, ParseItems(s)) == Overrun
      case Ok(v, rest) =>
        var s1 := Skip(rest);
        if At(s1, 0) == ',' then
          After(done, ParseItems(s)) == After(done + [v], ParseItems(s1[1..]))
        else if At(s1, 0) == ']' then After(done, ParseItems(s)) == Ok(done + [v], s1[1..])
        else After(done, ParseItems(s)) == Fail
  {
    hide ParseValue;
    match ParseValue(Skip(s))
    case Ok(v, rest) =>
      var s1 := Skip(rest);
      if At(s1, 0) == ',' && ParseItems(s1[1..]).Ok? {
        assert done + ([v] + ParseItems(s1[1..]).value) == done + [v] + ParseItems(s1[1..]).value;
      }
    case _ =>
  }

  method ReadObject(text: cstring, p: nat, ghost s: string) returns (r: Read<Json>)
    requires Left(text, p, s) && At(s, 0) == '{'
    requires !StartsWith(s, NULL_TEXT) && !StartsWith(s, FALSE_TEXT) && !StartsWith(s, TRUE_TEXT)
    ensures Agrees(text, r, ParseValue(s))
    decreases |s|, 0
  {
    hide ParseMembers;
    LeftHead(text, p, s);
    var q := SkipBlanks(text, p + 1, s[1..]);
    ghost var left := Skip(s[1..]);
    LeftHead(text, q, left);
    if At(text, q) == '}' {
      return Got(Object([]), q + 1);
    }
    var ms := ReadMembers(text, q, left);
    r := match ms case Got(v, end) => Got(Object(v), end) case Nothing => Nothing case PastEnd => PastEnd;
  }

  /** What the parse of a list that starts with `done` gives, from that of the rest. */
  function After<T>(done: seq<T>, r: Parsed<seq<T>>): Parsed<seq<T>> {
    if r.Ok? then Ok(done + r.value, r.rest) else r
  }

  lemma AfterNothing<T>(r: Parsed<seq<T>>)
    ensures After([], r) == r
  {
    if r.Ok? {
      assert [] + r.value == r.value;
    }
  }

  method ReadMembers(text: cstring, p: nat, ghost s: string) returns (r: Read<seq<Member>>)
    requires Left(text, p, s)
    ensures Agrees(text, r, ParseMembers(s))
    decreases |s|, 3
  {
    hide ParseMembers, ParseMember;
    ghost var rest := s;
    var q, ms := p, [];
    AfterNothing(ParseMembers(s));
    while true
      invariant Left(text, q, rest) && |rest| <= |s|
      invariant After(ms, ParseMembers(rest)) == ParseMembers(s)
      decreases |rest|
    {
      MembersTurn(ms, rest);
      var m := ReadMember(text, q, rest);
      if m.Nothing? {
        return Nothing;
      }
      if m.PastEnd? {
        return PastEnd;
      }
      ghost var after := ParseMember(rest).rest;
      q := SkipBlanks(text, m.pos, after);
      LeftHead(text, q, Skip(after));
      ms := ms + [m.value];
      if At(text, q) == ',' {
        q := q + 1;
        rest := Skip(after)[1..];
      } else if At(text, q) == '}' {
        return Got(ms, q + 1);
      } else {
        return Nothing;
      }
    }
  }

  /** One turn of the member loop. */
  lemma MembersTurn(done: seq<Member>, s: string)
    requires NoNul(s)
    ensures
      match ParseMember(s)
      case Fail => After(done, ParseMembers(s)) == Fail
      case Overrun => After(done, ParseMembers(s)) == Overrun
      case Ok(m, rest) =>
        var s1 := Skip(rest);
        if At(s1, 0) == ',' then
          After(done, ParseMembers(s)) == After(done + [m], ParseMembers(s1[1..]))
        else if At(s1, 0) == '}' then After(done, ParseMembers(s)) == Ok(done + [m], s1[1..])
        else After(done, ParseMembers(s)) == Fail
  {
    hide ParseMember;
    match ParseMember(s)
    case Ok(m, rest) =>
      var s1 := Skip(rest);
      if At(s1, 0) == ',' && ParseMembers(s1[1..]).Ok? {
        assert done + ([m] + ParseMembers(s1[1..]).value) == done + [m] + ParseMembers(s1[1..]).value;
      }
    case _ =>
  }

  method ReadMember(text: cstring, p: nat, ghost s: string) returns (r: Read<Member>)
    requires Left(text, p, s)
    ensures Agrees(text, r, ParseMember(s))
    decreases |s|, 1
  {
    hide ParseString, ParseValue;
    var q := SkipBlanks(text, p, s);
    var name := ReadString(text, q, Skip(s));
    if name.Nothing? {
      return Nothing;
    }
    if name.PastEnd? {
      return PastEnd;
    }
    ghost var after := ParseString(Skip(s)).rest;
    q := SkipBlanks(text, name.pos, after);
    LeftHead(text, q, Skip(after));
    if At(text, q) != ':' {
      return Nothing;
    }
    q := SkipBlanks(text, q + 1, Skip(after)[1..]);
    var v := ReadValue(text, q, Skip(Skip(after)[1..]));
    r := match v case Got(w, end) => Got(Member(name.value, w), end) case Nothing => Nothing case PastEnd => PastEnd;
  }

  /** cJSON_ParseWithOpts on a whole text. */
  method ReadJson(text: cstring, requireEnd: bool) returns (r: Read<Json>)
    ensures Agrees(text, r, Parse(text, requireEnd))
  {
    hide ParseValue;
    var p := SkipBlanks(text, 0, text);
    r := ReadValue(text, p, Skip(text));
    if r.Got? && requireEnd {
      ghost var rest := ParseValue(Skip(text)).rest;
      var end := SkipBlanks(text, r.pos, rest);
      LeftHead(text, end, Skip(rest));
      if At(text, end) != '\0' {
        r := Nothing;
      }
    }
  }
}
