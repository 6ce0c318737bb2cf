/**
 What the recursive-descent parser of cJSON does, as functions on the text that
 is still to be read.
 */
module JsonParse {
  import opened CText
  import opened JsonTree

  /** A parsed value with the text behind it; `Fail` is a returned null pointer;
      `Overrun` means that the code steps past the terminator of the text, or past the
      end of the buffer into which it unescapes a string. */
  datatype Parsed<+T> = Ok(value: T, rest: string) | Fail | Overrun

  function Skip(s: string): (r: string)
    ensures |r| <= |s|
    ensures NoNul(s) ==> NoNul(r)
  {
    if s != [] && IsBlank(s[0]) then Skip(s[1..]) else s
  }

  // ----- numbers

  function Pow10(k: int): real
    decreases if k < 0 then -k else k
  {
    if k == 0 then 1.0 else if k > 0 then 10.0 * Pow10(k - 1) else Pow10(k + 1) / 10.0
  }

  datatype Scan = Scan(value: int, places: int, rest: string)

  /** Reads digits onto `acc`; counts them down from `places`. */
  function ScanDigits(s: string, acc: int, places: int): (r: Scan)
    ensures |r.rest| <= |s|
    ensures s != [] && IsDigit(s[0]) ==> |r.rest| < |s|
    ensures NoNul(s) ==> NoNul(r.rest)
  {
    if s != [] && IsDigit(s[0]) then ScanDigits(s[1..], acc * 10 + DigitValue(s[0]), places - 1)
    else Scan(acc, places, s)
  }

  function ScanInteger(s: string): (r: Scan)
    ensures |r.rest| <= |s|
    ensures s != [] && IsDigit(s[0]) ==> |r.rest| < |s|
    ensures NoNul(s) ==> NoNul(r.rest)
  {
    var s1 := if At(s, 0) == '0' then s[1..] else s;
    if '0' < At(s1, 0) <= '9' then ScanDigits(s1, 0, 0).(places := 0) else Scan(0, 0, s1)
  }

  function ScanFraction(n: Scan): (r: Scan)
    ensures |r.rest| <= |n.rest|
    ensures NoNul(n.rest) ==> NoNul(r.rest)
  {
    if At(n.rest, 0) == '.' && IsDigit(At(n.rest, 1)) then ScanDigits(n.rest[1..], n.value, 0)
    else Scan(n.value, 0, n.rest)
  }

  function ScanExponent(s: string): (r: Scan)
    ensures |r.rest| <= |s|
    ensures NoNul(s) ==> NoNul(r.rest)
  {
    if At(s, 0) == 'e' || At(s, 0) == 'E' then
      var negative := At(s, 1) == '-';
      var s1 := if At(s, 1) == '+' || negative then s[2..] else s[1..];
      var e := ScanDigits(s1, 0, 0);
      Scan(if negative then -e.value else e.value, 0, e.rest)
    else Scan(0, 0, s)
  }

  function NumberValue(negative: bool, digits: int, exponent: int): real {
    (if negative then -1.0 else 1.0) * digits as real * Pow10(exponent)
  }

  function ParseNumber(s: string): (r: Parsed<Json>)
    ensures r.Ok?
    ensures s != [] && (s[0] == '-' || IsDigit(s[0])) ==> |r.rest| < |s|
    ensures NoNul(s) ==> NoNul(r.rest)
  {
    var negative := At(s, 0) == '-';
    var whole := ScanInteger(if negative then s[1..] else s);
    var n := ScanFraction(whole);
    var e := ScanExponent(n.rest);
    Ok(Number(NumberValue(negative, n.value, n.places + e.value)), e.rest)
  }

  // ----- strings

  function HexValue(c: char): int {
    if IsDigit(c) then DigitValue(c)
    else if 'A' <= c <= 'F' then 10 + c as int - 'A' as int
    else if 'a' <= c <= 'f' then 10 + c as int - 'a' as int
    else -1
  }

  lemma HexValues(a: char, b: char, c: char, d: char)
    ensures HexValue(a) < 16 && HexValue(b) < 16 && HexValue(c) < 16 && HexValue(d) < 16
    ensures HexValue('\0') < 0
  {
  }

  /** Four hexadecimal digits, or 0 at the first character that is not one. */
  function Hex4(s: string): (r: int)
    ensures 0 <= r < 0x10000
    ensures r != 0 ==> |s| >= 4
  {
    HexValues(At(s, 0), At(s, 1), At(s, 2), At(s, 3));
    var a, b, c, d := HexValue(At(s, 0)), HexValue(At(s, 1)), HexValue(At(s, 2)), HexValue(At(s, 3));
    if a < 0 || b < 0 || c < 0 || d < 0 then 0 else ((a * 16 + b) * 16 + c) * 16 + d
  }

  function Continuation(uc: int): char
    requires 0 < uc
  {
    (0x80 + uc % 64) as char
  }

  /** The UTF-8 bytes of a code point. */
  function Utf8(uc: int): string
    requires 0 < uc < 0x110000
  {
    if uc < 0x80 then [uc as char]
    else if uc < 0x800 then [(0xC0 + uc / 64) as char, Continuation(uc)]
    else if uc < 0x10000 then [(0xE0 + uc / 4096) as char, Continuation(uc / 64), Continuation(uc)]
    else [(0xF0 + uc / 262144) as char, Continuation(uc / 4096), Continuation(uc / 64), Continuation(uc)]
  }

  /** What stands behind "\u": the bytes it contributes and how many characters
      of `s` (the text behind the 'u') it consumes. */
  function UnicodeEscape(s: string): (r: (string, nat))
    ensures NoNul(r.0)
  {
    var uc := Hex4(s);
    if 0xDC00 <= uc <= 0xDFFF || uc == 0 then ([], 4)
    else if 0xD800 <= uc <= 0xDBFF then
      if At(s, 4) != '\\' || At(s, 5) != 'u' then ([], 4)
      else
        var uc2 := Hex4(s[6..]);
        if uc2 < 0xDC00 || uc2 > 0xDFFF then ([], 10)
        else (Utf8(0x10000 + uc % 0x400 * 0x400 + uc2 % 0x400), 10)
    else (Utf8(uc), 4)
  }

  /** The first pass over a string: does it stop before the end of the text? */
  predicate LengthPassStops(s: string) {
    if s == [] || s[0] == '\"' then true
    else if s[0] == '\\' then |s| >= 2 && LengthPassStops(s[2..])
    else LengthPassStops(s[1..])
  }

  /** What the first pass counts: one for each character or pair behind a backslash. The
      buffer has room for that many characters and a terminator. */
  function LengthCount(s: string): nat {
    if s == [] || s[0] == '\"' then 0
    else if s[0] == '\\' then 1 + if |s| >= 2 then LengthCount(s[2..]) else 0
    else 1 + LengthCount(s[1..])
  }

  /** The second pass: unescapes up to the closing quote (or the terminator). */
  function StringBody(s: string): (r: Parsed<cstring>)
    requires NoNul(s)
    ensures !r.Fail?
    ensures r.Ok? ==> |r.rest| <= |s| && NoNul(r.rest)
    decreases |s|
  {
    if s == [] then Ok([], [])
    else if s[0] == '\"' then Ok([], s[1..])
    else if s[0] != '\\' then Prepend([s[0]], StringBody(s[1..]))
    else if |s| == 1 then Overrun
    else if s[1] == 'u' then
      var (bytes, n) := UnicodeEscape(s[2..]);
      if 2 + n > |s| then Overrun else Prepend(bytes, StringBody(s[2 + n..]))
    else Prepend([Unescaped(s[1])], StringBody(s[2..]))
  }

  function Unescaped(c: char): char {
    if c == 'b' then BACKSPACE
    else if c == 'f' then FORM_FEED
    else if c == 'n' then '\n'
    else if c == 'r' then '\r'
    else if c == 't' then '\t'
    else c
  }

  function Prepend(bytes: cstring, r: Parsed<cstring>): (r': Parsed<cstring>)
    ensures r'.Ok? <==> r.Ok?
    ensures r.Ok? ==> r'.rest == r.rest && r'.value == bytes + r.value
  {
    if r.Ok? then Ok(bytes + r.value, r.rest) else r
  }

  function ParseString(s: string): (r: Parsed<cstring>)
    requires NoNul(s)
    ensures r.Ok? ==> |r.rest| < |s| && NoNul(r.rest)
  {
    if At(s, 0) != '\"' then Fail
    else if !LengthPassStops(s[1..]) then Overrun
    else
      var r := StringBody(s[1..]);
      if r.Ok? && |r.value| > LengthCount(s[1..]) then Overrun else r
  }

  // ----- values

  function ParseValue(s: string): (r: Parsed<Json>)
    requires NoNul(s)
    ensures r.Ok? ==> |r.rest| < |s| && NoNul(r.rest)
    decreases |s|, 0
  {
    if StartsWith(s, NULL_TEXT) then Ok(Null, s[4..])
    else if StartsWith(s, FALSE_TEXT) then Ok(False, s[5..])
    else if StartsWith(s, TRUE_TEXT) then Ok(True, s[4..])
    else if At(s, 0) == '\"' then
      var r := ParseString(s);
      if r.Ok? then Ok(String(r.value), r.rest) else if r.Fail? then Fail else Overrun
    else if At(s, 0) == '-' || IsDigit(At(s, 0)) then ParseNumber(s)
    else if At(s, 0) == '[' then
      var s1 := Skip(s[1..]);
      if At(s1, 0) == ']' then Ok(Array([]), s1[1..])
      else
        var r := ParseItems(s1);
        if r.Ok? then Ok(Array(r.value), r.rest) else if r.Fail? then Fail else Overrun
    else if At(s, 0) == '{' then
      var s1 := Skip(s[1..]);
      if At(s1, 0) == '}' then Ok(Object([]), s1[1..])
      else
        var r := ParseMembers(s1);
        if r.Ok? then Ok(Object(r.value), r.rest) else if r.Fail? then Fail else Overrun
    else Fail
  }

  /** The entries of an array up to and including the closing bracket. */
  function ParseItems(s: string): (r: Parsed<seq<Json>>)
    requires NoNul(s)
    ensures r.Ok? ==> |r.rest| < |s| && NoNul(r.rest)
    decreases |s|, 1
  {
    match ParseValue(Skip(s))
    case Fail => Fail
    case Overrun => Overrun
    case Ok(v, rest) =>
      var s1 := Skip(rest);
      if At(s1, 0) == ',' then
        match ParseItems(s1[1..])
        case Fail => Fail
        case Overrun => Overrun
        case Ok(vs, rest') => Ok([v] + vs, rest')
      else if At(s1, 0) == ']' then Ok([v], s1[1..])
      else Fail
  }

  /** One name, colon and value. */
  function ParseMember(s: string): (r: Parsed<Member>)
    requires NoNul(s)
    ensures r.Ok? ==> |r.rest| < |s| && NoNul(r.rest)
    decreases |s|, 1
  {
    match ParseString(Skip(s))
    case Fail => Fail
    case Overrun => Overrun
    case Ok(name, rest) =>
      var s1 := Skip(rest);
      if At(s1, 0) != ':' then Fail
      else
        match ParseValue(Skip(s1[1..]))
        case Fail => Fail
        case Overrun => Overrun
        case Ok(v, rest') => Ok(Member(name, v), rest')
  }

  /** The members of an object up to and including the closing brace. */
  function ParseMembers(s: string): (r: Parsed<seq<Member>>)
    requires NoNul(s)
    ensures r.Ok? ==> |r.rest| < |s| && NoNul(r.rest)
    decreases |s|, 2
  {
    match ParseMember(s)
    case Fail => Fail
    case Overrun => Overrun
    case Ok(m, rest) =>
      var s1 := Skip(rest);
      if At(s1, 0) == ',' then
        match ParseMembers(s1[1..])
        case Fail => Fail
        case Overrun => Overrun
        case Ok(ms, rest') => Ok([m] + ms, rest')
      else if At(s1, 0) == '}' then Ok([m], s1[1..])
      else Fail
  }

  /** cJSON_ParseWithOpts; a plain cJSON_Parse does not require the terminator. */
  function Parse(text: cstring, requireEnd: bool): Parsed<Json> {
    var r := ParseValue(Skip(text));
    if r.Ok? && requireEnd && Skip(r.rest) != [] then Fail else r
  }
}
