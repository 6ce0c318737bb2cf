/**
 What the escapes of a JSON string stand for (section 7 of RFC 8259) and how a code point
 is written in UTF-8 (section 3 of RFC 3629), both written down on their own: the bytes that
 the parser writes decode to the code point that the escape was made from.
 */
module JsonUnicode {
  import opened CText
  import opened JsonParse

  // ----- UTF-8

  predicate IsContinuation(c: char) {
    0x80 <= c as int < 0xC0
  }

  /** The six bits of a continuation byte. */
  function Six(c: char): int {
    c as int - 0x80
  }

  /** The code point of one UTF-8 sequence: the bits of the lead byte, then six for each
      continuation byte; -1 for anything else. */
  function Decode(s: string): int {
    if s == [] || exists i :: 1 <= i < |s| && !IsContinuation(s[i]) then -1
    else
      var lead := s[0] as int;
      if |s| == 1 && lead < 0x80 then lead
      else if |s| == 2 && 0xC0 <= lead < 0xE0 then (lead - 0xC0) * 64 + Six(s[1])
      else if |s| == 3 && 0xE0 <= lead < 0xF0 then ((lead - 0xE0) * 64 + Six(s[1])) * 64 + Six(s[2])
      else if |s| == 4 && 0xF0 <= lead < 0xF8 then (((lead - 0xF0) * 64 + Six(s[1])) * 64 + Six(s[2])) * 64 + Six(s[3])
      else -1
  }

  /** The number of bytes that RFC 3629 prescribes. */
  function Utf8Length(uc: int): nat {
    if uc < 0x80 then 1 else if uc < 0x800 then 2 else if uc < 0x10000 then 3 else 4
  }

  lemma SixBits(uc: nat)
    ensures uc == uc / 64 * 64 + uc % 64 && 0 <= uc % 64 < 64
    ensures uc / 64 / 64 == uc / 4096 && uc / 4096 / 64 == uc / 262144
  {
  }

  lemma ContinuationSix(uc: int)
    requires 0 < uc
    ensures IsContinuation(Continuation(uc)) && Six(Continuation(uc)) == uc % 64
  {
  }

  /** The bytes of every code point decode to it, in the prescribed length. */
  lemma Utf8Decodes(uc: int)
    requires 0 < uc < 0x110000
    ensures |Utf8(uc)| == Utf8Length(uc) && Decode(Utf8(uc)) == uc
  {
    hide Continuation, IsContinuation, Six;
    SixBits(uc);
    SixBits(uc / 64);
    SixBits(uc / 4096);
    ContinuationSix(uc);
    if uc >= 0x800 {
      ContinuationSix(uc / 64);
    }
    if uc >= 0x10000 {
      ContinuationSix(uc / 4096);
    }
  }

  // ----- escapes

  const LOWER: string := "0123456789abcdef"
  const UPPER: string := "0123456789ABCDEF"

  /** A hexadecimal digit of value d, in either case. */
  predicate IsHex(c: char, d: int) {
    0 <= d < 16 && (c == LOWER[d] || c == UPPER[d])
  }

  /** Four hexadecimal digits that write n. */
  predicate IsHex4(h: string, n: int) {
    |h| == 4 && IsHex(h[0], n / 4096) && IsHex(h[1], n / 256 % 16) && IsHex(h[2], n / 16 % 16) && IsHex(h[3], n % 16)
  }

  lemma HexIsRead(c: char, d: int)
    requires IsHex(c, d)
    ensures HexValue(c) == d && c !in "\"\\\0"
  {
  }

  lemma Hex4IsRead(h: string, n: int, rest: string)
    requires IsHex4(h, n) && 0 <= n
    ensures Hex4(h + rest) == n
  {
    hide HexValue, IsHex;
    var s := h + rest;
    HexIsRead(h[0], n / 4096);
    HexIsRead(h[1], n / 256 % 16);
    HexIsRead(h[2], n / 16 % 16);
    HexIsRead(h[3], n % 16);
    HexDigitsOf(n);
  }

  lemma HexDigitsOf(n: nat)
    ensures ((n / 4096 * 16 + n / 256 % 16) * 16 + n / 16 % 16) * 16 + n % 16 == n
  {
    assert n / 16 / 16 == n / 256 && n / 256 / 16 == n / 4096;
  }

  predicate IsSurrogate(uc: int) {
    0xD800 <= uc < 0xE000
  }

  /** The two halves of a code point beyond 16 bits. */
  function HighHalf(uc: int): int {
    0xD800 + (uc - 0x10000) / 0x400
  }

  function LowHalf(uc: int): int {
    0xDC00 + (uc - 0x10000) % 0x400
  }

  /** What stands behind the first \u of an escape of uc. */
  predicate IsEscapeOf(e: string, uc: int) {
    if uc < 0x10000 then IsHex4(e, uc)
    else |e| == 10 && IsHex4(e[..4], HighHalf(uc)) && e[4] == '\\' && e[5] == 'u' && IsHex4(e[6..], LowHalf(uc))
  }

  lemma HalvesJoin(uc: int)
    requires 0x10000 <= uc < 0x110000
    ensures 0xD800 <= HighHalf(uc) <= 0xDBFF && 0xDC00 <= LowHalf(uc) <= 0xDFFF
    ensures 0x10000 + HighHalf(uc) % 0x400 * 0x400 + LowHalf(uc) % 0x400 == uc
  {
  }

  /** An escape of any code point, in digits of either case, is read as its UTF-8 bytes. */
  lemma EscapeIsRead(e: string, uc: int, rest: string)
    requires 0 < uc < 0x110000 && !IsSurrogate(uc) && IsEscapeOf(e, uc)
    ensures UnicodeEscape(e + rest) == (Utf8(uc), |e|) && Decode(UnicodeEscape(e + rest).0) == uc
  {
    hide Hex4, Utf8, IsHex4, HighHalf, LowHalf, Decode;
    Utf8Decodes(uc);
    if uc < 0x10000 {
      FourLong(e, uc);
      Hex4IsRead(e, uc, rest);
    } else {
      HalvesJoin(uc);
      Hex4IsRead(e[..4], HighHalf(uc), e[4..] + rest);
      Hex4IsRead(e[6..], LowHalf(uc), rest);
      assert e + rest == e[..4] + (e[4..] + rest);
      assert (e + rest)[6..] == e[6..] + rest;
    }
  }

  lemma FourLong(h: string, n: int)
    requires IsHex4(h, n)
    ensures |h| == 4
  {
  }
}
