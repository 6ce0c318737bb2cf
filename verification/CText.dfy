/**
 C strings. A C `char` is a Dafny `char`; the terminating NUL of a `cstring` is
 implicit: reading position |s| gives NUL, reading beyond it is outside the buffer.
 */
module CText {
  predicate NoNul(s: string) {
    '\0' !in s
  }

  /** The characters of a C string before its terminator. */
  type cstring = s: string | NoNul(s) witness ""

  /** Reads a character of a C string whose terminator is at position |s|. */
  function At(s: string, i: nat): char {
    if i < |s| then s[i] else '\0'
  }

  predicate StartsWith(s: string, w: string) {
    |w| <= |s| && s[..|w|] == w
  }

  const BACKSPACE := 8 as char
  const FORM_FEED := 12 as char

  predicate IsDigit(c: char) {
    '0' <= c <= '9'
  }

  function DigitValue(c: char): int
    requires IsDigit(c)
  {
    c as int - '0' as int
  }

  function DigitChar(n: int): (c: char)
    requires 0 <= n < 10
    ensures IsDigit(c) && DigitValue(c) == n
  {
    (n + '0' as int) as char
  }

  /** White space as the parser skips it. */
  predicate IsBlank(c: char) {
    c <= ' ' && c != '\0'
  }

  /** The buffer `a` holds the C string `s`, terminator included. */
  ghost predicate Holds(a: array<char>, s: string)
    reads a
  {
    |s| < a.Length && a[..|s|] == s && a[|s|] == '\0'
  }

  /** The buffer starts with `out`. */
  ghost predicate Written(a: array<char>, out: string)
    reads a
  {
    |out| <= a.Length && a[..|out|] == out
  }

  function Repeat(c: char, n: nat): (r: string)
    ensures |r| == n
    ensures forall i :: 0 <= i < n ==> r[i] == c
  {
    if n == 0 then [] else [c] + Repeat(c, n - 1)
  }

  lemma {:induction false} RepeatSnoc(c: char, n: nat)
    ensures Repeat(c, n + 1) == Repeat(c, n) + [c]
  {
    if n == 0 {
    } else {
      RepeatSnoc(c, n - 1);
    }
  }
}
