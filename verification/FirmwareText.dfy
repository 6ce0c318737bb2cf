/**
 The C library's text functions, as far as the firmware scripts use them.
 */
module FirmwareText {
  import opened CText

  /** strchr from position i: the first c, or -1. */
  function StrChr(s: string, c: char, i: nat): (r: int)
    requires i <= |s|
    ensures r == -1 || (i <= r < |s| && s[r] == c)
    ensures forall k :: i <= k < (if r == -1 then |s| else r) ==> s[k] != c
    decreases |s| - i
  {
    if i == |s| then -1 else if s[i] == c then i else StrChr(s, c, i + 1)
  }

  /** strrchr among the first n characters: the last c, or -1. */
  function StrRChr(s: string, c: char, n: nat): (r: int)
    requires n <= |s|
    ensures r == -1 || (0 <= r < n && s[r] == c)
    ensures forall k :: r < k < n ==> s[k] != c
  {
    if n == 0 then -1 else if s[n - 1] == c then n - 1 else StrRChr(s, c, n - 1)
  }

  /** strstr finds w at position i or behind it. */
  predicate Contains(s: string, w: string, i: nat)
    requires i <= |s|
    decreases |s| - i
  {
    StartsWith(s[i..], w) || (i < |s| && Contains(s, w, i + 1))
  }

  predicate IsSpace(c: char) {
    c == ' ' || '\t' <= c <= '\r'
  }

  function Digits(s: string, i: nat, value: nat): nat
    requires i <= |s|
    decreases |s| - i
  {
    if i < |s| && IsDigit(s[i]) then Digits(s, i + 1, 10 * value + DigitValue(s[i])) else value
  }

  function Signed(s: string, i: nat): int
    requires i <= |s|
  {
    if i < |s| && s[i] == '-' then 0 - Digits(s, i + 1, 0)
    else if i < |s| && s[i] == '+' then Digits(s, i + 1, 0)
    else Digits(s, i, 0)
  }

  /** atoi */
  function Atoi(s: string, i: nat): int
    requires i <= |s|
    decreases |s| - i
  {
    if i < |s| && IsSpace(s[i]) then Atoi(s, i + 1) else Signed(s, i)
  }

  /** The end of the line that starts at i. */
  function LineEnd(s: string, i: nat): (e: nat)
    requires i <= |s|
    ensures i <= e <= |s| && (forall k :: i <= k < e ==> s[k] != '\n') && (e < |s| ==> s[e] == '\n')
    decreases |s| - i
  {
    if i == |s| || s[i] == '\n' then i else LineEnd(s, i + 1)
  }

  /** The tokens that strtok finds from position i on: the lines, without empty ones. */
  function Lines(s: string, i: nat): (r: seq<string>)
    requires i <= |s|
    ensures forall k :: 0 <= k < |r| ==> r[k] != ""
    decreases |s| - i
  {
    if i == |s| then []
    else if s[i] == '\n' then Lines(s, i + 1)
    else [s[i..LineEnd(s, i)]] + Lines(s, LineEnd(s, i))
  }

  lemma {:induction false} LineEndShift(x: string, s: string, i: nat)
    requires i <= |s|
    ensures LineEnd(x + s, |x| + i) == |x| + LineEnd(s, i)
    decreases |s| - i
  {
    if i < |s| && s[i] != '\n' {
      LineEndShift(x, s, i + 1);
    }
  }

  lemma {:induction false} LinesShift(x: string, s: string, i: nat)
    requires i <= |s|
    ensures Lines(x + s, |x| + i) == Lines(s, i)
    decreases |s| - i
  {
    if i == |s| {
    } else if s[i] == '\n' {
      LinesShift(x, s, i + 1);
    } else {
      LineEndShift(x, s, i);
      LinesShift(x, s, LineEnd(s, i));
      assert (x + s)[|x| + i..|x| + LineEnd(s, i)] == s[i..LineEnd(s, i)];
    }
  }

  lemma {:induction false} LineEndIs(s: string, i: nat, e: nat)
    requires i <= e <= |s| && (forall k :: i <= k < e ==> s[k] != '\n') && (e < |s| ==> s[e] == '\n')
    ensures LineEnd(s, i) == e
    decreases e - i
  {
    if i < e {
      LineEndIs(s, i + 1, e);
    }
  }

  /** The first of several lines. */
  lemma LinesCons(line: string, rest: string)
    requires line != "" && '\n' !in line
    ensures Lines(line + "\n" + rest, 0) == [line] + Lines(rest, 0)
    ensures Lines(line, 0) == [line]
  {
    var s := line + "\n" + rest;
    LineEndIs(s, 0, |line|);
    assert s[0..|line|] == line;
    LinesShift(line + "\n", rest, 0);
    LineEndIs(line, 0, |line|);
    assert line[0..|line|] == line;
  }

  lemma {:induction false} StrChrIs(s: string, c: char, i: nat, k: nat)
    requires i <= k < |s| && s[k] == c && forall j :: i <= j < k ==> s[j] != c
    ensures StrChr(s, c, i) == k
  {
  }

  lemma {:induction false} StrRChrIs(s: string, c: char, k: nat)
    requires k < |s| && s[k] == c && forall j :: k < j < |s| ==> s[j] != c
    ensures StrRChr(s, c, |s|) == k
  {
  }

  lemma {:induction false} NoStrRChr(s: string, c: char)
    requires c !in s
    ensures StrRChr(s, c, |s|) == -1
  {
  }

  /** One call of strtok. */
  method StrTok(s: string, from: nat) returns (found: bool, line: string, next: nat)
    requires from <= |s|
    ensures from <= next <= |s|
    ensures found ==> from < next && line != "" && Lines(s, from) == [line] + Lines(s, next)
    ensures !found ==> Lines(s, from) == Lines(s, next) == []
  {
    var start := from;
    while start < |s| && s[start] == '\n'
      invariant from <= start <= |s| && Lines(s, from) == Lines(s, start)
    {
      start := start + 1;
    }
    if start == |s| {
      return false, "", start;
    }
    var end := start;
    while end < |s| && s[end] != '\n'
      invariant start <= end <= |s| && LineEnd(s, start) == LineEnd(s, end)
    {
      end := end + 1;
    }
    found, line, next := true, s[start..end], end;
  }
}
