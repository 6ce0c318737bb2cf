/**
 match_prefix of the web server: matches a pattern with wildcards against the start
 of a string. `?` stands for any character, `$` for the end of the string, `*` for
 characters up to the next slash, `**` for any characters and `|` separates
 alternatives; letters match regardless of case.
 */
module Glob {
  import opened CText

  // ----- the relation

  /** tolower of the "C" locale. */
  function ToLower(c: char): char {
    if 'A' <= c <= 'Z' then (c as int + 32) as char else c
  }

  /** The position behind a star and a second one. */
  function AfterStar(p: string, i: nat, n: nat): (r: nat)
    requires i < n <= |p|
    ensures i < r <= n
  {
    if i + 1 < n && p[i + 1] == '*' then i + 2 else i + 1
  }

  /** A star at i may stand for s[j..k]. */
  predicate StarSpans(p: string, i: nat, n: nat, s: string, j: nat, k: nat)
    requires i < n <= |p|
  {
    j <= k <= |s| && (AfterStar(p, i, n) == i + 2 || forall x :: j <= x < k ==> s[x] != '/')
  }

  /** The pattern p[i..n], which has no bars, matches s[j..e]. A dollar sign ends the
      pattern: what stands behind it is ignored. */
  ghost predicate Matches(p: string, i: nat, n: nat, s: string, j: nat, e: nat)
    requires i <= n <= |p| && j <= |s|
    decreases n - i
  {
    if i == n then e == j
    else if p[i] == '$' then j == |s| && e == j
    else if p[i] == '*' then exists k :: StarSpans(p, i, n, s, j, k) && Matches(p, AfterStar(p, i, n), n, s, k, e)
    else j < |s| && (p[i] == '?' || ToLower(p[i]) == ToLower(s[j])) && Matches(p, i + 1, n, s, j + 1, e)
  }

  // ----- the search

  /** The first slash from j on, or the end of the string. */
  function SegmentEnd(s: string, j: nat): (k: nat)
    requires j <= |s|
    ensures j <= k <= |s| && (forall x :: j <= x < k ==> s[x] != '/') && (k < |s| ==> s[k] == '/')
    decreases |s| - j
  {
    if j == |s| || s[j] == '/' then j else SegmentEnd(s, j + 1)
  }

  /** The last position up to which the star at i may reach. */
  function StarLimit(p: string, i: nat, n: nat, s: string, j: nat): (k: nat)
    requires i < n <= |p| && j <= |s|
    ensures StarSpans(p, i, n, s, j, k)
    ensures forall x: nat {:trigger StarSpans(p, i, n, s, j, x)} :: StarSpans(p, i, n, s, j, x) <==> j <= x <= k
  {
    if AfterStar(p, i, n) == i + 2 then |s| else SegmentEnd(s, j)
  }

  /** The end of the match that is found, or -1. */
  function Find(p: string, i: nat, n: nat, s: string, j: nat): int
    requires i <= n <= |p| && j <= |s|
    decreases n - i, 0
  {
    if i == n then j
    else if p[i] == '$' then if j == |s| then j else -1
    else if p[i] == '*' then FindBack(p, AfterStar(p, i, n), n, s, j, StarLimit(p, i, n, s, j))
    else if j < |s| && (p[i] == '?' || ToLower(p[i]) == ToLower(s[j])) then Find(p, i + 1, n, s, j + 1)
    else -1
  }

  /** Tries the positions from k down to j. */
  function FindBack(p: string, i: nat, n: nat, s: string, j: nat, k: nat): int
    requires i <= n <= |p| && j <= k <= |s|
    decreases n - i, 1 + k - j
  {
    var r := Find(p, i, n, s, k);
    if r != -1 || k == j then r else FindBack(p, i, n, s, j, k - 1)
  }

  /** The search succeeds exactly when some prefix matches, and then finds one. */
  lemma {:induction false} FindMatches(p: string, i: nat, n: nat, s: string, j: nat)
    requires i <= n <= |p| && j <= |s|
    ensures var r := Find(p, i, n, s, j); r == -1 || (j <= r <= |s| && Matches(p, i, n, s, j, r))
    ensures forall e :: Matches(p, i, n, s, j, e) ==> Find(p, i, n, s, j) != -1
    decreases n - i, 0
  {
    if i == n || p[i] == '$' {
    } else if p[i] == '*' {
      StarMatches(p, i, n, s, j);
    } else if j < |s| {
      FindMatches(p, i + 1, n, s, j + 1);
    }
  }

  lemma {:induction false} StarMatches(p: string, i: nat, n: nat, s: string, j: nat)
    requires i < n <= |p| && j <= |s| && p[i] == '*'
    ensures var r := Find(p, i, n, s, j); r == -1 || (j <= r <= |s| && Matches(p, i, n, s, j, r))
    ensures forall e :: Matches(p, i, n, s, j, e) ==> Find(p, i, n, s, j) != -1
    decreases n - i, 0, 0
  {
    hide SegmentEnd, StarSpans;
    var next := AfterStar(p, i, n);
    var k := BackMatches(p, next, n, s, j, StarLimit(p, i, n, s, j));
    var r := Find(p, i, n, s, j);
    if r != -1 {
      assert StarSpans(p, i, n, s, j, k) && Matches(p, next, n, s, k, r);
    }
    forall e | Matches(p, i, n, s, j, e) ensures r != -1 {
      var x :| StarSpans(p, i, n, s, j, x) && Matches(p, next, n, s, x, e);
    }
  }

  /** The position k the search settles on is the last one from which the rest of
      the pattern matches. */
  lemma {:induction false} BackMatches(p: string, i: nat, n: nat, s: string, j: nat, limit: nat) returns (k: nat)
    requires i <= n <= |p| && j <= limit <= |s|
    ensures var r := FindBack(p, i, n, s, j, limit);
            && j <= k <= limit
            && (r == -1 || (k <= r <= |s| && r == Find(p, i, n, s, k) && Matches(p, i, n, s, k, r)))
            && (forall x, e :: k < x <= limit ==> !Matches(p, i, n, s, x, e))
            && (r == -1 ==> forall x, e :: j <= x <= limit ==> !Matches(p, i, n, s, x, e))
    decreases n - i, 1 + limit - j
  {
    FindMatches(p, i, n, s, limit);
    k := limit;
    if Find(p, i, n, s, limit) == -1 && limit > j {
      k := BackMatches(p, i, n, s, j, limit - 1);
    }
  }

  lemma FindIsAhead(p: string, i: nat, n: nat, s: string, j: nat)
    requires i <= n <= |p| && j <= |s|
    ensures Find(p, i, n, s, j) == -1 || j <= Find(p, i, n, s, j) <= |s|
  {
    FindMatches(p, i, n, s, j);
  }

  /** If the search finds the empty prefix, no other prefix matches. */
  lemma {:induction false} EmptyIsOnly(p: string, i: nat, n: nat, s: string, j: nat)
    requires i <= n <= |p| && j <= |s| && Find(p, i, n, s, j) == j
    ensures forall e :: Matches(p, i, n, s, j, e) ==> e == j
    decreases n - i
  {
    if i == n || p[i] == '$' {
    } else if p[i] == '*' {
      var next := AfterStar(p, i, n);
      var k := BackMatches(p, next, n, s, j, StarLimit(p, i, n, s, j));
      EmptyIsOnly(p, next, n, s, j);
    } else {
      FindIsAhead(p, i + 1, n, s, j + 1);
    }
  }

  /** A star takes as much as it can: the found match continues from the last
      position at which any match can continue. */
  lemma StarIsGreedy(p: string, i: nat, n: nat, s: string, j: nat)
    requires i < n <= |p| && j <= |s| && p[i] == '*' && Find(p, i, n, s, j) != -1
    ensures exists k :: && StarSpans(p, i, n, s, j, k)
                        && Find(p, i, n, s, j) == Find(p, AfterStar(p, i, n), n, s, k)
                        && forall x, e :: x > k && StarSpans(p, i, n, s, j, x) ==>
                           !Matches(p, AfterStar(p, i, n), n, s, x, e)
  {
    var k := BackMatches(p, AfterStar(p, i, n), n, s, j, StarLimit(p, i, n, s, j));
    assert StarSpans(p, i, n, s, j, k);
  }

  // ----- case

  predicate SameButCase(a: string, b: string) {
    |a| == |b| && forall i :: 0 <= i < |a| ==> ToLower(a[i]) == ToLower(b[i])
  }

  lemma OnlyLettersHaveCase(a: char, b: char)
    requires ToLower(a) == ToLower(b)
    ensures a == b || 'A' <= a <= 'Z' || 'a' <= a <= 'z'
  {
  }

  lemma SpecialsAgree(a: string, b: string)
    requires SameButCase(a, b)
    ensures forall i, c :: 0 <= i < |a| && c in "?$*/|" ==> (a[i] == c <==> b[i] == c)
  {
    forall i, c | 0 <= i < |a| && c in "?$*/|" ensures a[i] == c <==> b[i] == c {
      OnlyLettersHaveCase(a[i], b[i]);
    }
  }

  /** The case of letters, in pattern or string, makes no difference. */
  lemma {:induction false} CaseInsensitive(p: string, p': string, i: nat, n: nat, s: string, s': string, j: nat)
    requires SameButCase(p, p') && SameButCase(s, s') && i <= n <= |p| && j <= |s|
    ensures Find(p, i, n, s, j) == Find(p', i, n, s', j)
    decreases n - i, 0
  {
    SpecialsAgree(p, p');
    SpecialsAgree(s, s');
    if i < n {
      if p[i] == '*' {
        SameSegment(s, s', j);
        CaseInsensitiveBack(p, p', AfterStar(p, i, n), n, s, s', j, StarLimit(p, i, n, s, j));
      } else if j < |s| {
        CaseInsensitive(p, p', i + 1, n, s, s', j + 1);
      }
    }
  }

  lemma {:induction false} CaseInsensitiveBack(p: string, p': string, i: nat, n: nat, s: string, s': string, j: nat,
                                               k: nat)
    requires SameButCase(p, p') && SameButCase(s, s') && i <= n <= |p| && j <= k <= |s|
    ensures FindBack(p, i, n, s, j, k) == FindBack(p', i, n, s', j, k)
    decreases n - i, 1 + k - j
  {
    CaseInsensitive(p, p', i, n, s, s', k);
    if k > j {
      CaseInsensitiveBack(p, p', i, n, s, s', j, k - 1);
    }
  }

  lemma {:induction false} SameSegment(s: string, s': string, j: nat)
    requires SameButCase(s, s') && j <= |s|
    ensures SegmentEnd(s, j) == SegmentEnd(s', j)
    decreases |s| - j
  {
    SpecialsAgree(s, s');
    if j < |s| {
      SameSegment(s, s', j + 1);
    }
  }

  // ----- alternatives

  /** The first bar of p[i..n], or n. */
  function FirstBar(p: string, i: nat, n: nat): (b: nat)
    requires i <= n <= |p|
    ensures i <= b <= n && (forall x :: i <= x < b ==> p[x] != '|') && (b < n ==> p[b] == '|')
    decreases n - i
  {
    if i == n || p[i] == '|' then i else FirstBar(p, i + 1, n)
  }

  /** The end of the match of a pattern with alternatives: an alternative counts if
      it matches at least one character, the last one in any case. */
  function FindAny(p: string, i: nat, n: nat, s: string, j: nat): int
    requires i <= n <= |p| && j <= |s|
    decreases n - i
  {
    var b := FirstBar(p, i, n);
    if b == n then Find(p, i, n, s, j)
    else
      var r := Find(p, i, b, s, j);
      if r > j then r else FindAny(p, b + 1, n, s, j)
  }

  /** p[i..n] is one of the alternatives of p[from..end]. */
  predicate Alternative(p: string, from: nat, end: nat, i: nat, n: nat)
    requires from <= end <= |p|
  {
    && from <= i <= n <= end
    && (i == from || p[i - 1] == '|') && (n == end || p[n] == '|')
    && forall x :: i <= x < n ==> p[x] != '|'
  }

  /** A pattern is found exactly when some alternative matches a nonempty prefix or
      the last one matches; the match is that of the first alternative found to
      match at least one character, if any. */
  lemma {:induction false} FirstPositive(p: string, from: nat, end: nat, s: string, j: nat) returns (i: nat, n: nat)
    requires from <= end <= |p| && j <= |s|
    ensures Alternative(p, from, end, i, n)
    ensures FindAny(p, from, end, s, j) == Find(p, i, n, s, j)
    ensures n == end || Find(p, i, n, s, j) > j
    ensures forall i': nat, n': nat :: Alternative(p, from, end, i', n') && n' < i ==> Find(p, i', n', s, j) <= j
    decreases end - from
  {
    var b := FirstBar(p, from, end);
    if b == end || Find(p, from, b, s, j) > j {
      i, n := from, b;
    } else {
      i, n := FirstPositive(p, b + 1, end, s, j);
      forall i': nat, n': nat | Alternative(p, from, end, i', n') && n' < i ensures Find(p, i', n', s, j) <= j {
        if i' == from {
          assert n' == b;
        } else {
          assert i' > b && Alternative(p, b + 1, end, i', n');
        }
      }
    }
  }

  /** A pattern is found exactly when its last alternative matches or another one
      matches a nonempty prefix. */
  lemma FindAnyMatches(p: string, from: nat, end: nat, s: string, j: nat)
    requires from <= end <= |p| && j <= |s|
    ensures FindAny(p, from, end, s, j) != -1 <==>
            exists i: nat, n: nat, e: nat :: Alternative(p, from, end, i, n) && Matches(p, i, n, s, j, e)
                && (e > j || n == end)
  {
    var i, n := FirstPositive(p, from, end, s, j);
    FindMatches(p, i, n, s, j);
    forall i': nat, n': nat, e: nat | Alternative(p, from, end, i', n') && Matches(p, i', n', s, j, e)
        && (e > j || n' == end)
      ensures FindAny(p, from, end, s, j) != -1
    {
      FindMatches(p, i', n', s, j);
      if n == end && n' < end {
        assert n' < i;
        if Find(p, i', n', s, j) == j {
          EmptyIsOnly(p, i', n', s, j);
        }
      } else if n == end {
        assert i' == i;
      }
    }
  }

  // ----- the code

  function Length(e: int, at: nat): int {
    if e == -1 then -1 else e - at
  }

  /** memchr(pattern, '|', pattern_len) */
  method MemChrBar(p: string, i: nat, n: nat) returns (b: nat)
    requires i <= n <= |p|
    ensures b == FirstBar(p, i, n)
  {
    b := i;
    while b < n && p[b] != '|'
      invariant i <= b <= n && FirstBar(p, i, n) == FirstBar(p, b, n)
    {
      b := b + 1;
    }
  }

  /** strcspn(str, "/") */
  method StrCspn(s: cstring, at: nat) returns (len: nat)
    requires at <= |s|
    ensures len == SegmentEnd(s, at) - at
  {
    len := 0;
    while At(s, at + len) != '\0' && At(s, at + len) != '/'
      invariant at + len <= |s| && SegmentEnd(s, at) == SegmentEnd(s, at + len)
      decreases |s| - len
    {
      len := len + 1;
    }
  }

  method StrLen(s: cstring, at: nat) returns (len: nat)
    requires at <= |s|
    ensures len == |s| - at
  {
    len := 0;
    while At(s, at + len) != '\0'
      invariant at + len <= |s|
      decreases |s| - len
    {
      len := len + 1;
    }
  }

  /** The pattern is p[from..n] of a longer text, the string starts at position `at`
      of s. Behind a star the character after the pattern is read; it must not be
      another star. */
  method MatchPrefix(p: string, from: nat, n: nat, s: cstring, at: nat) returns (res: int)
    requires from <= n < |p| && p[n] != '*' && (forall x :: from <= x < n ==> p[x] != '\0')
    requires at <= |s|
    ensures res == Length(FindAny(p, from, n, s, at), at)
    decreases n - from, 1
  {
    var orStr := MemChrBar(p, from, n);
    if orStr < n {
      NoBarBefore(p, from, orStr);
      res := MatchPrefix(p, from, orStr, s, at);
      FindIsAhead(p, from, orStr, s, at);
      if res > 0 {
        return;
      }
      res := MatchPrefix(p, orStr + 1, n, s, at);
      return;
    }
    var i, j := from, 0;
    while i < n
      invariant from <= i <= n && at + j <= |s|
      invariant Find(p, from, n, s, at) == Find(p, i, n, s, at + j)
      decreases n - i
    {
      if p[i] == '?' && At(s, at + j) != '\0' {
      } else if p[i] == '$' {
        return if At(s, at + j) == '\0' then j else -1;
      } else if p[i] == '*' {
        res := MatchStar(p, i, n, s, at, j);
        return;
      } else if ToLower(p[i]) != ToLower(At(s, at + j)) {
        return -1;
      } else {
        NulHasNoCase(p[i]);
      }
      i, j := i + 1, j + 1;
    }
    res := j;
  }

  /** The branch for a star at position i, j characters into the string. */
  method MatchStar(p: string, star: nat, n: nat, s: cstring, at: nat, j: nat) returns (res: int)
    requires star < n < |p| && p[n] != '*' && p[star] == '*' && at + j <= |s|
    requires forall x :: star <= x < n ==> p[x] != '\0' && p[x] != '|'
    ensures res == Length(Find(p, star, n, s, at + j), at)
    decreases n - star, 0
  {
    var i := star + 1;
    var len: int;
    if p[i] == '*' {
      i := i + 1;
      len := StrLen(s, at + j);
    } else {
      len := StrCspn(s, at + j);
    }
    ghost var limit := at + j + len;
    assert limit == StarLimit(p, star, n, s, at + j) && i == AfterStar(p, star, n);
    if i == n {
      assert Find(p, i, n, s, limit) == limit;
      return j + len;
    }
    NoBarBefore(p, i, n);
    res := MatchPrefix(p, i, n, s, at + j + len);
    while res == -1 && len > 0
      invariant 0 <= len && at + j + len <= |s|
      invariant res == Length(Find(p, i, n, s, at + j + len), at + j + len)
      invariant FindBack(p, i, n, s, at + j, limit) == FindBack(p, i, n, s, at + j, at + j + len)
      decreases len
    {
      FindIsAhead(p, i, n, s, at + j + len);
      len := len - 1;
      res := MatchPrefix(p, i, n, s, at + j + len);
    }
    FindIsAhead(p, i, n, s, at + j + len);
    res := if res == -1 then -1 else j + res + len;
  }

  lemma NulHasNoCase(c: char)
    ensures ToLower(c) == ToLower('\0') ==> c == '\0'
  {
  }

  lemma NoBarBefore(p: string, i: nat, n: nat)
    requires i <= n <= |p| && forall x :: i <= x < n ==> p[x] != '|'
    ensures FirstBar(p, i, n) == n
  {
  }
}
