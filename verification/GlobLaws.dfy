/**
 What the wildcards of a pattern mean, one by one and put together: literal text, any
 characters, the end of the string and both kinds of stars.
 */
module GlobLaws {
  import opened Glob

  /** The small letter a and its capital b: 32 places in front of it in ASCII. */
  predicate Capital(a: char, b: char) {
    'a' <= a <= 'z' && b as int == a as int - 32
  }

  predicate SameLetter(a: char, b: char) {
    a == b || Capital(a, b) || Capital(b, a)
  }

  lemma LowerIsLetter(a: char, b: char)
    ensures ToLower(a) == ToLower(b) <==> SameLetter(a, b)
  {
  }

  /** w is s[j..], up to case, as far as it reaches. */
  predicate StandsAt(w: string, s: string, j: nat) {
    j + |w| <= |s| && forall i :: 0 <= i < |w| ==> w[i] == '?' || SameLetter(w[i], s[j + i])
  }

  /** No wildcard but question marks. */
  predicate Simple(w: string) {
    forall i :: 0 <= i < |w| ==> w[i] !in "*$|"
  }

  /** p[i..n] without wildcards but question marks matches exactly the texts that it names;
      with a dollar sign behind it, at the end of the string only. */
  lemma {:induction false} SimpleMatches(p: string, i: nat, n: nat, s: string, j: nat, e: nat)
    requires i <= n <= |p| && j <= |s| && Simple(p[i..n])
    ensures Matches(p, i, n, s, j, e) <==> StandsAt(p[i..n], s, j) && e == j + (n - i)
    ensures n < |p| && p[n] == '$' ==>
              (Matches(p, i, n + 1, s, j, e) <==> StandsAt(p[i..n], s, j) && e == j + (n - i) == |s|)
    decreases n - i
  {
    hide SameLetter, ToLower;
    if i < n {
      assert p[i..n][0] == p[i];
      if j < |s| {
        LowerIsLetter(p[i], s[j]);
        assert p[i + 1..n] == p[i..n][1..];
        SimpleMatches(p, i + 1, n, s, j + 1, e);
        OneMoreStands(p[i..n], s, j);
      }
    }
  }

  lemma OneMoreStands(w: string, s: string, j: nat)
    requires w != [] && j < |s|
    ensures StandsAt(w, s, j) <==> (w[0] == '?' || SameLetter(w[0], s[j])) && StandsAt(w[1..], s, j + 1)
  {
    hide SameLetter;
    if (w[0] == '?' || SameLetter(w[0], s[j])) && StandsAt(w[1..], s, j + 1) {
      forall i | 0 <= i < |w| ensures w[i] == '?' || SameLetter(w[i], s[j + i]) {
        if i > 0 {
          assert w[i] == w[1..][i - 1] && s[j + i] == s[j + 1 + (i - 1)];
        }
      }
    }
    if StandsAt(w, s, j) {
      forall i | 0 <= i < |w[1..]| ensures w[1..][i] == '?' || SameLetter(w[1..][i], s[j + 1 + i]) {
        assert w[1..][i] == w[i + 1] && s[j + 1 + i] == s[j + (i + 1)];
      }
    }
  }

  // ----- whole patterns

  function FindIn(p: string, s: string): int {
    Find(p, 0, |p|, s, 0)
  }

  /** Text is found at the start of the string, with case ignored, and the match is as long as
      the text. */
  lemma FindText(w: string, s: string)
    requires Simple(w)
    ensures FindIn(w, s) == if StandsAt(w, s, 0) then |w| else -1
  {
    hide Matches, StandsAt;
    assert w[0..|w|] == w;
    FindMatches(w, 0, |w|, s, 0);
    SimpleMatches(w, 0, |w|, s, 0, |w|);
    if FindIn(w, s) != -1 {
      SimpleMatches(w, 0, |w|, s, 0, FindIn(w, s));
    }
  }

  /** With a dollar sign, only if it is the whole string. */
  lemma FindWhole(w: string, s: string)
    requires Simple(w)
    ensures FindIn(w + "$", s) == if StandsAt(w, s, 0) && |w| == |s| then |w| else -1
  {
    hide Matches, StandsAt;
    var p := w + "$";
    assert p[0..|w|] == w;
    FindMatches(p, 0, |p|, s, 0);
    SimpleMatches(p, 0, |w|, s, 0, |w|);
    if FindIn(p, s) != -1 {
      SimpleMatches(p, 0, |w|, s, 0, FindIn(p, s));
    }
  }

  /** A star takes everything up to the first slash, two stars everything. */
  lemma FindStars(s: string)
    ensures var k := FindIn("*", s); 0 <= k <= |s| && '/' !in s[..k] && (k < |s| ==> s[k] == '/')
    ensures FindIn("**", s) == |s|
  {
    assert FindIn("*", s) == FindBack("*", 1, 1, s, 0, SegmentEnd(s, 0));
    assert AfterStar("**", 0, 2) == 2;
    assert FindIn("**", s) == FindBack("**", 2, 2, s, 0, |s|);
    assert Find("**", 2, 2, s, |s|) == |s|;
  }

  /** Two stars, text and a dollar sign: the strings that end in the text; with one star, those
      that end in it and have no slash in front of it. */
  lemma FindSuffix(w: string, s: string)
    requires Simple(w)
    ensures FindIn("**" + w + "$", s) != -1 <==> |w| <= |s| && StandsAt(w, s, |s| - |w|)
    ensures FindIn("*" + w + "$", s) != -1 <==>
            |w| <= |s| && StandsAt(w, s, |s| - |w|) && '/' !in s[..|s| - |w|]
  {
    hide StandsAt, SameLetter, Find;
    var p, q := "**" + w + "$", "*" + w + "$";
    assert "**"[..2] == "**" && "**"[..1] == "*";
    SuffixMatches(p, 2, w, s);
    SuffixMatches(q, 1, w, s);
    FindMatches(p, 0, |p|, s, 0);
    FindMatches(q, 0, |q|, s, 0);
  }

  /** The pattern consists of i stars, the text and a dollar sign. */
  lemma SuffixMatches(p: string, i: nat, w: string, s: string)
    requires 1 <= i <= 2 && p == "**"[..i] + w + "$" && Simple(w)
    ensures (exists e :: Matches(p, 0, |p|, s, 0, e)) <==>
            |w| <= |s| && StandsAt(w, s, |s| - |w|) && (i == 1 ==> '/' !in s[..|s| - |w|])
  {
    hide StandsAt, SameLetter;
    var n := i + |w|;
    assert p[i..n] == w && p[n] == '$';
    assert p[0] == '*' && (if i == 2 then p[1] == '*' else p[1] == if w == [] then '$' else w[0]);
    assert AfterStar(p, 0, |p|) == i;
    forall e | Matches(p, 0, |p|, s, 0, e)
      ensures |w| <= |s| && StandsAt(w, s, |s| - |w|) && (i == 1 ==> '/' !in s[..|s| - |w|])
    {
      var k :| StarSpans(p, 0, |p|, s, 0, k) && Matches(p, i, |p|, s, k, e);
      SimpleMatches(p, i, n, s, k, e);
    }
    if |w| <= |s| && StandsAt(w, s, |s| - |w|) && (i == 1 ==> '/' !in s[..|s| - |w|]) {
      var k := |s| - |w|;
      SimpleMatches(p, i, n, s, k, |s|);
      assert StarSpans(p, 0, |p|, s, 0, k);
      assert Matches(p, 0, |p|, s, 0, |s|);
    }
  }
}
