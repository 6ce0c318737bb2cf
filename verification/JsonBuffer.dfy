/**
 The two passes of the parser over a string. The first one takes a backslash and the
 character behind it as a pair and stops at the closing quote; the second one skips four
 or ten characters behind a \u, whatever they are. It stays inside text and buffer exactly
 when none of its steps goes beyond the place where the first pass stopped.
 */
module JsonBuffer {
  import opened CText
  import opened JsonParse

  /** Where the first pass stops: at the closing quote, or at the end of the text. */
  function End(s: string): (q: nat)
    ensures q <= |s|
    ensures LengthPassStops(s) && q < |s| ==> s[q] == '\"'
  {
    if s == [] || s[0] == '\"' then 0
    else if s[0] != '\\' then 1 + End(s[1..])
    else if |s| >= 2 then 2 + End(s[2..])
    else |s|
  }

  /** How far one step of the second pass goes. */
  function StepLength(s: string): (n: nat)
    requires s != []
    ensures n > 0
  {
    if s[0] != '\\' then 1 else if At(s, 1) == 'u' then 2 + UnicodeEscape(s[2..]).1 else 2
  }

  /** Some step of the second pass goes beyond q before the pass stops. */
  predicate Crosses(s: string, q: nat)
    requires q <= |s|
    decreases q
  {
    q > 0 && s[0] != '\"' && (StepLength(s) > q || Crosses(s[StepLength(s)..], q - StepLength(s)))
  }

  // ----- one step of the second pass

  /** What one step writes. */
  function Bytes(s: string): string
    requires s != []
  {
    if s[0] != '\\' then [s[0]] else if At(s, 1) == 'u' then UnicodeEscape(s[2..]).0 else [Unescaped(At(s, 1))]
  }

  predicate AtStep(s: string) {
    s != [] && s[0] != '\"' && NoNul(s)
  }

  lemma BodyStep(s: string)
    requires AtStep(s)
    ensures StepLength(s) > |s| ==> StringBody(s).Overrun?
    ensures StepLength(s) <= |s| ==>
              NoNul(Bytes(s)) && NoNul(s[StepLength(s)..]) &&
              StringBody(s) == Prepend(Bytes(s), StringBody(s[StepLength(s)..]))
  {
    hide UnicodeEscape, Prepend, StringBody, Unescaped;
    if s[0] != '\\' {
      BodyPlain(s);
    } else if At(s, 1) == 'u' {
      BodyEscape(s);
    } else {
      BodyPair(s);
    }
  }

  lemma BodyPlain(s: string)
    requires AtStep(s) && s[0] != '\\'
    ensures NoNul([s[0]]) && NoNul(s[1..]) && StringBody(s) == Prepend([s[0]], StringBody(s[1..]))
  {
    hide UnicodeEscape, Prepend;
  }

  lemma BodyPair(s: string)
    requires AtStep(s) && s[0] == '\\' && At(s, 1) != 'u'
    ensures |s| == 1 ==> StringBody(s).Overrun?
    ensures |s| > 1 ==> NoNul([Unescaped(s[1])]) && NoNul(s[2..]) &&
                        StringBody(s) == Prepend([Unescaped(s[1])], StringBody(s[2..]))
  {
    hide UnicodeEscape, Prepend;
    assert |s| > 1 ==> s[1] in s;
  }

  lemma BodyEscape(s: string)
    requires AtStep(s) && |s| >= 2 && s[0] == '\\' && s[1] == 'u'
    ensures var (bytes, n) := UnicodeEscape(s[2..]);
            && (2 + n > |s| ==> StringBody(s).Overrun?)
            && (2 + n <= |s| ==> NoNul(s[2 + n..]) && StringBody(s) == Prepend(bytes, StringBody(s[2 + n..])))
  {
    hide UnicodeEscape, Prepend;
  }

  predicate FourDigits(s: string) {
    |s| >= 4 && forall i :: 0 <= i < 4 ==> HexValue(s[i]) >= 0
  }

  lemma Hex4Digits(s: string)
    requires Hex4(s) != 0
    ensures FourDigits(s)
  {
  }

  /** Bytes are written only for four digits, or for two times four digits. */
  lemma EscapeWrites(s: string)
    ensures var (bytes, n) := UnicodeEscape(s);
            && n in {4, 10}
            && (bytes != [] ==> FourDigits(s) && |bytes| <= 4)
            && (bytes != [] && n == 10 ==> s[4..] != [] && s[4] == '\\' && At(s, 5) == 'u' && FourDigits(s[6..]))
  {
    hide Hex4;
    if Hex4(s) != 0 {
      Hex4Digits(s);
      if At(s, 4) == '\\' && At(s, 5) == 'u' && Hex4(s[6..]) != 0 {
        Hex4Digits(s[6..]);
      }
    }
  }

  // ----- the second pass in the tokens of the first

  /** The position is between two tokens of the first pass or, if mid, in the middle of a
      pair. */
  predicate OnTrack(s: string, mid: bool) {
    if mid then s != [] && LengthPassStops(s[1..]) else LengthPassStops(s)
  }

  /** Characters up to the end of the first pass. */
  function Ahead(s: string, mid: bool): nat
    requires OnTrack(s, mid)
  {
    if mid then 1 + End(s[1..]) else End(s)
  }

  /** What the first pass still counts; a pair that is entered in the middle counts too. */
  function Room(s: string, mid: bool): nat
    requires OnTrack(s, mid)
  {
    if mid then 1 + LengthCount(s[1..]) else LengthCount(s)
  }

  function From(s: string, n: nat): string
    requires n <= |s|
  {
    s[n..]
  }

  lemma FromLater(s: string, k: nat, n: nat)
    requires k <= n <= |s|
    ensures From(s[k..], n - k) == From(s, n)
  {
  }

  lemma FromStart(s: string)
    ensures From(s, 0) == s
  {
  }

  /** A skip of n characters ends between two tokens or inside a pair. */
  lemma {:induction false} Land(s: string, n: nat) returns (mid: bool)
    requires LengthPassStops(s) && n <= End(s)
    ensures var t := From(s, n);
            OnTrack(t, mid) && End(s) == n + Ahead(t, mid) && Room(t, mid) <= LengthCount(s)
    decreases n
  {
    hide LengthPassStops, LengthCount, End, From;
    if n == 0 {
      mid := false;
      FromStart(s);
    } else {
      TokenAhead(s);
      if s[0] != '\\' {
        PlainToken(s);
        mid := Land(s[1..], n - 1);
        FromLater(s, 1, n);
      } else if n == 1 {
        mid := InsidePair(s);
      } else {
        PairToken(s);
        mid := Land(s[2..], n - 2);
        FromLater(s, 2, n);
      }
    }
  }

  lemma InsidePair(s: string) returns (mid: bool)
    requires s != [] && s[0] == '\\' && LengthPassStops(s)
    ensures var t := From(s, 1);
            OnTrack(t, mid) && End(s) == 1 + Ahead(t, mid) && Room(t, mid) <= LengthCount(s)
  {
    hide LengthPassStops, LengthCount, End;
    PairToken(s);
    assert s[1..][1..] == s[2..];
    mid := true;
  }

  lemma TokenAhead(s: string)
    ensures End(s) > 0 <==> s != [] && s[0] != '\"'
  {
  }

  lemma LandFrom(s: string, mid: bool, n: nat) returns (mid': bool)
    requires OnTrack(s, mid) && 0 < n <= Ahead(s, mid)
    ensures OnTrack(s[n..], mid') && Ahead(s, mid) == n + Ahead(s[n..], mid') && Room(s[n..], mid') <= Room(s, mid)
  {
    hide LengthPassStops, LengthCount, End;
    if mid {
      mid' := Land(s[1..], n - 1);
      FromLater(s, 1, n);
    } else {
      mid' := Land(s, n);
    }
  }

  /** Four digits are four tokens. */
  lemma DigitsAreTokens(s: string)
    requires FourDigits(s) && LengthPassStops(s)
    ensures LengthPassStops(s[4..]) && LengthCount(s) == 4 + LengthCount(s[4..]) && End(s) == 4 + End(s[4..])
  {
    PlainToken(s);
    PlainToken(s[1..]);
    PlainToken(s[2..]);
    PlainToken(s[3..]);
    assert s[1..][1..] == s[2..] && s[2..][1..] == s[3..] && s[3..][1..] == s[4..];
  }

  lemma PlainToken(s: string)
    requires s != [] && s[0] != '\\' && s[0] != '\"' && LengthPassStops(s)
    ensures LengthPassStops(s[1..]) && LengthCount(s) == 1 + LengthCount(s[1..]) && End(s) == 1 + End(s[1..])
  {
  }

  lemma PairToken(s: string)
    requires s != [] && s[0] == '\\' && LengthPassStops(s)
    ensures |s| >= 2 && LengthPassStops(s[2..])
    ensures LengthCount(s) == 1 + LengthCount(s[2..]) && End(s) == 2 + End(s[2..])
  {
  }

  /** Behind the two characters \u, wherever they stand in the tokens. */
  lemma BehindU(s: string, mid: bool)
    requires OnTrack(s, mid) && |s| >= 2 && s[0] == '\\' && s[1] == 'u'
    ensures LengthPassStops(s[2..]) && Ahead(s, mid) == 2 + End(s[2..]) && Room(s, mid) > LengthCount(s[2..])
  {
    hide LengthPassStops, LengthCount, End;
    if mid {
      PlainToken(s[1..]);
      assert s[1..][1..] == s[2..];
    } else {
      PairToken(s);
    }
  }

  /** An escape that writes is made of whole tokens, more than it writes. */
  lemma WholeEscape(s: string)
    requires LengthPassStops(s) && UnicodeEscape(s).0 != []
    ensures var (bytes, n) := UnicodeEscape(s);
            && n <= |s| && LengthPassStops(s[n..]) && End(s) == n + End(s[n..])
            && |bytes| + LengthCount(s[n..]) <= LengthCount(s)
  {
    hide LengthPassStops, LengthCount, End, UnicodeEscape;
    EscapeWrites(s);
    DigitsAreTokens(s);
    if UnicodeEscape(s).1 == 10 {
      PairToken(s[4..]);
      assert s[4..][2..] == s[6..] && s[6..][4..] == s[10..];
      DigitsAreTokens(s[6..]);
    }
  }

  lemma AfterEscape(s: string, mid: bool) returns (mid': bool)
    requires OnTrack(s, mid) && |s| >= 2 && s[0] == '\\' && s[1] == 'u' && StepLength(s) <= Ahead(s, mid)
    ensures var n := StepLength(s);
            && n <= |s| && OnTrack(s[n..], mid') && Ahead(s, mid) == n + Ahead(s[n..], mid')
            && |Bytes(s)| + Room(s[n..], mid') <= Room(s, mid)
  {
    hide LengthPassStops, LengthCount, End, UnicodeEscape;
    BehindU(s, mid);
    var (bytes, n) := UnicodeEscape(s[2..]);
    if bytes == [] {
      mid' := LandFrom(s, mid, 2 + n);
    } else {
      WholeEscape(s[2..]);
      assert s[2..][n..] == s[2 + n..];
      mid' := false;
    }
  }

  lemma AfterPair(s: string, mid: bool) returns (mid': bool)
    requires OnTrack(s, mid) && s != [] && s[0] == '\\' && At(s, 1) != 'u' && 2 <= Ahead(s, mid)
    ensures |s| >= 2 && OnTrack(s[2..], mid') && Ahead(s, mid) == 2 + Ahead(s[2..], mid')
    ensures 1 + Room(s[2..], mid') <= Room(s, mid)
  {
    if !mid {
      PairToken(s);
      mid' := false;
    } else {
      var t := s[1..];
      assert t[1..] == s[2..];
      if t[0] == '\\' {
        PairToken(t);
        assert t[1..][1..] == t[2..];
        mid' := true;
      } else {
        PlainToken(t);
        mid' := false;
      }
    }
  }

  /** A step that does not go beyond the end writes no more than it takes from the
      count. */
  lemma AfterStep(s: string, mid: bool) returns (mid': bool)
    requires OnTrack(s, mid) && AtStep(s) && StepLength(s) <= Ahead(s, mid)
    ensures var n := StepLength(s);
            && n <= |s| && OnTrack(s[n..], mid') && Ahead(s, mid) == n + Ahead(s[n..], mid')
            && |Bytes(s)| + Room(s[n..], mid') <= Room(s, mid)
  {
    hide LengthPassStops, LengthCount, End, UnicodeEscape;
    if s[0] != '\\' {
      if !mid {
        PlainToken(s);
      }
      mid' := false;
    } else if At(s, 1) == 'u' {
      mid' := AfterEscape(s, mid);
    } else {
      mid' := AfterPair(s, mid);
    }
  }

  // ----- without crossing

  lemma {:induction false} Fits(s: string, mid: bool)
    requires NoNul(s) && OnTrack(s, mid) && !Crosses(s, Ahead(s, mid))
    ensures StringBody(s).Ok? && |StringBody(s).value| <= Room(s, mid)
    decreases |s|
  {
    hide LengthPassStops, LengthCount, End, StringBody, StepLength, Bytes;
    if s == [] || s[0] == '\"' {
      BodyStops(s);
    } else {
      AheadPositive(s, mid);
      var mid' := AfterStep(s, mid);
      BodyStep(s);
      Fits(s[StepLength(s)..], mid');
    }
  }

  lemma BodyStops(s: string)
    requires NoNul(s) && (s == [] || s[0] == '\"')
    ensures StringBody(s).Ok? && StringBody(s).value == []
  {
  }

  lemma AheadPositive(s: string, mid: bool)
    requires OnTrack(s, mid) && AtStep(s)
    ensures Ahead(s, mid) > 0
  {
  }

  // ----- when the end of the text is crossed

  lemma {:induction false} CrossedText(s: string)
    requires NoNul(s) && Crosses(s, |s|)
    ensures StringBody(s).Overrun?
    decreases |s|
  {
    hide StringBody, StepLength, Bytes;
    BodyStep(s);
    if StepLength(s) <= |s| {
      CrossedText(s[StepLength(s)..]);
    }
  }

  // ----- when the closing quote is crossed

  /** Both texts have the same characters up to a quote at q. */
  predicate SameTo(s: string, t: string, q: nat) {
    q < |s| && q < |t| && s[..q + 1] == t[..q + 1] && s[q] == '\"'
  }

  lemma SameAt(s: string, t: string, q: nat, i: nat)
    requires SameTo(s, t, q) && i <= q
    ensures s[i] == t[i] && SameTo(s[i..], t[i..], q - i)
  {
    assert s[i] == s[..q + 1][i] && t[i] == t[..q + 1][i];
    assert s[i..][..q - i + 1] == s[..q + 1][i..] && t[i..][..q - i + 1] == t[..q + 1][i..];
  }

  /** The first pass reads no further than the quote. */
  lemma {:induction false} SameFirstPass(s: string, t: string)
    requires LengthPassStops(s) && SameTo(s, t, End(s))
    ensures LengthPassStops(t) && LengthCount(t) == LengthCount(s) && End(t) == End(s)
    decreases |s|
  {
    SameAt(s, t, End(s), 0);
    if s[0] == '\"' {
    } else if s[0] != '\\' {
      SameAt(s, t, End(s), 1);
      SameFirstPass(s[1..], t[1..]);
    } else {
      SameAt(s, t, End(s), 2);
      SameFirstPass(s[2..], t[2..]);
    }
  }

  /** Nor does the length of a skip depend on more, unless it goes beyond the quote. */
  lemma SameSkip(s: string, t: string, q: nat)
    requires SameTo(s, t, q)
    ensures UnicodeEscape(s).1 > q <==> UnicodeEscape(t).1 > q
    ensures UnicodeEscape(s).1 <= q ==> UnicodeEscape(s).1 == UnicodeEscape(t).1
  {
    hide UnicodeEscape, Hex4;
    SkipLength(s);
    SkipLength(t);
    if q >= 4 {
      forall i | 0 <= i <= q ensures s[i] == t[i] {
        SameAt(s, t, q, i);
      }
      SameHex(s, t);
    }
  }

  /** Ten characters are skipped behind the first half of a surrogate pair when another
      escape follows, and four otherwise. */
  lemma SkipLength(s: string)
    ensures UnicodeEscape(s).1 ==
            if 0xD800 <= Hex4(s) <= 0xDBFF && At(s, 4) == '\\' && At(s, 5) == 'u' then 10 else 4
  {
    hide Hex4, Utf8;
  }

  lemma SameHex(s: string, t: string)
    requires |s| >= 4 && |t| >= 4 && forall i :: 0 <= i < 4 ==> s[i] == t[i]
    ensures Hex4(s) == Hex4(t)
  {
  }

  lemma SameStep(s: string, t: string, q: nat)
    requires SameTo(s, t, q) && q > 0
    ensures StepLength(s) > q <==> StepLength(t) > q
    ensures StepLength(s) <= q ==> StepLength(s) == StepLength(t)
  {
    hide UnicodeEscape;
    SameAt(s, t, q, 0);
    SameAt(s, t, q, 1);
    if q >= 2 {
      SameAt(s, t, q, 2);
      SameSkip(s[2..], t[2..], q - 2);
    }
  }

  lemma {:induction false} SameCrossing(s: string, t: string, q: nat)
    requires SameTo(s, t, q)
    ensures Crosses(s, q) <==> Crosses(t, q)
    decreases q
  {
    hide StepLength;
    if q > 0 {
      SameAt(s, t, q, 0);
      SameStep(s, t, q);
      if StepLength(s) <= q {
        SameAt(s, t, q, StepLength(s));
        SameCrossing(s[StepLength(s)..], t[StepLength(s)..], q - StepLength(s));
      }
    }
  }

  predicate Letters(t: string) {
    forall i :: 0 <= i < |t| ==> t[i] == 'a'
  }

  lemma {:induction false} LettersBody(t: string)
    requires Letters(t)
    ensures NoNul(t) && StringBody(t) == Ok(t, [])
  {
    if t != [] {
      LettersBody(t[1..]);
      assert t == [t[0]] + t[1..];
    }
  }

  /** With letters behind the quote, all of them but eleven are written. */
  lemma {:induction false} CrossedQuote(s: string, q: nat)
    requires NoNul(s) && q < |s| && Letters(s[q + 1..]) && Crosses(s, q)
    ensures StringBody(s).Ok? ==> |StringBody(s).value| >= |s| - q - 11
    decreases q
  {
    hide StringBody, StepLength, Bytes;
    BodyStep(s);
    var n := StepLength(s);
    if n <= q {
      assert s[n..][q - n + 1..] == s[q + 1..];
      CrossedQuote(s[n..], q - n);
    } else if n <= |s| {
      StepIsShort(s);
      assert s[n..] == s[q + 1..][n - q - 1..];
      LettersBody(s[n..]);
    }
  }

  lemma StepIsShort(s: string)
    requires s != []
    ensures StepLength(s) <= 12
  {
    hide UnicodeEscape;
    if At(s, 1) == 'u' {
      SkipLength(s[2..]);
    }
  }

  // ----- both passes

  /** The text of a string: an opening quote, what stands up to the closing one, and any
      rest. */
  function Quoted(body: string, rest: string): string {
    "\"" + (body + rest)
  }

  ghost predicate NeverOverruns(body: string) {
    forall rest :: NoNul(body + rest) ==> ParseString(Quoted(body, rest)) != Overrun
  }

  lemma ParseIs(s: string)
    requires NoNul(s)
    ensures ParseString("\"" + s) ==
            if !LengthPassStops(s) || (StringBody(s).Ok? && |StringBody(s).value| > LengthCount(s)) then Overrun
            else StringBody(s)
  {
    hide LengthPassStops, StringBody, LengthCount;
    assert ("\"" + s)[1..] == s;
  }

  lemma FitsIsRead(s: string)
    requires NoNul(s) && LengthPassStops(s) && !Crosses(s, End(s))
    ensures ParseString("\"" + s) != Overrun
  {
    hide LengthPassStops, StringBody, LengthCount, End, Crosses;
    Fits(s, false);
    ParseIs(s);
  }

  /** A string that is not closed is read inside text and buffer if and only if no step of
      the second pass goes beyond the end of the text. */
  lemma OpenStringFits(s: string)
    requires NoNul(s) && LengthPassStops(s) && End(s) == |s|
    ensures ParseString("\"" + s) != Overrun <==> !Crosses(s, |s|)
  {
    hide LengthPassStops, StringBody, LengthCount, End, Crosses;
    if Crosses(s, |s|) {
      CrossedText(s);
      ParseIs(s);
    } else {
      FitsIsRead(s);
    }
  }

  /** A closed string is read inside text and buffer, whatever stands behind it, if and
      only if no step of the second pass goes beyond its closing quote. */
  lemma ClosedStringFits(s: string)
    requires NoNul(s) && LengthPassStops(s) && End(s) < |s|
    ensures NeverOverruns(s[..End(s) + 1]) <==> !Crosses(s, End(s))
  {
    hide LengthPassStops, StringBody, LengthCount, End, Crosses;
    var body := s[..End(s) + 1];
    if Crosses(s, End(s)) {
      SomeRestOverruns(s);
    } else {
      forall rest | NoNul(body + rest) ensures ParseString(Quoted(body, rest)) != Overrun {
        SameBody(s, rest);
        SameFirstPass(s, body + rest);
        SameCrossing(s, body + rest, End(s));
        FitsIsRead(body + rest);
      }
    }
  }

  lemma SameBody(s: string, rest: string)
    requires LengthPassStops(s) && End(s) < |s|
    ensures SameTo(s, s[..End(s) + 1] + rest, End(s))
  {
    hide LengthPassStops, End;
  }

  lemma SomeRestOverruns(s: string)
    requires NoNul(s) && LengthPassStops(s) && End(s) < |s| && Crosses(s, End(s))
    ensures !NeverOverruns(s[..End(s) + 1])
  {
    hide LengthPassStops, StringBody, LengthCount, End, Crosses;
    var body, rest := s[..End(s) + 1], Repeat('a', LengthCount(s) + 11);
    var t := body + rest;
    SameBody(s, rest);
    SameFirstPass(s, t);
    SameCrossing(s, t, End(s));
    assert t[End(s) + 1..] == rest;
    CrossedQuote(t, End(s));
    ParseIs(t);
    assert ParseString(Quoted(body, rest)) == Overrun;
  }

  // ----- proper escapes

  /** Every backslash has its character, and every \u four hexadecimal digits. */
  predicate Proper(s: string) {
    if s == [] || s[0] == '\"' then true
    else if s[0] != '\\' then Proper(s[1..])
    else |s| >= 2 && (s[1] == 'u' ==> FourDigits(s[2..])) && Proper(s[2..])
  }

  lemma {:induction false} ProperStops(s: string)
    requires Proper(s)
    ensures LengthPassStops(s)
    decreases |s|
  {
    if s == [] || s[0] == '\"' {
    } else if s[0] != '\\' {
      ProperStops(s[1..]);
    } else {
      ProperStops(s[2..]);
    }
  }

  lemma ProperDigits(s: string)
    requires FourDigits(s) && Proper(s)
    ensures Proper(s[4..]) && End(s) == 4 + End(s[4..])
  {
    ProperToken(s);
    ProperToken(s[1..]);
    ProperToken(s[2..]);
    ProperToken(s[3..]);
    assert s[1..][1..] == s[2..] && s[2..][1..] == s[3..] && s[3..][1..] == s[4..];
  }

  lemma ProperToken(s: string)
    requires s != [] && HexValue(s[0]) >= 0 && Proper(s)
    ensures Proper(s[1..]) && End(s) == 1 + End(s[1..])
  {
  }

  lemma ProperSkip(s: string)
    requires FourDigits(s) && Proper(s)
    ensures var n := UnicodeEscape(s).1;
            n <= |s| && Proper(s[n..]) && End(s) == n + End(s[n..])
  {
    hide Hex4, UnicodeEscape, Proper, End;
    ProperDigits(s);
    SkipLength(s);
    if UnicodeEscape(s).1 == 10 {
      ProperEscape(s[4..]);
      assert s[4..][2..] == s[6..] && s[6..][4..] == s[10..];
      ProperDigits(s[6..]);
    }
  }

  lemma ProperEscape(s: string)
    requires Proper(s) && |s| >= 2 && s[0] == '\\' && s[1] == 'u'
    ensures FourDigits(s[2..]) && Proper(s[2..]) && End(s) == 2 + End(s[2..])
  {
  }

  lemma {:induction false} ProperStays(s: string)
    requires Proper(s)
    ensures !Crosses(s, End(s))
    decreases |s|
  {
    hide UnicodeEscape;
    if s == [] || s[0] == '\"' {
    } else if s[0] != '\\' {
      ProperStays(s[1..]);
    } else if s[1] == 'u' {
      ProperEscape(s);
      ProperSkip(s[2..]);
      var n := UnicodeEscape(s[2..]).1;
      assert s[2..][n..] == s[2 + n..];
      ProperStays(s[2 + n..]);
    } else {
      ProperStays(s[2..]);
    }
  }

  /** So a string with proper escapes is always read, whatever stands behind it. */
  lemma ProperStringIsRead(s: string)
    requires NoNul(s) && Proper(s)
    ensures ParseString("\"" + s).Ok?
  {
    hide Proper, LengthPassStops, StringBody, LengthCount, End, Crosses;
    ProperStops(s);
    ProperStays(s);
    Fits(s, false);
    ParseIs(s);
  }

  // ----- texts that overrun

  lemma EndIsOne(s: string)
    requires |s| >= 3 && s[0] == '\\' && s[2] == '\"'
    ensures LengthPassStops(s) && End(s) == 2 && LengthCount(s) == 1
  {
  }

  /** Behind a \u the closing quote itself is skipped. */
  lemma SkippedQuote()
    ensures !NeverOverruns("\\u\"")
  {
    hide LengthPassStops, LengthCount, End, UnicodeEscape;
    var s := "\\u\"";
    EndIsOne(s);
    SkipLength(s[2..]);
    assert s[..End(s) + 1] == s;
    ClosedStringFits(s);
  }

  /** And in a text that ends behind a \u, the end of the text is. */
  lemma SkippedEnd()
    ensures ParseString("\"" + "\\u") == Overrun
  {
    hide UnicodeEscape;
    var s := "\\u";
    assert End(s) == 2 && LengthPassStops(s) by { assert s[2..] == ""; }
    SkipLength(s[2..]);
    OpenStringFits(s);
  }

  /** Here the skip ends in front of the quote, but inside the pair that a backslash and
      another one make; the second one then takes the quote with it. */
  lemma SplitPair()
    ensures !NeverOverruns("\\u123\\\\\"")
  {
    var s := "\\u123\\\\\"";
    assert s[2..] == "123\\\\\"" && s[6..] == "\\\"" && HexValue('\\') < 0;
    assert Hex4(s[2..]) == 0;
    assert StepLength(s) == 6 && StepLength(s[6..]) == 2;
    SplitPairPass(s);
    assert s[..End(s) + 1] == s;
    ClosedStringFits(s);
  }

  lemma SplitPairPass(s: string)
    requires s == "\\u123\\\\\""
    ensures LengthPassStops(s) && End(s) == 7
  {
    assert s[2..] == "123\\\\\"" && s[2..][1..] == "23\\\\\"" && s[2..][1..][1..] == "3\\\\\"";
    assert s[2..][1..][1..][1..] == "\\\\\"" && "\\\\\""[2..] == "\"";
    assert End("\"") == 0 && End("\\\\\"") == 2 && End("3\\\\\"") == 3 && End("23\\\\\"") == 4 && End("123\\\\\"") == 5;
  }
}
