/**
 Numbers as RFC 8259 writes them (section 6): a sign, an integer, a fraction and an
 exponent, each digit worth ten times the next. The parser reads any of them as its value.
 */
module JsonNumber {
  import opened CText
  import opened JsonTree
  import opened JsonParse

  predicate AllDigits(ds: string) {
    forall i :: 0 <= i < |ds| ==> IsDigit(ds[i])
  }

  /** Digits in front of the point: the last one counts once. */
  function WholeValue(ds: string): int
    requires AllDigits(ds)
  {
    if ds == [] then 0 else 10 * WholeValue(ds[..|ds| - 1]) + DigitValue(ds[|ds| - 1])
  }

  /** Digits behind the point: the first one counts a tenth. */
  function FractionValue(ds: string): real
    requires AllDigits(ds)
  {
    if ds == [] then 0.0 else (DigitValue(ds[0]) as real + FractionValue(ds[1..])) / 10.0
  }

  /** The exponent: a letter, a sign and digits, or nothing. */
  datatype Exponent = NoExponent | Exponent(letter: char, sign: string, digits: string) {
    predicate Valid() {
      Accepted() && (Exponent? ==> digits != [])
    }

    /** The parser takes an exponent without digits for 0. */
    predicate Accepted() {
      Exponent? ==> letter in "eE" && sign in ["", "+", "-"] && AllDigits(digits)
    }

    function Text(): string {
      if NoExponent? then "" else [letter] + sign + digits
    }

    function Value(): int
      requires Accepted()
    {
      if NoExponent? then 0 else if sign == "-" then -WholeValue(digits) else WholeValue(digits)
    }
  }

  datatype Decimal = Decimal(negative: bool, whole: string, fraction: string, exponent: Exponent) {
    predicate Valid() {
      Accepted() && whole != [] && (whole[0] == '0' ==> |whole| == 1) && exponent.Valid()
    }

    /** The parser wants no integer part, and one 0 may stand in front of it. */
    predicate Accepted() {
      && AllDigits(whole) && !(|whole| >= 2 && whole[0] == '0' && whole[1] == '0')
      && AllDigits(fraction) && exponent.Accepted()
    }

    /** Without digits behind it there is no point. */
    function Text(): string {
      (if negative then "-" else "") + whole + (if fraction == [] then "" else "." + fraction) + exponent.Text()
    }

    function Value(): real
      requires Accepted()
    {
      (if negative then -1.0 else 1.0) * (WholeValue(whole) as real + FractionValue(fraction)) * Pow10(exponent.Value())
    }
  }

  // ----- powers of ten

  lemma {:induction false} PowStep(k: int)
    ensures Pow10(k + 1) == 10.0 * Pow10(k)
  {
    if k < 0 {
      assert Pow10(k) == Pow10(k + 1) / 10.0;
    }
  }

  lemma {:induction false} PowAdd(a: nat, b: int)
    ensures Pow10(b - a) * Pow10(a) == Pow10(b)
  {
    if a == 0 {
      assert Pow10(0) == 1.0;
    } else {
      PowAdd(a - 1, b);
      PowStep(b - a);
      PowStep(a - 1);
      var x, y := Pow10(b - a), Pow10(a - 1);
      assert Pow10(b - a + 1) == 10.0 * x && Pow10(a) == 10.0 * y;
      TenTwice(x, y);
    }
  }

  lemma TenTwice(x: real, y: real)
    ensures (10.0 * x) * y == x * (10.0 * y)
  {
  }

  // ----- digits

  lemma {:induction false} ScanAll(ds: string, acc: int, places: int, rest: string)
    requires AllDigits(ds) && !IsDigit(At(rest, 0))
    ensures ScanDigits(ds + rest, acc, places) == Scan(Onto(acc, ds), places - |ds|, rest)
  {
    if ds == [] {
      assert ds + rest == rest;
    } else {
      ScanAll(ds[1..], acc * 10 + DigitValue(ds[0]), places - 1, rest);
      assert (ds + rest)[1..] == ds[1..] + rest;
    }
  }

  /** Digits appended to the number acc. */
  function Onto(acc: int, ds: string): int
    requires AllDigits(ds)
    decreases |ds|
  {
    if ds == [] then acc else Onto(acc * 10 + DigitValue(ds[0]), ds[1..])
  }

  lemma {:induction false} OntoSnoc(acc: int, ds: string, d: char)
    requires AllDigits(ds) && IsDigit(d)
    ensures Onto(acc, ds + [d]) == 10 * Onto(acc, ds) + DigitValue(d)
    decreases |ds|
  {
    if ds == [] {
      assert ([] + [d])[1..] == [];
    } else {
      OntoSnoc(acc * 10 + DigitValue(ds[0]), ds[1..], d);
      assert (ds + [d])[1..] == ds[1..] + [d];
    }
  }

  lemma {:induction false} OntoIsWhole(ds: string)
    requires AllDigits(ds)
    ensures Onto(0, ds) == WholeValue(ds)
  {
    if ds != [] {
      var k := |ds| - 1;
      OntoIsWhole(ds[..k]);
      OntoSnoc(0, ds[..k], ds[k]);
      assert ds[..k] + [ds[k]] == ds;
    }
  }

  /** The digits of whole and fraction in one number, shifted back by the fraction. */
  lemma {:induction false} OntoIsFraction(acc: int, ds: string)
    requires AllDigits(ds)
    ensures Onto(acc, ds) as real == (acc as real + FractionValue(ds)) * Pow10(|ds|)
    decreases |ds|
  {
    if ds != [] {
      var d, more := DigitValue(ds[0]), ds[1..];
      OntoIsFraction(acc * 10 + d, more);
      PowStep(|more|);
      ShiftOne(acc as real, d as real, FractionValue(more), Pow10(|more|));
    } else {
      assert Pow10(0) == 1.0;
    }
  }

  lemma ShiftOne(a: real, d: real, f: real, p: real)
    ensures (a * 10.0 + d + f) * p == (a + (d + f) / 10.0) * (10.0 * p)
  {
    assert (a + (d + f) / 10.0) * 10.0 == a * 10.0 + d + f;
    assert (a + (d + f) / 10.0) * (10.0 * p) == ((a + (d + f) / 10.0) * 10.0) * p;
  }

  // ----- the parts of a number

  lemma WholeIsRead(ds: string, rest: string)
    requires ds != [] && AllDigits(ds) && (ds[0] == '0' ==> |ds| == 1) && !IsDigit(At(rest, 0))
    ensures ScanInteger(ds + rest) == Scan(WholeValue(ds), 0, rest)
  {
    hide WholeValue;
    OntoIsWhole(ds);
    if ds[0] == '0' {
      assert (ds + rest)[1..] == rest;
      assert ds == ['0'] && Onto(0, ds) == Onto(0, []);
    } else {
      ScanAll(ds, 0, 0, rest);
    }
  }

  /** Nothing that continues a number. */
  predicate Ends(rest: string) {
    var c := At(rest, 0);
    !IsDigit(c) && c != '.' && c != 'e' && c != 'E'
  }

  lemma FractionIsRead(value: int, ds: string, rest: string)
    requires AllDigits(ds) && !IsDigit(At(rest, 0)) && At(rest, 0) != '.'
    ensures var s := (if ds == [] then "" else "." + ds) + rest;
            ScanFraction(Scan(value, 0, s)) == Scan(Onto(value, ds), -|ds|, rest)
  {
    if ds == [] {
      assert "" + rest == rest;
    } else {
      assert ("." + ds + rest)[1..] == ds + rest;
      ScanAll(ds, value, 0, rest);
    }
  }

  lemma UnsignedIsRead(letter: char, digits: string, rest: string)
    requires letter in "eE" && digits != [] && AllDigits(digits) && !IsDigit(At(rest, 0))
    ensures ScanExponent([letter] + (digits + rest)) == Scan(WholeValue(digits), 0, rest)
  {
    hide ScanDigits, WholeValue, Onto;
    var s := [letter] + (digits + rest);
    OntoIsWhole(digits);
    ScanAll(digits, 0, 0, rest);
    assert s[0] == letter && s[1] == digits[0] && s[1..] == digits + rest;
  }

  lemma SignedIsRead(letter: char, sign: char, digits: string, rest: string)
    requires letter in "eE" && sign in "+-" && digits != [] && AllDigits(digits) && !IsDigit(At(rest, 0))
    ensures var e := ScanExponent([letter, sign] + (digits + rest));
            e.value == (if sign == '-' then -WholeValue(digits) else WholeValue(digits)) && e.rest == rest
  {
    hide ScanDigits, WholeValue, Onto;
    var s := [letter, sign] + (digits + rest);
    OntoIsWhole(digits);
    ScanAll(digits, 0, 0, rest);
    assert s[0] == letter && s[1] == sign && s[2..] == digits + rest;
  }

  lemma ExponentIsRead(e: Exponent, rest: string)
    requires e.Valid() && Ends(rest)
    ensures ScanExponent(e.Text() + rest).value == e.Value() && ScanExponent(e.Text() + rest).rest == rest
  {
    hide ScanDigits, WholeValue, AllDigits;
    if e.NoExponent? {
      assert e.Text() + rest == rest;
    } else if e.sign == "" {
      hide ScanExponent;
      UnsignedIsRead(e.letter, e.digits, rest);
      assert e.Text() + rest == [e.letter] + (e.digits + rest);
    } else {
      hide ScanExponent;
      SignedIsRead(e.letter, e.sign[0], e.digits, rest);
      assert e.Text() + rest == [e.letter, e.sign[0]] + (e.digits + rest);
    }
  }

  lemma ExponentStart(e: Exponent, rest: string)
    requires e.Valid() && Ends(rest)
    ensures !IsDigit(At(e.Text() + rest, 0)) && At(e.Text() + rest, 0) != '.'
  {
    assert e.NoExponent? ==> "" + rest == rest;
  }

  // ----- the number

  lemma ValueFits(d: Decimal)
    requires d.Accepted()
    ensures NumberValue(d.negative, Onto(WholeValue(d.whole), d.fraction), -|d.fraction| + d.exponent.Value()) ==
            d.Value()
  {
    hide Pow10, Onto, WholeValue, FractionValue;
    var w, f, e, m := WholeValue(d.whole), FractionValue(d.fraction), d.exponent.Value(), |d.fraction|;
    OntoIsFraction(w, d.fraction);
    PowAdd(m, e);
    Regroup(if d.negative then -1.0 else 1.0, w as real + f, Pow10(m), Pow10(e - m));
  }

  lemma Regroup(s: real, v: real, p: real, q: real)
    ensures s * (v * p) * q == s * v * (q * p)
  {
    assert s * (v * p) == (s * v) * p;
    assert (s * v) * p * q == (s * v) * (p * q);
  }

  function PointText(d: Decimal): string {
    if d.fraction == [] then "" else "." + d.fraction
  }

  lemma PartsOf(d: Decimal, rest: string, tail: string, point: string)
    requires d.Valid() && Ends(rest) && tail == d.exponent.Text() + rest && point == PointText(d) + tail
    ensures ScanFraction(ScanInteger(d.whole + point)) ==
            Scan(Onto(WholeValue(d.whole), d.fraction), -|d.fraction|, tail)
  {
    hide ScanInteger, ScanFraction, ScanExponent, WholeValue, Onto, Exponent.Text, Exponent.Value;
    ExponentStart(d.exponent, rest);
    PointStart(d.fraction, tail);
    WholeIsRead(d.whole, point);
    FractionIsRead(WholeValue(d.whole), d.fraction, tail);
  }

  /** Any number of the grammar is read as its value, before anything that does not continue
      it. */
  lemma DecimalIsRead(d: Decimal, rest: string)
    requires d.Valid() && Ends(rest)
    ensures ParseNumber(d.Text() + rest) == Ok(Number(d.Value()), rest)
  {
    hide ParseNumber, ScanInteger, ScanFraction, ScanExponent, NumberValue, WholeValue, Onto, PointText,
         Decimal.Text, Decimal.Value, Exponent.Text, Exponent.Value;
    var tail := d.exponent.Text() + rest;
    var point := PointText(d) + tail;
    PartsOf(d, rest, tail, point);
    ExponentIsRead(d.exponent, rest);
    ValueFits(d);
    SignIsRead(d, rest, point);
    PartsAreRead(d.Text() + rest, d.negative, d.whole + point, Onto(WholeValue(d.whole), d.fraction), -|d.fraction|,
                 tail, d.exponent.Value(), rest);
  }

  lemma Regrouped(a: string, b: string, c: string, d: string, rest: string)
    ensures a + b + c + d + rest == a + (b + (c + (d + rest)))
  {
  }

  lemma SignIsRead(d: Decimal, rest: string, point: string)
    requires d.Valid() && point == PointText(d) + (d.exponent.Text() + rest)
    ensures var s := d.Text() + rest;
            (d.negative <==> At(s, 0) == '-') && (if d.negative then s[1..] else s) == d.whole + point
  {
    hide Exponent.Text, Exponent.Valid, WholeValue, PointText;
    var sign := if d.negative then "-" else "";
    assert d.Text() == sign + d.whole + PointText(d) + d.exponent.Text() by { TextIs(d); }
    Regrouped(sign, d.whole, PointText(d), d.exponent.Text(), rest);
    BehindSign(sign, d.whole + point);
    assert (d.whole + point)[0] == d.whole[0];
  }

  lemma TextIs(d: Decimal)
    ensures d.Text() == (if d.negative then "-" else "") + d.whole + PointText(d) + d.exponent.Text()
  {
  }

  lemma BehindSign(sign: string, t: string)
    ensures sign == "-" ==> (sign + t)[0] == '-' && (sign + t)[1..] == t
    ensures sign == "" ==> sign + t == t
  {
  }

  lemma PartsAreRead(s: string, negative: bool, t: string, n: int, places: int, tail: string, e: int, rest: string)
    requires negative <==> At(s, 0) == '-'
    requires t == if negative then s[1..] else s
    requires ScanFraction(ScanInteger(t)) == Scan(n, places, tail)
    requires ScanExponent(tail).value == e && ScanExponent(tail).rest == rest
    ensures ParseNumber(s) == Ok(Number(NumberValue(negative, n, places + e)), rest)
  {
    hide ScanInteger, ScanFraction, ScanExponent, NumberValue;
  }

  lemma PointStart(ds: string, tail: string)
    requires !IsDigit(At(tail, 0))
    ensures !IsDigit(At((if ds == [] then "" else "." + ds) + tail, 0))
  {
    assert "" + tail == tail;
  }
}
