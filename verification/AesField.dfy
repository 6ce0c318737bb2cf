/**
 Arithmetic in the field of 256 elements and the column transformations of the
 cipher, as the standard defines them (FIPS 197, section 4.1, section 4.2,
 section 5.1.3 and section 5.3.3), with the proof that the two transformations are
 inverse: multiplications by constants are linear, so every byte of a column that
 was mixed and unmixed is a sum, and all but one of its terms cancel.
 */
module AesField {

  /** Addition in the field. */
  function Add(x: bv8, y: bv8): bv8 {
    x ^ y
  }

  function Sum4(p: bv8, q: bv8, r: bv8, s: bv8): bv8 {
    Add(Add(Add(p, q), r), s)
  }

  /** Multiplication by {02}: a shift, and {1b} added when the high bit falls out. */
  function Double(x: bv8): bv8 {
    var high := x >> 7;
    (x << 1) ^ high ^ (high << 1) ^ (high << 3) ^ (high << 4)
  }

  function Mul3(x: bv8): bv8 { Add(Double(x), x) }
  function Mul9(x: bv8): bv8 { Add(Double(Double(Double(x))), x) }
  function MulB(x: bv8): bv8 { Add(Add(Double(Double(Double(x))), Double(x)), x) }
  function MulD(x: bv8): bv8 { Add(Add(Double(Double(Double(x))), Double(Double(x))), x) }
  function MulE(x: bv8): bv8 { Add(Add(Double(Double(Double(x))), Double(Double(x))), Double(x)) }

  datatype Column = Column(a: bv8, b: bv8, c: bv8, d: bv8)

  /** MixColumns on one column (FIPS 197, section 5.1.3). */
  function Mix(x: Column): Column {
    Column(Sum4(Double(x.a), Mul3(x.b), x.c, x.d),
           Sum4(x.a, Double(x.b), Mul3(x.c), x.d),
           Sum4(x.a, x.b, Double(x.c), Mul3(x.d)),
           Sum4(Mul3(x.a), x.b, x.c, Double(x.d)))
  }

  /** InvMixColumns on one column (FIPS 197, section 5.3.3). */
  function InvMix(x: Column): Column {
    Column(Sum4(MulE(x.a), MulB(x.b), MulD(x.c), Mul9(x.d)),
           Sum4(Mul9(x.a), MulE(x.b), MulB(x.c), MulD(x.d)),
           Sum4(MulD(x.a), Mul9(x.b), MulE(x.c), MulB(x.d)),
           Sum4(MulB(x.a), MulD(x.b), Mul9(x.c), MulE(x.d)))
  }

  // ----- linearity

  lemma DoubleAdd(x: bv8, y: bv8)
    ensures Double(Add(x, y)) == Add(Double(x), Double(y))
  {
  }

  lemma Swap(p: bv8, q: bv8, r: bv8, s: bv8)
    ensures Add(Add(p, q), Add(r, s)) == Add(Add(p, r), Add(q, s))
  {
    assert ((p ^ q) ^ (r ^ s)) == ((p ^ r) ^ (q ^ s));
  }

  lemma Rotate(p: bv8, q: bv8, r: bv8, s: bv8)
    ensures Sum4(p, q, r, s) == Sum4(q, r, s, p)
  {
    assert (p ^ q ^ r ^ s) == (q ^ r ^ s ^ p);
  }

  lemma Powers(x: bv8, y: bv8)
    ensures Double(Double(Add(x, y))) == Add(Double(Double(x)), Double(Double(y)))
    ensures Double(Double(Double(Add(x, y)))) == Add(Double(Double(Double(x))), Double(Double(Double(y))))
  {
    hide Add, Double;
    DoubleAdd(x, y);
    DoubleAdd(Double(x), Double(y));
    DoubleAdd(Double(Double(x)), Double(Double(y)));
  }

  lemma MulAdd(x: bv8, y: bv8)
    ensures Mul3(Add(x, y)) == Add(Mul3(x), Mul3(y))
    ensures Mul9(Add(x, y)) == Add(Mul9(x), Mul9(y))
    ensures MulB(Add(x, y)) == Add(MulB(x), MulB(y))
    ensures MulD(Add(x, y)) == Add(MulD(x), MulD(y))
    ensures MulE(Add(x, y)) == Add(MulE(x), MulE(y))
  {
    hide Add, Double;
    var x1, y1 := Double(x), Double(y);
    var x2, y2 := Double(x1), Double(y1);
    var x3, y3 := Double(x2), Double(y2);
    DoubleAdd(x, y);
    Powers(x, y);
    Swap(x1, y1, x, y);
    Swap(x3, y3, x, y);
    Swap(x3, y3, x1, y1);
    Swap(Add(x3, x1), Add(y3, y1), x, y);
    Swap(x3, y3, x2, y2);
    Swap(Add(x3, x2), Add(y3, y2), x, y);
    Swap(Add(x3, x2), Add(y3, y2), x1, y1);
  }

  /** Multiplication by a constant, as a property of functions. */
  ghost predicate Linear(f: bv8 -> bv8) {
    forall x, y :: f(Add(x, y)) == Add(f(x), f(y))
  }

  lemma MulLinear()
    ensures Linear(Double) && Linear(Mul3) && Linear(Mul9) && Linear(MulB) && Linear(MulD) && Linear(MulE)
  {
    hide Add, Double, Mul3, Mul9, MulB, MulD, MulE;
    forall x, y
      ensures Double(Add(x, y)) == Add(Double(x), Double(y))
      ensures Mul3(Add(x, y)) == Add(Mul3(x), Mul3(y))
      ensures Mul9(Add(x, y)) == Add(Mul9(x), Mul9(y))
      ensures MulB(Add(x, y)) == Add(MulB(x), MulB(y))
      ensures MulD(Add(x, y)) == Add(MulD(x), MulD(y))
      ensures MulE(Add(x, y)) == Add(MulE(x), MulE(y))
    {
      DoubleAdd(x, y);
      MulAdd(x, y);
    }
  }

  lemma LinearSum(f: bv8 -> bv8, p: bv8, q: bv8, r: bv8, s: bv8)
    requires Linear(f)
    ensures f(Sum4(p, q, r, s)) == Sum4(f(p), f(q), f(r), f(s))
  {
    hide Add;
    assert f(Add(Add(Add(p, q), r), s)) == Add(f(Add(Add(p, q), r)), f(s));
    assert f(Add(Add(p, q), r)) == Add(f(Add(p, q)), f(r));
    assert f(Add(p, q)) == Add(f(p), f(q));
  }

  lemma SumAdd(p: bv8, p': bv8, q: bv8, q': bv8, r: bv8, r': bv8, s: bv8, s': bv8)
    ensures Sum4(Add(p, p'), Add(q, q'), Add(r, r'), Add(s, s')) == Add(Sum4(p, q, r, s), Sum4(p', q', r', s'))
  {
    hide Add;
    Swap(p, p', q, q');
    Swap(Add(p, q), Add(p', q'), r, r');
    Swap(Add(Add(p, q), r), Add(Add(p', q'), r'), s, s');
  }

  /** A sum of four rows is the sum of the four columns. */
  lemma Transpose(a0: bv8, b0: bv8, c0: bv8, d0: bv8, a1: bv8, b1: bv8, c1: bv8, d1: bv8,
                  a2: bv8, b2: bv8, c2: bv8, d2: bv8, a3: bv8, b3: bv8, c3: bv8, d3: bv8)
    ensures Sum4(Sum4(a0, b0, c0, d0), Sum4(a1, b1, c1, d1), Sum4(a2, b2, c2, d2), Sum4(a3, b3, c3, d3)) ==
            Sum4(Sum4(a0, a1, a2, a3), Sum4(b0, b1, b2, b3), Sum4(c0, c1, c2, c3), Sum4(d0, d1, d2, d3))
  {
    hide Add;
    SumAdd(Add(Add(a0, b0), c0), d0, Add(Add(a1, b1), c1), d1, Add(Add(a2, b2), c2), d2, Add(Add(a3, b3), c3), d3);
    SumAdd(Add(a0, b0), c0, Add(a1, b1), c1, Add(a2, b2), c2, Add(a3, b3), c3);
    SumAdd(a0, b0, a1, b1, a2, b2, a3, b3);
  }

  // ----- cancellation

  /** The multiples v, {02} v, {04} v, {08} v and {10} v of a byte. */
  datatype Multiples = Multiples(v0: bv8, v1: bv8, v2: bv8, v3: bv8, v4: bv8)

  function Term(selected: bool, x: bv8): bv8 {
    if selected then x else 0
  }

  /** The sum of the multiples that a mask selects. */
  function Poly(m: bv8, v: Multiples): bv8 {
    Add(Add(Add(Add(Term(m & 1 != 0, v.v0), Term(m & 2 != 0, v.v1)), Term(m & 4 != 0, v.v2)),
            Term(m & 8 != 0, v.v3)), Term(m & 16 != 0, v.v4))
  }

  lemma TermAdd(b: bool, c: bool, x: bv8)
    ensures Add(Term(b, x), Term(c, x)) == Term(b != c, x)
  {
  }

  lemma AddZero(x: bv8)
    ensures Add(x, 0) == x && Add(0, x) == x
  {
  }

  lemma BitAdd(m: bv8, n: bv8, bit: bv8)
    requires bit in [1, 2, 4, 8, 16]
    ensures ((m ^ n) & bit != 0) <==> ((m & bit != 0) != (n & bit != 0))
  {
  }

  lemma PolyAdd(m: bv8, n: bv8, v: Multiples)
    ensures Add(Poly(m, v), Poly(n, v)) == Poly(m ^ n, v)
  {
    hide Add, Term;
    BitAdd(m, n, 1); BitAdd(m, n, 2); BitAdd(m, n, 4); BitAdd(m, n, 8); BitAdd(m, n, 16);
    var a0, a1, a2, a3, a4 := m & 1 != 0, m & 2 != 0, m & 4 != 0, m & 8 != 0, m & 16 != 0;
    var b0, b1, b2, b3, b4 := n & 1 != 0, n & 2 != 0, n & 4 != 0, n & 8 != 0, n & 16 != 0;
    PolyAddTerms(a0, a1, a2, a3, a4, b0, b1, b2, b3, b4, v);
  }

  lemma PolyAddTerms(a0: bool, a1: bool, a2: bool, a3: bool, a4: bool,
                     b0: bool, b1: bool, b2: bool, b3: bool, b4: bool, v: Multiples)
    ensures
      Add(Add(Add(Add(Add(Term(a0, v.v0), Term(a1, v.v1)), Term(a2, v.v2)), Term(a3, v.v3)), Term(a4, v.v4)),
          Add(Add(Add(Add(Term(b0, v.v0), Term(b1, v.v1)), Term(b2, v.v2)), Term(b3, v.v3)), Term(b4, v.v4))) ==
      Add(Add(Add(Add(Term(a0 != b0, v.v0), Term(a1 != b1, v.v1)), Term(a2 != b2, v.v2)), Term(a3 != b3, v.v3)),
          Term(a4 != b4, v.v4))
  {
    hide Add, Term;
    var p1, q1 := Add(Term(a0, v.v0), Term(a1, v.v1)), Add(Term(b0, v.v0), Term(b1, v.v1));
    var p2, q2 := Add(p1, Term(a2, v.v2)), Add(q1, Term(b2, v.v2));
    var p3, q3 := Add(p2, Term(a3, v.v3)), Add(q2, Term(b3, v.v3));
    Swap(p3, Term(a4, v.v4), q3, Term(b4, v.v4));
    Swap(p2, Term(a3, v.v3), q2, Term(b3, v.v3));
    Swap(p1, Term(a2, v.v2), q1, Term(b2, v.v2));
    Swap(Term(a0, v.v0), Term(a1, v.v1), Term(b0, v.v0), Term(b1, v.v1));
    TermAdd(a0, b0, v.v0); TermAdd(a1, b1, v.v1); TermAdd(a2, b2, v.v2); TermAdd(a3, b3, v.v3); TermAdd(a4, b4, v.v4);
  }

  lemma FirstTerms(b0: bool, b1: bool, x: bv8, y: bv8)
    requires !b0 || !b1
    ensures Add(Term(b0, x), Term(b1, y)) == if b0 then x else if b1 then y else 0
  {
    hide Add;
    AddZero(x); AddZero(y); AddZero(0);
  }

  lemma NextTerm(sum: bv8, b: bool, y: bv8)
    requires b ==> sum == 0
    ensures Add(sum, Term(b, y)) == if b then y else sum
  {
    hide Add;
    AddZero(sum); AddZero(y);
  }

  lemma PolyUnit(m: bv8, v: Multiples)
    requires m in [0, 1, 2, 4, 8, 16]
    ensures Poly(m, v) == if m == 1 then v.v0 else if m == 2 then v.v1 else if m == 4 then v.v2
                          else if m == 8 then v.v3 else if m == 16 then v.v4 else 0
  {
    hide Add, Term;
    FirstTerms(m & 1 != 0, m & 2 != 0, v.v0, v.v1);
    var s1 := Add(Term(m & 1 != 0, v.v0), Term(m & 2 != 0, v.v1));
    NextTerm(s1, m & 4 != 0, v.v2);
    var s2 := Add(s1, Term(m & 4 != 0, v.v2));
    NextTerm(s2, m & 8 != 0, v.v3);
    NextTerm(Add(s2, Term(m & 8 != 0, v.v3)), m & 16 != 0, v.v4);
  }

  lemma PolyUnits(v: Multiples)
    ensures Poly(0, v) == 0
    ensures Poly(1, v) == v.v0 && Poly(2, v) == v.v1 && Poly(4, v) == v.v2 && Poly(8, v) == v.v3 && Poly(16, v) == v.v4
  {
    hide Poly;
    PolyUnit(0, v); PolyUnit(1, v); PolyUnit(2, v); PolyUnit(4, v); PolyUnit(8, v); PolyUnit(16, v);
  }

  /** The constants of the column transformations, as masks. */
  lemma Masks(x: bv8)
    ensures var v := Multiples(x, Double(x), Double(Double(x)), Double(Double(Double(x))),
                               Double(Double(Double(Double(x)))));
            Mul9(x) == Poly(0x09, v) && MulB(x) == Poly(0x0b, v) && MulD(x) == Poly(0x0d, v) && MulE(x) == Poly(0x0e, v)
  {
    hide Add, Poly, Double;
    var v := Multiples(x, Double(x), Double(Double(x)), Double(Double(Double(x))), Double(Double(Double(Double(x)))));
    PolyUnits(v);
    PolyAdd(8, 1, v); PolyAdd(8, 2, v); PolyAdd(10, 1, v); PolyAdd(8, 4, v); PolyAdd(12, 1, v); PolyAdd(12, 2, v);
  }

  lemma Cancel0(v: Multiples)
    ensures Sum4(Add(Add(v.v4, v.v3), v.v2), Add(Add(v.v3, v.v1), v.v0), Add(Add(v.v3, v.v2), v.v0),
                 Add(Add(v.v4, v.v3), Add(v.v1, v.v0))) == v.v0
  {
    hide Add, Poly;
    PolyUnits(v);
    PolyAdd(0x10, 0x8, v); PolyAdd(0x18, 0x4, v); PolyAdd(0x8, 0x2, v); PolyAdd(0xa, 0x1, v); PolyAdd(0x8, 0x4, v);
    PolyAdd(0xc, 0x1, v); PolyAdd(0x2, 0x1, v); PolyAdd(0x18, 0x3, v); PolyAdd(0x1c, 0xb, v); PolyAdd(0x17, 0xd, v);
    PolyAdd(0x1a, 0x1b, v);
  }

  lemma Cancel1(v: Multiples)
    ensures Sum4(Add(Add(Add(v.v4, v.v3), Add(v.v3, v.v2)), Add(v.v2, v.v1)), Add(Add(v.v4, v.v2), v.v1),
                 Add(Add(v.v3, v.v2), v.v0), Add(v.v3, v.v0)) == 0
  {
    hide Add, Poly;
    PolyUnits(v);
    PolyAdd(0x10, 0x8, v); PolyAdd(0x8, 0x4, v); PolyAdd(0x18, 0xc, v); PolyAdd(0x4, 0x2, v); PolyAdd(0x14, 0x6, v);
    PolyAdd(0x10, 0x4, v); PolyAdd(0x14, 0x2, v); PolyAdd(0xc, 0x1, v); PolyAdd(0x8, 0x1, v); PolyAdd(0x12, 0x16, v);
    PolyAdd(0x4, 0xd, v); PolyAdd(0x9, 0x9, v);
  }

  lemma Cancel2(v: Multiples)
    ensures Sum4(Add(Add(v.v3, v.v2), v.v1), Add(Add(Add(v.v4, v.v3), Add(v.v2, v.v1)), Add(v.v1, v.v0)),
                 Add(Add(v.v4, v.v3), v.v1), Add(v.v3, v.v0)) == 0
  {
    hide Add, Poly;
    PolyUnits(v);
    PolyAdd(0x8, 0x4, v); PolyAdd(0xc, 0x2, v); PolyAdd(0x10, 0x8, v); PolyAdd(0x4, 0x2, v); PolyAdd(0x18, 0x6, v);
    PolyAdd(0x2, 0x1, v); PolyAdd(0x1e, 0x3, v); PolyAdd(0x18, 0x2, v); PolyAdd(0x8, 0x1, v); PolyAdd(0xe, 0x1d, v);
    PolyAdd(0x13, 0x1a, v); PolyAdd(0x9, 0x9, v);
  }

  lemma Cancel3(v: Multiples)
    ensures Sum4(Add(Add(v.v3, v.v2), v.v1), Add(Add(v.v3, v.v1), v.v0),
                 Add(Add(Add(v.v4, v.v3), Add(v.v3, v.v2)), Add(v.v1, v.v0)), Add(v.v4, v.v1)) == 0
  {
    hide Add, Poly;
    PolyUnits(v);
    PolyAdd(0x8, 0x4, v); PolyAdd(0xc, 0x2, v); PolyAdd(0x8, 0x2, v); PolyAdd(0xa, 0x1, v); PolyAdd(0x10, 0x8, v);
    PolyAdd(0x18, 0xc, v); PolyAdd(0x2, 0x1, v); PolyAdd(0x14, 0x3, v); PolyAdd(0x10, 0x2, v); PolyAdd(0xe, 0xb, v);
    PolyAdd(0x5, 0x17, v); PolyAdd(0x12, 0x12, v);
  }

  /** What one byte of a column contributes to the four bytes of the column that
      was mixed and unmixed. */
  lemma Entries(v: bv8)
    ensures Sum4(MulE(Double(v)), MulB(v), MulD(v), Mul9(Mul3(v))) == v
    ensures Sum4(MulE(Mul3(v)), MulB(Double(v)), MulD(v), Mul9(v)) == 0
    ensures Sum4(MulE(v), MulB(Mul3(v)), MulD(Double(v)), Mul9(v)) == 0
    ensures Sum4(MulE(v), MulB(v), MulD(Mul3(v)), Mul9(Double(v))) == 0
  {
    hide Add, Double, Sum4;
    var v1 := Double(v);
    var v2 := Double(v1);
    var v3 := Double(v2);
    var v4 := Double(v3);
    DoubleAdd(v1, v);
    Powers(v1, v);
    Cancel0(Multiples(v, v1, v2, v3, v4));
    Cancel1(Multiples(v, v1, v2, v3, v4));
    Cancel2(Multiples(v, v1, v2, v3, v4));
    Cancel3(Multiples(v, v1, v2, v3, v4));
  }

  lemma SumZero(a: bv8)
    ensures Sum4(a, 0, 0, 0) == a
  {
  }

  lemma MixedRow(a: bv8, b: bv8, c: bv8, d: bv8)
    ensures Sum4(MulE(Sum4(Double(a), Mul3(b), c, d)), MulB(Sum4(a, Double(b), Mul3(c), d)),
                 MulD(Sum4(a, b, Double(c), Mul3(d))), Mul9(Sum4(Mul3(a), b, c, Double(d)))) == a
  {
    hide Add, Sum4, Double, Mul3, Mul9, MulB, MulD, MulE, Linear;
    MulLinear();
    LinearSum(MulE, Double(a), Mul3(b), c, d);
    LinearSum(MulB, a, Double(b), Mul3(c), d);
    LinearSum(MulD, a, b, Double(c), Mul3(d));
    LinearSum(Mul9, Mul3(a), b, c, Double(d));
    Transpose(MulE(Double(a)), MulE(Mul3(b)), MulE(c), MulE(d),
              MulB(a), MulB(Double(b)), MulB(Mul3(c)), MulB(d),
              MulD(a), MulD(b), MulD(Double(c)), MulD(Mul3(d)),
              Mul9(Mul3(a)), Mul9(b), Mul9(c), Mul9(Double(d)));
    Entries(a); Entries(b); Entries(c); Entries(d);
    SumZero(a);
  }

  lemma MixInverse(x: Column)
    ensures InvMix(Mix(x)) == x
  {
    hide Add, Sum4, Double, Mul3, Mul9, MulB, MulD, MulE;
    var Column(a, b, c, d) := x;
    var y := Mix(x);
    RotatedMix(a, b, c, d);
    MixedRow(a, b, c, d);
    MixedRow(b, c, d, a);
    MixedRow(c, d, a, b);
    MixedRow(d, a, b, c);
    Rotate(Mul9(y.a), MulE(y.b), MulB(y.c), MulD(y.d));
    Rotate(MulD(y.a), Mul9(y.b), MulE(y.c), MulB(y.d));
    Rotate(Mul9(y.b), MulE(y.c), MulB(y.d), MulD(y.a));
    Rotate(MulB(y.a), MulD(y.b), Mul9(y.c), MulE(y.d));
    Rotate(MulD(y.b), Mul9(y.c), MulE(y.d), MulB(y.a));
    Rotate(Mul9(y.c), MulE(y.d), MulB(y.a), MulD(y.b));
  }

  /** The bytes of a mixed column, each started at the next byte of the column. */
  lemma RotatedMix(a: bv8, b: bv8, c: bv8, d: bv8)
    ensures var y := Mix(Column(a, b, c, d));
            && y.a == Sum4(Mul3(b), c, d, Double(a)) == Sum4(c, d, Double(a), Mul3(b)) == Sum4(d, Double(a), Mul3(b), c)
            && y.b == Sum4(Double(b), Mul3(c), d, a) == Sum4(Mul3(c), d, a, Double(b)) == Sum4(d, a, Double(b), Mul3(c))
            && y.c == Sum4(b, Double(c), Mul3(d), a) == Sum4(Double(c), Mul3(d), a, b) == Sum4(Mul3(d), a, b, Double(c))
            && y.d == Sum4(b, c, Double(d), Mul3(a)) == Sum4(c, Double(d), Mul3(a), b) == Sum4(Double(d), Mul3(a), b, c)
  {
    hide Add, Sum4, Double, Mul3;
    Rotations(Double(a), Mul3(b), c, d);
    Rotations(a, Double(b), Mul3(c), d);
    Rotations(a, b, Double(c), Mul3(d));
    Rotations(Mul3(a), b, c, Double(d));
  }

  lemma Rotations(p: bv8, q: bv8, r: bv8, s: bv8)
    ensures Sum4(p, q, r, s) == Sum4(q, r, s, p) == Sum4(r, s, p, q) == Sum4(s, p, q, r)
  {
    hide Sum4;
    Rotate(p, q, r, s);
    Rotate(q, r, s, p);
    Rotate(r, s, p, q);
  }

  lemma Uncancel0(v: Multiples)
    ensures Sum4(Add(Add(v.v4, v.v3), v.v2), Add(Add(v.v4, v.v1), Add(v.v3, v.v0)), Add(Add(v.v3, v.v2), v.v0),
                 Add(Add(v.v3, v.v1), v.v0)) == v.v0
  {
    hide Add, Poly;
    PolyUnits(v);
    PolyAdd(0x10, 0x8, v); PolyAdd(0x18, 0x4, v); PolyAdd(0x10, 0x2, v); PolyAdd(0x8, 0x1, v); PolyAdd(0x12, 0x9, v);
    PolyAdd(0x8, 0x4, v); PolyAdd(0xc, 0x1, v); PolyAdd(0x8, 0x2, v); PolyAdd(0xa, 0x1, v); PolyAdd(0x1c, 0x1b, v);
    PolyAdd(0x7, 0xd, v); PolyAdd(0xa, 0xb, v);
  }

  lemma Uncancel1(v: Multiples)
    ensures Sum4(Add(Add(v.v4, v.v2), v.v1), Add(Add(Add(v.v4, v.v3), v.v2), Add(Add(v.v3, v.v2), v.v1)),
                 Add(v.v3, v.v0), Add(Add(v.v3, v.v2), v.v0)) == 0
  {
    hide Add, Poly;
    PolyUnits(v);
    PolyAdd(0x10, 0x4, v); PolyAdd(0x14, 0x2, v); PolyAdd(0x10, 0x8, v); PolyAdd(0x18, 0x4, v); PolyAdd(0x8, 0x4, v);
    PolyAdd(0xc, 0x2, v); PolyAdd(0x1c, 0xe, v); PolyAdd(0x8, 0x1, v); PolyAdd(0xc, 0x1, v); PolyAdd(0x16, 0x12, v);
    PolyAdd(0x4, 0x9, v); PolyAdd(0xd, 0xd, v);
  }

  lemma Uncancel2(v: Multiples)
    ensures Sum4(Add(Add(v.v4, v.v3), v.v1), Add(Add(Add(v.v4, v.v2), v.v1), Add(Add(v.v3, v.v1), v.v0)),
                 Add(Add(v.v3, v.v2), v.v1), Add(v.v3, v.v0)) == 0
  {
    hide Add, Poly;
    PolyUnits(v);
    PolyAdd(0x10, 0x8, v); PolyAdd(0x18, 0x2, v); PolyAdd(0x10, 0x4, v); PolyAdd(0x14, 0x2, v); PolyAdd(0x8, 0x2, v);
    PolyAdd(0xa, 0x1, v); PolyAdd(0x16, 0xb, v); PolyAdd(0x8, 0x4, v); PolyAdd(0xc, 0x2, v); PolyAdd(0x8, 0x1, v);
    PolyAdd(0x1a, 0x1d, v); PolyAdd(0x7, 0xe, v); PolyAdd(0x9, 0x9, v);
  }

  lemma Uncancel3(v: Multiples)
    ensures Sum4(Add(v.v4, v.v1), Add(Add(Add(v.v4, v.v3), v.v1), Add(Add(v.v3, v.v2), v.v0)),
                 Add(Add(v.v3, v.v1), v.v0), Add(Add(v.v3, v.v2), v.v1)) == 0
  {
    hide Add, Poly;
    PolyUnits(v);
    PolyAdd(0x10, 0x2, v); PolyAdd(0x10, 0x8, v); PolyAdd(0x18, 0x2, v); PolyAdd(0x8, 0x4, v); PolyAdd(0xc, 0x1, v);
    PolyAdd(0x1a, 0xd, v); PolyAdd(0x8, 0x2, v); PolyAdd(0xa, 0x1, v); PolyAdd(0xc, 0x2, v); PolyAdd(0x12, 0x17, v);
    PolyAdd(0x5, 0xb, v); PolyAdd(0xe, 0xe, v);
  }

  /** The same for a column that was unmixed and mixed. */
  lemma InverseEntries(v: bv8)
    ensures Sum4(Double(MulE(v)), Mul3(Mul9(v)), MulD(v), MulB(v)) == v
    ensures Sum4(Double(MulB(v)), Mul3(MulE(v)), Mul9(v), MulD(v)) == 0
    ensures Sum4(Double(MulD(v)), Mul3(MulB(v)), MulE(v), Mul9(v)) == 0
    ensures Sum4(Double(Mul9(v)), Mul3(MulD(v)), MulB(v), MulE(v)) == 0
  {
    hide Add, Double, Sum4;
    var v1 := Double(v);
    var v2 := Double(v1);
    var v3 := Double(v2);
    var v4 := Double(v3);
    DoubleAdd(v3, v);
    DoubleAdd(v3, v1); DoubleAdd(Add(v3, v1), v);
    DoubleAdd(v3, v2); DoubleAdd(Add(v3, v2), v); DoubleAdd(Add(v3, v2), v1);
    Uncancel0(Multiples(v, v1, v2, v3, v4));
    Uncancel1(Multiples(v, v1, v2, v3, v4));
    Uncancel2(Multiples(v, v1, v2, v3, v4));
    Uncancel3(Multiples(v, v1, v2, v3, v4));
  }

  lemma UnmixedRow(a: bv8, b: bv8, c: bv8, d: bv8)
    ensures Sum4(Double(Sum4(MulE(a), MulB(b), MulD(c), Mul9(d))), Mul3(Sum4(Mul9(a), MulE(b), MulB(c), MulD(d))),
                 Sum4(MulD(a), Mul9(b), MulE(c), MulB(d)), Sum4(MulB(a), MulD(b), Mul9(c), MulE(d))) == a
  {
    hide Add, Sum4, Double, Mul3, Mul9, MulB, MulD, MulE, Linear;
    MulLinear();
    LinearSum(Double, MulE(a), MulB(b), MulD(c), Mul9(d));
    LinearSum(Mul3, Mul9(a), MulE(b), MulB(c), MulD(d));
    Transpose(Double(MulE(a)), Double(MulB(b)), Double(MulD(c)), Double(Mul9(d)),
              Mul3(Mul9(a)), Mul3(MulE(b)), Mul3(MulB(c)), Mul3(MulD(d)),
              MulD(a), Mul9(b), MulE(c), MulB(d),
              MulB(a), MulD(b), Mul9(c), MulE(d));
    InverseEntries(a); InverseEntries(b); InverseEntries(c); InverseEntries(d);
    SumZero(a);
  }

  lemma InvMixInverse(x: Column)
    ensures Mix(InvMix(x)) == x
  {
    hide Add, Sum4, Double, Mul3, Mul9, MulB, MulD, MulE;
    var Column(a, b, c, d) := x;
    var y := InvMix(x);
    RotatedInvMix(a, b, c, d);
    UnmixedRow(a, b, c, d);
    UnmixedRow(b, c, d, a);
    UnmixedRow(c, d, a, b);
    UnmixedRow(d, a, b, c);
    Rotations(y.a, Double(y.b), Mul3(y.c), y.d);
    Rotations(y.a, y.b, Double(y.c), Mul3(y.d));
    Rotations(Mul3(y.a), y.b, y.c, Double(y.d));
  }

  lemma RotatedInvMix(a: bv8, b: bv8, c: bv8, d: bv8)
    ensures var y := InvMix(Column(a, b, c, d));
            && y.a == Sum4(MulB(b), MulD(c), Mul9(d), MulE(a)) == Sum4(MulD(c), Mul9(d), MulE(a), MulB(b)) ==
               Sum4(Mul9(d), MulE(a), MulB(b), MulD(c))
            && y.b == Sum4(MulE(b), MulB(c), MulD(d), Mul9(a)) == Sum4(MulB(c), MulD(d), Mul9(a), MulE(b)) ==
               Sum4(MulD(d), Mul9(a), MulE(b), MulB(c))
            && y.c == Sum4(Mul9(b), MulE(c), MulB(d), MulD(a)) == Sum4(MulE(c), MulB(d), MulD(a), Mul9(b)) ==
               Sum4(MulB(d), MulD(a), Mul9(b), MulE(c))
            && y.d == Sum4(MulD(b), Mul9(c), MulE(d), MulB(a)) == Sum4(Mul9(c), MulE(d), MulB(a), MulD(b)) ==
               Sum4(MulE(d), MulB(a), MulD(b), Mul9(c))
  {
    hide Add, Sum4, Mul9, MulB, MulD, MulE;
    Rotations(MulE(a), MulB(b), MulD(c), Mul9(d));
    Rotations(Mul9(a), MulE(b), MulB(c), MulD(d));
    Rotations(MulD(a), Mul9(b), MulE(c), MulB(d));
    Rotations(MulB(a), MulD(b), Mul9(c), MulE(d));
  }
}
