/**
 The parts of the cipher against what FIPS 197 says about them in words: the field by its
 products, the table of substitutions by inverses and an affine map, the round constants by
 powers of {02}, the rows by the places they move and the columns by field products.
 */
module AesStandard {
  import opened AesField
  import opened AesTables
  import opened AesRounds

  // ----- the field (section 4.2)

  /** x if the bit is set in y. */
  function Term(x: bv8, y: bv8, bit: bv8): bv8 {
    if y & bit == 0 then 0 else x
  }

  /** The product of two bytes: the sum of x shifted by each bit of y, where every shift
      beyond the byte is reduced by {1b}. */
  function Product(x: bv8, y: bv8): bv8 {
    var x1 := Double(x);
    var x2 := Double(x1);
    var x3 := Double(x2);
    var x4 := Double(x3);
    var x5 := Double(x4);
    var x6 := Double(x5);
    var x7 := Double(x6);
    Term(x7, y, 0x80) ^ Term(x6, y, 0x40) ^ Term(x5, y, 0x20) ^ Term(x4, y, 0x10)
    ^ Term(x3, y, 0x08) ^ Term(x2, y, 0x04) ^ Term(x1, y, 0x02) ^ Term(x, y, 0x01)
  }

  lemma DoubleReduces(x: bv8)
    ensures Double(x) == if x >= 0x80 then (x << 1) ^ 0x1b else x << 1
  {
  }

  /** The example of section 4.2. */
  lemma ProductExample()
    ensures Product(0x57, 0x83) == 0xc1 && Product(0x57, 0x13) == 0xfe
  {
  }

  // ----- the substitutions (section 5.1.1)

  /** Bit i of the result is the sum of the bits i, i + 4, i + 5, i + 6 and i + 7, counted
      round the byte, and of bit i of {63}. */
  function Affine(y: bv8): bv8 {
    y ^ ((y << 1) | (y >> 7)) ^ ((y << 2) | (y >> 6)) ^ ((y << 3) | (y >> 5)) ^ ((y << 4) | (y >> 4)) ^ 0x63
  }

  function AffineInverse(y: bv8): bv8 {
    ((y << 1) | (y >> 7)) ^ ((y << 3) | (y >> 5)) ^ ((y << 6) | (y >> 2)) ^ 0x05
  }

  lemma AffineUndone(y: bv8)
    ensures Affine(AffineInverse(y)) == y
  {
  }

  /** What the table does before the affine map. */
  function Reciprocal(x: bv8): bv8 {
    AffineInverse(Sbox(x))
  }

  /** What the table is said to hold. */
  predicate Inverted(x: bv8) {
    if x == 0 then Reciprocal(x) == 0 else Product(x, Reciprocal(x)) == 1
  }

  lemma Row0(x: bv8)
    requires x >> 4 == 0x0
    ensures Inverted(x)
  {
    match x & 15
    case 0 => assert x == 0x00; case 1 => assert x == 0x01; case 2 => assert x == 0x02; case 3 => assert x == 0x03;
    case 4 => assert x == 0x04; case 5 => assert x == 0x05; case 6 => assert x == 0x06; case 7 => assert x == 0x07;
    case 8 => assert x == 0x08; case 9 => assert x == 0x09; case 10 => assert x == 0x0a; case 11 => assert x == 0x0b;
    case 12 => assert x == 0x0c; case 13 => assert x == 0x0d; case 14 => assert x == 0x0e; case _ => assert x == 0x0f;
  }

  lemma Row1(x: bv8)
    requires x >> 4 == 0x1
    ensures Inverted(x)
  {
    match x & 15
    case 0 => assert x == 0x10; case 1 => assert x == 0x11; case 2 => assert x == 0x12; case 3 => assert x == 0x13;
    case 4 => assert x == 0x14; case 5 => assert x == 0x15; case 6 => assert x == 0x16; case 7 => assert x == 0x17;
    case 8 => assert x == 0x18; case 9 => assert x == 0x19; case 10 => assert x == 0x1a; case 11 => assert x == 0x1b;
    case 12 => assert x == 0x1c; case 13 => assert x == 0x1d; case 14 => assert x == 0x1e; case _ => assert x == 0x1f;
  }

  lemma Row2(x: bv8)
    requires x >> 4 == 0x2
    ensures Inverted(x)
  {
    match x & 15
    case 0 => assert x == 0x20; case 1 => assert x == 0x21; case 2 => assert x == 0x22; case 3 => assert x == 0x23;
    case 4 => assert x == 0x24; case 5 => assert x == 0x25; case 6 => assert x == 0x26; case 7 => assert x == 0x27;
    case 8 => assert x == 0x28; case 9 => assert x == 0x29; case 10 => assert x == 0x2a; case 11 => assert x == 0x2b;
    case 12 => assert x == 0x2c; case 13 => assert x == 0x2d; case 14 => assert x == 0x2e; case _ => assert x == 0x2f;
  }

  lemma Row3(x: bv8)
    requires x >> 4 == 0x3
    ensures Inverted(x)
  {
    match x & 15
    case 0 => assert x == 0x30; case 1 => assert x == 0x31; case 2 => assert x == 0x32; case 3 => assert x == 0x33;
    case 4 => assert x == 0x34; case 5 => assert x == 0x35; case 6 => assert x == 0x36; case 7 => assert x == 0x37;
    case 8 => assert x == 0x38; case 9 => assert x == 0x39; case 10 => assert x == 0x3a; case 11 => assert x == 0x3b;
    case 12 => assert x == 0x3c; case 13 => assert x == 0x3d; case 14 => assert x == 0x3e; case _ => assert x == 0x3f;
  }

  lemma Row4(x: bv8)
    requires x >> 4 == 0x4
    ensures Inverted(x)
  {
    match x & 15
    case 0 => assert x == 0x40; case 1 => assert x == 0x41; case 2 => assert x == 0x42; case 3 => assert x == 0x43;
    case 4 => assert x == 0x44; case 5 => assert x == 0x45; case 6 => assert x == 0x46; case 7 => assert x == 0x47;
    case 8 => assert x == 0x48; case 9 => assert x == 0x49; case 10 => assert x == 0x4a; case 11 => assert x == 0x4b;
    case 12 => assert x == 0x4c; case 13 => assert x == 0x4d; case 14 => assert x == 0x4e; case _ => assert x == 0x4f;
  }

  lemma Row5(x: bv8)
    requires x >> 4 == 0x5
    ensures Inverted(x)
  {
    match x & 15
    case 0 => assert x == 0x50; case 1 => assert x == 0x51; case 2 => assert x == 0x52; case 3 => assert x == 0x53;
    case 4 => assert x == 0x54; case 5 => assert x == 0x55; case 6 => assert x == 0x56; case 7 => assert x == 0x57;
    case 8 => assert x == 0x58; case 9 => assert x == 0x59; case 10 => assert x == 0x5a; case 11 => assert x == 0x5b;
    case 12 => assert x == 0x5c; case 13 => assert x == 0x5d; case 14 => assert x == 0x5e; case _ => assert x == 0x5f;
  }

  lemma Row6(x: bv8)
    requires x >> 4 == 0x6
    ensures Inverted(x)
  {
    match x & 15
    case 0 => assert x == 0x60; case 1 => assert x == 0x61; case 2 => assert x == 0x62; case 3 => assert x == 0x63;
    case 4 => assert x == 0x64; case 5 => assert x == 0x65; case 6 => assert x == 0x66; case 7 => assert x == 0x67;
    case 8 => assert x == 0x68; case 9 => assert x == 0x69; case 10 => assert x == 0x6a; case 11 => assert x == 0x6b;
    case 12 => assert x == 0x6c; case 13 => assert x == 0x6d; case 14 => assert x == 0x6e; case _ => assert x == 0x6f;
  }

  lemma Row7(x: bv8)
    requires x >> 4 == 0x7
    ensures Inverted(x)
  {
    match x & 15
    case 0 => assert x == 0x70; case 1 => assert x == 0x71; case 2 => assert x == 0x72; case 3 => assert x == 0x73;
    case 4 => assert x == 0x74; case 5 => assert x == 0x75; case 6 => assert x == 0x76; case 7 => assert x == 0x77;
    case 8 => assert x == 0x78; case 9 => assert x == 0x79; case 10 => assert x == 0x7a; case 11 => assert x == 0x7b;
    case 12 => assert x == 0x7c; case 13 => assert x == 0x7d; case 14 => assert x == 0x7e; case _ => assert x == 0x7f;
  }

  lemma Row8(x: bv8)
    requires x >> 4 == 0x8
    ensures Inverted(x)
  {
    match x & 15
    case 0 => assert x == 0x80; case 1 => assert x == 0x81; case 2 => assert x == 0x82; case 3 => assert x == 0x83;
    case 4 => assert x == 0x84; case 5 => assert x == 0x85; case 6 => assert x == 0x86; case 7 => assert x == 0x87;
    case 8 => assert x == 0x88; case 9 => assert x == 0x89; case 10 => assert x == 0x8a; case 11 => assert x == 0x8b;
    case 12 => assert x == 0x8c; case 13 => assert x == 0x8d; case 14 => assert x == 0x8e; case _ => assert x == 0x8f;
  }

  lemma Row9(x: bv8)
    requires x >> 4 == 0x9
    ensures Inverted(x)
  {
    match x & 15
    case 0 => assert x == 0x90; case 1 => assert x == 0x91; case 2 => assert x == 0x92; case 3 => assert x == 0x93;
    case 4 => assert x == 0x94; case 5 => assert x == 0x95; case 6 => assert x == 0x96; case 7 => assert x == 0x97;
    case 8 => assert x == 0x98; case 9 => assert x == 0x99; case 10 => assert x == 0x9a; case 11 => assert x == 0x9b;
    case 12 => assert x == 0x9c; case 13 => assert x == 0x9d; case 14 => assert x == 0x9e; case _ => assert x == 0x9f;
  }

  lemma RowA(x: bv8)
    requires x >> 4 == 0xa
    ensures Inverted(x)
  {
    match x & 15
    case 0 => assert x == 0xa0; case 1 => assert x == 0xa1; case 2 => assert x == 0xa2; case 3 => assert x == 0xa3;
    case 4 => assert x == 0xa4; case 5 => assert x == 0xa5; case 6 => assert x == 0xa6; case 7 => assert x == 0xa7;
    case 8 => assert x == 0xa8; case 9 => assert x == 0xa9; case 10 => assert x == 0xaa; case 11 => assert x == 0xab;
    case 12 => assert x == 0xac; case 13 => assert x == 0xad; case 14 => assert x == 0xae; case _ => assert x == 0xaf;
  }

  lemma RowB(x: bv8)
    requires x >> 4 == 0xb
    ensures Inverted(x)
  {
    match x & 15
    case 0 => assert x == 0xb0; case 1 => assert x == 0xb1; case 2 => assert x == 0xb2; case 3 => assert x == 0xb3;
    case 4 => assert x == 0xb4; case 5 => assert x == 0xb5; case 6 => assert x == 0xb6; case 7 => assert x == 0xb7;
    case 8 => assert x == 0xb8; case 9 => assert x == 0xb9; case 10 => assert x == 0xba; case 11 => assert x == 0xbb;
    case 12 => assert x == 0xbc; case 13 => assert x == 0xbd; case 14 => assert x == 0xbe; case _ => assert x == 0xbf;
  }

  lemma RowC(x: bv8)
    requires x >> 4 == 0xc
    ensures Inverted(x)
  {
    match x & 15
    case 0 => assert x == 0xc0; case 1 => assert x == 0xc1; case 2 => assert x == 0xc2; case 3 => assert x == 0xc3;
    case 4 => assert x == 0xc4; case 5 => assert x == 0xc5; case 6 => assert x == 0xc6; case 7 => assert x == 0xc7;
    case 8 => assert x == 0xc8; case 9 => assert x == 0xc9; case 10 => assert x == 0xca; case 11 => assert x == 0xcb;
    case 12 => assert x == 0xcc; case 13 => assert x == 0xcd; case 14 => assert x == 0xce; case _ => assert x == 0xcf;
  }

  lemma RowD(x: bv8)
    requires x >> 4 == 0xd
    ensures Inverted(x)
  {
    match x & 15
    case 0 => assert x == 0xd0; case 1 => assert x == 0xd1; case 2 => assert x == 0xd2; case 3 => assert x == 0xd3;
    case 4 => assert x == 0xd4; case 5 => assert x == 0xd5; case 6 => assert x == 0xd6; case 7 => assert x == 0xd7;
    case 8 => assert x == 0xd8; case 9 => assert x == 0xd9; case 10 => assert x == 0xda; case 11 => assert x == 0xdb;
    case 12 => assert x == 0xdc; case 13 => assert x == 0xdd; case 14 => assert x == 0xde; case _ => assert x == 0xdf;
  }

  lemma RowE(x: bv8)
    requires x >> 4 == 0xe
    ensures Inverted(x)
  {
    match x & 15
    case 0 => assert x == 0xe0; case 1 => assert x == 0xe1; case 2 => assert x == 0xe2; case 3 => assert x == 0xe3;
    case 4 => assert x == 0xe4; case 5 => assert x == 0xe5; case 6 => assert x == 0xe6; case 7 => assert x == 0xe7;
    case 8 => assert x == 0xe8; case 9 => assert x == 0xe9; case 10 => assert x == 0xea; case 11 => assert x == 0xeb;
    case 12 => assert x == 0xec; case 13 => assert x == 0xed; case 14 => assert x == 0xee; case _ => assert x == 0xef;
  }

  lemma RowF(x: bv8)
    requires x >> 4 == 0xf
    ensures Inverted(x)
  {
    match x & 15
    case 0 => assert x == 0xf0; case 1 => assert x == 0xf1; case 2 => assert x == 0xf2; case 3 => assert x == 0xf3;
    case 4 => assert x == 0xf4; case 5 => assert x == 0xf5; case 6 => assert x == 0xf6; case 7 => assert x == 0xf7;
    case 8 => assert x == 0xf8; case 9 => assert x == 0xf9; case 10 => assert x == 0xfa; case 11 => assert x == 0xfb;
    case 12 => assert x == 0xfc; case 13 => assert x == 0xfd; case 14 => assert x == 0xfe; case _ => assert x == 0xff;
  }

  /** The table is the affine map applied to the multiplicative inverse in the field, and to
      0 for 0. */
  lemma SboxIsAffine(x: bv8)
    ensures exists y :: Sbox(x) == Affine(y) && if x == 0 then y == 0 else Product(x, y) == 1
  {
    hide Sbox, Affine, AffineInverse, Product;
    AffineUndone(Sbox(x));
    RowsInverted(x);
    assert Sbox(x) == Affine(Reciprocal(x));
  }

  lemma RowOf(x: bv8)
    ensures x >> 4 < 16
  {
  }

  lemma RowsInverted(x: bv8)
    ensures Inverted(x)
  {
    hide Inverted;
    RowOf(x);
    match x >> 4
    case 0 => Row0(x); case 1 => Row1(x); case 2 => Row2(x); case 3 => Row3(x);
    case 4 => Row4(x); case 5 => Row5(x); case 6 => Row6(x); case 7 => Row7(x);
    case 8 => Row8(x); case 9 => Row9(x); case 10 => RowA(x); case 11 => RowB(x);
    case 12 => RowC(x); case 13 => RowD(x); case 14 => RowE(x); case _ => RowF(x);
  }

  // ----- the round constants (section 5.2)

  /** Powers of {02} from {01} on. */
  lemma RconIsPowers(i: nat)
    requires 1 <= i <= 10
    ensures RCON[1] == 1 && |RCON| == 11 && (i < 10 ==> RCON[i + 1] == Double(RCON[i]))
  {
    assert RCON[1] == 0x01 && RCON[2] == 0x02 && RCON[3] == 0x04 && RCON[4] == 0x08 && RCON[5] == 0x10;
    assert RCON[6] == 0x20 && RCON[7] == 0x40 && RCON[8] == 0x80 && RCON[9] == 0x1b && RCON[10] == 0x36;
  }

  // ----- rows and columns (sections 5.1.2, 5.1.3, 5.3.1 and 5.3.3)

  /** Row r is rotated by r places to the left, and back to the right. */
  lemma RowsRotate(s: Block, r: nat, c: nat)
    requires r < 4 && c < 4
    ensures ShiftRows(s)[r + 4 * c] == s[r + 4 * ((c + r) % 4)]
    ensures InvShiftRows(s)[r + 4 * ((c + r) % 4)] == s[r + 4 * c]
  {
    var t, u := ShiftRows(s), InvShiftRows(s);
    assert r == 0 || r == 1 || r == 2 || r == 3;
    assert c == 0 || c == 1 || c == 2 || c == 3;
  }

  lemma NoHighTerm(x: bv8, y: bv8, bit: bv8)
    requires y < 0x10 && bit in [0x10, 0x20, 0x40, 0x80]
    ensures Term(x, y, bit) == 0
  {
  }

  lemma ZerosInFront(a: bv8, b: bv8, c: bv8, d: bv8)
    ensures 0 ^ 0 ^ 0 ^ 0 ^ a ^ b ^ c ^ d == Sum4(a, b, c, d)
  {
  }

  /** The sum of 8x, 4x, 2x and x as far as the bits select them. */
  lemma SmallProduct(x: bv8, y: bv8)
    requires y < 0x10
    ensures Product(x, y) ==
            Sum4(Term(Double(Double(Double(x))), y, 0x08), Term(Double(Double(x)), y, 0x04), Term(Double(x), y, 0x02),
                 Term(x, y, 0x01))
  {
    hide Double, Term, Sum4;
    var x3 := Double(Double(Double(x)));
    var x5 := Double(Double(x3));
    NoHighTerm(Double(x3), y, 0x10);
    NoHighTerm(x5, y, 0x20);
    NoHighTerm(Double(x5), y, 0x40);
    NoHighTerm(Double(Double(x5)), y, 0x80);
    ZerosInFront(Term(x3, y, 0x08), Term(Double(Double(x)), y, 0x04), Term(Double(x), y, 0x02), Term(x, y, 0x01));
  }

  lemma ProductsByConstants(x: bv8)
    ensures Product(x, 0x01) == x && Product(x, 0x02) == Double(x) && Product(x, 0x03) == Mul3(x)
    ensures Product(x, 0x09) == Mul9(x) && Product(x, 0x0b) == MulB(x)
    ensures Product(x, 0x0d) == MulD(x) && Product(x, 0x0e) == MulE(x)
  {
    hide Double, Product, Add;
    var x1, x2, x3 := Double(x), Double(Double(x)), Double(Double(Double(x)));
    SmallProduct(x, 0x01);
    SmallProduct(x, 0x02);
    SmallProduct(x, 0x03);
    SmallProduct(x, 0x09);
    SmallProduct(x, 0x0b);
    SmallProduct(x, 0x0d);
    SmallProduct(x, 0x0e);
    AddZero(0);
    AddZero(x);
    AddZero(x1);
    AddZero(x3);
    AddZero(Add(x3, x2));
    AddZero(MulE(x));
  }

  /** Entry r of a column. */
  function Entry(x: Column, r: nat): bv8
    requires r < 4
  {
    match r case 0 => x.a case 1 => x.b case 2 => x.c case _ => x.d
  }

  /** The column with row r on top. */
  function Turned(x: Column, r: nat): Column {
    Column(Entry(x, r % 4), Entry(x, (r + 1) % 4), Entry(x, (r + 2) % 4), Entry(x, (r + 3) % 4))
  }

  lemma Turns(x: Column, r: nat)
    requires r < 4
    ensures r == 0 ==> Turned(x, r) == x
    ensures r == 1 ==> Turned(x, r) == Column(x.b, x.c, x.d, x.a)
    ensures r == 2 ==> Turned(x, r) == Column(x.c, x.d, x.a, x.b)
    ensures r == 3 ==> Turned(x, r) == Column(x.d, x.a, x.b, x.c)
  {
  }

  lemma MixedRow(x: Column, r: nat)
    requires r < 4
    ensures var t := Turned(x, r); Entry(Mix(x), r) == Sum4(Double(t.a), Mul3(t.b), t.c, t.d)
    ensures var t := Turned(x, r); Entry(InvMix(x), r) == Sum4(MulE(t.a), MulB(t.b), MulD(t.c), Mul9(t.d))
  {
    hide Sum4, Double, Mul3, Mul9, MulB, MulD, MulE, Mix, InvMix, Turned;
    Turns(x, r);
    FirstRow(x);
    RotatedRows(x);
  }

  /** Row r of a mixed column: {02} times its own entry, {03} times the next one below, counted
      round the column, and the other two; {0e}, {0b}, {0d} and {09} to undo it. */
  lemma MixIsProducts(x: Column, r: nat)
    requires r < 4
    ensures var t := Turned(x, r); Entry(Mix(x), r) == Sum4(Product(t.a, 0x02), Product(t.b, 0x03), t.c, t.d)
    ensures var t := Turned(x, r);
            Entry(InvMix(x), r) == Sum4(Product(t.a, 0x0e), Product(t.b, 0x0b), Product(t.c, 0x0d), Product(t.d, 0x09))
  {
    hide Product, Sum4, Double, Mul3, Mul9, MulB, MulD, MulE, Mix, InvMix, Turned, Entry;
    var t := Turned(x, r);
    ProductsByConstants(t.a);
    ProductsByConstants(t.b);
    ProductsByConstants(t.c);
    ProductsByConstants(t.d);
    MixedRow(x, r);
  }

  lemma FirstRow(x: Column)
    ensures Mix(x).a == Sum4(Double(x.a), Mul3(x.b), x.c, x.d)
    ensures InvMix(x).a == Sum4(MulE(x.a), MulB(x.b), MulD(x.c), Mul9(x.d))
  {
  }

  lemma RotatedRows(x: Column)
    ensures Mix(x).b == Sum4(Double(x.b), Mul3(x.c), x.d, x.a)
    ensures Mix(x).c == Sum4(Double(x.c), Mul3(x.d), x.a, x.b)
    ensures Mix(x).d == Sum4(Double(x.d), Mul3(x.a), x.b, x.c)
    ensures InvMix(x).b == Sum4(MulE(x.b), MulB(x.c), MulD(x.d), Mul9(x.a))
    ensures InvMix(x).c == Sum4(MulE(x.c), MulB(x.d), MulD(x.a), Mul9(x.b))
    ensures InvMix(x).d == Sum4(MulE(x.d), MulB(x.a), MulD(x.b), Mul9(x.c))
  {
    hide Sum4, Double, Mul3, Mul9, MulB, MulD, MulE;
    Rotate(x.a, Double(x.b), Mul3(x.c), x.d);
    Rotate(x.a, x.b, Double(x.c), Mul3(x.d));
    Rotate(x.b, Double(x.c), Mul3(x.d), x.a);
    Rotate(Mul3(x.a), x.b, x.c, Double(x.d));
    Rotate(x.b, x.c, Double(x.d), Mul3(x.a));
    Rotate(x.c, Double(x.d), Mul3(x.a), x.b);
    Rotate(Mul9(x.a), MulE(x.b), MulB(x.c), MulD(x.d));
    Rotate(MulD(x.a), Mul9(x.b), MulE(x.c), MulB(x.d));
    Rotate(Mul9(x.b), MulE(x.c), MulB(x.d), MulD(x.a));
    Rotate(MulB(x.a), MulD(x.b), Mul9(x.c), MulE(x.d));
    Rotate(MulD(x.b), Mul9(x.c), MulE(x.d), MulB(x.a));
    Rotate(Mul9(x.c), MulE(x.d), MulB(x.a), MulD(x.b));
  }
}
