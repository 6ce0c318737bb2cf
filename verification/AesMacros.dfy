/**
 The macros xtime and Multiply. They run on promoted ints, where bits beyond the
 eighth pile up; only the store into an `unsigned char` cuts them off. What is
 stored is the field product.
 */
module AesMacros {
  import opened AesField

  /** The promoted value of an `unsigned char`. */
  function Int(x: bv8): bv32 {
    x as bv32
  }

  /** Storing an int into an `unsigned char`. */
  function Stored(x: bv32): bv8 {
    (x & 0xff) as bv8
  }

  function Xor(x: bv32, y: bv32): bv32 {
    x ^ y
  }

  /** The macro xtime. */
  function Xtime(x: bv32): bv32 {
    (x << 1) ^ (((x >> 7) & 1) * 0x1b)
  }

  /** Bit k of y times x, as the terms of Multiply have it. */
  function BitTimes(y: bv32, k: nat, x: bv32): bv32
    requires k < 5
  {
    ((y >> k) & 1) * x
  }

  /** The macro Multiply. */
  function Multiply(x: bv32, y: bv32): bv32 {
    Xor(Xor(Xor(Xor(BitTimes(y, 0, x),
                    BitTimes(y, 1, Xtime(x))),
                BitTimes(y, 2, Xtime(Xtime(x)))),
            BitTimes(y, 3, Xtime(Xtime(Xtime(x))))),
        BitTimes(y, 4, Xtime(Xtime(Xtime(Xtime(x))))))
  }

  /** One byte of a column as InvMixColumns computes it, before the store. */
  function InvMixInt(e: bv8, b: bv8, d: bv8, n: bv8): bv32 {
    Xor(Xor(Xor(Multiply(Int(e), 0x0e), Multiply(Int(b), 0x0b)), Multiply(Int(d), 0x0d)), Multiply(Int(n), 0x09))
  }

  // ----- what is stored

  lemma StoredInt(x: bv8)
    ensures Stored(Int(x)) == x
  {
  }

  lemma StoredXtime(x: bv32)
    ensures Stored(Xtime(x)) == Double(Stored(x))
  {
  }

  lemma StoredXor(x: bv32, y: bv32)
    ensures Stored(Xor(x, y)) == Add(Stored(x), Stored(y))
  {
  }

  /** The constant y as a mask of powers. */
  function Mask(y: bv32): bv8 {
    if y == 0x09 then 0x09 else if y == 0x0b then 0x0b else if y == 0x0d then 0x0d else 0x0e
  }

  function Bit(k: nat): bv8 {
    if k == 0 then 1 else if k == 1 then 2 else if k == 2 then 4 else if k == 3 then 8 else 16
  }

  lemma StoredBitTimes(y: bv32, k: nat, x: bv32)
    requires k < 5
    requires y in [0x09, 0x0b, 0x0d, 0x0e]
    ensures Stored(BitTimes(y, k, x)) == Term(Mask(y) & Bit(k) != 0, Stored(x))
  {
    OneBit(y >> k);
    assert ((y >> k) & 1 == 1) <==> Mask(y) & Bit(k) != 0;
    if (y >> k) & 1 == 1 {
      TimesOne(x);
    } else {
      TimesZero(x);
    }
  }

  lemma OneBit(y: bv32)
    ensures y & 1 == 0 || y & 1 == 1
  {
  }

  lemma TimesOne(x: bv32)
    ensures 1 * x == x
  {
  }

  lemma TimesZero(x: bv32)
    ensures 0 * x == 0 && Stored(0) == 0
  {
  }

  lemma StoredMultiply(x: bv8, y: bv32)
    requires y in [0x09, 0x0b, 0x0d, 0x0e]
    ensures Stored(Multiply(Int(x), y)) ==
            if y == 0x09 then Mul9(x) else if y == 0x0b then MulB(x) else if y == 0x0d then MulD(x) else MulE(x)
  {
    hide Stored, Xor, Xtime, BitTimes, Int, Add, Double, Term, Mul9, MulB, MulD, MulE;
    var x0 := Int(x);
    var x1 := Xtime(x0);
    var x2 := Xtime(x1);
    var x3 := Xtime(x2);
    var x4 := Xtime(x3);
    StoredInt(x);
    StoredXtime(x0); StoredXtime(x1); StoredXtime(x2); StoredXtime(x3);
    StoredBitTimes(y, 0, x0); StoredBitTimes(y, 1, x1); StoredBitTimes(y, 2, x2); StoredBitTimes(y, 3, x3);
    StoredBitTimes(y, 4, x4);
    var s1 := Xor(BitTimes(y, 0, x0), BitTimes(y, 1, x1));
    var s2 := Xor(s1, BitTimes(y, 2, x2));
    var s3 := Xor(s2, BitTimes(y, 3, x3));
    StoredXor(BitTimes(y, 0, x0), BitTimes(y, 1, x1));
    StoredXor(s1, BitTimes(y, 2, x2));
    StoredXor(s2, BitTimes(y, 3, x3));
    StoredXor(s3, BitTimes(y, 4, x4));
    var v := Multiples(x, Double(x), Double(Double(x)), Double(Double(Double(x))), Double(Double(Double(Double(x)))));
    assert Stored(Multiply(x0, y)) == Poly(Mask(y), v);
    Masks(x);
  }

  lemma StoredInvMix(e: bv8, b: bv8, d: bv8, n: bv8)
    ensures Stored(InvMixInt(e, b, d, n)) == Sum4(MulE(e), MulB(b), MulD(d), Mul9(n))
  {
    hide Stored, Xor, Multiply, Int, Add, Mul9, MulB, MulD, MulE;
    var m, o, p, q := Multiply(Int(e), 0x0e), Multiply(Int(b), 0x0b), Multiply(Int(d), 0x0d), Multiply(Int(n), 0x09);
    StoredMultiply(e, 0x0e);
    StoredMultiply(b, 0x0b);
    StoredMultiply(d, 0x0d);
    StoredMultiply(n, 0x09);
    StoredXor(m, o);
    StoredXor(Xor(m, o), p);
    StoredXor(Xor(Xor(m, o), p), q);
  }
}
