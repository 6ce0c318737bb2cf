/**
 Bytes as numbers, and 16-bit words with the low byte first.
 */
module Octet {
  type u16 = x: int | 0 <= x < 65536 witness 0

  /** The byte of value n modulo 256. */
  function Byte(n: nat): bv8 {
    BinaryByte(n % 256)
  }

  function BinaryByte(n: nat): bv8 {
    Bits(n % 2 == 1, n / 2 % 2 == 1, n / 4 % 2 == 1, n / 8 % 2 == 1,
         n / 16 % 2 == 1, n / 32 % 2 == 1, n / 64 % 2 == 1, n / 128 % 2 == 1)
  }

  function Bits(b0: bool, b1: bool, b2: bool, b3: bool, b4: bool, b5: bool, b6: bool, b7: bool): bv8 {
    (if b0 then 1 else 0) | (if b1 then 2 else 0) | (if b2 then 4 else 0) | (if b3 then 8 else 0)
    | (if b4 then 16 else 0) | (if b5 then 32 else 0) | (if b6 then 64 else 0) | (if b7 then 128 else 0)
  }

  predicate Set(b: bv8, mask: bv8) {
    b & mask != 0
  }

  /** Four binary digits, the lowest first. */
  function Nibble(b0: bool, b1: bool, b2: bool, b3: bool): (n: nat)
    ensures n < 16
  {
    (if b0 then 1 else 0) + (if b1 then 2 else 0) + (if b2 then 4 else 0) + (if b3 then 8 else 0)
  }

  function Value(b: bv8): (n: nat)
    ensures n < 256
  {
    Nibble(Set(b, 1), Set(b, 2), Set(b, 4), Set(b, 8))
    + 16 * Nibble(Set(b, 16), Set(b, 32), Set(b, 64), Set(b, 128))
  }

  lemma BitsOf(b0: bool, b1: bool, b2: bool, b3: bool, b4: bool, b5: bool, b6: bool, b7: bool)
    ensures var b := Bits(b0, b1, b2, b3, b4, b5, b6, b7);
            && (Set(b, 1) <==> b0) && (Set(b, 2) <==> b1) && (Set(b, 4) <==> b2) && (Set(b, 8) <==> b3)
            && (Set(b, 16) <==> b4) && (Set(b, 32) <==> b5) && (Set(b, 64) <==> b6) && (Set(b, 128) <==> b7)
  {
  }

  lemma NibbleOf(d0: nat, d1: nat, d2: nat, d3: nat)
    requires d0 < 2 && d1 < 2 && d2 < 2 && d3 < 2
    ensures Nibble(d0 == 1, d1 == 1, d2 == 1, d3 == 1) == d0 + 2 * d1 + 4 * d2 + 8 * d3
  {
  }

  lemma ValueOfBits(d0: nat, d1: nat, d2: nat, d3: nat, d4: nat, d5: nat, d6: nat, d7: nat)
    requires d0 < 2 && d1 < 2 && d2 < 2 && d3 < 2 && d4 < 2 && d5 < 2 && d6 < 2 && d7 < 2
    ensures Value(Bits(d0 == 1, d1 == 1, d2 == 1, d3 == 1, d4 == 1, d5 == 1, d6 == 1, d7 == 1)) ==
            d0 + 2 * d1 + 4 * d2 + 8 * d3 + 16 * d4 + 32 * d5 + 64 * d6 + 128 * d7
  {
    hide Bits, Set, Nibble;
    BitsOf(d0 == 1, d1 == 1, d2 == 1, d3 == 1, d4 == 1, d5 == 1, d6 == 1, d7 == 1);
    NibbleOf(d0, d1, d2, d3);
    NibbleOf(d4, d5, d6, d7);
  }

  lemma ByteRoundTrip(n: nat)
    ensures Value(Byte(n)) == n % 256
  {
    hide Bits, Value;
    var m := n % 256;
    ValueOfBits(m % 2, m / 2 % 2, m / 4 % 2, m / 8 % 2, m / 16 % 2, m / 32 % 2, m / 64 % 2, m / 128 % 2);
    BinaryDigits(m);
  }

  lemma BinaryDigits(n: nat)
    requires n < 256
    ensures n == n % 2 + 2 * (n / 2 % 2) + 4 * (n / 4 % 2) + 8 * (n / 8 % 2)
                 + 16 * (n / 16 % 2) + 32 * (n / 32 % 2) + 64 * (n / 64 % 2) + 128 * (n / 128 % 2)
  {
    Halve(n, 1);
    Halve(n, 2);
    Halve(n, 4);
    Halve(n, 8);
    Halve(n, 16);
    Halve(n, 32);
    Halve(n, 64);
    Halve(n, 128);
    assert n / 256 == 0;
    assert n == n / 1;
  }

  lemma Halve(n: nat, w: nat)
    requires w in {1, 2, 4, 8, 16, 32, 64, 128}
    ensures n / w == n / w % 2 + 2 * (n / (2 * w))
  {
  }

  function Word(x: u16): (r: seq<bv8>)
    ensures |r| == 2
  {
    [Byte(x), Byte(x / 256)]
  }

  function WordAt(s: seq<bv8>, i: nat): u16
    requires i + 2 <= |s|
  {
    Value(s[i]) + 256 * Value(s[i + 1])
  }

  lemma WordRoundTrip(x: u16, pre: seq<bv8>, post: seq<bv8>)
    ensures WordAt(pre + Word(x) + post, |pre|) == x
  {
    hide Byte, Value;
    var s := pre + Word(x) + post;
    assert s[|pre|] == Word(x)[0] && s[|pre| + 1] == Word(x)[1];
    ByteRoundTrip(x);
    ByteRoundTrip(x / 256);
  }

  lemma XorTwice(b: bv8, key: bv8)
    ensures (b ^ key) ^ key == b
  {
  }

  function Zeros(n: nat): (r: seq<bv8>)
    ensures |r| == n
  {
    seq(n, _ => 0)
  }
}
