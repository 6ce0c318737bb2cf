/**
 The MD5 digest of RFC 1321: padding, the block function and its output, on byte
 sequences.
 */
module Md5Spec {
  import opened Octet

  type bytes = seq<bv8>

  datatype Regs = Regs(a: bv32, b: bv32, c: bv32, d: bv32)

  const INIT := Regs(0x67452301, 0xefcdab89, 0x98badcfe, 0x10325476)

  // ----- section 3.4: one step

  function F(x: bv32, y: bv32, z: bv32): bv32 { (x & y) | (!x & z) }

  function G(x: bv32, y: bv32, z: bv32): bv32 { (x & z) | (y & !z) }

  function H(x: bv32, y: bv32, z: bv32): bv32 { x ^ y ^ z }

  function I(x: bv32, y: bv32, z: bv32): bv32 { y ^ (x | !z) }

  function Plus(x: bv32, y: bv32): bv32 { x + y }

  function Sum4(a: bv32, f: bv32, x: bv32, ac: bv32): bv32 { a + f + x + ac }

  /** Rotation to the left. */
  function RL(x: bv32, s: nat): bv32
    requires s <= 32
  {
    (x << s) | (x >> (32 - s))
  }

  function FF(a: bv32, b: bv32, c: bv32, d: bv32, x: bv32, s: nat, ac: bv32): bv32
    requires s <= 32
  {
    Plus(b, RL(Sum4(a, F(b, c, d), x, ac), s))
  }

  function GG(a: bv32, b: bv32, c: bv32, d: bv32, x: bv32, s: nat, ac: bv32): bv32
    requires s <= 32
  {
    Plus(b, RL(Sum4(a, G(b, c, d), x, ac), s))
  }

  function HH(a: bv32, b: bv32, c: bv32, d: bv32, x: bv32, s: nat, ac: bv32): bv32
    requires s <= 32
  {
    Plus(b, RL(Sum4(a, H(b, c, d), x, ac), s))
  }

  function II(a: bv32, b: bv32, c: bv32, d: bv32, x: bv32, s: nat, ac: bv32): bv32
    requires s <= 32
  {
    Plus(b, RL(Sum4(a, I(b, c, d), x, ac), s))
  }

  /** The word of the block that step i uses. */
  function WordIndex(i: nat): (k: nat)
    requires i < 64
    ensures k < 16
  {
    if i < 16 then i
    else if i < 32 then (5 * i + 1) % 16
    else if i < 48 then (3 * i + 5) % 16
    else 7 * i % 16
  }

  function Rotation(i: nat): (s: nat)
    requires i < 64
    ensures s <= 32
  {
    if i < 16 then OneOf(i % 4, 7, 12, 17, 22)
    else if i < 32 then OneOf(i % 4, 5, 9, 14, 20)
    else if i < 48 then OneOf(i % 4, 4, 11, 16, 23)
    else OneOf(i % 4, 6, 10, 15, 21)
  }

  function OneOf(i: nat, s0: nat, s1: nat, s2: nat, s3: nat): nat {
    if i == 0 then s0 else if i == 1 then s1 else if i == 2 then s2 else s3
  }

  /** 2^32 times the sine of i + 1, made positive and cut to an integer. */
  function Sine(i: nat): bv32
    requires i < 64
  {
    if i < 16 then Sine1(i) else if i < 32 then Sine2(i - 16) else if i < 48 then Sine3(i - 32) else Sine4(i - 48)
  }

  function Sine1(i: nat): bv32
    requires i < 16
  {
    match i
    case 0 => 0xd76aa478
    case 1 => 0xe8c7b756
    case 2 => 0x242070db
    case 3 => 0xc1bdceee
    case 4 => 0xf57c0faf
    case 5 => 0x4787c62a
    case 6 => 0xa8304613
    case 7 => 0xfd469501
    case 8 => 0x698098d8
    case 9 => 0x8b44f7af
    case 10 => 0xffff5bb1
    case 11 => 0x895cd7be
    case 12 => 0x6b901122
    case 13 => 0xfd987193
    case 14 => 0xa679438e
    case 15 => 0x49b40821
  }

  function Sine2(i: nat): bv32
    requires i < 16
  {
    match i
    case 0 => 0xf61e2562
    case 1 => 0xc040b340
    case 2 => 0x265e5a51
    case 3 => 0xe9b6c7aa
    case 4 => 0xd62f105d
    case 5 => 0x02441453
    case 6 => 0xd8a1e681
    case 7 => 0xe7d3fbc8
    case 8 => 0x21e1cde6
    case 9 => 0xc33707d6
    case 10 => 0xf4d50d87
    case 11 => 0x455a14ed
    case 12 => 0xa9e3e905
    case 13 => 0xfcefa3f8
    case 14 => 0x676f02d9
    case 15 => 0x8d2a4c8a
  }

  function Sine3(i: nat): bv32
    requires i < 16
  {
    match i
    case 0 => 0xfffa3942
    case 1 => 0x8771f681
    case 2 => 0x6d9d6122
    case 3 => 0xfde5380c
    case 4 => 0xa4beea44
    case 5 => 0x4bdecfa9
    case 6 => 0xf6bb4b60
    case 7 => 0xbebfbc70
    case 8 => 0x289b7ec6
    case 9 => 0xeaa127fa
    case 10 => 0xd4ef3085
    case 11 => 0x04881d05
    case 12 => 0xd9d4d039
    case 13 => 0xe6db99e5
    case 14 => 0x1fa27cf8
    case 15 => 0xc4ac5665
  }

  function Sine4(i: nat): bv32
    requires i < 16
  {
    match i
    case 0 => 0xf4292244
    case 1 => 0x432aff97
    case 2 => 0xab9423a7
    case 3 => 0xfc93a039
    case 4 => 0x655b59c3
    case 5 => 0x8f0ccc92
    case 6 => 0xffeff47d
    case 7 => 0x85845dd1
    case 8 => 0x6fa87e4f
    case 9 => 0xfe2ce6e0
    case 10 => 0xa3014314
    case 11 => 0x4e0811a1
    case 12 => 0xf7537e82
    case 13 => 0xbd3af235
    case 14 => 0x2ad7d2bb
    case 15 => 0xeb86d391
  }

  /** Word k of a block, the low byte first. */
  function WordOf(block: bytes, k: nat): bv32
    requires |block| == 64 && k < 16
  {
    (block[4 * k] as bv32) | ((block[4 * k + 1] as bv32) << 8)
    | ((block[4 * k + 2] as bv32) << 16) | ((block[4 * k + 3] as bv32) << 24)
  }

  /** Step i: one register is computed, then all change places. */
  function Step(r: Regs, block: bytes, i: nat): Regs
    requires |block| == 64 && i < 64
  {
    var x, s, ac := WordOf(block, WordIndex(i)), Rotation(i), Sine(i);
    var v := if i < 16 then FF(r.a, r.b, r.c, r.d, x, s, ac)
             else if i < 32 then GG(r.a, r.b, r.c, r.d, x, s, ac)
             else if i < 48 then HH(r.a, r.b, r.c, r.d, x, s, ac)
             else II(r.a, r.b, r.c, r.d, x, s, ac);
    Regs(r.d, v, r.b, r.c)
  }

  function Steps(r: Regs, block: bytes, n: nat): Regs
    requires |block| == 64 && n <= 64
  {
    if n == 0 then r else Step(Steps(r, block, n - 1), block, n - 1)
  }

  function AddRegs(r: Regs, v: Regs): Regs {
    Regs(Plus(r.a, v.a), Plus(r.b, v.b), Plus(r.c, v.c), Plus(r.d, v.d))
  }

  function Transform(r: Regs, block: bytes): Regs
    requires |block| == 64
  {
    AddRegs(r, Steps(r, block, 64))
  }

  // ----- sections 3.1 to 3.3: blocks and padding

  function BlockAt(data: bytes, i: nat): (r: bytes)
    requires 64 * i + 64 <= |data|
    ensures |r| == 64
  {
    data[64 * i..64 * i + 64]
  }

  /** The registers after the first n blocks of the data. */
  function Fold(data: bytes, n: nat): Regs
    requires 64 * n <= |data|
  {
    if n == 0 then INIT else Transform(Fold(data, n - 1), BlockAt(data, n - 1))
  }

  /** Four bytes that hold n modulo 2^32, the low byte first. */
  function Le32(n: nat): (r: bytes)
    ensures |r| == 4
  {
    [(n % 256) as bv8, (n / 256 % 256) as bv8, (n / 65536 % 256) as bv8, (n / 16777216 % 256) as bv8]
  }

  /** The number of bits of a message of n bytes, modulo 2^64. */
  function LengthBytes(n: nat): (r: bytes)
    ensures |r| == 8
  {
    Le32(8 * n % 0x1_0000_0000) + Le32(n / 0x2000_0000 % 0x1_0000_0000)
  }

  /** The fewest zeros with which padding and length fill up a block. */
  function PadZeros(n: nat): nat {
    if n % 64 < 56 then 55 - n % 64 else 119 - n % 64
  }

  function Padded(msg: bytes): (r: bytes) {
    msg + [0x80] + Zeros(PadZeros(|msg|)) + LengthBytes(|msg|)
  }

  function Digest(msg: bytes): Regs {
    Fold(Padded(msg), |Padded(msg)| / 64)
  }

  // ----- section 3.5: output

  function HexChar(n: bv8): char {
    if n == 0 then '0' else if n == 1 then '1' else if n == 2 then '2' else if n == 3 then '3'
    else if n == 4 then '4' else if n == 5 then '5' else if n == 6 then '6' else if n == 7 then '7'
    else if n == 8 then '8' else if n == 9 then '9' else if n == 10 then 'a' else if n == 11 then 'b'
    else if n == 12 then 'c' else if n == 13 then 'd' else if n == 14 then 'e' else 'f'
  }

  function HexByte(b: bv8): (r: string)
    ensures |r| == 2
  {
    [HexChar(b >> 4), HexChar(b & 15)]
  }

  /** The bytes of a register in memory, the low byte first. */
  function WordMem(w: bv32): (r: bytes)
    ensures |r| == 4
  {
    [(w & 0xff) as bv8, ((w >> 8) & 0xff) as bv8, ((w >> 16) & 0xff) as bv8, (w >> 24) as bv8]
  }

  function HexWord(w: bv32): (r: string)
    ensures |r| == 8
  {
    HexByte(WordMem(w)[0]) + HexByte(WordMem(w)[1]) + HexByte(WordMem(w)[2]) + HexByte(WordMem(w)[3])
  }

  function HexDigest(msg: bytes): string {
    var r := Digest(msg);
    HexWord(r.a) + HexWord(r.b) + HexWord(r.c) + HexWord(r.d)
  }

  // ----- lemmas

  lemma BlockPrefix(data: bytes, more: bytes, i: nat)
    requires 64 * i + 64 <= |data|
    ensures BlockAt(data + more, i) == BlockAt(data, i)
  {
  }

  lemma {:induction false} FoldPrefix(data: bytes, more: bytes, n: nat)
    requires 64 * n <= |data|
    ensures Fold(data + more, n) == Fold(data, n)
  {
    hide Transform, BlockAt;
    if n > 0 {
      FoldPrefix(data, more, n - 1);
      BlockPrefix(data, more, n - 1);
    }
  }

  lemma Round1Tables()
    ensures WordIndex(0) == 0 && Rotation(0) == 7
    ensures WordIndex(1) == 1 && Rotation(1) == 12
    ensures WordIndex(2) == 2 && Rotation(2) == 17
    ensures WordIndex(3) == 3 && Rotation(3) == 22
    ensures WordIndex(4) == 4 && Rotation(4) == 7
    ensures WordIndex(5) == 5 && Rotation(5) == 12
    ensures WordIndex(6) == 6 && Rotation(6) == 17
    ensures WordIndex(7) == 7 && Rotation(7) == 22
    ensures WordIndex(8) == 8 && Rotation(8) == 7
    ensures WordIndex(9) == 9 && Rotation(9) == 12
    ensures WordIndex(10) == 10 && Rotation(10) == 17
    ensures WordIndex(11) == 11 && Rotation(11) == 22
    ensures WordIndex(12) == 12 && Rotation(12) == 7
    ensures WordIndex(13) == 13 && Rotation(13) == 12
    ensures WordIndex(14) == 14 && Rotation(14) == 17
    ensures WordIndex(15) == 15 && Rotation(15) == 22
  {
  }

  lemma Round1Sines()
    ensures Sine(0) == 0xd76aa478
    ensures Sine(1) == 0xe8c7b756
    ensures Sine(2) == 0x242070db
    ensures Sine(3) == 0xc1bdceee
    ensures Sine(4) == 0xf57c0faf
    ensures Sine(5) == 0x4787c62a
    ensures Sine(6) == 0xa8304613
    ensures Sine(7) == 0xfd469501
    ensures Sine(8) == 0x698098d8
    ensures Sine(9) == 0x8b44f7af
    ensures Sine(10) == 0xffff5bb1
    ensures Sine(11) == 0x895cd7be
    ensures Sine(12) == 0x6b901122
    ensures Sine(13) == 0xfd987193
    ensures Sine(14) == 0xa679438e
    ensures Sine(15) == 0x49b40821
  {
    assert Sine1(0) == 0xd76aa478;
    assert Sine1(1) == 0xe8c7b756;
    assert Sine1(2) == 0x242070db;
    assert Sine1(3) == 0xc1bdceee;
    assert Sine1(4) == 0xf57c0faf;
    assert Sine1(5) == 0x4787c62a;
    assert Sine1(6) == 0xa8304613;
    assert Sine1(7) == 0xfd469501;
    assert Sine1(8) == 0x698098d8;
    assert Sine1(9) == 0x8b44f7af;
    assert Sine1(10) == 0xffff5bb1;
    assert Sine1(11) == 0x895cd7be;
    assert Sine1(12) == 0x6b901122;
    assert Sine1(13) == 0xfd987193;
    assert Sine1(14) == 0xa679438e;
    assert Sine1(15) == 0x49b40821;
  }

  lemma Round1Step(r: Regs, block: bytes, i: nat)
    requires |block| == 64 && 0 <= i < 16
    ensures Steps(r, block, i + 1) ==
            var p := Steps(r, block, i);
            Regs(p.d, FF(p.a, p.b, p.c, p.d, WordOf(block, WordIndex(i)), Rotation(i), Sine(i)), p.b, p.c)
  {
    hide FF, WordOf, WordIndex, Rotation, Sine;
  }

  lemma Round2Tables()
    ensures WordIndex(16) == 1 && Rotation(16) == 5
    ensures WordIndex(17) == 6 && Rotation(17) == 9
    ensures WordIndex(18) == 11 && Rotation(18) == 14
    ensures WordIndex(19) == 0 && Rotation(19) == 20
    ensures WordIndex(20) == 5 && Rotation(20) == 5
    ensures WordIndex(21) == 10 && Rotation(21) == 9
    ensures WordIndex(22) == 15 && Rotation(22) == 14
    ensures WordIndex(23) == 4 && Rotation(23) == 20
    ensures WordIndex(24) == 9 && Rotation(24) == 5
    ensures WordIndex(25) == 14 && Rotation(25) == 9
    ensures WordIndex(26) == 3 && Rotation(26) == 14
    ensures WordIndex(27) == 8 && Rotation(27) == 20
    ensures WordIndex(28) == 13 && Rotation(28) == 5
    ensures WordIndex(29) == 2 && Rotation(29) == 9
    ensures WordIndex(30) == 7 && Rotation(30) == 14
    ensures WordIndex(31) == 12 && Rotation(31) == 20
  {
  }

  lemma Round2Sines()
    ensures Sine(16) == 0xf61e2562
    ensures Sine(17) == 0xc040b340
    ensures Sine(18) == 0x265e5a51
    ensures Sine(19) == 0xe9b6c7aa
    ensures Sine(20) == 0xd62f105d
    ensures Sine(21) == 0x02441453
    ensures Sine(22) == 0xd8a1e681
    ensures Sine(23) == 0xe7d3fbc8
    ensures Sine(24) == 0x21e1cde6
    ensures Sine(25) == 0xc33707d6
    ensures Sine(26) == 0xf4d50d87
    ensures Sine(27) == 0x455a14ed
    ensures Sine(28) == 0xa9e3e905
    ensures Sine(29) == 0xfcefa3f8
    ensures Sine(30) == 0x676f02d9
    ensures Sine(31) == 0x8d2a4c8a
  {
    assert Sine2(0) == 0xf61e2562;
    assert Sine2(1) == 0xc040b340;
    assert Sine2(2) == 0x265e5a51;
    assert Sine2(3) == 0xe9b6c7aa;
    assert Sine2(4) == 0xd62f105d;
    assert Sine2(5) == 0x02441453;
    assert Sine2(6) == 0xd8a1e681;
    assert Sine2(7) == 0xe7d3fbc8;
    assert Sine2(8) == 0x21e1cde6;
    assert Sine2(9) == 0xc33707d6;
    assert Sine2(10) == 0xf4d50d87;
    assert Sine2(11) == 0x455a14ed;
    assert Sine2(12) == 0xa9e3e905;
    assert Sine2(13) == 0xfcefa3f8;
    assert Sine2(14) == 0x676f02d9;
    assert Sine2(15) == 0x8d2a4c8a;
  }

  lemma Round2Step(r: Regs, block: bytes, i: nat)
    requires |block| == 64 && 16 <= i < 32
    ensures Steps(r, block, i + 1) ==
            var p := Steps(r, block, i);
            Regs(p.d, GG(p.a, p.b, p.c, p.d, WordOf(block, WordIndex(i)), Rotation(i), Sine(i)), p.b, p.c)
  {
    hide GG, WordOf, WordIndex, Rotation, Sine;
  }

  lemma Round3Tables()
    ensures WordIndex(32) == 5 && Rotation(32) == 4
    ensures WordIndex(33) == 8 && Rotation(33) == 11
    ensures WordIndex(34) == 11 && Rotation(34) == 16
    ensures WordIndex(35) == 14 && Rotation(35) == 23
    ensures WordIndex(36) == 1 && Rotation(36) == 4
    ensures WordIndex(37) == 4 && Rotation(37) == 11
    ensures WordIndex(38) == 7 && Rotation(38) == 16
    ensures WordIndex(39) == 10 && Rotation(39) == 23
    ensures WordIndex(40) == 13 && Rotation(40) == 4
    ensures WordIndex(41) == 0 && Rotation(41) == 11
    ensures WordIndex(42) == 3 && Rotation(42) == 16
    ensures WordIndex(43) == 6 && Rotation(43) == 23
    ensures WordIndex(44) == 9 && Rotation(44) == 4
    ensures WordIndex(45) == 12 && Rotation(45) == 11
    ensures WordIndex(46) == 15 && Rotation(46) == 16
    ensures WordIndex(47) == 2 && Rotation(47) == 23
  {
  }

  lemma Round3Sines()
    ensures Sine(32) == 0xfffa3942
    ensures Sine(33) == 0x8771f681
    ensures Sine(34) == 0x6d9d6122
    ensures Sine(35) == 0xfde5380c
    ensures Sine(36) == 0xa4beea44
    ensures Sine(37) == 0x4bdecfa9
    ensures Sine(38) == 0xf6bb4b60
    ensures Sine(39) == 0xbebfbc70
    ensures Sine(40) == 0x289b7ec6
    ensures Sine(41) == 0xeaa127fa
    ensures Sine(42) == 0xd4ef3085
    ensures Sine(43) == 0x04881d05
    ensures Sine(44) == 0xd9d4d039
    ensures Sine(45) == 0xe6db99e5
    ensures Sine(46) == 0x1fa27cf8
    ensures Sine(47) == 0xc4ac5665
  {
    assert Sine3(0) == 0xfffa3942;
    assert Sine3(1) == 0x8771f681;
    assert Sine3(2) == 0x6d9d6122;
    assert Sine3(3) == 0xfde5380c;
    assert Sine3(4) == 0xa4beea44;
    assert Sine3(5) == 0x4bdecfa9;
    assert Sine3(6) == 0xf6bb4b60;
    assert Sine3(7) == 0xbebfbc70;
    assert Sine3(8) == 0x289b7ec6;
    assert Sine3(9) == 0xeaa127fa;
    assert Sine3(10) == 0xd4ef3085;
    assert Sine3(11) == 0x04881d05;
    assert Sine3(12) == 0xd9d4d039;
    assert Sine3(13) == 0xe6db99e5;
    assert Sine3(14) == 0x1fa27cf8;
    assert Sine3(15) == 0xc4ac5665;
  }

  lemma Round3Step(r: Regs, block: bytes, i: nat)
    requires |block| == 64 && 32 <= i < 48
    ensures Steps(r, block, i + 1) ==
            var p := Steps(r, block, i);
            Regs(p.d, HH(p.a, p.b, p.c, p.d, WordOf(block, WordIndex(i)), Rotation(i), Sine(i)), p.b, p.c)
  {
    hide HH, WordOf, WordIndex, Rotation, Sine;
  }

  lemma Round4Tables()
    ensures WordIndex(48) == 0 && Rotation(48) == 6
    ensures WordIndex(49) == 7 && Rotation(49) == 10
    ensures WordIndex(50) == 14 && Rotation(50) == 15
    ensures WordIndex(51) == 5 && Rotation(51) == 21
    ensures WordIndex(52) == 12 && Rotation(52) == 6
    ensures WordIndex(53) == 3 && Rotation(53) == 10
    ensures WordIndex(54) == 10 && Rotation(54) == 15
    ensures WordIndex(55) == 1 && Rotation(55) == 21
    ensures WordIndex(56) == 8 && Rotation(56) == 6
    ensures WordIndex(57) == 15 && Rotation(57) == 10
    ensures WordIndex(58) == 6 && Rotation(58) == 15
    ensures WordIndex(59) == 13 && Rotation(59) == 21
    ensures WordIndex(60) == 4 && Rotation(60) == 6
    ensures WordIndex(61) == 11 && Rotation(61) == 10
    ensures WordIndex(62) == 2 && Rotation(62) == 15
    ensures WordIndex(63) == 9 && Rotation(63) == 21
  {
  }

  lemma Round4Sines()
    ensures Sine(48) == 0xf4292244
    ensures Sine(49) == 0x432aff97
    ensures Sine(50) == 0xab9423a7
    ensures Sine(51) == 0xfc93a039
    ensures Sine(52) == 0x655b59c3
    ensures Sine(53) == 0x8f0ccc92
    ensures Sine(54) == 0xffeff47d
    ensures Sine(55) == 0x85845dd1
    ensures Sine(56) == 0x6fa87e4f
    ensures Sine(57) == 0xfe2ce6e0
    ensures Sine(58) == 0xa3014314
    ensures Sine(59) == 0x4e0811a1
    ensures Sine(60) == 0xf7537e82
    ensures Sine(61) == 0xbd3af235
    ensures Sine(62) == 0x2ad7d2bb
    ensures Sine(63) == 0xeb86d391
  {
    assert Sine4(0) == 0xf4292244;
    assert Sine4(1) == 0x432aff97;
    assert Sine4(2) == 0xab9423a7;
    assert Sine4(3) == 0xfc93a039;
    assert Sine4(4) == 0x655b59c3;
    assert Sine4(5) == 0x8f0ccc92;
    assert Sine4(6) == 0xffeff47d;
    assert Sine4(7) == 0x85845dd1;
    assert Sine4(8) == 0x6fa87e4f;
    assert Sine4(9) == 0xfe2ce6e0;
    assert Sine4(10) == 0xa3014314;
    assert Sine4(11) == 0x4e0811a1;
    assert Sine4(12) == 0xf7537e82;
    assert Sine4(13) == 0xbd3af235;
    assert Sine4(14) == 0x2ad7d2bb;
    assert Sine4(15) == 0xeb86d391;
  }

  lemma Round4Step(r: Regs, block: bytes, i: nat)
    requires |block| == 64 && 48 <= i < 64
    ensures Steps(r, block, i + 1) ==
            var p := Steps(r, block, i);
            Regs(p.d, II(p.a, p.b, p.c, p.d, WordOf(block, WordIndex(i)), Rotation(i), Sine(i)), p.b, p.c)
  {
    hide II, WordOf, WordIndex, Rotation, Sine;
  }

  lemma StepsNone(r: Regs, block: bytes)
    requires |block| == 64
    ensures Steps(r, block, 0) == r
  {
  }

  lemma StepsAll(r: Regs, block: bytes, v: Regs)
    requires |block| == 64 && v == Steps(r, block, 64)
    ensures Transform(r, block) == Regs(Plus(r.a, v.a), Plus(r.b, v.b), Plus(r.c, v.c), Plus(r.d, v.d))
  {
    hide Steps, Plus;
  }

  // ----- the last blocks of a message

  function Tail(msg: bytes): (r: bytes)
    ensures |r| == |msg| % 64
  {
    msg[|msg| - |msg| % 64..]
  }

  function Head(msg: bytes): (r: bytes)
    ensures |r| == 64 * (|msg| / 64)
  {
    msg[..64 * (|msg| / 64)]
  }

  lemma HeadAndTail(msg: bytes)
    ensures msg == Head(msg) + Tail(msg)
  {
  }

  function Last(msg: bytes): (r: bytes)
    ensures |r| == if |msg| % 64 < 56 then 64 else 128
  {
    Tail(msg) + [0x80] + Zeros(PadZeros(|msg|)) + LengthBytes(|msg|)
  }

  lemma PaddedShape(msg: bytes)
    ensures Padded(msg) == Head(msg) + Last(msg)
  {
    hide LengthBytes, Head, Tail, Zeros;
    HeadAndTail(msg);
    var z, b := Zeros(PadZeros(|msg|)), LengthBytes(|msg|);
    assert Head(msg) + Tail(msg) + [0x80] + z + b == Head(msg) + (Tail(msg) + [0x80] + z + b);
  }

  lemma BlockBehind(before: bytes, block: bytes, i: nat)
    requires |before| == 64 * i && |block| == 64
    ensures BlockAt(before + block, i) == block
  {
  }

  lemma FoldOnce(before: bytes, block: bytes, i: nat)
    requires |before| == 64 * i && |block| == 64
    ensures Fold(before + block, i + 1) == Transform(Fold(before, i), block)
  {
    hide Transform, BlockAt;
    FoldPrefix(before, block, i);
    BlockBehind(before, block, i);
  }

  lemma FoldHead(msg: bytes)
    ensures Fold(Head(msg), |msg| / 64) == Fold(msg, |msg| / 64)
  {
    hide Fold, Head, Tail;
    HeadAndTail(msg);
    FoldPrefix(Head(msg), Tail(msg), |msg| / 64);
  }

  lemma DigestIs(msg: bytes, n: nat)
    requires |Head(msg)| + |Last(msg)| == 64 * n
    ensures Digest(msg) == Fold(Head(msg) + Last(msg), n)
  {
    hide LengthBytes, Transform, Fold, Tail, Padded, Zeros, Head, Last;
    PaddedShape(msg);
    assert |Padded(msg)| / 64 == n;
  }

  lemma DigestOneBlock(msg: bytes, q: nat)
    requires q == |msg| / 64 && |Last(msg)| == 64
    ensures Digest(msg) == Transform(Fold(msg, q), Last(msg))
  {
    hide *;
    DigestIs(msg, q + 1);
    FoldHead(msg);
    FoldOnce(Head(msg), Last(msg), q);
  }

  /** With up to 55 bytes in the last block, padding and length fit into it. */
  lemma DigestShort(msg: bytes)
    requires |msg| % 64 < 56
    ensures Digest(msg) ==
            Transform(Fold(msg, |msg| / 64), Tail(msg) + [0x80] + Zeros(55 - |msg| % 64) + LengthBytes(|msg|))
  {
    hide *;
    LastShort(msg);
    DigestOneBlock(msg, |msg| / 64);
  }

  lemma LastShort(msg: bytes)
    requires |msg| % 64 < 56
    ensures Last(msg) == Tail(msg) + [0x80] + Zeros(55 - |msg| % 64) + LengthBytes(|msg|)
  {
    hide LengthBytes, Tail, Zeros;
  }

  lemma LastLong(msg: bytes)
    requires |msg| % 64 >= 56
    ensures Last(msg) == (Tail(msg) + [0x80] + Zeros(63 - |msg| % 64)) + (Zeros(56) + LengthBytes(|msg|))
  {
    hide LengthBytes, Tail, Zeros;
    TwoBlocks(Tail(msg) + [0x80], 63 - |msg| % 64, LengthBytes(|msg|));
  }

  /** With more, they take two blocks. */
  lemma DigestLong(msg: bytes)
    requires |msg| % 64 >= 56
    ensures Digest(msg) ==
            Transform(Transform(Fold(msg, |msg| / 64), Tail(msg) + [0x80] + Zeros(63 - |msg| % 64)),
                      Zeros(56) + LengthBytes(|msg|))
  {
    hide *;
    var q := |msg| / 64;
    var first, second := Tail(msg) + [0x80] + Zeros(63 - |msg| % 64), Zeros(56) + LengthBytes(|msg|);
    DigestIs(msg, q + 2);
    FoldHead(msg);
    LastLong(msg);
    JoinBlocks(Head(msg), first, second);
    FoldOnce(Head(msg), first, q);
    FoldOnce(Head(msg) + first, second, q + 1);
  }

  lemma TwoBlocks(a: bytes, n: nat, b: bytes)
    ensures a + Zeros(n + 56) + b == (a + Zeros(n)) + (Zeros(56) + b)
  {
    assert Zeros(n + 56) == Zeros(n) + Zeros(56);
  }

  lemma JoinBlocks(a: bytes, b: bytes, c: bytes)
    ensures a + (b + c) == a + b + c
  {
  }
}
