/**
 The last example of RFC 1321, appendix A.5: the digest of the digits 1 to 9 and 0, eight
 times, worked out step by step over its two blocks.
 */
module Md5Example {
  import opened Md5Spec
  import opened Octet

  function DigitByte(i: nat): bv8 {
    match i % 10
    case 0 => 0x31 case 1 => 0x32 case 2 => 0x33 case 3 => 0x34 case 4 => 0x35
    case 5 => 0x36 case 6 => 0x37 case 7 => 0x38 case 8 => 0x39 case _ => 0x30
  }

  function Message(): (r: bytes)
    ensures |r| == 80
  {
    seq(80, i requires 0 <= i < 80 => DigitByte(i))
  }

  /** The message with its padding: 640 bits. */
  function PaddedByte(j: nat): bv8 {
    if j < 80 then DigitByte(j) else if j == 80 || j == 120 then 0x80 else if j == 121 then 0x02 else 0x00
  }

  function Block(b: nat): (r: bytes)
    requires b < 2
    ensures |r| == 64
  {
    PaddedLength();
    BlockAt(Padded(Message()), b)
  }

  lemma PaddedLength()
    ensures |Padded(Message())| == 128
  {
    hide Message, LengthBytes, Zeros;
    assert PadZeros(80) == 39;
  }

  lemma BytesOf640()
    ensures Le32(640) == [0x80, 0x02, 0x00, 0x00]
  {
    assert 640 % 256 == 128 && 640 / 256 % 256 == 2 && 640 / 65536 % 256 == 0 && 640 / 16777216 % 256 == 0;
  }

  lemma BytesOf0()
    ensures Le32(0) == [0x00, 0x00, 0x00, 0x00]
  {
  }

  lemma LengthOf640()
    ensures LengthBytes(80) == [0x80, 0x02, 0x00, 0x00, 0x00, 0x00, 0x00, 0x00]
  {
    hide Le32;
    BytesOf640();
    BytesOf0();
  }

  lemma PaddedIs(j: nat)
    requires j < 128
    ensures |Padded(Message())| == 128 && Padded(Message())[j] == PaddedByte(j)
  {
    hide DigitByte, LengthBytes;
    LengthOf640();
    var p := Message() + [0x80] + Zeros(39);
    assert Padded(Message()) == p + LengthBytes(80);
    assert j < 120 ==> Padded(Message())[j] == p[j];
    assert j >= 120 ==> Padded(Message())[j] == LengthBytes(80)[j - 120];
  }

  lemma BlockByte(b: nat, i: nat)
    requires b < 2 && i < 64
    ensures Block(b)[i] == PaddedByte(64 * b + i)
  {
    hide PaddedByte, Padded, Message;
    PaddedIs(64 * b + i);
  }

  function Join(b0: bv8, b1: bv8, b2: bv8, b3: bv8): bv32 {
    (b0 as bv32) | ((b1 as bv32) << 8) | ((b2 as bv32) << 16) | ((b3 as bv32) << 24)
  }

  lemma WordJoins(block: bytes, k: nat)
    requires |block| == 64 && k < 16
    ensures WordOf(block, k) == Join(block[4 * k], block[4 * k + 1], block[4 * k + 2], block[4 * k + 3])
  {
  }

  lemma WordIs(b: nat, k: nat)
    requires b < 2 && k < 16
    ensures var j := 64 * b + 4 * k;
            WordOf(Block(b), k) == Join(PaddedByte(j), PaddedByte(j + 1), PaddedByte(j + 2), PaddedByte(j + 3))
  {
    hide PaddedByte, Block, WordOf, Join;
    WordJoins(Block(b), k);
    BlockByte(b, 4 * k);
    BlockByte(b, 4 * k + 1);
    BlockByte(b, 4 * k + 2);
    BlockByte(b, 4 * k + 3);
  }

  // ----- block 0

  lemma Words0From0()
    ensures WordOf(Block(0), 0) == 0x34333231 && WordOf(Block(0), 1) == 0x38373635
  {
    hide WordOf, Block;
    WordIs(0, 0);
    WordIs(0, 1);
  }

  lemma Words0From2()
    ensures WordOf(Block(0), 2) == 0x32313039 && WordOf(Block(0), 3) == 0x36353433
  {
    hide WordOf, Block;
    WordIs(0, 2);
    WordIs(0, 3);
  }

  lemma Words0From4()
    ensures WordOf(Block(0), 4) == 0x30393837 && WordOf(Block(0), 5) == 0x34333231
  {
    hide WordOf, Block;
    WordIs(0, 4);
    WordIs(0, 5);
  }

  lemma Words0From6()
    ensures WordOf(Block(0), 6) == 0x38373635 && WordOf(Block(0), 7) == 0x32313039
  {
    hide WordOf, Block;
    WordIs(0, 6);
    WordIs(0, 7);
  }

  lemma Words0From8()
    ensures WordOf(Block(0), 8) == 0x36353433 && WordOf(Block(0), 9) == 0x30393837
  {
    hide WordOf, Block;
    WordIs(0, 8);
    WordIs(0, 9);
  }

  lemma Words0From10()
    ensures WordOf(Block(0), 10) == 0x34333231 && WordOf(Block(0), 11) == 0x38373635
  {
    hide WordOf, Block;
    WordIs(0, 10);
    WordIs(0, 11);
  }

  lemma Words0From12()
    ensures WordOf(Block(0), 12) == 0x32313039 && WordOf(Block(0), 13) == 0x36353433
  {
    hide WordOf, Block;
    WordIs(0, 12);
    WordIs(0, 13);
  }

  lemma Words0From14()
    ensures WordOf(Block(0), 14) == 0x30393837 && WordOf(Block(0), 15) == 0x34333231
  {
    hide WordOf, Block;
    WordIs(0, 14);
    WordIs(0, 15);
  }

  lemma Words0()
    ensures WordOf(Block(0), 0) == 0x34333231 && WordOf(Block(0), 1) == 0x38373635
    ensures WordOf(Block(0), 2) == 0x32313039 && WordOf(Block(0), 3) == 0x36353433
    ensures WordOf(Block(0), 4) == 0x30393837 && WordOf(Block(0), 5) == 0x34333231
    ensures WordOf(Block(0), 6) == 0x38373635 && WordOf(Block(0), 7) == 0x32313039
    ensures WordOf(Block(0), 8) == 0x36353433 && WordOf(Block(0), 9) == 0x30393837
    ensures WordOf(Block(0), 10) == 0x34333231 && WordOf(Block(0), 11) == 0x38373635
    ensures WordOf(Block(0), 12) == 0x32313039 && WordOf(Block(0), 13) == 0x36353433
    ensures WordOf(Block(0), 14) == 0x30393837 && WordOf(Block(0), 15) == 0x34333231
  {
    hide *;
    Words0From0();
    Words0From2();
    Words0From4();
    Words0From6();
    Words0From8();
    Words0From10();
    Words0From12();
    Words0From14();
  }

  const R0 := Regs(0x67452301, 0xefcdab89, 0x98badcfe, 0x10325476)

  lemma Block0Start()
    ensures Steps(R0, Block(0), 0) == Regs(0x67452301, 0xefcdab89, 0x98badcfe, 0x10325476)
  {
    hide Block;
  }

  lemma Values0Round1()
    ensures FF(0x67452301, 0xefcdab89, 0x98badcfe, 0x10325476, 0x34333231, 7, 0xd76aa478) == 0xbeb8ff8e
    ensures FF(0x10325476, 0xbeb8ff8e, 0xefcdab89, 0x98badcfe, 0x38373635, 12, 0xe8c7b756) == 0x7d989d89
    ensures FF(0x98badcfe, 0x7d989d89, 0xbeb8ff8e, 0xefcdab89, 0x32313039, 17, 0x242070db) == 0xf8cdf95d
    ensures FF(0xefcdab89, 0xf8cdf95d, 0x7d989d89, 0xbeb8ff8e, 0x36353433, 22, 0xc1bdceee) == 0x862797b0
    ensures FF(0xbeb8ff8e, 0x862797b0, 0xf8cdf95d, 0x7d989d89, 0x30393837, 7, 0xf57c0faf) == 0x8c17de9f
    ensures FF(0x7d989d89, 0x8c17de9f, 0x862797b0, 0xf8cdf95d, 0x34333231, 12, 0x4787c62a) == 0xc0f32d81
    ensures FF(0xf8cdf95d, 0xc0f32d81, 0x8c17de9f, 0x862797b0, 0x38373635, 17, 0xa8304613) == 0xe99fec1b
    ensures FF(0x862797b0, 0xe99fec1b, 0xc0f32d81, 0x8c17de9f, 0x32313039, 22, 0xfd469501) == 0xc57e78c1
    ensures FF(0x8c17de9f, 0xc57e78c1, 0xe99fec1b, 0xc0f32d81, 0x36353433, 7, 0x698098d8) == 0x7c0aceb7
    ensures FF(0xc0f32d81, 0x7c0aceb7, 0xc57e78c1, 0xe99fec1b, 0x30393837, 12, 0x8b44f7af) == 0x8869d2d8
    ensures FF(0xe99fec1b, 0x8869d2d8, 0x7c0aceb7, 0xc57e78c1, 0x34333231, 17, 0xffff5bb1) == 0x5186a8ba
    ensures FF(0xc57e78c1, 0x5186a8ba, 0x8869d2d8, 0x7c0aceb7, 0x38373635, 22, 0x895cd7be) == 0xa5f36f8d
    ensures FF(0x7c0aceb7, 0xa5f36f8d, 0x5186a8ba, 0x8869d2d8, 0x32313039, 7, 0x6b901122) == 0x5157e49e
    ensures FF(0x8869d2d8, 0x5157e49e, 0xa5f36f8d, 0x5186a8ba, 0x36353433, 12, 0xfd987193) == 0xffac907e
    ensures FF(0x5186a8ba, 0xffac907e, 0x5157e49e, 0xa5f36f8d, 0x30393837, 17, 0xa679438e) == 0x27e983a0
    ensures FF(0xa5f36f8d, 0x27e983a0, 0xffac907e, 0x5157e49e, 0x34333231, 22, 0x49b40821) == 0xaf506a03
  {
  }

  lemma Block0Round1()
    ensures Steps(R0, Block(0), 16) == Regs(0x5157e49e, 0xaf506a03, 0x27e983a0, 0xffac907e)
  {
    hide *;
    Block0Start();
    Words0();
    Round1Tables();
    Round1Sines();
    Values0Round1();
    Round1Step(R0, Block(0), 0);
    Round1Step(R0, Block(0), 1);
    Round1Step(R0, Block(0), 2);
    Round1Step(R0, Block(0), 3);
    Round1Step(R0, Block(0), 4);
    Round1Step(R0, Block(0), 5);
    Round1Step(R0, Block(0), 6);
    Round1Step(R0, Block(0), 7);
    Round1Step(R0, Block(0), 8);
    Round1Step(R0, Block(0), 9);
    Round1Step(R0, Block(0), 10);
    Round1Step(R0, Block(0), 11);
    Round1Step(R0, Block(0), 12);
    Round1Step(R0, Block(0), 13);
    Round1Step(R0, Block(0), 14);
    Round1Step(R0, Block(0), 15);
  }

  lemma Values0Round2()
    ensures GG(0x5157e49e, 0xaf506a03, 0x27e983a0, 0xffac907e, 0x38373635, 5, 0xf61e2562) == 0x8d18e0e8
    ensures GG(0xffac907e, 0x8d18e0e8, 0xaf506a03, 0x27e983a0, 0x38373635, 9, 0xc040b340) == 0x07de0df2
    ensures GG(0x27e983a0, 0x07de0df2, 0x8d18e0e8, 0xaf506a03, 0x38373635, 14, 0x265e5a51) == 0xef223167
    ensures GG(0xaf506a03, 0xef223167, 0x07de0df2, 0x8d18e0e8, 0x34333231, 20, 0xe9b6c7aa) == 0x04280170
    ensures GG(0x8d18e0e8, 0x04280170, 0xef223167, 0x07de0df2, 0x34333231, 5, 0xd62f105d) == 0x78929ee0
    ensures GG(0x07de0df2, 0x78929ee0, 0x04280170, 0xef223167, 0x34333231, 9, 0x02441453) == 0x375c6c2c
    ensures GG(0xef223167, 0x375c6c2c, 0x78929ee0, 0x04280170, 0x34333231, 14, 0xd8a1e681) == 0xb18aca50
    ensures GG(0x04280170, 0xb18aca50, 0x375c6c2c, 0x78929ee0, 0x30393837, 20, 0xe7d3fbc8) == 0xad400a91
    ensures GG(0x78929ee0, 0xad400a91, 0xb18aca50, 0x375c6c2c, 0x30393837, 5, 0x21e1cde6) == 0xbb45f43f
    ensures GG(0x375c6c2c, 0xbb45f43f, 0xad400a91, 0xb18aca50, 0x30393837, 9, 0xc33707d6) == 0xd61f8a0f
    ensures GG(0xb18aca50, 0xd61f8a0f, 0xbb45f43f, 0xad400a91, 0x36353433, 14, 0xf4d50d87) == 0x98ade6b5
    ensures GG(0xad400a91, 0x98ade6b5, 0xd61f8a0f, 0xbb45f43f, 0x36353433, 20, 0x455a14ed) == 0xb70e35a9
    ensures GG(0xbb45f43f, 0xb70e35a9, 0x98ade6b5, 0xd61f8a0f, 0x36353433, 5, 0xa9e3e905) == 0xf8bcfbb0
    ensures GG(0xd61f8a0f, 0xf8bcfbb0, 0xb70e35a9, 0x98ade6b5, 0x32313039, 9, 0xfcefa3f8) == 0xd760ed39
    ensures GG(0x98ade6b5, 0xd760ed39, 0xf8bcfbb0, 0xb70e35a9, 0x32313039, 14, 0x676f02d9) == 0x99a0f1b8
    ensures GG(0xb70e35a9, 0x99a0f1b8, 0xd760ed39, 0xf8bcfbb0, 0x32313039, 20, 0x8d2a4c8a) == 0x1bf25662
  {
  }

  lemma Block0Round2()
    ensures Steps(R0, Block(0), 32) == Regs(0xf8bcfbb0, 0x1bf25662, 0x99a0f1b8, 0xd760ed39)
  {
    hide *;
    Block0Round1();
    Words0();
    Round2Tables();
    Round2Sines();
    Values0Round2();
    Round2Step(R0, Block(0), 16);
    Round2Step(R0, Block(0), 17);
    Round2Step(R0, Block(0), 18);
    Round2Step(R0, Block(0), 19);
    Round2Step(R0, Block(0), 20);
    Round2Step(R0, Block(0), 21);
    Round2Step(R0, Block(0), 22);
    Round2Step(R0, Block(0), 23);
    Round2Step(R0, Block(0), 24);
    Round2Step(R0, Block(0), 25);
    Round2Step(R0, Block(0), 26);
    Round2Step(R0, Block(0), 27);
    Round2Step(R0, Block(0), 28);
    Round2Step(R0, Block(0), 29);
    Round2Step(R0, Block(0), 30);
    Round2Step(R0, Block(0), 31);
  }

  lemma Values0Round3()
    ensures HH(0xf8bcfbb0, 0x1bf25662, 0x99a0f1b8, 0xd760ed39, 0x34333231, 4, 0xfffa3942) == 0x3dbd76ca
    ensures HH(0xd760ed39, 0x3dbd76ca, 0x1bf25662, 0x99a0f1b8, 0x36353433, 11, 0x8771f681) == 0xfd056171
    ensures HH(0x99a0f1b8, 0xfd056171, 0x3dbd76ca, 0x1bf25662, 0x38373635, 16, 0x6d9d6122) == 0xc7ed7c30
    ensures HH(0x1bf25662, 0xc7ed7c30, 0xfd056171, 0x3dbd76ca, 0x30393837, 23, 0xfde5380c) == 0xe0162f49
    ensures HH(0x3dbd76ca, 0xe0162f49, 0xc7ed7c30, 0xfd056171, 0x38373635, 4, 0xa4beea44) == 0x3b32c408
    ensures HH(0xfd056171, 0x3b32c408, 0xe0162f49, 0xc7ed7c30, 0x30393837, 11, 0x4bdecfa9) == 0x7338d8b7
    ensures HH(0xc7ed7c30, 0x7338d8b7, 0x3b32c408, 0xe0162f49, 0x32313039, 16, 0xf6bb4b60) == 0x9ef871ad
    ensures HH(0xe0162f49, 0x9ef871ad, 0x7338d8b7, 0x3b32c408, 0x34333231, 23, 0xbebfbc70) == 0x1d4d6f72
    ensures HH(0x3b32c408, 0x1d4d6f72, 0x9ef871ad, 0x7338d8b7, 0x36353433, 4, 0x289b7ec6) == 0xc661460a
    ensures HH(0x7338d8b7, 0xc661460a, 0x1d4d6f72, 0x9ef871ad, 0x34333231, 11, 0xeaa127fa) == 0xd2bf04c9
    ensures HH(0x9ef871ad, 0xd2bf04c9, 0xc661460a, 0x1d4d6f72, 0x36353433, 16, 0xd4ef3085) == 0xd6d5b879
    ensures HH(0x1d4d6f72, 0xd6d5b879, 0xd2bf04c9, 0xc661460a, 0x38373635, 23, 0x04881d05) == 0x89e3c4d7
    ensures HH(0xc661460a, 0x89e3c4d7, 0xd6d5b879, 0xd2bf04c9, 0x30393837, 4, 0xd9d4d039) == 0x697032ec
    ensures HH(0xd2bf04c9, 0x697032ec, 0x89e3c4d7, 0xd6d5b879, 0x32313039, 11, 0xe6db99e5) == 0xfa597bfc
    ensures HH(0xd6d5b879, 0xfa597bfc, 0x697032ec, 0x89e3c4d7, 0x34333231, 16, 0x1fa27cf8) == 0xefc2c171
    ensures HH(0x89e3c4d7, 0xefc2c171, 0xfa597bfc, 0x697032ec, 0x32313039, 23, 0xc4ac5665) == 0xdb4197da
  {
  }

  lemma Block0Round3()
    ensures Steps(R0, Block(0), 48) == Regs(0x697032ec, 0xdb4197da, 0xefc2c171, 0xfa597bfc)
  {
    hide *;
    Block0Round2();
    Words0();
    Round3Tables();
    Round3Sines();
    Values0Round3();
    Round3Step(R0, Block(0), 32);
    Round3Step(R0, Block(0), 33);
    Round3Step(R0, Block(0), 34);
    Round3Step(R0, Block(0), 35);
    Round3Step(R0, Block(0), 36);
    Round3Step(R0, Block(0), 37);
    Round3Step(R0, Block(0), 38);
    Round3Step(R0, Block(0), 39);
    Round3Step(R0, Block(0), 40);
    Round3Step(R0, Block(0), 41);
    Round3Step(R0, Block(0), 42);
    Round3Step(R0, Block(0), 43);
    Round3Step(R0, Block(0), 44);
    Round3Step(R0, Block(0), 45);
    Round3Step(R0, Block(0), 46);
    Round3Step(R0, Block(0), 47);
  }

  lemma Values0Round4()
    ensures II(0x697032ec, 0xdb4197da, 0xefc2c171, 0xfa597bfc, 0x34333231, 6, 0xf4292244) == 0x57b91aca
    ensures II(0xfa597bfc, 0x57b91aca, 0xdb4197da, 0xefc2c171, 0x32313039, 10, 0x432aff97) == 0x210c9ebc
    ensures II(0xefc2c171, 0x210c9ebc, 0x57b91aca, 0xdb4197da, 0x30393837, 15, 0xab9423a7) == 0x21efbd88
    ensures II(0xdb4197da, 0x21efbd88, 0x210c9ebc, 0x57b91aca, 0x34333231, 21, 0xfc93a039) == 0xcaa25b01
    ensures II(0x57b91aca, 0xcaa25b01, 0x21efbd88, 0x210c9ebc, 0x32313039, 6, 0x655b59c3) == 0x633d3f7c
    ensures II(0x210c9ebc, 0x633d3f7c, 0xcaa25b01, 0x21efbd88, 0x36353433, 10, 0x8f0ccc92) == 0x1a4d3beb
    ensures II(0x21efbd88, 0x1a4d3beb, 0x633d3f7c, 0xcaa25b01, 0x34333231, 15, 0xffeff47d) == 0xccaa1524
    ensures II(0xcaa25b01, 0xccaa1524, 0x1a4d3beb, 0x633d3f7c, 0x38373635, 21, 0x85845dd1) == 0x7713f5df
    ensures II(0x633d3f7c, 0x7713f5df, 0xccaa1524, 0x1a4d3beb, 0x36353433, 6, 0x6fa87e4f) == 0x8448b430
    ensures II(0x1a4d3beb, 0x8448b430, 0x7713f5df, 0xccaa1524, 0x34333231, 10, 0xfe2ce6e0) == 0x71c93463
    ensures II(0xccaa1524, 0x71c93463, 0x8448b430, 0x7713f5df, 0x38373635, 15, 0xa3014314) == 0x7e294727
    ensures II(0x7713f5df, 0x7e294727, 0x71c93463, 0x8448b430, 0x36353433, 21, 0x4e0811a1) == 0x660a801d
    ensures II(0x8448b430, 0x660a801d, 0x7e294727, 0x71c93463, 0x30393837, 6, 0xf7537e82) == 0x614868eb
    ensures II(0x71c93463, 0x614868eb, 0x660a801d, 0x7e294727, 0x38373635, 10, 0xbd3af235) == 0xa09f38a7
    ensures II(0x7e294727, 0xa09f38a7, 0x614868eb, 0x660a801d, 0x32313039, 15, 0x2ad7d2bb) == 0x5133129b
    ensures II(0x660a801d, 0x5133129b, 0xa09f38a7, 0x614868eb, 0x30393837, 21, 0xeb86d391) == 0xb4d33102
  {
  }

  lemma Block0Round4()
    ensures Steps(R0, Block(0), 64) == Regs(0x614868eb, 0xb4d33102, 0x5133129b, 0xa09f38a7)
  {
    hide *;
    Block0Round3();
    Words0();
    Round4Tables();
    Round4Sines();
    Values0Round4();
    Round4Step(R0, Block(0), 48);
    Round4Step(R0, Block(0), 49);
    Round4Step(R0, Block(0), 50);
    Round4Step(R0, Block(0), 51);
    Round4Step(R0, Block(0), 52);
    Round4Step(R0, Block(0), 53);
    Round4Step(R0, Block(0), 54);
    Round4Step(R0, Block(0), 55);
    Round4Step(R0, Block(0), 56);
    Round4Step(R0, Block(0), 57);
    Round4Step(R0, Block(0), 58);
    Round4Step(R0, Block(0), 59);
    Round4Step(R0, Block(0), 60);
    Round4Step(R0, Block(0), 61);
    Round4Step(R0, Block(0), 62);
    Round4Step(R0, Block(0), 63);
  }

  lemma Block0Sum()
    ensures AddRegs(R0, Regs(0x614868eb, 0xb4d33102, 0x5133129b, 0xa09f38a7)) ==
            Regs(0xc88d8bec, 0xa4a0dc8b, 0xe9edef99, 0xb0d18d1d)
  {
  }

  // ----- block 1

  lemma Words1From0()
    ensures WordOf(Block(1), 0) == 0x38373635 && WordOf(Block(1), 1) == 0x32313039
  {
    hide WordOf, Block;
    WordIs(1, 0);
    WordIs(1, 1);
  }

  lemma Words1From2()
    ensures WordOf(Block(1), 2) == 0x36353433 && WordOf(Block(1), 3) == 0x30393837
  {
    hide WordOf, Block;
    WordIs(1, 2);
    WordIs(1, 3);
  }

  lemma Words1From4()
    ensures WordOf(Block(1), 4) == 0x00000080 && WordOf(Block(1), 5) == 0x00000000
  {
    hide WordOf, Block;
    WordIs(1, 4);
    WordIs(1, 5);
  }

  lemma Words1From6()
    ensures WordOf(Block(1), 6) == 0x00000000 && WordOf(Block(1), 7) == 0x00000000
  {
    hide WordOf, Block;
    WordIs(1, 6);
    WordIs(1, 7);
  }

  lemma Words1From8()
    ensures WordOf(Block(1), 8) == 0x00000000 && WordOf(Block(1), 9) == 0x00000000
  {
    hide WordOf, Block;
    WordIs(1, 8);
    WordIs(1, 9);
  }

  lemma Words1From10()
    ensures WordOf(Block(1), 10) == 0x00000000 && WordOf(Block(1), 11) == 0x00000000
  {
    hide WordOf, Block;
    WordIs(1, 10);
    WordIs(1, 11);
  }

  lemma Words1From12()
    ensures WordOf(Block(1), 12) == 0x00000000 && WordOf(Block(1), 13) == 0x00000000
  {
    hide WordOf, Block;
    WordIs(1, 12);
    WordIs(1, 13);
  }

  lemma Words1From14()
    ensures WordOf(Block(1), 14) == 0x00000280 && WordOf(Block(1), 15) == 0x00000000
  {
    hide WordOf, Block;
    WordIs(1, 14);
    WordIs(1, 15);
  }

  lemma Words1()
    ensures WordOf(Block(1), 0) == 0x38373635 && WordOf(Block(1), 1) == 0x32313039
    ensures WordOf(Block(1), 2) == 0x36353433 && WordOf(Block(1), 3) == 0x30393837
    ensures WordOf(Block(1), 4) == 0x00000080 && WordOf(Block(1), 5) == 0x00000000
    ensures WordOf(Block(1), 6) == 0x00000000 && WordOf(Block(1), 7) == 0x00000000
    ensures WordOf(Block(1), 8) == 0x00000000 && WordOf(Block(1), 9) == 0x00000000
    ensures WordOf(Block(1), 10) == 0x00000000 && WordOf(Block(1), 11) == 0x00000000
    ensures WordOf(Block(1), 12) == 0x00000000 && WordOf(Block(1), 13) == 0x00000000
    ensures WordOf(Block(1), 14) == 0x00000280 && WordOf(Block(1), 15) == 0x00000000
  {
    hide *;
    Words1From0();
    Words1From2();
    Words1From4();
    Words1From6();
    Words1From8();
    Words1From10();
    Words1From12();
    Words1From14();
  }

  const R1 := Regs(0xc88d8bec, 0xa4a0dc8b, 0xe9edef99, 0xb0d18d1d)

  lemma Block1Start()
    ensures Steps(R1, Block(1), 0) == Regs(0xc88d8bec, 0xa4a0dc8b, 0xe9edef99, 0xb0d18d1d)
  {
    hide Block;
  }

  lemma Values1Round1()
    ensures FF(0xc88d8bec, 0xa4a0dc8b, 0xe9edef99, 0xb0d18d1d, 0x38373635, 7, 0xd76aa478) == 0x353af7cf
    ensures FF(0xb0d18d1d, 0x353af7cf, 0xa4a0dc8b, 0xe9edef99, 0x32313039, 12, 0xe8c7b756) == 0x3a4f735a
    ensures FF(0xe9edef99, 0x3a4f735a, 0x353af7cf, 0xa4a0dc8b, 0x36353433, 17, 0x242070db) == 0x63356537
    ensures FF(0xa4a0dc8b, 0x63356537, 0x3a4f735a, 0x353af7cf, 0x30393837, 22, 0xc1bdceee) == 0x45e88f2c
    ensures FF(0x353af7cf, 0x45e88f2c, 0x63356537, 0x3a4f735a, 0x00000080, 7, 0xf57c0faf) == 0x3527497e
    ensures FF(0x3a4f735a, 0x3527497e, 0x45e88f2c, 0x63356537, 0x00000000, 12, 0x4787c62a) == 0xab92660e
    ensures FF(0x63356537, 0xab92660e, 0x3527497e, 0x45e88f2c, 0x00000000, 17, 0xa8304613) == 0x948347ae
    ensures FF(0x45e88f2c, 0x948347ae, 0xab92660e, 0x3527497e, 0x00000000, 22, 0xfd469501) == 0x377c7d0a
    ensures FF(0x3527497e, 0x377c7d0a, 0x948347ae, 0xab92660e, 0x00000000, 7, 0x698098d8) == 0xcc912f27
    ensures FF(0xab92660e, 0xcc912f27, 0x377c7d0a, 0x948347ae, 0x00000000, 12, 0x8b44f7af) == 0x6945a3d5
    ensures FF(0x948347ae, 0x6945a3d5, 0xcc912f27, 0x377c7d0a, 0x00000000, 17, 0xffff5bb1) == 0xae23894d
    ensures FF(0x377c7d0a, 0xae23894d, 0x6945a3d5, 0xcc912f27, 0x00000000, 22, 0x895cd7be) == 0xb9ede40c
    ensures FF(0xcc912f27, 0xb9ede40c, 0xae23894d, 0x6945a3d5, 0x00000000, 7, 0x6b901122) == 0xdb4ff71c
    ensures FF(0x6945a3d5, 0xdb4ff71c, 0xb9ede40c, 0xae23894d, 0x00000000, 12, 0xfd987193) == 0x9b6b4960
    ensures FF(0xae23894d, 0x9b6b4960, 0xdb4ff71c, 0xb9ede40c, 0x00000280, 17, 0xa679438e) == 0x04396a39
    ensures FF(0xb9ede40c, 0x04396a39, 0x9b6b4960, 0xdb4ff71c, 0x00000000, 22, 0x49b40821) == 0x58b12eab
  {
  }

  lemma Block1Round1()
    ensures Steps(R1, Block(1), 16) == Regs(0xdb4ff71c, 0x58b12eab, 0x04396a39, 0x9b6b4960)
  {
    hide *;
    Block1Start();
    Words1();
    Round1Tables();
    Round1Sines();
    Values1Round1();
    Round1Step(R1, Block(1), 0);
    Round1Step(R1, Block(1), 1);
    Round1Step(R1, Block(1), 2);
    Round1Step(R1, Block(1), 3);
    Round1Step(R1, Block(1), 4);
    Round1Step(R1, Block(1), 5);
    Round1Step(R1, Block(1), 6);
    Round1Step(R1, Block(1), 7);
    Round1Step(R1, Block(1), 8);
    Round1Step(R1, Block(1), 9);
    Round1Step(R1, Block(1), 10);
    Round1Step(R1, Block(1), 11);
    Round1Step(R1, Block(1), 12);
    Round1Step(R1, Block(1), 13);
    Round1Step(R1, Block(1), 14);
    Round1Step(R1, Block(1), 15);
  }

  lemma Values1Round2()
    ensures GG(0xdb4ff71c, 0x58b12eab, 0x04396a39, 0x9b6b4960, 0x32313039, 5, 0xf61e2562) == 0x52c00cae
    ensures GG(0x9b6b4960, 0x52c00cae, 0x58b12eab, 0x04396a39, 0x00000000, 9, 0xc040b340) == 0xaad2a216
    ensures GG(0x04396a39, 0xaad2a216, 0x52c00cae, 0x58b12eab, 0x00000000, 14, 0x265e5a51) == 0xa476af6f
    ensures GG(0x58b12eab, 0xa476af6f, 0xaad2a216, 0x52c00cae, 0x38373635, 20, 0xe9b6c7aa) == 0x50f8de8c
    ensures GG(0x52c00cae, 0x50f8de8c, 0xa476af6f, 0xaad2a216, 0x00000000, 5, 0xd62f105d) == 0x0d6e6d91
    ensures GG(0xaad2a216, 0x0d6e6d91, 0x50f8de8c, 0xa476af6f, 0x00000000, 9, 0x02441453) == 0x17d64195
    ensures GG(0xa476af6f, 0x17d64195, 0x0d6e6d91, 0x50f8de8c, 0x00000000, 14, 0xd8a1e681) == 0xd5b7a850
    ensures GG(0x50f8de8c, 0xd5b7a850, 0x17d64195, 0x0d6e6d91, 0x00000080, 20, 0xe7d3fbc8) == 0x043cb080
    ensures GG(0x0d6e6d91, 0x043cb080, 0xd5b7a850, 0x17d64195, 0x00000000, 5, 0x21e1cde6) == 0x74f9377e
    ensures GG(0x17d64195, 0x74f9377e, 0x043cb080, 0xd5b7a850, 0x00000280, 9, 0xc33707d6) == 0x01f2addd
    ensures GG(0xd5b7a850, 0x01f2addd, 0x74f9377e, 0x043cb080, 0x30393837, 14, 0xf4d50d87) == 0xe775c8ca
    ensures GG(0x043cb080, 0xe775c8ca, 0x01f2addd, 0x74f9377e, 0x00000000, 20, 0x455a14ed) == 0xcb00b96e
    ensures GG(0x74f9377e, 0xcb00b96e, 0xe775c8ca, 0x01f2addd, 0x00000000, 5, 0xa9e3e905) == 0x8761f38e
    ensures GG(0x01f2addd, 0x8761f38e, 0xcb00b96e, 0xe775c8ca, 0x36353433, 9, 0xfcefa3f8) == 0x7a516116
    ensures GG(0xe775c8ca, 0x7a516116, 0x8761f38e, 0xcb00b96e, 0x00000000, 14, 0x676f02d9) == 0x061bc867
    ensures GG(0xcb00b96e, 0x061bc867, 0x7a516116, 0x8761f38e, 0x00000000, 20, 0x8d2a4c8a) == 0x67092c33
  {
  }

  lemma Block1Round2()
    ensures Steps(R1, Block(1), 32) == Regs(0x8761f38e, 0x67092c33, 0x061bc867, 0x7a516116)
  {
    hide *;
    Block1Round1();
    Words1();
    Round2Tables();
    Round2Sines();
    Values1Round2();
    Round2Step(R1, Block(1), 16);
    Round2Step(R1, Block(1), 17);
    Round2Step(R1, Block(1), 18);
    Round2Step(R1, Block(1), 19);
    Round2Step(R1, Block(1), 20);
    Round2Step(R1, Block(1), 21);
    Round2Step(R1, Block(1), 22);
    Round2Step(R1, Block(1), 23);
    Round2Step(R1, Block(1), 24);
    Round2Step(R1, Block(1), 25);
    Round2Step(R1, Block(1), 26);
    Round2Step(R1, Block(1), 27);
    Round2Step(R1, Block(1), 28);
    Round2Step(R1, Block(1), 29);
    Round2Step(R1, Block(1), 30);
    Round2Step(R1, Block(1), 31);
  }

  lemma Values1Round3()
    ensures HH(0x8761f38e, 0x67092c33, 0x061bc867, 0x7a516116, 0x00000000, 4, 0xfffa3942) == 0x91044d5d
    ensures HH(0x7a516116, 0x91044d5d, 0x67092c33, 0x061bc867, 0x00000000, 11, 0x8771f681) == 0x610954eb
    ensures HH(0x061bc867, 0x610954eb, 0x91044d5d, 0x67092c33, 0x00000000, 16, 0x6d9d6122) == 0xc0175fa8
    ensures HH(0x67092c33, 0xc0175fa8, 0x610954eb, 0x91044d5d, 0x00000280, 23, 0xfde5380c) == 0x2ee1e3fe
    ensures HH(0x91044d5d, 0x2ee1e3fe, 0xc0175fa8, 0x610954eb, 0x32313039, 4, 0xa4beea44) == 0xae26ed7d
    ensures HH(0x610954eb, 0xae26ed7d, 0x2ee1e3fe, 0xc0175fa8, 0x00000080, 11, 0x4bdecfa9) == 0x71d8ecea
    ensures HH(0xc0175fa8, 0x71d8ecea, 0xae26ed7d, 0x2ee1e3fe, 0x00000000, 16, 0xf6bb4b60) == 0xff4a94dc
    ensures HH(0x2ee1e3fe, 0xff4a94dc, 0x71d8ecea, 0xae26ed7d, 0x00000000, 23, 0xbebfbc70) == 0xdbd1bff6
    ensures HH(0xae26ed7d, 0xdbd1bff6, 0xff4a94dc, 0x71d8ecea, 0x00000000, 4, 0x289b7ec6) == 0x9c350028
    ensures HH(0x71d8ecea, 0x9c350028, 0xdbd1bff6, 0xff4a94dc, 0x38373635, 11, 0xeaa127fa) == 0x97e5da92
    ensures HH(0xff4a94dc, 0x97e5da92, 0x9c350028, 0xdbd1bff6, 0x30393837, 16, 0xd4ef3085) == 0xfacaaf06
    ensures HH(0xdbd1bff6, 0xfacaaf06, 0x97e5da92, 0x9c350028, 0x00000000, 23, 0x04881d05) == 0x56b3692f
    ensures HH(0x9c350028, 0x56b3692f, 0xfacaaf06, 0x97e5da92, 0x00000000, 4, 0xd9d4d039) == 0x71123afa
    ensures HH(0x97e5da92, 0x71123afa, 0x56b3692f, 0xfacaaf06, 0x00000000, 11, 0xe6db99e5) == 0xdc9c8ddb
    ensures HH(0xfacaaf06, 0xdc9c8ddb, 0x71123afa, 0x56b3692f, 0x00000000, 16, 0x1fa27cf8) == 0xe6a8a386
    ensures HH(0x56b3692f, 0xe6a8a386, 0xdc9c8ddb, 0x71123afa, 0x36353433, 23, 0xc4ac5665) == 0x1df7010a
  {
  }

  lemma Block1Round3()
    ensures Steps(R1, Block(1), 48) == Regs(0x71123afa, 0x1df7010a, 0xe6a8a386, 0xdc9c8ddb)
  {
    hide *;
    Block1Round2();
    Words1();
    Round3Tables();
    Round3Sines();
    Values1Round3();
    Round3Step(R1, Block(1), 32);
    Round3Step(R1, Block(1), 33);
    Round3Step(R1, Block(1), 34);
    Round3Step(R1, Block(1), 35);
    Round3Step(R1, Block(1), 36);
    Round3Step(R1, Block(1), 37);
    Round3Step(R1, Block(1), 38);
    Round3Step(R1, Block(1), 39);
    Round3Step(R1, Block(1), 40);
    Round3Step(R1, Block(1), 41);
    Round3Step(R1, Block(1), 42);
    Round3Step(R1, Block(1), 43);
    Round3Step(R1, Block(1), 44);
    Round3Step(R1, Block(1), 45);
    Round3Step(R1, Block(1), 46);
    Round3Step(R1, Block(1), 47);
  }

  lemma Values1Round4()
    ensures II(0x71123afa, 0x1df7010a, 0xe6a8a386, 0xdc9c8ddb, 0x38373635, 6, 0xf4292244) == 0xd29007e7
    ensures II(0xdc9c8ddb, 0xd29007e7, 0x1df7010a, 0xe6a8a386, 0x00000000, 10, 0x432aff97) == 0x7241a77e
    ensures II(0xe6a8a386, 0x7241a77e, 0xd29007e7, 0x1df7010a, 0x00000280, 15, 0xab9423a7) == 0xd3248109
    ensures II(0x1df7010a, 0xd3248109, 0x7241a77e, 0xd29007e7, 0x00000000, 21, 0xfc93a039) == 0xc8797828
    ensures II(0xd29007e7, 0xc8797828, 0xd3248109, 0x7241a77e, 0x00000000, 6, 0x655b59c3) == 0x7a504abd
    ensures II(0x7241a77e, 0x7a504abd, 0xc8797828, 0xd3248109, 0x30393837, 10, 0x8f0ccc92) == 0x211cc65d
    ensures II(0xd3248109, 0x211cc65d, 0x7a504abd, 0xc8797828, 0x00000000, 15, 0xffeff47d) == 0xa290d6ce
    ensures II(0xc8797828, 0xa290d6ce, 0x211cc65d, 0x7a504abd, 0x32313039, 21, 0x85845dd1) == 0x9b31b114
    ensures II(0x7a504abd, 0x9b31b114, 0xa290d6ce, 0x211cc65d, 0x00000000, 6, 0x6fa87e4f) == 0x723fd22d
    ensures II(0x211cc65d, 0x723fd22d, 0x9b31b114, 0xa290d6ce, 0x00000000, 10, 0xfe2ce6e0) == 0xd21d6a3b
    ensures II(0xa290d6ce, 0xd21d6a3b, 0x723fd22d, 0x9b31b114, 0x00000000, 15, 0xa3014314) == 0x3d79cf74
    ensures II(0x9b31b114, 0x3d79cf74, 0xd21d6a3b, 0x723fd22d, 0x00000000, 21, 0x4e0811a1) == 0x4dc4f33d
    ensures II(0x723fd22d, 0x4dc4f33d, 0x3d79cf74, 0xd21d6a3b, 0x00000080, 6, 0xf7537e82) == 0xda67616b
    ensures II(0xd21d6a3b, 0xda67616b, 0x4dc4f33d, 0x3d79cf74, 0x00000000, 10, 0xbd3af235) == 0xc9e47a04
    ensures II(0x3d79cf74, 0xc9e47a04, 0xda67616b, 0x4dc4f33d, 0x36353433, 15, 0x2ad7d2bb) == 0x44ec5a13
    ensures II(0x4dc4f33d, 0x44ec5a13, 0xc9e47a04, 0xda67616b, 0x00000000, 21, 0xeb86d391) == 0xb12906a0
  {
  }

  lemma Block1Round4()
    ensures Steps(R1, Block(1), 64) == Regs(0xda67616b, 0xb12906a0, 0x44ec5a13, 0xc9e47a04)
  {
    hide *;
    Block1Round3();
    Words1();
    Round4Tables();
    Round4Sines();
    Values1Round4();
    Round4Step(R1, Block(1), 48);
    Round4Step(R1, Block(1), 49);
    Round4Step(R1, Block(1), 50);
    Round4Step(R1, Block(1), 51);
    Round4Step(R1, Block(1), 52);
    Round4Step(R1, Block(1), 53);
    Round4Step(R1, Block(1), 54);
    Round4Step(R1, Block(1), 55);
    Round4Step(R1, Block(1), 56);
    Round4Step(R1, Block(1), 57);
    Round4Step(R1, Block(1), 58);
    Round4Step(R1, Block(1), 59);
    Round4Step(R1, Block(1), 60);
    Round4Step(R1, Block(1), 61);
    Round4Step(R1, Block(1), 62);
    Round4Step(R1, Block(1), 63);
  }

  lemma Block1Sum()
    ensures AddRegs(R1, Regs(0xda67616b, 0xb12906a0, 0x44ec5a13, 0xc9e47a04)) ==
            Regs(0xa2f4ed57, 0x55c9e32b, 0x2eda49ac, 0x7ab60721)
  {
  }

  lemma Folded()
    ensures Digest(Message()) == Regs(0xa2f4ed57, 0x55c9e32b, 0x2eda49ac, 0x7ab60721)
  {
    hide Steps, Padded, Message, BlockAt, AddRegs;
    PaddedLength();
    Block0Round4();
    Block0Sum();
    Block1Round4();
    Block1Sum();
    var p := Padded(Message());
    assert Fold(p, 0) == R0;
    assert Fold(p, 1) == Transform(R0, Block(0)) == R1;
    assert Fold(p, 2) == Transform(R1, Block(1));
  }

  lemma HexWords()
    ensures HexWord(0xa2f4ed57) == "57edf4a2"
    ensures HexWord(0x55c9e32b) == "2be3c955"
    ensures HexWord(0x2eda49ac) == "ac49da2e"
    ensures HexWord(0x7ab60721) == "2107b67a"
  {
    hide HexByte;
    HexBytes();
  }

  lemma HexBytes()
    ensures HexByte(0x07) == "07"
    ensures HexByte(0x21) == "21"
    ensures HexByte(0x2b) == "2b"
    ensures HexByte(0x2e) == "2e"
    ensures HexByte(0x49) == "49"
    ensures HexByte(0x55) == "55"
    ensures HexByte(0x57) == "57"
    ensures HexByte(0x7a) == "7a"
    ensures HexByte(0xa2) == "a2"
    ensures HexByte(0xac) == "ac"
    ensures HexByte(0xb6) == "b6"
    ensures HexByte(0xc9) == "c9"
    ensures HexByte(0xda) == "da"
    ensures HexByte(0xe3) == "e3"
    ensures HexByte(0xed) == "ed"
    ensures HexByte(0xf4) == "f4"
  {
  }

  /** The digest that the standard gives. */
  lemma DigestOfDigits()
    ensures HexDigest(Message()) == "57edf4a2" + "2be3c955" + "ac49da2e" + "2107b67a"
  {
    hide HexWord, Digest;
    Folded();
    HexWords();
  }
}
