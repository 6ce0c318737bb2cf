/**
 Frames byte by byte, as section 5.2 of RFC 6455 lays them out, and the examples of its
 section 5.7.
 */
module WebSocketWire {
  import opened Octet
  import opened WebSocketFrame

  /** The final frame of a message: the highest bit, and the opcode in the low four. */
  lemma FirstByteValue(opcode: int)
    requires 0 <= opcode < 16
    ensures Value(FirstByte(opcode)) == 128 + opcode
  {
    hide Byte, Value;
    ByteRoundTrip(opcode);
    SmallNumber(opcode);
    HighBit(Byte(opcode));
  }

  lemma SmallNumber(n: nat)
    requires n < 16
    ensures Byte(n) & 0xf0 == 0
  {
    hide Bits;
    assert n % 256 == n && n / 16 == 0 && n / 32 == 0 && n / 64 == 0 && n / 128 == 0;
    FourBits(n % 2 == 1, n / 2 % 2 == 1, n / 4 % 2 == 1, n / 8 % 2 == 1);
  }

  lemma FourBits(b0: bool, b1: bool, b2: bool, b3: bool)
    ensures Bits(b0, b1, b2, b3, false, false, false, false) & 0xf0 == 0
  {
  }

  lemma HighBit(b: bv8)
    requires b & 0xf0 == 0
    ensures Value(0x80 + b) == 128 + Value(b)
  {
    hide Nibble;
    HighBitSet(b);
    Nibbles();
  }

  lemma HighBitSet(b: bv8)
    requires b & 0xf0 == 0
    ensures var c := 0x80 + b;
            && Set(c, 1) == Set(b, 1) && Set(c, 2) == Set(b, 2) && Set(c, 4) == Set(b, 4) && Set(c, 8) == Set(b, 8)
            && !Set(b, 16) && !Set(b, 32) && !Set(b, 64) && !Set(b, 128)
            && !Set(c, 16) && !Set(c, 32) && !Set(c, 64) && Set(c, 128)
  {
  }

  lemma Nibbles()
    ensures Nibble(false, false, false, false) == 0 && Nibble(false, false, false, true) == 8
  {
  }

  /** Two bytes of a number in network order. */
  function Short(s: bytes, i: nat): nat
    requires i + 2 <= |s|
  {
    256 * Value(s[i]) + Value(s[i + 1])
  }

  lemma DigitsShort(n: nat)
    requires n < 65536
    ensures Short(Digits(n, 2), 0) == n
  {
    hide Byte, Value;
    assert Digits(n / 256, 1) == [LowByte(n / 256)] by { assert Digits(n / 256 / 256, 0) == []; }
    ByteRoundTrip(n);
    ByteRoundTrip(n / 256);
  }

  lemma DigitsLong(n: nat)
    requires n < 0x1_0000_0000_0000_0000
    ensures var s := Digits(n, 8);
            n == 0x1_0000_0000_0000 * Short(s, 0) + 0x1_0000_0000 * Short(s, 2) + 0x1_0000 * Short(s, 4) + Short(s, 6)
  {
    hide Digits, Short;
    var a, b := n / 0x1_0000, n / 0x1_0000 / 0x1_0000;
    var c := b / 0x1_0000;
    TwoMore(n, 6);
    TwoMore(a, 4);
    TwoMore(b, 2);
    TwoMore(c, 0);
    DigitsShort(n % 0x1_0000);
    DigitsShort(a % 0x1_0000);
    DigitsShort(b % 0x1_0000);
    DigitsShort(c);
    assert c < 0x1_0000;
    Shorts(Digits(n, 8), Digits(c, 2), Digits(b % 0x1_0000, 2), Digits(a % 0x1_0000, 2), Digits(n % 0x1_0000, 2));
  }

  lemma Shorts(s: bytes, a: bytes, b: bytes, c: bytes, d: bytes)
    requires |a| == |b| == |c| == |d| == 2 && s == a + b + c + d
    ensures Short(s, 0) == Short(a, 0) && Short(s, 2) == Short(b, 0)
    ensures Short(s, 4) == Short(c, 0) && Short(s, 6) == Short(d, 0)
  {
  }

  /** The last two of n + 2 bytes. */
  lemma TwoMore(x: nat, n: nat)
    ensures Digits(x, n + 2) == Digits(x / 0x1_0000, n) + Digits(x % 0x1_0000, 2)
  {
    hide LowByte, Digits;
    DigitsSnoc(x, n + 2);
    DigitsSnoc(x / 256, n + 1);
    DivBytes(x);
    var y := x % 0x1_0000;
    DigitsSnoc(y, 2);
    DigitsSnoc(y / 256, 1);
    NoDigits(y / 256 / 256);
    SameLowBytes(x);
    assert [LowByte(y / 256)] + [LowByte(y)] == [LowByte(x / 256), LowByte(x)];
  }

  lemma SameLowBytes(x: nat)
    ensures var y := x % 0x1_0000; LowByte(y) == LowByte(x) && LowByte(y / 256) == LowByte(x / 256)
  {
    hide BinaryByte;
    var q, y := x / 0x1_0000, x % 0x1_0000;
    assert x == 256 * (256 * q) + y;
    assert x % 256 == y % 256 && x / 256 == 256 * q + y / 256;
    assert (256 * q + y / 256) % 256 == y / 256 % 256;
  }

  // ----- layout (section 5.2)

  /** The second byte without the mask bit, and the bytes in front of the data. */
  lemma LengthLayout(wsbits: bv8, data: bytes)
    requires |data| < 0x1_0000_0000_0000_0000
    ensures var s, n := Plain(wsbits, data), |data|;
            && s[0] == wsbits
            && (n < 126 ==> |s| == 2 + n && Value(s[1]) == n)
            && (126 <= n < 65536 ==> |s| == 4 + n && Value(s[1]) == 126 && Short(s, 2) == n)
            && (n >= 65536 ==> |s| == 10 + n && Value(s[1]) == 127
                               && n == 0x1_0000_0000_0000 * Short(s, 2) + 0x1_0000_0000 * Short(s, 4)
                                       + 0x1_0000 * Short(s, 6) + Short(s, 8))
            && s[|s| - n..] == data
  {
    hide Digits, Byte, Value, Short;
    var n := |data|;
    CodeValue(n);
    var s := Plain(wsbits, data);
    assert s[1] == LengthCode(n);
    if n < 126 {
      assert s == [wsbits, LengthCode(n)] + data;
    } else if n < 65536 {
      DigitsShort(n);
      ShortIn([wsbits, LengthCode(n)], Digits(n, 2), data, 0);
    } else {
      DigitsLong(n);
      ShortIn([wsbits, LengthCode(n)], Digits(n, 8), data, 0);
      ShortIn([wsbits, LengthCode(n)], Digits(n, 8), data, 2);
      ShortIn([wsbits, LengthCode(n)], Digits(n, 8), data, 4);
      ShortIn([wsbits, LengthCode(n)], Digits(n, 8), data, 6);
    }
  }

  lemma CodeValue(n: nat)
    ensures Value(LengthCode(n)) == if n < 126 then n else if n < 65536 then 126 else 127
  {
    hide Byte, Value;
    ByteRoundTrip(n);
    ByteRoundTrip(126);
    ByteRoundTrip(127);
    LongCodes();
  }

  lemma ShortIn(pre: bytes, s: bytes, post: bytes, i: nat)
    requires i + 2 <= |s|
    ensures Short(pre + s + post, |pre| + i) == Short(s, i)
  {
    hide Value;
    var t := pre + s + post;
    assert t[|pre| + i] == s[i] && t[|pre| + i + 1] == s[i + 1];
  }

  lemma Parts(a: bytes, f: bytes, key: bytes, m: bytes)
    requires |a| == 2 && |key| == 4
    ensures var t := a + f + key + m;
            && t[0] == a[0] && t[1] == a[1] && t[2..2 + |f|] == f && t[2 + |f|..6 + |f|] == key
            && t[6 + |f|..] == m && |t| == 6 + |f| + |m|
  {
  }

  function Combined(key: bytes, data: bytes): (r: bytes)
    requires |key| == 4
    ensures |r| == |data| && forall i :: 0 <= i < |data| ==> r[i] == data[i] ^ key[i % 4]
  {
    seq(|data|, i requires 0 <= i < |data| => data[i] ^ key[i % 4])
  }

  /** A masked frame has the highest bit of the second byte set, the key in front of the data
      and each byte of the data combined with the byte of the key at its place modulo 4. */
  lemma MaskLayout(wsbits: bv8, key: bytes, data: bytes)
    requires |key| == 4
    ensures var s, t := Plain(wsbits, data), Masked(wsbits, key, data);
            var head := |s| - |data|;
            && |t| == |s| + 4 && t[0] == s[0] && t[1] == s[1] | 0x80 && t[2..head] == s[2..head]
            && t[head..head + 4] == key && t[head + 4..] == Combined(key, data)
  {
    hide LengthField, LengthCode, Combined;
    var n, f := |data|, LengthField(|data|);
    assert Masked(wsbits, key, data) == [wsbits, LengthCode(n) | 128] + f + key + Combined(key, data) by {
      MaskedIs(wsbits, key, data);
    }
    Parts([wsbits, LengthCode(n) | 128], f, key, Combined(key, data));
    var s := Plain(wsbits, data);
    assert s[0] == wsbits && s[1] == LengthCode(n) && s[2..2 + |f|] == f;
  }

  lemma MaskedIs(wsbits: bv8, key: bytes, data: bytes)
    requires |key| == 4
    ensures Masked(wsbits, key, data) ==
            [wsbits, LengthCode(|data|) | 128] + LengthField(|data|) + key + Combined(key, data)
  {
    hide LengthField, LengthCode;
  }

  // ----- the examples (section 5.7)

  function Hello(): bytes {
    [0x48, 0x65, 0x6c, 0x6c, 0x6f]
  }

  lemma FiveBytes()
    ensures LengthCode(5) == 0x05 && LengthField(5) == []
  {
  }

  lemma HelloBytes(i: nat)
    requires i < 5
    ensures var key: bytes := [0x37, 0xfa, 0x21, 0x3d];
            var masked: bytes := [0x7f, 0x9f, 0x4d, 0x51, 0x58];
            Hello()[i] ^ key[i % 4] == masked[i]
  {
    var a: bv8, b: bv8, c: bv8, d: bv8, e: bv8 := 0x48, 0x65, 0x6c, 0x6c, 0x6f;
    assert a ^ 0x37 == 0x7f && b ^ 0xfa == 0x9f && c ^ 0x21 == 0x4d && d ^ 0x3d == 0x51 && e ^ 0x37 == 0x58;
    assert i == 0 || i == 1 || i == 2 || i == 3 || i == 4;
  }

  /** A text message in one frame, unmasked and masked. */
  lemma HelloFrames()
    ensures Plain(0x81, Hello()) == [0x81, 0x05, 0x48, 0x65, 0x6c, 0x6c, 0x6f]
    ensures Masked(0x81, [0x37, 0xfa, 0x21, 0x3d], Hello()) ==
            [0x81, 0x85, 0x37, 0xfa, 0x21, 0x3d, 0x7f, 0x9f, 0x4d, 0x51, 0x58]
  {
    hide LengthCode, LengthField;
    FiveBytes();
    var key: bytes, expected: bytes := [0x37, 0xfa, 0x21, 0x3d], [0x7f, 0x9f, 0x4d, 0x51, 0x58];
    var data := Hello();
    var masked: bytes := seq(|data|, i requires 0 <= i < |data| => data[i] ^ key[i % 4]);
    forall i | 0 <= i < 5 ensures masked[i] == expected[i] {
      HelloBytes(i);
    }
    assert masked == expected;
    assert Masked(0x81, key, data) == [0x81, 0x05 | 0x80] + [] + key + masked;
  }

  /** The headers of binary messages of 256 bytes and of 64 KiB. */
  lemma LongHeaders(data: bytes)
    ensures |data| == 0x100 ==> Plain(0x82, data) == [0x82, 0x7e, 0x01, 0x00] + data
    ensures |data| == 0x1_0000 ==>
              Plain(0x82, data) == [0x82, 0x7f, 0x00, 0x00, 0x00, 0x00, 0x00, 0x01, 0x00, 0x00] + data
  {
    hide Digits;
    SmallDigits();
    DigitsOf64K();
  }

  lemma SmallBytes()
    ensures LowByte(0) == 0x00 && LowByte(1) == 0x01 && LowByte(0x100) == 0x00
  {
    assert BinaryByte(0) == Bits(false, false, false, false, false, false, false, false);
    assert BinaryByte(1) == Bits(true, false, false, false, false, false, false, false);
  }

  lemma SmallDigits()
    ensures Digits(0, 2) == [0x00, 0x00] && Digits(1, 2) == [0x00, 0x01] && Digits(0x100, 2) == [0x01, 0x00]
  {
    hide LowByte, Digits;
    SmallBytes();
    NoDigits(0);
    DigitsSnoc(0, 1);
    DigitsSnoc(1, 1);
    DigitsSnoc(0, 2);
    DigitsSnoc(1, 2);
    DigitsSnoc(0x100, 2);
  }

  lemma DigitsOf64K()
    ensures Digits(0x1_0000, 8) == [0x00, 0x00, 0x00, 0x00, 0x00, 0x01, 0x00, 0x00]
  {
    hide Digits;
    SmallDigits();
    TwoMore(0x1_0000, 6);
    TwoMore(1, 4);
    TwoMore(0, 2);
  }
}
