/**
 Framing of the web server's WebSocket connections (sections 5.2 and 5.3 of RFC
 6455): frames written by mg_websocket_write, and deliver_websocket_frame, which
 takes frames off the input buffer.
 */
module WebSocketFrame {
  import opened Octet

  type bytes = seq<bv8>

  const INT_MAX: int := 0x7fff_ffff

  /** What the handler is given: the first byte of the frame, the length and the
      unmasked content. */
  datatype Frame = Frame(wsbits: bv8, contentLen: int, content: bytes)

  // ----- lengths

  function Len7(b: bv8): nat {
    Value(b & 127)
  }

  function MaskLen(b: bv8): nat {
    if b & 128 != 0 then 4 else 0
  }

  /** The number in n bytes from position i, the most significant byte first. */
  function BigEndian(s: bytes, i: nat, n: nat): nat
    requires i + n <= |s|
  {
    if n == 0 then 0 else 256 * BigEndian(s, i, n - 1) + Value(s[i + n - 1])
  }

  function LowByte(x: nat): bv8 {
    Byte(x)
  }

  /** n bytes that hold x, the most significant one first. */
  function Digits(x: nat, n: nat): (r: bytes)
    ensures |r| == n
  {
    if n == 0 then [] else Digits(x / 256, n - 1) + [LowByte(x)]
  }

  function Pow256(n: nat): nat {
    if n == 0 then 1 else 256 * Pow256(n - 1)
  }

  lemma {:induction false} DigitsRead(x: nat, n: nat, pre: bytes, post: bytes)
    requires x < Pow256(n)
    ensures BigEndian(pre + Digits(x, n) + post, |pre|, n) == x
  {
    hide LowByte, Value;
    if n > 0 {
      var last := [LowByte(x)];
      DigitsRead(x / 256, n - 1, pre, last + post);
      var s := pre + Digits(x, n) + post;
      assert s == pre + Digits(x / 256, n - 1) + (last + post);
      assert s[|pre| + n - 1] == LowByte(x);
      LowByteValue(x);
    }
  }

  lemma LowByteValue(x: nat)
    ensures Value(LowByte(x)) == x % 256
  {
    hide Byte, Value;
    ByteRoundTrip(x);
  }

  /** A 64-bit length, of which only the low half is read, as a signed int. */
  function LowHalf(low: nat): int {
    if low < 0x8000_0000 then low else low - 0x1_0000_0000
  }

  // ----- taking a frame off the buffer

  /** header_len and data_len; both 0 while the header is incomplete. */
  function Lengths(buf: bytes): (nat, int) {
    if |buf| < 2 then (0, 0)
    else
      var len, maskLen := Len7(buf[1]), MaskLen(buf[1]);
      if len < 126 && |buf| >= maskLen then (2 + maskLen, len)
      else if len == 126 && |buf| >= 4 + maskLen then (4 + maskLen, BigEndian(buf, 2, 2))
      else if |buf| >= 10 + maskLen then (10 + maskLen, LowHalf(BigEndian(buf, 6, 4) % 0x1_0000_0000))
      else (0, 0)
  }

  function FrameLen(buf: bytes): int {
    Lengths(buf).0 + Lengths(buf).1
  }

  /** The first frame has arrived completely. */
  predicate Complete(buf: bytes) {
    0 < FrameLen(buf) <= |buf|
  }

  /** The program can tell: it keeps the length of the buffer in an int, and a frame
      length beyond the range of int wraps to a negative one. */
  predicate Buffered(buf: bytes) {
    |buf| <= INT_MAX && Complete(buf)
  }

  /** A sum of two ints, or of an int and a header length, as it wraps. */
  function Wrapped(sum: int): int {
    if sum > INT_MAX then sum - 0x1_0000_0000 else sum
  }

  /** The bytes from `at` to `end` under the mask that stands before them. */
  function Unmask(buf: bytes, at: nat, end: nat): (r: bytes)
    requires 4 <= at <= end <= |buf|
    ensures |r| == end - at
  {
    seq(end - at, i requires 0 <= i < end - at => buf[at + i] ^ buf[at - 4 + i % 4])
  }

  function First(buf: bytes): Frame
    requires Complete(buf)
  {
    var (header, data) := Lengths(buf);
    var content := if data <= 0 then []
                   else if MaskLen(buf[1]) > 0 then Unmask(buf, header, header + data)
                   else buf[header..header + data];
    Frame(buf[0], data, content)
  }

  /** What follows the first frame. */
  function Rest(buf: bytes): (r: bytes)
    requires Complete(buf)
    ensures |r| < |buf|
  {
    buf[FrameLen(buf)..]
  }

  /** The frames in a buffer of any size, and what follows the last complete one. */
  function Parse(buf: bytes): (seq<Frame>, bytes)
    decreases |buf|
  {
    if !Complete(buf) then ([], buf)
    else
      var (frames, rest) := Parse(Rest(buf));
      ([First(buf)] + frames, rest)
  }

  /** Frames that the program delivers from a buffer, and what is left in it. */
  function Drain(buf: bytes): (seq<Frame>, bytes)
    decreases |buf|
  {
    if !Buffered(buf) then ([], buf)
    else
      var (frames, rest) := Drain(Rest(buf));
      ([First(buf)] + frames, rest)
  }

  // ----- the input may arrive in pieces

  lemma {:induction false} BigEndianPrefix(s: bytes, t: bytes, i: nat, n: nat)
    requires i + n <= |s|
    ensures BigEndian(s + t, i, n) == BigEndian(s, i, n)
  {
    if n > 0 {
      BigEndianPrefix(s, t, i, n - 1);
    }
  }

  lemma LengthsStay(buf: bytes, more: bytes)
    requires Lengths(buf).0 > 0
    ensures Lengths(buf + more) == Lengths(buf)
  {
    hide Len7, MaskLen, BigEndian;
    if |buf| >= 4 {
      BigEndianPrefix(buf, more, 2, 2);
    }
    if |buf| >= 10 {
      BigEndianPrefix(buf, more, 6, 4);
    }
    assert (buf + more)[1] == buf[1];
  }

  lemma SliceStays(buf: bytes, more: bytes, from: nat, end: nat)
    requires from <= end <= |buf|
    ensures (buf + more)[from..end] == buf[from..end]
  {
  }

  lemma UnmaskStays(buf: bytes, more: bytes, at: nat, end: nat)
    requires 4 <= at <= end <= |buf|
    ensures Unmask(buf + more, at, end) == Unmask(buf, at, end)
  {
  }

  lemma RestStays(buf: bytes, more: bytes, n: nat)
    requires n <= |buf|
    ensures (buf + more)[n..] == buf[n..] + more
  {
  }

  /** A frame that is complete does not change when more bytes arrive. */
  lemma FirstStays(buf: bytes, more: bytes)
    requires Complete(buf)
    ensures Complete(buf + more) && First(buf + more) == First(buf) && FrameLen(buf + more) == FrameLen(buf)
    ensures Rest(buf + more) == Rest(buf) + more
  {
    hide Len7, BigEndian, Unmask;
    HeaderPositive(buf);
    LengthsStay(buf, more);
    var (header, data) := Lengths(buf);
    assert (buf + more)[0] == buf[0] && (buf + more)[1] == buf[1];
    if data > 0 {
      SliceStays(buf, more, header, header + data);
      if MaskLen(buf[1]) > 0 {
        UnmaskStays(buf, more, header, header + data);
      }
    }
    RestStays(buf, more, FrameLen(buf));
  }

  lemma HeaderPositive(buf: bytes)
    requires Complete(buf)
    ensures Lengths(buf).0 > 0
  {
    hide Len7, MaskLen, BigEndian;
  }

  lemma ParseStep(buf: bytes)
    requires Complete(buf)
    ensures Parse(buf).0 == [First(buf)] + Parse(Rest(buf)).0
    ensures Parse(buf).1 == Parse(Rest(buf)).1
  {
    hide First, Rest, Complete;
  }

  lemma ParseNothing()
    ensures Parse([]) == ([], [])
  {
  }

  lemma {:induction false} ParseMore(buf: bytes, more: bytes)
    ensures var (frames, rest) := Parse(buf);
            var (frames', rest') := Parse(rest + more);
            Parse(buf + more) == (frames + frames', rest')
    decreases |buf|
  {
    hide First, Rest, Complete;
    if Complete(buf) {
      ParseStep(buf);
      ParseMore(Rest(buf), more);
      FirstStays(buf, more);
      ParseStep(buf + more);
      ParseOneMore(First(buf), Parse(Rest(buf)).0, Parse(Parse(buf).1 + more).0);
    } else {
      assert [] + Parse(buf + more).0 == Parse(buf + more).0;
    }
  }

  lemma ParseOneMore(f: Frame, a: seq<Frame>, b: seq<Frame>)
    ensures [f] + (a + b) == ([f] + a) + b
  {
  }

  /** In buffers whose length is an int the program finds every complete frame. */
  lemma {:induction false} DrainIsParse(buf: bytes)
    requires |buf| <= INT_MAX
    ensures Drain(buf) == Parse(buf)
    decreases |buf|
  {
    hide First, Rest, Complete;
    if Complete(buf) {
      DrainIsParse(Rest(buf));
    }
  }

  function Concat(chunks: seq<bytes>): bytes {
    if chunks == [] then [] else Concat(chunks[..|chunks| - 1]) + chunks[|chunks| - 1]
  }

  /** Frames delivered while the chunks arrive one by one, and what is left. */
  function DrainChunks(chunks: seq<bytes>): (seq<Frame>, bytes) {
    if chunks == [] then ([], [])
    else
      var (frames, rest) := DrainChunks(chunks[..|chunks| - 1]);
      var (frames', rest') := Drain(rest + chunks[|chunks| - 1]);
      (frames + frames', rest')
  }

  /** What is left over and the next chunk never make a buffer longer than an int. */
  predicate Fits(chunks: seq<bytes>) {
    chunks == [] ||
    (Fits(chunks[..|chunks| - 1]) && |DrainChunks(chunks[..|chunks| - 1]).1 + chunks[|chunks| - 1]| <= INT_MAX)
  }

  /** Whatever the bytes are, and however they are cut into chunks: as long as the buffer
      fits an int, the same frames are delivered and the same bytes are left over. */
  lemma {:induction false} ChunksDoNotMatter(chunks: seq<bytes>)
    requires Fits(chunks)
    ensures DrainChunks(chunks) == Parse(Concat(chunks))
  {
    hide Drain, Parse;
    if chunks == [] {
      ParseNothing();
    } else {
      var before, last := chunks[..|chunks| - 1], chunks[|chunks| - 1];
      ChunksDoNotMatter(before);
      DrainIsParse(DrainChunks(before).1 + last);
      ParseMore(Concat(before), last);
    }
  }

  /** A buffer that outgrows an int is never delivered from again. */
  lemma {:induction false} Stuck(chunks: seq<bytes>, more: seq<bytes>)
    requires |DrainChunks(chunks).1| > INT_MAX
    ensures DrainChunks(chunks + more) == (DrainChunks(chunks).0, DrainChunks(chunks).1 + Concat(more))
  {
    hide Complete;
    if more == [] {
      assert chunks + [] == chunks;
      assert DrainChunks(chunks).1 + [] == DrainChunks(chunks).1;
    } else {
      var before, last := more[..|more| - 1], more[|more| - 1];
      Stuck(chunks, before);
      assert (chunks + more)[..|chunks + more| - 1] == chunks + before;
      assert (DrainChunks(chunks).1 + Concat(before)) + last == DrainChunks(chunks).1 + Concat(more);
      assert DrainChunks(chunks).0 + [] == DrainChunks(chunks).0;
    }
  }

  // ----- writing

  /** The length field: 7 bits, 7 and 16 bits, or 7 and 64 bits. */
  function LengthCode(n: nat): bv8 {
    if n < 126 then Byte(n) else if n <= 0xffff then 126 else 127
  }

  function LengthField(n: nat): bytes {
    if n < 126 then [] else if n <= 0xffff then Digits(n, 2) else Digits(n, 8)
  }

  function FirstByte(opcode: int): bv8 {
    0x80 + Byte(opcode % 16)
  }

  /** A frame as RFC 6455 defines it, unmasked. */
  function Plain(wsbits: bv8, data: bytes): bytes {
    [wsbits, LengthCode(|data|)] + LengthField(|data|) + data
  }

  /** A masked frame: data byte i is combined with byte i modulo 4 of the key. */
  function Masked(wsbits: bv8, key: bytes, data: bytes): bytes
    requires |key| == 4
  {
    [wsbits, LengthCode(|data|) | 128] + LengthField(|data|) + key
    + seq(|data|, i requires 0 <= i < |data| => data[i] ^ key[i % 4])
  }

  lemma LengthCodes(n: nat)
    ensures var b := LengthCode(n);
            && Len7(b) == (if n < 126 then n else if n <= 0xffff then 126 else 127) && MaskLen(b) == 0
            && Len7(b | 128) == Len7(b) && MaskLen(b | 128) == 4
  {
    hide Byte, Value;
    if n < 126 {
      ByteRoundTrip(n);
      SmallByte(n);
    } else {
      ByteRoundTrip(126);
      ByteRoundTrip(127);
      LongCodes();
    }
    TopBit(LengthCode(n));
  }

  lemma LongCodes()
    ensures Byte(126) == 126 && Byte(127) == 127
  {
    assert BinaryByte(126) == Bits(false, true, true, true, true, true, true, false);
    assert BinaryByte(127) == Bits(true, true, true, true, true, true, true, false);
  }

  lemma SmallByte(n: nat)
    requires n < 128
    ensures Byte(n) & 127 == Byte(n) && Byte(n) & 128 == 0
  {
    hide Bits;
    assert n % 256 / 128 % 2 == 0;
    SevenBits(n % 256 % 2 == 1, n % 256 / 2 % 2 == 1, n % 256 / 4 % 2 == 1, n % 256 / 8 % 2 == 1,
              n % 256 / 16 % 2 == 1, n % 256 / 32 % 2 == 1, n % 256 / 64 % 2 == 1);
  }

  lemma SevenBits(b0: bool, b1: bool, b2: bool, b3: bool, b4: bool, b5: bool, b6: bool)
    ensures var b := Bits(b0, b1, b2, b3, b4, b5, b6, false); b & 127 == b && b & 128 == 0
  {
  }

  lemma TopBit(b: bv8)
    ensures (b | 128) & 127 == b & 127 && (b | 128) & 128 != 0
  {
  }

  lemma Powers()
    ensures Pow256(2) == 0x1_0000 && Pow256(4) == 0x1_0000_0000
  {
    assert Pow256(1) == 256 * Pow256(0);
    assert Pow256(2) == 256 * Pow256(1);
    assert Pow256(3) == 256 * Pow256(2);
  }

  /** Eight bytes are written as two halves. */
  lemma LongDigits(n: nat)
    ensures Digits(n, 8) == Digits(n / 0x1_0000_0000, 4) + Digits(n, 4)
  {
    hide Digits;
    DigitsSplit(n, 4, 4);
    ShiftFour(n);
  }

  function Shift(x: nat, n: nat): nat {
    if n == 0 then x else Shift(x / 256, n - 1)
  }

  lemma ShiftFour(n: nat)
    ensures Shift(n, 4) == n / 0x1_0000_0000
  {
    ShiftTwo(n);
    ShiftTwo(n / 0x1_0000);
    DivHalves(n);
    ShiftTwice(n, 2, 2);
  }

  lemma ShiftTwo(n: nat)
    ensures Shift(n, 2) == n / 0x1_0000
  {
    assert Shift(n, 2) == Shift(n / 256, 1) == Shift(n / 256 / 256, 0);
    DivBytes(n);
  }

  lemma DivBytes(n: nat)
    ensures n / 256 / 256 == n / 0x1_0000
  {
  }

  lemma DivHalves(n: nat)
    ensures n / 0x1_0000 / 0x1_0000 == n / 0x1_0000_0000
  {
  }

  lemma {:induction false} ShiftTwice(x: nat, m: nat, n: nat)
    ensures Shift(x, m + n) == Shift(Shift(x, m), n)
  {
    if m > 0 {
      ShiftTwice(x / 256, m - 1, n);
    }
  }

  lemma DigitsSnoc(x: nat, n: nat)
    requires n > 0
    ensures Digits(x, n) == Digits(x / 256, n - 1) + [LowByte(x)]
  {
    hide LowByte;
  }

  lemma {:induction false} DigitsSplit(x: nat, m: nat, n: nat)
    ensures Digits(x, m + n) == Digits(Shift(x, n), m) + Digits(x, n)
  {
    hide Digits, LowByte;
    if n == 0 {
      NoDigits(x);
    } else {
      DigitsSplit(x / 256, m, n - 1);
      DigitsSnoc(x, m + n);
      DigitsSnoc(x, n);
    }
  }

  lemma NoDigits(x: nat)
    ensures Digits(x, 0) == []
  {
  }

  lemma LowDigits(n: nat)
    ensures Digits(n, 4) == Digits(n % 0x1_0000_0000, 4)
  {
    hide LowByte, Digits;
    var low, high := n % 0x1_0000_0000, n / 0x1_0000_0000;
    var low1, n1 := DropByte(low, 0x100_0000 * high, n);
    var low2, n2 := DropByte(low1, 0x1_0000 * high, n1);
    var low3, n3 := DropByte(low2, 0x100 * high, n2);
    var low4, n4 := DropByte(low3, high, n3);
    FourDigits(n);
    FourDigits(low);
  }

  lemma DropByte(x: nat, k: nat, y: nat) returns (x': nat, y': nat)
    requires y == x + 256 * k
    ensures LowByte(x) == LowByte(y)
    ensures x' == x / 256 && y' == y / 256 && y' == x' + k
  {
    hide BinaryByte;
    x', y' := x / 256, y / 256;
    assert y % 256 == x % 256;
  }

  lemma FourDigits(n: nat)
    ensures Digits(n, 4) == [LowByte(n / 256 / 256 / 256), LowByte(n / 256 / 256), LowByte(n / 256), LowByte(n)]
  {
    hide LowByte;
    assert Digits(n / 256, 3) == Digits(n / 256 / 256, 2) + [LowByte(n / 256)];
    assert Digits(n / 256 / 256, 2) == Digits(n / 256 / 256 / 256, 1) + [LowByte(n / 256 / 256)];
    assert Digits(n / 256 / 256 / 256, 1) == [LowByte(n / 256 / 256 / 256)];
  }

  /** The data length read from the header of a frame of n bytes. */
  function LengthRead(n: nat): int {
    if n <= 0xffff then n else LowHalf(n % 0x1_0000_0000)
  }

  /** The length is read as it was written if and only if it fits an int. */
  lemma LengthReadIsLength(n: nat)
    ensures LengthRead(n) == n <==> n <= INT_MAX
  {
  }

  /** The header of a frame is read back, whatever follows it. */
  lemma HeaderRead(wsbits: bv8, code: bv8, n: nat, after: bytes)
    requires n < 0x1_0000_0000_0000_0000 && code in {LengthCode(n), LengthCode(n) | 128}
    requires |after| >= MaskLen(code)
    ensures var buf := [wsbits, code] + LengthField(n) + after;
            Lengths(buf) == (2 + |LengthField(n)| + MaskLen(code), LengthRead(n))
  {
    hide Len7, MaskLen, BigEndian, Digits;
    LengthCodes(n);
    Powers();
    var buf := [wsbits, code] + LengthField(n) + after;
    assert buf[1] == code;
    if n < 126 {
    } else if n <= 0xffff {
      DigitsRead(n, 2, [wsbits, code], after);
    } else {
      var high, low := Digits(n / 0x1_0000_0000, 4), n % 0x1_0000_0000;
      LongDigits(n);
      LowDigits(n);
      DigitsRead(low, 4, [wsbits, code] + high, after);
      assert buf == [wsbits, code] + high + Digits(low, 4) + after;
    }
  }

  lemma PlainHeader(wsbits: bv8, data: bytes, rest: bytes)
    requires |data| < 0x1_0000_0000_0000_0000
    ensures Lengths(Plain(wsbits, data) + rest) == (|Plain(wsbits, data)| - |data|, LengthRead(|data|))
  {
    hide Len7, MaskLen, BigEndian, LengthField, LengthCode, Lengths, LengthRead;
    var n := |data|;
    LengthCodes(n);
    HeaderRead(wsbits, LengthCode(n), n, data + rest);
    assert Plain(wsbits, data) + rest == [wsbits, LengthCode(n)] + LengthField(n) + (data + rest);
  }

  lemma PlainComplete(wsbits: bv8, data: bytes, rest: bytes)
    requires |data| <= INT_MAX
    ensures var buf := Plain(wsbits, data) + rest;
            && Complete(buf) && First(buf) == Frame(wsbits, |data|, data)
            && Rest(buf) == rest
  {
    hide Len7, MaskLen, BigEndian, LengthField, LengthCode, Lengths, LengthRead;
    var n := |data|;
    LengthCodes(n);
    LengthReadIsLength(n);
    PlainHeader(wsbits, data, rest);
    var buf := Plain(wsbits, data) + rest;
    var header := 2 + |LengthField(n)|;
    assert buf[1] == LengthCode(n);
    assert buf[header..header + n] == data;
    assert buf[header + n..] == rest;
  }

  /** Some beginning of what arrives makes the program deliver f as its first frame. */
  ghost predicate Delivers(arriving: bytes, f: Frame) {
    exists k :: 0 <= k <= |arriving| && Buffered(arriving[..k]) && First(arriving[..k]) == f
  }

  /** A frame of the length that is in the header is delivered only if header and data
      together fit an int. */
  lemma DeliveredFits(arriving: bytes, f: Frame)
    requires Delivers(arriving, f) && Lengths(arriving).0 > 0
    ensures Lengths(arriving).0 + f.contentLen <= INT_MAX
  {
    hide Lengths, MaskLen, Unmask;
    var k :| 0 <= k <= |arriving| && Buffered(arriving[..k]) && First(arriving[..k]) == f;
    var p := arriving[..k];
    HeaderPositive(p);
    LengthsStay(p, arriving[k..]);
    assert p + arriving[k..] == arriving;
  }

  lemma WholeDelivers(wire: bytes, rest: bytes, f: Frame)
    requires Buffered(wire + []) && First(wire + []) == f
    ensures Delivers(wire + rest, f)
  {
    assert wire + [] == wire == (wire + rest)[..|wire|];
  }

  /** An unmasked frame is delivered, as it was written, if and only if its length,
      header included, fits an int. In a buffer that fits an int the bytes behind it
      stay. */
  lemma PlainDelivered(wsbits: bv8, data: bytes, rest: bytes)
    requires |data| < 0x1_0000_0000_0000_0000
    ensures Delivers(Plain(wsbits, data) + rest, Frame(wsbits, |data|, data)) <==> |Plain(wsbits, data)| <= INT_MAX
    ensures |Plain(wsbits, data) + rest| <= INT_MAX ==>
              var buf := Plain(wsbits, data) + rest;
              Buffered(buf) && First(buf) == Frame(wsbits, |data|, data) && Rest(buf) == rest
  {
    hide Lengths, LengthRead, First, Rest, Complete, Plain;
    PlainHeader(wsbits, data, rest);
    PlainLength(wsbits, data);
    if Delivers(Plain(wsbits, data) + rest, Frame(wsbits, |data|, data)) {
      DeliveredFits(Plain(wsbits, data) + rest, Frame(wsbits, |data|, data));
    }
    if |Plain(wsbits, data)| <= INT_MAX {
      PlainComplete(wsbits, data, []);
      PlainComplete(wsbits, data, rest);
      WholeDelivers(Plain(wsbits, data), rest, Frame(wsbits, |data|, data));
    }
  }

  lemma PlainLength(wsbits: bv8, data: bytes)
    ensures |Plain(wsbits, data)| > |data|
  {
  }

  lemma UnmaskMasked(pre: bytes, key: bytes, data: bytes, post: bytes)
    requires |key| == 4
    ensures var masked: bytes := seq(|data|, i requires 0 <= i < |data| => data[i] ^ key[i % 4]);
            var at := |pre| + 4;
            Unmask(pre + key + masked + post, at, at + |data|) == data
  {
    var masked: bytes := seq(|data|, i requires 0 <= i < |data| => data[i] ^ key[i % 4]);
    var buf, at := pre + key + masked + post, |pre| + 4;
    var r := Unmask(buf, at, at + |data|);
    forall i | 0 <= i < |data| ensures r[i] == data[i] {
      assert buf[at + i] == masked[i] && buf[at - 4 + i % 4] == key[i % 4];
      XorTwice(data[i], key[i % 4]);
    }
  }

  lemma MaskedHeader(wsbits: bv8, key: bytes, data: bytes, rest: bytes)
    requires |key| == 4 && |data| < 0x1_0000_0000_0000_0000
    ensures |Masked(wsbits, key, data)| > |data|
    ensures Lengths(Masked(wsbits, key, data) + rest) == (|Masked(wsbits, key, data)| - |data|, LengthRead(|data|))
  {
    hide Len7, MaskLen, BigEndian, LengthField, LengthCode, Lengths, LengthRead;
    var n, code := |data|, LengthCode(|data|) | 128;
    var masked: bytes := seq(|data|, i requires 0 <= i < |data| => data[i] ^ key[i % 4]);
    LengthCodes(n);
    HeaderRead(wsbits, code, n, key + masked + rest);
    assert Masked(wsbits, key, data) + rest == [wsbits, code] + LengthField(n) + (key + masked + rest);
  }

  lemma MaskedComplete(wsbits: bv8, key: bytes, data: bytes, rest: bytes)
    requires |key| == 4 && |data| <= INT_MAX
    ensures var buf := Masked(wsbits, key, data) + rest;
            && Complete(buf) && First(buf) == Frame(wsbits, |data|, data)
            && Rest(buf) == rest
  {
    hide Len7, MaskLen, BigEndian, LengthField, LengthCode, Lengths, LengthRead, Unmask;
    var n, code := |data|, LengthCode(|data|) | 128;
    var masked: bytes := seq(|data|, i requires 0 <= i < |data| => data[i] ^ key[i % 4]);
    LengthCodes(n);
    LengthReadIsLength(n);
    MaskedHeader(wsbits, key, data, rest);
    var pre := [wsbits, code] + LengthField(n);
    var buf := Masked(wsbits, key, data) + rest;
    assert buf == pre + key + masked + rest;
    UnmaskMasked(pre, key, data, rest);
    assert buf[1] == code;
    assert buf[|pre + key + masked|..] == rest;
  }

  /** A masked frame is delivered unmasked under the same condition. */
  lemma MaskedDelivered(wsbits: bv8, key: bytes, data: bytes, rest: bytes)
    requires |key| == 4 && |data| < 0x1_0000_0000_0000_0000
    ensures Delivers(Masked(wsbits, key, data) + rest, Frame(wsbits, |data|, data)) <==>
            |Masked(wsbits, key, data)| <= INT_MAX
    ensures |Masked(wsbits, key, data) + rest| <= INT_MAX ==>
              var buf := Masked(wsbits, key, data) + rest;
              Buffered(buf) && First(buf) == Frame(wsbits, |data|, data) && Rest(buf) == rest
  {
    hide Lengths, LengthRead, First, Rest, Complete, Masked;
    MaskedHeader(wsbits, key, data, rest);
    if Delivers(Masked(wsbits, key, data) + rest, Frame(wsbits, |data|, data)) {
      DeliveredFits(Masked(wsbits, key, data) + rest, Frame(wsbits, |data|, data));
    }
    if |Masked(wsbits, key, data)| <= INT_MAX {
      MaskedComplete(wsbits, key, data, []);
      MaskedComplete(wsbits, key, data, rest);
      WholeDelivers(Masked(wsbits, key, data), rest, Frame(wsbits, |data|, data));
    }
  }

  // ----- streams of frames

  /** A frame on the wire, with a mask or without. */
  datatype Message = Message(wsbits: bv8, key: bytes, data: bytes) {
    predicate Valid() {
      |key| in {0, 4} && |Wire()| <= INT_MAX
    }

    function Wire(): bytes
      requires |key| in {0, 4}
    {
      if key == [] then Plain(wsbits, data) else Masked(wsbits, key, data)
    }

    function Delivered(): Frame {
      Frame(wsbits, |data|, data)
    }
  }

  lemma MessageComplete(m: Message, rest: bytes)
    requires m.Valid()
    ensures var buf := m.Wire() + rest;
            && Complete(buf) && First(buf) == m.Delivered()
            && Rest(buf) == rest
  {
    hide Plain, Masked, First, Rest, Complete;
    if m.key == [] {
      PlainLength(m.wsbits, m.data);
      PlainComplete(m.wsbits, m.data, rest);
    } else {
      MaskedLength(m.wsbits, m.key, m.data);
      MaskedComplete(m.wsbits, m.key, m.data, rest);
    }
  }

  lemma MaskedLength(wsbits: bv8, key: bytes, data: bytes)
    requires |key| == 4
    ensures |Masked(wsbits, key, data)| > |data|
  {
  }

  function Stream(ms: seq<Message>): bytes
    requires forall i :: 0 <= i < |ms| ==> ms[i].Valid()
  {
    if ms == [] then []
    else
      assert ms[0].Valid();
      ms[0].Wire() + Stream(ms[1..])
  }

  function Deliveries(ms: seq<Message>): (r: seq<Frame>)
    ensures |r| == |ms|
  {
    seq(|ms|, i requires 0 <= i < |ms| => ms[i].Delivered())
  }

  lemma {:induction false} ParseStream(ms: seq<Message>)
    requires forall i :: 0 <= i < |ms| ==> ms[i].Valid()
    ensures Parse(Stream(ms)) == (Deliveries(ms), [])
  {
    hide Parse, Plain, Masked;
    if ms == [] {
      ParseNothing();
    } else {
      assert ms[0].Valid();
      ParseMessage(ms[0], Stream(ms[1..]));
      ParseStream(ms[1..]);
      DeliveriesCons(ms);
    }
  }

  lemma ParseMessage(m: Message, rest: bytes)
    requires m.Valid()
    ensures Parse(m.Wire() + rest) == ([m.Delivered()] + Parse(rest).0, Parse(rest).1)
  {
    hide First, Rest, Complete, Parse, Plain, Masked;
    MessageComplete(m, rest);
    ParseStep(m.Wire() + rest);
  }

  lemma DeliveriesCons(ms: seq<Message>)
    requires ms != []
    ensures Deliveries(ms) == [ms[0].Delivered()] + Deliveries(ms[1..])
  {
  }

  /** A stream of frames, cut up in any way for which the buffer fits an int, is delivered
      frame by frame, unmasked, in order, with nothing left over. */
  lemma StreamDelivered(ms: seq<Message>, chunks: seq<bytes>)
    requires forall i :: 0 <= i < |ms| ==> ms[i].Valid()
    requires Concat(chunks) == Stream(ms) && Fits(chunks)
    ensures DrainChunks(chunks) == (Deliveries(ms), [])
  {
    hide Parse, DrainChunks;
    ChunksDoNotMatter(chunks);
    ParseStream(ms);
  }

  /** What is left over of a beginning of a stream is no longer than the longest frame. */
  lemma {:induction false} RestIsShort(ms: seq<Message>, p: bytes, longest: nat)
    requires forall i :: 0 <= i < |ms| ==> ms[i].Valid() && |ms[i].Wire()| <= longest
    requires p <= Stream(ms)
    ensures |Parse(p).1| <= longest
  {
    hide First, Rest, Complete, Parse;
    if ms == [] {
      assert p == [];
      ParseNothing();
    } else {
      assert ms[0].Valid() && |ms[0].Wire()| <= longest;
      var wire := ms[0].Wire();
      if |p| < |wire| {
        ParseLeaves(p);
      } else {
        var p' := p[|wire|..];
        SplitPrefix(p, wire, Stream(ms[1..]));
        MessageComplete(ms[0], p');
        ParseStep(p);
        RestIsShort(ms[1..], p', longest);
      }
    }
  }

  lemma SplitPrefix(p: bytes, a: bytes, b: bytes)
    requires p <= a + b && |a| <= |p|
    ensures p == a + p[|a|..] && p[|a|..] <= b
  {
    assert p[..|a|] == (a + b)[..|a|] == a;
    assert forall i :: |a| <= i < |p| ==> p[i] == (a + b)[i] == b[i - |a|];
  }

  lemma {:induction false} ParseLeaves(p: bytes)
    ensures |Parse(p).1| <= |p|
    decreases |p|
  {
    hide First, Complete;
    if Complete(p) {
      ParseLeaves(Rest(p));
    }
  }

  /** The buffer fits an int whenever the longest frame and the longest chunk together
      do. */
  lemma {:induction false} ShortChunksFit(ms: seq<Message>, chunks: seq<bytes>, longest: nat, chunk: nat)
    requires forall i :: 0 <= i < |ms| ==> ms[i].Valid() && |ms[i].Wire()| <= longest
    requires forall i :: 0 <= i < |chunks| ==> |chunks[i]| <= chunk
    requires Concat(chunks) <= Stream(ms) && longest + chunk <= INT_MAX
    ensures Fits(chunks)
  {
    hide Parse, DrainChunks;
    if chunks != [] {
      var before := chunks[..|chunks| - 1];
      assert Concat(before) <= Concat(chunks);
      ShortChunksFit(ms, before, longest, chunk);
      ChunksDoNotMatter(before);
      RestIsShort(ms, Concat(before), longest);
    }
  }

  // ----- the code

  method PutBytes(a: array<bv8>, at: nat, s: bytes)
    requires at + |s| <= a.Length
    modifies a
    ensures a[at..at + |s|] == s
    ensures a[..at] == old(a[..at])
  {
    for i := 0 to |s|
      invariant a[at..at + i] == s[..i]
      invariant a[..at] == old(a[..at])
    {
      a[at + i] := s[i];
    }
  }

  /** The length field behind the first two bytes; where the data begin. */
  method PutLength(copy: array<bv8>, n: nat) returns (at: nat)
    requires copy.Length == n + 10
    modifies copy
    ensures at == 2 + |LengthField(n)| && copy[..at] == old(copy[..2]) + LengthField(n)
  {
    hide Digits;
    if n < 126 {
      at := 2;
    } else if n <= 0xffff {
      PutBytes(copy, 2, Digits(n, 2));
      assert copy[..4] == copy[..2] + copy[2..4];
      at := 4;
    } else {
      LongDigits(n);
      PutBytes(copy, 2, Digits(n / 0x1_0000_0000, 4));
      assert copy[..6] == copy[..2] + copy[2..6];
      PutBytes(copy, 6, Digits(n, 4));
      assert copy[..10] == copy[..6] + copy[6..10];
      at := 10;
    }
  }

  /** mg_websocket_write: what is handed to mg_write. */
  method Write(opcode: int, data: bytes) returns (sent: bytes)
    ensures sent == Plain(FirstByte(opcode), data)
  {
    hide LengthField, LengthCode, FirstByte;
    var n := |data|;
    var copy := new bv8[n + 10](_ => 0);
    copy[0] := FirstByte(opcode);
    copy[1] := LengthCode(n);
    assert copy[..2] == [FirstByte(opcode), LengthCode(n)];
    LengthFieldFits(n);
    var at := PutLength(copy, n);
    PutBytes(copy, at, data);
    sent := copy[..at + n];
    assert sent == copy[..at] + copy[at..at + n];
  }

  lemma LengthFieldFits(n: nat)
    ensures |LengthField(n)| <= 8
  {
  }

  /** The input buffer of a connection; its first `len` bytes are in use. */
  class IoBuf {
    var buf: array<bv8>
    var len: nat

    /** The length is an int. */
    ghost predicate Valid()
      reads this
    {
      len <= buf.Length && len <= INT_MAX
    }

    function Data(): (r: bytes)
      requires Valid()
      reads this, buf
      ensures |r| == len
    {
      buf[..len]
    }

    constructor (size: nat)
      ensures Valid() && Data() == [] && fresh(buf)
    {
      buf := new bv8[size](_ => 0);
      len := 0;
    }

    /** deliver_websocket_frame: unmasks the content in place, hands over the frame
        and moves the bytes behind it to the start of the buffer. */
    method DeliverFrame() returns (buffered: bool, frame: Frame)
      requires Valid()
      modifies this`len, buf
      ensures Valid() && buffered == Buffered(old(Data()))
      ensures buffered ==> frame == First(old(Data())) && Data() == Rest(old(Data()))
      ensures !buffered ==> Data() == old(Data())
    {
      hide Lengths, First;
      ghost var was := Data();
      var (header, data) := Lengths(buf[..len]);
      var frameLen := Wrapped(header + data);
      DataLengthIsInt(was);
      buffered := frameLen > 0 && frameLen <= len;
      frame := Frame(0, 0, []);
      if buffered {
        frame := HandOver(header, data);
        MoveDown(frameLen);
      }
    }

    /** Unmasks the content of a complete frame; nothing behind it changes. */
    method HandOver(header: nat, data: int) returns (frame: Frame)
      requires Valid() && Complete(Data()) && (header, data) == Lengths(Data())
      modifies buf
      ensures Valid() && frame == First(old(Data())) && Data()[header + data..] == Rest(old(Data()))
    {
      hide Len7, MaskLen, BigEndian, Lengths, Unmask;
      ghost var was := Data();
      LengthsSane(was);
      var wsbits := buf[0];
      if MaskLen(buf[1]) > 0 {
        UnmaskInPlace(header, data);
      }
      frame := Frame(wsbits, data, if data <= 0 then [] else buf[header..header + data]);
      SameBehind(was, Data(), header + data);
    }

    /** Combines the content with the four bytes before it. */
    method UnmaskInPlace(header: nat, data: int)
      requires Valid() && 4 <= header <= len && 0 <= header + data <= len
      modifies buf
      ensures data > 0 ==> buf[header..header + data] == Unmask(old(Data()), header, header + data)
      ensures forall k :: 0 <= k < header || header + data <= k < buf.Length ==> buf[k] == old(buf[k])
    {
      ghost var was := Data();
      var i := 0;
      while i < data
        invariant 0 <= i && (data > 0 ==> i <= data) && (data <= 0 ==> i == 0)
        invariant forall k :: 0 <= k < i ==> buf[header + k] == old(buf[header + k]) ^ old(buf[header - 4 + k % 4])
        invariant forall k :: 0 <= k < header || header + i <= k < buf.Length ==> buf[k] == old(buf[k])
      {
        buf[header + i] := buf[header + i] ^ buf[header - 4 + i % 4];
        i := i + 1;
      }
      if data > 0 {
        UnmaskIs(was, header, header + data, buf[header..header + data]);
      }
    }

    /** memmove of everything from n on to the start. */
    method MoveDown(n: nat)
      requires Valid() && n <= len
      modifies this`len, buf
      ensures Valid() && Data() == old(Data())[n..]
    {
      for i := 0 to len - n
        invariant len == old(len)
        invariant forall k :: 0 <= k < i ==> buf[k] == old(buf[n + k])
        invariant forall k :: i <= k < len ==> buf[k] == old(buf[k])
      {
        buf[i] := buf[n + i];
      }
      len := len - n;
    }

    /** Delivers as long as a frame is complete. */
    method DeliverAll() returns (frames: seq<Frame>)
      requires Valid()
      modifies this`len, buf
      ensures Valid() && (frames, Data()) == Drain(old(Data()))
    {
      hide First, Rest, Complete;
      ghost var was := Data();
      frames := [];
      var buffered, frame := DeliverFrame();
      ghost var prev := was;
      assert [] + Drain(prev).0 == Drain(prev).0;
      while buffered
        invariant Valid() && Buffered(prev) == buffered
        invariant buffered ==> frame == First(prev) && Data() == Rest(prev)
        invariant !buffered ==> Data() == prev
        invariant Drain(was) == (frames + Drain(prev).0, Drain(prev).1)
        decreases |prev|
      {
        DrainStep(prev);
        assert frames + ([frame] + Drain(Rest(prev)).0) == (frames + [frame]) + Drain(Rest(prev)).0;
        frames := frames + [frame];
        prev := Data();
        buffered, frame := DeliverFrame();
      }
      DrainEnd(prev);
      assert frames + [] == frames;
    }
  }

  lemma DrainStep(buf: bytes)
    requires Buffered(buf)
    ensures Drain(buf).0 == [First(buf)] + Drain(Rest(buf)).0
    ensures Drain(buf).1 == Drain(Rest(buf)).1
  {
    hide First, Rest, Complete;
  }

  lemma DrainEnd(buf: bytes)
    requires !Buffered(buf)
    ensures Drain(buf) == ([], buf)
  {
  }

  lemma UnmaskIs(s: bytes, at: nat, end: nat, r: bytes)
    requires 4 <= at <= end <= |s| && |r| == end - at
    requires forall k :: 0 <= k < |r| ==> r[k] == s[at + k] ^ s[at - 4 + k % 4]
    ensures r == Unmask(s, at, end)
  {
  }

  lemma SameBehind(s: bytes, t: bytes, n: nat)
    requires n <= |s| == |t| && forall k :: n <= k < |s| ==> s[k] == t[k]
    ensures s[n..] == t[n..]
  {
  }

  lemma DataLengthIsInt(buf: bytes)
    ensures Lengths(buf).0 <= 14 && Lengths(buf).1 <= INT_MAX
  {
    hide Len7, BigEndian;
    if |buf| >= 4 {
      TwoBytes(buf, 2);
    }
  }

  lemma TwoBytes(s: bytes, i: nat)
    requires i + 2 <= |s|
    ensures BigEndian(s, i, 2) < 0x1_0000
  {
    hide Value;
    assert BigEndian(s, i, 1) == 256 * BigEndian(s, i, 0) + Value(s[i]);
  }

  lemma LengthsSane(buf: bytes)
    requires Complete(buf)
    ensures |buf| >= 2
    ensures MaskLen(buf[1]) > 0 ==> Lengths(buf).0 >= 6
    ensures 2 <= Lengths(buf).0 && (Lengths(buf).1 >= 0 || Lengths(buf).0 <= |buf|)
  {
  }
}
