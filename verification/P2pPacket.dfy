/**
 The packets between gateway and phone: a header of five little-endian 16-bit
 words and a payload. PPPP_Write2 puts a whole packet, encrypted, into the payload
 of an outer one; p2p_process_cmd reads a packet and takes the inner one out.
 */
module P2pPacket {
  import opened AesApi
  import opened AesUtils
  import opened AesText
  import opened Octet

  const MAX_P2P_BUFFER: nat := 16384
  const HEADER: nat := 10
  const CM_DATA_ENCRYPT: u16 := 89

  datatype Header = Header(version: u16, cmd: u16, payloadLength: u16, count: u16, errCode: u16)

  /** The header as it lies in memory. */
  function Bytes(h: Header): (r: bytes)
    ensures |r| == HEADER
  {
    Word(h.version) + Word(h.cmd) + Word(h.payloadLength) + Word(h.count) + Word(h.errCode)
  }

  function HeaderAt(s: bytes): Header
    requires |s| >= HEADER
  {
    Header(WordAt(s, 0), WordAt(s, 2), WordAt(s, 4), WordAt(s, 6), WordAt(s, 8))
  }

  lemma HeaderRoundTrip(h: Header, rest: bytes)
    ensures HeaderAt(Bytes(h) + rest) == h
    ensures (Bytes(h) + rest)[..HEADER] == Bytes(h) && (Bytes(h) + rest)[HEADER..] == rest
  {
    hide Word, WordAt;
    var s := Bytes(h) + rest;
    var v, c, p, n, e := Word(h.version), Word(h.cmd), Word(h.payloadLength), Word(h.count), Word(h.errCode);
    assert s == [] + v + (c + p + n + e + rest);
    assert s == v + c + (p + n + e + rest);
    assert s == (v + c) + p + (n + e + rest);
    assert s == (v + c + p) + n + (e + rest);
    assert s == (v + c + p + n) + e + rest;
    WordRoundTrip(h.version, [], c + p + n + e + rest);
    WordRoundTrip(h.cmd, v, p + n + e + rest);
    WordRoundTrip(h.payloadLength, v + c, n + e + rest);
    WordRoundTrip(h.count, v + c + p, e + rest);
    WordRoundTrip(h.errCode, v + c + p + n, rest);
  }

  lemma HeaderPrefix(s: bytes, t: bytes)
    requires |s| >= HEADER && |t| >= HEADER && s[..HEADER] == t[..HEADER]
    ensures HeaderAt(s) == HeaderAt(t)
  {
    assert forall i :: 0 <= i < HEADER ==> s[i] == s[..HEADER][i] == t[i];
  }

  // ----- sending

  predicate Accepted(size: int) {
    0 <= size <= MAX_P2P_BUFFER - HEADER
  }

  /** What PPPP_Write2 puts behind the outer header. */
  function Body(data: bytes, encrypt: bool, key: bytes): bytes {
    if encrypt then MapBlocks(Enc(key), WithTail(data)) else data
  }

  /** The bytes handed to PPPP_Write for a packet with this header. */
  function Outer(hdr: Header, data: bytes, encrypt: bool, key: bytes): bytes
    requires Accepted(|data|)
  {
    var body := Body(data, encrypt, key);
    Bytes(hdr.(cmd := CM_DATA_ENCRYPT, payloadLength := |body|)) + body
  }

  function Packet(data: bytes, encrypt: bool, key: bytes): bytes
    requires |data| >= HEADER && Accepted(|data|)
  {
    Outer(HeaderAt(data), data, encrypt, key)
  }

  /** The size check does not count the tail: of the accepted sizes the last six
      are padded past the end of the send buffer. */
  lemma AcceptedPacketFits(size: int)
    requires Accepted(size)
    ensures HEADER + PaddedLength(size) <= MAX_P2P_BUFFER <==> size <= 16368
  {
  }

  datatype Option<T> = None | Some(value: T)

  /** A size out of range (a negative one is compared unsigned) and a missing key
      are refused; otherwise one packet is sent. The header is read from the buffer even
      when the size does not cover it. */
  method Write2(data: array<bv8>, size: int, encrypt: bool, key: array?<bv8>, b: Buffers) returns (sent: Option<bytes>)
    requires HEADER <= data.Length && size <= data.Length
    requires encrypt ==> size > MAX_P2P_BUFFER - HEADER || size <= MAX_P2P_BUFFER - 16
    requires key != null ==> key.Length >= 16 && key != b.encdata && key != b.encOut
    requires b.Shape() && data != b.encdata && data != b.encOut
    modifies b.encdata, b.encOut
    ensures sent == if !Accepted(size) || (encrypt && (key == null || key[0] == 0)) then None
                    else Some(Outer(HeaderAt(data[..HEADER]), data[..size], encrypt,
                                    if key == null then [] else key[..16]))
    ensures sent.Some? && size >= HEADER ==>
              sent.value == Packet(data[..size], encrypt, if key == null then [] else key[..16])
  {
    hide MapBlocks, WithTail, Bytes, HeaderAt;
    if size < 0 || size > MAX_P2P_BUFFER - HEADER {
      return None;
    }
    ghost var was := data[..size];
    var hdr := HeaderAt(data[..HEADER]).(cmd := CM_DATA_ENCRYPT);
    if size >= HEADER {
      HeaderPrefix(data[..size], data[..HEADER]);
    }
    var buf := new bv8[MAX_P2P_BUFFER](_ => 0);
    if !encrypt {
      hdr := hdr.(payloadLength := size);
      CopyPacket(buf, hdr, data, size);
      sent := Some(buf[..HEADER + size]);
    } else {
      if key == null || key[0] == 0 {
        return None;
      }
      var ok, outSize := b.EncryptAes2(data, size, key);
      hdr := hdr.(payloadLength := outSize);
      CopyPacket(buf, hdr, b.encOut, outSize);
      assert data[..size] == was;
      sent := Some(buf[..HEADER + outSize]);
    }
  }

  method CopyPacket(buf: array<bv8>, hdr: Header, src: array<bv8>, n: nat)
    requires n <= src.Length && HEADER + n <= buf.Length && src != buf
    modifies buf
    ensures buf[..HEADER + n] == Bytes(hdr) + src[..n]
  {
    hide Bytes;
    CopyTo(buf, 0, Bytes(hdr));
    CopyTo(buf, HEADER, src[..n]);
    assert buf[..HEADER + n] == buf[0..HEADER] + buf[HEADER..HEADER + n];
  }

  // ----- receiving

  /** What one call of p2p_process_cmd makes of its input: a command to execute, a
      refused packet, or a write past one of the buffers. */
  datatype Outcome =
    | Command(hdr: Header, payload: bytes)
    | Rejected
    | Overrun

  /** inbuf after decryption. */
  function Plain(body: bytes, key: bytes): (r: bytes)
    requires |body| % 16 == 0 && |body| <= DEC_SIZE
    ensures |r| == MAX_P2P_BUFFER
  {
    MapBlocks(Dec(key), body) + Zeros(MAX_P2P_BUFFER - |body|)
  }

  function Inner(plain: bytes): Outcome
    requires |plain| == MAX_P2P_BUFFER
  {
    var inner := HeaderAt(plain);
    if inner.payloadLength >= MAX_P2P_BUFFER then Rejected
    else if HEADER + inner.payloadLength >= MAX_P2P_BUFFER then Overrun
    else Command(inner, plain[HEADER..HEADER + inner.payloadLength])
  }

  function Unwrap(hdr: Header, body: bytes, key: bytes): Outcome
    requires |key| >= 16
  {
    if hdr.cmd != CM_DATA_ENCRYPT then Command(hdr, body)
    else if key[0] == 0 || |body| % 16 != 0 then Rejected
    else if |body| > DEC_SIZE then Overrun
    else Inner(Plain(body, key[..16]))
  }

  /** A payload is read only when its length is between 1 and the buffer size. */
  function PayloadRead(hdr: Header): nat {
    if 0 < hdr.payloadLength < MAX_P2P_BUFFER then hdr.payloadLength else 0
  }

  predicate HasPacket(stream: bytes) {
    |stream| >= HEADER && |stream| >= HEADER + PayloadRead(HeaderAt(stream))
  }

  /** The packet at the start of the stream and the bytes after it. */
  function Receive(stream: bytes, key: bytes): (Outcome, bytes)
    requires HasPacket(stream) && |key| >= 16
  {
    var hdr := HeaderAt(stream);
    var n := PayloadRead(hdr);
    var outcome := if n > 0 then Unwrap(hdr, stream[HEADER..HEADER + n], key) else Command(hdr, []);
    (outcome, stream[HEADER + n..])
  }

  method ProcessCmd(stream: bytes, key: array<bv8>, inbuf: array<bv8>, inbufEncode: array<bv8>, b: Buffers)
    returns (outcome: Outcome, rest: bytes)
    requires key.Length >= 16 && HasPacket(stream) && Receive(stream, key[..]).0 != Overrun
    requires inbuf.Length == inbufEncode.Length == MAX_P2P_BUFFER && inbuf != inbufEncode
    requires b.Shape() && b.decOut != inbuf && b.decOut != inbufEncode
    requires key != inbuf && key != inbufEncode && key != b.decOut
    modifies inbuf, inbufEncode, b.decOut
    ensures (outcome, rest) == Receive(stream, key[..])
    ensures outcome.Command? ==> |outcome.payload| < MAX_P2P_BUFFER
                                 && inbuf[..|outcome.payload|] == outcome.payload && inbuf[|outcome.payload|] == 0
  {
    hide MapBlocks, HeaderAt, Inner;
    var hdr := HeaderAt(stream[..HEADER]);
    HeaderPrefix(stream[..HEADER], stream);
    Clear(inbuf);
    Clear(inbufEncode);
    var size := hdr.payloadLength;
    if size > 0 && size < MAX_P2P_BUFFER {
      var body := stream[HEADER..HEADER + size];
      rest := stream[HEADER + size..];
      CopyTo(inbufEncode, 0, body);
      if hdr.cmd == CM_DATA_ENCRYPT {
        assert inbufEncode[..size] == body;
        var ok := ReadWrap2(inbufEncode, size, inbuf, true, key, b);
        if !ok {
          return Rejected, rest;
        }
        outcome := TakeInner(inbuf, inbufEncode);
      } else {
        CopyTo(inbuf, 0, inbufEncode[..size]);
        assert inbuf[..size] == inbuf[0..0 + size] == inbufEncode[..size] == body;
        outcome := Command(hdr, body);
      }
    } else {
      rest := stream[HEADER..];
      outcome := Command(hdr, []);
    }
  }

  /** PPPP_Read_Wrap2, into a cleared buffer. */
  method ReadWrap2(src: array<bv8>, size: nat, dest: array<bv8>, isEncrypt: bool, key: array?<bv8>, b: Buffers)
    returns (ok: bool)
    requires size < src.Length && size < dest.Length && src != dest
    requires key != null ==> key.Length >= 16 && key != b.decOut && key != dest
    requires dest.Length == MAX_P2P_BUFFER && forall i :: 0 <= i < dest.Length ==> dest[i] == 0
    requires b.Shape() && b.decOut != src && b.decOut != dest
    requires isEncrypt && key != null && key[0] != 0 && size % 16 == 0 ==> size <= DEC_SIZE
    modifies dest, b.decOut
    ensures ok <==> !isEncrypt || (key != null && key[0] != 0 && size % 16 == 0)
    ensures ok ==> dest[..] == if isEncrypt then Plain(src[..size], key[..16])
                               else src[..size] + Zeros(MAX_P2P_BUFFER - size)
  {
    hide MapBlocks;
    if !isEncrypt {
      Fill(src, size, dest);
      return true;
    }
    if key == null || key[0] == 0 {
      return false;
    }
    ok := b.DecryptAes(src, size, key);
    if !ok {
      return false;
    }
    Fill(b.decOut, size, dest);
  }

  /** memcpy and the terminator. */
  method Fill(src: array<bv8>, size: nat, dest: array<bv8>)
    requires size <= src.Length && size < dest.Length && src != dest
    requires forall i :: 0 <= i < dest.Length ==> dest[i] == 0
    modifies dest
    ensures dest[..] == src[..size] + Zeros(dest.Length - size)
  {
    CopyTo(dest, 0, src[..size]);
    dest[size] := 0;
    assert dest[0..size] == src[..size];
    assert dest[..] == dest[0..size] + Zeros(dest.Length - size);
  }

  /** Moves the inner payload to the start of inbuf. */
  method TakeInner(inbuf: array<bv8>, scratch: array<bv8>) returns (outcome: Outcome)
    requires inbuf.Length == scratch.Length == MAX_P2P_BUFFER && inbuf != scratch
    requires Inner(inbuf[..]) != Overrun
    modifies inbuf, scratch
    ensures outcome == Inner(old(inbuf[..]))
    ensures outcome.Command? ==> |outcome.payload| < MAX_P2P_BUFFER
                                 && inbuf[..|outcome.payload|] == outcome.payload && inbuf[|outcome.payload|] == 0
  {
    hide HeaderAt;
    ghost var plain := inbuf[..];
    var hdr := HeaderAt(inbuf[..]);
    var n := hdr.payloadLength;
    if n >= MAX_P2P_BUFFER {
      return Rejected;
    }
    inbuf[HEADER + n] := 0;
    var payload := inbuf[HEADER..HEADER + n];
    assert payload == plain[HEADER..HEADER + n];
    CopyTo(scratch, 0, payload);
    scratch[n] := 0;
    assert scratch[..n] == scratch[0..0 + n] == payload;
    CopyTo(inbuf, 0, scratch[..n]);
    inbuf[n] := 0;
    assert inbuf[..n] == inbuf[0..0 + n] == payload;
    outcome := Command(hdr, payload);
  }

  // ----- laws

  /** A packet as the callers of PPPP_Write2 build it: a header that counts the
      payload behind it. */
  datatype Message = Message(hdr: Header, payload: bytes) {
    predicate Counted() {
      hdr.payloadLength == |payload| && HEADER + |payload| <= MAX_P2P_BUFFER - 16
    }

    /** What the receiver has room to decrypt. */
    predicate Valid() {
      Counted() && HEADER + |payload| <= DEC_SIZE
    }

    function Data(): (r: bytes)
      ensures |r| == HEADER + |payload|
    {
      Bytes(hdr) + payload
    }
  }

  lemma DataHeader(m: Message, after: bytes)
    requires m.Valid() && HEADER + |m.payload| + |after| == MAX_P2P_BUFFER
    ensures Inner(m.Data() + after) == Command(m.hdr, m.payload)
  {
    hide HeaderAt, Bytes;
    var plain := m.Data() + after;
    assert plain == Bytes(m.hdr) + (m.payload + after);
    HeaderRoundTrip(m.hdr, m.payload + after);
    assert plain[HEADER..HEADER + |m.payload|] == m.payload;
  }

  lemma ReceivePacket(hdr: Header, body: bytes, after: bytes, key: bytes)
    requires hdr.payloadLength == |body| && 0 < |body| < MAX_P2P_BUFFER && |key| >= 16
    ensures var stream := Bytes(hdr) + (body + after);
            HasPacket(stream) && Receive(stream, key) == (Unwrap(hdr, body, key), after)
  {
    hide HeaderAt, Bytes, Unwrap;
    var stream := Bytes(hdr) + (body + after);
    HeaderRoundTrip(hdr, body + after);
    assert stream[HEADER..HEADER + |body|] == (body + after)[..|body|] == body;
    assert stream[HEADER + |body|..] == (body + after)[|body|..] == after;
  }

  /** An encrypted packet, received with the same key, is the command it was made
      from, and the bytes after it are left in the stream. */
  lemma WriteThenRead(m: Message, key: bytes, after: bytes)
    requires m.Valid() && |key| >= 16 && key[0] != 0
    ensures var stream := Packet(m.Data(), true, key[..16]) + after;
            HasPacket(stream) && Receive(stream, key) == (Command(m.hdr, m.payload), after)
  {
    hide HeaderAt, Bytes, MapBlocks, WithTail, Inner;
    var data, k := m.Data(), key[..16];
    var body := Body(data, true, k);
    var hdr := HeaderAt(data).(cmd := CM_DATA_ENCRYPT, payloadLength := |body|);
    var stream := Packet(data, true, k) + after;
    ReceivePacket(hdr, body, after, key);
    assert stream == Bytes(hdr) + (body + after);
    DecryptEncryptText(data, k);
    assert WithTail(data) == data + WithTail(data)[|data|..];
    var more := WithTail(data)[|data|..] + Zeros(MAX_P2P_BUFFER - |body|);
    assert Plain(body, k) == data + more;
    DataHeader(m, more);
  }

  /** Packets sent one after the other. */
  function Sent(ms: seq<Message>, key: bytes): bytes
    requires forall i :: 0 <= i < |ms| ==> ms[i].Valid()
  {
    if ms == [] then [] else
      assert ms[0].Valid();
      Packet(ms[0].Data(), true, key) + Sent(ms[1..], key)
  }

  /** The outcomes of up to n calls of p2p_process_cmd, while packets are there. */
  function ReceiveAll(stream: bytes, key: bytes, n: nat): seq<Outcome>
    requires |key| >= 16
  {
    if n == 0 || !HasPacket(stream) then []
    else
      var (outcome, rest) := Receive(stream, key);
      [outcome] + ReceiveAll(rest, key, n - 1)
  }

  /** The commands that the messages are to be received as. */
  function Commands(ms: seq<Message>): (r: seq<Outcome>)
    ensures |r| == |ms|
  {
    seq(|ms|, i requires 0 <= i < |ms| => Command(ms[i].hdr, ms[i].payload))
  }

  lemma CommandsStep(ms: seq<Message>)
    requires ms != []
    ensures Commands(ms) == [Command(ms[0].hdr, ms[0].payload)] + Commands(ms[1..])
  {
  }

  /** Every message sent is received, in order, and nothing else. */
  lemma {:induction false} SendThenReceive(ms: seq<Message>, key: bytes, n: nat)
    requires forall i :: 0 <= i < |ms| ==> ms[i].Valid()
    requires |key| >= 16 && key[0] != 0 && n >= |ms|
    ensures ReceiveAll(Sent(ms, key[..16]), key, n) == Commands(ms)
  {
    hide Packet, Receive, HasPacket, Commands;
    if ms == [] {
      NothingReceived(key, n);
    } else {
      WriteThenRead(ms[0], key, Sent(ms[1..], key[..16]));
      SendThenReceive(ms[1..], key, n - 1);
      CommandsStep(ms);
    }
  }

  lemma NothingReceived(key: bytes, n: nat)
    requires |key| >= 16
    ensures ReceiveAll([], key, n) == [] == Commands([])
  {
  }

  /** Of the packets that can be sent encrypted, those that the receiver decrypts past the
      end of its buffer are exactly the ones longer than that buffer. */
  lemma TooLongToReceive(m: Message, key: bytes)
    requires m.Counted() && |key| >= 16 && key[0] != 0
    ensures var stream := Packet(m.Data(), true, key[..16]);
            && HasPacket(stream)
            && (Receive(stream, key).0 == Overrun <==> 10 + |m.payload| > 8000)
  {
    hide HeaderAt, Bytes, MapBlocks, WithTail, Inner;
    var data, k := m.Data(), key[..16];
    if m.Valid() {
      WriteThenRead(m, key, []);
      assert Packet(data, true, k) + [] == Packet(data, true, k);
    } else {
      var body := Body(data, true, k);
      var hdr := HeaderAt(data).(cmd := CM_DATA_ENCRYPT, payloadLength := |body|);
      HeaderRoundTrip(hdr, body);
      assert Packet(data, true, k)[HEADER..HEADER + |body|] == body;
    }
  }

  /** A packet that PPPP_Write2 sends unencrypted carries the command code of an encrypted
      one and is decrypted all the same. It is refused without a key, when its size is no
      whole number of blocks, and when what the decryption makes of it has a length out of
      range. A length that ends just behind the buffer, and a packet longer than the buffer
      of the decryption, overrun; every other one is taken as the command that the
      decryption makes of it. */
  lemma UnencryptedOutcome(data: bytes, key: bytes)
    requires |data| >= HEADER && Accepted(|data|) && |key| >= 16
    ensures var stream := Packet(data, false, key[..16]);
            && HasPacket(stream)
            && (Receive(stream, key).0 == Rejected <==>
                || key[0] == 0 || |data| % 16 != 0
                || (|data| <= DEC_SIZE && HeaderAt(Plain(data, key[..16])).payloadLength >= MAX_P2P_BUFFER))
    ensures key[0] != 0 && |data| % 16 == 0 ==>
              var outcome := Receive(Packet(data, false, key[..16]), key).0;
              if |data| > DEC_SIZE then outcome == Overrun
              else
                var plain := Plain(data, key[..16]);
                var n := HeaderAt(plain).payloadLength;
                && (outcome == Overrun <==> MAX_P2P_BUFFER - HEADER <= n < MAX_P2P_BUFFER)
                && (n < MAX_P2P_BUFFER - HEADER ==> outcome == Command(HeaderAt(plain), plain[HEADER..HEADER + n]))
  {
    hide HeaderAt, Bytes, Plain;
    var hdr := HeaderAt(data).(cmd := CM_DATA_ENCRYPT, payloadLength := |data|);
    HeaderRoundTrip(hdr, data);
    assert Packet(data, false, key[..16])[HEADER..HEADER + |data|] == data;
  }
}
