/**
 The packets byte by byte, and what the receiver makes of packets that are not encrypted:
 plain commands, commands without payload and the ones that it refuses.
 */
module P2pLaws {
  import opened AesUtils
  import opened Octet
  import opened P2pPacket

  // ----- the bytes of a header

  function Digit(b: bv8, mask: bv8): nat {
    if b & mask == 0 then 0 else 1
  }

  lemma DigitsAdd(x: bv8, y: bv8, mask: bv8)
    requires x & y == 0 && mask in [0x01, 0x02, 0x04, 0x08, 0x10, 0x20, 0x40, 0x80]
    ensures Digit(x | y, mask) == Digit(x, mask) + Digit(y, mask)
  {
  }

  lemma ValueIsDigits(b: bv8)
    ensures Value(b) == Digit(b, 0x01) + 2 * Digit(b, 0x02) + 4 * Digit(b, 0x04) + 8 * Digit(b, 0x08)
                        + 16 * Digit(b, 0x10) + 32 * Digit(b, 0x20) + 64 * Digit(b, 0x40) + 128 * Digit(b, 0x80)
  {
  }

  /** Each bit of a byte counts its power of two. */
  lemma BitValues()
    ensures Value(0) == 0 && Value(0x01) == 1 && Value(0x02) == 2 && Value(0x04) == 4 && Value(0x08) == 8
    ensures Value(0x10) == 16 && Value(0x20) == 32 && Value(0x40) == 64 && Value(0x80) == 128
  {
  }

  lemma BitsAdd(x: bv8, y: bv8)
    requires x & y == 0
    ensures Value(x | y) == Value(x) + Value(y)
  {
    hide Value, Digit;
    ValueIsDigits(x);
    ValueIsDigits(y);
    ValueIsDigits(x | y);
    DigitsAdd(x, y, 0x01);
    DigitsAdd(x, y, 0x02);
    DigitsAdd(x, y, 0x04);
    DigitsAdd(x, y, 0x08);
    DigitsAdd(x, y, 0x10);
    DigitsAdd(x, y, 0x20);
    DigitsAdd(x, y, 0x40);
    DigitsAdd(x, y, 0x80);
  }

  /** The number that two bytes hold, the low one first. */
  function Number(s: bytes, i: nat): nat
    requires i + 2 <= |s|
  {
    Value(s[i]) + 256 * Value(s[i + 1])
  }

  /** A header is five numbers of two bytes: version, command, length, count and error. */
  lemma HeaderLayout(h: Header, rest: bytes)
    ensures var s := Bytes(h) + rest;
            && |Bytes(h)| == 10
            && Number(s, 0) == h.version && Number(s, 2) == h.cmd && Number(s, 4) == h.payloadLength
            && Number(s, 6) == h.count && Number(s, 8) == h.errCode
  {
    hide Bytes;
    HeaderRoundTrip(h, rest);
  }

  /** The outer header keeps version, count and error of the packet inside, with the code of
      an encrypted packet and the length of the whole blocks behind it. */
  lemma OuterHeader(m: Message, key: bytes)
    requires m.Counted() && |key| == 16
    ensures var s := Packet(m.Data(), true, key);
            && Number(s, 0) == m.hdr.version && Number(s, 2) == 89 && Number(s, 6) == m.hdr.count
            && Number(s, 8) == m.hdr.errCode
            && |s| == 10 + Number(s, 4) && Number(s, 4) % 16 == 0
            && 10 + |m.payload| <= Number(s, 4) < 26 + |m.payload|
  {
    hide Bytes, HeaderAt, MapBlocks, WithTail;
    var data := m.Data();
    HeaderRoundTrip(m.hdr, m.payload);
    var body := Body(data, true, key);
    HeaderLayout(HeaderAt(data).(cmd := CM_DATA_ENCRYPT, payloadLength := |body|), body);
  }

  // ----- packets that are not encrypted

  predicate PlainPacket(hdr: Header, payload: bytes) {
    hdr.cmd != 89 && hdr.payloadLength == |payload| && 0 < |payload| < 16384
  }

  /** A command of any code but 89 with a counted payload is received with that payload,
      whatever the key, and the bytes behind it are left. */
  lemma PlainIsReceived(hdr: Header, payload: bytes, after: bytes, key: bytes)
    requires PlainPacket(hdr, payload) && |key| >= 16
    ensures var stream := Bytes(hdr) + payload + after;
            HasPacket(stream) && Receive(stream, key) == (Command(hdr, payload), after)
  {
    hide Bytes, HasPacket, Receive;
    ReceivePacket(hdr, payload, after, key);
    assert Bytes(hdr) + payload + after == Bytes(hdr) + (payload + after);
  }

  /** A length of 0, or beyond the buffer, means no payload, whatever the code. */
  lemma BareIsReceived(hdr: Header, after: bytes, key: bytes)
    requires (hdr.payloadLength == 0 || hdr.payloadLength >= 16384) && |key| >= 16
    ensures var stream := Bytes(hdr) + after;
            HasPacket(stream) && Receive(stream, key) == (Command(hdr, []), after)
  {
    hide Bytes, HeaderAt;
    HeaderRoundTrip(hdr, after);
  }

  /** A packet of code 89 that is no whole number of blocks, or for which there is no key, is
      refused, and the bytes behind it are left. */
  lemma BrokenIsRefused(hdr: Header, payload: bytes, after: bytes, key: bytes)
    requires hdr.cmd == 89 && hdr.payloadLength == |payload| && 0 < |payload| < 16384 && |key| >= 16
    requires key[0] == 0 || |payload| % 16 != 0
    ensures var stream := Bytes(hdr) + payload + after;
            HasPacket(stream) && Receive(stream, key) == (Rejected, after)
  {
    hide Bytes, HasPacket, Receive, Plain, Inner;
    ReceivePacket(hdr, payload, after, key);
    assert Bytes(hdr) + payload + after == Bytes(hdr) + (payload + after);
  }

  /** A packet comes in only when all of it has arrived. */
  lemma WaitsForAll(hdr: Header, part: bytes)
    requires 0 < hdr.payloadLength < 16384
    ensures HasPacket(Bytes(hdr) + part) <==> |part| >= hdr.payloadLength
  {
    hide Bytes, HeaderAt;
    HeaderRoundTrip(hdr, part);
  }

  // ----- streams of both kinds

  datatype Packed = Encrypted(m: Message) | Plainly(hdr: Header, payload: bytes) {
    predicate Valid() {
      match this
      case Encrypted(m) => m.Valid()
      case Plainly(hdr, payload) => PlainPacket(hdr, payload) || (hdr.payloadLength == 0 && payload == [])
    }

    function Wire(key: bytes): bytes
      requires Valid()
    {
      match this
      case Encrypted(m) => Packet(m.Data(), true, key)
      case Plainly(hdr, payload) => Bytes(hdr) + payload
    }

    function Meant(): Outcome {
      match this
      case Encrypted(m) => Command(m.hdr, m.payload)
      case Plainly(hdr, payload) => Command(hdr, payload)
    }
  }

  predicate AllValid(ps: seq<Packed>) {
    forall i :: 0 <= i < |ps| ==> ps[i].Valid()
  }

  function Stream(ps: seq<Packed>, key: bytes): bytes
    requires AllValid(ps)
  {
    if ps == [] then []
    else
      assert ps[0].Valid();
      ps[0].Wire(key) + Stream(ps[1..], key)
  }

  function AllMeant(ps: seq<Packed>): (r: seq<Outcome>)
    ensures |r| == |ps|
  {
    seq(|ps|, i requires 0 <= i < |ps| => ps[i].Meant())
  }

  lemma OneIsReceived(p: Packed, after: bytes, key: bytes)
    requires p.Valid() && |key| >= 16 && key[0] != 0
    ensures var stream := p.Wire(key[..16]) + after;
            HasPacket(stream) && Receive(stream, key) == (p.Meant(), after)
  {
    hide Bytes, HasPacket, Receive, Packet, Message.Valid, Message.Data;
    match p
    case Encrypted(m) => WriteThenRead(m, key, after);
    case Plainly(hdr, payload) =>
      if payload == [] {
        BareIsReceived(hdr, after, key);
        assert Bytes(hdr) + payload + after == Bytes(hdr) + after;
      } else {
        PlainIsReceived(hdr, payload, after, key);
      }
  }

  /** Any stream of encrypted messages, plain commands and commands without payload is
      received packet by packet, in order, and nothing else. */
  lemma {:induction false} MixedStreamIsReceived(ps: seq<Packed>, key: bytes, n: nat)
    requires AllValid(ps) && |key| >= 16 && key[0] != 0 && n >= |ps|
    ensures ReceiveAll(Stream(ps, key[..16]), key, n) == AllMeant(ps)
  {
    hide Receive, HasPacket, Packed.Wire, Packed.Meant, Packed.Valid;
    if ps == [] {
      NothingReceived(key, n);
    } else {
      assert ps[0].Valid();
      OneIsReceived(ps[0], Stream(ps[1..], key[..16]), key);
      MixedStreamIsReceived(ps[1..], key, n - 1);
      assert AllMeant(ps) == [ps[0].Meant()] + AllMeant(ps[1..]);
    }
  }
}
