/**
 A control packet to the camera byte by byte, and how the mask moves on from packet to packet.
 */
module CamLaws {
  import opened AesApi
  import opened Octet
  import opened CamPacket

  /** The control head in front of the encryption: type and size of the data, two bytes each
      with the low one first, the mask, and zeros. */
  function Head(ioType: u16, n: u16, mask: bv8): (r: bytes)
    ensures |r| == 16
  {
    [Byte(ioType), Byte(ioType / 256), Byte(n), Byte(n / 256), mask, 0, 0, 0, 0, 0, 0, 0, 0, 0, 0, 0]
  }

  lemma ControlHeadIs(ioType: u16, n: u16)
    ensures ControlHead(ioType, n) == Head(ioType, n, 0)
  {
    hide Byte;
  }

  lemma WithKeyIs(ioType: u16, n: u16, mask: bv8)
    ensures WithKey(ControlHead(ioType, n), mask) == Head(ioType, n, mask)
  {
    hide Byte, ControlHead;
    ControlHeadIs(ioType, n);
  }

  lemma HeadValues(ioType: u16, n: u16, mask: bv8)
    ensures var h := Head(ioType, n, mask);
            && Value(h[0]) + 256 * Value(h[1]) == ioType && Value(h[2]) + 256 * Value(h[3]) == n
            && h[4] == mask && h[5..] == seq(11, _ => 0)
  {
    hide Byte, Value;
    ByteRoundTrip(ioType);
    ByteRoundTrip(ioType / 256);
    ByteRoundTrip(n);
    ByteRoundTrip(n / 256);
  }

  /** The packet: its size without the stream head, a zero, the kind, the encrypted control
      head, which carries the mask if there is data, and the data under the mask. */
  lemma PacketLayout(ioType: u16, ioData: bytes, mask: bv8, aesKey: bytes)
    requires 20 + |ioData| <= 1500
    ensures var p, n := EncryptedControl(ioType, ioData, mask, aesKey), |ioData|;
            && |p| == 20 + n
            && Value(p[0]) + 256 * Value(p[1]) == 16 + n && p[2] == 0 && p[3] == 4
            && p[4..20] == EncryptBlock(128, Head(ioType, n, if n > 0 then mask else 0), aesKey)
            && forall i :: 0 <= i < n ==> p[20 + i] == ioData[i] ^ mask
  {
    hide EncryptBlock, Control, ControlHead, Head, Value, WithKey, DataSize, Mask, MaskedPacket, DataFits, Masked,
         Whole;
    ControlShape(ioType, ioData);
    var data, n := Control(ioType, ioData), |ioData|;
    StreamHeadKept(data, mask, aesKey);
    ControlHeadIs(ioType, n);
    WithKeyIs(ioType, n, mask);
    if n > 0 {
      MaskedWhole(data, mask);
      MaskBytes(ioData, mask);
    } else {
      UnmaskedWhole(data, mask);
    }
  }

  lemma UnmaskedWhole(data: bytes, mask: bv8)
    requires Whole(data) && |data| == 20
    ensures DataFits(data) && MaskedPacket(data, mask) == data
  {
    hide DataSize;
  }

  lemma MaskBytes(s: bytes, mask: bv8)
    ensures forall i :: 0 <= i < |s| ==> Mask(s, mask)[i] == s[i] ^ mask
  {
  }

  /** The mask is combined with the low byte of the size of each packet that has data; it
      starts with 2. */
  lemma MaskMovesOn(ioType: u16, ioData: bytes, mask: bv8)
    requires 20 + |ioData| <= 1500
    ensures NextKey(Control(ioType, ioData), mask) == if ioData == [] then mask else Byte(16 + |ioData|) ^ mask
  {
    hide Byte, Value, ControlHead;
    ControlShape(ioType, ioData);
    assert Control(ioType, ioData)[0] == Byte(16 + |ioData|);
  }

  /** Of what arrives, packets of other kinds are left as they are; one shorter than a control
      head is refused. */
  lemma LeftAlone(kind: bv8, data: bytes, aesKey: bytes)
    ensures kind != 4 ==> Decrypted(kind, data, aesKey) == (0, data)
    ensures kind == 4 && |data| < 16 ==> Decrypted(kind, data, aesKey) == (-2, data)
  {
  }

  /** Of a control packet the head is decrypted; the data are unmasked by the fifth byte of the
      head if its third and fourth count them, and the packet is refused if not. */
  lemma ArrivedPacket(data: bytes, aesKey: bytes)
    requires |data| >= 16
    ensures var (code, r) := Decrypted(4, data, aesKey);
            var head := DecryptBlock(128, data[..16], aesKey);
            var counted := Value(head[2]) + 256 * Value(head[3]) == |data| - 16;
            && |r| == |data| && r[..16] == head && code == (if counted then 0 else -2)
            && forall i :: 16 <= i < |data| ==> r[i] == if counted then data[i] ^ head[4] else data[i]
  {
    hide Decrypted, DecryptBlock, Value, Mask;
    var head := DecryptBlock(128, data[..16], aesKey);
    DecryptedIs(data, aesKey, head);
    MaskBytes(data[16..], head[4]);
    HeadInFront(head, data, Mask(data[16..], head[4]), head[4]);
  }

  lemma DecryptedIs(data: bytes, aesKey: bytes, head: bytes)
    requires |data| >= 16 && head == DecryptBlock(128, data[..16], aesKey)
    ensures Decrypted(4, data, aesKey) ==
            if Value(head[2]) + 256 * Value(head[3]) == |data| - 16 then (0, head + Mask(data[16..], head[4]))
            else (-2, head + data[16..])
  {
    hide DecryptBlock, Value, Mask;
  }

  lemma HeadInFront(head: bytes, data: bytes, tail: bytes, key: bv8)
    requires |head| == 16 <= |data| && |tail| == |data| - 16
    requires forall i :: 0 <= i < |tail| ==> tail[i] == data[16..][i] ^ key
    ensures (head + tail)[..16] == head && (head + data[16..])[..16] == head
    ensures forall i :: 16 <= i < |data| ==> (head + tail)[i] == data[i] ^ key && (head + data[16..])[i] == data[i]
  {
    forall i | 16 <= i < |data| ensures (head + tail)[i] == data[i] ^ key {
      assert (head + tail)[i] == tail[i - 16] && data[16..][i - 16] == data[i];
    }
  }
}
