/**
 IO control packets to and from a camera: a stream head of four bytes, a control
 head of sixteen and data. The data is masked with a byte that changes from packet
 to packet, then the control head, with the mask in it, is encrypted.
 */
module CamPacket {
  import opened AesApi
  import opened AesText
  import opened Octet

  type bytes = seq<bv8>

  const STREAM_HEAD: nat := 4
  const CTRL_HEAD: nat := 16
  const HEAD: nat := 20
  const PACKET_SIZE: nat := 1500
  const SIO_TYPE_AUDIO: bv8 := 3
  const SIO_TYPE_IOCTRL: bv8 := 4
  const DECRYPT_ERROR := -2

  function Mask(s: bytes, key: bv8): (r: bytes)
    ensures |r| == |s|
  {
    seq(|s|, i requires 0 <= i < |s| => s[i] ^ key)
  }

  lemma MaskTwice(s: bytes, key: bv8)
    ensures Mask(Mask(s, key), key) == s
  {
    forall i | 0 <= i < |s| ensures Mask(Mask(s, key), key)[i] == s[i] {
      XorTwice(s[i], key);
    }
  }

  /** nIOCtrlDataSize of a control head at position i. */
  function DataSize(s: bytes, i: nat): u16
    requires i + CTRL_HEAD <= |s|
  {
    WordAt(s, i + 2)
  }

  /** The head with the mask put into its XorKey byte. */
  function WithKey(head: bytes, key: bv8): (r: bytes)
    requires |head| == CTRL_HEAD
    ensures |r| == CTRL_HEAD
  {
    head[4 := key]
  }

  // ----- sending

  /** A packet has data that is masked. */
  predicate Masked(data: bytes) {
    |data| >= HEAD && data[3] == SIO_TYPE_IOCTRL && DataSize(data, STREAM_HEAD) > 0
  }

  /** The declared data lies within the packet. */
  predicate DataFits(data: bytes) {
    Masked(data) ==> HEAD + DataSize(data, STREAM_HEAD) <= |data|
  }

  function NextKey(data: bytes, key: bv8): bv8 {
    if Masked(data) then data[0] ^ key else key
  }

  function MaskedPacket(data: bytes, key: bv8): (r: bytes)
    requires DataFits(data)
    ensures |r| == |data|
  {
    if Masked(data) then
      var n := DataSize(data, STREAM_HEAD);
      data[..STREAM_HEAD] + WithKey(data[STREAM_HEAD..HEAD], key) + Mask(data[HEAD..HEAD + n], key) + data[HEAD + n..]
    else data
  }

  lemma DataFitsLength(data: bytes)
    requires Masked(data) && DataFits(data)
    ensures HEAD + DataSize(data, STREAM_HEAD) <= |data|
  {
  }

  lemma MaskedByIndex(data: bytes, key: bv8, r: bytes)
    requires Masked(data) && DataFits(data) && |r| == |data|
    requires forall k :: 0 <= k < HEAD ==> r[k] == if k == 8 then key else data[k]
    requires forall k :: HEAD <= k < HEAD + DataSize(data, STREAM_HEAD) ==> r[k] == data[k] ^ key
    requires forall k :: HEAD + DataSize(data, STREAM_HEAD) <= k < |data| ==> r[k] == data[k]
    ensures r == MaskedPacket(data, key)
  {
    hide DataSize;
    var n := DataSize(data, STREAM_HEAD);
    assert r[..STREAM_HEAD] == data[..STREAM_HEAD];
    assert r[STREAM_HEAD..HEAD] == WithKey(data[STREAM_HEAD..HEAD], key);
    assert r[HEAD..HEAD + n] == Mask(data[HEAD..HEAD + n], key);
    assert r[HEAD + n..] == data[HEAD + n..];
    assert r == r[..STREAM_HEAD] + r[STREAM_HEAD..HEAD] + r[HEAD..HEAD + n] + r[HEAD + n..];
  }

  function HeadEncrypted(data: bytes, aesKey: bytes): (r: bytes)
    requires |data| >= HEAD
    ensures |r| == |data|
  {
    data[..STREAM_HEAD] + EncryptBlock(128, data[STREAM_HEAD..HEAD], aesKey) + data[HEAD..]
  }

  function Encrypted(data: bytes, key: bv8, aesKey: bytes): (r: bytes)
    requires DataFits(data)
    ensures |r| == |data|
  {
    if |data| < HEAD then data else HeadEncrypted(MaskedPacket(data, key), aesKey)
  }

  // ----- receiving

  /** DecryptPacket of a packet without its stream head: the code it returns and
      what it leaves in the buffer. */
  function Decrypted(ioType: bv8, data: bytes, aesKey: bytes): (int, bytes) {
    if ioType != SIO_TYPE_IOCTRL then (0, data)
    else if |data| < CTRL_HEAD then (DECRYPT_ERROR, data)
    else
      var head := DecryptBlock(128, data[..CTRL_HEAD], aesKey);
      if DataSize(head, 0) + CTRL_HEAD == |data| then (0, head + Mask(data[CTRL_HEAD..], head[4]))
      else (DECRYPT_ERROR, head + data[CTRL_HEAD..])
  }

  lemma HeadAndMask(head: bytes, tail: bytes, key: bv8, r: bytes)
    requires |r| == |head| + |tail|
    requires forall k :: 0 <= k < |head| ==> r[k] == head[k]
    requires forall k :: |head| <= k < |r| ==> r[k] == tail[k - |head|] ^ key
    ensures r == head + Mask(tail, key)
  {
    assert forall k :: 0 <= k < |tail| ==> r[|head| + k] == tail[k] ^ key;
  }

  // ----- the code

  method MaskFrom(data: array<bv8>, from: nat, n: nat, key: bv8)
    requires from + n <= data.Length
    modifies data
    ensures forall k :: from <= k < from + n ==> data[k] == old(data[k]) ^ key
    ensures forall k :: 0 <= k < from || from + n <= k < data.Length ==> data[k] == old(data[k])
  {
    var index := from;
    while index < n + from
      invariant from <= index <= n + from
      invariant forall k :: from <= k < index ==> data[k] == old(data[k]) ^ key
      invariant forall k :: 0 <= k < from || index <= k < data.Length ==> data[k] == old(data[k])
    {
      data[index] := data[index] ^ key;
      index := index + 1;
    }
  }

  class Camera {
    var nextXorKeyForIO: bv8
    const aesKey: array<bv8>

    ghost predicate Shape() {
      aesKey.Length >= 16
    }

    function Key(): bytes
      requires Shape()
      reads aesKey
    {
      aesKey[..16]
    }

    constructor (key: array<bv8>)
      requires key.Length >= 16
      ensures aesKey == key && Shape() && nextXorKeyForIO == 2
    {
      aesKey := key;
      nextXorKeyForIO := 2;
    }

    /** EncryptPacket. Packets of audio data are not part of this model. */
    method EncryptPacket(data: array<bv8>)
      requires Shape() && data != aesKey && DataFits(data[..])
      requires data.Length >= HEAD ==> data[3] != SIO_TYPE_AUDIO
      modifies this`nextXorKeyForIO, data
      ensures data[..] == Encrypted(old(data[..]), old(nextXorKeyForIO), Key())
      ensures nextXorKeyForIO == NextKey(old(data[..]), old(nextXorKeyForIO))
    {
      hide EncryptBlock;
      if data.Length < HEAD {
        return;
      }
      if data[3] == SIO_TYPE_IOCTRL {
        var n := DataSize(data[..], STREAM_HEAD);
        if n > 0 {
          MaskData(data, n);
        }
      }
      ghost var masked := data[..];
      var block := new bv8[CTRL_HEAD](i requires 0 <= i < CTRL_HEAD reads data =>
        if STREAM_HEAD + i < data.Length then data[STREAM_HEAD + i] else 0);
      assert block[..16] == masked[STREAM_HEAD..HEAD];
      var out := new bv8[32](_ => 0);
      var size := AesEncrypt(128, block, 16, aesKey, 16, out);
      if size > 0 {
        CopyTo(data, STREAM_HEAD, out[..16]);
        assert data[..] == data[..STREAM_HEAD] + data[STREAM_HEAD..STREAM_HEAD + 16] + data[HEAD..];
        assert data[..STREAM_HEAD] == masked[..STREAM_HEAD] && data[HEAD..] == masked[HEAD..];
      }
    }

    /** Puts the mask into the control head, moves on to the next mask and masks
        the data. */
    method MaskData(data: array<bv8>, n: nat)
      requires data != aesKey && Masked(data[..]) && DataFits(data[..]) && n == DataSize(data[..], STREAM_HEAD)
      modifies this`nextXorKeyForIO, data
      ensures data[..] == MaskedPacket(old(data[..]), old(nextXorKeyForIO))
      ensures nextXorKeyForIO == NextKey(old(data[..]), old(nextXorKeyForIO))
    {
      hide DataFits, DataSize;
      ghost var was := data[..];
      DataFitsLength(was);
      var key := nextXorKeyForIO;
      data[8] := key;
      nextXorKeyForIO := data[0] ^ key;
      MaskFrom(data, HEAD, n, key);
      MaskedByIndex(was, key, data[..]);
    }

    method DecryptPacket(ioType: bv8, data: array<bv8>) returns (r: int)
      requires Shape() && data != aesKey
      modifies data
      ensures (r, data[..]) == Decrypted(ioType, old(data[..]), Key())
    {
      hide DecryptBlock;
      if ioType != SIO_TYPE_IOCTRL {
        return 0;
      }
      if data.Length < CTRL_HEAD {
        return DECRYPT_ERROR;
      }
      ghost var was := data[..];
      var out := new bv8[512](_ => 0);
      assert data[..16] == was[..16];
      var size := AesDecrypt(128, data, 16, aesKey, 16, out);
      ghost var head := out[..16];
      CopyTo(data, 0, out[..16]);
      assert data[..] == data[0..16] + data[16..] == head + was[16..];
      var key := out[..16][4];
      if DataSize(out[..16], 0) + CTRL_HEAD == data.Length {
        MaskFrom(data, CTRL_HEAD, data.Length - CTRL_HEAD, key);
        HeadAndMask(head, was[CTRL_HEAD..], key, data[..]);
        return 0;
      }
      r := DECRYPT_ERROR;
    }

    /** Camera_SendIOCtrl: builds a control packet and encrypts it. */
    method SendIOCtrl(ioType: u16, ioData: bytes) returns (packet: bytes)
      requires Shape() && HEAD + |ioData| <= PACKET_SIZE
      modifies this`nextXorKeyForIO
      ensures packet == EncryptedControl(ioType, ioData, old(nextXorKeyForIO), Key())
      ensures nextXorKeyForIO == NextKey(Control(ioType, ioData), old(nextXorKeyForIO))
    {
      hide Encrypted, NextKey, Control, DataFits, Whole, DataSize, ControlHead;
      ControlShape(ioType, ioData);
      var data := Control(ioType, ioData);
      var buf := new bv8[|data|](_ => 0);
      CopyTo(buf, 0, data);
      assert buf[..] == buf[0..0 + |data|] == data;
      EncryptPacket(buf);
      packet := buf[..];
    }
  }

  /** A control packet before encryption. */
  function Control(ioType: u16, ioData: bytes): (r: bytes)
    requires HEAD + |ioData| <= PACKET_SIZE
    ensures |r| == HEAD + |ioData|
  {
    Word(CTRL_HEAD + |ioData|) + [0, SIO_TYPE_IOCTRL] + ControlHead(ioType, |ioData|) + ioData
  }

  function ControlHead(ioType: u16, n: u16): (r: bytes)
    ensures |r| == CTRL_HEAD
  {
    Word(ioType) + Word(n) + seq(12, _ => 0)
  }

  lemma ControlShape(ioType: u16, ioData: bytes)
    requires HEAD + |ioData| <= PACKET_SIZE
    ensures var data := Control(ioType, ioData);
            && data[3] == SIO_TYPE_IOCTRL && DataFits(data) && Whole(data)
            && WordAt(data, 0) == CTRL_HEAD + |ioData| && data[2] == 0
            && data[STREAM_HEAD..HEAD] == ControlHead(ioType, |ioData|) && data[HEAD..] == ioData
  {
    hide Word, WordAt;
    var data := Control(ioType, ioData);
    var n := |ioData|;
    var size, ctrl := Word(CTRL_HEAD + n), Word(ioType);
    var tail: bytes := seq(12, _ => 0);
    assert data == [] + size + ([0, SIO_TYPE_IOCTRL] + ctrl + Word(n) + tail + ioData);
    assert data == (size + [0, SIO_TYPE_IOCTRL] + ctrl) + Word(n) + (tail + ioData);
    WordRoundTrip(CTRL_HEAD + n, [], [0, SIO_TYPE_IOCTRL] + ctrl + Word(n) + tail + ioData);
    WordRoundTrip(n, size + [0, SIO_TYPE_IOCTRL] + ctrl, tail + ioData);
  }

  function EncryptedControl(ioType: u16, ioData: bytes, key: bv8, aesKey: bytes): bytes
    requires HEAD + |ioData| <= PACKET_SIZE
  {
    ControlShape(ioType, ioData);
    Encrypted(Control(ioType, ioData), key, aesKey)
  }

  // ----- laws

  /** An IO control packet whose declared data size is that of its data. */
  predicate Whole(data: bytes) {
    |data| >= HEAD && data[3] == SIO_TYPE_IOCTRL && HEAD + DataSize(data, STREAM_HEAD) == |data|
  }

  /** The part of a packet behind the stream head, as the receiver is to find it:
      with the mask in its head, if it has data. */
  function Received(data: bytes, key: bv8): bytes
    requires Whole(data)
  {
    if |data| > HEAD then WithKey(data[STREAM_HEAD..HEAD], key) + data[HEAD..] else data[STREAM_HEAD..]
  }

  lemma MaskedShape(data: bytes, key: bv8)
    requires Whole(data) && |data| > HEAD
    ensures DataFits(data)
    ensures MaskedPacket(data, key) ==
            data[..STREAM_HEAD] + WithKey(data[STREAM_HEAD..HEAD], key) + Mask(data[HEAD..], key)
  {
    hide Mask, WordAt;
    var n := DataSize(data, STREAM_HEAD);
    assert data[HEAD..HEAD + n] == data[HEAD..] && data[HEAD + n..] == [];
  }

  lemma Pieces(stream: bytes, head: bytes, data: bytes)
    requires |stream| == STREAM_HEAD && |head| == CTRL_HEAD
    ensures (stream + head + data)[STREAM_HEAD..HEAD] == head
    ensures (stream + head + data)[HEAD..] == data
  {
  }

  lemma SizeOfHead(data: bytes, key: bv8)
    requires |data| >= HEAD
    ensures DataSize(WithKey(data[STREAM_HEAD..HEAD], key), 0) == DataSize(data, STREAM_HEAD)
  {
  }

  lemma MaskedWhole(data: bytes, key: bv8)
    requires Whole(data) && |data| > HEAD
    ensures DataFits(data)
    ensures var m := MaskedPacket(data, key);
            && m[STREAM_HEAD..HEAD] == WithKey(data[STREAM_HEAD..HEAD], key)
            && m[HEAD..] == Mask(data[HEAD..], key)
            && DataSize(m[STREAM_HEAD..HEAD], 0) + HEAD == |data|
  {
    hide Mask, MaskedPacket, DataSize, WithKey, DataFits;
    MaskedShape(data, key);
    Pieces(data[..STREAM_HEAD], WithKey(data[STREAM_HEAD..HEAD], key), Mask(data[HEAD..], key));
    SizeOfHead(data, key);
  }

  /** What DecryptPacket makes of an encrypted head and masked data. */
  lemma DecryptHead(head: bytes, data: bytes, aesKey: bytes)
    requires |head| == CTRL_HEAD && DataSize(head, 0) == |data|
    ensures Decrypted(SIO_TYPE_IOCTRL, EncryptBlock(128, head, aesKey) + Mask(data, head[4]), aesKey) ==
            (0, head + data)
  {
    hide EncryptBlock, DecryptBlock, DataSize, Mask;
    var sealed := EncryptBlock(128, head, aesKey) + Mask(data, head[4]);
    assert sealed[..CTRL_HEAD] == EncryptBlock(128, head, aesKey) && sealed[CTRL_HEAD..] == Mask(data, head[4]);
    DecryptEncrypt(128, head, aesKey);
    MaskTwice(data, head[4]);
  }

  /** With the same AES key, DecryptPacket undoes EncryptPacket, whatever the mask
      was: only the XorKey byte of a packet with data differs. */
  lemma DecryptUndoesEncrypt(data: bytes, key: bv8, aesKey: bytes)
    requires Whole(data)
    ensures DataFits(data)
    ensures Decrypted(SIO_TYPE_IOCTRL, Encrypted(data, key, aesKey)[STREAM_HEAD..], aesKey) == (0, Received(data, key))
  {
    hide EncryptBlock, Decrypted, WordAt, Mask;
    var m := MaskedPacket(data, key);
    var head := m[STREAM_HEAD..HEAD];
    var sealed := HeadEncrypted(m, aesKey)[STREAM_HEAD..];
    assert sealed == EncryptBlock(128, head, aesKey) + m[HEAD..];
    if |data| > HEAD {
      MaskedWhole(data, key);
      DecryptHead(head, data[HEAD..], aesKey);
    } else {
      EmptyMask(head[4]);
      assert m[HEAD..] == [];
      HeadOnly(data);
      DecryptHead(head, [], aesKey);
      assert head + [] == data[STREAM_HEAD..];
    }
  }

  lemma EmptyMask(key: bv8)
    ensures Mask([], key) == []
  {
  }

  lemma HeadOnly(data: bytes)
    requires Whole(data) && |data| == HEAD
    ensures DataSize(data[STREAM_HEAD..HEAD], 0) == 0
  {
  }

  /** The mask in use before packet i. */
  function KeyOf(packets: seq<bytes>, key: bv8, i: nat): bv8
    requires i <= |packets|
  {
    if i == 0 then key else NextKey(packets[i - 1], KeyOf(packets, key, i - 1))
  }

  /** The receiver keeps no mask, yet recovers every packet of any run. */
  lemma EveryPacketDecrypts(packets: seq<bytes>, key: bv8, aesKey: bytes, i: nat)
    requires i < |packets| && Whole(packets[i])
    ensures DataFits(packets[i])
    ensures Decrypted(SIO_TYPE_IOCTRL, Encrypted(packets[i], KeyOf(packets, key, i), aesKey)[STREAM_HEAD..], aesKey) ==
            (0, Received(packets[i], KeyOf(packets, key, i)))
  {
    hide Encrypted, Decrypted, Received, NextKey, KeyOf, DataFits;
    DecryptUndoesEncrypt(packets[i], KeyOf(packets, key, i), aesKey);
  }

  // ----- a run of Camera_SendIOCtrl calls, read back from the stream

  /** The stream head's size field. */
  function StreamSize(s: bytes): nat
    requires |s| >= STREAM_HEAD
  {
    WordAt(s, 0) + 0x10000 * Value(s[2])
  }

  /** The packets of a stream, decrypted, up to the first one that is incomplete or
      fails to decrypt. */
  function ReadAll(stream: bytes, aesKey: bytes): seq<bytes>
    decreases |stream|
  {
    if |stream| < STREAM_HEAD || |stream| < STREAM_HEAD + StreamSize(stream) then []
    else
      var end := STREAM_HEAD + StreamSize(stream);
      var (code, data) := Decrypted(stream[3], stream[STREAM_HEAD..end], aesKey);
      if code < 0 then [] else [data] + ReadAll(stream[end..], aesKey)
  }

  datatype Call = Call(ioType: u16, ioData: bytes)

  function SendAll(calls: seq<Call>, key: bv8, aesKey: bytes): bytes
    requires forall i :: 0 <= i < |calls| ==> HEAD + |calls[i].ioData| <= PACKET_SIZE
  {
    if calls == [] then []
    else
      assert HEAD + |calls[0].ioData| <= PACKET_SIZE;
      EncryptedControl(calls[0].ioType, calls[0].ioData, key, aesKey)
      + SendAll(calls[1..], NextKey(Control(calls[0].ioType, calls[0].ioData), key), aesKey)
  }

  /** A control head and its data, apart from the mask. */
  predicate Carries(data: bytes, call: Call) {
    && |data| == CTRL_HEAD + |call.ioData|
    && WordAt(data, 0) == call.ioType && WordAt(data, 2) == |call.ioData|
    && data[CTRL_HEAD..] == call.ioData
  }

  lemma ReceivedCarries(call: Call, key: bv8)
    requires HEAD + |call.ioData| <= PACKET_SIZE
    ensures Whole(Control(call.ioType, call.ioData))
    ensures Carries(Received(Control(call.ioType, call.ioData), key), call)
  {
    hide Control, ControlHead, WordAt;
    ControlShape(call.ioType, call.ioData);
    var data, n := Control(call.ioType, call.ioData), |call.ioData|;
    var head := ControlHead(call.ioType, n);
    ControlHeadWords(call.ioType, n);
    assert data[STREAM_HEAD..] == head + call.ioData;
    SameWords(Received(data, key), head);
  }

  lemma ControlHeadWords(ioType: u16, n: u16)
    ensures WordAt(ControlHead(ioType, n), 0) == ioType && WordAt(ControlHead(ioType, n), 2) == n
  {
    hide Word, WordAt;
    var tail: bytes := seq(12, _ => 0);
    WordRoundTrip(ioType, [], Word(n) + tail);
    WordRoundTrip(n, Word(ioType), tail);
    assert ControlHead(ioType, n) == [] + Word(ioType) + (Word(n) + tail);
  }

  lemma SameWords(r: bytes, s: bytes)
    requires |r| >= 4 && |s| >= 4 && forall i :: 0 <= i < 4 ==> r[i] == s[i]
    ensures WordAt(r, 0) == WordAt(s, 0) && WordAt(r, 2) == WordAt(s, 2)
  {
    hide Value;
  }

  lemma StreamHeadKept(data: bytes, key: bv8, aesKey: bytes)
    requires DataFits(data) && |data| >= HEAD
    ensures forall i :: 0 <= i < STREAM_HEAD ==> Encrypted(data, key, aesKey)[i] == data[i]
  {
    hide EncryptBlock, Mask, WithKey, Masked, DataSize;
  }

  lemma EncryptedHead(call: Call, key: bv8, aesKey: bytes)
    requires HEAD + |call.ioData| <= PACKET_SIZE
    ensures var data := Control(call.ioType, call.ioData);
            && DataFits(data)
            && Encrypted(data, key, aesKey)[3] == SIO_TYPE_IOCTRL
            && StreamSize(Encrypted(data, key, aesKey)) == CTRL_HEAD + |call.ioData|
  {
    hide Control, Encrypted, DataFits, Value;
    ControlShape(call.ioType, call.ioData);
    StreamHeadKept(Control(call.ioType, call.ioData), key, aesKey);
    assert Value(0) == 0 by { ZeroByte(); }
  }

  lemma ZeroByte()
    ensures Value(0) == 0
  {
  }

  lemma FirstPacket(call: Call, key: bv8, aesKey: bytes, rest: bytes)
    requires HEAD + |call.ioData| <= PACKET_SIZE
    ensures Whole(Control(call.ioType, call.ioData)) && DataFits(Control(call.ioType, call.ioData))
    ensures ReadAll(EncryptedControl(call.ioType, call.ioData, key, aesKey) + rest, aesKey) ==
            [Received(Control(call.ioType, call.ioData), key)] + ReadAll(rest, aesKey)
  {
    hide EncryptBlock, Control, Encrypted, Decrypted, Received, DataFits;
    var data := Control(call.ioType, call.ioData);
    ControlShape(call.ioType, call.ioData);
    EncryptedHead(call, key, aesKey);
    DecryptUndoesEncrypt(data, key, aesKey);
    var packet := Encrypted(data, key, aesKey);
    var stream := packet + rest;
    assert StreamSize(stream) == StreamSize(packet);
    assert stream[STREAM_HEAD..|packet|] == packet[STREAM_HEAD..];
    assert stream[|packet|..] == rest;
  }

  /** Reading the stream of any run of calls gives every call's type and data, in
      order. */
  lemma {:induction false} StreamRoundTrip(calls: seq<Call>, key: bv8, aesKey: bytes)
    requires forall i :: 0 <= i < |calls| ==> HEAD + |calls[i].ioData| <= PACKET_SIZE
    ensures var read := ReadAll(SendAll(calls, key, aesKey), aesKey);
            |read| == |calls| && forall i :: 0 <= i < |calls| ==> Carries(read[i], calls[i])
  {
    hide Control, EncryptedControl, Received, Carries, NextKey;
    if calls != [] {
      assert HEAD + |calls[0].ioData| <= PACKET_SIZE;
      var data := Control(calls[0].ioType, calls[0].ioData);
      FirstPacket(calls[0], key, aesKey, SendAll(calls[1..], NextKey(data, key), aesKey));
      ReceivedCarries(calls[0], key);
      StreamRoundTrip(calls[1..], NextKey(data, key), aesKey);
    }
  }
}
