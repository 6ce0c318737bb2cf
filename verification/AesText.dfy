/**
 encryptAES, encryptAES2, decryptAES and delTailStr on the static buffers of the
 code.
 */
module AesText {
  import opened AesApi
  import opened AesUtils

  /** memset of a whole buffer. */
  method Clear(a: array<bv8>)
    modifies a
    ensures forall i :: 0 <= i < a.Length ==> a[i] == 0
  {
    for i := 0 to a.Length
      invariant forall k :: 0 <= k < i ==> a[k] == 0
    {
      a[i] := 0;
    }
  }

  /** memcpy to position `at`. */
  method CopyTo(a: array<bv8>, at: nat, s: bytes)
    requires at + |s| <= a.Length
    modifies a
    ensures a[at..at + |s|] == s
    ensures forall k :: 0 <= k < at || at + |s| <= k < a.Length ==> a[k] == old(a[k])
  {
    for i := 0 to |s|
      invariant a[at..at + i] == s[..i]
      invariant forall k :: 0 <= k < at || at + i <= k < a.Length ==> a[k] == old(a[k])
    {
      a[at + i] := s[i];
    }
  }

  /** Copies block i of a buffer that starts with `data`. */
  method LoadBlock(sIn: array<bv8>, src: array<bv8>, i: nat, ghost data: bytes)
    requires sIn.Length == 16 && sIn != src
    requires |data| <= src.Length && src[..|data|] == data && 16 * i + 16 <= |data|
    modifies sIn
    ensures sIn[..16] == BlockAt(data, i)
  {
    CopyTo(sIn, 0, src[16 * i..16 * i + 16]);
    forall k | 0 <= k < 16 ensures sIn[k] == BlockAt(data, i)[k] {
      assert sIn[k] == sIn[0..16][k];
      assert src[16 * i + k] == src[..|data|][16 * i + k];
    }
  }

  /** Writes block i of `text`, behind the blocks written before. */
  method StoreBlock(out: array<bv8>, i: nat, sOut: array<bv8>, ghost text: bytes)
    requires sOut.Length == 16 && out != sOut
    requires 16 * i + 16 <= |text| <= out.Length && sOut[..16] == BlockAt(text, i)
    requires forall j :: 0 <= j < 16 * i ==> out[j] == text[j]
    modifies out
    ensures forall j :: 0 <= j < 16 * i + 16 ==> out[j] == text[j]
    ensures forall j :: 16 * i + 16 <= j < out.Length ==> out[j] == old(out[j])
  {
    CopyTo(out, 16 * i, sOut[..16]);
    forall j | 16 * i <= j < 16 * i + 16 ensures out[j] == text[j] {
      assert out[j] == out[16 * i..16 * i + 16][j - 16 * i];
      assert text[j] == BlockAt(text, i)[j - 16 * i];
    }
  }

  class Buffers {
    const encdata: array<bv8>
    const encOut: array<bv8>
    const decOut: array<bv8>

    ghost predicate Shape() {
      encdata.Length == ENC_SIZE && encOut.Length == ENC_SIZE && decOut.Length == DEC_SIZE
      && encdata != encOut && encOut != decOut && encdata != decOut
    }

    constructor ()
      ensures Shape() && fresh(encdata) && fresh(encOut) && fresh(decOut)
    {
      encdata := new bv8[ENC_SIZE](_ => 0);
      encOut := new bv8[ENC_SIZE](_ => 0);
      decOut := new bv8[DEC_SIZE](_ => 0);
    }

    /** The data with its tail at the start of a cleared encdata. */
    method LoadData(src: bytes)
      requires Shape() && PaddedLength(|src|) <= ENC_SIZE
      modifies encdata
      ensures encdata[..PaddedLength(|src|)] == WithTail(src)
    {
      Clear(encdata);
      CopyTo(encdata, 0, src);
      var tailSize := |src| % 16;
      if tailSize > 0 {
        AppendTail(src);
      }
    }

    method AppendTail(src: bytes)
      requires Shape() && |src| % 16 != 0 && PaddedLength(|src|) <= ENC_SIZE
      requires encdata[..|src|] == src
      modifies encdata
      ensures encdata[..PaddedLength(|src|)] == WithTail(src)
    {
      hide TailChar;
      CopyTo(encdata, |src|, Tail(16 - |src| % 16));
      assert encdata[..|src|] == src;
      assert encdata[..PaddedLength(|src|)] == encdata[..|src|] + encdata[|src|..PaddedLength(|src|)];
    }

    /** Encrypts `srcLen` bytes; the text is left in encOut. `ok` is false where the
        code returns a null pointer. A text that does not fit the buffers, and a key
        of fewer than 16 bytes, are the caller's error. */
    method EncryptAes2(src: array?<bv8>, srcLen: nat, key: array<bv8>) returns (ok: bool, outSize: nat)
      requires Shape()
      requires src != null ==> srcLen <= src.Length && src != encdata && src != encOut
      requires PaddedLength(srcLen) <= ENC_SIZE
      requires key.Length >= 16 && key != encdata && key != encOut
      modifies encdata, encOut
      ensures ok <==> src != null
      ensures ok ==> outSize == PaddedLength(srcLen)
      ensures ok ==> encOut[..outSize] == MapBlocks(Enc(key[..16]), WithTail(src[..srcLen]))
    {
      hide EncryptBlock;
      if src == null {
        return false, 0;
      }
      ghost var data := WithTail(src[..srcLen]);
      ghost var text := MapBlocks(Enc(key[..16]), data);
      outSize := PaddedLength(srcLen);
      LoadData(src[..srcLen]);
      Clear(encOut);
      var blockSize := outSize / 16;
      var sIn := new bv8[16](_ => 0);
      var sOut := new bv8[16](_ => 0);
      var i := 0;
      while i < blockSize
        invariant i <= blockSize
        invariant encdata[..outSize] == data
        invariant forall j :: 0 <= j < 16 * i ==> encOut[j] == text[j]
        decreases blockSize - i
      {
        Clear(sOut);
        LoadBlock(sIn, encdata, i, data);
        var size := AesEncrypt(128, sIn, 16, key, 16, sOut);
        MapBlocksAt(Enc(key[..16]), data, i);
        StoreBlock(encOut, i, sOut, text);
        i := i + 1;
      }
      ok := true;
    }

    /** Encrypts a C string. */
    method EncryptAes(src: array?<bv8>, ghost text: bytes, key: array<bv8>) returns (ok: bool, outSize: nat)
      requires Shape()
      requires src != null ==> HoldsText(src, text) && src != encdata && src != encOut
      requires PaddedLength(|text|) <= ENC_SIZE
      requires key.Length >= 16 && key != encdata && key != encOut
      modifies encdata, encOut
      ensures ok <==> src != null
      ensures ok ==> outSize == PaddedLength(|text|)
      ensures ok ==> encOut[..outSize] == MapBlocks(Enc(key[..16]), WithTail(text))
    {
      if src == null {
        return false, 0;
      }
      var srcLen := StrLen(src, text);
      ok, outSize := EncryptAes2(src, srcLen, key);
    }

    /** Decrypts into decOut, the rest of which is zeroed. `ok` is false for a size
        that is no whole number of blocks. */
    method DecryptAes(enStr: array?<bv8>, size: nat, key: array<bv8>) returns (ok: bool)
      requires Shape()
      requires enStr != null ==> size <= enStr.Length && enStr != decOut
      requires size % 16 == 0 ==> size <= DEC_SIZE
      requires key.Length >= 16 && key != decOut
      modifies decOut
      ensures ok <==> enStr != null && size % 16 == 0
      ensures ok ==> decOut[..size] == MapBlocks(Dec(key[..16]), enStr[..size])
      ensures ok ==> forall i :: size <= i < DEC_SIZE ==> decOut[i] == 0
    {
      hide DecryptBlock;
      if enStr == null {
        return false;
      }
      if size % 16 != 0 {
        return false;
      }
      ghost var data := enStr[..size];
      ghost var text := MapBlocks(Dec(key[..16]), data);
      Clear(decOut);
      var blockSize := size / 16;
      var sIn := new bv8[16](_ => 0);
      var sOut := new bv8[16](_ => 0);
      var i := 0;
      while i < blockSize
        invariant i <= blockSize
        invariant enStr[..size] == data
        invariant forall j :: 0 <= j < 16 * i ==> decOut[j] == text[j]
        invariant forall j :: 16 * i <= j < DEC_SIZE ==> decOut[j] == 0
        decreases blockSize - i
      {
        Clear(sOut);
        LoadBlock(sIn, enStr, i, data);
        var n := AesDecrypt(128, sIn, 16, key, 16, sOut);
        MapBlocksAt(Dec(key[..16]), data, i);
        StoreBlock(decOut, i, sOut, text);
        i := i + 1;
      }
      ok := true;
    }

    /** decryptAES of encryptAES2 leaves the data, followed by its tail, in decOut. */
    method DecryptEncrypted(src: array<bv8>, srcLen: nat, key: array<bv8>) returns (ok: bool)
      requires Shape()
      requires srcLen <= src.Length && src != encdata && src != encOut && src != decOut
      requires PaddedLength(srcLen) <= DEC_SIZE
      requires key.Length >= 16 && key != encdata && key != encOut && key != decOut
      modifies encdata, encOut, decOut
      ensures ok && decOut[..srcLen] == src[..srcLen]
      ensures decOut[..PaddedLength(srcLen)] == WithTail(src[..srcLen])
    {
      hide EncryptBlock, DecryptBlock, MapBlocks;
      var outSize;
      ok, outSize := EncryptAes2(src, srcLen, key);
      ok := DecryptAes(encOut, outSize, key);
      DecryptEncryptText(src[..srcLen], key[..16]);
      assert decOut[..srcLen] == decOut[..PaddedLength(srcLen)][..srcLen];
    }

    /** delTailStr after decryptAES after encryptAES: the text comes back exactly
        unless it fills whole blocks and ends with one of the tails. */
    method TextRoundTrip(src: array<bv8>, ghost text: bytes, key: array<bv8>) returns (plain: bytes)
      requires Shape()
      requires HoldsText(src, text) && text != []
      requires src != encdata && src != encOut && src != decOut
      requires PaddedLength(|text|) < DEC_SIZE
      requires key.Length >= 16 && key != encdata && key != encOut && key != decOut
      modifies encdata, encOut, decOut
      ensures plain == text <==> |text| % 16 != 0 || forall k :: 1 <= k <= 15 ==> !HasTail(text, k)
      ensures plain == WithoutTail(WithTail(text), 1)
    {
      hide EncryptBlock, DecryptBlock, MapBlocks;
      var ok, outSize := EncryptAes(src, text, key);
      ok := DecryptAes(encOut, outSize, key);
      DecryptEncryptText(text, key[..16]);
      TailHasNoNul(text);
      plain := DelTailStr(decOut, WithTail(text));
      TailRoundTrip(text);
    }
  }

  // ----- C strings of bytes

  ghost predicate HoldsText(a: array<bv8>, s: bytes)
    reads a
  {
    |s| < a.Length && a[..|s|] == s && a[|s|] == 0 && forall i :: 0 <= i < |s| ==> s[i] != 0
  }

  method StrLen(a: array<bv8>, ghost s: bytes) returns (n: nat)
    requires HoldsText(a, s)
    ensures n == |s|
  {
    n := 0;
    while a[n] != 0
      invariant n <= |s|
      decreases |s| - n
    {
      n := n + 1;
    }
    assert forall i :: 0 <= i < |s| ==> a[i] == a[..|s|][i] == s[i];
  }

  lemma TailHasNoNul(s: bytes)
    requires forall i :: 0 <= i < |s| ==> s[i] != 0
    ensures forall i :: 0 <= i < |WithTail(s)| ==> WithTail(s)[i] != 0
  {
    if |s| % 16 != 0 {
      TailCharsDiffer(16 - |s| % 16, 16 - |s| % 16);
    }
  }

  /** Compares from the last character backwards. */
  method EndsWithTail(src: array<bv8>, ghost s: bytes, child: bytes) returns (res: int)
    requires HoldsText(src, s) && |child| <= |s|
    ensures res == 0 || res == -1
    ensures res == 0 <==> EndsWith(s, child)
  {
    res := 0;
    var srcLen: int := StrLen(src, s);
    var srcPos: int := srcLen - 1;
    var chPos := |child| - 1;
    while chPos >= 0
      invariant -1 <= chPos < |child| && srcPos == |s| - |child| + chPos
      invariant res == 0 && forall k :: chPos < k < |child| ==> s[|s| - |child| + k] == child[k]
      decreases chPos
    {
      assert src[srcPos] == src[..|s|][srcPos] == s[srcPos];
      if child[chPos] == src[srcPos] {
        chPos := chPos - 1;
        srcPos := srcPos - 1;
      } else {
        assert s[|s| - |child|..][chPos] == s[srcPos];
        return -1;
      }
    }
    assert s[|s| - |child|..] == child;
  }

  /** Strips the first tail of the list that the text ends with. Texts shorter than
      the longest tail could be compared before their start and are the caller's
      error. */
  method DelTailStr(src: array<bv8>, ghost s: bytes) returns (plain: bytes)
    requires HoldsText(src, s) && |s| >= 15
    ensures plain == WithoutTail(s, 1)
  {
    var len := StrLen(src, s);
    var i := 0;
    while i < 15
      invariant 0 <= i <= 15
      invariant WithoutTail(s, 1) == WithoutTail(s, i + 1)
    {
      var res := EndsWithTail(src, s, Tail(i + 1));
      if res == 0 {
        assert src[..len - i - 1] == s[..|s| - (i + 1)];
        return src[..len - i - 1];
      }
      i := i + 1;
    }
    plain := src[..len];
  }
}
