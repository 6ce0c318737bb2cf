/**
 AES_Encrypt and AES_Decrypt: parameter checks, zero padding of text and key, key
 schedule and one block.
 */
module AesApi {
  import opened AesCipher
  import AesKeys
  import R = AesRounds

  const WRONG_NUM_ROUNDS := -1
  const INVALID_PARAMETER := -2

  /** The first 32 bytes of a buffer, padded with zeros. */
  function Padded(s: seq<bv8>): (r: seq<bv8>)
    ensures |r| == 32
  {
    if |s| > 32 then s[..32] else s + seq(32 - |s|, _ => 0)
  }

  /** Key size in words: 4, 6 or 8. */
  function KeyWords(bits: int): nat
    requires bits in {128, 192, 256}
  {
    bits / 32
  }

  function Keys(bits: int, key: seq<bv8>): (r: seq<bv8>)
    requires bits in {128, 192, 256}
    ensures |r| == 240
  {
    AesKeys.RoundKeys(Padded(key), KeyWords(bits), KeyWords(bits) + 6)
  }

  function EncryptBlock(bits: int, plain: seq<bv8>, key: seq<bv8>): R.Block
    requires bits in {128, 192, 256}
  {
    R.Cipher(Padded(plain)[..16], Keys(bits, key), KeyWords(bits) + 6)
  }

  function DecryptBlock(bits: int, text: seq<bv8>, key: seq<bv8>): R.Block
    requires bits in {128, 192, 256}
  {
    R.InvCipher(Padded(text)[..16], Keys(bits, key), KeyWords(bits) + 6)
  }

  lemma PaddedBlock(s: seq<bv8>)
    requires |s| == 16
    ensures Padded(s)[..16] == s
  {
  }

  /** Decrypting an encrypted block with the same key gives the block. */
  lemma DecryptEncrypt(bits: int, plain: seq<bv8>, key: seq<bv8>)
    requires bits in {128, 192, 256}
    ensures DecryptBlock(bits, EncryptBlock(bits, plain, key), key) == Padded(plain)[..16]
    ensures |plain| == 16 ==> DecryptBlock(bits, EncryptBlock(bits, plain, key), key) == plain
  {
    hide Padded, Keys, R.Cipher, R.InvCipher;
    var block := EncryptBlock(bits, plain, key);
    PaddedBlock(block);
    R.InvCipherUndoesCipher(Padded(plain)[..16], Keys(bits, key), KeyWords(bits) + 6);
    if |plain| == 16 {
      PaddedBlock(plain);
    }
  }

  /** An object with the text and key copied in and the key expanded. */
  method Prepare(bits: int, text: seq<bv8>, key: seq<bv8>) returns (g: Global)
    requires bits in {128, 192, 256}
    ensures fresh(g) && g.Shape() && fresh(g.state) && fresh(g.input) && fresh(g.roundKey)
    ensures g.nr == KeyWords(bits) + 6
    ensures g.input[..] == Padded(text) && g.roundKey[..] == Keys(bits, key)
  {
    g := new Global(KeyWords(bits), KeyWords(bits) + 6);
    CopyPadded(g.input, text);
    CopyPadded(g.key, key);
    assert forall b :: 0 <= b < 240 ==> g.roundKey[b] == g.roundKey[..][b];
    g.KeyExpansion();
  }

  /** memcpy of at most 32 bytes over zeros. */
  method CopyPadded(a: array<bv8>, s: seq<bv8>)
    requires a.Length == 32 && a[..] == seq(32, _ => 0)
    modifies a
    ensures a[..] == Padded(s)
  {
    var n := if |s| > 32 then 32 else |s|;
    for i := 0 to n
      invariant forall k :: 0 <= k < i ==> a[k] == s[k]
      invariant forall k :: i <= k < 32 ==> a[k] == a[..][k] == 0
    {
      a[i] := s[i];
    }
  }

  /** The sizes say how much of the buffers is used; a null buffer or a size that
      is not positive is refused. `out` must hold a block. */
  method AesEncrypt(bits: int, plain: array?<bv8>, size: int, skey: array?<bv8>, keySize: int, out: array?<bv8>)
    returns (r: int)
    requires plain != null ==> size <= plain.Length
    requires skey != null ==> keySize <= skey.Length
    requires out != null ==> out.Length >= 16
    modifies out
    ensures bits !in {128, 192, 256} ==> r == WRONG_NUM_ROUNDS
    ensures bits in {128, 192, 256} && (plain == null || skey == null || out == null || size <= 0 || keySize <= 0) ==>
              r == INVALID_PARAMETER
    ensures bits in {128, 192, 256} && plain != null && skey != null && out != null && size > 0 && keySize > 0 ==>
              && r == (if size > 32 then 32 else size)
              && out[..16] == EncryptBlock(bits, old(plain[..size]), old(skey[..keySize]))
              && out[16..] == old(out[16..])
    ensures r < 0 && out != null ==> out[..] == old(out[..])
  {
    hide R.Cipher;
    if bits !in {128, 192, 256} {
      return WRONG_NUM_ROUNDS;
    }
    if plain == null || skey == null || out == null || size <= 0 || keySize <= 0 {
      return INVALID_PARAMETER;
    }
    var g := Prepare(bits, plain[..size], skey[..keySize]);
    g.Cipher(out);
    r := if size > 32 then 32 else size;
  }

  method AesDecrypt(bits: int, text: array?<bv8>, size: int, skey: array?<bv8>, keySize: int, out: array?<bv8>)
    returns (r: int)
    requires text != null ==> size <= text.Length
    requires skey != null ==> keySize <= skey.Length
    requires out != null ==> out.Length >= 16
    modifies out
    ensures bits !in {128, 192, 256} ==> r == WRONG_NUM_ROUNDS
    ensures bits in {128, 192, 256} && (text == null || skey == null || out == null || size <= 0 || keySize <= 0) ==>
              r == INVALID_PARAMETER
    ensures bits in {128, 192, 256} && text != null && skey != null && out != null && size > 0 && keySize > 0 ==>
              && r == (if size > 32 then 32 else size)
              && out[..16] == DecryptBlock(bits, old(text[..size]), old(skey[..keySize]))
              && out[16..] == old(out[16..])
    ensures r < 0 && out != null ==> out[..] == old(out[..])
  {
    hide R.InvCipher;
    if bits !in {128, 192, 256} {
      return WRONG_NUM_ROUNDS;
    }
    if text == null || skey == null || out == null || size <= 0 || keySize <= 0 {
      return INVALID_PARAMETER;
    }
    var g := Prepare(bits, text[..size], skey[..keySize]);
    g.InvCipher(out);
    r := if size > 32 then 32 else size;
  }
}
