/**
 Encryption of whole texts: block by block through static buffers, the last block
 filled up with a tail that names its own length.
 */
module AesUtils {
  import opened AesApi
  import R = AesRounds

  const ENC_SIZE: nat := 72000
  const DEC_SIZE: nat := 8000

  type bytes = seq<bv8>

  // ----- blocks

  /** `f` applied to every block of 16. */
  function MapBlocks(f: R.Block -> R.Block, data: bytes): (r: bytes)
    requires |data| % 16 == 0
    ensures |r| == |data|
  {
    seq(|data|, j requires 0 <= j < |data| => f(BlockAt(data, j / 16))[j % 16])
  }

  function BlockAt(data: bytes, k: nat): R.Block
    requires 16 * k + 16 <= |data|
  {
    data[16 * k..16 * k + 16]
  }

  lemma MapBlocksAt(f: R.Block -> R.Block, data: bytes, k: nat)
    requires |data| % 16 == 0 && 16 * k + 16 <= |data|
    ensures BlockAt(MapBlocks(f, data), k) == f(BlockAt(data, k))
  {
    forall j | 0 <= j < 16 ensures BlockAt(MapBlocks(f, data), k)[j] == f(BlockAt(data, k))[j] {
      assert (16 * k + j) / 16 == k && (16 * k + j) % 16 == j;
    }
  }

  lemma MapBlocksInverse(f: R.Block -> R.Block, g: R.Block -> R.Block, data: bytes)
    requires |data| % 16 == 0
    requires forall b :: g(f(b)) == b
    ensures MapBlocks(g, MapBlocks(f, data)) == data
  {
    forall j | 0 <= j < |data| ensures MapBlocks(g, MapBlocks(f, data))[j] == data[j] {
      MapBlocksAt(f, data, j / 16);
      assert BlockAt(data, j / 16)[j % 16] == data[j];
    }
  }

  function Enc(key: bytes): R.Block -> R.Block {
    b => EncryptBlock(128, b, key)
  }

  function Dec(key: bytes): R.Block -> R.Block {
    b => DecryptBlock(128, b, key)
  }

  // ----- tails

  /** The character of the tail of length k: '1' to '9', then 'A' to 'F'. */
  function TailChar(k: nat): bv8
    requires 1 <= k <= 15
  {
    match k
    case 1 => 0x31 case 2 => 0x32 case 3 => 0x33 case 4 => 0x34 case 5 => 0x35
    case 6 => 0x36 case 7 => 0x37 case 8 => 0x38 case 9 => 0x39 case 10 => 0x41
    case 11 => 0x42 case 12 => 0x43 case 13 => 0x44 case 14 => 0x45 case 15 => 0x46
  }

  function Tail(k: nat): (t: bytes)
    requires 1 <= k <= 15
    ensures |t| == k
  {
    seq(k, _ => TailChar(k))
  }

  /** The character is the hexadecimal digit for the length, in capitals. */
  lemma TailCharIsDigit(k: nat)
    requires 1 <= k <= 15
    ensures TailChar(k) == ((if k < 10 then '0' as int + k else 'A' as int + k - 10) as bv8)
  {
  }

  lemma TailCharsDiffer(j: nat, k: nat)
    requires 1 <= j <= 15 && 1 <= k <= 15
    ensures TailChar(j) == TailChar(k) <==> j == k
    ensures TailChar(k) != 0
  {
  }

  function PaddedLength(n: nat): nat {
    if n % 16 == 0 then n else n + (16 - n % 16)
  }

  /** A text with its tail; a whole number of blocks gets none. */
  function WithTail(s: bytes): (r: bytes)
    ensures |r| == PaddedLength(|s|) && |r| % 16 == 0
    ensures s <= r
  {
    if |s| % 16 == 0 then s else s + Tail(16 - |s| % 16)
  }

  predicate EndsWith(s: bytes, child: bytes) {
    |child| <= |s| && s[|s| - |child|..] == child
  }

  predicate HasTail(s: bytes, k: nat)
    requires 1 <= k <= 15
  {
    EndsWith(s, Tail(k))
  }

  /** The text without the first tail of the list that it ends with. */
  function WithoutTail(s: bytes, k: nat): bytes
    requires 1 <= k <= 16
    decreases 16 - k
  {
    if k == 16 then s
    else if HasTail(s, k) then s[..|s| - k]
    else WithoutTail(s, k + 1)
  }

  lemma TailAtEnd(s: bytes, k: nat)
    requires 1 <= k <= 15 && HasTail(s, k)
    ensures |s| > 0 && s[|s| - 1] == TailChar(k)
  {
    assert s[|s| - 1] == s[|s| - k..][k - 1];
  }

  lemma AppendedTail(s: bytes, k: nat, j: nat)
    requires 1 <= k <= 15 && 1 <= j <= 15
    ensures HasTail(s + Tail(k), j) <==> j == k
  {
    var t := s + Tail(k);
    assert t[|t| - k..] == Tail(k);
    assert t[|t| - 1] == TailChar(k);
    TailCharsDiffer(j, k);
    if HasTail(t, j) {
      TailAtEnd(t, j);
    }
  }

  lemma {:induction false} AppendedTailRemoved(s: bytes, k: nat, j: nat)
    requires 1 <= j <= k <= 15
    ensures WithoutTail(s + Tail(k), j) == s
    decreases k - j
  {
    AppendedTail(s, k, j);
    if j < k {
      AppendedTailRemoved(s, k, j + 1);
    } else {
      assert (s + Tail(k))[..|s|] == s;
    }
  }

  lemma TailFits(s: bytes, k: nat)
    requires 1 <= k <= 15
    ensures HasTail(s, k) ==> k <= |s|
  {
  }

  lemma {:induction false} NothingRemoved(s: bytes, k: nat)
    requires 1 <= k <= 16
    ensures WithoutTail(s, k) == s <==> forall j :: k <= j <= 15 ==> !HasTail(s, j)
    decreases 16 - k
  {
    hide HasTail;
    if k < 16 {
      TailFits(s, k);
      NothingRemoved(s, k + 1);
    }
  }

  /** Removing the tail gives the text back unless the text fills whole blocks and
      itself ends with one of the tails. */
  lemma TailRoundTrip(s: bytes)
    ensures WithoutTail(WithTail(s), 1) == s <==>
            |s| % 16 != 0 || forall k :: 1 <= k <= 15 ==> !HasTail(s, k)
  {
    if |s| % 16 != 0 {
      AppendedTailRemoved(s, 16 - |s| % 16, 1);
    } else {
      NothingRemoved(s, 1);
    }
  }

  /** A text of one block for which the round trip fails. */
  lemma TailRoundTripFails()
    ensures var s := seq(16, _ => TailChar(1)); WithoutTail(WithTail(s), 1) == s[..15] != s
  {
    var s: bytes := seq(16, _ => TailChar(1));
    assert s[15..] == Tail(1);
    assert HasTail(s, 1);
  }

  /** Decrypting what was encrypted gives the text and its tail. */
  lemma DecryptEncryptText(s: bytes, key: bytes)
    ensures MapBlocks(Dec(key), MapBlocks(Enc(key), WithTail(s))) == WithTail(s)
  {
    hide EncryptBlock, DecryptBlock;
    forall b: R.Block ensures Dec(key)(Enc(key)(b)) == b {
      DecryptEncrypt(128, b, key);
    }
    MapBlocksInverse(Enc(key), Dec(key), WithTail(s));
  }
}
