/**
 The block cipher and its inverse (FIPS 197, section 5.1 and section 5.3) on a
 state written column by column, for any round count and any round keys, and the
 proof that each undoes the other.
 */
module AesRounds {
  import opened AesField
  import opened AesTables

  /** Byte r of column c is element r + 4c. */
  type Block = s: seq<bv8> | |s| == 16 witness seq(16, _ => 0)

  function SubBytes(s: Block): (t: Block)
    ensures forall i :: 0 <= i < 16 ==> t[i] == Sbox(s[i])
  {
    seq(16, i requires 0 <= i < 16 => Sbox(s[i]))
  }

  function InvSubBytes(s: Block): (t: Block)
    ensures forall i :: 0 <= i < 16 ==> t[i] == InvSbox(s[i])
  {
    seq(16, i requires 0 <= i < 16 => InvSbox(s[i]))
  }

  /** Row r moves r places to the left. */
  function ShiftRows(s: Block): Block {
    [s[0], s[5], s[10], s[15], s[4], s[9], s[14], s[3], s[8], s[13], s[2], s[7], s[12], s[1], s[6], s[11]]
  }

  /** Row r moves r places to the right. */
  function InvShiftRows(s: Block): Block {
    [s[0], s[13], s[10], s[7], s[4], s[1], s[14], s[11], s[8], s[5], s[2], s[15], s[12], s[9], s[6], s[3]]
  }

  function ColumnOf(s: Block, c: nat): Column
    requires c < 4
  {
    Column(s[4 * c], s[4 * c + 1], s[4 * c + 2], s[4 * c + 3])
  }

  function Bytes(x: Column): seq<bv8> {
    [x.a, x.b, x.c, x.d]
  }

  function FromColumns(w: Column, x: Column, y: Column, z: Column): (s: Block)
    ensures ColumnOf(s, 0) == w && ColumnOf(s, 1) == x && ColumnOf(s, 2) == y && ColumnOf(s, 3) == z
  {
    Bytes(w) + Bytes(x) + Bytes(y) + Bytes(z)
  }

  function MixColumns(s: Block): Block {
    FromColumns(Mix(ColumnOf(s, 0)), Mix(ColumnOf(s, 1)), Mix(ColumnOf(s, 2)), Mix(ColumnOf(s, 3)))
  }

  function InvMixColumns(s: Block): Block {
    FromColumns(InvMix(ColumnOf(s, 0)), InvMix(ColumnOf(s, 1)), InvMix(ColumnOf(s, 2)), InvMix(ColumnOf(s, 3)))
  }

  /** Round keys for rounds 0 to n. */
  ghost predicate KeysFor(keys: seq<bv8>, n: nat) {
    |keys| >= 16 * (n + 1)
  }

  function AddRoundKey(s: Block, keys: seq<bv8>, round: nat): (t: Block)
    requires KeysFor(keys, round)
    ensures forall i :: 0 <= i < 16 ==> t[i] == Add(s[i], keys[16 * round + i])
  {
    seq(16, i requires 0 <= i < 16 => Add(s[i], keys[16 * round + i]))
  }

  /** The state after the initial key and n inner rounds. */
  function Rounds(input: Block, keys: seq<bv8>, n: nat): Block
    requires KeysFor(keys, n)
  {
    if n == 0 then AddRoundKey(input, keys, 0)
    else AddRoundKey(MixColumns(ShiftRows(SubBytes(Rounds(input, keys, n - 1)))), keys, n)
  }

  function InnerRounds(nr: nat): nat {
    if nr == 0 then 0 else nr - 1
  }

  function Cipher(input: Block, keys: seq<bv8>, nr: nat): Block
    requires KeysFor(keys, nr)
  {
    AddRoundKey(ShiftRows(SubBytes(Rounds(input, keys, InnerRounds(nr)))), keys, nr)
  }

  /** The state after the last key and the inverse of the inner rounds nr - 1 down to n + 1. */
  function InvRounds(input: Block, keys: seq<bv8>, nr: nat, n: nat): Block
    requires n <= InnerRounds(nr) && KeysFor(keys, nr)
    decreases nr - n
  {
    if n == InnerRounds(nr) then AddRoundKey(input, keys, nr)
    else InvMixColumns(AddRoundKey(InvSubBytes(InvShiftRows(InvRounds(input, keys, nr, n + 1))), keys, n + 1))
  }

  function InvCipher(input: Block, keys: seq<bv8>, nr: nat): Block
    requires KeysFor(keys, nr)
  {
    AddRoundKey(InvSubBytes(InvShiftRows(InvRounds(input, keys, nr, 0))), keys, 0)
  }

  // ----- each layer undone

  lemma SubBytesInverse(s: Block)
    ensures InvSubBytes(SubBytes(s)) == s
    ensures SubBytes(InvSubBytes(s)) == s
  {
    hide Sbox, InvSbox;
    forall i | 0 <= i < 16
      ensures InvSubBytes(SubBytes(s))[i] == s[i]
      ensures SubBytes(InvSubBytes(s))[i] == s[i]
    {
      TablesInverse(s[i]);
    }
  }

  lemma ShiftRowsInverse(s: Block)
    ensures InvShiftRows(ShiftRows(s)) == s
    ensures ShiftRows(InvShiftRows(s)) == s
  {
  }

  lemma ColumnsDetermine(s: Block, t: Block)
    requires forall c :: 0 <= c < 4 ==> ColumnOf(s, c) == ColumnOf(t, c)
    ensures s == t
  {
    assert ColumnOf(s, 0) == ColumnOf(t, 0) && ColumnOf(s, 1) == ColumnOf(t, 1);
    assert ColumnOf(s, 2) == ColumnOf(t, 2) && ColumnOf(s, 3) == ColumnOf(t, 3);
  }

  lemma MixColumnsInverse(s: Block)
    ensures InvMixColumns(MixColumns(s)) == s
    ensures MixColumns(InvMixColumns(s)) == s
  {
    hide Mix, InvMix, FromColumns;
    forall c | 0 <= c < 4
      ensures ColumnOf(InvMixColumns(MixColumns(s)), c) == ColumnOf(s, c)
      ensures ColumnOf(MixColumns(InvMixColumns(s)), c) == ColumnOf(s, c)
    {
      MixInverse(ColumnOf(s, c));
      InvMixInverse(ColumnOf(s, c));
    }
    ColumnsDetermine(InvMixColumns(MixColumns(s)), s);
    ColumnsDetermine(MixColumns(InvMixColumns(s)), s);
  }

  lemma AddTwice(x: bv8, k: bv8)
    ensures Add(Add(x, k), k) == x
  {
  }

  lemma AddRoundKeyInverse(s: Block, keys: seq<bv8>, round: nat)
    requires KeysFor(keys, round)
    ensures AddRoundKey(AddRoundKey(s, keys, round), keys, round) == s
  {
    hide Add;
    forall i | 0 <= i < 16 ensures AddRoundKey(AddRoundKey(s, keys, round), keys, round)[i] == s[i] {
      AddTwice(s[i], keys[16 * round + i]);
    }
  }

  // ----- the cipher undone

  /** Deciphering passes through the states of enciphering, backwards. */
  lemma {:induction false} BackThroughRounds(input: Block, keys: seq<bv8>, nr: nat, n: nat)
    requires n <= InnerRounds(nr) && KeysFor(keys, nr)
    ensures InvRounds(Cipher(input, keys, nr), keys, nr, n) == ShiftRows(SubBytes(Rounds(input, keys, n)))
    decreases nr - n
  {
    hide SubBytes, ShiftRows, MixColumns, InvMixColumns, InvSubBytes, InvShiftRows, AddRoundKey;
    if n == InnerRounds(nr) {
      AddRoundKeyInverse(ShiftRows(SubBytes(Rounds(input, keys, n))), keys, nr);
    } else {
      BackThroughRounds(input, keys, nr, n + 1);
      var before := ShiftRows(SubBytes(Rounds(input, keys, n)));
      var after := Rounds(input, keys, n + 1);
      assert after == AddRoundKey(MixColumns(before), keys, n + 1);
      ShiftRowsInverse(SubBytes(after));
      SubBytesInverse(after);
      AddRoundKeyInverse(MixColumns(before), keys, n + 1);
      MixColumnsInverse(before);
    }
  }

  /** Deciphering undoes enciphering, for every block, round count and key array. */
  lemma InvCipherUndoesCipher(input: Block, keys: seq<bv8>, nr: nat)
    requires KeysFor(keys, nr)
    ensures InvCipher(Cipher(input, keys, nr), keys, nr) == input
  {
    hide SubBytes, ShiftRows, InvSubBytes, InvShiftRows, AddRoundKey, Rounds, InvRounds;
    BackThroughRounds(input, keys, nr, 0);
    var first := Rounds(input, keys, 0);
    assert first == AddRoundKey(input, keys, 0) by {
      RoundZero(input, keys);
    }
    ShiftRowsInverse(SubBytes(first));
    SubBytesInverse(first);
    AddRoundKeyInverse(input, keys, 0);
  }

  lemma RoundZero(input: Block, keys: seq<bv8>)
    requires KeysFor(keys, 0)
    ensures Rounds(input, keys, 0) == AddRoundKey(input, keys, 0)
  {
  }

  lemma {:induction false} ForthThroughRounds(output: Block, keys: seq<bv8>, nr: nat, n: nat)
    requires n <= InnerRounds(nr) && KeysFor(keys, nr)
    ensures ShiftRows(SubBytes(Rounds(InvCipher(output, keys, nr), keys, n))) == InvRounds(output, keys, nr, n)
  {
    hide SubBytes, ShiftRows, MixColumns, InvMixColumns, InvSubBytes, InvShiftRows, AddRoundKey;
    var back := InvRounds(output, keys, nr, n);
    ShiftRowsInverse(back);
    SubBytesInverse(InvShiftRows(back));
    if n == 0 {
      AddRoundKeyInverse(InvSubBytes(InvShiftRows(back)), keys, 0);
    } else {
      ForthThroughRounds(output, keys, nr, n - 1);
      var keyed := AddRoundKey(InvSubBytes(InvShiftRows(back)), keys, n);
      assert InvRounds(output, keys, nr, n - 1) == InvMixColumns(keyed);
      MixColumnsInverse(keyed);
      AddRoundKeyInverse(InvSubBytes(InvShiftRows(back)), keys, n);
    }
  }

  /** Enciphering undoes deciphering: the cipher is a permutation of the blocks. */
  lemma CipherUndoesInvCipher(output: Block, keys: seq<bv8>, nr: nat)
    requires KeysFor(keys, nr)
    ensures Cipher(InvCipher(output, keys, nr), keys, nr) == output
  {
    hide SubBytes, ShiftRows, AddRoundKey, Rounds, InvCipher;
    ForthThroughRounds(output, keys, nr, InnerRounds(nr));
    AddRoundKeyInverse(output, keys, nr);
  }
}
