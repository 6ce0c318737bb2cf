/**
 The cipher object of the code: every layer is an in-place loop over state[4][4] or
 RoundKey[240]. Each method is proved against the functions of AesRounds and
 AesKeys.
 */
module AesKeys {
  import opened AesField
  import opened AesTables

  datatype Word = Word(b0: bv8, b1: bv8, b2: bv8, b3: bv8)

  function AddWords(x: Word, y: Word): Word {
    Word(Add(x.b0, y.b0), Add(x.b1, y.b1), Add(x.b2, y.b2), Add(x.b3, y.b3))
  }

  function RotWord(w: Word): Word {
    Word(w.b1, w.b2, w.b3, w.b0)
  }

  function SubWord(w: Word): Word {
    Word(Sbox(w.b0), Sbox(w.b1), Sbox(w.b2), Sbox(w.b3))
  }

  function Rcon(k: nat): Word {
    Word(if k < |RCON| then RCON[k] else 0, 0, 0, 0)
  }

  function ByteOf(w: Word, k: nat): bv8
    requires k < 4
  {
    match k case 0 => w.b0 case 1 => w.b1 case 2 => w.b2 case _ => w.b3
  }

  /** Word i of the expanded key (FIPS 197, section 5.2). */
  function KeyWord(key: seq<bv8>, nk: nat, i: nat): Word
    requires nk > 0 && |key| >= 4 * nk
  {
    if i < nk then Word(key[4 * i], key[4 * i + 1], key[4 * i + 2], key[4 * i + 3])
    else
      var temp := KeyWord(key, nk, i - 1);
      var mixed :=
        if i % nk == 0 then AddWords(SubWord(RotWord(temp)), Rcon(i / nk))
        else if nk > 6 && i % nk == 4 then SubWord(temp)
        else temp;
      AddWords(KeyWord(key, nk, i - nk), mixed)
  }

  /** The contents of RoundKey[240] for nr rounds: what lies beyond is zero. */
  function RoundKeys(key: seq<bv8>, nk: nat, nr: nat): (r: seq<bv8>)
    requires nk > 0 && |key| >= 4 * nk
    ensures |r| == 240
  {
    seq(240, b requires 0 <= b < 240 => if b < 16 * (nr + 1) then ByteOf(KeyWord(key, nk, b / 4), b % 4) else 0)
  }
}

module AesCipher {
  import opened AesField
  import opened AesKeys
  import opened AesMacros
  import opened AesTables
  import R = AesRounds

  class Global {
    var nr: nat
    var nk: nat
    const key: array<bv8>
    const input: array<bv8>
    const state: array2<bv8>
    const roundKey: array<bv8>

    ghost predicate Shape() {
      key.Length == 32 && input.Length == 32 && roundKey.Length == 240
      && state.Length0 == 4 && state.Length1 == 4
      && key != input && key != roundKey && input != roundKey
    }

    /** The state array, column by column. */
    ghost function State(): R.Block
      requires Shape()
      reads state
    {
      [state[0, 0], state[1, 0], state[2, 0], state[3, 0], state[0, 1], state[1, 1], state[2, 1], state[3, 1],
       state[0, 2], state[1, 2], state[2, 2], state[3, 2], state[0, 3], state[1, 3], state[2, 3], state[3, 3]]
    }

    /** A zeroed object, as memset leaves it. */
    constructor (nk: nat, nr: nat)
      ensures Shape() && this.nk == nk && this.nr == nr
      ensures fresh(key) && fresh(input) && fresh(state) && fresh(roundKey)
      ensures key[..] == seq(32, _ => 0) && input[..] == seq(32, _ => 0) && roundKey[..] == seq(240, _ => 0)
    {
      this.nk, this.nr := nk, nr;
      key := new bv8[32](_ => 0);
      input := new bv8[32](_ => 0);
      state := new bv8[4, 4]((_, _) => 0);
      roundKey := new bv8[240](_ => 0);
    }

    method Set(r: nat, c: nat, v: bv8)
      requires Shape() && r < 4 && c < 4
      modifies state
      ensures State() == old(State())[r + 4 * c := v]
    {
      state[r, c] := v;
    }

    method Get(r: nat, c: nat) returns (v: bv8)
      requires Shape() && r < 4 && c < 4
      ensures v == State()[r + 4 * c]
    {
      v := state[r, c];
    }

    method AddRoundKey(round: nat)
      requires Shape() && R.KeysFor(roundKey[..], round)
      modifies state
      ensures State() == R.AddRoundKey(old(State()), roundKey[..], round)
    {
      hide Add, State;
      var x := round * 4 * 4;
      ghost var s := State();
      for i := 0 to 4
        invariant forall k :: 0 <= k < 4 * i ==> State()[k] == Add(s[k], roundKey[x + k])
        invariant forall k :: 4 * i <= k < 16 ==> State()[k] == s[k]
      {
        var y := i * 4;
        for j := 0 to 4
          invariant forall k :: 0 <= k < y + j ==> State()[k] == Add(s[k], roundKey[x + k])
          invariant forall k :: y + j <= k < 16 ==> State()[k] == s[k]
        {
          var v := Get(j, i);
          Set(j, i, Add(v, roundKey[x + y + j]));
        }
      }
    }

    method SubBytes()
      requires Shape()
      modifies state
      ensures State() == R.SubBytes(old(State()))
    {
      hide Sbox, State;
      ghost var s := State();
      for i := 0 to 4
        invariant forall k :: 0 <= k < 16 ==> State()[k] == if k % 4 < i then Sbox(s[k]) else s[k]
      {
        for j := 0 to 4
          invariant forall k :: 0 <= k < 16 ==>
            State()[k] == if k % 4 < i || (k % 4 == i && k / 4 < j) then Sbox(s[k]) else s[k]
        {
          var v := Get(i, j);
          Set(i, j, Sbox(v));
        }
      }
    }

    method InvSubBytes()
      requires Shape()
      modifies state
      ensures State() == R.InvSubBytes(old(State()))
    {
      hide InvSbox, State;
      ghost var s := State();
      for i := 0 to 4
        invariant forall k :: 0 <= k < 16 ==> State()[k] == if k % 4 < i then InvSbox(s[k]) else s[k]
      {
        for j := 0 to 4
          invariant forall k :: 0 <= k < 16 ==>
            State()[k] == if k % 4 < i || (k % 4 == i && k / 4 < j) then InvSbox(s[k]) else s[k]
        {
          var v := Get(i, j);
          Set(i, j, InvSbox(v));
        }
      }
    }

    method ShiftRows()
      requires Shape()
      modifies state
      ensures State() == R.ShiftRows(old(State()))
    {
      var temp := state[1, 0];
      state[1, 0] := state[1, 1];
      state[1, 1] := state[1, 2];
      state[1, 2] := state[1, 3];
      state[1, 3] := temp;

      temp := state[2, 0];
      state[2, 0] := state[2, 2];
      state[2, 2] := temp;
      temp := state[2, 1];
      state[2, 1] := state[2, 3];
      state[2, 3] := temp;

      temp := state[3, 0];
      state[3, 0] := state[3, 3];
      state[3, 3] := state[3, 2];
      state[3, 2] := state[3, 1];
      state[3, 1] := temp;
    }

    method InvShiftRows()
      requires Shape()
      modifies state
      ensures State() == R.InvShiftRows(old(State()))
    {
      var temp := state[1, 0];
      state[1, 0] := state[1, 3];
      state[1, 3] := state[1, 2];
      state[1, 2] := state[1, 1];
      state[1, 1] := temp;

      temp := state[2, 0];
      state[2, 0] := state[2, 2];
      state[2, 2] := temp;
      temp := state[2, 1];
      state[2, 1] := state[2, 3];
      state[2, 3] := temp;

      temp := state[3, 0];
      state[3, 0] := state[3, 1];
      state[3, 1] := state[3, 2];
      state[3, 2] := state[3, 3];
      state[3, 3] := temp;
    }

    ghost function Col(c: nat): Column
      requires Shape() && c < 4
      reads state
    {
      Column(state[0, c], state[1, c], state[2, c], state[3, c])
    }

    method MixColumn(i: nat)
      requires Shape() && i < 4
      modifies state
      ensures Col(i) == Mix(old(Col(i)))
      ensures forall c :: 0 <= c < 4 && c != i ==> Col(c) == old(Col(c))
    {
      hide Add, Sum4, Double, Mul3, Mix;
      MixAsCoded(Col(i));
      var t := state[0, i];
      var tmp := Sum4(state[0, i], state[1, i], state[2, i], state[3, i]);
      var tm := Add(state[0, i], state[1, i]);
      tm := StoredXtimeOf(tm);
      state[0, i] := Add(state[0, i], Add(tm, tmp));
      tm := Add(state[1, i], state[2, i]);
      tm := StoredXtimeOf(tm);
      state[1, i] := Add(state[1, i], Add(tm, tmp));
      tm := Add(state[2, i], state[3, i]);
      tm := StoredXtimeOf(tm);
      state[2, i] := Add(state[2, i], Add(tm, tmp));
      tm := Add(state[3, i], t);
      tm := StoredXtimeOf(tm);
      state[3, i] := Add(state[3, i], Add(tm, tmp));
    }

    lemma Columns()
      requires Shape()
      ensures forall c :: 0 <= c < 4 ==> Col(c) == R.ColumnOf(State(), c)
    {
    }

    method MixColumns()
      requires Shape()
      modifies state
      ensures State() == R.MixColumns(old(State()))
    {
      hide Mix, Col, State;
      ghost var s := State();
      Columns();
      for i := 0 to 4
        invariant forall c :: 0 <= c < 4 ==> Col(c) == if c < i then Mix(R.ColumnOf(s, c)) else R.ColumnOf(s, c)
      {
        MixColumn(i);
      }
      Columns();
      MixedColumns(s, State());
    }

    method InvMixColumn(i: nat)
      requires Shape() && i < 4
      modifies state
      ensures Col(i) == InvMix(old(Col(i)))
      ensures forall c :: 0 <= c < 4 && c != i ==> Col(c) == old(Col(c))
    {
      hide Stored, InvMixInt, Sum4, Mul9, MulB, MulD, MulE;
      var a := state[0, i];
      var b := state[1, i];
      var c := state[2, i];
      var d := state[3, i];
      StoredInvMix(a, b, c, d);
      StoredInvMix(b, c, d, a);
      StoredInvMix(c, d, a, b);
      StoredInvMix(d, a, b, c);
      RotatedInvMix(a, b, c, d);
      state[0, i] := Stored(InvMixInt(a, b, c, d));
      state[1, i] := Stored(InvMixInt(b, c, d, a));
      state[2, i] := Stored(InvMixInt(c, d, a, b));
      state[3, i] := Stored(InvMixInt(d, a, b, c));
    }

    method InvMixColumns()
      requires Shape()
      modifies state
      ensures State() == R.InvMixColumns(old(State()))
    {
      hide InvMix, Col, State;
      ghost var s := State();
      Columns();
      for i := 0 to 4
        invariant forall c :: 0 <= c < 4 ==> Col(c) == if c < i then InvMix(R.ColumnOf(s, c)) else R.ColumnOf(s, c)
      {
        InvMixColumn(i);
      }
      Columns();
      UnmixedColumns(s, State());
    }

    ghost function WordAt(j: nat): Word
      requires Shape() && j < 60
      reads roundKey
    {
      Word(roundKey[4 * j], roundKey[4 * j + 1], roundKey[4 * j + 2], roundKey[4 * j + 3])
    }

    /** The first n words are expanded, the rest is still zero. */
    ghost predicate Expanded(n: nat)
      requires Shape() && 0 < nk <= 8 && n <= 60
      reads this, key, roundKey
    {
      && (forall j :: 0 <= j < n ==> WordAt(j) == KeyWord(key[..], nk, j))
      && (forall b :: 4 * n <= b < 240 ==> roundKey[b] == 0)
    }

    method CopyKey()
      requires Shape() && 0 < nk <= 8
      requires forall b :: 0 <= b < 240 ==> roundKey[b] == 0
      modifies roundKey
      ensures Expanded(nk)
    {
      var n := nk * 4;
      for i := 0 to n
        invariant forall b :: 0 <= b < i ==> roundKey[b] == key[b]
        invariant forall b :: i <= b < 240 ==> roundKey[b] == 0
      {
        roundKey[i] := key[i];
      }
    }

    /** The previous word, rotated, substituted or left as it is. */
    method MixedTemp(i: nat) returns (temp: Word)
      requires Shape() && nk in {4, 6, 8} && nk <= i < 60 && i / nk <= 10
      ensures temp == var w := WordAt(i - 1);
        if i % nk == 0 then AddWords(SubWord(RotWord(w)), Rcon(i / nk))
        else if nk > 6 && i % nk == 4 then SubWord(w)
        else w
    {
      hide Sbox, Add;
      var x := (i - 1) * 4;
      var t0, t1, t2, t3 := roundKey[x], roundKey[x + 1], roundKey[x + 2], roundKey[x + 3];
      if i % nk == 0 {
        var k := t0;
        t0 := t1;
        t1 := t2;
        t2 := t3;
        t3 := k;
        t0 := Sbox(t0);
        t1 := Sbox(t1);
        t2 := Sbox(t2);
        t3 := Sbox(t3);
        t0 := Add(t0, RCON[i / nk]);
        AddZero(t1); AddZero(t2); AddZero(t3);
      } else if nk > 6 && i % nk == 4 {
        t0 := Sbox(t0);
        t1 := Sbox(t1);
        t2 := Sbox(t2);
        t3 := Sbox(t3);
      }
      temp := Word(t0, t1, t2, t3);
    }

    method NextWord(i: nat)
      requires Shape() && nk in {4, 6, 8} && nk <= i < 60 && i / nk <= 10
      requires Expanded(i)
      modifies roundKey
      ensures Expanded(i + 1)
    {
      hide AddWords, SubWord, RotWord, Rcon;
      var temp := MixedTemp(i);
      ghost var word := AddWords(WordAt(i - nk), temp);
      NextKeyWord(i, temp, word);
      StoreWord(i, temp, word);
    }

    lemma NextKeyWord(i: nat, temp: Word, word: Word)
      requires Shape() && nk in {4, 6, 8} && nk <= i < 60 && Expanded(i)
      requires temp == var w := WordAt(i - 1);
        if i % nk == 0 then AddWords(SubWord(RotWord(w)), Rcon(i / nk))
        else if nk > 6 && i % nk == 4 then SubWord(w)
        else w
      requires word == AddWords(WordAt(i - nk), temp)
      ensures word == KeyWord(key[..], nk, i)
    {
      hide AddWords, SubWord, RotWord, Rcon, WordAt;
      assert WordAt(i - 1) == KeyWord(key[..], nk, i - 1);
      assert WordAt(i - nk) == KeyWord(key[..], nk, i - nk);
    }

    method StoreWord(i: nat, temp: Word, ghost word: Word)
      requires Shape() && nk in {4, 6, 8} && nk <= i < 60 && Expanded(i)
      requires word == AddWords(WordAt(i - nk), temp) == KeyWord(key[..], nk, i)
      modifies roundKey
      ensures Expanded(i + 1)
    {
      hide Add, KeyWord;
      var y := i * 4;
      var z := (i - nk) * 4;
      roundKey[y] := Add(roundKey[z], temp.b0);
      roundKey[y + 1] := Add(roundKey[z + 1], temp.b1);
      roundKey[y + 2] := Add(roundKey[z + 2], temp.b2);
      roundKey[y + 3] := Add(roundKey[z + 3], temp.b3);
      assert WordAt(i) == word;
      WordsKept(i);
    }

    /** Words read from bytes that have not changed. */
    twostate lemma WordsKept(i: nat)
      requires Shape() && i <= 60
      requires forall b :: 0 <= b < 4 * i ==> roundKey[b] == old(roundKey[b])
      ensures forall j :: 0 <= j < i ==> WordAt(j) == old(WordAt(j))
    {
    }

    method KeyExpansion()
      requires Shape() && nk in {4, 6, 8} && nr == nk + 6
      requires forall b :: 0 <= b < 240 ==> roundKey[b] == 0
      modifies roundKey
      ensures roundKey[..] == RoundKeys(key[..], nk, nr)
    {
      hide Expanded;
      CopyKey();
      var n := 4 * (nr + 1);
      for i := nk to n
        invariant Expanded(i)
      {
        NextWord(i);
      }
      ExpandedAll(n);
    }

    lemma ExpandedAll(n: nat)
      requires Shape() && 0 < nk <= 8 && n == 4 * (nr + 1) <= 60 && Expanded(n)
      ensures roundKey[..] == RoundKeys(key[..], nk, nr)
    {
      hide KeyWord;
      forall b | 0 <= b < 240 ensures roundKey[b] == RoundKeys(key[..], nk, nr)[b] {
        if b < 4 * n {
          assert WordAt(b / 4) == KeyWord(key[..], nk, b / 4);
          assert roundKey[4 * (b / 4) + b % 4] == ByteOf(WordAt(b / 4), b % 4);
        }
      }
    }

    method LoadState()
      requires Shape()
      modifies state
      ensures State() == input[..16]
    {
      hide State;
      var x := 0;
      for i := 0 to 4
        invariant x == 4 * i
        invariant forall k :: 0 <= k < x ==> State()[k] == input[k]
      {
        for j := 0 to 4
          invariant x == 4 * i + j
          invariant forall k :: 0 <= k < x ==> State()[k] == input[k]
        {
          Set(j, i, input[x]);
          x := x + 1;
        }
      }
    }

    method StoreState(out: array<bv8>)
      requires Shape() && out.Length >= 16
      modifies out
      ensures out[..16] == State()
      ensures out[16..] == old(out[16..])
    {
      hide State;
      var x := 0;
      for i := 0 to 4
        invariant x == 4 * i
        invariant forall k :: 0 <= k < x ==> out[k] == State()[k]
        invariant out[16..] == old(out[16..])
      {
        for j := 0 to 4
          invariant x == 4 * i + j
          invariant forall k :: 0 <= k < x ==> out[k] == State()[k]
          invariant out[16..] == old(out[16..])
        {
          out[x] := Get(j, i);
          x := x + 1;
        }
      }
    }

    /** One inner round. */
    method Round(round: nat)
      requires Shape() && R.KeysFor(roundKey[..], round)
      modifies state
      ensures State() == R.AddRoundKey(R.MixColumns(R.ShiftRows(R.SubBytes(old(State())))), roundKey[..], round)
    {
      hide State, R.SubBytes, R.ShiftRows, R.MixColumns, R.AddRoundKey;
      SubBytes();
      ShiftRows();
      MixColumns();
      AddRoundKey(round);
    }

    /** The loop over the inner rounds, behind the first round key. */
    method InnerRounds(ghost block: R.Block)
      requires Shape() && nr <= 14 && State() == R.AddRoundKey(block, roundKey[..], 0)
      modifies state
      ensures State() == R.Rounds(block, roundKey[..], R.InnerRounds(nr))
    {
      hide State, R.SubBytes, R.ShiftRows, R.MixColumns, R.AddRoundKey;
      var round := 1;
      while round < nr
        invariant 1 <= round && R.InnerRounds(nr) >= round - 1
        invariant State() == R.Rounds(block, roundKey[..], round - 1)
      {
        Round(round);
        round := round + 1;
      }
    }

    method Cipher(out: array<bv8>)
      requires Shape() && out.Length >= 16 && nr <= 14
      requires out != roundKey && out != input
      modifies state, out
      ensures out[..16] == R.Cipher(input[..16], roundKey[..], nr)
      ensures out[16..] == old(out[16..])
    {
      hide State, R.SubBytes, R.ShiftRows, R.MixColumns, R.AddRoundKey, R.Rounds;
      ghost var block: R.Block := input[..16];
      LoadState();
      AddRoundKey(0);
      InnerRounds(block);
      SubBytes();
      ShiftRows();
      AddRoundKey(nr);
      StoreState(out);
    }

    /** One inner round backwards. */
    method InvRound(round: nat)
      requires Shape() && R.KeysFor(roundKey[..], round)
      modifies state
      ensures State() ==
              R.InvMixColumns(R.AddRoundKey(R.InvSubBytes(R.InvShiftRows(old(State()))), roundKey[..], round))
    {
      hide State, R.InvSubBytes, R.InvShiftRows, R.InvMixColumns, R.AddRoundKey;
      InvShiftRows();
      InvSubBytes();
      AddRoundKey(round);
      InvMixColumns();
    }

    /** The loop over the inner rounds backwards, behind the last round key. */
    method InvInnerRounds(ghost block: R.Block)
      requires Shape() && nr <= 14 && State() == R.AddRoundKey(block, roundKey[..], nr)
      modifies state
      ensures State() == R.InvRounds(block, roundKey[..], nr, 0)
    {
      hide State, R.InvSubBytes, R.InvShiftRows, R.InvMixColumns, R.AddRoundKey;
      var round := nr - 1;
      while round > 0
        invariant round <= nr - 1
        invariant State() == R.InvRounds(block, roundKey[..], nr, if round < 0 then 0 else round)
      {
        InvRound(round);
        round := round - 1;
      }
    }

    method InvCipher(out: array<bv8>)
      requires Shape() && out.Length >= 16 && nr <= 14
      requires out != roundKey && out != input
      modifies state, out
      ensures out[..16] == R.InvCipher(input[..16], roundKey[..], nr)
      ensures out[16..] == old(out[16..])
    {
      hide State, R.InvSubBytes, R.InvShiftRows, R.InvMixColumns, R.AddRoundKey, R.InvRounds;
      ghost var block: R.Block := input[..16];
      LoadState();
      AddRoundKey(nr);
      InvInnerRounds(block);
      InvShiftRows();
      InvSubBytes();
      AddRoundKey(0);
      StoreState(out);
    }
  }

  method StoredXtimeOf(x: bv8) returns (r: bv8)
    ensures r == Double(x)
  {
    hide Double, Stored, Xtime, Int;
    r := Stored(Xtime(Int(x)));
    StoredXtime(Int(x));
    StoredInt(x);
  }

  lemma MixedColumns(s: R.Block, t: R.Block)
    requires forall c :: 0 <= c < 4 ==> R.ColumnOf(t, c) == Mix(R.ColumnOf(s, c))
    ensures t == R.MixColumns(s)
  {
    hide Mix;
    assert forall c :: 0 <= c < 4 ==> R.ColumnOf(t, c) == R.ColumnOf(R.MixColumns(s), c);
    R.ColumnsDetermine(t, R.MixColumns(s));
  }

  lemma UnmixedColumns(s: R.Block, t: R.Block)
    requires forall c :: 0 <= c < 4 ==> R.ColumnOf(t, c) == InvMix(R.ColumnOf(s, c))
    ensures t == R.InvMixColumns(s)
  {
    hide InvMix;
    assert forall c :: 0 <= c < 4 ==> R.ColumnOf(t, c) == R.ColumnOf(R.InvMixColumns(s), c);
    R.ColumnsDetermine(t, R.InvMixColumns(s));
  }

  lemma AddCommutes(x: bv8, y: bv8)
    ensures Add(x, y) == Add(y, x)
  {
  }

  lemma AddSelf(x: bv8)
    ensures Add(x, x) == 0
  {
  }

  lemma AddLaws(x: bv8, y: bv8, z: bv8)
    ensures Add(x, y) == Add(y, x)
    ensures Add(Add(x, y), z) == Add(x, Add(y, z))
    ensures Add(x, Add(x, y)) == y
  {
    hide Add;
    AddCommutes(x, y);
    AddZero(x); AddZero(y); AddZero(z);
    Swap(x, y, 0, z);
    Swap(x, x, 0, y);
    AddSelf(x);
  }

  /** One byte of a mixed column as the code computes it: the sum of all four bytes
      and {02} times a sum of two. */
  lemma MixByteAsCoded(a: bv8, b: bv8, c: bv8, d: bv8)
    ensures Add(a, Add(Double(Add(a, b)), Sum4(a, b, c, d))) == Sum4(Double(a), Mul3(b), c, d)
  {
    hide Add, Double;
    var p, q := Double(a), Double(b);
    DoubleAdd(a, b);
    var y := Add(Add(b, c), d);
    AddLaws(a, b, c); AddLaws(a, Add(b, c), d);
    assert Sum4(a, b, c, d) == Add(a, y);
    var e := Add(p, q);
    AddLaws(e, a, y); AddLaws(a, e, y);
    assert Add(e, Add(a, y)) == Add(a, Add(e, y));
    AddLaws(a, Add(e, y), 0);
    assert Add(a, Add(a, Add(e, y))) == Add(e, y);
    AddLaws(e, Add(b, c), d); AddLaws(e, b, c); AddLaws(p, q, b);
    assert Add(e, y) == Add(Add(Add(p, Add(q, b)), c), d);
  }

  lemma MixAsCoded(x: Column)
    ensures var tmp := Sum4(x.a, x.b, x.c, x.d);
            Mix(x) == Column(Add(x.a, Add(Double(Add(x.a, x.b)), tmp)), Add(x.b, Add(Double(Add(x.b, x.c)), tmp)),
                             Add(x.c, Add(Double(Add(x.c, x.d)), tmp)), Add(x.d, Add(Double(Add(x.d, x.a)), tmp)))
  {
    hide Add, Sum4, Double, Mul3;
    var Column(a, b, c, d) := x;
    Rotations(a, b, c, d);
    MixByteAsCoded(a, b, c, d);
    MixByteAsCoded(b, c, d, a);
    MixByteAsCoded(c, d, a, b);
    MixByteAsCoded(d, a, b, c);
    RotatedMix(a, b, c, d);
  }
}
