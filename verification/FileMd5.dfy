/**
 The MD5 of firmware files: registers and block in global variables, the file read
 block by block.
 */
module FileMd5 {
  import opened Md5Spec
  import opened Octet

  method Round1(ghost r: Regs, x: bytes, a0: bv32, b0: bv32, c0: bv32, d0: bv32)
    returns (a: bv32, b: bv32, c: bv32, d: bv32)
    requires |x| == 64 && Regs(a0, b0, c0, d0) == Steps(r, x, 0)
    ensures Regs(a, b, c, d) == Steps(r, x, 16)
  {
    hide *;
    Round1Tables();
    Round1Sines();
    a, b, c, d := a0, b0, c0, d0;
    Round1Step(r, x, 0);
    a := FF(a, b, c, d, WordOf(x, 0), 7, 0xd76aa478);
    Round1Step(r, x, 1);
    d := FF(d, a, b, c, WordOf(x, 1), 12, 0xe8c7b756);
    Round1Step(r, x, 2);
    c := FF(c, d, a, b, WordOf(x, 2), 17, 0x242070db);
    Round1Step(r, x, 3);
    b := FF(b, c, d, a, WordOf(x, 3), 22, 0xc1bdceee);
    Round1Step(r, x, 4);
    a := FF(a, b, c, d, WordOf(x, 4), 7, 0xf57c0faf);
    Round1Step(r, x, 5);
    d := FF(d, a, b, c, WordOf(x, 5), 12, 0x4787c62a);
    Round1Step(r, x, 6);
    c := FF(c, d, a, b, WordOf(x, 6), 17, 0xa8304613);
    Round1Step(r, x, 7);
    b := FF(b, c, d, a, WordOf(x, 7), 22, 0xfd469501);
    Round1Step(r, x, 8);
    a := FF(a, b, c, d, WordOf(x, 8), 7, 0x698098d8);
    Round1Step(r, x, 9);
    d := FF(d, a, b, c, WordOf(x, 9), 12, 0x8b44f7af);
    Round1Step(r, x, 10);
    c := FF(c, d, a, b, WordOf(x, 10), 17, 0xffff5bb1);
    Round1Step(r, x, 11);
    b := FF(b, c, d, a, WordOf(x, 11), 22, 0x895cd7be);
    Round1Step(r, x, 12);
    a := FF(a, b, c, d, WordOf(x, 12), 7, 0x6b901122);
    Round1Step(r, x, 13);
    d := FF(d, a, b, c, WordOf(x, 13), 12, 0xfd987193);
    Round1Step(r, x, 14);
    c := FF(c, d, a, b, WordOf(x, 14), 17, 0xa679438e);
    Round1Step(r, x, 15);
    b := FF(b, c, d, a, WordOf(x, 15), 22, 0x49b40821);
  }

  method Round2(ghost r: Regs, x: bytes, a0: bv32, b0: bv32, c0: bv32, d0: bv32)
    returns (a: bv32, b: bv32, c: bv32, d: bv32)
    requires |x| == 64 && Regs(a0, b0, c0, d0) == Steps(r, x, 16)
    ensures Regs(a, b, c, d) == Steps(r, x, 32)
  {
    hide *;
    Round2Tables();
    Round2Sines();
    a, b, c, d := a0, b0, c0, d0;
    Round2Step(r, x, 16);
    a := GG(a, b, c, d, WordOf(x, 1), 5, 0xf61e2562);
    Round2Step(r, x, 17);
    d := GG(d, a, b, c, WordOf(x, 6), 9, 0xc040b340);
    Round2Step(r, x, 18);
    c := GG(c, d, a, b, WordOf(x, 11), 14, 0x265e5a51);
    Round2Step(r, x, 19);
    b := GG(b, c, d, a, WordOf(x, 0), 20, 0xe9b6c7aa);
    Round2Step(r, x, 20);
    a := GG(a, b, c, d, WordOf(x, 5), 5, 0xd62f105d);
    Round2Step(r, x, 21);
    d := GG(d, a, b, c, WordOf(x, 10), 9, 0x02441453);
    Round2Step(r, x, 22);
    c := GG(c, d, a, b, WordOf(x, 15), 14, 0xd8a1e681);
    Round2Step(r, x, 23);
    b := GG(b, c, d, a, WordOf(x, 4), 20, 0xe7d3fbc8);
    Round2Step(r, x, 24);
    a := GG(a, b, c, d, WordOf(x, 9), 5, 0x21e1cde6);
    Round2Step(r, x, 25);
    d := GG(d, a, b, c, WordOf(x, 14), 9, 0xc33707d6);
    Round2Step(r, x, 26);
    c := GG(c, d, a, b, WordOf(x, 3), 14, 0xf4d50d87);
    Round2Step(r, x, 27);
    b := GG(b, c, d, a, WordOf(x, 8), 20, 0x455a14ed);
    Round2Step(r, x, 28);
    a := GG(a, b, c, d, WordOf(x, 13), 5, 0xa9e3e905);
    Round2Step(r, x, 29);
    d := GG(d, a, b, c, WordOf(x, 2), 9, 0xfcefa3f8);
    Round2Step(r, x, 30);
    c := GG(c, d, a, b, WordOf(x, 7), 14, 0x676f02d9);
    Round2Step(r, x, 31);
    b := GG(b, c, d, a, WordOf(x, 12), 20, 0x8d2a4c8a);
  }

  method Round3(ghost r: Regs, x: bytes, a0: bv32, b0: bv32, c0: bv32, d0: bv32)
    returns (a: bv32, b: bv32, c: bv32, d: bv32)
    requires |x| == 64 && Regs(a0, b0, c0, d0) == Steps(r, x, 32)
    ensures Regs(a, b, c, d) == Steps(r, x, 48)
  {
    hide *;
    Round3Tables();
    Round3Sines();
    a, b, c, d := a0, b0, c0, d0;
    Round3Step(r, x, 32);
    a := HH(a, b, c, d, WordOf(x, 5), 4, 0xfffa3942);
    Round3Step(r, x, 33);
    d := HH(d, a, b, c, WordOf(x, 8), 11, 0x8771f681);
    Round3Step(r, x, 34);
    c := HH(c, d, a, b, WordOf(x, 11), 16, 0x6d9d6122);
    Round3Step(r, x, 35);
    b := HH(b, c, d, a, WordOf(x, 14), 23, 0xfde5380c);
    Round3Step(r, x, 36);
    a := HH(a, b, c, d, WordOf(x, 1), 4, 0xa4beea44);
    Round3Step(r, x, 37);
    d := HH(d, a, b, c, WordOf(x, 4), 11, 0x4bdecfa9);
    Round3Step(r, x, 38);
    c := HH(c, d, a, b, WordOf(x, 7), 16, 0xf6bb4b60);
    Round3Step(r, x, 39);
    b := HH(b, c, d, a, WordOf(x, 10), 23, 0xbebfbc70);
    Round3Step(r, x, 40);
    a := HH(a, b, c, d, WordOf(x, 13), 4, 0x289b7ec6);
    Round3Step(r, x, 41);
    d := HH(d, a, b, c, WordOf(x, 0), 11, 0xeaa127fa);
    Round3Step(r, x, 42);
    c := HH(c, d, a, b, WordOf(x, 3), 16, 0xd4ef3085);
    Round3Step(r, x, 43);
    b := HH(b, c, d, a, WordOf(x, 6), 23, 0x04881d05);
    Round3Step(r, x, 44);
    a := HH(a, b, c, d, WordOf(x, 9), 4, 0xd9d4d039);
    Round3Step(r, x, 45);
    d := HH(d, a, b, c, WordOf(x, 12), 11, 0xe6db99e5);
    Round3Step(r, x, 46);
    c := HH(c, d, a, b, WordOf(x, 15), 16, 0x1fa27cf8);
    Round3Step(r, x, 47);
    b := HH(b, c, d, a, WordOf(x, 2), 23, 0xc4ac5665);
  }

  method Round4(ghost r: Regs, x: bytes, a0: bv32, b0: bv32, c0: bv32, d0: bv32)
    returns (a: bv32, b: bv32, c: bv32, d: bv32)
    requires |x| == 64 && Regs(a0, b0, c0, d0) == Steps(r, x, 48)
    ensures Regs(a, b, c, d) == Steps(r, x, 64)
  {
    hide *;
    Round4Tables();
    Round4Sines();
    a, b, c, d := a0, b0, c0, d0;
    Round4Step(r, x, 48);
    a := II(a, b, c, d, WordOf(x, 0), 6, 0xf4292244);
    Round4Step(r, x, 49);
    d := II(d, a, b, c, WordOf(x, 7), 10, 0x432aff97);
    Round4Step(r, x, 50);
    c := II(c, d, a, b, WordOf(x, 14), 15, 0xab9423a7);
    Round4Step(r, x, 51);
    b := II(b, c, d, a, WordOf(x, 5), 21, 0xfc93a039);
    Round4Step(r, x, 52);
    a := II(a, b, c, d, WordOf(x, 12), 6, 0x655b59c3);
    Round4Step(r, x, 53);
    d := II(d, a, b, c, WordOf(x, 3), 10, 0x8f0ccc92);
    Round4Step(r, x, 54);
    c := II(c, d, a, b, WordOf(x, 10), 15, 0xffeff47d);
    Round4Step(r, x, 55);
    b := II(b, c, d, a, WordOf(x, 1), 21, 0x85845dd1);
    Round4Step(r, x, 56);
    a := II(a, b, c, d, WordOf(x, 8), 6, 0x6fa87e4f);
    Round4Step(r, x, 57);
    d := II(d, a, b, c, WordOf(x, 15), 10, 0xfe2ce6e0);
    Round4Step(r, x, 58);
    c := II(c, d, a, b, WordOf(x, 6), 15, 0xa3014314);
    Round4Step(r, x, 59);
    b := II(b, c, d, a, WordOf(x, 13), 21, 0x4e0811a1);
    Round4Step(r, x, 60);
    a := II(a, b, c, d, WordOf(x, 4), 6, 0xf7537e82);
    Round4Step(r, x, 61);
    d := II(d, a, b, c, WordOf(x, 11), 10, 0xbd3af235);
    Round4Step(r, x, 62);
    c := II(c, d, a, b, WordOf(x, 2), 15, 0x2ad7d2bb);
    Round4Step(r, x, 63);
    b := II(b, c, d, a, WordOf(x, 9), 21, 0xeb86d391);
  }

  method Rounds(x: bytes, a0: bv32, b0: bv32, c0: bv32, d0: bv32) returns (a: bv32, b: bv32, c: bv32, d: bv32)
    requires |x| == 64
    ensures Regs(Plus(a0, a), Plus(b0, b), Plus(c0, c), Plus(d0, d)) == Transform(Regs(a0, b0, c0, d0), x)
  {
    hide *;
    ghost var r := Regs(a0, b0, c0, d0);
    StepsNone(r, x);
    a, b, c, d := Round1(r, x, a0, b0, c0, d0);
    a, b, c, d := Round2(r, x, a, b, c, d);
    a, b, c, d := Round3(r, x, a, b, c, d);
    a, b, c, d := Round4(r, x, a, b, c, d);
    StepsAll(r, x, Regs(a, b, c, d));
  }

  // ----- output

  /** The bytes of a word in reverse order. */
  function PP(x: bv32): bv32 {
    (x << 24) | ((x << 8) & 0xff0000) | ((x >> 8) & 0xff00) | (x >> 24)
  }

  function Nibble(w: bv32, s: nat): bv8
    requires s <= 28
  {
    ((w >> s) & 15) as bv8
  }

  /** printf's %08x */
  function Hex8(w: bv32): string {
    [HexChar(Nibble(w, 28)), HexChar(Nibble(w, 24)), HexChar(Nibble(w, 20)), HexChar(Nibble(w, 16)),
     HexChar(Nibble(w, 12)), HexChar(Nibble(w, 8)), HexChar(Nibble(w, 4)), HexChar(Nibble(w, 0))]
  }

  lemma NibblesOfBytes(w: bv32)
    ensures Nibble(PP(w), 28) == WordMem(w)[0] >> 4 && Nibble(PP(w), 24) == WordMem(w)[0] & 15
    ensures Nibble(PP(w), 20) == WordMem(w)[1] >> 4 && Nibble(PP(w), 16) == WordMem(w)[1] & 15
    ensures Nibble(PP(w), 12) == WordMem(w)[2] >> 4 && Nibble(PP(w), 8) == WordMem(w)[2] & 15
    ensures Nibble(PP(w), 4) == WordMem(w)[3] >> 4 && Nibble(PP(w), 0) == WordMem(w)[3] & 15
  {
  }

  /** Printing the reversed word shows the bytes in memory order. */
  lemma PrintedWord(w: bv32)
    ensures Hex8(PP(w)) == HexWord(w)
  {
    hide PP, WordMem, Nibble, HexChar;
    NibblesOfBytes(w);
  }

  lemma WholeBlock(file: bytes, i: nat, x: bytes)
    requires 64 * i + 64 <= |file| && x == file[64 * i..64 * i + 64] + Zeros(0)
    ensures x == BlockAt(file, i)
  {
  }

  lemma TailIs(file: bytes)
    ensures Tail(file) == file[64 * (|file| / 64)..]
  {
    assert |file| - |file| % 64 == 64 * (|file| / 64);
  }

  lemma LengthWords(n: nat)
    requires n < 0x1_0000_0000
    ensures Le32(n % 0x2000_0000 * 8) + Le32(n / 0x2000_0000) == LengthBytes(n)
  {
    hide Le32;
    assert n % 0x2000_0000 * 8 == 8 * n % 0x1_0000_0000;
  }

  lemma AfterMark(tail: bytes, x: bytes)
    requires |tail| < 64
    requires x == (tail + Zeros(64 - |tail|))[..|tail|] + [0x80] + (tail + Zeros(64 - |tail|))[|tail| + 1..]
    ensures x == tail + [0x80] + Zeros(63 - |tail|)
  {
  }

  lemma AfterLength(a: bytes, n: nat, b: bytes, x: bytes)
    requires |a| + n == 56 && |b| == 8
    requires x == (a + Zeros(n + 8))[..56] + b + (a + Zeros(n + 8))[64..]
    ensures x == a + Zeros(n) + b
  {
    assert (a + Zeros(n + 8))[..56] == a + Zeros(n);
    assert (a + Zeros(n + 8))[64..] == [];
  }

  class Globals {
    var A: bv32
    var B: bv32
    var C: bv32
    var D: bv32
    /** the sixteen words, as the 64 bytes they are in memory */
    const x: array<bv8>

    ghost function R(): Regs
      reads this
    {
      Regs(A, B, C, D)
    }

    constructor ()
      ensures x.Length == 64 && fresh(x)
    {
      x := new bv8[64](_ => 0);
    }

    method Md5()
      requires x.Length == 64
      modifies this
      ensures R() == Transform(old(R()), x[..])
    {
      hide Transform, Plus;
      var a, b, c, d := Rounds(x[..], A, B, C, D);
      A, B, C, D := Plus(A, a), Plus(B, b), Plus(C, c), Plus(D, d);
    }

    /** The next 64 bytes of the file over zeros, fewer at its end. */
    method ReadBlock(file: bytes, pos: nat) returns (pos': nat)
      requires x.Length == 64 && pos <= |file|
      modifies x
      ensures pos' == if |file| - pos < 64 then |file| else pos + 64
      ensures x[..] == file[pos..pos'] + Zeros(64 - (pos' - pos))
    {
      pos' := if |file| - pos < 64 then |file| else pos + 64;
      for k := 0 to 64
        invariant forall j :: 0 <= j < k ==> x[j] == if pos + j < pos' then file[pos + j] else 0
      {
        x[k] := if pos + k < pos' then file[pos + k] else 0;
      }
      assert x[..] == file[pos..pos'] + Zeros(64 - (pos' - pos));
    }

    method Put(at: nat, s: bytes)
      requires x.Length == 64 && at + |s| <= 64
      modifies x
      ensures x[..] == old(x[..at]) + s + old(x[at + |s|..])
    {
      for k := 0 to |s|
        invariant forall j :: 0 <= j < 64 ==> x[j] == if at <= j < at + k then s[j - at] else old(x[j])
      {
        x[at + k] := s[k];
      }
      assert x[..] == old(x[..at]) + s + old(x[at + |s|..]);
    }

    /** The loop over the whole blocks; what is left stays in x. */
    method DigestBlocks(file: bytes)
      requires x.Length == 64 && R() == INIT
      modifies this, x
      ensures R() == Fold(file, |file| / 64) && x[..] == Tail(file) + Zeros(64 - |file| % 64)
    {
      hide Transform, BlockAt, Tail, Zeros;
      var pos := ReadBlock(file, 0);
      var i := 0;
      while i < |file| / 64
        invariant 0 <= i <= |file| / 64 && R() == Fold(file, i)
        invariant pos == (if |file| - 64 * i < 64 then |file| else 64 * i + 64)
        invariant x[..] == file[64 * i..pos] + Zeros(64 - (pos - 64 * i))
      {
        WholeBlock(file, i, x[..]);
        Md5();
        pos := ReadBlock(file, pos);
        i := i + 1;
      }
      TailIs(file);
    }

    /** Padding, length and the last one or two blocks. */
    method Finish(ghost msg: bytes, len: nat)
      requires x.Length == 64 && len == |msg| < 0x1_0000_0000
      requires R() == Fold(msg, len / 64) && x[..] == Tail(msg) + Zeros(64 - len % 64)
      modifies this, x
      ensures R() == Digest(msg)
    {
      hide Transform, Tail, Zeros, Fold, Digest, LengthBytes, Le32;
      var flen1, flen0 := len / 0x2000_0000, len % 0x2000_0000 * 8;
      LengthWords(len);
      Put(len % 64, [0x80]);
      AfterMark(Tail(msg), x[..]);
      if len % 64 > 55 {
        DigestLong(msg);
        Md5();
        Clear();
        Put(56, Le32(flen0) + Le32(flen1));
        AfterLength([], 56, LengthBytes(len), x[..]);
        assert [] + Zeros(56) == Zeros(56);
      } else {
        DigestShort(msg);
        Put(56, Le32(flen0) + Le32(flen1));
        AfterLength(Tail(msg) + [0x80], 55 - len % 64, LengthBytes(len), x[..]);
      }
      Md5();
    }

    /** memset of x */
    method Clear()
      requires x.Length == 64
      modifies x
      ensures x[..] == Zeros(64)
    {
      for k := 0 to 64
        invariant forall j :: 0 <= j < k ==> x[j] == 0
      {
        x[k] := 0;
      }
    }

    /** The file length must be known and fit an unsigned int; 2^32 - 1 stands for a
        length that is not known. */
    method CalcFileMd5(file: bytes) returns (ok: bool, sum: string)
      requires x.Length == 64 && |file| < 0x1_0000_0000
      modifies this, x
      ensures ok <==> |file| != 0xffff_ffff
      ensures ok ==> sum == HexDigest(file)
    {
      hide Fold, Tail, Digest, PP, Hex8, HexWord;
      if |file| == 0xffff_ffff {
        return false, "";
      }
      A, B, C, D := 0x67452301, 0xefcdab89, 0x98badcfe, 0x10325476;
      DigestBlocks(file);
      Finish(file, |file|);
      PrintedWord(A);
      PrintedWord(B);
      PrintedWord(C);
      PrintedWord(D);
      sum := Hex8(PP(A)) + Hex8(PP(B)) + Hex8(PP(C)) + Hex8(PP(D));
      ok := true;
    }
  }
}
