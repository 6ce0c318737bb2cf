/**
 MD5Init, MD5Update, MD5Final and mg_md5 of the web server.
 */
module Md5Context {
  import opened Md5Spec
  import opened Octet
  import WebMd5

  const TWO32: nat := 0x1_0000_0000

  // ----- lengths

  /** The low word of the bit count of n bytes. */
  function LowBits(n: nat): nat {
    8 * n % TWO32
  }

  function HighBits(n: nat): nat {
    n / 0x2000_0000 % TWO32
  }

  lemma BitsOf(n: nat, q: nat, r: nat)
    requires n == 0x2000_0000 * q + r && r < 0x2000_0000
    ensures LowBits(n) == 8 * r && HighBits(n) == q % TWO32
  {
    assert 8 * n == TWO32 * q + 8 * r;
  }

  /** Adding the bits of len bytes with a carry. */
  lemma AddBits(n: nat, len: nat)
    requires len < TWO32
    ensures var low := (LowBits(n) + LowBits(len)) % TWO32;
            && low == LowBits(n + len)
            && (HighBits(n) + (if low < LowBits(n) then 1 else 0) + len / 0x2000_0000) % TWO32 == HighBits(n + len)
  {
    hide LowBits, HighBits;
    var q, r := n / 0x2000_0000, n % 0x2000_0000;
    var p, s := len / 0x2000_0000, len % 0x2000_0000;
    BitsOf(n, q, r);
    BitsOf(len, p, s);
    if r + s < 0x2000_0000 {
      BitsOf(n + len, q + p, r + s);
      AddModulo(q, p);
    } else {
      BitsOf(n + len, q + p + 1, r + s - 0x2000_0000);
      AddModulo(q, p + 1);
    }
  }

  lemma AddModulo(a: nat, b: nat)
    ensures (a % TWO32 + b) % TWO32 == (a + b) % TWO32
  {
    var k := a / TWO32;
    assert a + b == TWO32 * k + (a % TWO32 + b);
  }

  lemma ByteCount(n: nat)
    ensures LowBits(n) / 8 % 64 == n % 64
  {
    hide LowBits, HighBits;
    var q, r := n / 0x2000_0000, n % 0x2000_0000;
    BitsOf(n, q, r);
    assert n == 64 * (0x80_0000 * q + r / 64) + r % 64;
  }

  // ----- blocks of a message that arrives in pieces

  /** The open block, filled up from the data. */
  lemma FilledBlock(before: bytes, data: bytes, m: nat)
    requires m == 64 - |before| % 64 <= |data|
    ensures Tail(before) + data[..m] == BlockAt(before + data, |before| / 64)
  {
    var q := |before| / 64;
    assert 64 * q + 64 <= |before + data|;
    forall i | 0 <= i < 64 ensures (Tail(before) + data[..m])[i] == BlockAt(before + data, q)[i] {
      if i < |before| % 64 {
        assert Tail(before)[i] == before[64 * q + i];
      }
    }
  }

  /** A block that lies within the data. */
  lemma InnerBlock(before: bytes, data: bytes, at: nat, k: nat)
    requires at + 64 <= |data| && |before| + at == 64 * k
    ensures data[at..at + 64] == BlockAt(before + data, k)
  {
  }

  lemma FoldNext(data: bytes, k: nat)
    requires 64 * (k + 1) <= |data|
    ensures Fold(data, k + 1) == Transform(Fold(data, k), BlockAt(data, k))
  {
    hide Transform, BlockAt;
  }

  lemma WholeNumber(n: nat, k: nat)
    requires n == 64 * k
    ensures n % 64 == 0 && n / 64 == k
  {
  }

  lemma TailInData(before: bytes, data: bytes, at: nat)
    requires at <= |data| < at + 64 && (|before| + at) % 64 == 0
    ensures Tail(before + data) == data[at..]
    ensures |before + data| / 64 == (|before| + at) / 64
  {
    var n := |before + data|;
    assert n % 64 == |data| - at;
    assert (before + data)[|before| + at..] == data[at..];
  }

  /** n is k bytes short of the next block at most. */
  lemma SameBlock(n: nat, k: nat)
    requires n % 64 + k < 64
    ensures (n + k) / 64 == n / 64 && (n + k) % 64 == n % 64 + k
  {
  }

  lemma TailGrows(before: bytes, data: bytes)
    requires |before| % 64 + |data| < 64
    ensures Tail(before + data) == Tail(before) + data
    ensures |before + data| / 64 == |before| / 64 && |before + data| % 64 == |before| % 64 + |data|
  {
    SameBlock(|before|, |data|);
    assert |before + data| == |before| + |data|;
  }

  // ----- the context

  class Context {
    var buf: Regs
    var bits0: nat
    var bits1: nat
    const input: array<bv8>
    /** all the bytes taken in so far */
    ghost var content: bytes

    /** Everything the context holds follows from the bytes taken in, however they
        were split into calls. */
    ghost predicate Valid()
      reads this, input
    {
      && input.Length == 64
      && buf == Fold(content, |content| / 64)
      && bits0 == LowBits(|content|) && bits1 == HighBits(|content|)
      && input[..|content| % 64] == Tail(content)
    }

    /** MD5Init */
    constructor ()
      ensures Valid() && content == [] && fresh(input)
    {
      buf := Regs(0x67452301, 0xefcdab89, 0x98badcfe, 0x10325476);
      bits0, bits1 := 0, 0;
      input := new bv8[64](_ => 0);
      content := [];
    }

    method Transform()
      requires input.Length == 64
      modifies this`buf
      ensures buf == Md5Spec.Transform(old(buf), input[..])
    {
      hide Md5Spec.Transform, Plus;
      var a, b, c, d := WebMd5.Rounds(input[..], buf.a, buf.b, buf.c, buf.d);
      buf := Regs(Plus(buf.a, a), Plus(buf.b, b), Plus(buf.c, c), Plus(buf.d, d));
    }

    /** memcpy into the block from position `at`. */
    method Put(at: nat, s: bytes)
      requires input.Length == 64 && at + |s| <= 64
      modifies input
      ensures input[..at + |s|] == old(input[..at]) + s
    {
      for k := 0 to |s|
        invariant forall j :: 0 <= j < 64 ==> input[j] == if at <= j < at + k then s[j - at] else old(input[j])
      {
        input[at + k] := s[k];
      }
    }

    method CountBits(len: nat)
      requires len < TWO32 && bits0 == LowBits(|content|) && bits1 == HighBits(|content|)
      modifies this`bits0, this`bits1
      ensures bits0 == LowBits(|content| + len) && bits1 == HighBits(|content| + len)
    {
      hide LowBits, HighBits;
      AddBits(|content|, len);
      AddModulo(bits1 + 1, len / 0x2000_0000);
      var t := bits0;
      bits0 := (t + LowBits(len)) % TWO32;
      if bits0 < t {
        bits1 := (bits1 + 1) % TWO32;
      }
      bits1 := (bits1 + len / 0x2000_0000) % TWO32;
    }

    /** MD5Update */
    method Update(data: bytes)
      requires Valid() && |data| < TWO32
      modifies this, input
      ensures Valid() && content == old(content) + data
    {
      hide Md5Spec.Transform, Tail, BlockAt, LowBits, HighBits, Fold;
      ghost var before := content;
      ByteCount(|content|);
      var t := bits0 / 8 % 64;
      CountBits(|data|);
      var at := 0;
      if t != 0 {
        t := 64 - t;
        if |data| < t {
          StoreShort(data, 64 - t);
          return;
        }
        FillFirst(data, 64 - t);
        at := t;
      } else {
        FoldPrefix(before, data, |before| / 64);
      }
      at := WholeBlocks(data, at);
      Put(0, data[at..]);
      TailInData(before, data, at);
      content := content + data;
    }

    /** The data does not fill the open block. */
    method StoreShort(data: bytes, r: nat)
      requires input.Length == 64 && r == |content| % 64 && r + |data| < 64
      requires input[..r] == Tail(content) && buf == Fold(content, |content| / 64)
      modifies this`content, input
      ensures content == old(content) + data && input[..|content| % 64] == Tail(content)
      ensures buf == Fold(content, |content| / 64)
    {
      hide Tail, Fold;
      Put(r, data);
      TailGrows(content, data);
      FoldPrefix(content, data, |content| / 64);
      content := content + data;
    }

    /** Fills up the open block and takes it in. */
    method FillFirst(data: bytes, r: nat)
      requires input.Length == 64 && r == |content| % 64 && 64 - r <= |data|
      requires input[..r] == Tail(content) && buf == Fold(content, |content| / 64)
      modifies this`buf, input
      ensures buf == Fold(content + data, |content| / 64 + 1)
    {
      hide Md5Spec.Transform, Tail, BlockAt;
      Put(r, data[..64 - r]);
      assert input[..] == input[..r + (64 - r)];
      FilledBlock(content, data, 64 - r);
      FoldPrefix(content, data, |content| / 64);
      Transform();
    }

    /** The loop over the blocks of the data from position `from`. */
    method WholeBlocks(data: bytes, from: nat) returns (at: nat)
      requires input.Length == 64 && from <= |data| && (|content| + from) % 64 == 0
      requires buf == Fold(content + data, (|content| + from) / 64)
      modifies this`buf, input
      ensures from <= at <= |data| < at + 64 && (|content| + at) % 64 == 0
      ensures buf == Fold(content + data, (|content| + at) / 64)
    {
      hide Md5Spec.Transform, BlockAt, Fold;
      at := from;
      ghost var all, k := content + data, (|content| + from) / 64;
      while |data| - at >= 64
        invariant from <= at <= |data| && |content| + at == 64 * k
        invariant buf == Fold(all, k)
        decreases |data| - at
      {
        InnerBlock(content, data, at, k);
        FoldNext(all, k);
        TakeBlock(data[at..at + 64]);
        k := k + 1;
        at := at + 64;
      }
      WholeNumber(|content| + at, k);
    }

    method TakeBlock(block: bytes)
      requires input.Length == 64 == |block|
      modifies this`buf, input
      ensures buf == Md5Spec.Transform(old(buf), block)
    {
      hide Md5Spec.Transform;
      Put(0, block);
      assert input[..] == input[..0 + 64] == block;
      Transform();
    }

    /** MD5Final. The context is no longer of use. */
    method Final() returns (digest: bytes)
      requires Valid()
      modifies this, input
      ensures digest == DigestBytes(old(content))
    {
      hide Md5Spec.Transform, Tail, Fold, Zeros, LengthBytes, Le32, WordMem, LowBits, HighBits, Digest;
      ghost var msg := content;
      ByteCount(|content|);
      var count := bits0 / 8 % 64;
      Put(count, [0x80]);
      var left := 64 - 1 - count;
      LengthIs(|msg|);
      if left < 8 {
        DigestLong(msg);
        Put(count + 1, Zeros(left));
        assert input[..] == input[..count + 1 + left];
        Transform();
        Put(0, Zeros(56));
        AddLength(Zeros(56));
      } else {
        DigestShort(msg);
        Put(count + 1, Zeros(left - 8));
        AddLength(Tail(msg) + [0x80] + Zeros(left - 8));
      }
      Transform();
      digest := WordMem(buf.a) + WordMem(buf.b) + WordMem(buf.c) + WordMem(buf.d);
    }

    /** The bit count goes into the last two words. */
    method AddLength(ghost before: bytes)
      requires input.Length == 64 && |before| == 56 && input[..56] == before
      modifies input
      ensures input[..] == before + (Le32(bits0) + Le32(bits1))
    {
      hide Le32;
      Put(56, Le32(bits0) + Le32(bits1));
      assert input[..] == input[..56 + 8];
    }
  }

  lemma LengthIs(n: nat)
    ensures Le32(LowBits(n)) + Le32(HighBits(n)) == LengthBytes(n)
  {
  }

  // ----- output

  function DigestBytes(msg: bytes): (r: bytes)
    ensures |r| == 16
  {
    var d := Digest(msg);
    WordMem(d.a) + WordMem(d.b) + WordMem(d.c) + WordMem(d.d)
  }

  function HexBytes(p: bytes): (r: string)
    ensures |r| == 2 * |p|
  {
    if p == [] then "" else HexBytes(p[..|p| - 1]) + HexByte(p[|p| - 1])
  }

  lemma {:induction false} HexConcat(p: bytes, q: bytes)
    ensures HexBytes(p + q) == HexBytes(p) + HexBytes(q)
  {
    hide HexByte;
    if q == [] {
      assert p + q == p;
    } else {
      HexConcat(p, q[..|q| - 1]);
      assert (p + q)[..|p + q| - 1] == p + q[..|q| - 1];
    }
  }

  lemma HexOfWord(w: bv32)
    ensures HexBytes(WordMem(w)) == HexWord(w)
  {
    hide HexByte, WordMem;
    var m := WordMem(w);
    assert m[..3][..2] == m[..2] && m[..2][..1] == m[..1] && m[..1][..0] == [];
    assert HexBytes(m) == HexBytes(m[..3]) + HexByte(m[3]);
    assert HexBytes(m[..3]) == HexBytes(m[..2]) + HexByte(m[2]);
    assert HexBytes(m[..2]) == HexBytes(m[..1]) + HexByte(m[1]);
    assert HexBytes(m[..1]) == HexBytes(m[..0]) + HexByte(m[0]);
  }

  lemma HexOfDigest(msg: bytes)
    ensures HexBytes(DigestBytes(msg)) == HexDigest(msg)
  {
    hide HexBytes, HexWord, WordMem, Digest;
    var d := Digest(msg);
    HexConcat(WordMem(d.a) + WordMem(d.b) + WordMem(d.c), WordMem(d.d));
    HexConcat(WordMem(d.a) + WordMem(d.b), WordMem(d.c));
    HexConcat(WordMem(d.a), WordMem(d.b));
    HexOfWord(d.a);
    HexOfWord(d.b);
    HexOfWord(d.c);
    HexOfWord(d.d);
  }

  /** bin2str: two digits for each byte, and a terminator. */
  method Bin2Str(dest: array<char>, p: bytes)
    requires dest.Length > 2 * |p|
    modifies dest
    ensures dest[..2 * |p|] == HexBytes(p) && dest[2 * |p|] == '\0'
  {
    hide HexChar;
    var i := 0;
    while i < |p|
      invariant 0 <= i <= |p| && dest[..2 * i] == HexBytes(p[..i])
    {
      dest[2 * i] := HexChar(p[i] >> 4);
      dest[2 * i + 1] := HexChar(p[i] & 15);
      assert dest[..2 * i + 2] == dest[..2 * i] + HexByte(p[i]);
      assert p[..i + 1][..i] == p[..i];
      i := i + 1;
    }
    dest[2 * |p|] := '\0';
    assert p[..|p|] == p;
  }

  function Concat(parts: seq<bytes>): bytes {
    if parts == [] then [] else Concat(parts[..|parts| - 1]) + parts[|parts| - 1]
  }

  /** mg_md5 of a list of strings: the digest of their concatenation. */
  method MgMd5(buf: array<char>, parts: seq<bytes>)
    requires buf.Length >= 33
    requires forall i :: 0 <= i < |parts| ==> |parts[i]| < TWO32
    modifies buf
    ensures buf[..32] == HexDigest(Concat(parts)) && buf[32] == '\0'
  {
    hide HexBytes, DigestBytes, HexDigest;
    var ctx := new Context();
    var i := 0;
    while i < |parts|
      invariant 0 <= i <= |parts|
      invariant ctx.Valid() && fresh(ctx) && fresh(ctx.input) && ctx.content == Concat(parts[..i])
    {
      ctx.Update(parts[i]);
      assert parts[..i + 1][..i] == parts[..i];
      i := i + 1;
    }
    assert parts[..|parts|] == parts;
    var hash := ctx.Final();
    Bin2Str(buf, hash);
    HexOfDigest(Concat(parts));
  }

  // ----- laws

  /** Two contexts that took in the same bytes, in whatever pieces, hold the same
      registers, bit count and open block. */
  lemma SplitDoesNotMatter(c: Context, c': Context)
    requires c.Valid() && c'.Valid() && c.content == c'.content
    ensures c.buf == c'.buf && c.bits0 == c'.bits0 && c.bits1 == c'.bits1
    ensures c.input[..c.bits0 / 8 % 64] == c'.input[..c.bits0 / 8 % 64]
  {
    ByteCount(|c.content|);
  }
}
