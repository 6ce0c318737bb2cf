/**
 The MD5 of the web server: a context that takes its input in pieces.
 */
module WebMd5 {
  import opened Md5Spec

  // ----- the functions of the four rounds, in the form the web server has them

  function F1(x: bv32, y: bv32, z: bv32): bv32 { z ^ (x & (y ^ z)) }

  function F2(x: bv32, y: bv32, z: bv32): bv32 { F1(z, x, y) }

  function F3(x: bv32, y: bv32, z: bv32): bv32 { x ^ y ^ z }

  function F4(x: bv32, y: bv32, z: bv32): bv32 { y ^ (x | !z) }

  lemma Choose(x: bv32, y: bv32, z: bv32)
    ensures z ^ (x & (y ^ z)) == (x & y) | (!x & z)
  {
  }

  lemma F1IsF(x: bv32, y: bv32, z: bv32)
    ensures F1(x, y, z) == F(x, y, z)
  {
    Choose(x, y, z);
  }

  lemma F2IsG(x: bv32, y: bv32, z: bv32)
    ensures F2(x, y, z) == G(x, y, z)
  {
    hide F1;
    F1IsF(z, x, y);
    assert (z & x) | (!z & y) == (x & z) | (y & !z);
  }

  lemma F3IsH(x: bv32, y: bv32, z: bv32)
    ensures F3(x, y, z) == H(x, y, z)
  {
  }

  lemma F4IsI(x: bv32, y: bv32, z: bv32)
    ensures F4(x, y, z) == I(x, y, z)
  {
  }

  /** w += f + data for the data in + k */
  function StepSum(w: bv32, f: bv32, data: bv32, k: bv32): bv32 { w + (f + (data + k)) }

  lemma SumOrder(w: bv32, f: bv32, data: bv32, k: bv32)
    ensures StepSum(w, f, data, k) == Sum4(w, f, data, k)
  {
  }

  lemma PlusOrder(v: bv32, x: bv32)
    ensures Plus(v, x) == Plus(x, v)
  {
  }

  /** MD5STEP(F1, w, x, y, z, in + k, s): w += f + data, w = w<<s | w>>(32-s), w += x */
  function Step1(w: bv32, x: bv32, y: bv32, z: bv32, data: bv32, k: bv32, s: nat): (r: bv32)
    requires s <= 32
    ensures r == FF(w, x, y, z, data, s, k)
  {
    F1IsF(x, y, z);
    SumOrder(w, F1(x, y, z), data, k);
    PlusOrder(RL(StepSum(w, F1(x, y, z), data, k), s), x);
    Plus(RL(StepSum(w, F1(x, y, z), data, k), s), x)
  }

  /** MD5STEP(F2, w, x, y, z, in + k, s): w += f + data, w = w<<s | w>>(32-s), w += x */
  function Step2(w: bv32, x: bv32, y: bv32, z: bv32, data: bv32, k: bv32, s: nat): (r: bv32)
    requires s <= 32
    ensures r == GG(w, x, y, z, data, s, k)
  {
    F2IsG(x, y, z);
    SumOrder(w, F2(x, y, z), data, k);
    PlusOrder(RL(StepSum(w, F2(x, y, z), data, k), s), x);
    Plus(RL(StepSum(w, F2(x, y, z), data, k), s), x)
  }

  /** MD5STEP(F3, w, x, y, z, in + k, s): w += f + data, w = w<<s | w>>(32-s), w += x */
  function Step3(w: bv32, x: bv32, y: bv32, z: bv32, data: bv32, k: bv32, s: nat): (r: bv32)
    requires s <= 32
    ensures r == HH(w, x, y, z, data, s, k)
  {
    F3IsH(x, y, z);
    SumOrder(w, F3(x, y, z), data, k);
    PlusOrder(RL(StepSum(w, F3(x, y, z), data, k), s), x);
    Plus(RL(StepSum(w, F3(x, y, z), data, k), s), x)
  }

  /** MD5STEP(F4, w, x, y, z, in + k, s): w += f + data, w = w<<s | w>>(32-s), w += x */
  function Step4(w: bv32, x: bv32, y: bv32, z: bv32, data: bv32, k: bv32, s: nat): (r: bv32)
    requires s <= 32
    ensures r == II(w, x, y, z, data, s, k)
  {
    F4IsI(x, y, z);
    SumOrder(w, F4(x, y, z), data, k);
    PlusOrder(RL(StepSum(w, F4(x, y, z), data, k), s), x);
    Plus(RL(StepSum(w, F4(x, y, z), data, k), s), x)
  }

  method Round1(ghost r: Regs, input: bytes, a0: bv32, b0: bv32, c0: bv32, d0: bv32)
    returns (a: bv32, b: bv32, c: bv32, d: bv32)
    requires |input| == 64 && Regs(a0, b0, c0, d0) == Steps(r, input, 0)
    ensures Regs(a, b, c, d) == Steps(r, input, 16)
  {
    hide *;
    Round1Tables();
    Round1Sines();
    a, b, c, d := a0, b0, c0, d0;
    Round1Step(r, input, 0);
    a := Step1(a, b, c, d, WordOf(input, 0), 0xd76aa478, 7);
    Round1Step(r, input, 1);
    d := Step1(d, a, b, c, WordOf(input, 1), 0xe8c7b756, 12);
    Round1Step(r, input, 2);
    c := Step1(c, d, a, b, WordOf(input, 2), 0x242070db, 17);
    Round1Step(r, input, 3);
    b := Step1(b, c, d, a, WordOf(input, 3), 0xc1bdceee, 22);
    Round1Step(r, input, 4);
    a := Step1(a, b, c, d, WordOf(input, 4), 0xf57c0faf, 7);
    Round1Step(r, input, 5);
    d := Step1(d, a, b, c, WordOf(input, 5), 0x4787c62a, 12);
    Round1Step(r, input, 6);
    c := Step1(c, d, a, b, WordOf(input, 6), 0xa8304613, 17);
    Round1Step(r, input, 7);
    b := Step1(b, c, d, a, WordOf(input, 7), 0xfd469501, 22);
    Round1Step(r, input, 8);
    a := Step1(a, b, c, d, WordOf(input, 8), 0x698098d8, 7);
    Round1Step(r, input, 9);
    d := Step1(d, a, b, c, WordOf(input, 9), 0x8b44f7af, 12);
    Round1Step(r, input, 10);
    c := Step1(c, d, a, b, WordOf(input, 10), 0xffff5bb1, 17);
    Round1Step(r, input, 11);
    b := Step1(b, c, d, a, WordOf(input, 11), 0x895cd7be, 22);
    Round1Step(r, input, 12);
    a := Step1(a, b, c, d, WordOf(input, 12), 0x6b901122, 7);
    Round1Step(r, input, 13);
    d := Step1(d, a, b, c, WordOf(input, 13), 0xfd987193, 12);
    Round1Step(r, input, 14);
    c := Step1(c, d, a, b, WordOf(input, 14), 0xa679438e, 17);
    Round1Step(r, input, 15);
    b := Step1(b, c, d, a, WordOf(input, 15), 0x49b40821, 22);
  }

  method Round2(ghost r: Regs, input: bytes, a0: bv32, b0: bv32, c0: bv32, d0: bv32)
    returns (a: bv32, b: bv32, c: bv32, d: bv32)
    requires |input| == 64 && Regs(a0, b0, c0, d0) == Steps(r, input, 16)
    ensures Regs(a, b, c, d) == Steps(r, input, 32)
  {
    hide *;
    Round2Tables();
    Round2Sines();
    a, b, c, d := a0, b0, c0, d0;
    Round2Step(r, input, 16);
    a := Step2(a, b, c, d, WordOf(input, 1), 0xf61e2562, 5);
    Round2Step(r, input, 17);
    d := Step2(d, a, b, c, WordOf(input, 6), 0xc040b340, 9);
    Round2Step(r, input, 18);
    c := Step2(c, d, a, b, WordOf(input, 11), 0x265e5a51, 14);
    Round2Step(r, input, 19);
    b := Step2(b, c, d, a, WordOf(input, 0), 0xe9b6c7aa, 20);
    Round2Step(r, input, 20);
    a := Step2(a, b, c, d, WordOf(input, 5), 0xd62f105d, 5);
    Round2Step(r, input, 21);
    d := Step2(d, a, b, c, WordOf(input, 10), 0x02441453, 9);
    Round2Step(r, input, 22);
    c := Step2(c, d, a, b, WordOf(input, 15), 0xd8a1e681, 14);
    Round2Step(r, input, 23);
    b := Step2(b, c, d, a, WordOf(input, 4), 0xe7d3fbc8, 20);
    Round2Step(r, input, 24);
    a := Step2(a, b, c, d, WordOf(input, 9), 0x21e1cde6, 5);
    Round2Step(r, input, 25);
    d := Step2(d, a, b, c, WordOf(input, 14), 0xc33707d6, 9);
    Round2Step(r, input, 26);
    c := Step2(c, d, a, b, WordOf(input, 3), 0xf4d50d87, 14);
    Round2Step(r, input, 27);
    b := Step2(b, c, d, a, WordOf(input, 8), 0x455a14ed, 20);
    Round2Step(r, input, 28);
    a := Step2(a, b, c, d, WordOf(input, 13), 0xa9e3e905, 5);
    Round2Step(r, input, 29);
    d := Step2(d, a, b, c, WordOf(input, 2), 0xfcefa3f8, 9);
    Round2Step(r, input, 30);
    c := Step2(c, d, a, b, WordOf(input, 7), 0x676f02d9, 14);
    Round2Step(r, input, 31);
    b := Step2(b, c, d, a, WordOf(input, 12), 0x8d2a4c8a, 20);
  }

  method Round3(ghost r: Regs, input: bytes, a0: bv32, b0: bv32, c0: bv32, d0: bv32)
    returns (a: bv32, b: bv32, c: bv32, d: bv32)
    requires |input| == 64 && Regs(a0, b0, c0, d0) == Steps(r, input, 32)
    ensures Regs(a, b, c, d) == Steps(r, input, 48)
  {
    hide *;
    Round3Tables();
    Round3Sines();
    a, b, c, d := a0, b0, c0, d0;
    Round3Step(r, input, 32);
    a := Step3(a, b, c, d, WordOf(input, 5), 0xfffa3942, 4);
    Round3Step(r, input, 33);
    d := Step3(d, a, b, c, WordOf(input, 8), 0x8771f681, 11);
    Round3Step(r, input, 34);
    c := Step3(c, d, a, b, WordOf(input, 11), 0x6d9d6122, 16);
    Round3Step(r, input, 35);
    b := Step3(b, c, d, a, WordOf(input, 14), 0xfde5380c, 23);
    Round3Step(r, input, 36);
    a := Step3(a, b, c, d, WordOf(input, 1), 0xa4beea44, 4);
    Round3Step(r, input, 37);
    d := Step3(d, a, b, c, WordOf(input, 4), 0x4bdecfa9, 11);
    Round3Step(r, input, 38);
    c := Step3(c, d, a, b, WordOf(input, 7), 0xf6bb4b60, 16);
    Round3Step(r, input, 39);
    b := Step3(b, c, d, a, WordOf(input, 10), 0xbebfbc70, 23);
    Round3Step(r, input, 40);
    a := Step3(a, b, c, d, WordOf(input, 13), 0x289b7ec6, 4);
    Round3Step(r, input, 41);
    d := Step3(d, a, b, c, WordOf(input, 0), 0xeaa127fa, 11);
    Round3Step(r, input, 42);
    c := Step3(c, d, a, b, WordOf(input, 3), 0xd4ef3085, 16);
    Round3Step(r, input, 43);
    b := Step3(b, c, d, a, WordOf(input, 6), 0x04881d05, 23);
    Round3Step(r, input, 44);
    a := Step3(a, b, c, d, WordOf(input, 9), 0xd9d4d039, 4);
    Round3Step(r, input, 45);
    d := Step3(d, a, b, c, WordOf(input, 12), 0xe6db99e5, 11);
    Round3Step(r, input, 46);
    c := Step3(c, d, a, b, WordOf(input, 15), 0x1fa27cf8, 16);
    Round3Step(r, input, 47);
    b := Step3(b, c, d, a, WordOf(input, 2), 0xc4ac5665, 23);
  }

  method Round4(ghost r: Regs, input: bytes, a0: bv32, b0: bv32, c0: bv32, d0: bv32)
    returns (a: bv32, b: bv32, c: bv32, d: bv32)
    requires |input| == 64 && Regs(a0, b0, c0, d0) == Steps(r, input, 48)
    ensures Regs(a, b, c, d) == Steps(r, input, 64)
  {
    hide *;
    Round4Tables();
    Round4Sines();
    a, b, c, d := a0, b0, c0, d0;
    Round4Step(r, input, 48);
    a := Step4(a, b, c, d, WordOf(input, 0), 0xf4292244, 6);
    Round4Step(r, input, 49);
    d := Step4(d, a, b, c, WordOf(input, 7), 0x432aff97, 10);
    Round4Step(r, input, 50);
    c := Step4(c, d, a, b, WordOf(input, 14), 0xab9423a7, 15);
    Round4Step(r, input, 51);
    b := Step4(b, c, d, a, WordOf(input, 5), 0xfc93a039, 21);
    Round4Step(r, input, 52);
    a := Step4(a, b, c, d, WordOf(input, 12), 0x655b59c3, 6);
    Round4Step(r, input, 53);
    d := Step4(d, a, b, c, WordOf(input, 3), 0x8f0ccc92, 10);
    Round4Step(r, input, 54);
    c := Step4(c, d, a, b, WordOf(input, 10), 0xffeff47d, 15);
    Round4Step(r, input, 55);
    b := Step4(b, c, d, a, WordOf(input, 1), 0x85845dd1, 21);
    Round4Step(r, input, 56);
    a := Step4(a, b, c, d, WordOf(input, 8), 0x6fa87e4f, 6);
    Round4Step(r, input, 57);
    d := Step4(d, a, b, c, WordOf(input, 15), 0xfe2ce6e0, 10);
    Round4Step(r, input, 58);
    c := Step4(c, d, a, b, WordOf(input, 6), 0xa3014314, 15);
    Round4Step(r, input, 59);
    b := Step4(b, c, d, a, WordOf(input, 13), 0x4e0811a1, 21);
    Round4Step(r, input, 60);
    a := Step4(a, b, c, d, WordOf(input, 4), 0xf7537e82, 6);
    Round4Step(r, input, 61);
    d := Step4(d, a, b, c, WordOf(input, 11), 0xbd3af235, 10);
    Round4Step(r, input, 62);
    c := Step4(c, d, a, b, WordOf(input, 2), 0x2ad7d2bb, 15);
    Round4Step(r, input, 63);
    b := Step4(b, c, d, a, WordOf(input, 9), 0xeb86d391, 21);
  }

  method Rounds(input: bytes, a0: bv32, b0: bv32, c0: bv32, d0: bv32) returns (a: bv32, b: bv32, c: bv32, d: bv32)
    requires |input| == 64
    ensures Regs(Plus(a0, a), Plus(b0, b), Plus(c0, c), Plus(d0, d)) == Transform(Regs(a0, b0, c0, d0), input)
  {
    hide *;
    ghost var r := Regs(a0, b0, c0, d0);
    StepsNone(r, input);
    a, b, c, d := Round1(r, input, a0, b0, c0, d0);
    a, b, c, d := Round2(r, input, a, b, c, d);
    a, b, c, d := Round3(r, input, a, b, c, d);
    a, b, c, d := Round4(r, input, a, b, c, d);
    StepsAll(r, input, Regs(a, b, c, d));
  }
}
