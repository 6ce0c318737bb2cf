/**
 The examples of FIPS 197, appendix C: one block under a key of each size, worked out round
 key by round key and state by state.
 */
module AesExamples {
  import opened AesField
  import opened AesTables
  import opened AesKeys
  import opened AesRounds
  import Api = AesApi

  /** A block or a round key, column by column. */
  datatype State = State(w: Word, x: Word, y: Word, z: Word)

  function Four(a0: bv8, b0: bv8, c0: bv8, d0: bv8, a1: bv8, b1: bv8, c1: bv8, d1: bv8,
                a2: bv8, b2: bv8, c2: bv8, d2: bv8, a3: bv8, b3: bv8, c3: bv8, d3: bv8): State {
    State(Word(a0, b0, c0, d0), Word(a1, b1, c1, d1), Word(a2, b2, c2, d2), Word(a3, b3, c3, d3))
  }

  /** The key 00 01 02 and so on of nk words. */
  function Key(nk: nat): (key: seq<bv8>)
    requires nk <= 8
    ensures |key| == 4 * nk
  {
    seq(4 * nk, i requires 0 <= i < 4 * nk => i as bv8)
  }

  function WordOf(s: State, c: nat): Word
    requires c < 4
  {
    match c case 0 => s.w case 1 => s.x case 2 => s.y case _ => s.z
  }

  function Item(s: State, i: nat): bv8
    requires i < 16
  {
    ByteOf(WordOf(s, i / 4), i % 4)
  }

  function Flat(s: State): (t: Block)
    ensures forall i :: 0 <= i < 16 ==> t[i] == Item(s, i)
  {
    seq(16, i requires 0 <= i < 16 => Item(s, i))
  }

  /** The block 00 11 22 and so on to ff. */
  const PLAIN := Four(0x00, 0x11, 0x22, 0x33, 0x44, 0x55, 0x66, 0x77, 0x88, 0x99, 0xaa, 0xbb, 0xcc, 0xdd, 0xee, 0xff)

  function Plain(): Block {
    Flat(PLAIN)
  }

  // The round keys for 128 bits, the states after them, and the rotated rows of each round.
  const K128_0 := Four(0x00, 0x01, 0x02, 0x03, 0x04, 0x05, 0x06, 0x07, 0x08, 0x09, 0x0a, 0x0b, 0x0c, 0x0d, 0x0e, 0x0f)
  const K128_1 := Four(0xd6, 0xaa, 0x74, 0xfd, 0xd2, 0xaf, 0x72, 0xfa, 0xda, 0xa6, 0x78, 0xf1, 0xd6, 0xab, 0x76, 0xfe)
  const K128_2 := Four(0xb6, 0x92, 0xcf, 0x0b, 0x64, 0x3d, 0xbd, 0xf1, 0xbe, 0x9b, 0xc5, 0x00, 0x68, 0x30, 0xb3, 0xfe)
  const K128_3 := Four(0xb6, 0xff, 0x74, 0x4e, 0xd2, 0xc2, 0xc9, 0xbf, 0x6c, 0x59, 0x0c, 0xbf, 0x04, 0x69, 0xbf, 0x41)
  const K128_4 := Four(0x47, 0xf7, 0xf7, 0xbc, 0x95, 0x35, 0x3e, 0x03, 0xf9, 0x6c, 0x32, 0xbc, 0xfd, 0x05, 0x8d, 0xfd)
  const K128_5 := Four(0x3c, 0xaa, 0xa3, 0xe8, 0xa9, 0x9f, 0x9d, 0xeb, 0x50, 0xf3, 0xaf, 0x57, 0xad, 0xf6, 0x22, 0xaa)
  const K128_6 := Four(0x5e, 0x39, 0x0f, 0x7d, 0xf7, 0xa6, 0x92, 0x96, 0xa7, 0x55, 0x3d, 0xc1, 0x0a, 0xa3, 0x1f, 0x6b)
  const K128_7 := Four(0x14, 0xf9, 0x70, 0x1a, 0xe3, 0x5f, 0xe2, 0x8c, 0x44, 0x0a, 0xdf, 0x4d, 0x4e, 0xa9, 0xc0, 0x26)
  const K128_8 := Four(0x47, 0x43, 0x87, 0x35, 0xa4, 0x1c, 0x65, 0xb9, 0xe0, 0x16, 0xba, 0xf4, 0xae, 0xbf, 0x7a, 0xd2)
  const K128_9 := Four(0x54, 0x99, 0x32, 0xd1, 0xf0, 0x85, 0x57, 0x68, 0x10, 0x93, 0xed, 0x9c, 0xbe, 0x2c, 0x97, 0x4e)
  const K128_10 := Four(0x13, 0x11, 0x1d, 0x7f, 0xe3, 0x94, 0x4a, 0x17, 0xf3, 0x07, 0xa7, 0x8b, 0x4d, 0x2b, 0x30, 0xc5)
  const S128_0 := Four(0x00, 0x10, 0x20, 0x30, 0x40, 0x50, 0x60, 0x70, 0x80, 0x90, 0xa0, 0xb0, 0xc0, 0xd0, 0xe0, 0xf0)
  const S128_1 := Four(0x89, 0xd8, 0x10, 0xe8, 0x85, 0x5a, 0xce, 0x68, 0x2d, 0x18, 0x43, 0xd8, 0xcb, 0x12, 0x8f, 0xe4)
  const S128_2 := Four(0x49, 0x15, 0x59, 0x8f, 0x55, 0xe5, 0xd7, 0xa0, 0xda, 0xca, 0x94, 0xfa, 0x1f, 0x0a, 0x63, 0xf7)
  const S128_3 := Four(0xfa, 0x63, 0x6a, 0x28, 0x25, 0xb3, 0x39, 0xc9, 0x40, 0x66, 0x8a, 0x31, 0x57, 0x24, 0x4d, 0x17)
  const S128_4 := Four(0x24, 0x72, 0x40, 0x23, 0x69, 0x66, 0xb3, 0xfa, 0x6e, 0xd2, 0x75, 0x32, 0x88, 0x42, 0x5b, 0x6c)
  const S128_5 := Four(0xc8, 0x16, 0x77, 0xbc, 0x9b, 0x7a, 0xc9, 0x3b, 0x25, 0x02, 0x79, 0x92, 0xb0, 0x26, 0x19, 0x96)
  const S128_6 := Four(0xc6, 0x2f, 0xe1, 0x09, 0xf7, 0x5e, 0xed, 0xc3, 0xcc, 0x79, 0x39, 0x5d, 0x84, 0xf9, 0xcf, 0x5d)
  const S128_7 := Four(0xd1, 0x87, 0x6c, 0x0f, 0x79, 0xc4, 0x30, 0x0a, 0xb4, 0x55, 0x94, 0xad, 0xd6, 0x6f, 0xf4, 0x1f)
  const S128_8 := Four(0xfd, 0xe3, 0xba, 0xd2, 0x05, 0xe5, 0xd0, 0xd7, 0x35, 0x47, 0x96, 0x4e, 0xf1, 0xfe, 0x37, 0xf1)
  const S128_9 := Four(0xbd, 0x6e, 0x7c, 0x3d, 0xf2, 0xb5, 0x77, 0x9e, 0x0b, 0x61, 0x21, 0x6e, 0x8b, 0x10, 0xb6, 0x89)
  const S128_10 := Four(0x69, 0xc4, 0xe0, 0xd8, 0x6a, 0x7b, 0x04, 0x30, 0xd8, 0xcd, 0xb7, 0x80, 0x70, 0xb4, 0xc5, 0x5a)
  const R128_1 := Four(0x63, 0x53, 0xe0, 0x8c, 0x09, 0x60, 0xe1, 0x04, 0xcd, 0x70, 0xb7, 0x51, 0xba, 0xca, 0xd0, 0xe7)
  const R128_2 := Four(0xa7, 0xbe, 0x1a, 0x69, 0x97, 0xad, 0x73, 0x9b, 0xd8, 0xc9, 0xca, 0x45, 0x1f, 0x61, 0x8b, 0x61)
  const R128_3 := Four(0x3b, 0xd9, 0x22, 0x68, 0xfc, 0x74, 0xfb, 0x73, 0x57, 0x67, 0xcb, 0xe0, 0xc0, 0x59, 0x0e, 0x2d)
  const R128_4 := Four(0x2d, 0x6d, 0x7e, 0xf0, 0x3f, 0x33, 0xe3, 0x34, 0x09, 0x36, 0x02, 0xdd, 0x5b, 0xfb, 0x12, 0xc7)
  const R128_5 := Four(0x36, 0x33, 0x9d, 0x50, 0xf9, 0xb5, 0x39, 0x26, 0x9f, 0x2c, 0x09, 0x2d, 0xc4, 0x40, 0x6d, 0x23)
  const R128_6 := Four(0xe8, 0xda, 0xb6, 0x90, 0x14, 0x77, 0xd4, 0x65, 0x3f, 0xf7, 0xf5, 0xe2, 0xe7, 0x47, 0xdd, 0x4f)
  const R128_7 := Four(0xb4, 0x58, 0x12, 0x4c, 0x68, 0xb6, 0x8a, 0x01, 0x4b, 0x99, 0xf8, 0x2e, 0x5f, 0x15, 0x55, 0x4c)
  const R128_8 := Four(0x3e, 0x1c, 0x22, 0xc0, 0xb6, 0xfc, 0xbf, 0x76, 0x8d, 0xa8, 0x50, 0x67, 0xf6, 0x17, 0x04, 0x95)
  const R128_9 := Four(0x54, 0xd9, 0x90, 0xa1, 0x6b, 0xa0, 0x9a, 0xb5, 0x96, 0xbb, 0xf4, 0x0e, 0xa1, 0x11, 0x70, 0x2f)
  const R128_10 := Four(0x7a, 0xd5, 0xfd, 0xa7, 0x89, 0xef, 0x4e, 0x27, 0x2b, 0xca, 0x10, 0x0b, 0x3d, 0x9f, 0xf5, 0x9f)

  // The round keys for 192 bits, the states after them, and the rotated rows of each round.
  const K192_0 := Four(0x00, 0x01, 0x02, 0x03, 0x04, 0x05, 0x06, 0x07, 0x08, 0x09, 0x0a, 0x0b, 0x0c, 0x0d, 0x0e, 0x0f)
  const K192_1 := Four(0x10, 0x11, 0x12, 0x13, 0x14, 0x15, 0x16, 0x17, 0x58, 0x46, 0xf2, 0xf9, 0x5c, 0x43, 0xf4, 0xfe)
  const K192_2 := Four(0x54, 0x4a, 0xfe, 0xf5, 0x58, 0x47, 0xf0, 0xfa, 0x48, 0x56, 0xe2, 0xe9, 0x5c, 0x43, 0xf4, 0xfe)
  const K192_3 := Four(0x40, 0xf9, 0x49, 0xb3, 0x1c, 0xba, 0xbd, 0x4d, 0x48, 0xf0, 0x43, 0xb8, 0x10, 0xb7, 0xb3, 0x42)
  const K192_4 := Four(0x58, 0xe1, 0x51, 0xab, 0x04, 0xa2, 0xa5, 0x55, 0x7e, 0xff, 0xb5, 0x41, 0x62, 0x45, 0x08, 0x0c)
  const K192_5 := Four(0x2a, 0xb5, 0x4b, 0xb4, 0x3a, 0x02, 0xf8, 0xf6, 0x62, 0xe3, 0xa9, 0x5d, 0x66, 0x41, 0x0c, 0x08)
  const K192_6 := Four(0xf5, 0x01, 0x85, 0x72, 0x97, 0x44, 0x8d, 0x7e, 0xbd, 0xf1, 0xc6, 0xca, 0x87, 0xf3, 0x3e, 0x3c)
  const K192_7 := Four(0xe5, 0x10, 0x97, 0x61, 0x83, 0x51, 0x9b, 0x69, 0x34, 0x15, 0x7c, 0x9e, 0xa3, 0x51, 0xf1, 0xe0)
  const K192_8 := Four(0x1e, 0xa0, 0x37, 0x2a, 0x99, 0x53, 0x09, 0x16, 0x7c, 0x43, 0x9e, 0x77, 0xff, 0x12, 0x05, 0x1e)
  const K192_9 := Four(0xdd, 0x7e, 0x0e, 0x88, 0x7e, 0x2f, 0xff, 0x68, 0x60, 0x8f, 0xc8, 0x42, 0xf9, 0xdc, 0xc1, 0x54)
  const K192_10 := Four(0x85, 0x9f, 0x5f, 0x23, 0x7a, 0x8d, 0x5a, 0x3d, 0xc0, 0xc0, 0x29, 0x52, 0xbe, 0xef, 0xd6, 0x3a)
  const K192_11 := Four(0xde, 0x60, 0x1e, 0x78, 0x27, 0xbc, 0xdf, 0x2c, 0xa2, 0x23, 0x80, 0x0f, 0xd8, 0xae, 0xda, 0x32)
  const K192_12 := Four(0xa4, 0x97, 0x0a, 0x33, 0x1a, 0x78, 0xdc, 0x09, 0xc4, 0x18, 0xc2, 0x71, 0xe3, 0xa4, 0x1d, 0x5d)
  const S192_0 := Four(0x00, 0x10, 0x20, 0x30, 0x40, 0x50, 0x60, 0x70, 0x80, 0x90, 0xa0, 0xb0, 0xc0, 0xd0, 0xe0, 0xf0)
  const S192_1 := Four(0x4f, 0x63, 0x76, 0x06, 0x43, 0xe0, 0xaa, 0x85, 0xaf, 0xf8, 0xc9, 0xd0, 0x41, 0xfa, 0x0d, 0xe4)
  const S192_2 := Four(0xcb, 0x02, 0x81, 0x8c, 0x17, 0xd2, 0xaf, 0x9c, 0x62, 0xaa, 0x64, 0x42, 0x8b, 0xb2, 0x5f, 0xd7)
  const S192_3 := Four(0xf7, 0x5c, 0x77, 0x78, 0xa3, 0x27, 0xc8, 0xed, 0x8c, 0xfe, 0xbf, 0xc1, 0xa6, 0xc3, 0x7f, 0x53)
  const S192_4 := Four(0x22, 0xff, 0xc9, 0x16, 0xa8, 0x14, 0x74, 0x41, 0x64, 0x96, 0xf1, 0x9c, 0x64, 0xae, 0x25, 0x32)
  const S192_5 := Four(0x80, 0x12, 0x1e, 0x07, 0x76, 0xfd, 0x1d, 0x8a, 0x8d, 0x8c, 0x31, 0xbc, 0x96, 0x5d, 0x1f, 0xee)
  const S192_6 := Four(0x67, 0x1e, 0xf1, 0xfd, 0x4e, 0x2a, 0x1e, 0x03, 0xdf, 0xdc, 0xb1, 0xef, 0x3d, 0x78, 0x9b, 0x30)
  const S192_7 := Four(0x0c, 0x03, 0x70, 0xd0, 0x0c, 0x01, 0xe6, 0x22, 0x16, 0x6b, 0x8a, 0xcc, 0xd6, 0xdb, 0x3a, 0x2c)
  const S192_8 := Four(0x72, 0x55, 0xda, 0xd3, 0x0f, 0xb8, 0x03, 0x10, 0xe0, 0x0d, 0x6c, 0x6b, 0x40, 0xd0, 0x52, 0x7c)
  const S192_9 := Four(0xa9, 0x06, 0xb2, 0x54, 0x96, 0x8a, 0xf4, 0xe9, 0xb4, 0xbd, 0xb2, 0xd2, 0xf0, 0xc4, 0x43, 0x36)
  const S192_10 := Four(0x88, 0xec, 0x93, 0x0e, 0xf5, 0xe7, 0xe4, 0xb6, 0xcc, 0x32, 0xf4, 0xc9, 0x06, 0xd2, 0x94, 0x14)
  const S192_11 := Four(0xaf, 0xb7, 0x3e, 0xeb, 0x1c, 0xd1, 0xb8, 0x51, 0x62, 0x28, 0x0f, 0x27, 0xfb, 0x20, 0xd5, 0x85)
  const S192_12 := Four(0xdd, 0xa9, 0x7c, 0xa4, 0x86, 0x4c, 0xdf, 0xe0, 0x6e, 0xaf, 0x70, 0xa0, 0xec, 0x0d, 0x71, 0x91)
  const R192_1 := Four(0x63, 0x53, 0xe0, 0x8c, 0x09, 0x60, 0xe1, 0x04, 0xcd, 0x70, 0xb7, 0x51, 0xba, 0xca, 0xd0, 0xe7)
  const R192_2 := Four(0x84, 0xe1, 0xdd, 0x69, 0x1a, 0x41, 0xd7, 0x6f, 0x79, 0x2d, 0x38, 0x97, 0x83, 0xfb, 0xac, 0x70)
  const R192_3 := Four(0x1f, 0xb5, 0x43, 0x0e, 0xf0, 0xac, 0xcf, 0x64, 0xaa, 0x37, 0x0c, 0xde, 0x3d, 0x77, 0x79, 0x2c)
  const R192_4 := Four(0x68, 0xcc, 0x08, 0xed, 0x0a, 0xbb, 0xd2, 0xbc, 0x64, 0x2e, 0xf5, 0x55, 0x24, 0x4a, 0xe8, 0x78)
  const R192_5 := Four(0x93, 0xfa, 0xa1, 0x23, 0xc2, 0x90, 0x3f, 0x47, 0x43, 0xe4, 0xdd, 0x83, 0x43, 0x16, 0x92, 0xde)
  const R192_6 := Four(0xcd, 0x54, 0xc7, 0x28, 0x38, 0x64, 0xc0, 0xc5, 0x5d, 0x4c, 0x72, 0x7e, 0x90, 0xc9, 0xa4, 0x65)
  const R192_7 := Four(0x85, 0xe5, 0xc8, 0x04, 0x2f, 0x86, 0x14, 0x54, 0x9e, 0xbc, 0xa1, 0x7b, 0x27, 0x72, 0x72, 0xdf)
  const R192_8 := Four(0xfe, 0x7c, 0x7e, 0x71, 0xfe, 0x7f, 0x80, 0x70, 0x47, 0xb9, 0x51, 0x93, 0xf6, 0x7b, 0x8e, 0x4b)
  const R192_9 := Four(0x40, 0x6c, 0x50, 0x10, 0x76, 0xd7, 0x00, 0x66, 0xe1, 0x70, 0x57, 0xca, 0x09, 0xfc, 0x7b, 0x7f)
  const R192_10 := Four(0xd3, 0x7e, 0x37, 0x05, 0x90, 0x7a, 0x1a, 0x20, 0x8d, 0x1c, 0x37, 0x1e, 0x8c, 0x6f, 0xbf, 0xb5)
  const R192_11 := Four(0xc4, 0x94, 0xbf, 0xfa, 0xe6, 0x23, 0x22, 0xab, 0x4b, 0xb5, 0xdc, 0x4e, 0x6f, 0xce, 0x69, 0xdd)
  const R192_12 := Four(0x79, 0x3e, 0x76, 0x97, 0x9c, 0x34, 0x03, 0xe9, 0xaa, 0xb7, 0xb2, 0xd1, 0x0f, 0xa9, 0x6c, 0xcc)

  // The round keys for 256 bits, the states after them, and the rotated rows of each round.
  const K256_0 := Four(0x00, 0x01, 0x02, 0x03, 0x04, 0x05, 0x06, 0x07, 0x08, 0x09, 0x0a, 0x0b, 0x0c, 0x0d, 0x0e, 0x0f)
  const K256_1 := Four(0x10, 0x11, 0x12, 0x13, 0x14, 0x15, 0x16, 0x17, 0x18, 0x19, 0x1a, 0x1b, 0x1c, 0x1d, 0x1e, 0x1f)
  const K256_2 := Four(0xa5, 0x73, 0xc2, 0x9f, 0xa1, 0x76, 0xc4, 0x98, 0xa9, 0x7f, 0xce, 0x93, 0xa5, 0x72, 0xc0, 0x9c)
  const K256_3 := Four(0x16, 0x51, 0xa8, 0xcd, 0x02, 0x44, 0xbe, 0xda, 0x1a, 0x5d, 0xa4, 0xc1, 0x06, 0x40, 0xba, 0xde)
  const K256_4 := Four(0xae, 0x87, 0xdf, 0xf0, 0x0f, 0xf1, 0x1b, 0x68, 0xa6, 0x8e, 0xd5, 0xfb, 0x03, 0xfc, 0x15, 0x67)
  const K256_5 := Four(0x6d, 0xe1, 0xf1, 0x48, 0x6f, 0xa5, 0x4f, 0x92, 0x75, 0xf8, 0xeb, 0x53, 0x73, 0xb8, 0x51, 0x8d)
  const K256_6 := Four(0xc6, 0x56, 0x82, 0x7f, 0xc9, 0xa7, 0x99, 0x17, 0x6f, 0x29, 0x4c, 0xec, 0x6c, 0xd5, 0x59, 0x8b)
  const K256_7 := Four(0x3d, 0xe2, 0x3a, 0x75, 0x52, 0x47, 0x75, 0xe7, 0x27, 0xbf, 0x9e, 0xb4, 0x54, 0x07, 0xcf, 0x39)
  const K256_8 := Four(0x0b, 0xdc, 0x90, 0x5f, 0xc2, 0x7b, 0x09, 0x48, 0xad, 0x52, 0x45, 0xa4, 0xc1, 0x87, 0x1c, 0x2f)
  const K256_9 := Four(0x45, 0xf5, 0xa6, 0x60, 0x17, 0xb2, 0xd3, 0x87, 0x30, 0x0d, 0x4d, 0x33, 0x64, 0x0a, 0x82, 0x0a)
  const K256_10 := Four(0x7c, 0xcf, 0xf7, 0x1c, 0xbe, 0xb4, 0xfe, 0x54, 0x13, 0xe6, 0xbb, 0xf0, 0xd2, 0x61, 0xa7, 0xdf)
  const K256_11 := Four(0xf0, 0x1a, 0xfa, 0xfe, 0xe7, 0xa8, 0x29, 0x79, 0xd7, 0xa5, 0x64, 0x4a, 0xb3, 0xaf, 0xe6, 0x40)
  const K256_12 := Four(0x25, 0x41, 0xfe, 0x71, 0x9b, 0xf5, 0x00, 0x25, 0x88, 0x13, 0xbb, 0xd5, 0x5a, 0x72, 0x1c, 0x0a)
  const K256_13 := Four(0x4e, 0x5a, 0x66, 0x99, 0xa9, 0xf2, 0x4f, 0xe0, 0x7e, 0x57, 0x2b, 0xaa, 0xcd, 0xf8, 0xcd, 0xea)
  const K256_14 := Four(0x24, 0xfc, 0x79, 0xcc, 0xbf, 0x09, 0x79, 0xe9, 0x37, 0x1a, 0xc2, 0x3c, 0x6d, 0x68, 0xde, 0x36)
  const S256_0 := Four(0x00, 0x10, 0x20, 0x30, 0x40, 0x50, 0x60, 0x70, 0x80, 0x90, 0xa0, 0xb0, 0xc0, 0xd0, 0xe0, 0xf0)
  const S256_1 := Four(0x4f, 0x63, 0x76, 0x06, 0x43, 0xe0, 0xaa, 0x85, 0xef, 0xa7, 0x21, 0x32, 0x01, 0xa4, 0xe7, 0x05)
  const S256_2 := Four(0x18, 0x59, 0xfb, 0xc2, 0x8a, 0x1c, 0x00, 0xa0, 0x78, 0xed, 0x8a, 0xad, 0xc4, 0x2f, 0x61, 0x09)
  const S256_3 := Four(0x97, 0x5c, 0x66, 0xc1, 0xcb, 0x9f, 0x3f, 0xa8, 0xa9, 0x3a, 0x28, 0xdf, 0x8e, 0xe1, 0x0f, 0x63)
  const S256_4 := Four(0x1c, 0x05, 0xf2, 0x71, 0xa4, 0x17, 0xe0, 0x4f, 0xf9, 0x21, 0xc5, 0xc1, 0x04, 0x70, 0x15, 0x54)
  const S256_5 := Four(0xc3, 0x57, 0xaa, 0xe1, 0x1b, 0x45, 0xb7, 0xb0, 0xa2, 0xc7, 0xbd, 0x28, 0xa8, 0xdc, 0x99, 0xfa)
  const S256_6 := Four(0x7f, 0x07, 0x41, 0x43, 0xcb, 0x4e, 0x24, 0x3e, 0xc1, 0x0c, 0x81, 0x5d, 0x83, 0x75, 0xd5, 0x4c)
  const S256_7 := Four(0xd6, 0x53, 0xa4, 0x69, 0x6c, 0xa0, 0xbc, 0x0f, 0x5a, 0xca, 0xab, 0x5d, 0xb9, 0x6c, 0x5e, 0x7d)
  const S256_8 := Four(0x5a, 0xa8, 0x58, 0x39, 0x5f, 0xd2, 0x8d, 0x7d, 0x05, 0xe1, 0xa3, 0x88, 0x68, 0xf3, 0xb9, 0xc5)
  const S256_9 := Four(0x4a, 0x82, 0x48, 0x51, 0xc5, 0x7e, 0x7e, 0x47, 0x64, 0x3d, 0xe5, 0x0c, 0x2a, 0xf3, 0xe8, 0xc9)
  const S256_10 := Four(0xc1, 0x49, 0x07, 0xf6, 0xca, 0x3b, 0x3a, 0xa0, 0x70, 0xe9, 0xaa, 0x31, 0x3b, 0x52, 0xb5, 0xec)
  const S256_11 := Four(0x5f, 0x9c, 0x6a, 0xbf, 0xba, 0xc6, 0x34, 0xaa, 0x50, 0x40, 0x9f, 0xa7, 0x66, 0x67, 0x76, 0x53)
  const S256_12 := Four(0x51, 0x66, 0x04, 0x95, 0x43, 0x53, 0x95, 0x03, 0x14, 0xfb, 0x86, 0xe4, 0x01, 0x92, 0x25, 0x21)
  const S256_13 := Four(0x62, 0x7b, 0xce, 0xb9, 0x99, 0x9d, 0x5a, 0xaa, 0xc9, 0x45, 0xec, 0xf4, 0x23, 0xf5, 0x6d, 0xa5)
  const S256_14 := Four(0x8e, 0xa2, 0xb7, 0xca, 0x51, 0x67, 0x45, 0xbf, 0xea, 0xfc, 0x49, 0x90, 0x4b, 0x49, 0x60, 0x89)
  const R256_1 := Four(0x63, 0x53, 0xe0, 0x8c, 0x09, 0x60, 0xe1, 0x04, 0xcd, 0x70, 0xb7, 0x51, 0xba, 0xca, 0xd0, 0xe7)
  const R256_2 := Four(0x84, 0xe1, 0xfd, 0x6b, 0x1a, 0x5c, 0x94, 0x6f, 0xdf, 0x49, 0x38, 0x97, 0x7c, 0xfb, 0xac, 0x23)
  const R256_3 := Four(0xad, 0x9c, 0x7e, 0x01, 0x7e, 0x55, 0xef, 0x25, 0xbc, 0x15, 0x0f, 0xe0, 0x1c, 0xcb, 0x63, 0x95)
  const R256_4 := Four(0x88, 0xdb, 0x34, 0xfb, 0x1f, 0x80, 0x76, 0x78, 0xd3, 0xf8, 0x33, 0xc2, 0x19, 0x4a, 0x75, 0x9e)
  const R256_5 := Four(0x9c, 0xf0, 0xa6, 0x20, 0x49, 0xfd, 0x59, 0xa3, 0x99, 0x51, 0x89, 0x84, 0xf2, 0x6b, 0xe1, 0x78)
  const R256_6 := Four(0x2e, 0x6e, 0x7a, 0x2d, 0xaf, 0xc6, 0xee, 0xf8, 0x3a, 0x86, 0xac, 0xe7, 0xc2, 0x5b, 0xa9, 0x34)
  const R256_7 := Four(0xd2, 0x2f, 0x0c, 0x29, 0x1f, 0xfe, 0x03, 0x1a, 0x78, 0x9d, 0x83, 0xb2, 0xec, 0xc5, 0x36, 0x4c)
  const R256_8 := Four(0xf6, 0xe0, 0x62, 0xff, 0x50, 0x74, 0x58, 0xf9, 0xbe, 0x50, 0x49, 0x76, 0x56, 0xed, 0x65, 0x4c)
  const R256_9 := Four(0xbe, 0xb5, 0x0a, 0xa6, 0xcf, 0xf8, 0x56, 0x12, 0x6b, 0x0d, 0x6a, 0xff, 0x45, 0xc2, 0x5d, 0xc4)
  const R256_10 := Four(0xd6, 0xf3, 0xd9, 0xdd, 0xa6, 0x27, 0x9b, 0xd1, 0x43, 0x0d, 0x52, 0xa0, 0xe5, 0x13, 0xf3, 0xfe)
  const R256_11 := Four(0x78, 0xe2, 0xac, 0xce, 0x74, 0x1e, 0xd5, 0x42, 0x51, 0x00, 0xc5, 0xe0, 0xe2, 0x3b, 0x80, 0xc7)
  const R256_12 := Four(0xcf, 0xb4, 0xdb, 0xed, 0xf4, 0x09, 0x38, 0x08, 0x53, 0x85, 0x02, 0xac, 0x33, 0xde, 0x18, 0x5c)
  const R256_13 := Four(0xd1, 0xed, 0x44, 0xfd, 0x1a, 0x0f, 0x3f, 0x2a, 0xfa, 0x4f, 0xf2, 0x7b, 0x7c, 0x33, 0x2a, 0x69)
  const R256_14 := Four(0xaa, 0x5e, 0xce, 0x06, 0xee, 0x6e, 0x3c, 0x56, 0xdd, 0xe6, 0x8b, 0xac, 0x26, 0x21, 0xbe, 0xbf)

  // ----- the key schedule

  /** Round key r is k. */
  predicate KeyIs(nk: nat, r: nat, k: State)
    requires 0 < nk <= 8
  {
    var key := Api.Padded(Key(nk));
    && KeyWord(key, nk, 4 * r) == k.w && KeyWord(key, nk, 4 * r + 1) == k.x
    && KeyWord(key, nk, 4 * r + 2) == k.y && KeyWord(key, nk, 4 * r + 3) == k.z
  }

  /** The rotated and substituted word, with its round constant. */
  function Core(w: Word, c: nat): Word {
    AddWords(SubWord(RotWord(w)), Rcon(c))
  }

  /** The words of k are those of one key length before plus the word in front of each, where
      the first and the third of these may have been mixed. */
  predicate KeyFollows(back: State, first: Word, third: Word, k: State) {
    && k.w == AddWords(back.w, first) && k.x == AddWords(back.x, k.w)
    && k.y == AddWords(back.y, third) && k.z == AddWords(back.z, k.y)
  }

  /** One word of the schedule from the two that it depends on. */
  lemma WordFrom(key: seq<bv8>, nk: nat, i: nat, back: Word, last: Word)
    requires 4 <= nk <= i && |key| >= 4 * nk && KeyWord(key, nk, i - nk) == back && KeyWord(key, nk, i - 1) == last
    ensures i % nk == 0 ==> KeyWord(key, nk, i) == AddWords(back, Core(last, i / nk))
    ensures i % nk != 0 && !(nk > 6 && i % nk == 4) ==> KeyWord(key, nk, i) == AddWords(back, last)
    ensures i % nk == 4 && nk > 6 ==> KeyWord(key, nk, i) == AddWords(back, SubWord(last))
  {
    hide SubWord, RotWord, Rcon, AddWords;
  }

  lemma NextKey128(r: nat, q: State, k: State)
    requires r >= 1 && KeyIs(4, r - 1, q) && KeyFollows(q, Core(q.z, r), k.x, k)
    ensures KeyIs(4, r, k)
  {
    hide KeyWord, Key, Api.Padded, Core, AddWords;
    var key := Api.Padded(Key(4));
    WordFrom(key, 4, 4 * r, q.w, q.z);
    WordFrom(key, 4, 4 * r + 1, q.x, k.w);
    WordFrom(key, 4, 4 * r + 2, q.y, k.x);
    WordFrom(key, 4, 4 * r + 3, q.z, k.y);
  }

  /** The words of one key length of 192 bits before a round key. */
  function Middle(p: State, q: State): State {
    State(p.y, p.z, q.w, q.x)
  }

  lemma NextKey192(r: nat, p: State, q: State, k: State)
    requires r >= 2 && KeyIs(6, r - 2, p) && KeyIs(6, r - 1, q)
    requires KeyFollows(Middle(p, q), if r % 3 == 0 then Core(q.z, 4 * r / 6) else q.z,
                        if r % 3 == 1 then Core(k.x, (4 * r + 2) / 6) else k.x, k)
    ensures KeyIs(6, r, k)
  {
    hide KeyWord, Key, Api.Padded, Core, AddWords;
    var key := Api.Padded(Key(6));
    Sixths(r);
    WordFrom(key, 6, 4 * r, p.y, q.z);
    WordFrom(key, 6, 4 * r + 1, p.z, k.w);
    WordFrom(key, 6, 4 * r + 2, q.w, k.x);
    WordFrom(key, 6, 4 * r + 3, q.x, k.y);
  }

  lemma Sixths(r: nat)
    ensures (4 * r % 6 == 0 <==> r % 3 == 0) && (4 * r + 1) % 6 != 0
    ensures ((4 * r + 2) % 6 == 0 <==> r % 3 == 1) && (4 * r + 3) % 6 != 0
  {
    var q, m := r / 3, r % 3;
    assert 4 * r == 6 * (2 * q) + 4 * m;
    SixTimes(2 * q, 4 * m);
    SixTimes(2 * q, 4 * m + 1);
    SixTimes(2 * q, 4 * m + 2);
    SixTimes(2 * q, 4 * m + 3);
    assert m == 0 || m == 1 || m == 2;
  }

  lemma SixTimes(a: nat, b: nat)
    ensures (6 * a + b) % 6 == b % 6
  {
  }

  lemma NextKey256(r: nat, p: State, q: State, k: State)
    requires r >= 2 && KeyIs(8, r - 2, p) && KeyIs(8, r - 1, q)
    requires KeyFollows(p, if r % 2 == 0 then Core(q.z, r / 2) else SubWord(q.z), k.x, k)
    ensures KeyIs(8, r, k)
  {
    hide KeyWord, Key, Api.Padded, Core, AddWords, SubWord;
    var key := Api.Padded(Key(8));
    Eighths(r);
    WordFrom(key, 8, 4 * r, p.w, q.z);
    WordFrom(key, 8, 4 * r + 1, p.x, k.w);
    WordFrom(key, 8, 4 * r + 2, p.y, k.x);
    WordFrom(key, 8, 4 * r + 3, p.z, k.y);
  }

  lemma Eighths(r: nat)
    ensures 4 * r % 8 == (if r % 2 == 0 then 0 else 4) && 4 * r / 8 == r / 2
    ensures (4 * r + 1) % 8 !in {0, 4} && (4 * r + 2) % 8 !in {0, 4} && (4 * r + 3) % 8 !in {0, 4}
  {
  }

  lemma KeyStart(nk: nat, i: nat)
    requires i < nk <= 8
    ensures KeyWord(Api.Padded(Key(nk)), nk, i) ==
            Word((4 * i) as bv8, (4 * i + 1) as bv8, (4 * i + 2) as bv8, (4 * i + 3) as bv8)
  {
  }

  lemma FirstKeys128()
    ensures KeyIs(4, 0, K128_0)
  {
    hide KeyWord;
    KeyStart(4, 0);
    KeyStart(4, 1);
    KeyStart(4, 2);
    KeyStart(4, 3);
  }

  lemma FirstKeys256()
    ensures KeyIs(8, 0, K256_0) && KeyIs(8, 1, K256_1)
  {
    FirstKey256();
    SecondKey256();
  }

  lemma FirstKey256()
    ensures KeyIs(8, 0, K256_0)
  {
    hide KeyWord;
    KeyStart(8, 0);
    KeyStart(8, 1);
    KeyStart(8, 2);
    KeyStart(8, 3);
  }

  lemma SecondKey256()
    ensures KeyIs(8, 1, K256_1)
  {
    hide KeyWord;
    KeyStart(8, 4);
    KeyStart(8, 5);
    KeyStart(8, 6);
    KeyStart(8, 7);
  }

  lemma FirstKeys192()
    ensures KeyIs(6, 0, K192_0) && KeyIs(6, 1, K192_1)
  {
    hide KeyWord, AddWords, Core, Key, Api.Padded;
    var key := Api.Padded(Key(6));
    KeyStart(6, 0);
    KeyStart(6, 1);
    KeyStart(6, 2);
    KeyStart(6, 3);
    KeyStart(6, 4);
    KeyStart(6, 5);
    SixthWord();
    WordFrom(key, 6, 6, K192_0.w, K192_1.x);
    WordFrom(key, 6, 7, K192_0.x, K192_1.y);
  }

  /** The first words behind the key of 192 bits. */
  lemma SixthWord()
    ensures AddWords(K192_0.w, Core(K192_1.x, 1)) == K192_1.y && AddWords(K192_0.x, K192_1.y) == K192_1.z
  {
  }

  // ----- the rounds

  function SubState(s: State): State {
    State(SubWord(s.w), SubWord(s.x), SubWord(s.y), SubWord(s.z))
  }

  function Shifted(s: State): State {
    State(Word(s.w.b0, s.x.b1, s.y.b2, s.z.b3), Word(s.x.b0, s.y.b1, s.z.b2, s.w.b3),
          Word(s.y.b0, s.z.b1, s.w.b2, s.x.b3), Word(s.z.b0, s.w.b1, s.x.b2, s.y.b3))
  }

  function MixWord(w: Word): Word {
    var m := Mix(Column(w.b0, w.b1, w.b2, w.b3));
    Word(m.a, m.b, m.c, m.d)
  }

  function MixState(s: State): State {
    State(MixWord(s.w), MixWord(s.x), MixWord(s.y), MixWord(s.z))
  }

  function AddState(s: State, k: State): State {
    State(AddWords(s.w, k.w), AddWords(s.x, k.x), AddWords(s.y, k.y), AddWords(s.z, k.z))
  }

  predicate RoundIs(s: State, rows: State, k: State, t: State) {
    rows == Shifted(SubState(s)) && t == AddState(MixState(rows), k)
  }

  function Schedule(nk: nat): (keys: seq<bv8>)
    requires nk in {4, 6, 8}
    ensures |keys| == 240
  {
    Api.Keys(32 * nk, Key(nk))
  }

  /** The cipher is in state s after round r. */
  predicate StateIs(nk: nat, r: nat, s: State)
    requires nk in {4, 6, 8} && r < nk + 6
  {
    Rounds(Plain(), Schedule(nk), r) == Flat(s)
  }

  lemma SubIs(s: State)
    ensures SubBytes(Flat(s)) == Flat(SubState(s))
  {
    hide Sbox, Item;
    forall i | 0 <= i < 16 ensures Sbox(Item(s, i)) == Item(SubState(s), i) {
      SubItem(s, i);
    }
  }

  lemma SubItem(s: State, i: nat)
    requires i < 16
    ensures Sbox(Item(s, i)) == Item(SubState(s), i)
  {
    hide Sbox;
  }

  lemma FlatItems(s: State)
    ensures var t := Flat(s);
            && t[0] == s.w.b0 && t[1] == s.w.b1 && t[2] == s.w.b2 && t[3] == s.w.b3
            && t[4] == s.x.b0 && t[5] == s.x.b1 && t[6] == s.x.b2 && t[7] == s.x.b3
            && t[8] == s.y.b0 && t[9] == s.y.b1 && t[10] == s.y.b2 && t[11] == s.y.b3
            && t[12] == s.z.b0 && t[13] == s.z.b1 && t[14] == s.z.b2 && t[15] == s.z.b3
  {
  }

  lemma ShiftIs(s: State)
    ensures ShiftRows(Flat(s)) == Flat(Shifted(s))
  {
    hide Flat, Item;
    FlatItems(s);
    FlatItems(Shifted(s));
    var t, u := ShiftRows(Flat(s)), Flat(Shifted(s));
    assert t[0] == u[0] && t[1] == u[1] && t[2] == u[2] && t[3] == u[3];
    assert t[4] == u[4] && t[5] == u[5] && t[6] == u[6] && t[7] == u[7];
    assert t[8] == u[8] && t[9] == u[9] && t[10] == u[10] && t[11] == u[11];
    assert t[12] == u[12] && t[13] == u[13] && t[14] == u[14] && t[15] == u[15];
  }

  lemma MixIs(s: State)
    ensures MixColumns(Flat(s)) == Flat(MixState(s))
  {
    hide Mix, FromColumns, Flat, ColumnOf, MixWord;
    var t, u := MixColumns(Flat(s)), Flat(MixState(s));
    MixedColumn(s, 0);
    MixedColumn(s, 1);
    MixedColumn(s, 2);
    MixedColumn(s, 3);
    ColumnsDetermine(t, u);
  }

  lemma MixedColumn(s: State, c: nat)
    requires c < 4
    ensures ColumnOf(MixColumns(Flat(s)), c) == ColumnOf(Flat(MixState(s)), c)
  {
    hide Mix, FromColumns, Flat, ColumnOf;
    ColumnOfFlat(s, c);
    ColumnOfFlat(MixState(s), c);
  }

  lemma ColumnOfFlat(s: State, c: nat)
    requires c < 4
    ensures var w := WordOf(s, c); ColumnOf(Flat(s), c) == Column(w.b0, w.b1, w.b2, w.b3)
  {
    hide Flat, Item;
    FlatItems(s);
  }

  lemma AddIs(s: State, keys: seq<bv8>, r: nat, k: State)
    requires |keys| == 240 && r < 15 && forall i :: 0 <= i < 16 ==> keys[16 * r + i] == Item(k, i)
    ensures AddRoundKey(Flat(s), keys, r) == Flat(AddState(s, k))
  {
    hide Add, Item;
    forall i | 0 <= i < 16 ensures Add(Item(s, i), Item(k, i)) == Item(AddState(s, k), i) {
      AddItem(s, k, i);
    }
  }

  lemma AddItem(s: State, k: State, i: nat)
    requires i < 16
    ensures Add(Item(s, i), Item(k, i)) == Item(AddState(s, k), i)
  {
    hide Add;
  }

  lemma RoundKeyIs(nk: nat, r: nat, k: State)
    requires nk in {4, 6, 8} && r < nk + 7 && KeyIs(nk, r, k)
    ensures forall i :: 0 <= i < 16 ==> Schedule(nk)[16 * r + i] == Item(k, i)
  {
    hide KeyWord, Api.Padded, Key;
    forall i | 0 <= i < 16 ensures Schedule(nk)[16 * r + i] == Item(k, i) {
      ScheduleByte(nk, 16 * r + i);
      assert (16 * r + i) / 4 == 4 * r + i / 4 && (16 * r + i) % 4 == i % 4;
    }
  }

  lemma ScheduleByte(nk: nat, b: nat)
    requires nk in {4, 6, 8} && b < 16 * (nk + 7)
    ensures Schedule(nk)[b] == ByteOf(KeyWord(Api.Padded(Key(nk)), nk, b / 4), b % 4)
  {
    hide KeyWord, Api.Padded, Key;
  }

  lemma FirstState(nk: nat, k: State, s: State)
    requires nk in {4, 6, 8} && KeyIs(nk, 0, k) && s == AddState(PLAIN, k)
    ensures StateIs(nk, 0, s)
  {
    hide KeyIs, AddState, Schedule, Flat, AddRoundKey;
    assert Plain() == Flat(PLAIN);
    RoundKeyIs(nk, 0, k);
    AddIs(PLAIN, Schedule(nk), 0, k);
  }

  lemma NextState(nk: nat, r: nat, s: State, rows: State, k: State, t: State)
    requires nk in {4, 6, 8} && 1 <= r < nk + 6 && StateIs(nk, r - 1, s) && KeyIs(nk, r, k) && RoundIs(s, rows, k, t)
    ensures StateIs(nk, r, t)
  {
    hide KeyIs, Plain, Schedule, Flat, SubState, Shifted, MixState, AddState, SubBytes, ShiftRows, MixColumns,
         AddRoundKey;
    SubIs(s);
    ShiftIs(SubState(s));
    MixIs(rows);
    RoundKeyIs(nk, r, k);
    AddIs(MixState(rows), Schedule(nk), r, k);
  }

  function Encrypted(nk: nat): Block
    requires nk in {4, 6, 8}
  {
    Api.EncryptBlock(32 * nk, Plain(), Key(nk))
  }

  lemma EncryptedIs(nk: nat)
    requires nk in {4, 6, 8}
    ensures Encrypted(nk) == Cipher(Plain(), Schedule(nk), nk + 6)
  {
    hide Cipher, Plain, Key, Api.Padded, Api.Keys;
    Api.PaddedBlock(Plain());
  }

  lemma LastState(nk: nat, s: State, rows: State, k: State, t: State)
    requires nk in {4, 6, 8} && StateIs(nk, nk + 5, s) && KeyIs(nk, nk + 6, k)
    requires rows == Shifted(SubState(s)) && t == AddState(rows, k)
    ensures Encrypted(nk) == Flat(t)
  {
    hide KeyIs, Plain, Schedule, Flat, SubState, Shifted, AddState, Rounds, SubBytes, ShiftRows, AddRoundKey, Encrypted;
    EncryptedIs(nk);
    SubIs(s);
    ShiftIs(SubState(s));
    RoundKeyIs(nk, nk + 6, k);
    AddIs(rows, Schedule(nk), nk + 6, k);
  }

  // ----- 128 bits

  lemma Keys128At1()
    ensures KeyFollows(K128_0, Core(K128_0.z, 1), K128_1.x, K128_1)
    ensures KeyFollows(K128_1, Core(K128_1.z, 2), K128_2.x, K128_2)
  {
  }

  lemma Keys128At3()
    ensures KeyFollows(K128_2, Core(K128_2.z, 3), K128_3.x, K128_3)
    ensures KeyFollows(K128_3, Core(K128_3.z, 4), K128_4.x, K128_4)
  {
  }

  lemma Keys128At5()
    ensures KeyFollows(K128_4, Core(K128_4.z, 5), K128_5.x, K128_5)
    ensures KeyFollows(K128_5, Core(K128_5.z, 6), K128_6.x, K128_6)
  {
  }

  lemma Keys128At7()
    ensures KeyFollows(K128_6, Core(K128_6.z, 7), K128_7.x, K128_7)
    ensures KeyFollows(K128_7, Core(K128_7.z, 8), K128_8.x, K128_8)
  {
  }

  lemma Keys128At9()
    ensures KeyFollows(K128_8, Core(K128_8.z, 9), K128_9.x, K128_9)
    ensures KeyFollows(K128_9, Core(K128_9.z, 10), K128_10.x, K128_10)
  {
  }

  lemma Keys128()
    ensures KeyIs(4, 0, K128_0) && KeyIs(4, 1, K128_1) && KeyIs(4, 2, K128_2) && KeyIs(4, 3, K128_3)
    ensures KeyIs(4, 4, K128_4) && KeyIs(4, 5, K128_5) && KeyIs(4, 6, K128_6) && KeyIs(4, 7, K128_7)
    ensures KeyIs(4, 8, K128_8) && KeyIs(4, 9, K128_9) && KeyIs(4, 10, K128_10)
  {
    hide *;
    FirstKeys128();
    Keys128At1();
    NextKey128(1, K128_0, K128_1);
    NextKey128(2, K128_1, K128_2);
    Keys128At3();
    NextKey128(3, K128_2, K128_3);
    NextKey128(4, K128_3, K128_4);
    Keys128At5();
    NextKey128(5, K128_4, K128_5);
    NextKey128(6, K128_5, K128_6);
    Keys128At7();
    NextKey128(7, K128_6, K128_7);
    NextKey128(8, K128_7, K128_8);
    Keys128At9();
    NextKey128(9, K128_8, K128_9);
    NextKey128(10, K128_9, K128_10);
  }

  lemma States128At1()
    ensures RoundIs(S128_0, R128_1, K128_1, S128_1)
  {
  }

  lemma States128At2()
    ensures RoundIs(S128_1, R128_2, K128_2, S128_2)
  {
  }

  lemma States128At3()
    ensures RoundIs(S128_2, R128_3, K128_3, S128_3)
  {
  }

  lemma States128At4()
    ensures RoundIs(S128_3, R128_4, K128_4, S128_4)
  {
  }

  lemma States128At5()
    ensures RoundIs(S128_4, R128_5, K128_5, S128_5)
  {
  }

  lemma States128At6()
    ensures RoundIs(S128_5, R128_6, K128_6, S128_6)
  {
  }

  lemma States128At7()
    ensures RoundIs(S128_6, R128_7, K128_7, S128_7)
  {
  }

  lemma States128At8()
    ensures RoundIs(S128_7, R128_8, K128_8, S128_8)
  {
  }

  lemma States128At9()
    ensures RoundIs(S128_8, R128_9, K128_9, S128_9)
  {
  }

  lemma States128Start()
    ensures S128_0 == AddState(PLAIN, K128_0)
  {
  }

  lemma States128End()
    ensures R128_10 == Shifted(SubState(S128_9)) && S128_10 == AddState(R128_10, K128_10)
  {
  }

  lemma States128()
    ensures Encrypted(4) == Flat(S128_10)
  {
    hide *;
    Keys128();
    States128Start();
    States128End();
    FirstState(4, K128_0, S128_0);
    States128At1();
    NextState(4, 1, S128_0, R128_1, K128_1, S128_1);
    States128At2();
    NextState(4, 2, S128_1, R128_2, K128_2, S128_2);
    States128At3();
    NextState(4, 3, S128_2, R128_3, K128_3, S128_3);
    States128At4();
    NextState(4, 4, S128_3, R128_4, K128_4, S128_4);
    States128At5();
    NextState(4, 5, S128_4, R128_5, K128_5, S128_5);
    States128At6();
    NextState(4, 6, S128_5, R128_6, K128_6, S128_6);
    States128At7();
    NextState(4, 7, S128_6, R128_7, K128_7, S128_7);
    States128At8();
    NextState(4, 8, S128_7, R128_8, K128_8, S128_8);
    States128At9();
    NextState(4, 9, S128_8, R128_9, K128_9, S128_9);
    LastState(4, S128_9, R128_10, K128_10, S128_10);
  }

  /** The cipher text that the standard gives for 128 bits. */
  lemma Example128()
    ensures Api.EncryptBlock(128, Plain(), Key(4)) ==
            Flat(Four(0x69, 0xc4, 0xe0, 0xd8, 0x6a, 0x7b, 0x04, 0x30, 0xd8, 0xcd, 0xb7, 0x80, 0x70, 0xb4, 0xc5, 0x5a))
  {
    hide Flat, Api.EncryptBlock;
    States128();
  }

  // ----- 192 bits

  lemma Keys192At2()
    ensures KeyFollows(Middle(K192_0, K192_1), K192_1.z, K192_2.x, K192_2)
    ensures KeyFollows(Middle(K192_1, K192_2), Core(K192_2.z, 2), K192_3.x, K192_3)
  {
  }

  lemma Keys192At4()
    ensures KeyFollows(Middle(K192_2, K192_3), K192_3.z, Core(K192_4.x, 3), K192_4)
    ensures KeyFollows(Middle(K192_3, K192_4), K192_4.z, K192_5.x, K192_5)
  {
  }

  lemma Keys192At6()
    ensures KeyFollows(Middle(K192_4, K192_5), Core(K192_5.z, 4), K192_6.x, K192_6)
    ensures KeyFollows(Middle(K192_5, K192_6), K192_6.z, Core(K192_7.x, 5), K192_7)
  {
  }

  lemma Keys192At8()
    ensures KeyFollows(Middle(K192_6, K192_7), K192_7.z, K192_8.x, K192_8)
    ensures KeyFollows(Middle(K192_7, K192_8), Core(K192_8.z, 6), K192_9.x, K192_9)
  {
  }

  lemma Keys192At10()
    ensures KeyFollows(Middle(K192_8, K192_9), K192_9.z, Core(K192_10.x, 7), K192_10)
    ensures KeyFollows(Middle(K192_9, K192_10), K192_10.z, K192_11.x, K192_11)
  {
  }

  lemma Keys192At12()
    ensures KeyFollows(Middle(K192_10, K192_11), Core(K192_11.z, 8), K192_12.x, K192_12)
  {
  }

  lemma Keys192()
    ensures KeyIs(6, 0, K192_0) && KeyIs(6, 1, K192_1) && KeyIs(6, 2, K192_2) && KeyIs(6, 3, K192_3)
    ensures KeyIs(6, 4, K192_4) && KeyIs(6, 5, K192_5) && KeyIs(6, 6, K192_6) && KeyIs(6, 7, K192_7)
    ensures KeyIs(6, 8, K192_8) && KeyIs(6, 9, K192_9) && KeyIs(6, 10, K192_10) && KeyIs(6, 11, K192_11)
    ensures KeyIs(6, 12, K192_12)
  {
    hide *;
    FirstKeys192();
    Keys192At2();
    NextKey192(2, K192_0, K192_1, K192_2);
    NextKey192(3, K192_1, K192_2, K192_3);
    Keys192At4();
    NextKey192(4, K192_2, K192_3, K192_4);
    NextKey192(5, K192_3, K192_4, K192_5);
    Keys192At6();
    NextKey192(6, K192_4, K192_5, K192_6);
    NextKey192(7, K192_5, K192_6, K192_7);
    Keys192At8();
    NextKey192(8, K192_6, K192_7, K192_8);
    NextKey192(9, K192_7, K192_8, K192_9);
    Keys192At10();
    NextKey192(10, K192_8, K192_9, K192_10);
    NextKey192(11, K192_9, K192_10, K192_11);
    Keys192At12();
    NextKey192(12, K192_10, K192_11, K192_12);
  }

  lemma States192At1()
    ensures RoundIs(S192_0, R192_1, K192_1, S192_1)
  {
  }

  lemma States192At2()
    ensures RoundIs(S192_1, R192_2, K192_2, S192_2)
  {
  }

  lemma States192At3()
    ensures RoundIs(S192_2, R192_3, K192_3, S192_3)
  {
  }

  lemma States192At4()
    ensures RoundIs(S192_3, R192_4, K192_4, S192_4)
  {
  }

  lemma States192At5()
    ensures RoundIs(S192_4, R192_5, K192_5, S192_5)
  {
  }

  lemma States192At6()
    ensures RoundIs(S192_5, R192_6, K192_6, S192_6)
  {
  }

  lemma States192At7()
    ensures RoundIs(S192_6, R192_7, K192_7, S192_7)
  {
  }

  lemma States192At8()
    ensures RoundIs(S192_7, R192_8, K192_8, S192_8)
  {
  }

  lemma States192At9()
    ensures RoundIs(S192_8, R192_9, K192_9, S192_9)
  {
  }

  lemma States192At10()
    ensures RoundIs(S192_9, R192_10, K192_10, S192_10)
  {
  }

  lemma States192At11()
    ensures RoundIs(S192_10, R192_11, K192_11, S192_11)
  {
  }

  lemma States192Start()
    ensures S192_0 == AddState(PLAIN, K192_0)
  {
  }

  lemma States192End()
    ensures R192_12 == Shifted(SubState(S192_11)) && S192_12 == AddState(R192_12, K192_12)
  {
  }

  lemma States192()
    ensures Encrypted(6) == Flat(S192_12)
  {
    hide *;
    Keys192();
    States192Start();
    States192End();
    FirstState(6, K192_0, S192_0);
    States192At1();
    NextState(6, 1, S192_0, R192_1, K192_1, S192_1);
    States192At2();
    NextState(6, 2, S192_1, R192_2, K192_2, S192_2);
    States192At3();
    NextState(6, 3, S192_2, R192_3, K192_3, S192_3);
    States192At4();
    NextState(6, 4, S192_3, R192_4, K192_4, S192_4);
    States192At5();
    NextState(6, 5, S192_4, R192_5, K192_5, S192_5);
    States192At6();
    NextState(6, 6, S192_5, R192_6, K192_6, S192_6);
    States192At7();
    NextState(6, 7, S192_6, R192_7, K192_7, S192_7);
    States192At8();
    NextState(6, 8, S192_7, R192_8, K192_8, S192_8);
    States192At9();
    NextState(6, 9, S192_8, R192_9, K192_9, S192_9);
    States192At10();
    NextState(6, 10, S192_9, R192_10, K192_10, S192_10);
    States192At11();
    NextState(6, 11, S192_10, R192_11, K192_11, S192_11);
    LastState(6, S192_11, R192_12, K192_12, S192_12);
  }

  /** The cipher text that the standard gives for 192 bits. */
  lemma Example192()
    ensures Api.EncryptBlock(192, Plain(), Key(6)) ==
            Flat(Four(0xdd, 0xa9, 0x7c, 0xa4, 0x86, 0x4c, 0xdf, 0xe0, 0x6e, 0xaf, 0x70, 0xa0, 0xec, 0x0d, 0x71, 0x91))
  {
    hide Flat, Api.EncryptBlock;
    States192();
  }

  // ----- 256 bits

  lemma Keys256At2()
    ensures KeyFollows(K256_0, Core(K256_1.z, 1), K256_2.x, K256_2)
    ensures KeyFollows(K256_1, SubWord(K256_2.z), K256_3.x, K256_3)
  {
  }

  lemma Keys256At4()
    ensures KeyFollows(K256_2, Core(K256_3.z, 2), K256_4.x, K256_4)
    ensures KeyFollows(K256_3, SubWord(K256_4.z), K256_5.x, K256_5)
  {
  }

  lemma Keys256At6()
    ensures KeyFollows(K256_4, Core(K256_5.z, 3), K256_6.x, K256_6)
    ensures KeyFollows(K256_5, SubWord(K256_6.z), K256_7.x, K256_7)
  {
  }

  lemma Keys256At8()
    ensures KeyFollows(K256_6, Core(K256_7.z, 4), K256_8.x, K256_8)
    ensures KeyFollows(K256_7, SubWord(K256_8.z), K256_9.x, K256_9)
  {
  }

  lemma Keys256At10()
    ensures KeyFollows(K256_8, Core(K256_9.z, 5), K256_10.x, K256_10)
    ensures KeyFollows(K256_9, SubWord(K256_10.z), K256_11.x, K256_11)
  {
  }

  lemma Keys256At12()
    ensures KeyFollows(K256_10, Core(K256_11.z, 6), K256_12.x, K256_12)
    ensures KeyFollows(K256_11, SubWord(K256_12.z), K256_13.x, K256_13)
  {
  }

  lemma Keys256At14()
    ensures KeyFollows(K256_12, Core(K256_13.z, 7), K256_14.x, K256_14)
  {
  }

  lemma Keys256()
    ensures KeyIs(8, 0, K256_0) && KeyIs(8, 1, K256_1) && KeyIs(8, 2, K256_2) && KeyIs(8, 3, K256_3)
    ensures KeyIs(8, 4, K256_4) && KeyIs(8, 5, K256_5) && KeyIs(8, 6, K256_6) && KeyIs(8, 7, K256_7)
    ensures KeyIs(8, 8, K256_8) && KeyIs(8, 9, K256_9) && KeyIs(8, 10, K256_10) && KeyIs(8, 11, K256_11)
    ensures KeyIs(8, 12, K256_12) && KeyIs(8, 13, K256_13) && KeyIs(8, 14, K256_14)
  {
    hide *;
    FirstKeys256();
    Keys256At2();
    NextKey256(2, K256_0, K256_1, K256_2);
    NextKey256(3, K256_1, K256_2, K256_3);
    Keys256At4();
    NextKey256(4, K256_2, K256_3, K256_4);
    NextKey256(5, K256_3, K256_4, K256_5);
    Keys256At6();
    NextKey256(6, K256_4, K256_5, K256_6);
    NextKey256(7, K256_5, K256_6, K256_7);
    Keys256At8();
    NextKey256(8, K256_6, K256_7, K256_8);
    NextKey256(9, K256_7, K256_8, K256_9);
    Keys256At10();
    NextKey256(10, K256_8, K256_9, K256_10);
    NextKey256(11, K256_9, K256_10, K256_11);
    Keys256At12();
    NextKey256(12, K256_10, K256_11, K256_12);
    NextKey256(13, K256_11, K256_12, K256_13);
    Keys256At14();
    NextKey256(14, K256_12, K256_13, K256_14);
  }

  lemma States256At1()
    ensures RoundIs(S256_0, R256_1, K256_1, S256_1)
  {
  }

  lemma States256At2()
    ensures RoundIs(S256_1, R256_2, K256_2, S256_2)
  {
  }

  lemma States256At3()
    ensures RoundIs(S256_2, R256_3, K256_3, S256_3)
  {
  }

  lemma States256At4()
    ensures RoundIs(S256_3, R256_4, K256_4, S256_4)
  {
  }

  lemma States256At5()
    ensures RoundIs(S256_4, R256_5, K256_5, S256_5)
  {
  }

  lemma States256At6()
    ensures RoundIs(S256_5, R256_6, K256_6, S256_6)
  {
  }

  lemma States256At7()
    ensures RoundIs(S256_6, R256_7, K256_7, S256_7)
  {
  }

  lemma States256At8()
    ensures RoundIs(S256_7, R256_8, K256_8, S256_8)
  {
  }

  lemma States256At9()
    ensures RoundIs(S256_8, R256_9, K256_9, S256_9)
  {
  }

  lemma States256At10()
    ensures RoundIs(S256_9, R256_10, K256_10, S256_10)
  {
  }

  lemma States256At11()
    ensures RoundIs(S256_10, R256_11, K256_11, S256_11)
  {
  }

  lemma States256At12()
    ensures RoundIs(S256_11, R256_12, K256_12, S256_12)
  {
  }

  lemma States256At13()
    ensures RoundIs(S256_12, R256_13, K256_13, S256_13)
  {
  }

  lemma States256Start()
    ensures S256_0 == AddState(PLAIN, K256_0)
  {
  }

  lemma States256End()
    ensures R256_14 == Shifted(SubState(S256_13)) && S256_14 == AddState(R256_14, K256_14)
  {
  }

  lemma States256()
    ensures Encrypted(8) == Flat(S256_14)
  {
    hide *;
    Keys256();
    States256Start();
    States256End();
    FirstState(8, K256_0, S256_0);
    States256At1();
    NextState(8, 1, S256_0, R256_1, K256_1, S256_1);
    States256At2();
    NextState(8, 2, S256_1, R256_2, K256_2, S256_2);
    States256At3();
    NextState(8, 3, S256_2, R256_3, K256_3, S256_3);
    States256At4();
    NextState(8, 4, S256_3, R256_4, K256_4, S256_4);
    States256At5();
    NextState(8, 5, S256_4, R256_5, K256_5, S256_5);
    States256At6();
    NextState(8, 6, S256_5, R256_6, K256_6, S256_6);
    States256At7();
    NextState(8, 7, S256_6, R256_7, K256_7, S256_7);
    States256At8();
    NextState(8, 8, S256_7, R256_8, K256_8, S256_8);
    States256At9();
    NextState(8, 9, S256_8, R256_9, K256_9, S256_9);
    States256At10();
    NextState(8, 10, S256_9, R256_10, K256_10, S256_10);
    States256At11();
    NextState(8, 11, S256_10, R256_11, K256_11, S256_11);
    States256At12();
    NextState(8, 12, S256_11, R256_12, K256_12, S256_12);
    States256At13();
    NextState(8, 13, S256_12, R256_13, K256_13, S256_13);
    LastState(8, S256_13, R256_14, K256_14, S256_14);
  }

  /** The cipher text that the standard gives for 256 bits. */
  lemma Example256()
    ensures Api.EncryptBlock(256, Plain(), Key(8)) ==
            Flat(Four(0x8e, 0xa2, 0xb7, 0xca, 0x51, 0x67, 0x45, 0xbf, 0xea, 0xfc, 0x49, 0x90, 0x4b, 0x49, 0x60, 0x89))
  {
    hide Flat, Api.EncryptBlock;
    States256();
  }
}
