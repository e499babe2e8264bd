/**
 The substitution tables (FIPS 197, sections 5.1.1 and 5.3.2), one row of sixteen per high nibble of
 the byte looked up.
 */
module AesTables {

  const SBOX: seq<seq<bv8>> := [
    [0x63, 0x7c, 0x77, 0x7b, 0xf2, 0x6b, 0x6f, 0xc5, 0x30, 0x01, 0x67, 0x2b, 0xfe, 0xd7, 0xab, 0x76],
    [0xca, 0x82, 0xc9, 0x7d, 0xfa, 0x59, 0x47, 0xf0, 0xad, 0xd4, 0xa2, 0xaf, 0x9c, 0xa4, 0x72, 0xc0],
    [0xb7, 0xfd, 0x93, 0x26, 0x36, 0x3f, 0xf7, 0xcc, 0x34, 0xa5, 0xe5, 0xf1, 0x71, 0xd8, 0x31, 0x15],
    [0x04, 0xc7, 0x23, 0xc3, 0x18, 0x96, 0x05, 0x9a, 0x07, 0x12, 0x80, 0xe2, 0xeb, 0x27, 0xb2, 0x75],
    [0x09, 0x83, 0x2c, 0x1a, 0x1b, 0x6e, 0x5a, 0xa0, 0x52, 0x3b, 0xd6, 0xb3, 0x29, 0xe3, 0x2f, 0x84],
    [0x53, 0xd1, 0x00, 0xed, 0x20, 0xfc, 0xb1, 0x5b, 0x6a, 0xcb, 0xbe, 0x39, 0x4a, 0x4c, 0x58, 0xcf],
    [0xd0, 0xef, 0xaa, 0xfb, 0x43, 0x4d, 0x33, 0x85, 0x45, 0xf9, 0x02, 0x7f, 0x50, 0x3c, 0x9f, 0xa8],
    [0x51, 0xa3, 0x40, 0x8f, 0x92, 0x9d, 0x38, 0xf5, 0xbc, 0xb6, 0xda, 0x21, 0x10, 0xff, 0xf3, 0xd2],
    [0xcd, 0x0c, 0x13, 0xec, 0x5f, 0x97, 0x44, 0x17, 0xc4, 0xa7, 0x7e, 0x3d, 0x64, 0x5d, 0x19, 0x73],
    [0x60, 0x81, 0x4f, 0xdc, 0x22, 0x2a, 0x90, 0x88, 0x46, 0xee, 0xb8, 0x14, 0xde, 0x5e, 0x0b, 0xdb],
    [0xe0, 0x32, 0x3a, 0x0a, 0x49, 0x06, 0x24, 0x5c, 0xc2, 0xd3, 0xac, 0x62, 0x91, 0x95, 0xe4, 0x79],
    [0xe7, 0xc8, 0x37, 0x6d, 0x8d, 0xd5, 0x4e, 0xa9, 0x6c, 0x56, 0xf4, 0xea, 0x65, 0x7a, 0xae, 0x08],
    [0xba, 0x78, 0x25, 0x2e, 0x1c, 0xa6, 0xb4, 0xc6, 0xe8, 0xdd, 0x74, 0x1f, 0x4b, 0xbd, 0x8b, 0x8a],
    [0x70, 0x3e, 0xb5, 0x66, 0x48, 0x03, 0xf6, 0x0e, 0x61, 0x35, 0x57, 0xb9, 0x86, 0xc1, 0x1d, 0x9e],
    [0xe1, 0xf8, 0x98, 0x11, 0x69, 0xd9, 0x8e, 0x94, 0x9b, 0x1e, 0x87, 0xe9, 0xce, 0x55, 0x28, 0xdf],
    [0x8c, 0xa1, 0x89, 0x0d, 0xbf, 0xe6, 0x42, 0x68, 0x41, 0x99, 0x2d, 0x0f, 0xb0, 0x54, 0xbb, 0x16]
  ]

  const INV_SBOX: seq<seq<bv8>> := [
    [0x52, 0x09, 0x6a, 0xd5, 0x30, 0x36, 0xa5, 0x38, 0xbf, 0x40, 0xa3, 0x9e, 0x81, 0xf3, 0xd7, 0xfb],
    [0x7c, 0xe3, 0x39, 0x82, 0x9b, 0x2f, 0xff, 0x87, 0x34, 0x8e, 0x43, 0x44, 0xc4, 0xde, 0xe9, 0xcb],
    [0x54, 0x7b, 0x94, 0x32, 0xa6, 0xc2, 0x23, 0x3d, 0xee, 0x4c, 0x95, 0x0b, 0x42, 0xfa, 0xc3, 0x4e],
    [0x08, 0x2e, 0xa1, 0x66, 0x28, 0xd9, 0x24, 0xb2, 0x76, 0x5b, 0xa2, 0x49, 0x6d, 0x8b, 0xd1, 0x25],
    [0x72, 0xf8, 0xf6, 0x64, 0x86, 0x68, 0x98, 0x16, 0xd4, 0xa4, 0x5c, 0xcc, 0x5d, 0x65, 0xb6, 0x92],
    [0x6c, 0x70, 0x48, 0x50, 0xfd, 0xed, 0xb9, 0xda, 0x5e, 0x15, 0x46, 0x57, 0xa7, 0x8d, 0x9d, 0x84],
    [0x90, 0xd8, 0xab, 0x00, 0x8c, 0xbc, 0xd3, 0x0a, 0xf7, 0xe4, 0x58, 0x05, 0xb8, 0xb3, 0x45, 0x06],
    [0xd0, 0x2c, 0x1e, 0x8f, 0xca, 0x3f, 0x0f, 0x02, 0xc1, 0xaf, 0xbd, 0x03, 0x01, 0x13, 0x8a, 0x6b],
    [0x3a, 0x91, 0x11, 0x41, 0x4f, 0x67, 0xdc, 0xea, 0x97, 0xf2, 0xcf, 0xce, 0xf0, 0xb4, 0xe6, 0x73],
    [0x96, 0xac, 0x74, 0x22, 0xe7, 0xad, 0x35, 0x85, 0xe2, 0xf9, 0x37, 0xe8, 0x1c, 0x75, 0xdf, 0x6e],
    [0x47, 0xf1, 0x1a, 0x71, 0x1d, 0x29, 0xc5, 0x89, 0x6f, 0xb7, 0x62, 0x0e, 0xaa, 0x18, 0xbe, 0x1b],
    [0xfc, 0x56, 0x3e, 0x4b, 0xc6, 0xd2, 0x79, 0x20, 0x9a, 0xdb, 0xc0, 0xfe, 0x78, 0xcd, 0x5a, 0xf4],
    [0x1f, 0xdd, 0xa8, 0x33, 0x88, 0x07, 0xc7, 0x31, 0xb1, 0x12, 0x10, 0x59, 0x27, 0x80, 0xec, 0x5f],
    [0x60, 0x51, 0x7f, 0xa9, 0x19, 0xb5, 0x4a, 0x0d, 0x2d, 0xe5, 0x7a, 0x9f, 0x93, 0xc9, 0x9c, 0xef],
    [0xa0, 0xe0, 0x3b, 0x4d, 0xae, 0x2a, 0xf5, 0xb0, 0xc8, 0xeb, 0xbb, 0x3c, 0x83, 0x53, 0x99, 0x61],
    [0x17, 0x2b, 0x04, 0x7e, 0xba, 0x77, 0xd6, 0x26, 0xe1, 0x69, 0x14, 0x63, 0x55, 0x21, 0x0c, 0x7d]
  ]

  function Sub(x: bv8): bv8 {
    SBOX[(x >> 4) as int][(x & 0x0f) as int]
  }

  function InvSub(x: bv8): bv8 {
    INV_SBOX[(x >> 4) as int][(x & 0x0f) as int]
  }

  // One lemma for each row: every byte with that high nibble is restored.

  lemma Row0(x: bv8)
    requires x >> 4 == 0
    ensures InvSub(Sub(x)) == x
  {
    if x == 0x00 {} else if x == 0x01 {} else if x == 0x02 {} else if x == 0x03 {}
    else if x == 0x04 {} else if x == 0x05 {} else if x == 0x06 {} else if x == 0x07 {}
    else if x == 0x08 {} else if x == 0x09 {} else if x == 0x0a {} else if x == 0x0b {}
    else if x == 0x0c {} else if x == 0x0d {} else if x == 0x0e {} else {}
  }

  lemma Row1(x: bv8)
    requires x >> 4 == 1
    ensures InvSub(Sub(x)) == x
  {
    if x == 0x10 {} else if x == 0x11 {} else if x == 0x12 {} else if x == 0x13 {}
    else if x == 0x14 {} else if x == 0x15 {} else if x == 0x16 {} else if x == 0x17 {}
    else if x == 0x18 {} else if x == 0x19 {} else if x == 0x1a {} else if x == 0x1b {}
    else if x == 0x1c {} else if x == 0x1d {} else if x == 0x1e {} else {}
  }

  lemma Row2(x: bv8)
    requires x >> 4 == 2
    ensures InvSub(Sub(x)) == x
  {
    if x == 0x20 {} else if x == 0x21 {} else if x == 0x22 {} else if x == 0x23 {}
    else if x == 0x24 {} else if x == 0x25 {} else if x == 0x26 {} else if x == 0x27 {}
    else if x == 0x28 {} else if x == 0x29 {} else if x == 0x2a {} else if x == 0x2b {}
    else if x == 0x2c {} else if x == 0x2d {} else if x == 0x2e {} else {}
  }

  lemma Row3(x: bv8)
    requires x >> 4 == 3
    ensures InvSub(Sub(x)) == x
  {
    if x == 0x30 {} else if x == 0x31 {} else if x == 0x32 {} else if x == 0x33 {}
    else if x == 0x34 {} else if x == 0x35 {} else if x == 0x36 {} else if x == 0x37 {}
    else if x == 0x38 {} else if x == 0x39 {} else if x == 0x3a {} else if x == 0x3b {}
    else if x == 0x3c {} else if x == 0x3d {} else if x == 0x3e {} else {}
  }

  lemma Row4(x: bv8)
    requires x >> 4 == 4
    ensures InvSub(Sub(x)) == x
  {
    if x == 0x40 {} else if x == 0x41 {} else if x == 0x42 {} else if x == 0x43 {}
    else if x == 0x44 {} else if x == 0x45 {} else if x == 0x46 {} else if x == 0x47 {}
    else if x == 0x48 {} else if x == 0x49 {} else if x == 0x4a {} else if x == 0x4b {}
    else if x == 0x4c {} else if x == 0x4d {} else if x == 0x4e {} else {}
  }

  lemma Row5(x: bv8)
    requires x >> 4 == 5
    ensures InvSub(Sub(x)) == x
  {
    if x == 0x50 {} else if x == 0x51 {} else if x == 0x52 {} else if x == 0x53 {}
    else if x == 0x54 {} else if x == 0x55 {} else if x == 0x56 {} else if x == 0x57 {}
    else if x == 0x58 {} else if x == 0x59 {} else if x == 0x5a {} else if x == 0x5b {}
    else if x == 0x5c {} else if x == 0x5d {} else if x == 0x5e {} else {}
  }

  lemma Row6(x: bv8)
    requires x >> 4 == 6
    ensures InvSub(Sub(x)) == x
  {
    if x == 0x60 {} else if x == 0x61 {} else if x == 0x62 {} else if x == 0x63 {}
    else if x == 0x64 {} else if x == 0x65 {} else if x == 0x66 {} else if x == 0x67 {}
    else if x == 0x68 {} else if x == 0x69 {} else if x == 0x6a {} else if x == 0x6b {}
    else if x == 0x6c {} else if x == 0x6d {} else if x == 0x6e {} else {}
  }

  lemma Row7(x: bv8)
    requires x >> 4 == 7
    ensures InvSub(Sub(x)) == x
  {
    if x == 0x70 {} else if x == 0x71 {} else if x == 0x72 {} else if x == 0x73 {}
    else if x == 0x74 {} else if x == 0x75 {} else if x == 0x76 {} else if x == 0x77 {}
    else if x == 0x78 {} else if x == 0x79 {} else if x == 0x7a {} else if x == 0x7b {}
    else if x == 0x7c {} else if x == 0x7d {} else if x == 0x7e {} else {}
  }

  lemma Row8(x: bv8)
    requires x >> 4 == 8
    ensures InvSub(Sub(x)) == x
  {
    if x == 0x80 {} else if x == 0x81 {} else if x == 0x82 {} else if x == 0x83 {}
    else if x == 0x84 {} else if x == 0x85 {} else if x == 0x86 {} else if x == 0x87 {}
    else if x == 0x88 {} else if x == 0x89 {} else if x == 0x8a {} else if x == 0x8b {}
    else if x == 0x8c {} else if x == 0x8d {} else if x == 0x8e {} else {}
  }

  lemma Row9(x: bv8)
    requires x >> 4 == 9
    ensures InvSub(Sub(x)) == x
  {
    if x == 0x90 {} else if x == 0x91 {} else if x == 0x92 {} else if x == 0x93 {}
    else if x == 0x94 {} else if x == 0x95 {} else if x == 0x96 {} else if x == 0x97 {}
    else if x == 0x98 {} else if x == 0x99 {} else if x == 0x9a {} else if x == 0x9b {}
    else if x == 0x9c {} else if x == 0x9d {} else if x == 0x9e {} else {}
  }

  lemma RowA(x: bv8)
    requires x >> 4 == 10
    ensures InvSub(Sub(x)) == x
  {
    if x == 0xa0 {} else if x == 0xa1 {} else if x == 0xa2 {} else if x == 0xa3 {}
    else if x == 0xa4 {} else if x == 0xa5 {} else if x == 0xa6 {} else if x == 0xa7 {}
    else if x == 0xa8 {} else if x == 0xa9 {} else if x == 0xaa {} else if x == 0xab {}
    else if x == 0xac {} else if x == 0xad {} else if x == 0xae {} else {}
  }

  lemma RowB(x: bv8)
    requires x >> 4 == 11
    ensures InvSub(Sub(x)) == x
  {
    if x == 0xb0 {} else if x == 0xb1 {} else if x == 0xb2 {} else if x == 0xb3 {}
    else if x == 0xb4 {} else if x == 0xb5 {} else if x == 0xb6 {} else if x == 0xb7 {}
    else if x == 0xb8 {} else if x == 0xb9 {} else if x == 0xba {} else if x == 0xbb {}
    else if x == 0xbc {} else if x == 0xbd {} else if x == 0xbe {} else {}
  }

  lemma RowC(x: bv8)
    requires x >> 4 == 12
    ensures InvSub(Sub(x)) == x
  {
    if x == 0xc0 {} else if x == 0xc1 {} else if x == 0xc2 {} else if x == 0xc3 {}
    else if x == 0xc4 {} else if x == 0xc5 {} else if x == 0xc6 {} else if x == 0xc7 {}
    else if x == 0xc8 {} else if x == 0xc9 {} else if x == 0xca {} else if x == 0xcb {}
    else if x == 0xcc {} else if x == 0xcd {} else if x == 0xce {} else {}
  }

  lemma RowD(x: bv8)
    requires x >> 4 == 13
    ensures InvSub(Sub(x)) == x
  {
    if x == 0xd0 {} else if x == 0xd1 {} else if x == 0xd2 {} else if x == 0xd3 {}
    else if x == 0xd4 {} else if x == 0xd5 {} else if x == 0xd6 {} else if x == 0xd7 {}
    else if x == 0xd8 {} else if x == 0xd9 {} else if x == 0xda {} else if x == 0xdb {}
    else if x == 0xdc {} else if x == 0xdd {} else if x == 0xde {} else {}
  }

  lemma RowE(x: bv8)
    requires x >> 4 == 14
    ensures InvSub(Sub(x)) == x
  {
    if x == 0xe0 {} else if x == 0xe1 {} else if x == 0xe2 {} else if x == 0xe3 {}
    else if x == 0xe4 {} else if x == 0xe5 {} else if x == 0xe6 {} else if x == 0xe7 {}
    else if x == 0xe8 {} else if x == 0xe9 {} else if x == 0xea {} else if x == 0xeb {}
    else if x == 0xec {} else if x == 0xed {} else if x == 0xee {} else {}
  }

  lemma RowF(x: bv8)
    requires x >> 4 == 15
    ensures InvSub(Sub(x)) == x
  {
    if x == 0xf0 {} else if x == 0xf1 {} else if x == 0xf2 {} else if x == 0xf3 {}
    else if x == 0xf4 {} else if x == 0xf5 {} else if x == 0xf6 {} else if x == 0xf7 {}
    else if x == 0xf8 {} else if x == 0xf9 {} else if x == 0xfa {} else if x == 0xfb {}
    else if x == 0xfc {} else if x == 0xfd {} else if x == 0xfe {} else {}
  }

  /** The second table inverts the first. */
  lemma InvSubAfterSub(x: bv8)
    ensures InvSub(Sub(x)) == x
  {
    var h := x >> 4;
    if h == 0 { Row0(x); }
    else if h == 1 { Row1(x); }
    else if h == 2 { Row2(x); }
    else if h == 3 { Row3(x); }
    else if h == 4 { Row4(x); }
    else if h == 5 { Row5(x); }
    else if h == 6 { Row6(x); }
    else if h == 7 { Row7(x); }
    else if h == 8 { Row8(x); }
    else if h == 9 { Row9(x); }
    else if h == 10 { RowA(x); }
    else if h == 11 { RowB(x); }
    else if h == 12 { RowC(x); }
    else if h == 13 { RowD(x); }
    else if h == 14 { RowE(x); }
    else { RowF(x); }
  }
}
