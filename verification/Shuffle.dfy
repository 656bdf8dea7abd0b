/** The permutation of 16-bit numbers that shuffles record sets and hints
    (`dns_k_shuffle16`, libs/async/src/dns/dns.c:558-606).  Its table is the S-box of section
    5.1.1 of FIPS 197. */
module Shuffle {
  /** Entry `i` of a row of sixteen. */
  function Pick(i: bv8, a0: bv8, a1: bv8, a2: bv8, a3: bv8, a4: bv8, a5: bv8, a6: bv8, a7: bv8,
                a8: bv8, a9: bv8, a10: bv8, a11: bv8, a12: bv8, a13: bv8, a14: bv8, a15: bv8): bv8
  {
    if i < 8 then
      if i < 4 then (if i < 2 then (if i < 1 then a0 else a1) else (if i < 3 then a2 else a3)) else (if i < 6 then (if i < 5 then a4 else a5) else (if i < 7 then a6 else a7))
    else
      if i < 12 then (if i < 10 then (if i < 9 then a8 else a9) else (if i < 11 then a10 else a11)) else (if i < 14 then (if i < 13 then a12 else a13) else (if i < 15 then a14 else a15))
  }

  function SBox(x: bv8): bv8 {
    var h, l := x >> 4, x & 0x0f;
    Pick(h,
      Pick(l, 0x63, 0x7c, 0x77, 0x7b, 0xf2, 0x6b, 0x6f, 0xc5, 0x30, 0x01, 0x67, 0x2b, 0xfe, 0xd7, 0xab, 0x76),
      Pick(l, 0xca, 0x82, 0xc9, 0x7d, 0xfa, 0x59, 0x47, 0xf0, 0xad, 0xd4, 0xa2, 0xaf, 0x9c, 0xa4, 0x72, 0xc0),
      Pick(l, 0xb7, 0xfd, 0x93, 0x26, 0x36, 0x3f, 0xf7, 0xcc, 0x34, 0xa5, 0xe5, 0xf1, 0x71, 0xd8, 0x31, 0x15),
      Pick(l, 0x04, 0xc7, 0x23, 0xc3, 0x18, 0x96, 0x05, 0x9a, 0x07, 0x12, 0x80, 0xe2, 0xeb, 0x27, 0xb2, 0x75),
      Pick(l, 0x09, 0x83, 0x2c, 0x1a, 0x1b, 0x6e, 0x5a, 0xa0, 0x52, 0x3b, 0xd6, 0xb3, 0x29, 0xe3, 0x2f, 0x84),
      Pick(l, 0x53, 0xd1, 0x00, 0xed, 0x20, 0xfc, 0xb1, 0x5b, 0x6a, 0xcb, 0xbe, 0x39, 0x4a, 0x4c, 0x58, 0xcf),
      Pick(l, 0xd0, 0xef, 0xaa, 0xfb, 0x43, 0x4d, 0x33, 0x85, 0x45, 0xf9, 0x02, 0x7f, 0x50, 0x3c, 0x9f, 0xa8),
      Pick(l, 0x51, 0xa3, 0x40, 0x8f, 0x92, 0x9d, 0x38, 0xf5, 0xbc, 0xb6, 0xda, 0x21, 0x10, 0xff, 0xf3, 0xd2),
      Pick(l, 0xcd, 0x0c, 0x13, 0xec, 0x5f, 0x97, 0x44, 0x17, 0xc4, 0xa7, 0x7e, 0x3d, 0x64, 0x5d, 0x19, 0x73),
      Pick(l, 0x60, 0x81, 0x4f, 0xdc, 0x22, 0x2a, 0x90, 0x88, 0x46, 0xee, 0xb8, 0x14, 0xde, 0x5e, 0x0b, 0xdb),
      Pick(l, 0xe0, 0x32, 0x3a, 0x0a, 0x49, 0x06, 0x24, 0x5c, 0xc2, 0xd3, 0xac, 0x62, 0x91, 0x95, 0xe4, 0x79),
      Pick(l, 0xe7, 0xc8, 0x37, 0x6d, 0x8d, 0xd5, 0x4e, 0xa9, 0x6c, 0x56, 0xf4, 0xea, 0x65, 0x7a, 0xae, 0x08),
      Pick(l, 0xba, 0x78, 0x25, 0x2e, 0x1c, 0xa6, 0xb4, 0xc6, 0xe8, 0xdd, 0x74, 0x1f, 0x4b, 0xbd, 0x8b, 0x8a),
      Pick(l, 0x70, 0x3e, 0xb5, 0x66, 0x48, 0x03, 0xf6, 0x0e, 0x61, 0x35, 0x57, 0xb9, 0x86, 0xc1, 0x1d, 0x9e),
      Pick(l, 0xe1, 0xf8, 0x98, 0x11, 0x69, 0xd9, 0x8e, 0x94, 0x9b, 0x1e, 0x87, 0xe9, 0xce, 0x55, 0x28, 0xdf),
      Pick(l, 0x8c, 0xa1, 0x89, 0x0d, 0xbf, 0xe6, 0x42, 0x68, 0x41, 0x99, 0x2d, 0x0f, 0xb0, 0x54, 0xbb, 0x16))
  }

  /** The table read backwards. */
  function UnBox(y: bv8): bv8 {
    var h, l := y >> 4, y & 0x0f;
    Pick(h,
      Pick(l, 0x52, 0x09, 0x6a, 0xd5, 0x30, 0x36, 0xa5, 0x38, 0xbf, 0x40, 0xa3, 0x9e, 0x81, 0xf3, 0xd7, 0xfb),
      Pick(l, 0x7c, 0xe3, 0x39, 0x82, 0x9b, 0x2f, 0xff, 0x87, 0x34, 0x8e, 0x43, 0x44, 0xc4, 0xde, 0xe9, 0xcb),
      Pick(l, 0x54, 0x7b, 0x94, 0x32, 0xa6, 0xc2, 0x23, 0x3d, 0xee, 0x4c, 0x95, 0x0b, 0x42, 0xfa, 0xc3, 0x4e),
      Pick(l, 0x08, 0x2e, 0xa1, 0x66, 0x28, 0xd9, 0x24, 0xb2, 0x76, 0x5b, 0xa2, 0x49, 0x6d, 0x8b, 0xd1, 0x25),
      Pick(l, 0x72, 0xf8, 0xf6, 0x64, 0x86, 0x68, 0x98, 0x16, 0xd4, 0xa4, 0x5c, 0xcc, 0x5d, 0x65, 0xb6, 0x92),
      Pick(l, 0x6c, 0x70, 0x48, 0x50, 0xfd, 0xed, 0xb9, 0xda, 0x5e, 0x15, 0x46, 0x57, 0xa7, 0x8d, 0x9d, 0x84),
      Pick(l, 0x90, 0xd8, 0xab, 0x00, 0x8c, 0xbc, 0xd3, 0x0a, 0xf7, 0xe4, 0x58, 0x05, 0xb8, 0xb3, 0x45, 0x06),
      Pick(l, 0xd0, 0x2c, 0x1e, 0x8f, 0xca, 0x3f, 0x0f, 0x02, 0xc1, 0xaf, 0xbd, 0x03, 0x01, 0x13, 0x8a, 0x6b),
      Pick(l, 0x3a, 0x91, 0x11, 0x41, 0x4f, 0x67, 0xdc, 0xea, 0x97, 0xf2, 0xcf, 0xce, 0xf0, 0xb4, 0xe6, 0x73),
      Pick(l, 0x96, 0xac, 0x74, 0x22, 0xe7, 0xad, 0x35, 0x85, 0xe2, 0xf9, 0x37, 0xe8, 0x1c, 0x75, 0xdf, 0x6e),
      Pick(l, 0x47, 0xf1, 0x1a, 0x71, 0x1d, 0x29, 0xc5, 0x89, 0x6f, 0xb7, 0x62, 0x0e, 0xaa, 0x18, 0xbe, 0x1b),
      Pick(l, 0xfc, 0x56, 0x3e, 0x4b, 0xc6, 0xd2, 0x79, 0x20, 0x9a, 0xdb, 0xc0, 0xfe, 0x78, 0xcd, 0x5a, 0xf4),
      Pick(l, 0x1f, 0xdd, 0xa8, 0x33, 0x88, 0x07, 0xc7, 0x31, 0xb1, 0x12, 0x10, 0x59, 0x27, 0x80, 0xec, 0x5f),
      Pick(l, 0x60, 0x51, 0x7f, 0xa9, 0x19, 0xb5, 0x4a, 0x0d, 0x2d, 0xe5, 0x7a, 0x9f, 0x93, 0xc9, 0x9c, 0xef),
      Pick(l, 0xa0, 0xe0, 0x3b, 0x4d, 0xae, 0x2a, 0xf5, 0xb0, 0xc8, 0xeb, 0xbb, 0x3c, 0x83, 0x53, 0x99, 0x61),
      Pick(l, 0x17, 0x2b, 0x04, 0x7e, 0xba, 0x77, 0xd6, 0x26, 0xe1, 0x69, 0x14, 0x63, 0x55, 0x21, 0x0c, 0x7d))
  }

  lemma UnBoxUndoes(x: bv8)
    ensures UnBox(SBox(x)) == x
  {
  }

  // ----- Where the table comes from -------------------------------------------------------------

  /** The product with x in GF(2^8), modulo x^8 + x^4 + x^3 + x + 1 (section 4.2.1 of FIPS 197). */
  function XTimes(a: bv8): bv8 { (a << 1) ^ (if a & 0x80 == 0 then 0 else 0x1b) }

  /** What the lowest bit of a factor contributes. */
  function Part(a: bv8, b: bv8): bv8 { if b & 1 == 0 then 0 else a }

  /** The product in GF(2^8): the sum of the eight multiples of `a` that `b` has a bit for. */
  function Times(a: bv8, b: bv8): bv8 {
    var a1 := XTimes(a);
    var a2 := XTimes(a1);
    var a3 := XTimes(a2);
    var a4 := XTimes(a3);
    var a5 := XTimes(a4);
    var a6 := XTimes(a5);
    var a7 := XTimes(a6);
    Part(a, b) ^ Part(a1, b >> 1) ^ Part(a2, b >> 2) ^ Part(a3, b >> 3)
    ^ Part(a4, b >> 4) ^ Part(a5, b >> 5) ^ Part(a6, b >> 6) ^ Part(a7, b >> 7)
  }

  function Rotated(b: bv8, k: bv4): bv8
    requires k <= 8
  {
    (b << k) | (b >> (8 - k))
  }

  /** The affine map over GF(2): bit `i` of the result is the sum of the bits `i`, `i + 4`, `i + 5`, `i + 6`
      and `i + 7` modulo 8 of the argument, and of the constant 01100011. */
  function Affine(b: bv8): bv8 {
    b ^ Rotated(b, 1) ^ Rotated(b, 2) ^ Rotated(b, 3) ^ Rotated(b, 4) ^ 0x63
  }

  function UnAffine(s: bv8): bv8 { Rotated(s, 1) ^ Rotated(s, 3) ^ Rotated(s, 6) ^ 0x05 }

  lemma UnAffineUndoes(s: bv8)
    ensures Affine(UnAffine(s)) == s
  {
  }

  lemma InverseFirst(x: bv8)
    requires x < 0x40
    ensures var b := UnAffine(SBox(x)); if x == 0 then b == 0 else Times(x, b) == 1
  {
  }

  lemma InverseSecond(x: bv8)
    requires 0x40 <= x < 0x80
    ensures var b := UnAffine(SBox(x)); if x == 0 then b == 0 else Times(x, b) == 1
  {
  }

  lemma InverseThird(x: bv8)
    requires 0x80 <= x < 0xc0
    ensures var b := UnAffine(SBox(x)); if x == 0 then b == 0 else Times(x, b) == 1
  {
  }

  lemma InverseFourth(x: bv8)
    requires 0xc0 <= x
    ensures var b := UnAffine(SBox(x)); if x == 0 then b == 0 else Times(x, b) == 1
  {
  }

  /** Every entry is the affine image of the multiplicative inverse of its index, and of 0 for 0. */
  lemma SBoxIsInverse(x: bv8)
    ensures var b := UnAffine(SBox(x));
            SBox(x) == Affine(b) && if x == 0 then b == 0 else Times(x, b) == 1
  {
    hide SBox, UnAffine, Affine, Times;
    UnAffineUndoes(SBox(x));
    if x < 0x40 {
      InverseFirst(x);
    } else if x < 0x80 {
      InverseSecond(x);
    } else if x < 0xc0 {
      InverseThird(x);
    } else {
      InverseFourth(x);
    }
  }

  // ----- The rounds -------------------------------------------------------------------------

  /** What one round with the key byte `k` makes of the low half and of the high half. */
  function Low(a: bv8, b: bv8, k: bv8): bv8 { SBox(a ^ k) ^ b }

  function High(a: bv8, b: bv8, k: bv8): bv8 { SBox(b) ^ Low(a, b, k) }

  function KeyByte(s: bv32): bv8 { (s & 0xff) as bv8 }

  /** The four rounds take all bytes of the seed, and each of them matters. */
  lemma SeedBytes(s: bv32)
    ensures s == KeyByte(s) as bv32 | (KeyByte(s >> 8) as bv32 << 8) | (KeyByte(s >> 16) as bv32 << 16) | (KeyByte(s >> 24) as bv32 << 24)
  {
  }

  lemma KeyMatters(a: bv8, b: bv8, k: bv8, l: bv8)
    requires k != l
    ensures Low(a, b, k) != Low(a, b, l)
  {
    hide SBox, UnBox;
    UnBoxUndoes(a ^ k);
    UnBoxUndoes(a ^ l);
    XorApart(a, k, l);
    XorApart(b, SBox(a ^ k), SBox(a ^ l));
  }

  lemma XorApart(x: bv8, y: bv8, z: bv8)
    ensures y != z ==> x ^ y != x ^ z && y ^ x != z ^ x
  {
  }

  /** The halves after `n` rounds with the bytes of the seed, the lowest byte first. */
  function LowAfter(a: bv8, b: bv8, s: bv32, n: nat): bv8
    decreases n
  {
    if n == 0 then a
    else LowAfter(Low(a, b, KeyByte(s)), High(a, b, KeyByte(s)), s >> 8, n - 1)
  }

  function HighAfter(a: bv8, b: bv8, s: bv32, n: nat): bv8
    decreases n
  {
    if n == 0 then b
    else HighAfter(Low(a, b, KeyByte(s)), High(a, b, KeyByte(s)), s >> 8, n - 1)
  }

  /** One turn of the loop leaves the rounds that follow it. */
  lemma RoundsTurn(a: bv8, b: bv8, s: bv32, n: nat)
    requires n > 0
    ensures LowAfter(a, b, s, n) == LowAfter(Low(a, b, KeyByte(s)), High(a, b, KeyByte(s)), s >> 8, n - 1)
    ensures HighAfter(a, b, s, n) == HighAfter(Low(a, b, KeyByte(s)), High(a, b, KeyByte(s)), s >> 8, n - 1)
  {
    hide Low, High, KeyByte;
  }

  lemma RoundsOver(a: bv8, b: bv8, s: bv32)
    ensures LowAfter(a, b, s, 0) == a && HighAfter(a, b, s, 0) == b
  {
  }

  lemma XorCancels(x: bv8, y: bv8)
    ensures (x ^ y) ^ y == x
  {
  }

  lemma UnBoxXor(x: bv8, y: bv8)
    ensures UnBox((SBox(x) ^ y) ^ y) == x
  {
    hide SBox, UnBox;
    XorCancels(SBox(x), y);
    UnBoxUndoes(x);
  }

  /** A round can be taken back: first the high half, and with it the low half. */
  lemma HighBack(a: bv8, b: bv8, k: bv8)
    ensures UnBox(High(a, b, k) ^ Low(a, b, k)) == b
  {
    hide SBox, UnBox, Low;
    UnBoxXor(b, Low(a, b, k));
  }

  lemma LowBack(a: bv8, b: bv8, k: bv8)
    ensures UnBox(Low(a, b, k) ^ b) ^ k == a
  {
    hide SBox, UnBox;
    UnBoxXor(a ^ k, b);
    XorCancels(a, k);
  }

  lemma RoundInjective(a: bv8, b: bv8, c: bv8, d: bv8, k: bv8)
    requires Low(a, b, k) == Low(c, d, k) && High(a, b, k) == High(c, d, k)
    ensures a == c && b == d
  {
    hide SBox, UnBox, Low, High;
    HighInjective(a, b, c, d, k);
    LowInjective(a, b, c, d, k);
  }

  lemma HighInjective(a: bv8, b: bv8, c: bv8, d: bv8, k: bv8)
    requires Low(a, b, k) == Low(c, d, k) && High(a, b, k) == High(c, d, k)
    ensures b == d
  {
    hide SBox, UnBox, Low, High;
    HighBack(a, b, k);
    HighBack(c, d, k);
  }

  lemma LowInjective(a: bv8, b: bv8, c: bv8, d: bv8, k: bv8)
    requires Low(a, b, k) == Low(c, d, k) && b == d
    ensures a == c
  {
    hide SBox, UnBox, Low;
    LowBack(a, b, k);
    LowBack(c, d, k);
  }

  lemma {:induction false} RoundsInjective(a: bv8, b: bv8, c: bv8, d: bv8, s: bv32, n: nat)
    requires LowAfter(a, b, s, n) == LowAfter(c, d, s, n) && HighAfter(a, b, s, n) == HighAfter(c, d, s, n)
    ensures a == c && b == d
    decreases n
  {
    hide Low, High;
    if n > 0 {
      var k := KeyByte(s);
      RoundsInjective(Low(a, b, k), High(a, b, k), Low(c, d, k), High(c, d, k), s >> 8, n - 1);
      RoundInjective(a, b, c, d, k);
    }
  }

  // ----- Offsets as numbers -----------------------------------------------------------------

  /** The byte with value `n`. */
  function Bits(n: nat): bv8
    requires n < 256
  {
    if n == 0 then 0 else Bits(n - 1) + 1
  }

  function Number(x: bv8): (r: nat)
    ensures r < 256
  {
    x as nat
  }

  lemma NumberNext(x: bv8)
    requires Number(x) < 255
    ensures Number(x + 1) == Number(x) + 1
  {
  }

  lemma {:induction false} NumberOfBits(n: nat)
    requires n < 256
    ensures Number(Bits(n)) == n
  {
    hide Number;
    if n == 0 {
      NumberZero();
    } else {
      NumberOfBits(n - 1);
      NumberNext(Bits(n - 1));
    }
  }

  lemma NumberZero()
    ensures Number(0) == 0
  {
  }

  lemma NumberInjective(x: bv8, y: bv8)
    requires Number(x) == Number(y)
    ensures x == y
  {
  }

  /** `dns_k_shuffle16`. */
  function Shuffle16(n: nat, s: bv32): (r: nat)
    requires n < 0x1_0000
    ensures r < 0x1_0000
  {
    var a, b := Bits(n % 256), Bits(n / 256);
    Number(LowAfter(a, b, s, 4)) * 256 + Number(HighAfter(a, b, s, 4))
  }

  /** For every seed no two offsets are shuffled to the same number. */
  lemma ShuffleInjective(n: nat, m: nat, s: bv32)
    requires n < 0x1_0000 && m < 0x1_0000 && Shuffle16(n, s) == Shuffle16(m, s)
    ensures n == m
  {
    hide LowAfter, HighAfter, Bits, Number;
    var a, b, c, d := Bits(n % 256), Bits(n / 256), Bits(m % 256), Bits(m / 256);
    NumberInjective(LowAfter(a, b, s, 4), LowAfter(c, d, s, 4));
    NumberInjective(HighAfter(a, b, s, 4), HighAfter(c, d, s, 4));
    RoundsInjective(a, b, c, d, s, 4);
    NumberOfBits(n % 256);
    NumberOfBits(n / 256);
    NumberOfBits(m % 256);
    NumberOfBits(m / 256);
  }

  /** The stores of one round. */
  method Turn(a0: bv8, b0: bv8, k: bv8) returns (a: bv8, b: bv8)
    ensures a == Low(a0, b0, k) && b == High(a0, b0, k)
  {
    hide SBox;
    a, b := a0, b0;
    a := a ^ k;
    a := SBox(a) ^ b;
    b := SBox(b) ^ a;
  }

  /** The loop of `dns_k_shuffle16`. */
  method ShuffleLoop(n: nat, seed: bv32) returns (r: nat)
    requires n < 0x1_0000
    ensures r == Shuffle16(n, seed)
  {
    hide Low, High, Bits, Number, KeyByte, LowAfter, HighAfter;
    var s, a, b := seed, Bits(n % 256), Bits(n / 256);
    ghost var a0, b0 := a, b;
    var i := 0;
    while i < 4
      invariant 0 <= i <= 4
      invariant LowAfter(a, b, s, 4 - i) == LowAfter(a0, b0, seed, 4)
      invariant HighAfter(a, b, s, 4 - i) == HighAfter(a0, b0, seed, 4)
    {
      RoundsTurn(a, b, s, 4 - i);
      a, b := Turn(a, b, KeyByte(s));
      s := s >> 8;
      i := i + 1;
    }
    RoundsOver(a, b, s);
    r := Number(a) * 256 + Number(b);
  }
}
