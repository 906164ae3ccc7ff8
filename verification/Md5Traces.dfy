/** The 64 operations of MD5 on two blocks, with the values they take: the one block of the empty message
    and the one block of "abc". A row names the registers before four operations, the distances they
    rotate by, and for each operation its sum and the new value of its register. */
module Md5Traces {
  import opened Octets
  import opened Md5Spec

  // The words of the blocks: the message, its padding and its length in bits.
  function EmptyBlock(): seq<uint32> {
    [0x80, 0, 0, 0, 0, 0, 0, 0, 0, 0, 0, 0, 0, 0, 0, 0]
  }

  function AbcBlock(): seq<uint32> {
    [0x80636261, 0, 0, 0, 0, 0, 0, 0, 0, 0, 0, 0, 0, 0, 24, 0]
  }

  // The auxiliary function of operation i, on vectors.
  function AuxiliaryBits(i: nat, x: bv32, y: bv32, z: bv32): bv32 {
    if i < 16 then FBits(x, y, z) else if i < 32 then GBits(x, y, z) else if i < 48 then HBits(x, y, z) else IBits(x, y, z)
  }

  lemma BitsBack(x: bv32)
    ensures Bits(Unsigned(x)) == x
  {}

  lemma AuxiliaryIs(i: nat, x: bv32, y: bv32, z: bv32)
    ensures Auxiliary(i, Unsigned(x), Unsigned(y), Unsigned(z)) == Unsigned(AuxiliaryBits(i, x, y, z))
  {
    hide FBits, GBits, HBits, IBits, Bits, Unsigned;
    BitsBack(x);
    BitsBack(y);
    BitsBack(z);
  }

  lemma RotationIs(x: bv32, s: nat)
    requires s < 32
    ensures RotateLeft(Unsigned(x), s) == Unsigned(RotateBits(x, s))
  {
    hide RotateBits, Bits, Unsigned;
    BitsBack(x);
  }

  // w is what remains modulo 2^32 of a sum of at most four words.
  predicate Leaves(n: nat, w: uint32) {
    n == w || n == w + 0x1_0000_0000 || n == w + 0x2_0000_0000 || n == w + 0x3_0000_0000
  }

  lemma WrapLeaves(n: nat, w: uint32)
    requires Leaves(n, w)
    ensures Wrap(n) == w
  {}

  lemma WrapOnce(s: nat, z: nat)
    ensures Wrap(Wrap(s) + z) == Wrap(s + z)
  {}

  lemma LeavesTotal(a: uint32, f: uint32, m: uint32, t: uint32, w: uint32)
    requires Leaves(a + f + m + t, w)
    ensures Add(Add(Add(a, f), m), t) == w
  {
    hide Wrap, Leaves;
    WrapOnce(a + f, m);
    WrapOnce(a + f + m, t);
    WrapLeaves(a + f + m + t, w);
  }

  // Operation i on registers (a, b, c, d) rotates sum by s, and e is the new value.
  predicate Gives(i: nat, a: bv32, b: bv32, c: bv32, d: bv32, x: seq<uint32>, s: nat, sum: bv32, e: bv32)
    requires |x| == 16 && i < 64
  {
    && Leaves(Unsigned(a) + Unsigned(AuxiliaryBits(i, b, c, d)) + x[WordIndex(i)] + T(i), Unsigned(sum))
    && s == Shift(i) && Leaves(Unsigned(b) + Unsigned(RotateBits(sum, s)), Unsigned(e))
  }

  // The registers after the first i operations.
  ghost predicate Reached(i: nat, a: bv32, b: bv32, c: bv32, d: bv32, x: seq<uint32>)
    requires |x| == 16 && i <= 64
  {
    Operations(i, INITIAL, x) == Registers(Unsigned(a), Unsigned(b), Unsigned(c), Unsigned(d))
  }

  lemma OperationIs(i: nat, a: bv32, b: bv32, c: bv32, d: bv32, x: seq<uint32>, s: nat, sum: bv32, e: bv32)
    requires |x| == 16 && i < 64 && Gives(i, a, b, c, d, x, s, sum, e)
    requires Reached(i, a, b, c, d, x)
    ensures Reached(i + 1, d, e, b, c, x)
  {
    hide Auxiliary, AuxiliaryBits, RotateLeft, RotateBits, WordIndex, T, Bits, Unsigned, Leaves, Wrap, Shift;
    AuxiliaryIs(i, b, c, d);
    RotationIs(sum, s);
    LeavesTotal(Unsigned(a), Unsigned(AuxiliaryBits(i, b, c, d)), x[WordIndex(i)], T(i), Unsigned(sum));
    WrapLeaves(Unsigned(b) + Unsigned(RotateBits(sum, s)), Unsigned(e));
  }

  lemma Four(i: nat, a: bv32, b: bv32, c: bv32, d: bv32, x: seq<uint32>, s0: nat, s1: nat, s2: nat, s3: nat,
             t0: bv32, e0: bv32, t1: bv32, e1: bv32, t2: bv32, e2: bv32, t3: bv32, e3: bv32)
    requires |x| == 16 && i + 4 <= 64 && Reached(i, a, b, c, d, x)
    requires Gives(i, a, b, c, d, x, s0, t0, e0) && Gives(i + 1, d, e0, b, c, x, s1, t1, e1)
    requires Gives(i + 2, c, e1, e0, b, x, s2, t2, e2) && Gives(i + 3, b, e2, e1, e0, x, s3, t3, e3)
    ensures Reached(i + 4, e0, e3, e2, e1, x)
  {
    hide Gives, Reached;
    OperationIs(i, a, b, c, d, x, s0, t0, e0);
    OperationIs(i + 1, d, e0, b, c, x, s1, t1, e1);
    OperationIs(i + 2, c, e1, e0, b, x, s2, t2, e2);
    OperationIs(i + 3, b, e2, e1, e0, x, s3, t3, e3);
  }

  lemma Empty0(x: seq<uint32>)
    requires x == EmptyBlock()
    ensures Reached(0, 0x67452301, 0xefcdab89, 0x98badcfe, 0x10325476, x)
  {}

  lemma Empty4(x: seq<uint32>)
    requires x == EmptyBlock()
    ensures Reached(4, 0xa5202774, 0x1b163203, 0xe7f06b23, 0xf59592dd, x)
  {
    hide Reached;
    Empty0(x);
    Four(0, 0x67452301, 0xefcdab89, 0x98badcfe, 0x10325476, x, 7, 12, 17, 22,
      0xd76aa4f7, 0xa5202774,  0xb6950756, 0xf59592dd,  0x6c23792d, 0xe7f06b23,  0x971b80cc, 0x1b163203);
  }

  lemma Empty8(x: seq<uint32>)
    requires x == EmptyBlock()
    ensures Reached(8, 0x32033344, 0x9bc13ce9, 0xf5b158db, 0x2f35d494, x)
  {
    hide Reached;
    Empty4(x);
    Four(4, 0xa5202774, 0x1b163203, 0xe7f06b23, 0xf59592dd, x, 7, 12, 17, 22,
      0x822dda02, 0x32033344,  0x150fd32a, 0x2f35d494,  0xc223e33d, 0xf5b158db,  0x3f903a98, 0x9bc13ce9);
  }

  lemma Empty12(x: seq<uint32>)
    requires x == EmptyBlock()
    ensures Reached(12, 0x3893b991, 0x70768a29, 0xe1ef0576, 0xfce4a312, x)
  {
    hide Reached;
    Empty8(x);
    Four(8, 0x32033344, 0x9bc13ce9, 0xf5b158db, 0x2f35d494, x, 7, 12, 17, 22,
      0x5139a4f9, 0x3893b991,  0x981c450e, 0xfce4a312,  0x31327285, 0xe1ef0576,  0x1e12ce3a, 0x70768a29);
  }

  lemma Empty16(x: seq<uint32>)
    requires x == EmptyBlock()
    ensures Reached(16, 0xf56c7cf1, 0xd6819c6a, 0x5aa53f75, 0x374943a7, x)
  {
    hide Reached;
    Empty12(x);
    Four(12, 0x3893b991, 0x70768a29, 0xe1ef0576, 0xfce4a312, x, 7, 12, 17, 22,
      0x9109ebe5, 0xf56c7cf1,  0x6b641dcc, 0x374943a7,  0xfde711ad, 0x5aa53f75,  0x7173d5ef, 0xd6819c6a);
  }

  lemma Empty20(x: seq<uint32>)
    requires x == EmptyBlock()
    ensures Reached(20, 0x1c7d7513, 0xbd782e17, 0xc095f13a, 0x7bd57a3a, x)
  {
    hide Reached;
    Empty16(x);
    Four(16, 0xf56c7cf1, 0xd6819c6a, 0x5aa53f75, 0x374943a7, x, 5, 9, 14, 20,
      0x4a2fdec5, 0x1c7d7513,  0x93afac02, 0x7bd57a3a,  0xdc011301, 0xc095f13a,  0x23cddfce, 0xbd782e17);
  }

  lemma Empty24(x: seq<uint32>)
    requires x == EmptyBlock()
    ensures Reached(24, 0x3d1e3e6c, 0xe422531a, 0xeb41643e, 0x68b7b3e3, x)
  {
    hide Reached;
    Empty20(x);
    Four(20, 0x1c7d7513, 0xbd782e17, 0xc095f13a, 0x7bd57a3a, x, 5, 9, 14, 20,
      0xabfd3082, 0x3d1e3e6c,  0xbb95ccba, 0x68b7b3e3,  0xc16e0a26, 0xeb41643e,  0x0eedcf8e, 0xe422531a);
  }

  lemma Empty28(x: seq<uint32>)
    requires x == EmptyBlock()
    ensures Reached(28, 0x306ec122, 0xa0572807, 0xa3c663da, 0xd28c77c2, x)
  {
    hide Reached;
    Empty24(x);
    Four(24, 0x3d1e3e6c, 0xe422531a, 0xeb41643e, 0x68b7b3e3, x, 5, 9, 14, 20,
      0x42626370, 0x306ec122,  0x50510edb, 0xd28c77c2,  0xb06344e7, 0xa3c663da,  0x0c42dfc9, 0xa0572807);
  }

  lemma Empty32(x: seq<uint32>)
    requires x == EmptyBlock()
    ensures Reached(32, 0x13707036, 0xa2205f1f, 0x1c31c384, 0xae7813db, x)
  {
    hide Reached;
    Empty28(x);
    Four(28, 0x306ec122, 0xa0572807, 0xa3c663da, 0xd28c77c2, x, 5, 9, 14, 20,
      0x7b98ca41, 0x13707036,  0xd2cd83d1, 0xae7813db,  0xbea5b6e6, 0x1c31c384,  0xe9b9b85e, 0xa2205f1f);
  }

  lemma Empty36(x: seq<uint32>)
    requires x == EmptyBlock()
    ensures Reached(36, 0xdf63eaa1, 0x004b6669, 0x12f3e755, 0xc3689f5b, x)
  {
    hide Reached;
    Empty32(x);
    Four(32, 0x13707036, 0xa2205f1f, 0x1c31c384, 0xae7813db, x, 4, 11, 16, 23,
      0x23d438b8, 0xdf63eaa1,  0x975c8096, 0xc3689f5b,  0x47fa4f8b, 0x12f3e755,  0xaefe29da, 0x004b6669);
  }

  lemma Empty40(x: seq<uint32>)
    requires x == EmptyBlock()
    ensures Reached(40, 0x5f7a9b2e, 0xc5dc8c15, 0x91ca4cb7, 0xabc34e16, x)
  {
    hide Reached;
    Empty36(x);
    Four(36, 0xdf63eaa1, 0x004b6669, 0x12f3e755, 0xc3689f5b, x, 4, 11, 16, 23,
      0x55f2f34c, 0x5f7a9b2e,  0x5d098916, 0xabc34e16,  0xfea1e606, 0x91ca4cb7,  0x247ebc68, 0xc5dc8c15);
  }

  lemma Empty44(x: seq<uint32>)
    requires x == EmptyBlock()
    ensures Reached(44, 0x4497169d, 0x0fe32453, 0xfd95f243, 0x76fd93d4, x)
  {
    hide Reached;
    Empty40(x);
    Four(40, 0x5f7a9b2e, 0xc5dc8c15, 0x91ca4cb7, 0xabc34e16, x, 4, 11, 16, 23,
      0x87eba8a8, 0x4497169d,  0xa6e64ccf, 0x76fd93d4,  0x5e6f8698, 0xfd95f243,  0x9a642024, 0x0fe32453);
  }

  lemma Empty48(x: seq<uint32>)
    requires x == EmptyBlock()
    ensures Reached(48, 0x3f55edfd, 0xca7d2dbd, 0x68d84ea2, 0x22a31f54, x)
  {
    hide Reached;
    Empty44(x);
    Four(44, 0x4497169d, 0x0fe32453, 0xfd95f243, 0x76fd93d4, x, 4, 11, 16, 23,
      0xa2f72c9a, 0x3f55edfd,  0x2afc69a6, 0x22a31f54,  0x2f4e4635, 0x68d84ea2,  0x49be36c3, 0xca7d2dbd);
  }

  lemma Empty52(x: seq<uint32>)
    requires x == EmptyBlock()
    ensures Reached(52, 0x93aa2577, 0x561e0689, 0xcd85b8cb, 0x1688dc85, x)
  {
    hide Reached;
    Empty48(x);
    Four(48, 0x3f55edfd, 0xca7d2dbd, 0x68d84ea2, 0x22a31f54, x, 6, 10, 15, 21,
      0xeb24b3de, 0x93aa2577,  0xc3a0b7ad, 0x1688dc85,  0xb88d6df9, 0xcd85b8cb,  0xc26df444, 0x561e0689);
  }

  lemma Empty56(x: seq<uint32>)
    requires x == EmptyBlock()
    ensures Reached(56, 0x5625a114, 0x1e77fa61, 0x392ad0d0, 0x3450f42b, x)
  {
    hide Reached;
    Empty52(x);
    Four(52, 0x93aa2577, 0x561e0689, 0xcd85b8cb, 0x1688dc85, x, 6, 10, 15, 21,
      0x2c001e6a, 0x5625a114,  0xc5f78ad4, 0x3450f42b,  0xb94a09b3, 0x392ad0d0,  0x694c8f2a, 0x1e77fa61);
  }

  lemma Empty60(x: seq<uint32>)
    requires x == EmptyBlock()
    ensures Reached(60, 0x474a9c8c, 0x30130182, 0x36594b14, 0xdfce00bc, x)
  {
    hide Reached;
    Empty56(x);
    Four(56, 0x5625a114, 0x1e77fa61, 0x392ad0d0, 0x3450f42b, x, 6, 10, 15, 21,
      0xaca34a88, 0x474a9c8c,  0x0c2620d9, 0xdfce00bc,  0x94b0ad16, 0x36594b14,  0xcdb377cd, 0x30130182);
  }

  lemma Empty64(x: seq<uint32>)
    requires x == EmptyBlock()
    ensures Reached(64, 0x7246fad3, 0x14e45506, 0xff4ea3eb, 0x6e10a476, x)
  {
    hide Reached;
    Empty60(x);
    Four(60, 0x474a9c8c, 0x30130182, 0x36594b14, 0xdfce00bc, x, 6, 10, 15, 21,
      0x4508cfe5, 0x7246fad3,  0x68fef26a, 0x6e10a476,  0xfeeb227b, 0xff4ea3eb,  0xad88d8ac, 0x14e45506);
  }

  lemma Abc0(x: seq<uint32>)
    requires x == AbcBlock()
    ensures Reached(0, 0x67452301, 0xefcdab89, 0x98badcfe, 0x10325476, x)
  {}

  lemma Abc4(x: seq<uint32>)
    requires x == AbcBlock()
    ensures Reached(4, 0xd6d117b4, 0x7ad956f2, 0x2f6fbd72, 0x344a8432, x)
  {
    hide Reached;
    Abc0(x);
    Four(0, 0x67452301, 0xefcdab89, 0x98badcfe, 0x10325476, x, 7, 12, 17, 22,
      0x57ce06d8, 0xd6d117b4,  0xc7e5d796, 0x344a8432,  0x9ca07d92, 0x2f6fbd72,  0xa666012d, 0x7ad956f2);
  }

  lemma Abc8(x: seq<uint32>)
    requires x == AbcBlock()
    ensures Reached(8, 0xc73741ef, 0x928d99f6, 0x207dc67b, 0x8bac3051, x)
  {
    hide Reached;
    Abc4(x);
    Four(4, 0xd6d117b4, 0x7ad956f2, 0x2f6fbd72, 0x344a8432, x, 7, 12, 17, 22,
      0xfa98bbd5, 0xc73741ef,  0xe62c474e, 0x8bac3051,  0xcb154a68, 0x207dc67b,  0x3f4dedc8, 0x928d99f6);
  }

  lemma Abc12(x: seq<uint32>)
    requires x == AbcBlock()
    ensures Reached(12, 0x854b3712, 0x5ed49596, 0x3020401c, 0x74e2f284, x)
  {
    hide Reached;
    Abc8(x);
    Four(8, 0xc73741ef, 0x928d99f6, 0x207dc67b, 0x8bac3051, x, 7, 12, 17, 22,
      0x39e57b3a, 0x854b3712,  0xb72ef97b, 0x74e2f284,  0xa6cc5d9e, 0x3020401c,  0xd155e8ba, 0x5ed49596);
  }

  lemma Abc16(x: seq<uint32>)
    requires x == AbcBlock()
    ensures Reached(16, 0xdda9b9a6, 0x72aff2e0, 0xe396856b, 0xa1051895, x)
  {
    hide Reached;
    Abc12(x);
    Four(12, 0x854b3712, 0x5ed49596, 0x3020401c, 0x74e2f284, x, 7, 12, 17, 22,
      0x20fdaa48, 0xdda9b9a6,  0xeefc35b5, 0xa1051895,  0xb66b2148, 0xe396856b,  0x65b5d63c, 0x72aff2e0);
  }

  lemma Abc20(x: seq<uint32>)
    requires x == AbcBlock()
    ensures Reached(20, 0x3e9e9126, 0xb5b204e4, 0xe25e1652, 0x4a1d804e, x)
  {
    hide Reached;
    Abc16(x);
    Four(16, 0xdda9b9a6, 0x72aff2e0, 0xe396856b, 0xa1051895, x, 5, 9, 14, 20,
      0x365f74f2, 0x3e9e9126,  0x9405bf77, 0x4a1d804e,  0x58126102, 0xe25e1652,  0x3ee92d35, 0xb5b204e4);
  }

  lemma Abc24(x: seq<uint32>)
    requires x == AbcBlock()
    ensures Reached(24, 0x59a8ffda, 0x47092c07, 0xabfc7920, 0x6d002f1e, x)
  {
    hide Reached;
    Abc20(x);
    Four(20, 0x3e9e9126, 0xb5b204e4, 0xe25e1652, 0x4a1d804e, x, 5, 9, 14, 20,
      0xb51fb7d7, 0x59a8ffda,  0xa209ab97, 0x6d002f1e,  0x2808fbf1, 0xabfc7920,  0xcb2e79b0, 0x47092c07);
  }

  lemma Abc28(x: seq<uint32>)
    requires x == AbcBlock()
    ensures Reached(28, 0xb7f268cf, 0x786acb8f, 0xfe1623b1, 0x09388eff, x)
  {
    hide Reached;
    Abc24(x);
    Four(24, 0x59a8ffda, 0x47092c07, 0xabfc7920, 0x6d002f1e, x, 5, 9, 14, 20,
      0x438749e6, 0xb7f268cf,  0x1828a313, 0x09388eff,  0x52cbd376, 0xfe1623b1,  0x4a7de7a5, 0x786acb8f);
  }

  lemma Abc32(x: seq<uint32>)
    requires x == AbcBlock()
    ensures Reached(32, 0x790a77fb, 0x726342d3, 0xa62884aa, 0x9f47e4f8, x)
  {
    hide Reached;
    Abc28(x);
    Four(28, 0xb7f268cf, 0x786acb8f, 0xfe1623b1, 0x09388eff, x, 5, 9, 14, 20,
      0x6004fd63, 0x790a77fb,  0x7e931eb6, 0x9f47e4f8,  0x7ec81b82, 0xa62884aa,  0xabe29cc3, 0x726342d3);
  }

  lemma Abc36(x: seq<uint32>)
    requires x == AbcBlock()
    ensures Reached(36, 0xb3707ebf, 0x3b0875c7, 0x8d212ff5, 0x60127b2e, x)
  {
    hide Reached;
    Abc32(x);
    Four(32, 0x790a77fb, 0x726342d3, 0xa62884aa, 0x9f47e4f8, x, 4, 11, 16, 23,
      0xc410d3be, 0xb3707ebf,  0x8df5943f, 0x60127b2e,  0xb4c72d0e, 0x8d212ff5,  0xce8ba55b, 0x3b0875c7);
  }

  lemma Abc40(x: seq<uint32>)
    requires x == AbcBlock()
    ensures Reached(40, 0x21b117b9, 0x5a2f5ea5, 0x3575227e, 0x6e7429d5, x)
  {
    hide Reached;
    Abc36(x);
    Four(36, 0xb3707ebf, 0x3b0875c7, 0x8d212ff5, 0x60127b2e, x, 4, 11, 16, 23,
      0x2e6a8a1f, 0x21b117b9,  0x43899862, 0x6e7429d5,  0xf8a9c700, 0x3575227e,  0x74784e49, 0x5a2f5ea5);
  }

  lemma Abc44(x: seq<uint32>)
    requires x == AbcBlock()
    ensures Reached(44, 0x11de1779, 0x4c6124f4, 0x31c465ca, 0xfadcaa38, x)
  {
    hide Reached;
    Abc40(x);
    Four(40, 0x21b117b9, 0x5a2f5ea5, 0x3575227e, 0x6e7429d5, x, 4, 11, 16, 23,
      0x4b7aeb8d, 0x11de1779,  0x57fd1fd2, 0xfadcaa38,  0xbb9236e7, 0x31c465ca,  0x397e5435, 0x4c6124f4);
  }

  lemma Abc48(x: seq<uint32>)
    requires x == AbcBlock()
    ensures Reached(48, 0x7f2e507b, 0x7beb9700, 0x8fae6399, 0x99d9679d, x)
  {
    hide Reached;
    Abc44(x);
    Four(44, 0x11de1779, 0x4c6124f4, 0x31c465ca, 0xfadcaa38, x, 4, 11, 16, 23,
      0x732cd2b8, 0x7f2e507b,  0xe4435562, 0x99d9679d,  0xfbfcf5d4, 0x8fae6399,  0x7a66cfd8, 0x7beb9700);
  }

  lemma Abc52(x: seq<uint32>)
    requires x == AbcBlock()
    ensures Reached(52, 0x7b201df8, 0x8bf025c4, 0xb298cefd, 0xf4e8e96e, x)
  {
    hide Reached;
    Abc48(x);
    Four(48, 0x7f2e507b, 0x7beb9700, 0x8fae6399, 0x99d9679d, x, 6, 10, 15, 21,
      0xe3fcd21b, 0x7b201df8,  0xdd9e7232, 0xf4e8e96e,  0xcb1f7b5f, 0xb298cefd,  0xbab63eca, 0x8bf025c4);
  }

  lemma Abc56(x: seq<uint32>)
    requires x == AbcBlock()
    ensures Reached(56, 0x06cc5e8a, 0x3bfa2c27, 0x7d632dd0, 0x5b0d97aa, x)
  {
    hide Reached;
    Abc52(x);
    Four(52, 0x7b201df8, 0x8bf025c4, 0xb298cefd, 0xf4e8e96e, x, 6, 10, 15, 21,
      0x19eb70e3, 0x06cc5e8a,  0x4815104e, 0x5b0d97aa,  0x2c4c44ab, 0x7d632dd0,  0xb7f2bdf4, 0x3bfa2c27);
  }

  lemma Abc60(x: seq<uint32>)
    requires x == AbcBlock()
    ensures Reached(60, 0x7f81cc35, 0x7327d604, 0x4f9dbe3f, 0x094454ab, x)
  {
    hide Reached;
    Abc56(x);
    Four(56, 0x06cc5e8a, 0x3bfa2c27, 0x7d632dd0, 0x5b0d97aa, x, 6, 10, 15, 21,
      0x390e1e80, 0x7f81cc35,  0x1da270a2, 0x094454ab,  0xd3288cb2, 0x4f9dbe3f,  0x50be291c, 0x7327d604);
  }

  lemma Abc64(x: seq<uint32>)
    requires x == AbcBlock()
    ensures Reached(64, 0x310ade8f, 0xc08226b3, 0xe484b9d8, 0x624d8cb2, x)
  {
    hide Reached;
    Abc60(x);
    Four(60, 0x7f81cc35, 0x7327d604, 0x4f9dbe3f, 0x094454ab, x, 6, 10, 15, 21,
      0x2ef78c22, 0x310ade8f,  0x88cc50ab, 0x624d8cb2,  0x5a4d046e, 0xe484b9d8,  0xeb66dedf, 0xc08226b3);
  }
}
