/** Known answers of the test suite in section A.5 of RFC 1321, and the rows of section 3.4. */
module Md5Answers {
  import opened Octets
  import opened Sequences
  import opened Hex
  import opened Md5Spec
  import opened Md5Traces
  import opened Md5Context

  // A length in bits that fits in one byte.
  lemma LengthBytes(n: nat)
    requires n < 256
    ensures LittleEndian(n, 8) == [n, 0, 0, 0, 0, 0, 0, 0]
  {
    assert LittleEndian(0, 4) == [0, 0, 0, 0];
    assert LittleEndian(0, 7) == [0, 0, 0] + LittleEndian(0, 4);
  }

  // The block of a message of less than four bytes.
  lemma ShortBlock(a: seq<byte>, n: nat)
    requires |a| == 4 && n < 256
    ensures Words(a + Zeros(52) + LittleEndian(n, 8)) == [Word(a, 0), 0, 0, 0, 0, 0, 0, 0, 0, 0, 0, 0, 0, 0, n, 0]
  {
    LengthBytes(n);
    hide LittleEndian;
    var p := a + Zeros(52) + LittleEndian(n, 8);
    assert p[..4] == a;
    forall i | 1 <= i < 14 ensures Word(p, 4 * i) == 0 {}
  }

  lemma ShortPadded(m: seq<byte>)
    requires |m| <= 3
    ensures Padded(m) == m + [0x80] + Zeros(3 - |m|) + Zeros(52) + LittleEndian(8 * |m|, 8)
  {
    hide LittleEndian, Zeros;
    ZerosJoined(3 - |m|, 52);
    Associated(m + [0x80], Zeros(3 - |m|), Zeros(52));
  }

  lemma ZerosJoined(m: nat, n: nat)
    ensures Zeros(m + n) == Zeros(m) + Zeros(n)
  {}

  lemma EmptyWords()
    ensures |Padded([])| == 64 && Words(Padded([])) == EmptyBlock()
  {
    hide LittleEndian;
    ShortPadded([]);
    ShortBlock([0x80, 0, 0, 0], 0);
    assert [] + [0x80] + Zeros(3) == [0x80, 0, 0, 0];
  }

  lemma AbcWords()
    ensures |Padded([0x61, 0x62, 0x63])| == 64 && Words(Padded([0x61, 0x62, 0x63])) == AbcBlock()
  {
    hide LittleEndian;
    ShortPadded([0x61, 0x62, 0x63]);
    ShortBlock([0x61, 0x62, 0x63, 0x80], 24);
    assert [0x61, 0x62, 0x63] + [0x80] + Zeros(0) == [0x61, 0x62, 0x63, 0x80];
  }

  lemma CompressedBlock(x: seq<uint32>, a: bv32, b: bv32, c: bv32, d: bv32)
    requires |x| == 16 && Reached(64, a, b, c, d, x)
    ensures Compress(INITIAL, x) == Registers(Add(0x67452301, Unsigned(a)), Add(0xefcdab89, Unsigned(b)),
                                              Add(0x98badcfe, Unsigned(c)), Add(0x10325476, Unsigned(d)))
  {
    Initially();
    hide Operations, Add, Unsigned;
  }

  lemma Initially()
    ensures INITIAL == Registers(0x67452301, 0xefcdab89, 0x98badcfe, 0x10325476)
  {}

  lemma AbsorbedBlock(p: seq<byte>)
    requires |p| == 64
    ensures Absorb(p) == Compress(INITIAL, Words(p))
  {
    hide Compress;
    assert p[0..] == p;
  }

  // The digest of a message that fills one block, whose operations leave (a, b, c, d).
  lemma OneBlock(m: seq<byte>, x: seq<uint32>, a: bv32, b: bv32, c: bv32, d: bv32)
    requires |Padded(m)| == 64 && Words(Padded(m)) == x && Reached(64, a, b, c, d, x)
    ensures Digest(m) == Output(Registers(Add(0x67452301, Unsigned(a)), Add(0xefcdab89, Unsigned(b)),
                                          Add(0x98badcfe, Unsigned(c)), Add(0x10325476, Unsigned(d))))
  {
    hide Padded, Absorb, Reached, Compress, Output, Add, Unsigned;
    AbsorbedBlock(Padded(m));
    CompressedBlock(x, a, b, c, d);
  }

  lemma LittleEndianWord(b0: byte, b1: byte, b2: byte, b3: byte)
    ensures LittleEndian(b0 + 0x100 * b1 + 0x1_0000 * b2 + 0x100_0000 * b3, 4) == [b0, b1, b2, b3]
  {
    LowByte(b0, b1 + 0x100 * b2 + 0x1_0000 * b3);
    LowByte(b1, b2 + 0x100 * b3);
    LowByte(b2, b3);
    assert LittleEndian(b2 + 0x100 * b3, 2) == [b2, b3];
  }

  lemma LowByte(b: byte, n: nat)
    ensures (b + 0x100 * n) % 256 == b && (b + 0x100 * n) / 256 == n
  {}

  lemma EmptyOutput()
    ensures Output(Registers(0xd98c1dd4, 0x04b2008f, 0x980980e9, 0x7e42f8ec))
         == [0xd4, 0x1d, 0x8c, 0xd9, 0x8f, 0x00, 0xb2, 0x04, 0xe9, 0x80, 0x09, 0x98, 0xec, 0xf8, 0x42, 0x7e]
  {
    hide LittleEndian;
    LittleEndianWord(0xd4, 0x1d, 0x8c, 0xd9);
    LittleEndianWord(0x8f, 0x00, 0xb2, 0x04);
    LittleEndianWord(0xe9, 0x80, 0x09, 0x98);
    LittleEndianWord(0xec, 0xf8, 0x42, 0x7e);
  }

  lemma AbcOutput()
    ensures Output(Registers(0x98500190, 0xb04fd23c, 0x7d3f96d6, 0x727fe128))
         == [0x90, 0x01, 0x50, 0x98, 0x3c, 0xd2, 0x4f, 0xb0, 0xd6, 0x96, 0x3f, 0x7d, 0x28, 0xe1, 0x7f, 0x72]
  {
    hide LittleEndian;
    LittleEndianWord(0x90, 0x01, 0x50, 0x98);
    LittleEndianWord(0x3c, 0xd2, 0x4f, 0xb0);
    LittleEndianWord(0xd6, 0x96, 0x3f, 0x7d);
    LittleEndianWord(0x28, 0xe1, 0x7f, 0x72);
  }

  // MD5 ("") and MD5 ("abc").
  lemma EmptyDigest()
    ensures Digest([])
         == [0xd4, 0x1d, 0x8c, 0xd9, 0x8f, 0x00, 0xb2, 0x04, 0xe9, 0x80, 0x09, 0x98, 0xec, 0xf8, 0x42, 0x7e]
  {
    hide Padded, Digest, Reached, Words, EmptyBlock, Output;
    EmptyWords();
    Empty64(EmptyBlock());
    OneBlock([], EmptyBlock(), 0x7246fad3, 0x14e45506, 0xff4ea3eb, 0x6e10a476);
    EmptyOutput();
  }

  lemma AbcDigest()
    ensures Digest([0x61, 0x62, 0x63])
         == [0x90, 0x01, 0x50, 0x98, 0x3c, 0xd2, 0x4f, 0xb0, 0xd6, 0x96, 0x3f, 0x7d, 0x28, 0xe1, 0x7f, 0x72]
  {
    hide Padded, Digest, Reached, Words, AbcBlock, Output;
    AbcWords();
    Abc64(AbcBlock());
    OneBlock([0x61, 0x62, 0x63], AbcBlock(), 0x310ade8f, 0xc08226b3, 0xe484b9d8, 0x624d8cb2);
    AbcOutput();
  }

  lemma {:induction false} HexTextJoined(a: seq<byte>, b: seq<byte>)
    ensures HexText(a + b) == HexText(a) + HexText(b)
  {
    if a == [] {
      assert a + b == b;
    } else {
      HexTextJoined(a[1..], b);
      assert (a + b)[1..] == a[1..] + b;
      Associated(HexPair(a[0]), HexText(a[1..]), HexText(b));
    }
  }

  lemma HexOfWord(a: byte, b: byte, c: byte, d: byte)
    ensures HexText([a, b, c, d]) == HexPair(a) + HexPair(b) + (HexPair(c) + HexPair(d))
  {
    HexOfPair(a, b);
    HexOfPair(c, d);
    HexTextJoined([a, b], [c, d]);
  }

  lemma HexOfPair(a: byte, b: byte)
    ensures HexText([a, b]) == HexPair(a) + HexPair(b)
  {
    assert HexText([b]) == HexPair(b);
  }

  lemma FirstHalf()
    ensures HexText([0xd4, 0x1d, 0x8c, 0xd9] + [0x8f, 0x00, 0xb2, 0x04]) == "d41d8cd98f00b204"
  {
    hide HexText;
    HexOfWord(0xd4, 0x1d, 0x8c, 0xd9);
    HexOfWord(0x8f, 0x00, 0xb2, 0x04);
    HexTextJoined([0xd4, 0x1d, 0x8c, 0xd9], [0x8f, 0x00, 0xb2, 0x04]);
  }

  lemma SecondHalf()
    ensures HexText([0xe9, 0x80, 0x09, 0x98] + [0xec, 0xf8, 0x42, 0x7e]) == "e9800998ecf8427e"
  {
    hide HexText;
    HexOfWord(0xe9, 0x80, 0x09, 0x98);
    HexOfWord(0xec, 0xf8, 0x42, 0x7e);
    HexTextJoined([0xe9, 0x80, 0x09, 0x98], [0xec, 0xf8, 0x42, 0x7e]);
  }

  // What encoder_md5::encode writes for an empty stream.
  lemma EmptyText()
    ensures HexText(Digest([])) == "d41d8cd98f00b204e9800998ecf8427e"
  {
    hide Digest, HexText, HexPair;
    EmptyDigest();
    FirstHalf();
    SecondHalf();
    var low, high := [0xd4, 0x1d, 0x8c, 0xd9] + [0x8f, 0x00, 0xb2, 0x04], [0xe9, 0x80, 0x09, 0x98] + [0xec, 0xf8, 0x42, 0x7e];
    HexTextJoined(low, high);
    assert Digest([]) == low + high;
  }

  // The words that rounds 2, 3 and 4 read, in their order.
  lemma Row2(j: nat)
    requires j < 16
    ensures WordIndex(16 + j) == [1, 6, 11, 0, 5, 10, 15, 4, 9, 14, 3, 8, 13, 2, 7, 12][j]
  {}

  lemma Row3(j: nat)
    requires j < 16
    ensures WordIndex(32 + j) == [5, 8, 11, 14, 1, 4, 7, 10, 13, 0, 3, 6, 9, 12, 15, 2][j]
  {}

  lemma Row4(j: nat)
    requires j < 16
    ensures WordIndex(48 + j) == [0, 7, 14, 5, 12, 3, 10, 1, 8, 15, 6, 13, 4, 11, 2, 9][j]
  {}

  // The length of 2^29 bytes in bits does not fit in the low-order word.
  lemma LongLength(m: seq<byte>)
    requires |m| == 0x2000_0000
    ensures Padded(m)[|Padded(m)| - 8..] == [0, 0, 0, 0, 1, 0, 0, 0]
  {
    hide LittleEndian;
    LittleEndianWord(1, 0, 0, 0);
    LowZeros(1);
    assert BitCount(|m|) == 0x1_0000_0000;
  }

  lemma LowZeros(n: nat)
    ensures LittleEndian(0x1_0000_0000 * n, 8) == [0, 0, 0, 0] + LittleEndian(n, 4)
  {
    LowByte(0, 0x100_0000 * n);
    LowByte(0, 0x1_0000 * n);
    LowByte(0, 0x100 * n);
    LowByte(0, n);
    assert LittleEndian(0x1_0000 * n, 6) == [0, 0] + LittleEndian(n, 4);
  }
}
