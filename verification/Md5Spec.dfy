/** The MD5 message-digest algorithm as sections 3.1-3.5 of RFC 1321 define it: the reference
    the streaming encoder is proved against. Bytes and words are integers with explicit bounds;
    the bitwise operations go through 32-bit vectors. */
module Md5Spec {
  import opened Octets

  type uint32 = x: int | 0 <= x < 0x1_0000_0000

  datatype Registers = Registers(a: uint32, b: uint32, c: uint32, d: uint32)

  const INITIAL := Registers(0x67452301, 0xefcdab89, 0x98badcfe, 0x10325476)

  // The table T[1 .. 64] of section 3.4: entry i is the integer part of 4294967296 * abs(sin(i)).
  function T(i: nat): uint32
    requires i < 64
  {
    match i
    case 0 => 0xd76aa478 case 1 => 0xe8c7b756 case 2 => 0x242070db case 3 => 0xc1bdceee
    case 4 => 0xf57c0faf case 5 => 0x4787c62a case 6 => 0xa8304613 case 7 => 0xfd469501
    case 8 => 0x698098d8 case 9 => 0x8b44f7af case 10 => 0xffff5bb1 case 11 => 0x895cd7be
    case 12 => 0x6b901122 case 13 => 0xfd987193 case 14 => 0xa679438e case 15 => 0x49b40821
    case 16 => 0xf61e2562 case 17 => 0xc040b340 case 18 => 0x265e5a51 case 19 => 0xe9b6c7aa
    case 20 => 0xd62f105d case 21 => 0x02441453 case 22 => 0xd8a1e681 case 23 => 0xe7d3fbc8
    case 24 => 0x21e1cde6 case 25 => 0xc33707d6 case 26 => 0xf4d50d87 case 27 => 0x455a14ed
    case 28 => 0xa9e3e905 case 29 => 0xfcefa3f8 case 30 => 0x676f02d9 case 31 => 0x8d2a4c8a
    case 32 => 0xfffa3942 case 33 => 0x8771f681 case 34 => 0x6d9d6122 case 35 => 0xfde5380c
    case 36 => 0xa4beea44 case 37 => 0x4bdecfa9 case 38 => 0xf6bb4b60 case 39 => 0xbebfbc70
    case 40 => 0x289b7ec6 case 41 => 0xeaa127fa case 42 => 0xd4ef3085 case 43 => 0x04881d05
    case 44 => 0xd9d4d039 case 45 => 0xe6db99e5 case 46 => 0x1fa27cf8 case 47 => 0xc4ac5665
    case 48 => 0xf4292244 case 49 => 0x432aff97 case 50 => 0xab9423a7 case 51 => 0xfc93a039
    case 52 => 0x655b59c3 case 53 => 0x8f0ccc92 case 54 => 0xffeff47d case 55 => 0x85845dd1
    case 56 => 0x6fa87e4f case 57 => 0xfe2ce6e0 case 58 => 0xa3014314 case 59 => 0x4e0811a1
    case 60 => 0xf7537e82 case 61 => 0xbd3af235 case 62 => 0x2ad7d2bb case _ => 0xeb86d391
  }

  // A number modulo 2^32.
  function Wrap(x: nat): uint32 { x % 0x1_0000_0000 }

  // Addition of words, modulo 2^32.
  function Add(x: uint32, y: uint32): uint32 { Wrap(x + y) }

  // The four auxiliary functions of section 3.4, and the rotation, on vectors of 32 bits.
  function FBits(x: bv32, y: bv32, z: bv32): bv32 { (x & y) | (!x & z) }

  function GBits(x: bv32, y: bv32, z: bv32): bv32 { (x & z) | (y & !z) }

  function HBits(x: bv32, y: bv32, z: bv32): bv32 { x ^ y ^ z }

  function IBits(x: bv32, y: bv32, z: bv32): bv32 { y ^ (x | !z) }

  function RotateBits(x: bv32, s: nat): bv32
    requires s < 32
  {
    (x << s) | (x >> (32 - s))
  }

  // The bits of a word, and back.
  function Bits(x: uint32): bv32 { x as bv32 }

  function Unsigned(x: bv32): uint32 { x as int }

  // The same on words.
  function F(x: uint32, y: uint32, z: uint32): uint32 { Unsigned(FBits(Bits(x), Bits(y), Bits(z))) }

  function G(x: uint32, y: uint32, z: uint32): uint32 { Unsigned(GBits(Bits(x), Bits(y), Bits(z))) }

  function H(x: uint32, y: uint32, z: uint32): uint32 { Unsigned(HBits(Bits(x), Bits(y), Bits(z))) }

  function I(x: uint32, y: uint32, z: uint32): uint32 { Unsigned(IBits(Bits(x), Bits(y), Bits(z))) }

  function RotateLeft(x: uint32, s: nat): uint32
    requires s < 32
  {
    Unsigned(RotateBits(Bits(x), s))
  }

  function Auxiliary(i: nat, x: uint32, y: uint32, z: uint32): uint32 {
    if i < 16 then F(x, y, z) else if i < 32 then G(x, y, z) else if i < 48 then H(x, y, z) else I(x, y, z)
  }

  // The message word that operation i reads.
  function WordIndex(i: nat): (k: nat)
    ensures k < 16
  {
    (if i < 16 then i else if i < 32 then 5 * i + 1 else if i < 48 then 3 * i + 5 else 7 * i) % 16
  }

  // The distance by which operation i rotates.
  function Shift(i: nat): (s: nat)
    ensures 0 < s < 32
  {
    if i < 16 then Cycle(i, 7, 12, 17, 22)
    else if i < 32 then Cycle(i, 5, 9, 14, 20)
    else if i < 48 then Cycle(i, 4, 11, 16, 23)
    else Cycle(i, 6, 10, 15, 21)
  }

  function Cycle(i: nat, s0: nat, s1: nat, s2: nat, s3: nat): nat {
    match i % 4 case 0 => s0 case 1 => s1 case 2 => s2 case _ => s3
  }

  // Operation [abcd k s i] of section 3.4: the new a is b + ((a + f(b,c,d) + X[k] + T(i)) <<< s).
  // The next operation is written with its registers renamed, which the record does by rotating.
  function Operation(i: nat, r: Registers, x: seq<uint32>): Registers
    requires |x| == 16 && i < 64
  {
    var sum := Add(Add(Add(r.a, Auxiliary(i, r.b, r.c, r.d)), x[WordIndex(i)]), T(i));
    Registers(r.d, Add(r.b, RotateLeft(sum, Shift(i))), r.b, r.c)
  }

  // The first n operations.
  function Operations(n: nat, r: Registers, x: seq<uint32>): Registers
    requires |x| == 16 && n <= 64
  {
    if n == 0 then r else Operation(n - 1, Operations(n - 1, r, x), x)
  }

  function Compress(r: Registers, x: seq<uint32>): Registers
    requires |x| == 16
  {
    var s := Operations(64, r, x);
    Registers(Add(r.a, s.a), Add(r.b, s.b), Add(r.c, s.c), Add(r.d, s.d))
  }

  // Four bytes read as a word, low-order byte first (section 2).
  function Word(b: seq<byte>, at: nat): uint32
    requires at + 4 <= |b|
  {
    var b0: int, b1: int, b2: int, b3: int := b[at], b[at + 1], b[at + 2], b[at + 3];
    b0 + 0x100 * b1 + 0x1_0000 * b2 + 0x100_0000 * b3
  }

  function Words(block: seq<byte>): (w: seq<uint32>)
    requires |block| == 64
    ensures |w| == 16
  {
    seq(16, i requires 0 <= i < 16 => Word(block, 4 * i))
  }

  // The k low-order bytes of n, low-order byte first.
  function LittleEndian(n: nat, k: nat): (b: seq<byte>)
    ensures |b| == k
  {
    if k == 0 then [] else [n % 256] + LittleEndian(n / 256, k - 1)
  }

  function Zeros(n: nat): (b: seq<byte>)
    ensures |b| == n
  {
    seq(n, i requires 0 <= i < n => 0)
  }

  // The number of zero bytes that brings n bytes and a first padding byte to 56 modulo 64.
  function ZeroCount(n: nat): (k: nat)
    ensures (n + 1 + k) % 64 == 56 && k < 64
  {
    if n % 64 < 56 then 55 - n % 64 else 119 - n % 64
  }

  // The length in bits of n bytes, modulo 2^64.
  function BitCount(n: nat): nat { 8 * n % 0x1_0000_0000_0000_0000 }

  // Sections 3.1 and 3.2: a one bit, zero bits up to 448 modulo 512, and the length in bits
  // modulo 2^64 as two words, low-order word first.
  function Padded(m: seq<byte>): seq<byte> {
    m + [0x80] + Zeros(ZeroCount(|m|)) + LittleEndian(BitCount(|m|), 8)
  }

  lemma PaddedLength(m: seq<byte>)
    ensures |Padded(m)| == |m| + 1 + ZeroCount(|m|) + 8
  {
    hide ZeroCount, BitCount;
  }

  lemma EightMore(n: nat)
    requires n % 64 == 56
    ensures (n + 8) % 64 == 0
  {}

  // The padded message is the shortest run of whole blocks with room for nine more bytes.
  lemma PaddedFillsBlocks(m: seq<byte>)
    ensures |Padded(m)| % 64 == 0 && |m| + 9 <= |Padded(m)| < |m| + 73
  {
    hide Padded;
    PaddedLength(m);
    EightMore(|m| + 1 + ZeroCount(|m|));
  }

  // The registers after the 64-byte blocks of p, which section 3.4 processes one after the other.
  function Absorb(p: seq<byte>): Registers {
    if |p| < 64 then INITIAL
    else Compress(Absorb(p[..|p| - 64]), Words(p[|p| - 64..]))
  }

  // Section 3.5: the digest begins with the low-order byte of a.
  function Output(r: Registers): (b: seq<byte>)
    ensures |b| == 16
  {
    LittleEndian(r.a, 4) + LittleEndian(r.b, 4) + LittleEndian(r.c, 4) + LittleEndian(r.d, 4)
  }

  function Digest(m: seq<byte>): (b: seq<byte>)
    ensures |b| == 16
  {
    Output(Absorb(Padded(m)))
  }
}
