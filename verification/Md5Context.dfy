/** The streaming half of src/dcl/encoder_md5.cpp: a context with a 64-byte buffer and a bit count in
    two words, fed chunk by chunk. Its abstract value is the message received so far. */
module Md5Context {
  import opened Hex
  import opened Md5Spec
  import opened Md5Transform
  import opened Octets
  import opened Sequences
  import opened Streams

  // The number held in two words.
  function Pair(low: nat, high: nat): nat { low + 0x1_0000_0000 * high }

  // The part of m that fills whole blocks, and the rest.
  function Blocks(m: seq<byte>): (b: seq<byte>)
    ensures |b| % 64 == 0
  {
    m[..|m| - |m| % 64]
  }

  function Tail(m: seq<byte>): seq<byte> {
    m[|m| - |m| % 64..]
  }

  lemma AbsorbBlock(p: seq<byte>, block: seq<byte>)
    requires |block| == 64
    ensures Absorb(p + block) == Compress(Absorb(p), Words(block))
  {
    assert (p + block)[..|p + block| - 64] == p;
    assert (p + block)[|p + block| - 64..] == block;
  }

  lemma SplitBlocks(p: seq<byte>, t: seq<byte>)
    requires |p| % 64 == 0 && |t| < 64
    ensures Blocks(p + t) == p && Tail(p + t) == t && |p + t| % 64 == |t|
  {
    assert |p + t| % 64 == |t|;
  }

  lemma Residue(x: int, q: int, r: int)
    requires x == q * 0x1_0000_0000_0000_0000 + r && 0 <= r < 0x1_0000_0000_0000_0000
    ensures x % 0x1_0000_0000_0000_0000 == r
  {}

  // The low word of 8 * len is added with a carry when it wraps; len >> 29 is its high word.
  lemma LowWordCarries(low: uint32, len: uint32)
    ensures
      var low' := Wrap(low + Wrap(len * 8));
      low' + (if low' < low then 0x1_0000_0000 else 0) + 0x1_0000_0000 * (len / 0x2000_0000) == low + 8 * len
  {
    var added := Wrap(len * 8);
    assert Wrap(low + added) == if low + added < 0x1_0000_0000 then low + added else low + added - 0x1_0000_0000;
    assert len * 8 == Wrap(len * 8) + 0x1_0000_0000 * (len / 0x2000_0000);
  }

  // The count that MD5Update keeps: two words with a manual carry.
  lemma CarriedCount(low: uint32, high: uint32, len: uint32, total: nat)
    requires Pair(low, high) == BitCount(total)
    ensures
      var low' := Wrap(low + Wrap(len * 8));
      var carry := if low' < low then 1 else 0;
      Pair(low', Wrap(Wrap(high + carry) + len / 0x2000_0000)) == BitCount(total + len)
  {
    var low' := Wrap(low + Wrap(len * 8));
    var carry := if low' < low then 1 else 0;
    var sum := high + carry + len / 0x2000_0000;
    var q := 8 * total / 0x1_0000_0000_0000_0000;
    LowWordCarries(low, len);
    WrapOnce(high + carry, len / 0x2000_0000);
    assert sum == Wrap(sum) + 0x1_0000_0000 * (sum / 0x1_0000_0000);
    hide Wrap;
    Residue(8 * (total + len), q + sum / 0x1_0000_0000, Pair(low', Wrap(sum)));
  }

  lemma WrapSmall(x: uint32)
    ensures Wrap(x) == x
  {}

  // The byte count modulo 64, read off the low word.
  lemma BufferedCount(low: uint32, high: uint32, total: nat)
    requires Pair(low, high) == BitCount(total)
    ensures low / 8 % 64 == total % 64
  {
    var k := high + 0x1_0000_0000 * (8 * total / 0x1_0000_0000_0000_0000);
    assert low == 8 * (total - 0x2000_0000 * k);
    assert low / 8 == total - 64 * (0x80_0000 * k);
    Residue64(total, 0x80_0000 * k);
  }

  lemma Residue64(n: int, k: int)
    ensures (n - 64 * k) % 64 == n % 64
  {}

  lemma Split(m: seq<byte>)
    ensures m == Blocks(m) + Tail(m) && |Tail(m)| == |m| % 64 && |Blocks(m)| % 64 == 0
  {}

  lemma Chunk<X>(done: seq<X>, data: seq<X>, i: nat, j: nat)
    requires i <= j <= |data|
    ensures done + data[i..j] + data[j..] == done + data[i..]
  {
    assert data[i..] == data[i..j] + data[j..];
  }

  function Power256(k: nat): nat {
    if k == 0 then 1 else 256 * Power256(k - 1)
  }

  lemma Powers()
    ensures Power256(4) == 0x1_0000_0000 && Power256(8) == 0x1_0000_0000_0000_0000
  {
    assert Power256(2) == 0x1_0000;
    assert Power256(6) == 0x1_0000_0000_0000;
  }

  lemma LowByte(low: nat, high: nat)
    ensures (low + 256 * high) % 256 == low % 256 && (low + 256 * high) / 256 == low / 256 + high
  {}

  // The bytes of a number in two parts are the bytes of the parts.
  lemma {:induction false} LittleEndianParts(low: nat, high: nat, j: nat, k: nat)
    requires low < Power256(j)
    ensures LittleEndian(low + Power256(j) * high, j + k) == LittleEndian(low, j) + LittleEndian(high, k)
  {
    PowerStep(j);
    hide Power256, LittleEndian;
    if j == 0 {
      NoBytes(low);
    } else {
      var rest := Power256(j - 1) * high;
      Regrouped(Power256(j - 1), high);
      LowByte(low, rest);
      LittleEndianParts(low / 256, high, j - 1, k);
      FirstByte(low + 256 * rest, j + k);
      FirstByte(low, j);
      Associated([low % 256], LittleEndian(low / 256, j - 1), LittleEndian(high, k));
    }
  }

  lemma PowerStep(j: nat)
    ensures if j == 0 then Power256(j) == 1 else Power256(j) == 256 * Power256(j - 1)
  {}

  lemma NoBytes(n: nat)
    ensures LittleEndian(n, 0) == []
  {}

  lemma Regrouped(x: nat, y: nat)
    ensures 256 * x * y == 256 * (x * y)
  {}

  lemma FirstByte(n: nat, k: nat)
    requires k > 0
    ensures LittleEndian(n, k) == [n % 256] + LittleEndian(n / 256, k - 1)
  {}

  // The two count words, stored one after the other, are the 64-bit count.
  lemma CountBytes(low: uint32, high: uint32)
    ensures LittleEndian(low, 4) + LittleEndian(high, 4) == LittleEndian(Pair(low, high), 8)
  {
    Powers();
    hide Power256, LittleEndian;
    LittleEndianParts(low, high, 4, 4);
  }

  lemma {:induction false} ZeroBytes(n: nat, k: nat)
    requires n < Power256(k) && LittleEndian(n, k) == Zeros(k)
    ensures n == 0
  {
    if k > 0 {
      assert LittleEndian(n, k)[0] == n % 256 == 0;
      assert LittleEndian(n / 256, k - 1) == LittleEndian(n, k)[1..] == Zeros(k - 1);
      ZeroBytes(n / 256, k - 1);
    }
  }

  lemma Eighth(n: nat, q: nat)
    requires 8 * n == 0x1_0000_0000_0000_0000 * q
    ensures n % 64 == 0
  {
    assert n == 64 * (0x80_0000_0000_0000 * q);
  }

  // The last 64 bytes of the padding.
  function LastBlock(m: seq<byte>): (b: seq<byte>)
    ensures |b| == 64
  {
    PaddedFillsBlocks(m);
    Padded(m)[|Padded(m)| - 64..]
  }

  lemma BlockIsLast(m: seq<byte>, p: seq<byte>, b: seq<byte>)
    requires Padded(m) == p + b && |b| == 64
    ensures LastBlock(m) == b
  {}

  // The last block is never all zeros: it holds the first padding byte, or a bit count that is not zero.
  lemma LastBlockIsNotZero(m: seq<byte>)
    ensures LastBlock(m) != Zeros(64)
  {
    hide LastBlock, LittleEndian, Zeros, Padded, Blocks, Tail, BitCount;
    var t := |m| % 64;
    var count := LittleEndian(BitCount(|m|), 8);
    if t < 56 {
      PaddedShort(m);
      Split(m);
      var b := Tail(m) + [0x80] + Zeros(55 - t) + count;
      BlockIsLast(m, Blocks(m), b);
      assert b[t] == 0x80;
      ZeroAt(64, t);
    } else {
      PaddedLong(m);
      Split(m);
      var p := Blocks(m) + (Tail(m) + [0x80] + Zeros(63 - t));
      BlockIsLast(m, p, Zeros(56) + count);
      if Zeros(56) + count == Zeros(64) {
        ZerosSplit(64, 8);
        assert count == (Zeros(56) + count)[56..] == (Zeros(56) + Zeros(8))[56..] == Zeros(8);
        CountIsZero(|m|);
      }
    }
  }

  lemma ZeroAt(n: nat, i: nat)
    requires i < n
    ensures Zeros(n)[i] == 0
  {}

  lemma CountIsZero(n: nat)
    requires LittleEndian(BitCount(n), 8) == Zeros(8)
    ensures n % 64 == 0
  {
    assert Power256(8) == 0x1_0000_0000_0000_0000 by {
      Powers();
      assert Power256(6) == 0x1_0000_0000_0000;
    }
    ZeroBytes(BitCount(n), 8);
    Eighth(n, 8 * n / 0x1_0000_0000_0000_0000);
  }

  lemma Regroup<X>(a: seq<X>, b: seq<X>, c: seq<X>, d: seq<X>, e: seq<X>)
    ensures a + b + c + d + e == a + (b + c + d + e)
  {}

  lemma RegroupTwo<X>(a: seq<X>, b: seq<X>, c: seq<X>, d: seq<X>, e: seq<X>, f: seq<X>)
    ensures a + b + c + (d + e) + f == a + (b + c + d) + (e + f)
  {}

  lemma ZerosSplit(n: nat, k: nat)
    requires k <= n
    ensures Zeros(n) == Zeros(n - k) + Zeros(k)
  {}

  lemma HalfIsZero(c: uint32, d: uint32)
    ensures LittleEndian(c, 4) + LittleEndian(d, 4) == Zeros(8) <==> c == 0 && d == 0
  {
    Powers();
    ZerosSplit(8, 4);
    var x, y := LittleEndian(c, 4), LittleEndian(d, 4);
    if x + y == Zeros(8) {
      assert x == (x + y)[..4] == (Zeros(4) + Zeros(4))[..4] == Zeros(4);
      assert y == (x + y)[4..] == (Zeros(4) + Zeros(4))[4..] == Zeros(4);
      ZeroBytes(c, 4);
      ZeroBytes(d, 4);
    } else if c == 0 && d == 0 {
      BytesOfZero(4);
    }
  }

  lemma {:induction false} BytesOfZero(k: nat)
    ensures LittleEndian(0, k) == Zeros(k)
  {
    if k > 0 {
      BytesOfZero(k - 1);
    }
  }

  // Where the padding puts the end of the message: one more block, or two.
  lemma PaddedShort(m: seq<byte>)
    requires |m| % 64 < 56
    ensures Padded(m) == Blocks(m) + (Tail(m) + [0x80] + Zeros(55 - |m| % 64) + LittleEndian(BitCount(|m|), 8))
  {
    hide LittleEndian, Blocks, Tail, Zeros, BitCount;
    var t := |m| % 64;
    Split(m);
    Regroup(Blocks(m), Tail(m), [0x80], Zeros(55 - t), LittleEndian(BitCount(|m|), 8));
  }

  lemma PaddedLong(m: seq<byte>)
    requires |m| % 64 >= 56
    ensures Padded(m) == Blocks(m) + (Tail(m) + [0x80] + Zeros(63 - |m| % 64)) + (Zeros(56) + LittleEndian(BitCount(|m|), 8))
  {
    hide LittleEndian, Blocks, Tail, Zeros, BitCount;
    var t := |m| % 64;
    ZerosSplit(119 - t, 56);
    Split(m);
    RegroupTwo(Blocks(m), Tail(m), [0x80], Zeros(63 - t), Zeros(56), LittleEndian(BitCount(|m|), 8));
  }

  class Context {
    const buf: array<uint32>
    const bits: array<uint32>
    const input: array<byte>
    ghost var message: seq<byte>

    ghost function Value(): Registers
      requires buf.Length == 4
      reads buf
    {
      Registers(buf[0], buf[1], buf[2], buf[3])
    }

    ghost predicate Valid()
      reads this, buf, bits, input
    {
      && buf.Length == 4 && bits.Length == 2 && input.Length == 64 && buf != bits
      && Value() == Absorb(Blocks(message))
      && Pair(bits[0], bits[1]) == BitCount(|message|)
      && input[..|message| % 64] == Tail(message)
    }

    // MD5Init.
    constructor ()
      ensures Valid() && message == []
      ensures fresh(buf) && fresh(bits) && fresh(input)
    {
      buf := new uint32[4];
      bits := new uint32[2];
      input := new byte[64];
      message := [];
      new;
      buf[0] := 0x67452301;
      buf[1] := 0xefcdab89;
      buf[2] := 0x98badcfe;
      buf[3] := 0x10325476;
      bits[0] := 0;
      bits[1] := 0;
    }

    // The buffered block goes through MD5Transform: byteReverse turns it into words.
    method TransformInput(ghost p: seq<byte>)
      requires buf.Length == 4 && input.Length == 64
      requires Value() == Absorb(p)
      modifies buf
      ensures Value() == Absorb(p + input[..])
    {
      assert input[..] == old(input[..]);
      Transform(buf, Words(input[..]));
      AbsorbBlock(p, input[..]);
    }

    // The memcpy calls: n bytes of data, from position from, to position at of the buffer.
    method Copy(at: nat, data: seq<byte>, from: nat, n: nat)
      requires input.Length == 64 && at + n <= 64 && from + n <= |data|
      modifies input
      ensures input[..at + n] == old(input[..at]) + data[from..from + n]
    {
      forall i | 0 <= i < n {
        input[at + i] := data[from + i];
      }
    }

    // The first lines of MD5Update, which count the new bytes.
    method Count(len: uint32, ghost total: nat)
      requires bits.Length == 2
      requires Pair(bits[0], bits[1]) == BitCount(total)
      modifies bits
      ensures Pair(bits[0], bits[1]) == BitCount(total + len)
    {
      hide Pair, BitCount, Wrap;
      CarriedCount(bits[0], bits[1], len, total);
      WrapSmall(bits[1]);
      var t: nat, high: nat := bits[0], bits[1];
      bits[0] := Wrap(t + Wrap(len * 8));
      if bits[0] < t {
        high := Wrap(high + 1);
      }
      bits[1] := Wrap(high + len / 0x2000_0000);
    }

    // One block of the loop of MD5Update.
    method AbsorbAt(ghost done: seq<byte>, data: seq<byte>, pos: nat)
      requires buf.Length == 4 && input.Length == 64 && pos + 64 <= |data| && Value() == Absorb(done)
      modifies buf, input
      ensures Value() == Absorb(done + data[pos..pos + 64])
    {
      hide Absorb, Words, Compress;
      Copy(0, data, pos, 64);
      assert input[..] == input[..64] == data[pos..pos + 64];
      TransformInput(done);
      assert input[..] == data[pos..pos + 64];
    }

    // The last lines of MD5Update: whole blocks from position from on, then the rest is buffered.
    method AbsorbFrom(ghost before: seq<byte>, data: seq<byte>, from: nat)
      requires buf.Length == 4 && input.Length == 64 && from <= |data|
      requires |before + data[..from]| % 64 == 0 && Value() == Absorb(before + data[..from])
      modifies buf, input
      ensures Value() == Absorb(Blocks(before + data))
      ensures input[..|before + data| % 64] == Tail(before + data)
    {
      hide Absorb, Words, Compress, Blocks, Tail, BitCount, Pair;
      var pos := from;
      ghost var done, k := before + data[..from], |before + data[..from]| / 64;
      Chunk(before, data, 0, from);
      assert data[0..from] == data[..from] && data[0..] == data;
      while |data| - pos >= 64
        invariant pos <= |data| && done + data[pos..] == before + data
        invariant |done| == 64 * k && Value() == Absorb(done)
      {
        AbsorbAt(done, data, pos);
        Chunk(done, data, pos, pos + 64);
        done, k := done + data[pos..pos + 64], k + 1;
        pos := pos + 64;
      }
      Copy(0, data, pos, |data| - pos);
      assert data[pos..|data|] == data[pos..];
      SplitBlocks(done, data[pos..]);
    }

    // The middle lines of MD5Update: data fits into the buffer, which still does not fill up.
    method Buffer(ghost before: seq<byte>, data: seq<byte>, t: nat)
      requires buf.Length == 4 && input.Length == 64
      requires t == |before| % 64 && t + |data| < 64
      requires Value() == Absorb(Blocks(before)) && input[..t] == Tail(before)
      modifies input
      ensures Value() == Absorb(Blocks(before + data))
      ensures input[..|before + data| % 64] == Tail(before + data)
    {
      hide Absorb, Words, Compress, Blocks, Tail, BitCount, Pair;
      Copy(t, data, 0, |data|);
      Split(before);
      assert before + data == Blocks(before) + (Tail(before) + data);
      SplitBlocks(Blocks(before), Tail(before) + data);
    }

    // The middle lines of MD5Update: data completes the buffered block.
    method Fill(ghost before: seq<byte>, data: seq<byte>, t: nat)
      requires buf.Length == 4 && input.Length == 64
      requires t == |before| % 64 && t + |data| >= 64
      requires Value() == Absorb(Blocks(before)) && input[..t] == Tail(before)
      modifies buf, input
      ensures |before + data[..64 - t]| % 64 == 0 && Value() == Absorb(before + data[..64 - t])
    {
      hide Absorb, Words, Compress, Blocks, Tail, BitCount, Pair;
      Copy(t, data, 0, 64 - t);
      Split(before);
      TransformInput(Blocks(before));
      assert Blocks(before) + input[..] == before + data[..64 - t];
    }

    // MD5Update: data is appended to the message.
    method Update(data: seq<byte>)
      requires Valid() && |data| < 0x1_0000_0000
      modifies this, buf, bits, input
      ensures Valid() && message == old(message) + data
    {
      hide Absorb, Words, Compress, Blocks, Tail, BitCount, Pair;
      BufferedCount(bits[0], bits[1], |message|);
      var t := bits[0] / 8 % 64;
      Count(|data|, |message|);
      ghost var before := message;
      message := message + data;
      if t != 0 {
        var free := 64 - t;
        if |data| < free {
          Buffer(before, data, t);
          return;
        }
        Fill(before, data, t);
        AbsorbFrom(before, data, free);
      } else {
        Split(before);
        assert Blocks(before) == before == before + data[..0];
        AbsorbFrom(before, data, 0);
      }
    }

    // The memset calls of MD5Final.
    method Clear(at: nat, n: nat)
      requires input.Length == 64 && at + n <= 64
      modifies input
      ensures input[..at + n] == old(input[..at]) + Zeros(n)
    {
      forall i | 0 <= i < n {
        input[at + i] := 0;
      }
    }

    // The part of MD5Final that pads: what is buffered at its end is the last block up to its count.
    method Pad(t: nat) returns (ghost p: seq<byte>)
      requires buf.Length == 4 && input.Length == 64 && t == |message| % 64
      requires Value() == Absorb(Blocks(message)) && input[..t] == Tail(message)
      modifies buf, input
      ensures Value() == Absorb(p)
      ensures Padded(message) == p + (input[..56] + LittleEndian(BitCount(|message|), 8))
    {
      hide Absorb, Words, Compress, Blocks, Tail, LittleEndian, Padded, BitCount, Pair;
      input[t] := 0x80;
      assert input[..t + 1] == Tail(message) + [0x80];
      var count := 64 - 1 - t;
      p := Blocks(message);
      if count < 8 {
        PaddedLong(message);
        Clear(t + 1, count);
        assert input[..] == input[..64];
        TransformInput(p);
        p := p + input[..];
        Clear(0, 56);
      } else {
        PaddedShort(message);
        Clear(t + 1, count - 8);
      }
    }

    // MD5Final. Its last line clears the first eight bytes of the context only: the other half of the
    // digest, the count and the last block of the padded message stay, so the context is never wiped,
    // and its registers are exactly when the second half of the digest is zero.
    method Final() returns (digest: seq<byte>)
      requires Valid()
      modifies buf, input
      ensures digest == Digest(message)
      ensures buf[0] == buf[1] == 0 && LittleEndian(buf[2], 4) + LittleEndian(buf[3], 4) == digest[8..]
      ensures input[..] == LastBlock(message) && input[..] != Zeros(64)
      ensures buf[..] == [0, 0, 0, 0] <==> digest[8..] == Zeros(8)
    {
      hide Absorb, Words, Compress, Blocks, Tail, LittleEndian, Padded, BitCount, Pair, Zeros, LastBlock;
      BufferedCount(bits[0], bits[1], |message|);
      var t := bits[0] / 8 % 64;
      ghost var p := Pad(t);
      CountBytes(bits[0], bits[1]);
      Copy(56, LittleEndian(bits[0], 4), 0, 4);
      Copy(60, LittleEndian(bits[1], 4), 0, 4);
      TransformInput(p);
      BlockIsLast(message, p, input[..]);
      LastBlockIsNotZero(message);
      digest := LittleEndian(buf[0], 4) + LittleEndian(buf[1], 4) + LittleEndian(buf[2], 4) + LittleEndian(buf[3], 4);
      HalfIsZero(buf[2], buf[3]);
      buf[0], buf[1] := 0, 0;
    }
  }

  function Joined(chunks: seq<seq<byte>>): seq<byte> {
    if chunks == [] then [] else chunks[0] + Joined(chunks[1..])
  }

  lemma JoinedPrefix(chunks: seq<seq<byte>>, i: nat)
    requires i < |chunks|
    ensures Joined(chunks[..i + 1]) == Joined(chunks[..i]) + chunks[i]
  {
    if i == 0 {
      assert chunks[..1][1..] == [];
    } else {
      JoinedPrefix(chunks[1..], i - 1);
      assert chunks[..i + 1][1..] == chunks[1..][..i];
      assert chunks[..i][1..] == chunks[1..][..i - 1];
    }
  }

  // Any client: however the message is cut into chunks, the digest is the one-shot digest.
  method DigestOfChunks(chunks: seq<seq<byte>>) returns (digest: seq<byte>)
    requires forall i :: 0 <= i < |chunks| ==> |chunks[i]| < 0x1_0000_0000
    ensures digest == Digest(Joined(chunks))
  {
    hide Absorb, Padded;
    var context := new Context();
    for i := 0 to |chunks|
      invariant context.Valid() && context.message == Joined(chunks[..i])
      invariant fresh(context) && fresh(context.buf) && fresh(context.bits) && fresh(context.input)
    {
      JoinedPrefix(chunks, i);
      context.Update(chunks[i]);
    }
    assert chunks[..|chunks|] == chunks;
    digest := context.Final();
  }

  function HexText(b: seq<byte>): string {
    if b == [] then "" else HexPair(b[0]) + HexText(b[1..])
  }

  lemma HexTextAppend(b: seq<byte>, x: byte)
    ensures HexText(b + [x]) == HexText(b) + HexPair(x)
  {
    hide HexPair;
    if b == [] {
      assert b + [x] == [x];
    } else {
      HexTextAppend(b[1..], x);
      assert (b + [x])[1..] == b[1..] + [x];
    }
  }

  // The printing loop of encoder_md5::encode.
  method Print(signature: seq<byte>) returns (text: string)
    ensures text == HexText(signature)
  {
    hide HexPair;
    text := "";
    for i := 0 to |signature|
      invariant text == HexText(signature[..i])
    {
      HexTextAppend(signature[..i], signature[i]);
      assert signature[..i + 1] == signature[..i] + [signature[i]];
      text := text + HexPair(signature[i]);
    }
    assert signature[..|signature|] == signature;
  }

  // encoder_md5::encode: the rest of the stream is read 4096 bytes at a time.
  method Encode(input: InputStream<byte>) returns (text: string)
    requires input.Valid()
    modifies input
    ensures text == HexText(Digest(input.data[old(input.pos)..]))
  {
    hide Absorb, Padded, HexText, Blocks, Tail, BitCount, Pair;
    var context := new Context();
    while !input.eof
      invariant input.Valid() && old(input.pos) <= input.pos
      invariant context.Valid() && context.message == input.data[old(input.pos)..input.pos]
      invariant fresh(context) && fresh(context.buf) && fresh(context.bits) && fresh(context.input)
      decreases !input.eof, |input.data| - input.pos
    {
      ghost var before := input.pos;
      var buffer := input.Read(4096);
      assert input.data[old(input.pos)..before] + input.data[before..input.pos] == input.data[old(input.pos)..input.pos];
      context.Update(buffer);
    }
    assert input.data[old(input.pos)..input.pos] == input.data[old(input.pos)..];
    var signature := context.Final();
    text := Print(signature);
  }
}
