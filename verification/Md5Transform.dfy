/** MD5Transform of src/dcl/encoder_md5.cpp: 64 unrolled steps whose registers are renamed from one
    step to the next, proved equal to the table-driven rounds of section 3.4 of RFC 1321. */
module Md5Transform {
  import opened Md5Spec

  // The four core functions as the code writes them: F1 is optimised, F2 reuses F1.
  function F1(x: uint32, y: uint32, z: uint32): uint32 {
    Unsigned(Bits(z) ^ (Bits(x) & (Bits(y) ^ Bits(z))))
  }

  function F2(x: uint32, y: uint32, z: uint32): uint32 { F1(z, x, y) }

  function F3(x: uint32, y: uint32, z: uint32): uint32 {
    Unsigned(Bits(x) ^ Bits(y) ^ Bits(z))
  }

  function F4(x: uint32, y: uint32, z: uint32): uint32 {
    Unsigned(Bits(y) ^ (Bits(x) | !Bits(z)))
  }

  // The macro MD5STEP, given the value v of its core function; the result is the new w.
  function Step(w: uint32, x: uint32, v: uint32, data: uint32, s: nat): uint32
    requires 0 < s < 32
  {
    Add(RotateLeft(Add(w, Add(v, data)), s), x)
  }

  function Step1(w: uint32, x: uint32, y: uint32, z: uint32, data: uint32, s: nat): uint32
    requires 0 < s < 32
  {
    Step(w, x, F1(x, y, z), data, s)
  }

  function Step2(w: uint32, x: uint32, y: uint32, z: uint32, data: uint32, s: nat): uint32
    requires 0 < s < 32
  {
    Step(w, x, F2(x, y, z), data, s)
  }

  function Step3(w: uint32, x: uint32, y: uint32, z: uint32, data: uint32, s: nat): uint32
    requires 0 < s < 32
  {
    Step(w, x, F3(x, y, z), data, s)
  }

  function Step4(w: uint32, x: uint32, y: uint32, z: uint32, data: uint32, s: nat): uint32
    requires 0 < s < 32
  {
    Step(w, x, F4(x, y, z), data, s)
  }

  // The core function of step i.
  function Core(i: nat, x: uint32, y: uint32, z: uint32): uint32 {
    if i < 16 then F1(x, y, z) else if i < 32 then F2(x, y, z) else if i < 48 then F3(x, y, z) else F4(x, y, z)
  }

  // Step i on registers (w, x, y, z), with the word, constant and distance of operation i.
  function StepAt(i: nat, w: uint32, x: uint32, y: uint32, z: uint32, m: seq<uint32>): uint32
    requires |m| == 16 && i < 64
  {
    Step(w, x, Core(i, x, y, z), Add(m[WordIndex(i)], T(i)), Shift(i))
  }

  lemma Selection(x: bv32, y: bv32, z: bv32)
    ensures z ^ (x & (y ^ z)) == (x & y) | (!x & z)
  {}

  // The optimised F1 is the F of RFC 1321.
  lemma OptimisedF1(x: uint32, y: uint32, z: uint32)
    ensures F1(x, y, z) == F(x, y, z)
  {
    Selection(Bits(x), Bits(y), Bits(z));
  }

  // F1 with its arguments permuted is the G of RFC 1321.
  lemma OptimisedF2(x: uint32, y: uint32, z: uint32)
    ensures F2(x, y, z) == G(x, y, z)
  {
    Selection(Bits(z), Bits(x), Bits(y));
  }

  lemma CoreIsAuxiliary(i: nat, x: uint32, y: uint32, z: uint32)
    ensures Core(i, x, y, z) == Auxiliary(i, x, y, z)
  {
    if i < 16 {
      OptimisedF1(x, y, z);
    } else if i < 32 {
      OptimisedF2(x, y, z);
    }
  }

  lemma AddAssociates(x: uint32, y: uint32, z: uint32)
    ensures Add(Add(x, y), z) == Add(x, Add(y, z))
  {
    WrapOnce(x + y, z);
    WrapOnce(y + z, x);
    hide Wrap;
  }

  lemma WrapOnce(s: nat, z: nat)
    ensures Wrap(Wrap(s) + z) == Wrap(s + z)
  {}

  lemma AddCommutes(x: uint32, y: uint32)
    ensures Add(x, y) == Add(y, x)
  {}

  // One step of the code is one operation of RFC 1321, whose sums are taken in another order.
  lemma StepIsOperation(i: nat, r: Registers, x: seq<uint32>)
    requires |x| == 16 && i < 64
    ensures Operation(i, r, x) == Registers(r.d, StepAt(i, r.a, r.b, r.c, r.d, x), r.b, r.c)
  {
    hide Add, RotateLeft, Core, Auxiliary, Shift, WordIndex;
    var v, m := Auxiliary(i, r.b, r.c, r.d), x[WordIndex(i)];
    CoreIsAuxiliary(i, r.b, r.c, r.d);
    AddAssociates(r.a, v, Add(m, T(i)));
    AddAssociates(Add(r.a, v), m, T(i));
    AddCommutes(r.b, RotateLeft(Add(Add(Add(r.a, v), m), T(i)), Shift(i)));
  }

  // After four steps every register is back under its own name.
  lemma FourSteps(i: nat, r: Registers, x: seq<uint32>)
    requires |x| == 16 && i + 4 <= 64
    ensures
      var s := Operations(i, r, x);
      var a := StepAt(i, s.a, s.b, s.c, s.d, x);
      var d := StepAt(i + 1, s.d, a, s.b, s.c, x);
      var c := StepAt(i + 2, s.c, d, a, s.b, x);
      var b := StepAt(i + 3, s.b, c, d, a, x);
      Operations(i + 4, r, x) == Registers(a, b, c, d)
  {
    hide StepAt, Operation;
    StepIsOperation(i, Operations(i, r, x), x);
    StepIsOperation(i + 1, Operations(i + 1, r, x), x);
    StepIsOperation(i + 2, Operations(i + 2, r, x), x);
    StepIsOperation(i + 3, Operations(i + 3, r, x), x);
  }

  // Lines 177-192.
  method Round1(ghost r: Registers, x: seq<uint32>, a0: uint32, b0: uint32, c0: uint32, d0: uint32)
    returns (a: uint32, b: uint32, c: uint32, d: uint32)
    requires |x| == 16 && Registers(a0, b0, c0, d0) == Operations(0, r, x)
    ensures Registers(a, b, c, d) == Operations(16, r, x)
  {
    hide Add, RotateLeft, Step, F1, F2, F3, F4, Operations;
    a, b, c, d := a0, b0, c0, d0;
    FourSteps(0, r, x);
    a := Step1(a, b, c, d, Add(x[0], 0xd76aa478), 7);
    d := Step1(d, a, b, c, Add(x[1], 0xe8c7b756), 12);
    c := Step1(c, d, a, b, Add(x[2], 0x242070db), 17);
    b := Step1(b, c, d, a, Add(x[3], 0xc1bdceee), 22);
    assert Registers(a, b, c, d) == Operations(4, r, x);
    FourSteps(4, r, x);
    a := Step1(a, b, c, d, Add(x[4], 0xf57c0faf), 7);
    d := Step1(d, a, b, c, Add(x[5], 0x4787c62a), 12);
    c := Step1(c, d, a, b, Add(x[6], 0xa8304613), 17);
    b := Step1(b, c, d, a, Add(x[7], 0xfd469501), 22);
    assert Registers(a, b, c, d) == Operations(8, r, x);
    FourSteps(8, r, x);
    a := Step1(a, b, c, d, Add(x[8], 0x698098d8), 7);
    d := Step1(d, a, b, c, Add(x[9], 0x8b44f7af), 12);
    c := Step1(c, d, a, b, Add(x[10], 0xffff5bb1), 17);
    b := Step1(b, c, d, a, Add(x[11], 0x895cd7be), 22);
    assert Registers(a, b, c, d) == Operations(12, r, x);
    FourSteps(12, r, x);
    a := Step1(a, b, c, d, Add(x[12], 0x6b901122), 7);
    d := Step1(d, a, b, c, Add(x[13], 0xfd987193), 12);
    c := Step1(c, d, a, b, Add(x[14], 0xa679438e), 17);
    b := Step1(b, c, d, a, Add(x[15], 0x49b40821), 22);
  }

  // Lines 193-208.
  method Round2(ghost r: Registers, x: seq<uint32>, a0: uint32, b0: uint32, c0: uint32, d0: uint32)
    returns (a: uint32, b: uint32, c: uint32, d: uint32)
    requires |x| == 16 && Registers(a0, b0, c0, d0) == Operations(16, r, x)
    ensures Registers(a, b, c, d) == Operations(32, r, x)
  {
    hide Add, RotateLeft, Step, F1, F2, F3, F4, Operations;
    a, b, c, d := a0, b0, c0, d0;
    FourSteps(16, r, x);
    a := Step2(a, b, c, d, Add(x[1], 0xf61e2562), 5);
    d := Step2(d, a, b, c, Add(x[6], 0xc040b340), 9);
    c := Step2(c, d, a, b, Add(x[11], 0x265e5a51), 14);
    b := Step2(b, c, d, a, Add(x[0], 0xe9b6c7aa), 20);
    assert Registers(a, b, c, d) == Operations(20, r, x);
    FourSteps(20, r, x);
    a := Step2(a, b, c, d, Add(x[5], 0xd62f105d), 5);
    d := Step2(d, a, b, c, Add(x[10], 0x02441453), 9);
    c := Step2(c, d, a, b, Add(x[15], 0xd8a1e681), 14);
    b := Step2(b, c, d, a, Add(x[4], 0xe7d3fbc8), 20);
    assert Registers(a, b, c, d) == Operations(24, r, x);
    FourSteps(24, r, x);
    a := Step2(a, b, c, d, Add(x[9], 0x21e1cde6), 5);
    d := Step2(d, a, b, c, Add(x[14], 0xc33707d6), 9);
    c := Step2(c, d, a, b, Add(x[3], 0xf4d50d87), 14);
    b := Step2(b, c, d, a, Add(x[8], 0x455a14ed), 20);
    assert Registers(a, b, c, d) == Operations(28, r, x);
    FourSteps(28, r, x);
    a := Step2(a, b, c, d, Add(x[13], 0xa9e3e905), 5);
    d := Step2(d, a, b, c, Add(x[2], 0xfcefa3f8), 9);
    c := Step2(c, d, a, b, Add(x[7], 0x676f02d9), 14);
    b := Step2(b, c, d, a, Add(x[12], 0x8d2a4c8a), 20);
  }

  // Lines 209-224.
  method Round3(ghost r: Registers, x: seq<uint32>, a0: uint32, b0: uint32, c0: uint32, d0: uint32)
    returns (a: uint32, b: uint32, c: uint32, d: uint32)
    requires |x| == 16 && Registers(a0, b0, c0, d0) == Operations(32, r, x)
    ensures Registers(a, b, c, d) == Operations(48, r, x)
  {
    hide Add, RotateLeft, Step, F1, F2, F3, F4, Operations;
    a, b, c, d := a0, b0, c0, d0;
    FourSteps(32, r, x);
    a := Step3(a, b, c, d, Add(x[5], 0xfffa3942), 4);
    d := Step3(d, a, b, c, Add(x[8], 0x8771f681), 11);
    c := Step3(c, d, a, b, Add(x[11], 0x6d9d6122), 16);
    b := Step3(b, c, d, a, Add(x[14], 0xfde5380c), 23);
    assert Registers(a, b, c, d) == Operations(36, r, x);
    FourSteps(36, r, x);
    a := Step3(a, b, c, d, Add(x[1], 0xa4beea44), 4);
    d := Step3(d, a, b, c, Add(x[4], 0x4bdecfa9), 11);
    c := Step3(c, d, a, b, Add(x[7], 0xf6bb4b60), 16);
    b := Step3(b, c, d, a, Add(x[10], 0xbebfbc70), 23);
    assert Registers(a, b, c, d) == Operations(40, r, x);
    FourSteps(40, r, x);
    a := Step3(a, b, c, d, Add(x[13], 0x289b7ec6), 4);
    d := Step3(d, a, b, c, Add(x[0], 0xeaa127fa), 11);
    c := Step3(c, d, a, b, Add(x[3], 0xd4ef3085), 16);
    b := Step3(b, c, d, a, Add(x[6], 0x04881d05), 23);
    assert Registers(a, b, c, d) == Operations(44, r, x);
    FourSteps(44, r, x);
    a := Step3(a, b, c, d, Add(x[9], 0xd9d4d039), 4);
    d := Step3(d, a, b, c, Add(x[12], 0xe6db99e5), 11);
    c := Step3(c, d, a, b, Add(x[15], 0x1fa27cf8), 16);
    b := Step3(b, c, d, a, Add(x[2], 0xc4ac5665), 23);
  }

  // Lines 225-240.
  method Round4(ghost r: Registers, x: seq<uint32>, a0: uint32, b0: uint32, c0: uint32, d0: uint32)
    returns (a: uint32, b: uint32, c: uint32, d: uint32)
    requires |x| == 16 && Registers(a0, b0, c0, d0) == Operations(48, r, x)
    ensures Registers(a, b, c, d) == Operations(64, r, x)
  {
    hide Add, RotateLeft, Step, F1, F2, F3, F4, Operations;
    a, b, c, d := a0, b0, c0, d0;
    FourSteps(48, r, x);
    a := Step4(a, b, c, d, Add(x[0], 0xf4292244), 6);
    d := Step4(d, a, b, c, Add(x[7], 0x432aff97), 10);
    c := Step4(c, d, a, b, Add(x[14], 0xab9423a7), 15);
    b := Step4(b, c, d, a, Add(x[5], 0xfc93a039), 21);
    assert Registers(a, b, c, d) == Operations(52, r, x);
    FourSteps(52, r, x);
    a := Step4(a, b, c, d, Add(x[12], 0x655b59c3), 6);
    d := Step4(d, a, b, c, Add(x[3], 0x8f0ccc92), 10);
    c := Step4(c, d, a, b, Add(x[10], 0xffeff47d), 15);
    b := Step4(b, c, d, a, Add(x[1], 0x85845dd1), 21);
    assert Registers(a, b, c, d) == Operations(56, r, x);
    FourSteps(56, r, x);
    a := Step4(a, b, c, d, Add(x[8], 0x6fa87e4f), 6);
    d := Step4(d, a, b, c, Add(x[15], 0xfe2ce6e0), 10);
    c := Step4(c, d, a, b, Add(x[6], 0xa3014314), 15);
    b := Step4(b, c, d, a, Add(x[13], 0x4e0811a1), 21);
    assert Registers(a, b, c, d) == Operations(60, r, x);
    FourSteps(60, r, x);
    a := Step4(a, b, c, d, Add(x[4], 0xf7537e82), 6);
    d := Step4(d, a, b, c, Add(x[11], 0xbd3af235), 10);
    c := Step4(c, d, a, b, Add(x[2], 0x2ad7d2bb), 15);
    b := Step4(b, c, d, a, Add(x[9], 0xeb86d391), 21);
  }

  // The body of MD5Transform: four unrolled rounds, then the sums into the context's registers.
  method Transform(buf: array<uint32>, x: seq<uint32>)
    requires buf.Length == 4 && |x| == 16
    modifies buf
    ensures var s := Compress(old(Registers(buf[0], buf[1], buf[2], buf[3])), x);
            buf[..] == [s.a, s.b, s.c, s.d]
  {
    hide Add, Operations;
    ghost var r := Registers(buf[0], buf[1], buf[2], buf[3]);
    assert Operations(0, r, x) == r by { NoOperations(r, x); }
    var a, b, c, d := Round1(r, x, buf[0], buf[1], buf[2], buf[3]);
    a, b, c, d := Round2(r, x, a, b, c, d);
    a, b, c, d := Round3(r, x, a, b, c, d);
    a, b, c, d := Round4(r, x, a, b, c, d);
    buf[0] := Add(buf[0], a);
    buf[1] := Add(buf[1], b);
    buf[2] := Add(buf[2], c);
    buf[3] := Add(buf[3], d);
  }

  lemma NoOperations(r: Registers, x: seq<uint32>)
    requires |x| == 16
    ensures Operations(0, r, x) == r
  {}
}
