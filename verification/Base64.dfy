/** src/dcl/codec_base64.cpp: the block helpers over small arrays and the two stream loops. Shifts and
    masks of bytes are written as the divisions and remainders they are. */
module Base64 {
  import opened Base64Spec
  import opened Octets
  import opened Options
  import opened Streams

  // The translation tables.
  const CB64 := "ABCDEFGHIJKLMNOPQRSTUVWXYZ" + "abcdefghijklmnopqrstuvwxyz" + "0123456789" + "+/"
  const CD64 := "|$$$}" + "rstuvwxyz{" + "$$$$$$$" + ">?@ABCDEFGHIJKLMNOPQRSTUVW" + "$$$$$$" + "XYZ[\\]^_`abcdefghijklmnopq"

  // x | y for bytes.
  function Or(x: nat, y: nat): nat {
    if x == 0 && y == 0 then 0
    else (if x % 2 == 1 || y % 2 == 1 then 1 else 0) + 2 * Or(x / 2, y / 2)
  }

  function Power2(k: nat): (p: nat)
    ensures p > 0
  {
    if k == 0 then 1 else 2 * Power2(k - 1)
  }

  // Fields that share no bit are joined by addition.
  lemma {:induction false} OrDisjoint(x: nat, y: nat, k: nat)
    requires y < Power2(k)
    ensures Or(x * Power2(k), y) == x * Power2(k) + y
  {
    if k == 0 {
      OrZero(x);
    } else {
      var p := x * Power2(k - 1);
      assert x * Power2(k) == 2 * p;
      OrDisjoint(x, y / 2, k - 1);
    }
  }

  lemma {:induction false} OrZero(x: nat)
    ensures Or(x, 0) == x
  {
    if x > 0 {
      OrZero(x / 2);
    }
  }

  lemma EncodingTable(v: sextet)
    ensures |CB64| == 64 && CB64[v] == Symbol(v)
  {}

  // The table entry of a character: '$' for a foreign one, the value plus 62 for the others.
  function Entry(c: char): char
    requires '+' <= c <= 'z'
  {
    match ValueOf(c) case Some(v) => (v + 62) as char case None => '$'
  }

  lemma DecodingTableUpper(c: char)
    requires 'A' <= c <= 'Z'
    ensures |CD64| == 80 && CD64[c as int - 43] == Entry(c)
  {}

  lemma DecodingTableLower(c: char)
    requires 'a' <= c <= 'z'
    ensures |CD64| == 80 && CD64[c as int - 43] == Entry(c)
  {}

  lemma DecodingTableDigits(c: char)
    requires '+' <= c <= '9'
    ensures |CD64| == 80 && CD64[c as int - 43] == Entry(c)
  {}

  lemma DecodingTableOthers(c: char)
    requires '9' < c < 'A' || 'Z' < c < 'a'
    ensures |CD64| == 80 && CD64[c as int - 43] == Entry(c)
  {}

  lemma DecodingTable(c: char)
    requires '+' <= c <= 'z'
    ensures |CD64| == 80 && CD64[c as int - 43] == Entry(c)
  {
    hide Entry;
    if 'A' <= c <= 'Z' {
      DecodingTableUpper(c);
    } else if 'a' <= c {
      DecodingTableLower(c);
    } else if c <= '9' {
      DecodingTableDigits(c);
    } else {
      DecodingTableOthers(c);
    }
  }

  method EncodeBlock(input: array<byte>, output: array<char>, len: nat)
    requires input.Length == 3 && output.Length == 4 && 1 <= len <= 3
    requires forall i :: len <= i < 3 ==> input[i] == 0
    modifies output
    ensures output[..] == Encoding(input[..len])
  {
    var a: nat, b: nat, c: nat := input[0], input[1], input[2];
    EncodedSextets(a, b, c);
    EncodingTable(Sextet(a, b, c, 0));
    EncodingTable(Sextet(a, b, c, 1));
    EncodingTable(Sextet(a, b, c, 2));
    EncodingTable(Sextet(a, b, c, 3));
    hide Sextet, Or, Symbol;
    output[0] := CB64[a / 4];
    output[1] := CB64[Or(a % 4 * 16, b / 16)];
    output[2] := if len > 1 then CB64[Or(b % 16 * 4, c / 64)] else '=';
    output[3] := if len > 2 then CB64[c % 64] else '=';
  }

  lemma SextetFields(a: byte, b: byte, c: byte)
    ensures Sextet(a, b, c, 0) == a / 4
    ensures Sextet(a, b, c, 1) == a % 4 * 16 + b / 16
  {
    var group: int := a * 0x1_0000 + b * 0x100 + c;
    Quotient4096(group, a * 16 + b / 16, b % 16 * 0x100 + c);
    Quotient64(a * 16 + b / 16, a / 4, a % 4 * 16 + b / 16);
    Quotient262144(group, a / 4, a % 4 * 0x1_0000 + b * 0x100 + c);
  }

  lemma Quotient4096(x: nat, q: nat, r: nat)
    requires x == 0x1000 * q + r && r < 0x1000
    ensures x / 0x1000 == q
  {}

  lemma Quotient262144(x: nat, q: nat, r: nat)
    requires x == 0x4_0000 * q + r && r < 0x4_0000
    ensures x / 0x4_0000 == q
  {}

  lemma SextetFieldsEnd(a: byte, b: byte, c: byte)
    ensures Sextet(a, b, c, 2) == b % 16 * 4 + c / 64
    ensures Sextet(a, b, c, 3) == c % 64
  {
    var group: int := a * 0x1_0000 + b * 0x100 + c;
    Quotient64(group, a * 0x400 + b * 4 + c / 64, c % 64);
    Quotient64(a * 0x400 + b * 4 + c / 64, a * 16 + b / 16, b % 16 * 4 + c / 64);
  }

  lemma Quotient64(x: nat, q: nat, r: nat)
    requires x == 64 * q + r && r < 64
    ensures x / 64 == q && x % 64 == r
  {}

  // The masks and shifts of encodeblock cut out the sextets.
  lemma EncodedSextets(a: byte, b: byte, c: byte)
    ensures a / 4 == Sextet(a, b, c, 0)
    ensures Or(a % 4 * 16, b / 16) == Sextet(a, b, c, 1)
    ensures Or(b % 16 * 4, c / 64) == Sextet(a, b, c, 2)
    ensures c % 64 == Sextet(a, b, c, 3)
  {
    Powers();
    OrDisjoint(a % 4, b / 16, 4);
    OrDisjoint(b % 16, c / 64, 2);
    hide Or, Power2, Sextet;
    SextetFields(a, b, c);
    SextetFieldsEnd(a, b, c);
  }

  lemma Powers()
    ensures Power2(2) == 4 && Power2(4) == 16 && Power2(6) == 64
  {}

  predicate Small(v: seq<byte>) {
    forall i :: 0 <= i < |v| ==> v[i] < 64
  }

  // Values above 63 in the last places are stale; they only reach bytes that are not put out.
  method DecodeBlock(input: array<byte>, output: array<byte>, ghost len: nat)
    requires input.Length == 4 && output.Length == 3
    requires 1 <= len <= 4 && Small(input[..len])
    modifies output
    ensures output[..len - 1] == Bytes(input[..len])
  {
    var p: nat, q: nat, r: nat, s: nat := input[0], input[1], input[2], input[3];
    DecodedPrefix(input[..len], p, q, r, s);
    hide Or, Bytes;
    output[0] := Or(p * 4, q / 16) % 256;
    output[1] := Or(q * 16, r / 4) % 256;
    output[2] := Or(r * 64 % 256, s) % 256;
    assert output[..] == [output[0], output[1], output[2]];
  }

  lemma DecodedPrefix(v: seq<sextet>, p: byte, q: byte, r: byte, s: byte)
    requires 1 <= |v| <= 4 && v == [p, q, r, s][..|v|]
    ensures Bytes(v) == [Or(p * 4, q / 16) % 256, Or(q * 16, r / 4) % 256, Or(r * 64 % 256, s) % 256][..|v| - 1]
  {
    hide Or, Byte;
    DecodedBytes(p, q, r, s);
    if |v| >= 2 {
      assert v[0] == p && v[1] == q;
      ByteFields(p, q, 0, 0);
      if |v| >= 3 {
        assert v[2] == r;
        ByteFields(p, q, r, 0);
        if |v| == 4 {
          assert v[3] == s;
          ByteFields(p, q, r, s);
        }
      }
    }
  }

  lemma ByteFields(p: nat, q: nat, r: nat, s: nat)
    requires p < 64 && q < 64 && r < 64 && s < 64
    ensures Byte(p, q, r, s, 0) == p * 4 + q / 16
    ensures Byte(p, q, r, s, 1) == q % 16 * 16 + r / 4
    ensures Byte(p, q, r, s, 2) == r % 4 * 64 + s
  {
    var group := p * 0x4_0000 + q * 0x1000 + r * 64 + s;
    Remainder(group, p * 0x400 + q * 16 + r / 4, r % 4 * 64 + s);
    Remainder(p * 0x400 + q * 16 + r / 4, p * 4 + q / 16, q % 16 * 16 + r / 4);
  }

  lemma DecodedBytes(p: byte, q: byte, r: byte, s: byte)
    ensures p < 64 && q < 64 ==> Or(p * 4, q / 16) % 256 == Byte(p, q, 0, 0, 0)
    ensures p < 64 && q < 64 && r < 64 ==> Or(q * 16, r / 4) % 256 == Byte(p, q, r, 0, 1)
    ensures p < 64 && q < 64 && r < 64 && s < 64 ==> Or(r * 64 % 256, s) % 256 == Byte(p, q, r, s, 2)
  {
    Powers();
    hide Byte, Or, Power2;
    if p < 64 && q < 64 {
      OrDisjoint(p, q / 16, 2);
      ByteFields(p, q, 0, 0);
      if r < 64 {
        OrDisjoint(q, r / 4, 4);
        ByteFields(p, q, r, 0);
        Remainder(q * 16 + r / 4, q / 16, q % 16 * 16 + r / 4);
        if s < 64 {
          Remainder(r * 64, r / 4, r % 4 * 64);
          OrDisjoint(r % 4, s, 6);
          ByteFields(p, q, r, s);
        }
      }
    }
  }

  // The reading loop of encode: up to three bytes, the rest of the group cleared.
  method ReadGroup(input: InputStream<byte>, group: array<byte>) returns (len: nat)
    requires input.Valid() && !input.eof && group.Length == 3
    modifies input, group
    ensures input.Valid() && len <= 3 && input.pos == old(input.pos) + len
    ensures group[..len] == input.data[old(input.pos)..input.pos]
    ensures forall i :: len <= i < 3 ==> group[i] == 0
    ensures input.eof <==> len < 3
  {
    len := 0;
    for i := 0 to 3
      invariant input.Valid() && len <= i && input.pos == old(input.pos) + len
      invariant group[..len] == input.data[old(input.pos)..input.pos]
      invariant forall j :: len <= j < i ==> group[j] == 0
      invariant input.eof <==> len < i
    {
      ghost var before := group[..len];
      var c := input.Get(group[i]);
      group[i] := c;
      assert group[..len] == before;
      if !input.eof {
        assert group[..len + 1] == before + [c];
        OneMore(input.data, old(input.pos), input.pos - 1);
        len := len + 1;
      } else {
        group[i] := 0;
        assert group[..len] == before;
      }
    }
  }

  lemma OneMore(data: seq<byte>, p: nat, q: nat)
    requires p <= q < |data|
    ensures data[p..q + 1] == data[p..q] + [data[q]]
  {}

  lemma FullGroup(b: seq<byte>)
    requires |b| >= 3
    ensures Encoding(b) == Encoding(b[..3]) + Encoding(b[3..])
  {
    hide Symbol, Sextet, Group;
    var group := b[..3];
    assert group[3..] == [];
    NothingEncoded();
    assert Encoding(group) == Group(b[0], b[1], b[2]) + Encoding(group[3..]);
    assert Group(b[0], b[1], b[2]) + "" == Group(b[0], b[1], b[2]);
  }

  lemma EncodingUnfolds(b: seq<byte>, n: nat)
    requires n <= 3 && (n == 3 <= |b| || n == |b|)
    ensures Encoding(b) == Encoding(b[..n]) + Encoding(b[n..])
  {
    hide Encoding;
    if n == |b| {
      assert b[..n] == b && b[n..] == [];
      NothingEncoded();
    } else {
      FullGroup(b);
    }
  }

  // codec_base64::encode: the rest of the stream is encoded.
  method Encode(input: InputStream<byte>) returns (text: string)
    requires input.Valid()
    modifies input
    ensures text == Encoding(input.data[old(input.pos)..])
  {
    hide Encoding;
    NothingEncoded();
    var group, output := new byte[3], new char[4];
    text := "";
    while !input.eof
      invariant input.Valid() && fresh(group) && fresh(output)
      invariant text + Encoding(input.data[input.pos..]) == Encoding(input.data[old(input.pos)..])
      decreases !input.eof, |input.data| - input.pos
    {
      ghost var rest := input.data[input.pos..];
      var len := ReadGroup(input, group);
      assert rest[..len] == group[..len] && rest[len..] == input.data[input.pos..];
      EncodingUnfolds(rest, len);
      if len > 0 {
        EncodeBlock(group, output, len);
        text := text + output[..];
      }
    }
    assert input.data[input.pos..] == [];
  }

  lemma NothingEncoded()
    ensures Encoding([]) == ""
  {}

  // The two statements of decode that translate a character: zero if it is skipped.
  function Translate(c: char): nat {
    if c < '+' || c > 'z' then 0
    else
      DecodingTable(c);
      var v := CD64[c as int - 43];
      if v == '$' then 0 else assert v >= '='; v as int - 61
  }

  lemma TranslateIsValue(c: char)
    ensures Translate(c) == if ValueOf(c).Some? then ValueOf(c).value + 1 else 0
    ensures Translate(c) <= 64
  {
    if '+' <= c <= 'z' {
      DecodingTable(c);
    }
  }

  lemma ValuesUnfold(s: string)
    requires s != ""
    ensures Values(s) == (if Translate(s[0]) == 0 then [] else [Translate(s[0]) - 1]) + Values(s[1..])
  {
    hide Translate, ValueOf;
    TranslateIsValue(s[0]);
  }

  // The innermost loop of decode: the table entry of the next character of the alphabet, or zero
  // at the end of the stream.
  method NextValue(input: InputStream<char>) returns (v: nat)
    requires input.Valid() && !input.eof
    modifies input
    ensures input.Valid() && old(input.pos) <= input.pos
    ensures input.eof ==> v == 0 && Values(input.data[old(input.pos)..]) == []
    ensures !input.eof ==> 1 <= v <= 64 && input.pos > old(input.pos)
    ensures !input.eof ==> Values(input.data[old(input.pos)..]) == [v - 1] + Values(input.data[input.pos..])
  {
    hide Values, Translate;
    NoValues();
    TranslateIsValue(0 as char);
    v := 0;
    while !input.eof && v == 0
      invariant input.Valid() && v <= 64 && old(input.pos) <= input.pos
      invariant input.eof ==> v == 0
      invariant v > 0 ==> input.pos > old(input.pos)
      invariant Values(input.data[old(input.pos)..]) == (if v == 0 then [] else [v - 1]) + Values(input.data[input.pos..])
      decreases !input.eof, |input.data| - input.pos
    {
      ghost var rest := input.data[input.pos..];
      var c := input.Get(0 as char);
      v := Translate(c);
      if !input.eof {
        assert rest[0] == c && rest[1..] == input.data[input.pos..];
        ValuesUnfold(rest);
        TranslateIsValue(c);
      }
    }
    if input.eof {
      assert input.data[input.pos..] == [];
    }
  }

  // The middle loop of decode: up to four values. After the end of the stream only the next place
  // is cleared, the places after it keep what an earlier group left there.
  method ReadValues(input: InputStream<char>, group: array<byte>) returns (len: nat)
    requires input.Valid() && !input.eof && group.Length == 4
    modifies input, group
    ensures input.Valid() && len <= 4 && Small(group[..len]) && old(input.pos) + len <= input.pos
    ensures Values(input.data[old(input.pos)..]) == group[..len] + Values(input.data[input.pos..])
    ensures input.eof <==> len < 4
  {
    hide Values, ValueOf;
    len := 0;
    var i := 0;
    while i < 4 && !input.eof
      invariant input.Valid() && i <= 4 && len == (if input.eof then i - 1 else i)
      invariant old(input.pos) + len <= input.pos
      invariant Small(group[..len])
      invariant Values(input.data[old(input.pos)..]) == group[..len] + Values(input.data[input.pos..])
    {
      ghost var before := group[..len];
      var v := NextValue(input);
      if !input.eof {
        len := len + 1;
        if v != 0 {
          group[i] := v - 1;
        }
        assert group[..len] == before + [v - 1];
      } else {
        group[i] := 0;
        assert input.data[input.pos..] == [];
        NoValues();
      }
      i := i + 1;
    }
  }

  lemma BytesUnfold(v: seq<sextet>, n: nat)
    requires n <= 4 && (n == 4 <= |v| || n == |v|)
    ensures Bytes(v) == Bytes(v[..n]) + Bytes(v[n..])
  {
    hide Byte;
    assert v[..n][..n] == v[..n];
    if n == |v| {
      assert v[n..] == [];
    } else {
      assert v[..4][4..] == [];
    }
  }

  // out.put for the first n bytes of a block.
  method Put(before: seq<byte>, output: array<byte>, n: nat) returns (bytes: seq<byte>)
    requires n <= output.Length
    ensures bytes == before + output[..n]
  {
    bytes := before;
    for i := 0 to n
      invariant bytes == before + output[..i]
    {
      bytes := bytes + [output[i]];
    }
  }

  // codec_base64::decode: the rest of the stream is decoded, whatever the group holds at the start.
  method Decode(input: InputStream<char>) returns (bytes: seq<byte>)
    requires input.Valid()
    modifies input
    ensures bytes == Decoding(input.data[old(input.pos)..])
  {
    hide Values, Bytes, ValueOf;
    var group, output := new byte[4], new byte[3];
    bytes := [];
    NoValues();
    NoBytes();
    while !input.eof
      invariant input.Valid() && fresh(group) && fresh(output)
      invariant bytes + Decoding(input.data[input.pos..]) == Decoding(input.data[old(input.pos)..])
      decreases !input.eof, |input.data| - input.pos
    {
      ghost var values := Values(input.data[input.pos..]);
      var len := ReadValues(input, group);
      if input.eof {
        assert input.data[input.pos..] == [];
      }
      BytesUnfold(values, len);
      assert values[..len] == group[..len] && values[len..] == Values(input.data[input.pos..]);
      if len > 0 {
        DecodeBlock(group, output, len);
        bytes := Put(bytes, output, len - 1);
      }
    }
    assert input.data[input.pos..] == [];
  }

  lemma NoBytes()
    ensures Bytes([]) == []
  {}
}
