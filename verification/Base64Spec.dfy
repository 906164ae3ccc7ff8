/** The base 64 encoding of section 4 of RFC 4648, and decoding that skips every character outside
    the alphabet as section 6.8 of RFC 2045 asks: the reference for src/dcl/codec_base64.cpp. */
module Base64Spec {
  import opened Octets
  import opened Options
  import opened Sequences

  // A six-bit group.
  type sextet = x: int | 0 <= x < 64

  // Table 1 of RFC 4648.
  function Symbol(v: sextet): char {
    if v < 26 then 'A' + v as char
    else if v < 52 then 'a' + (v - 26) as char
    else if v < 62 then '0' + (v - 52) as char
    else if v == 62 then '+' else '/'
  }

  function ValueOf(c: char): Option<sextet> {
    if 'A' <= c <= 'Z' then Some(c as int - 'A' as int)
    else if 'a' <= c <= 'z' then Some(c as int - 'a' as int + 26)
    else if '0' <= c <= '9' then Some(c as int - '0' as int + 52)
    else if c == '+' then Some(62)
    else if c == '/' then Some(63)
    else None
  }

  // A group of three bytes is one 24-bit number, which is cut into four six-bit numbers.
  function Sextet(a: int, b: int, c: int, k: nat): sextet
    requires 0 <= a < 256 && 0 <= b < 256 && 0 <= c < 256 && k < 4
  {
    var group: int := a * 0x1_0000 + b * 0x100 + c;
    match k
    case 0 => group / 0x4_0000
    case 1 => group / 0x1000 % 64
    case 2 => group / 64 % 64
    case _ => group % 64
  }

  function Encoding(b: seq<byte>): string {
    if |b| == 0 then ""
    else if |b| == 1 then [Symbol(Sextet(b[0], 0, 0, 0)), Symbol(Sextet(b[0], 0, 0, 1)), '=', '=']
    else if |b| == 2 then
      [Symbol(Sextet(b[0], b[1], 0, 0)), Symbol(Sextet(b[0], b[1], 0, 1)), Symbol(Sextet(b[0], b[1], 0, 2)), '=']
    else
      Group(b[0], b[1], b[2]) + Encoding(b[3..])
  }

  function Group(a: byte, b: byte, c: byte): string {
    [Symbol(Sextet(a, b, c, 0)), Symbol(Sextet(a, b, c, 1)), Symbol(Sextet(a, b, c, 2)), Symbol(Sextet(a, b, c, 3))]
  }

  // The values of the alphabet characters of a text, in order.
  function Values(s: string): seq<sextet> {
    if s == "" then []
    else Value(s[0]) + Values(s[1..])
  }

  function Value(c: char): seq<sextet> {
    match ValueOf(c)
    case Some(v) => [v]
    case None => []
  }

  // A group of four sextets is one 24-bit number, which is cut into three bytes.
  function Byte(p: int, q: int, r: int, s: int, k: nat): byte
    requires 0 <= p < 64 && 0 <= q < 64 && 0 <= r < 64 && 0 <= s < 64 && k < 3
  {
    var group: int := p * 0x4_0000 + q * 0x1000 + r * 64 + s;
    match k
    case 0 => group / 0x1_0000
    case 1 => group / 0x100 % 256
    case _ => group % 256
  }

  // An incomplete last group of n sextets holds n - 1 bytes.
  function Bytes(v: seq<sextet>): seq<byte> {
    if |v| < 2 then []
    else if |v| == 2 then [Byte(v[0], v[1], 0, 0, 0)]
    else if |v| == 3 then [Byte(v[0], v[1], v[2], 0, 0), Byte(v[0], v[1], v[2], 0, 1)]
    else [Byte(v[0], v[1], v[2], v[3], 0), Byte(v[0], v[1], v[2], v[3], 1), Byte(v[0], v[1], v[2], v[3], 2)] + Bytes(v[4..])
  }

  function Decoding(s: string): seq<byte> {
    Bytes(Values(s))
  }

  lemma SymbolValue(v: sextet)
    ensures ValueOf(Symbol(v)) == Some(v)
  {}

  lemma SextetsOfGroup(group: nat)
    requires group < 0x100_0000
    ensures group / 0x4_0000 * 0x4_0000 + group / 0x1000 % 64 * 0x1000 + group / 64 % 64 * 64 + group % 64 == group
  {
    assert group / 64 / 64 == group / 0x1000 && group / 0x1000 / 64 == group / 0x4_0000;
  }

  lemma BytesOfGroup(p: nat, q: nat, r: nat, s: nat, a: byte, b: byte, c: byte)
    requires p < 64 && q < 64 && r < 64 && s < 64
    requires p * 0x4_0000 + q * 0x1000 + r * 64 + s == a * 0x1_0000 + b * 0x100 + c
    ensures Byte(p, q, r, s, 0) == a && Byte(p, q, r, s, 1) == b && Byte(p, q, r, s, 2) == c
  {
    BytesOfNumber(p * 0x4_0000 + q * 0x1000 + r * 64 + s, a, b, c);
  }

  lemma BytesOfNumber(n: nat, a: byte, b: byte, c: byte)
    requires n == a * 0x1_0000 + b * 0x100 + c
    ensures n / 0x1_0000 == a && n / 0x100 % 256 == b && n % 256 == c
  {
    Remainder(n, a * 0x100 + b, c);
    Remainder(a * 0x100 + b, a, b);
    assert n / 0x100 / 0x100 == n / 0x1_0000;
  }

  lemma Remainder(n: nat, q: nat, r: nat)
    requires n == 256 * q + r && r < 256
    ensures n / 256 == q && n % 256 == r
  {}

  // Cutting a group into sextets and putting it together again gives its bytes.
  lemma BytesOfSextets(a: byte, b: byte, c: byte)
    ensures
      var p, q, r, s := Sextet(a, b, c, 0), Sextet(a, b, c, 1), Sextet(a, b, c, 2), Sextet(a, b, c, 3);
      Byte(p, q, r, s, 0) == a && Byte(p, q, r, s, 1) == b && Byte(p, q, r, s, 2) == c
  {
    hide Byte;
    SextetsOfGroup(a * 0x1_0000 + b * 0x100 + c);
    BytesOfGroup(Sextet(a, b, c, 0), Sextet(a, b, c, 1), Sextet(a, b, c, 2), Sextet(a, b, c, 3), a, b, c);
  }

  lemma {:induction false} ValuesAppend(s: string, t: string)
    ensures Values(s + t) == Values(s) + Values(t)
  {
    hide Value;
    if s == "" {
      assert s + t == t;
    } else {
      ValuesAppend(s[1..], t);
      assert (s + t)[1..] == s[1..] + t;
      Associated(Value(s[0]), Values(s[1..]), Values(t));
    }
  }

  lemma ValuesOfSymbols(p: sextet, q: sextet, r: sextet, s: sextet)
    ensures Values([Symbol(p), Symbol(q), Symbol(r), Symbol(s)]) == [p, q, r, s]
    ensures Values([Symbol(p), Symbol(q), Symbol(r), '=']) == [p, q, r]
    ensures Values([Symbol(p), Symbol(q), '=', '=']) == [p, q]
  {
    hide Symbol;
    SymbolValue(p);
    SymbolValue(q);
    SymbolValue(r);
    SymbolValue(s);
    var a, b, c, d := Symbol(p), Symbol(q), Symbol(r), Symbol(s);
    assert [a, b, c, d] == [a] + ([b] + ([c] + [d])) && [a, b, c, '='] == [a] + ([b] + ([c] + ['=']));
    assert [a, b, '=', '='] == [a] + ([b] + (['='] + ['=']));
    ValuesAppend([a], [b] + ([c] + [d]));
    ValuesAppend([b], [c] + [d]);
    ValuesAppend([c], [d]);
    ValuesAppend([a], [b] + ([c] + ['=']));
    ValuesAppend([b], [c] + ['=']);
    ValuesAppend([c], ['=']);
    ValuesAppend([a], [b] + (['='] + ['=']));
    ValuesAppend([b], ['='] + ['=']);
    ValuesAppend(['='], ['=']);
  }

  // Decoding undoes encoding, for every byte string.
  lemma {:induction false} RoundTrip(b: seq<byte>)
    ensures Decoding(Encoding(b)) == b
  {
    hide Byte, Sextet, Symbol, ValueOf, Values;
    if |b| == 0 {
      NoValues();
    } else {
      var x, y, z := b[0], if |b| > 1 then b[1] else 0, if |b| > 2 then b[2] else 0;
      var p, q, r, s := Sextet(x, y, z, 0), Sextet(x, y, z, 1), Sextet(x, y, z, 2), Sextet(x, y, z, 3);
      ValuesOfSymbols(p, q, r, s);
      BytesOfSextets(x, y, z);
      ZeroSextets(x, y);
      if |b| > 2 {
        RoundTrip(b[3..]);
        ValuesAppend([Symbol(p), Symbol(q), Symbol(r), Symbol(s)], Encoding(b[3..]));
        assert b == [x, y, z] + b[3..];
        assert ([p, q, r, s] + Values(Encoding(b[3..])))[4..] == Values(Encoding(b[3..]));
      }
    }
  }

  lemma NoValues()
    ensures Values("") == []
  {}

  // The sextets that padding replaces are zero.
  lemma ZeroSextets(a: byte, b: byte)
    ensures Sextet(a, b, 0, 3) == 0 && Sextet(a, 0, 0, 2) == 0
  {}

  lemma {:induction false} EncodingLength(b: seq<byte>)
    ensures |Encoding(b)| == 4 * ((|b| + 2) / 3)
  {
    hide Sextet, Symbol;
    if |b| > 2 {
      EncodingLength(b[3..]);
    }
  }

  // The text without the characters that decoding skips.
  function AlphabetOnly(s: string): string {
    if s == "" then "" else (if ValueOf(s[0]).Some? then [s[0]] else "") + AlphabetOnly(s[1..])
  }

  lemma {:induction false} ValuesOfAlphabetOnly(s: string)
    ensures Values(AlphabetOnly(s)) == Values(s)
  {
    if s != "" {
      ValuesOfAlphabetOnly(s[1..]);
      ValuesAppend(if ValueOf(s[0]).Some? then [s[0]] else "", AlphabetOnly(s[1..]));
    }
  }

  // Line breaks, padding and every other foreign character make no difference.
  lemma ForeignCharactersIgnored(s: string)
    ensures Decoding(AlphabetOnly(s)) == Decoding(s)
  {
    ValuesOfAlphabetOnly(s);
  }

  // The alphabet of Table 1 of RFC 4648.
  lemma Alphabet(v: sextet)
    ensures v < 26 ==> Symbol(v) == "ABCDEFGHIJKLMNOPQRSTUVWXYZ"[v]
    ensures 26 <= v < 52 ==> Symbol(v) == "abcdefghijklmnopqrstuvwxyz"[v - 26]
    ensures 52 <= v ==> Symbol(v) == "0123456789+/"[v - 52]
  {}

  // Padding: one or two bytes too many are followed by two or one equals signs, and there are no others.
  lemma {:induction false} Padding(b: seq<byte>)
    ensures
      var t := Encoding(b);
      var n := if |b| % 3 == 1 then 2 else if |b| % 3 == 2 then 1 else 0;
      n <= |t| && (forall i :: |t| - n <= i < |t| ==> t[i] == '=') && (forall i :: 0 <= i < |t| - n ==> t[i] != '=')
  {
    hide Sextet;
    if |b| > 2 {
      Padding(b[3..]);
    }
  }

  // The test vectors of section 10 of RFC 4648.
  lemma TestVectors()
    ensures Encoding([]) == "" && Encoding([0x66]) == "Zg==" && Encoding([0x66, 0x6f]) == "Zm8="
    ensures Encoding([0x66, 0x6f, 0x6f]) == "Zm9v"
  {
    assert Encoding([]) == "";
    assert Group(0x66, 0x6f, 0x6f) + "" == "Zm9v";
  }

  lemma TwoGroups(b: seq<byte>)
    requires |b| > 3 && b[..3] == [0x66, 0x6f, 0x6f]
    ensures Encoding(b) == "Zm9v" + Encoding(b[3..])
  {
    assert b[0] == b[..3][0] && b[1] == b[..3][1] && b[2] == b[..3][2];
    assert Group(0x66, 0x6f, 0x6f) == "Zm9v";
  }

  lemma LongerTestVectors()
    ensures Encoding([0x66, 0x6f, 0x6f, 0x62]) == "Zm9vYg==" && Encoding([0x66, 0x6f, 0x6f, 0x62, 0x61]) == "Zm9vYmE="
    ensures Encoding([0x66, 0x6f, 0x6f, 0x62, 0x61, 0x72]) == "Zm9vYmFy"
  {
    LastGroups();
    hide Encoding;
    TwoGroups([0x66, 0x6f, 0x6f, 0x62]);
    TwoGroups([0x66, 0x6f, 0x6f, 0x62, 0x61]);
    TwoGroups([0x66, 0x6f, 0x6f, 0x62, 0x61, 0x72]);
  }

  lemma LastGroups()
    ensures Encoding([0x62]) == "Yg==" && Encoding([0x62, 0x61]) == "YmE=" && Encoding([0x62, 0x61, 0x72]) == "YmFy"
  {
    assert Group(0x62, 0x61, 0x72) + "" == "YmFy";
    assert Encoding([]) == "";
  }
}
