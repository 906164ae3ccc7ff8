/** src/dcl/uuid.cpp: sixteen bytes, their text form (section 3 of RFC 4122), and their order. */
module Uuid {
  import opened Hex
  import opened Octets
  import opened Options
  import opened Sequences

  // isxdigit, with the value that strtol gives the digit.
  function DigitValue(c: char): (v: Option<nat>)
    ensures v.Some? ==> v.value < 16
  {
    if '0' <= c <= '9' then Some(c as int - '0' as int)
    else if 'a' <= c <= 'f' then Some(c as int - 'a' as int + 10)
    else if 'A' <= c <= 'F' then Some(c as int - 'A' as int + 10)
    else None
  }

  type nibble = x: int | 0 <= x < 16

  // The hexadecimal digits of a text; everything else is skipped.
  function Digits(s: string): seq<nibble> {
    if s == "" then [] else Digit(s[0]) + Digits(s[1..])
  }

  function Digit(c: char): seq<nibble> {
    match DigitValue(c)
    case Some(v) => [v]
    case None => []
  }

  function DigitsOnly(s: string): string {
    if s == "" then "" else (if DigitValue(s[0]).Some? then [s[0]] else "") + DigitsOnly(s[1..])
  }

  // Byte j takes digits 2j and 2j + 1; a single last digit stands alone, missing digits give zero.
  function ByteOf(v: seq<nibble>, j: nat): byte {
    if 2 * j + 1 < |v| then
      var high: int, low: int := v[2 * j], v[2 * j + 1];
      16 * high + low
    else if 2 * j < |v| then v[2 * j]
    else 0
  }

  function Assigned(s: string): (d: seq<byte>)
    ensures |d| == 16
  {
    seq(16, j requires 0 <= j < 16 => ByteOf(Digits(s), j))
  }

  function Hyphen(i: nat): string {
    if i == 3 || i == 5 || i == 7 || i == 9 then "-" else ""
  }

  // The text of the bytes from position i on.
  function Text(d: seq<byte>, i: nat): string
    decreases |d| - i
  {
    if i >= |d| then "" else HexPair(d[i]) + Hyphen(i) + Text(d, i + 1)
  }

  // std::lexicographical_compare on bytes, and the order of strings.
  predicate Less(a: seq<int>, b: seq<int>) {
    b != [] && (a == [] || a[0] < b[0] || (a[0] == b[0] && Less(a[1..], b[1..])))
  }

  predicate StringLess(a: string, b: string) {
    b != "" && (a == "" || a[0] < b[0] || (a[0] == b[0] && StringLess(a[1..], b[1..])))
  }

  lemma {:induction false} DigitsAppend(s: string, t: string)
    ensures Digits(s + t) == Digits(s) + Digits(t)
  {
    hide Digit;
    if s == "" {
      assert s + t == t;
    } else {
      DigitsAppend(s[1..], t);
      assert (s + t)[1..] == s[1..] + t;
      Associated(Digit(s[0]), Digits(s[1..]), Digits(t));
    }
  }

  // Only the hexadecimal digits of a text matter.
  lemma {:induction false} DigitsOfDigitsOnly(s: string)
    ensures Digits(DigitsOnly(s)) == Digits(s)
  {
    hide DigitValue;
    if s != "" {
      DigitsOfDigitsOnly(s[1..]);
      DigitsAppend(if DigitValue(s[0]).Some? then [s[0]] else "", DigitsOnly(s[1..]));
      if DigitValue(s[0]).Some? {
        assert [s[0]][1..] == "";
      }
    }
  }

  lemma AssignedFromDigits(s: string)
    ensures Assigned(DigitsOnly(s)) == Assigned(s)
  {
    DigitsOfDigitsOnly(s);
  }

  lemma PairDigits(b: byte)
    ensures Digits(HexPair(b)) == [b / 16, b % 16]
  {
    var p := HexPair(b);
    assert p == [p[0]] + [p[1]];
    DigitsAppend([p[0]], [p[1]]);
    assert [p[0]][1..] == "" && [p[1]][1..] == "";
  }

  lemma HyphenDigits(i: nat)
    ensures Digits(Hyphen(i)) == []
  {
    assert Digits("") == [];
    assert "-"[1..] == "";
  }

  lemma {:induction false} TextDigits(d: seq<byte>, i: nat)
    requires i <= |d|
    ensures |Digits(Text(d, i))| == 2 * (|d| - i)
    ensures forall j :: i <= j < |d| ==> Digits(Text(d, i))[2 * (j - i)] == d[j] / 16 && Digits(Text(d, i))[2 * (j - i) + 1] == d[j] % 16
    decreases |d| - i
  {
    hide Digits, HexPair, Hyphen;
    if i < |d| {
      TextDigits(d, i + 1);
      DigitsAppend(HexPair(d[i]) + Hyphen(i), Text(d, i + 1));
      DigitsAppend(HexPair(d[i]), Hyphen(i));
      PairDigits(d[i]);
      HyphenDigits(i);
    } else {
      NoDigits();
    }
  }

  lemma NoDigits()
    ensures Digits("") == []
  {}

  // Assigning the text form restores the bytes.
  lemma RoundTrip(d: seq<byte>)
    requires |d| == 16
    ensures Assigned(Text(d, 0)) == d
  {
    hide Digits, Text;
    TextDigits(d, 0);
    forall j | 0 <= j < 16
      ensures Assigned(Text(d, 0))[j] == d[j]
    {
      assert Digits(Text(d, 0))[2 * (j - 0)] == d[j] / 16;
    }
  }

  lemma {:induction false} SamePrefix(p: string, a: string, b: string)
    ensures StringLess(p + a, p + b) <==> StringLess(a, b)
  {
    if p == "" {
      assert p + a == a && p + b == b;
    } else {
      SamePrefix(p[1..], a, b);
      assert (p + a)[1..] == p[1..] + a && (p + b)[1..] == p[1..] + b;
    }
  }

  // The order of two bytes decides the order of texts that begin with them.
  lemma PairOrder(x: byte, y: byte, a: string, b: string)
    requires x != y
    ensures StringLess(HexPair(x) + a, HexPair(y) + b) <==> x < y
  {
    var p, q := HexPair(x) + a, HexPair(y) + b;
    assert p[1..][0] == HexPair(x)[1] && q[1..][0] == HexPair(y)[1];
  }

  // The text form keeps the order, position by position.
  lemma {:induction false} TextKeepsOrder(d: seq<byte>, e: seq<byte>, i: nat)
    requires |d| == |e| && i <= |d|
    ensures Less(d[i..], e[i..]) <==> StringLess(Text(d, i), Text(e, i))
    decreases |d| - i
  {
    hide HexPair, Hyphen, StringLess, Less;
    if i == |d| {
      NothingLess();
    } else {
      LessUnfolds(d[i..], e[i..]);
      assert d[i..][1..] == d[i + 1..] && e[i..][1..] == e[i + 1..];
      if d[i] == e[i] {
        TextKeepsOrder(d, e, i + 1);
        SamePrefix(HexPair(d[i]) + Hyphen(i), Text(d, i + 1), Text(e, i + 1));
      } else {
        PairOrder(d[i], e[i], Hyphen(i) + Text(d, i + 1), Hyphen(i) + Text(e, i + 1));
        assert HexPair(d[i]) + Hyphen(i) + Text(d, i + 1) == HexPair(d[i]) + (Hyphen(i) + Text(d, i + 1));
        assert HexPair(e[i]) + Hyphen(i) + Text(e, i + 1) == HexPair(e[i]) + (Hyphen(i) + Text(e, i + 1));
      }
    }
  }

  lemma NothingLess()
    ensures !Less([], []) && !StringLess("", "")
  {}

  lemma LessUnfolds(a: seq<int>, b: seq<int>)
    requires a != [] && b != []
    ensures Less(a, b) <==> a[0] < b[0] || (a[0] == b[0] && Less(a[1..], b[1..]))
  {}

  lemma OrderOfTexts(d: seq<byte>, e: seq<byte>)
    requires |d| == |e| == 16
    ensures Less(d, e) <==> StringLess(Text(d, 0), Text(e, 0))
    ensures d == e <==> Text(d, 0) == Text(e, 0)
  {
    assert d[0..] == d && e[0..] == e;
    TextKeepsOrder(d, e, 0);
    RoundTrip(d);
    RoundTrip(e);
  }

  // strtol with base 16, on digits.
  function HexNumber(s: string): (n: nat)
    requires |s| <= 2 && forall i :: 0 <= i < |s| ==> DigitValue(s[i]).Some?
    ensures n < 256
    ensures |s| == 2 ==> n == 16 * DigitValue(s[0]).value + DigitValue(s[1]).value
    ensures |s| == 1 ==> n == DigitValue(s[0]).value
  {
    if s == "" then 0 else 16 * HexNumber(s[..|s| - 1]) + DigitValue(s[|s| - 1]).value
  }

  lemma NextDigit(s: string, i: nat)
    requires i < |s|
    ensures Digits(s[..i + 1]) == Digits(s[..i]) + if DigitValue(s[i]).Some? then [DigitValue(s[i]).value] else []
  {
    assert s[..i + 1] == s[..i] + [s[i]];
    DigitsAppend(s[..i], [s[i]]);
    assert [s[i]][1..] == "";
  }

  class Id {
    const data: array<byte>

    predicate Valid()
    {
      data.Length == 16
    }

    // The constructors that take a text.
    constructor (value: string)
      ensures Valid() && fresh(data) && data[..] == Assigned(value)
    {
      data := new byte[16];
      new;
      Assign(value);
    }

    method Clear()
      requires Valid()
      modifies data
      ensures forall i :: 0 <= i < 16 ==> data[i] == 0
    {
      for i := 0 to 16
        invariant forall k :: 0 <= k < i ==> data[k] == 0
      {
        data[i] := 0;
      }
    }

    method Empty() returns (empty: bool)
      requires Valid()
      ensures empty <==> forall i :: 0 <= i < 16 ==> data[i] == 0
    {
      for i := 0 to 16
        invariant forall k :: 0 <= k < i ==> data[k] == 0
      {
        if data[i] != 0 {
          return false;
        }
      }
      return true;
    }

    method Assign(value: string)
      requires Valid()
      modifies data
      ensures data[..] == Assigned(value)
    {
      hide Digits, DigitValue;
      Clear();
      NoDigits();
      var buf := "";
      var j := 0;
      for i := 0 to |value|
        invariant j < 16 && |buf| < 2 && |Digits(value[..i])| == 2 * j + |buf|
        invariant |buf| == 1 ==> DigitValue(buf[0]) == Some(Digits(value[..i])[2 * j])
        invariant forall k :: 0 <= k < j ==> data[k] == ByteOf(Digits(value[..i]), k)
        invariant forall k :: j <= k < 16 ==> data[k] == 0
      {
        ghost var v := Digits(value[..i]);
        NextDigit(value, i);
        if DigitValue(value[i]).Some? {
          buf := buf + [value[i]];
        } else {
          continue;
        }
        if |buf| == 2 {
          data[j] := HexNumber(buf);
          buf := "";
          j := j + 1;
          if j == 16 {
            assert value == value[..i + 1] + value[i + 1..];
            DigitsAppend(value[..i + 1], value[i + 1..]);
            return;
          }
        }
      }
      assert value[..|value|] == value;
      if buf != "" {
        data[j] := HexNumber(buf);
      }
    }

    // The text is printed byte by byte.
    method Str() returns (s: string)
      requires Valid()
      ensures s == Text(data[..], 0)
    {
      hide HexPair, Text;
      s := "";
      for i := 0 to 16
        invariant s + Text(data[..], i) == Text(data[..], 0)
      {
        TextStep(s, data[..], i);
        s := s + HexPair(data[i]);
        if i == 3 || i == 5 || i == 7 || i == 9 {
          s := s + "-";
        }
      }
      TextEnds(s, data[..]);
    }

    // operator==.
    method Equals(rhs: Id) returns (equal: bool)
      requires Valid() && rhs.Valid()
      ensures equal <==> data[..] == rhs.data[..]
    {
      for i := 0 to 16
        invariant data[..i] == rhs.data[..i]
      {
        if data[i] != rhs.data[i] {
          return false;
        }
      }
      return true;
    }

    // operator<.
    method LessThan(rhs: Id) returns (less: bool)
      requires Valid() && rhs.Valid()
      ensures less <==> Less(data[..], rhs.data[..])
    {
      hide Less;
      for i := 0 to 16
        invariant Less(data[..], rhs.data[..]) <==> Less(data[i..], rhs.data[i..])
      {
        assert data[i..][1..] == data[i + 1..] && rhs.data[i..][1..] == rhs.data[i + 1..];
        LessUnfolds(data[i..], rhs.data[i..]);
        if data[i] < rhs.data[i] {
          return true;
        }
        if rhs.data[i] < data[i] {
          return false;
        }
      }
      assert data[16..] == [] && rhs.data[16..] == [];
      NothingLess();
      return false;
    }
  }

  lemma TextStep(before: string, d: seq<byte>, i: nat)
    requires i < |d|
    ensures before + Text(d, i) == before + HexPair(d[i]) + Hyphen(i) + Text(d, i + 1)
  {
    hide HexPair, Hyphen;
    Associated(HexPair(d[i]), Hyphen(i), Text(d, i + 1));
    Associated(before, HexPair(d[i]), Hyphen(i) + Text(d, i + 1));
    Associated(before + HexPair(d[i]), Hyphen(i), Text(d, i + 1));
  }

  lemma TextEnds(before: string, d: seq<byte>)
    ensures before + Text(d, |d|) == before
  {}

  // Where byte i begins in the text of 16 bytes.
  function Begins(i: nat): nat {
    2 * i + if i <= 3 then 0 else if i <= 5 then 1 else if i <= 7 then 2 else if i <= 9 then 3 else 4
  }

  // What may stand at position k of the text: hyphens at four places, lower-case digits elsewhere.
  predicate Fits(k: nat, c: char) {
    if k == 8 || k == 13 || k == 18 || k == 23 then c == '-' else '0' <= c <= '9' || 'a' <= c <= 'f'
  }

  lemma DigitsAreLower(b: byte)
    ensures forall j :: 0 <= j < 2 ==> '0' <= HexPair(b)[j] <= '9' || 'a' <= HexPair(b)[j] <= 'f'
  {}

  // The shape of the text, from byte i on; it has 36 characters.
  lemma {:induction false} TextShape(d: seq<byte>, i: nat)
    requires |d| == 16 && i <= 16
    ensures Begins(i) + |Text(d, i)| == 36
    ensures forall j :: 0 <= j < |Text(d, i)| ==> Fits(Begins(i) + j, Text(d, i)[j])
    decreases 16 - i
  {
    hide HexPair;
    if i < 16 {
      TextShape(d, i + 1);
      DigitsAreLower(d[i]);
      var first, rest := HexPair(d[i]) + Hyphen(i), Text(d, i + 1);
      assert Begins(i) + |first| == Begins(i + 1);
      forall j | 0 <= j < |first| + |rest| ensures Fits(Begins(i) + j, (first + rest)[j]) {
        if j >= |first| {
          assert Fits(Begins(i + 1) + (j - |first|), rest[j - |first|]);
        }
      }
    }
  }

  // The digits of a text in upper case.
  function Upper(s: string): string {
    if s == "" then "" else [if 'a' <= s[0] <= 'f' then s[0] - 'a' + 'A' else s[0]] + Upper(s[1..])
  }

  lemma {:induction false} UpperDigits(s: string)
    ensures Digits(Upper(s)) == Digits(s)
  {
    if s != "" {
      UpperDigits(s[1..]);
      assert Upper(s)[1..] == Upper(s[1..]);
    }
  }

  // Upper and lower case are read alike.
  lemma CaseIsIgnored(s: string)
    ensures Assigned(Upper(s)) == Assigned(s)
  {
    UpperDigits(s);
  }

  lemma OtherDigit(c: char)
    requires !('0' <= c <= '9') && !('a' <= c <= 'f') && !('A' <= c <= 'F')
    ensures Digits([c]) == []
  {
    assert [c][1..] == "";
  }

  // A character that is no hexadecimal digit makes no difference, wherever it stands.
  lemma OthersAreSkipped(s: string, c: char, t: string)
    requires !('0' <= c <= '9') && !('a' <= c <= 'f') && !('A' <= c <= 'F')
    ensures Assigned(s + [c] + t) == Assigned(s + t)
  {
    OtherDigit(c);
    DigitsAppend(s + [c], t);
    DigitsAppend(s, [c]);
    DigitsAppend(s, t);
    assert Digits(s) + [] == Digits(s);
    hide Digits;
  }

  // Two digits make a byte, the first one counting sixteen times.
  lemma FirstByte(h: char, l: char, t: string)
    requires '0' <= h <= '9' && 'a' <= l <= 'f'
    ensures Assigned([h, l] + t)[0] == 16 * (h as int - 48) + (l as int - 87)
  {
    DigitsAppend([h, l], t);
    assert [h, l][1..] == [l] && [l][1..] == [];
  }

  // The first difference decides the order.
  lemma {:induction false} FirstDifferenceDecides(p: seq<int>, x: int, y: int, a: seq<int>, b: seq<int>)
    requires x < y
    ensures Less(p + [x] + a, p + [y] + b) && !Less(p + [y] + b, p + [x] + a) && !Less(p, p)
  {
    if p == [] {
      assert p + [x] + a == [x] + a && p + [y] + b == [y] + b;
    } else {
      assert (p + [x] + a)[1..] == p[1..] + [x] + a && (p + [y] + b)[1..] == p[1..] + [y] + b;
      FirstDifferenceDecides(p[1..], x, y, a, b);
    }
  }
}
