/** trim, tokenize and the integer conversions of src/dcl/strutils.cpp. */
module Strutils {
  import opened Sequences

  // The default delimiters of trim.
  function Blanks(): string {
    " \t\r\n"
  }

  predicate AllIn(s: string, delims: string) {
    forall i :: 0 <= i < |s| ==> s[i] in delims
  }

  predicate NoneIn(s: string, delims: string) {
    forall i :: 0 <= i < |s| ==> s[i] !in delims
  }

  // find_first_of: |s| if no delimiter occurs.
  function FirstOf(s: string, delims: string): (p: nat)
    ensures p <= |s| && NoneIn(s[..p], delims) && (p < |s| ==> s[p] in delims)
  {
    if s == "" || s[0] in delims then 0 else 1 + FirstOf(s[1..], delims)
  }

  // find_first_not_of: |s| if there are only delimiters.
  function FirstNotOf(s: string, delims: string): (p: nat)
    ensures p <= |s| && AllIn(s[..p], delims) && (p < |s| ==> s[p] !in delims)
  {
    if s == "" || s[0] !in delims then 0 else 1 + FirstNotOf(s[1..], delims)
  }

  // One past find_last_not_of: 0 if there are only delimiters.
  function PastLastNotOf(s: string, delims: string): (p: nat)
    ensures p <= |s| && AllIn(s[p..], delims) && (p > 0 ==> s[p - 1] !in delims)
  {
    if s == "" || s[|s| - 1] !in delims then |s| else PastLastNotOf(s[..|s| - 1], delims)
  }

  predicate IsTrimmed(s: string, delims: string) {
    s != "" ==> s[0] !in delims && s[|s| - 1] !in delims
  }

  // s without the delimiters at its ends.
  function Trimmed(s: string, delims: string): (t: string)
    ensures IsTrimmed(t, delims) && (IsTrimmed(s, delims) ==> t == s)
  {
    var p := PastLastNotOf(s, delims);
    var q := FirstNotOf(s[..p], delims);
    s[q..p]
  }

  lemma {:induction false} PastLastExact(x: string, b: string, delims: string)
    requires AllIn(b, delims) && (x == "" || x[|x| - 1] !in delims)
    ensures PastLastNotOf(x + b, delims) == |x|
  {
    if b == "" {
      assert x + b == x;
    } else {
      PastLastExact(x, b[..|b| - 1], delims);
      assert (x + b)[..|x + b| - 1] == x + b[..|b| - 1];
    }
  }

  lemma {:induction false} FirstNotExact(a: string, x: string, delims: string)
    requires AllIn(a, delims) && (x == "" || x[0] !in delims)
    ensures FirstNotOf(a + x, delims) == |a|
  {
    if a == "" {
      assert a + x == x;
    } else {
      FirstNotExact(a[1..], x, delims);
      assert (a + x)[1..] == a[1..] + x;
    }
  }

  // The trimmed text is the only trimmed part of s with nothing but delimiters around it.
  lemma TrimmedIsUnique(a: string, t: string, b: string, delims: string)
    requires AllIn(a, delims) && IsTrimmed(t, delims) && AllIn(b, delims)
    ensures Trimmed(a + t + b, delims) == t
  {
    if t == "" {
      assert AllIn("" + (a + t + b), delims);
      PastLastExact("", a + t + b, delims);
      assert "" + (a + t + b) == a + t + b;
    } else {
      PastLastExact(a + t, b, delims);
      assert (a + t + b)[..|a + t|] == a + t;
      FirstNotExact(a, t, delims);
    }
  }

  lemma TrimmedIsPart(s: string, delims: string) returns (a: string, b: string)
    ensures s == a + Trimmed(s, delims) + b && AllIn(a, delims) && AllIn(b, delims)
  {
    var p := PastLastNotOf(s, delims);
    var q := FirstNotOf(s[..p], delims);
    a, b := s[..q], s[p..];
    Parted(s, q, p);
  }

  // trim::operator().
  method Trim(source: string, delims: string) returns (result: string)
    ensures result == Trimmed(source, delims)
  {
    result := source;
    var index := PastLastNotOf(result, delims);
    if index > 0 {
      result := result[..index];
    }
    index := FirstNotOf(result, delims);
    if index < |result| {
      result := result[index..];
    } else {
      result := "";
    }
  }

  // The trimmed texts between delimiters.
  function Fields(s: string, delims: string): (fields: seq<string>)
    ensures fields != []
    decreases |s|
  {
    var p := FirstOf(s, delims);
    if p == |s| then [Trimmed(s, Blanks())]
    else [Trimmed(s[..p], Blanks())] + Fields(s[p + 1..], delims)
  }

  // Splitting: the empty text has no tokens.
  function Tokens(s: string, delims: string): seq<string> {
    if s == "" then [] else Fields(s, delims)
  }

  lemma Dropped(s: string, p: nat, i: nat, j: nat)
    requires p + i <= |s| && i <= j && p + j <= |s|
    ensures s[p..][i..] == s[p + i..] && s[p..][i..j] == s[p + i..p + j]
  {}

  // One round of the loop of tokenize.
  lemma NextToken(before: seq<string>, source: string, delims: string, oldPos: nat, pos: nat)
    requires oldPos <= |source| && pos == oldPos + FirstOf(source[oldPos..], delims) < |source|
    ensures before + Fields(source[oldPos..], delims)
         == before + [Trimmed(source[oldPos..pos], Blanks())] + Fields(source[pos + 1..], delims)
  {
    hide Trimmed, FirstOf, Fields, Blanks;
    Dropped(source, oldPos, 0, pos - oldPos);
    Dropped(source, oldPos, pos + 1 - oldPos, pos + 1 - oldPos);
    FieldsStep(before, source[oldPos..], delims);
  }

  // tokenize::operator() for a vector of tokens.
  method Tokenize(source: string, delims: string) returns (rslt: seq<string>)
    ensures rslt == Tokens(source, delims)
  {
    hide Trimmed, FirstOf, Fields, Blanks;
    rslt := [];
    if source != "" {
      var oldPos: nat := 0;
      FirstOfBound(source, delims);
      var pos: nat := FirstOf(source, delims);
      assert source[0..] == source;
      while pos < |source|
        invariant oldPos <= |source|
        invariant oldPos <= pos == oldPos + FirstOf(source[oldPos..], delims) <= |source|
        invariant rslt + Fields(source[oldPos..], delims) == Fields(source, delims)
        decreases |source| - pos
      {
        NextToken(rslt, source, delims, oldPos, pos);
        var token := Trim(source[oldPos..pos], Blanks());
        rslt := rslt + [token];
        oldPos := pos + 1;
        FirstOfBound(source[oldPos..], delims);
        pos := oldPos + FirstOf(source[oldPos..], delims);
      }
      FieldsLast(source[oldPos..], delims);
      var token := Trim(source[oldPos..], Blanks());
      rslt := rslt + [token];
    }
  }

  lemma FieldsLast(s: string, delims: string)
    requires FirstOf(s, delims) == |s|
    ensures Fields(s, delims) == [Trimmed(s, Blanks())]
  {}

  lemma FirstOfBound(s: string, delims: string)
    ensures FirstOf(s, delims) <= |s|
  {}

  lemma FieldsOnce(s: string, delims: string)
    requires FirstOf(s, delims) < |s|
    ensures
      var p := FirstOf(s, delims);
      Fields(s, delims) == [Trimmed(s[..p], Blanks())] + Fields(s[p + 1..], delims)
  {
    hide Trimmed, FirstOf, Blanks;
  }

  lemma FieldsStep(before: seq<string>, s: string, delims: string)
    requires FirstOf(s, delims) < |s|
    ensures
      var p := FirstOf(s, delims);
      before + Fields(s, delims) == before + [Trimmed(s[..p], Blanks())] + Fields(s[p + 1..], delims)
  {
    hide Trimmed, FirstOf, Blanks, Fields;
    var p := FirstOf(s, delims);
    FieldsOnce(s, delims);
    Associated(before, [Trimmed(s[..p], Blanks())], Fields(s[p + 1..], delims));
  }

  // The parts of a text, joined by a delimiter.
  function Joined(parts: seq<string>, d: char): string
    requires parts != []
  {
    if |parts| == 1 then parts[0] else parts[0] + ([d] + Joined(parts[1..], d))
  }

  lemma {:induction false} FirstOfExact(a: string, x: string, delims: string)
    requires NoneIn(a, delims) && (x == "" || x[0] in delims)
    ensures FirstOf(a + x, delims) == |a|
  {
    if a == "" {
      assert a + x == x;
    } else {
      FirstOfExact(a[1..], x, delims);
      assert (a + x)[1..] == a[1..] + x;
    }
  }

  lemma FieldsCut(a: string, d: char, b: string)
    requires NoneIn(a, [d]) && IsTrimmed(a, Blanks())
    ensures Fields(a, [d]) == [a] && Fields(a + ([d] + b), [d]) == [a] + Fields(b, [d])
  {
    hide Trimmed, FirstOf;
    TrimmedSame(a, Blanks());
    FirstOfExact(a, "", [d]);
    assert a + "" == a;
    FirstOfExact(a, [d] + b, [d]);
    assert (a + ([d] + b))[..|a|] == a && (a + ([d] + b))[|a| + 1..] == b;
  }

  lemma TrimmedSame(s: string, delims: string)
    requires IsTrimmed(s, delims)
    ensures Trimmed(s, delims) == s
  {}

  predicate Separable(parts: seq<string>, d: char) {
    forall i :: 0 <= i < |parts| ==> NoneIn(parts[i], [d]) && IsTrimmed(parts[i], Blanks())
  }

  // Splitting undoes joining: trimmed parts without the delimiter come back.
  lemma {:induction false} FieldsOfJoined(parts: seq<string>, d: char)
    requires parts != [] && Separable(parts, d)
    ensures Fields(Joined(parts, d), [d]) == parts
  {
    hide Fields, NoneIn, IsTrimmed;
    if |parts| == 1 {
      FieldsCut(parts[0], d, "");
    } else {
      FieldsCut(parts[0], d, Joined(parts[1..], d));
      FieldsOfJoined(parts[1..], d);
    }
  }

  lemma TokenIsSeparable(s: string, d: char)
    requires NoneIn(s, [d])
    ensures NoneIn(Trimmed(s, Blanks()), [d]) && IsTrimmed(Trimmed(s, Blanks()), Blanks())
  {
    var a, b := TrimmedIsPart(s, Blanks());
    hide NoneIn, AllIn;
    PartHasNone(a, Trimmed(s, Blanks()), b, [d]);
  }

  lemma FieldsUnfold(s: string, d: char)
    ensures
      var p := FirstOf(s, [d]);
      && p <= |s| && NoneIn(s[..p], [d])
      && Fields(s, [d]) == [Trimmed(s[..p], Blanks())] + if p == |s| then [] else Fields(s[p + 1..], [d])
  {
    hide Trimmed, Blanks;
    assert s[..|s|] == s;
  }

  // Every token is trimmed and holds no delimiter.
  lemma {:induction false} FieldsAreSeparable(s: string, d: char)
    ensures Separable(Fields(s, [d]), d)
    decreases |s|
  {
    hide Trimmed, FirstOf, Fields, Blanks, NoneIn, IsTrimmed;
    FieldsUnfold(s, d);
    var p := FirstOf(s, [d]);
    TokenIsSeparable(s[..p], d);
    if p < |s| {
      FieldsAreSeparable(s[p + 1..], d);
    }
  }

  lemma PartHasNone(a: string, t: string, b: string, delims: string)
    requires NoneIn(a + t + b, delims)
    ensures NoneIn(t, delims)
  {
    forall i | 0 <= i < |t| ensures t[i] !in delims {
      assert (a + t + b)[|a| + i] == t[i];
    }
  }

  // to_string<int>: the "%d" format.
  function Decimal(n: nat): (s: string)
    ensures s != "" && forall i :: 0 <= i < |s| ==> '0' <= s[i] <= '9'
    ensures n > 0 ==> s[0] != '0'
  {
    if n < 10 then ['0' + n as char] else Decimal(n / 10) + ['0' + (n % 10) as char]
  }

  function ToString(n: int): string {
    if n < 0 then "-" + Decimal(-n) else Decimal(n)
  }

  // The value of a digit in the bases up to 36; 36 for any other character.
  function DigitOf(c: char): (d: nat)
    ensures d <= 36
  {
    if '0' <= c <= '9' then c as int - '0' as int
    else if 'a' <= c <= 'z' then 10 + (c as int - 'a' as int)
    else if 'A' <= c <= 'Z' then 10 + (c as int - 'A' as int)
    else 36
  }

  // The number that the leading digits of s continue.
  function Accumulated(s: string, base: nat, before: nat): nat {
    if s == "" || DigitOf(s[0]) >= base then before
    else Accumulated(s[1..], base, before * base + DigitOf(s[0]))
  }

  // The base 0 of strtol: "0x" before a hexadecimal digit, "0", or decimal.
  function Magnitude(s: string): int {
    if |s| > 2 && s[0] == '0' && (s[1] == 'x' || s[1] == 'X') && DigitOf(s[2]) < 16 then Accumulated(s[2..], 16, 0)
    else if s != "" && s[0] == '0' then Accumulated(s, 8, 0)
    else Accumulated(s, 10, 0)
  }

  // A 64-bit long, saturated.
  function Clamped(n: int): int {
    if n < -0x8000_0000_0000_0000 then -0x8000_0000_0000_0000
    else if n > 0x7fff_ffff_ffff_ffff then 0x7fff_ffff_ffff_ffff
    else n
  }

  // The conversion of a long to a 32-bit int.
  function Wrapped(n: int): (r: int)
    ensures -0x8000_0000 <= r < 0x8000_0000
  {
    var m := n % 0x1_0000_0000;
    if m < 0x8000_0000 then m else m - 0x1_0000_0000
  }

  // from_string<int>: strtol with base 0.
  function FromString(s: string): int {
    var t := s[FirstNotOf(s, " \t\n\U{0B}\U{0C}\r")..];
    var n: int :=
      if t != "" && t[0] == '-' then -Magnitude(t[1..])
      else if t != "" && t[0] == '+' then Magnitude(t[1..])
      else Magnitude(t);
    Wrapped(Clamped(n))
  }

  lemma {:induction false} AccumulatedDecimal(n: nat, r: string)
    ensures Accumulated(Decimal(n) + r, 10, 0) == Accumulated(r, 10, n)
  {
    var last := ['0' + (n % 10) as char];
    assert (last + r)[1..] == r;
    if n >= 10 {
      AccumulatedDecimal(n / 10, last + r);
      assert Decimal(n) + r == Decimal(n / 10) + (last + r);
    }
  }

  lemma DecimalMagnitude(n: nat)
    requires n < 0x8000_0000_0000_0000
    ensures Magnitude(Decimal(n)) == n
  {
    AccumulatedDecimal(n, "");
    assert Decimal(n) + "" == Decimal(n);
    if n == 0 {
      assert Decimal(0) == "0";
      assert Accumulated("0", 8, 0) == 0;
    }
  }

  // Every printed int is read back.
  lemma DecimalRoundTrip(n: int)
    requires -0x8000_0000 <= n < 0x8000_0000
    ensures FromString(ToString(n)) == n
  {
    hide Magnitude, Decimal;
    var s := ToString(n);
    assert s[0] !in " \t\n\U{0B}\U{0C}\r";
    assert s[0..] == s;
    if n < 0 {
      DecimalMagnitude(-n);
      assert s[1..] == Decimal(-n);
    } else {
      DecimalMagnitude(n);
    }
  }

  // Space, tab, carriage return and line feed are cut off at the ends of a token, nothing else is.
  lemma BlanksAreCut(a: string, t: string, b: string)
    requires forall i :: 0 <= i < |a| ==> a[i] == ' ' || a[i] == '\t' || a[i] == '\r' || a[i] == '\n'
    requires forall i :: 0 <= i < |b| ==> b[i] == ' ' || b[i] == '\t' || b[i] == '\r' || b[i] == '\n'
    requires t != "" ==> t[0] != ' ' && t[0] != '\t' && t[0] != '\r' && t[0] != '\n'
    requires t != "" ==> t[|t| - 1] != ' ' && t[|t| - 1] != '\t' && t[|t| - 1] != '\r' && t[|t| - 1] != '\n'
    ensures Trimmed(a + t + b, Blanks()) == t
  {
    assert ' ' in Blanks() && '\t' in Blanks() && '\r' in Blanks() && '\n' in Blanks();
    hide Trimmed;
    TrimmedIsUnique(a, t, b, Blanks());
  }

  // Delimiters cut a text into its tokens, empty ones included; each is trimmed by itself.
  lemma TokensAreCut(a: string, d: char, rest: string)
    requires d !in a
    ensures Tokens("", [d]) == []
    ensures a != "" ==> Tokens(a, [d]) == [Trimmed(a, Blanks())]
    ensures rest != "" ==> Tokens(a + [d] + rest, [d]) == [Trimmed(a, Blanks())] + Tokens(rest, [d])
  {
    hide Trimmed, FirstOf, Blanks;
    FirstOfExact(a, "", [d]);
    assert a + "" == a && a[..|a|] == a;
    FieldsUnfold(a, d);
    FirstOfExact(a, [d] + rest, [d]);
    assert a + ([d] + rest) == a + [d] + rest;
    assert (a + [d] + rest)[..|a|] == a && (a + [d] + rest)[|a| + 1..] == rest;
    FieldsUnfold(a + [d] + rest, d);
  }

  lemma TwoDigits(t: string, base: nat)
    requires |t| == 3 && DigitOf(t[0]) < base && DigitOf(t[1]) < base <= DigitOf(t[2])
    ensures Accumulated(t, base, 0) == DigitOf(t[0]) * base + DigitOf(t[1])
  {
    var last := t[1..][1..];
    assert last[0] == t[2];
    assert Accumulated(last, base, DigitOf(t[0]) * base + DigitOf(t[1])) == DigitOf(t[0]) * base + DigitOf(t[1]);
  }

  predicate IsWhite(a: string) {
    forall i :: 0 <= i < |a| ==>
      a[i] == ' ' || a[i] == '\t' || a[i] == '\n' || a[i] == '\U{0B}' || a[i] == '\U{0C}' || a[i] == '\r'
  }

  lemma WhiteIsSkipped(a: string, t: string)
    requires IsWhite(a) && t != "" && ('0' <= t[0] <= '9' || t[0] == '+' || t[0] == '-')
    ensures (a + t)[FirstNotOf(a + t, " \t\n\U{0B}\U{0C}\r")..] == t
  {
    var white := " \t\n\U{0B}\U{0C}\r";
    assert white[0] in white && white[1] in white && white[2] in white && white[3] in white && white[4] in white && white[5] in white;
    FirstNotExact(a, t, white);
  }

  lemma WhiteIsIgnored(a: string, t: string)
    requires IsWhite(a) && t != "" && ('0' <= t[0] <= '9' || t[0] == '+' || t[0] == '-')
    ensures FromString(a + t) == Wrapped(Clamped(
              if t[0] == '-' then -Magnitude(t[1..]) else if t[0] == '+' then Magnitude(t[1..]) else Magnitude(t)))
  {
    hide Magnitude, FirstNotOf, IsWhite, Wrapped, Clamped;
    WhiteIsSkipped(a, t);
  }

  // strtol skips white space and takes one sign: a minus negates, a plus does not.
  lemma StrtolSigns(a: string, t: string)
    requires IsWhite(a) && t != "" && '0' <= t[0] <= '9'
    ensures FromString(a + t) == Wrapped(Clamped(Magnitude(t)))
    ensures FromString(a + ("+" + t)) == Wrapped(Clamped(Magnitude(t)))
    ensures FromString(a + ("-" + t)) == Wrapped(Clamped(-Magnitude(t)))
  {
    hide Magnitude, FromString, IsWhite, Wrapped, Clamped;
    WhiteIsIgnored(a, t);
    WhiteIsIgnored(a, "+" + t);
    WhiteIsIgnored(a, "-" + t);
    assert ("+" + t)[1..] == t && ("-" + t)[1..] == t;
  }

  // The three bases; g ends a hexadecimal number and 9 an octal one.
  lemma StrtolBases()
    ensures Magnitude("42g") == 42 && Magnitude("0179") == 15 && Magnitude("0x1Fg") == 31 && Magnitude("0XaBg") == 171
  {
    TwoDigits("42g", 10);
    TwoDigits("179", 8);
    TwoDigits("1Fg", 16);
    TwoDigits("aBg", 16);
    assert "0179"[1..] == "179" && "0x1Fg"[2..] == "1Fg" && "0XaBg"[2..] == "aBg";
  }

  // An int takes the low-order 32 bits of the long, which is saturated.
  lemma LongToInt()
    ensures Wrapped(Clamped(0x1_0000_0005)) == 5 && Wrapped(Clamped(0x8000_0000)) == -0x8000_0000
    ensures Wrapped(Clamped(0x1_0000_0000_0000_0000)) == -1 && Wrapped(Clamped(-0x1_0000_0000_0000_0000)) == 0
  {}
}
