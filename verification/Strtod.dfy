/** my_strtod of src/dcl/strutils.cpp over exact real numbers: the longest numeral at the beginning
    of a text, and its value by repeated squaring. Rounding is not modelled. */
module Strtod {
  // The kinds of character that a number is made of.
  datatype Kind = Space | Sign | Digit | Point | Mark

  predicate Is(k: Kind, c: char) {
    match k
    case Space => c == ' ' || c == '\t' || c == '\n' || c == '\U{0B}' || c == '\U{0C}' || c == '\r'
    case Sign => c == '+' || c == '-'
    case Digit => '0' <= c <= '9'
    case Point => c == '.'
    case Mark => c == 'e' || c == 'E'
  }

  // The positions in a text at which the parts of a number end: white space, sign, digits, point,
  // digits; mark, sign and digits of the exponent.
  datatype Bounds = Bounds(space: nat, sign: nat, whole: nat, point: nat, fraction: nat,
                           mark: nat, exponentSign: nat, end: nat)

  // All characters between two positions are of a kind.
  predicate Run(k: Kind, s: string, p: nat, q: nat) {
    p <= q <= |s| && forall i :: p <= i < q ==> Is(k, s[i])
  }

  predicate AtMostOne(k: Kind, s: string, p: nat, q: nat) {
    q <= p + 1 && Run(k, s, p, q)
  }

  // b delimits a numeral at the beginning of s: it has a digit before the exponent, a fraction only
  // after a point, and an exponent only after a mark.
  predicate Numeral(s: string, b: Bounds) {
    && Run(Space, s, 0, b.space) && AtMostOne(Sign, s, b.space, b.sign)
    && Run(Digit, s, b.sign, b.whole) && AtMostOne(Point, s, b.whole, b.point)
    && Run(Digit, s, b.point, b.fraction) && (b.whole == b.point ==> b.point == b.fraction)
    && b.sign + (b.point - b.whole) < b.fraction
    && AtMostOne(Mark, s, b.fraction, b.mark) && AtMostOne(Sign, s, b.mark, b.exponentSign)
    && Run(Digit, s, b.exponentSign, b.end) && (b.fraction == b.mark ==> b.mark == b.end)
  }

  predicate Ordered(s: string, b: Bounds) {
    b.space <= b.sign <= b.whole <= b.point <= b.fraction <= b.mark <= b.exponentSign <= b.end <= |s|
  }

  // The whole number that a text of digits denotes.
  function DigitsValue(t: string): int {
    if t == "" then 0 else 10 * DigitsValue(t[..|t| - 1]) + (t[|t| - 1] as int - '0' as int)
  }

  function Power(b: real, n: nat): real {
    if n == 0 then 1.0 else b * Power(b, n - 1)
  }

  // x * 10^e.
  function Scaled(x: real, e: int): real {
    if e >= 0 then x * Power(10.0, e) else PowerPositive(10.0, -e); x / Power(10.0, -e)
  }

  lemma {:induction false} PowerPositive(b: real, n: nat)
    requires b > 0.0
    ensures Power(b, n) > 0.0
  {
    if n > 0 {
      PowerPositive(b, n - 1);
    }
  }

  predicate Negative(s: string, p: nat, q: nat)
    requires p <= q <= |s|
  {
    p < q && s[p] == '-'
  }

  // sign * digits, the digits before and after the point read as one whole number.
  function SignedDigits(s: string, b: Bounds): real
    requires Ordered(s, b)
  {
    var d := DigitsValue(s[b.sign..b.whole] + s[b.point..b.fraction]) as real;
    if Negative(s, b.space, b.sign) then -d else d
  }

  // The exponent of the digits: the one written, less the number of decimals.
  function Adjusted(s: string, b: Bounds): int
    requires Ordered(s, b)
  {
    var n := DigitsValue(s[b.exponentSign..b.end]);
    (if Negative(s, b.mark, b.exponentSign) then -n else n) - (b.fraction - b.point)
  }

  // A value and the position after the numeral, or type_conversion_exception.
  datatype Outcome = Number(value: real, end: nat) | ConversionError

  const DBL_MIN_EXP := -1021
  const DBL_MAX_EXP := 1024

  // What a numeral means: sign * digits * 10^(exponent - decimals).
  function Meaning(s: string, b: Bounds): Outcome
    requires Ordered(s, b)
  {
    if DBL_MIN_EXP <= Adjusted(s, b) <= DBL_MAX_EXP then Number(Scaled(SignedDigits(s, b), Adjusted(s, b)), b.end)
    else ConversionError
  }

  // Whether a character of a kind stands at position p; the end of the text is of no kind.
  predicate Here(k: Kind, s: string, p: nat) {
    p < |s| && Is(k, s[p])
  }

  // The position after the longest run of a kind from p on.
  function Past(k: Kind, s: string, p: nat): (q: nat)
    requires p <= |s|
    ensures Run(k, s, p, q) && !Here(k, s, q)
    decreases |s| - p
  {
    if Here(k, s, p) then Past(k, s, p + 1) else p
  }

  // The position after the character at p, if it is of the kind.
  function PastOne(k: Kind, s: string, p: nat): (q: nat)
    requires p <= |s|
    ensures AtMostOne(k, s, p, q) && (p == q ==> !Here(k, s, q))
  {
    if Here(k, s, p) then p + 1 else p
  }

  // What the scanner takes for white space, sign and digits.
  function Scan(s: string): (b: Bounds)
    ensures Ordered(s, b)
  {
    var space := Past(Space, s, 0);
    var sign := PastOne(Sign, s, space);
    var whole := Past(Digit, s, sign);
    var point := PastOne(Point, s, whole);
    var fraction := if whole < point then Past(Digit, s, point) else point;
    var mark := PastOne(Mark, s, fraction);
    var exponentSign := if fraction < mark then PastOne(Sign, s, mark) else mark;
    var end := if fraction < mark then Past(Digit, s, exponentSign) else mark;
    Bounds(space, sign, whole, point, fraction, mark, exponentSign, end)
  }

  predicate HasDigits(b: Bounds) {
    b.whole > b.sign || b.fraction > b.point
  }

  // my_strtod.
  function Converted(s: string): Outcome {
    if HasDigits(Scan(s)) then Meaning(s, Scan(s)) else ConversionError
  }

  // A run cannot go past one that nothing of its kind follows.
  lemma RunEnds(k: Kind, s: string, p: nat, q: nat, r: nat)
    requires Run(k, s, p, q) && Run(k, s, p, r) && !Here(k, s, r)
    ensures q <= r
  {}

  // Two runs of a kind from the same position end together if what follows them is not of the kind.
  lemma RunsAgree(k: Kind, s: string, p: nat, q: nat, r: nat)
    requires Run(k, s, p, q) && Run(k, s, p, r) && !Here(k, s, q) && !Here(k, s, r)
    ensures q == r
  {}

  // White space and sign of a numeral are those that the scanner finds.
  lemma LeadAgrees(s: string, b: Bounds)
    requires Numeral(s, b)
    ensures Scan(s).space == b.space && Scan(s).sign == b.sign
  {
    hide Past, PastOne;
    assert Here(Digit, s, b.sign) || Here(Point, s, b.sign);
    assert b.space == b.sign || Here(Sign, s, b.space);
    var a := Scan(s);
    RunsAgree(Space, s, 0, a.space, b.space);
  }

  // The mantissa of a numeral is at most the one the scanner finds, and is that one if a mark follows.
  lemma MantissaAgrees(s: string, b: Bounds)
    requires Numeral(s, b)
    ensures
      var a := Scan(s);
      && HasDigits(a) && b.whole <= a.whole && b.fraction <= a.fraction
      && (b.fraction < b.mark || b.fraction == a.fraction ==>
          a.whole == b.whole && a.point == b.point && a.fraction == b.fraction)
  {
    hide Past, PastOne;
    LeadAgrees(s, b);
    var a := Scan(s);
    RunEnds(Digit, s, a.sign, b.whole, a.whole);
    if b.whole < b.point {
      assert Here(Point, s, b.whole);
      RunsAgree(Digit, s, a.sign, a.whole, b.whole);
      RunEnds(Digit, s, a.point, b.fraction, a.fraction);
    }
    if b.fraction < b.mark {
      assert Here(Mark, s, b.fraction);
    }
  }

  // The scanner takes the longest numeral at the beginning of s, and it is the only numeral of its
  // length: a numeral with the same end has the same parts.
  lemma LongestNumeral(s: string, b: Bounds)
    requires Numeral(s, b)
    ensures Numeral(s, Scan(s)) && b.end <= Scan(s).end
    ensures b.end == Scan(s).end ==> b == Scan(s)
  {
    hide Past, PastOne;
    MantissaAgrees(s, b);
    LeadAgrees(s, b);
    var a := Scan(s);
    if b.fraction < b.mark {
      assert Here(Mark, s, b.fraction);
      if b.exponentSign == b.mark && b.exponentSign < b.end {
        assert Here(Digit, s, b.mark);
      }
      RunEnds(Digit, s, a.exponentSign, if b.exponentSign == a.exponentSign then b.end else a.exponentSign, a.end);
    }
  }

  // When a text begins with a numeral, its longest one is converted; the exception is thrown exactly
  // when there is none or when its exponent is out of range.
  lemma WhenItThrows(s: string)
    ensures HasDigits(Scan(s)) <==> Numeral(s, Scan(s))
    ensures Converted(s).ConversionError? <==>
            (forall b :: !Numeral(s, b)) || !(DBL_MIN_EXP <= Adjusted(s, Scan(s)) <= DBL_MAX_EXP)
  {
    hide Past, PastOne, Adjusted, SignedDigits, Scaled;
    if b :| Numeral(s, b) {
      LongestNumeral(s, b);
    }
    var a := Scan(s);
    assert HasDigits(a) ==> Numeral(s, a);
  }

  lemma LongestIsConverted(s: string, b: Bounds)
    requires Numeral(s, b) && (forall c :: Numeral(s, c) ==> c.end <= b.end)
    ensures Converted(s) == Meaning(s, b)
  {
    LongestNumeral(s, b);
  }

  lemma {:induction false} PowerOfSquare(b: real, n: nat)
    ensures Power(b * b, n) == Power(b, 2 * n)
  {
    if n > 0 {
      PowerOfSquare(b, n - 1);
      assert Power(b, 2 * n) == b * (b * Power(b, 2 * n - 2));
    }
  }

  function Times(x: real, y: real): real {
    x * y
  }

  lemma Divided(number: real, p: real, q: real, total: real, x: real, d: real)
    requires p > 0.0 && Times(number, total) == Times(x, Times(p, q)) && d == number / p
    ensures Times(d, total) == Times(x, q)
  {
    assert d * p == number;
    assert (d * total) * p == (d * p) * total;
    assert (x * q) * p == x * (p * q);
  }

  lemma Multiplied(number: real, p: real, q: real)
    ensures Times(number, Times(p, q)) == Times(number * p, q)
  {}

  lemma Squared(p: real)
    requires p > 0.0
    ensures p * p > 0.0
  {}

  // One round of the scaling loop, with the bits of n.
  lemma SquareStep(b: real, square: real, n: nat)
    requires square == b * b
    ensures Power(b, n) == if n % 2 == 1 then Times(b, Power(square, n / 2)) else Power(square, n / 2)
  {
    PowerOfSquare(b, n / 2);
  }

  // What remains to be scaled by: p10^n, in the direction of the exponent.
  ghost predicate Remaining(x: real, total: real, up: bool, number: real, p10: real, n: nat) {
    && p10 > 0.0
    && if up then Times(number, Power(p10, n)) == Times(x, total) else Times(number, total) == Times(x, Power(p10, n))
  }

  // One round of the scaling loop.
  lemma ScaleStep(x: real, total: real, up: bool, number: real, p10: real, n: nat, next: real, square: real)
    requires Remaining(x, total, up, number, p10, n) && square == p10 * p10
    requires p10 != 0.0 && next == if n % 2 == 0 then number else if up then number * p10 else number / p10
    ensures Remaining(x, total, up, next, square, n / 2)
  {
    hide Times;
    SquareStep(p10, square, n);
    Squared(p10);
    var q := Power(square, n / 2);
    if n % 2 == 1 && up {
      Multiplied(number, p10, q);
    } else if n % 2 == 1 {
      Divided(number, p10, q, total, x, next);
    }
  }

  // The last loop of my_strtod: repeated squaring over the bits of |exponent|.
  method Scale(x: real, exponent: int) returns (number: real)
    ensures number == Scaled(x, exponent)
  {
    hide Remaining;
    number := x;
    var p10 := 10.0;
    var n: nat := if exponent < 0 then -exponent else exponent;
    ghost var total := Power(10.0, n);
    Begun(x, total, exponent >= 0, n);
    while n != 0
      invariant Remaining(x, total, exponent >= 0, number, p10, n)
    {
      Nonzero(x, total, exponent >= 0, number, p10, n);
      ghost var before := number;
      if n % 2 == 1 {
        if exponent < 0 {
          number := number / p10;
        } else {
          number := number * p10;
        }
      }
      ScaleStep(x, total, exponent >= 0, before, p10, n, number, p10 * p10);
      n := n / 2;
      p10 := p10 * p10;
    }
    Finished(x, exponent, number, p10);
  }

  lemma Begun(x: real, total: real, up: bool, n: nat)
    requires total == Power(10.0, n)
    ensures Remaining(x, total, up, x, 10.0, n)
  {}

  lemma Nonzero(x: real, total: real, up: bool, number: real, p10: real, n: nat)
    requires Remaining(x, total, up, number, p10, n)
    ensures p10 > 0.0
  {}

  lemma Finished(x: real, exponent: int, number: real, p10: real)
    requires Remaining(x, Power(10.0, if exponent < 0 then -exponent else exponent), exponent >= 0, number, p10, 0)
    ensures number == Scaled(x, exponent)
  {
    if exponent < 0 {
      PowerPositive(10.0, -exponent);
      Quotient(number, Power(10.0, -exponent), x);
    }
  }

  lemma Quotient(number: real, total: real, x: real)
    requires total > 0.0 && number * total == x
    ensures number == x / total
  {}

  // The character at position p, zero at the end of the text.
  function At(s: string, p: nat): char {
    if p < |s| then s[p] else '\0'
  }

  lemma DigitsValueStep(t: string, c: char)
    ensures DigitsValue(t + [c]) == 10 * DigitsValue(t) + (c as int - '0' as int)
  {
    assert (t + [c])[..|t|] == t;
  }

  // The digit loops: from position p on, continuing a number whose digits so far are before.
  method ReadDigits(s: string, p: nat, number: real, ghost before: string) returns (q: nat, result: real)
    requires p <= |s| && number == DigitsValue(before) as real
    ensures p <= q == Past(Digit, s, p) <= |s| && result == DigitsValue(before + s[p..q]) as real
  {
    hide DigitsValue;
    q, result := p, number;
    ghost var digits := before;
    assert before + s[p..p] == before;
    while Is(Digit, At(s, q))
      invariant p <= q <= |s| && Past(Digit, s, p) == Past(Digit, s, q)
      invariant digits == before + s[p..q] && result == DigitsValue(digits) as real
      decreases |s| - q
    {
      DigitsValueStep(digits, s[q]);
      assert digits + [s[q]] == before + s[p..q + 1];
      digits := digits + [s[q]];
      result := result * 10.0 + (s[q] as int - '0' as int) as real;
      q := q + 1;
    }
  }

  // The digit loop of the exponent.
  method ReadNumber(s: string, p: nat) returns (q: nat, n: int)
    requires p <= |s|
    ensures p <= q == Past(Digit, s, p) <= |s| && n == DigitsValue(s[p..q])
  {
    hide DigitsValue;
    assert s[p..p] == "";
    NoDigits();
    q, n := p, 0;
    while Is(Digit, At(s, q))
      invariant p <= q <= |s| && Past(Digit, s, p) == Past(Digit, s, q) && n == DigitsValue(s[p..q])
      decreases |s| - q
    {
      DigitsValueStep(s[p..q], s[q]);
      assert s[p..q] + [s[q]] == s[p..q + 1];
      n := n * 10 + (s[q] as int - '0' as int);
      q := q + 1;
    }
  }

  lemma NoDigits()
    ensures DigitsValue("") == 0
  {}

  // White space and sign.
  method ReadLead(s: string) returns (p: nat, negative: bool)
    ensures p == Scan(s).sign && (negative <==> Negative(s, Scan(s).space, Scan(s).sign))
  {
    p := 0;
    while Is(Space, At(s, p))
      invariant p <= |s| && Past(Space, s, 0) == Past(Space, s, p)
      decreases |s| - p
    {
      p := p + 1;
    }
    negative := false;
    if At(s, p) == '-' {
      negative := true;
      p := p + 1;
    } else if At(s, p) == '+' {
      p := p + 1;
    }
  }

  // The digits before and after the point, and the sign applied to them.
  method ReadMantissa(s: string) returns (p: nat, number: real, numDigits: nat, numDecimals: nat)
    ensures var b := Scan(s); p == b.fraction && number == SignedDigits(s, b)
    ensures var b := Scan(s); numDecimals == b.fraction - b.point && (numDigits == 0 <==> !HasDigits(b))
  {
    hide DigitsValue, Past;
    ghost var b := Scan(s);
    var negative;
    p, negative := ReadLead(s);
    NoDigits();
    var q;
    q, number := ReadDigits(s, p, 0.0, "");
    numDigits, numDecimals := q - p, 0;
    assert "" + s[p..q] == s[b.sign..b.whole];
    p := q;
    if At(s, p) == '.' {
      p := p + 1;
      q, number := ReadDigits(s, p, number, s[b.sign..b.whole]);
      numDigits, numDecimals := numDigits + (q - p), q - p;
      p := q;
    } else {
      assert s[b.sign..b.whole] + s[b.point..b.fraction] == s[b.sign..b.whole];
    }
    if negative {
      number := -number;
    }
  }

  // The exponent that a mark introduces.
  method ReadExponent(s: string, start: nat) returns (p: nat, exponent: int)
    requires start == Scan(s).fraction
    ensures var b := Scan(s); p == b.end && exponent == Adjusted(s, b) + (b.fraction - b.point)
  {
    hide DigitsValue, Past;
    ghost var b := Scan(s);
    NoDigits();
    p, exponent := start, 0;
    if At(s, p) == 'e' || At(s, p) == 'E' {
      p := p + 1;
      var negative := false;
      if At(s, p) == '-' {
        negative := true;
        p := p + 1;
      } else if At(s, p) == '+' {
        p := p + 1;
      }
      var n;
      p, n := ReadNumber(s, p);
      exponent := if negative then -n else n;
    } else {
      assert s[b.exponentSign..b.end] == "";
    }
  }

  // my_strtod, where *endptr is the end of the outcome.
  method StrToD(str: string) returns (r: Outcome)
    ensures r == Converted(str)
  {
    hide Scan, SignedDigits, Adjusted, Scaled;
    var p, number, numDigits, numDecimals := ReadMantissa(str);
    if numDigits == 0 {
      return ConversionError;
    }
    var end, exponent := ReadExponent(str, p);
    exponent := exponent - numDecimals;
    if exponent < DBL_MIN_EXP || exponent > DBL_MAX_EXP {
      return ConversionError;
    }
    number := Scale(number, exponent);
    return Number(number, end);
  }
}
