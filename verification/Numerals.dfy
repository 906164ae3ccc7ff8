/** The values of written numerals: what my_strtod (src/dcl/strutils.cpp) makes of a text, in terms of its
    characters. */
module Numerals {
  import opened Sequences
  import opened Strtod

  // One character before a text.

  lemma {:induction false} PastBehind(k: Kind, c: char, s: string, p: nat)
    requires p <= |s|
    ensures Past(k, [c] + s, p + 1) == Past(k, s, p) + 1
    decreases |s| - p
  {
    if Here(k, s, p) {
      PastBehind(k, c, s, p + 1);
    }
  }

  lemma PastOneBehind(k: Kind, c: char, s: string, p: nat)
    requires p <= |s|
    ensures PastOne(k, [c] + s, p + 1) == PastOne(k, s, p) + 1
  {}

  function Later(b: Bounds): Bounds {
    Bounds(b.space + 1, b.sign + 1, b.whole + 1, b.point + 1, b.fraction + 1, b.mark + 1, b.exponentSign + 1, b.end + 1)
  }

  // From the digits on, a character in front moves every position by one.
  lemma ScanBehind(c: char, s: string)
    ensures
      var a, b := Scan([c] + s), Scan(s);
      a.sign == b.sign + 1 ==> a == Later(b).(space := a.space)
  {
    hide Past, PastOne, Here, Is, Run, AtMostOne;
    var b := Scan(s);
    PastBehind(Digit, c, s, b.sign);
    PastOneBehind(Point, c, s, b.whole);
    PastBehind(Digit, c, s, b.point);
    PastOneBehind(Mark, c, s, b.fraction);
    PastOneBehind(Sign, c, s, b.mark);
    PastBehind(Digit, c, s, b.exponentSign);
  }

  lemma SliceBehind(c: char, s: string, p: nat, q: nat)
    requires p <= q <= |s|
    ensures ([c] + s)[p + 1..q + 1] == s[p..q]
    ensures Negative([c] + s, p + 1, q + 1) <==> Negative(s, p, q)
  {}

  // The magnitude and the exponent are those of the text behind the character.
  lemma PartsBehind(c: char, s: string)
    requires Scan([c] + s) == Later(Scan(s)).(space := Scan([c] + s).space)
    ensures Adjusted([c] + s, Scan([c] + s)) == Adjusted(s, Scan(s))
    ensures
      var a, b := Scan([c] + s), Scan(s);
      && HasDigits(a) == HasDigits(b) && a.end == b.end + 1
      && SignedDigits([c] + s, a)
      == if Negative([c] + s, a.space, a.sign) == Negative(s, b.space, b.sign) then SignedDigits(s, b) else -SignedDigits(s, b)
  {
    hide Scan, DigitsValue, Negative;
    var b := Scan(s);
    SliceBehind(c, s, b.sign, b.whole);
    SliceBehind(c, s, b.point, b.fraction);
    SliceBehind(c, s, b.mark, b.exponentSign);
    SliceBehind(c, s, b.exponentSign, b.end);
  }

  lemma ScaledNegative(x: real, e: int)
    ensures Scaled(-x, e) == -Scaled(x, e)
  {
    if e < 0 {
      PowerPositive(10.0, -e);
    }
  }

  // The outcome with its position one later, and the sign of its number changed if so.
  function Moved(o: Outcome, negated: bool): Outcome {
    match o
    case Number(v, end) => Number(if negated then -v else v, end + 1)
    case ConversionError => ConversionError
  }

  lemma ConvertedBehind(c: char, s: string, negated: bool)
    requires Scan([c] + s).sign == Scan(s).sign + 1
    requires negated <==>
      (Negative([c] + s, Scan([c] + s).space, Scan([c] + s).sign) != Negative(s, Scan(s).space, Scan(s).sign))
    ensures Converted([c] + s) == Moved(Converted(s), negated)
  {
    hide Scan, Adjusted, SignedDigits, Negative, Scaled, HasDigits;
    ScanBehind(c, s);
    PartsBehind(c, s);
    ScaledNegative(SignedDigits(s, Scan(s)), Adjusted(s, Scan(s)));
  }

  lemma SignBehind(c: char, s: string)
    requires s != "" && ('0' <= s[0] <= '9' || s[0] == '.') && (c == '-' || c == '+')
    ensures Scan(s).space == 0 && Scan(s).sign == 0 && Scan([c] + s).space == 0 && Scan([c] + s).sign == 1
    ensures !Negative(s, 0, 0) && (Negative([c] + s, 0, 1) <==> c == '-')
  {}

  // A minus before digits or a point negates the number, a plus does not; either moves its end by one.
  lemma SignedNumber(s: string)
    requires s != "" && ('0' <= s[0] <= '9' || s[0] == '.')
    ensures Converted("-" + s) == Moved(Converted(s), true) && Converted("+" + s) == Moved(Converted(s), false)
  {
    hide Scan, Converted, Moved, Negative;
    SignBehind('-', s);
    SignBehind('+', s);
    ConvertedBehind('-', s, true);
    ConvertedBehind('+', s, false);
    assert ['-'] == "-" && ['+'] == "+";
  }

  // White space before a text moves the end of its number, and nothing else.
  lemma WhiteIsSkipped(c: char, s: string)
    requires c == ' ' || c == '\t' || c == '\n' || c == '\U{0B}' || c == '\U{0C}' || c == '\r'
    ensures Converted([c] + s) == Moved(Converted(s), false)
  {
    PastBehind(Space, c, s, 0);
    PastOneBehind(Sign, c, s, Past(Space, s, 0));
    SliceBehind(c, s, Scan(s).space, Scan(s).sign);
    ConvertedBehind(c, s, false);
  }

  // Numerals put together from their parts.

  predicate AllDigits(t: string) {
    forall i :: 0 <= i < |t| ==> '0' <= t[i] <= '9'
  }

  // Digits, a fraction only behind a point, an exponent only behind a mark; the sign is that of the exponent.
  datatype Spelling = Spelling(whole: string, point: string, fraction: string, mark: string, sign: string, exponent: string) {
    predicate Valid() {
      && AllDigits(whole) && AllDigits(fraction) && AllDigits(exponent) && whole + fraction != ""
      && (point == "." || (point == "" && fraction == ""))
      && (mark == "e" || mark == "E" || (mark == "" && sign == "" && exponent == ""))
      && (sign == "" || sign == "+" || sign == "-")
    }

    function Text(): string {
      whole + point + fraction + mark + sign + exponent
    }

    // The power of ten that the digits are multiplied by.
    function Power10(): int {
      (if sign == "-" then -DigitsValue(exponent) else DigitsValue(exponent)) - |fraction|
    }

    function Bounds(): Strtod.Bounds {
      var p := |whole| + |point|;
      var q := p + |fraction| + |mark|;
      Strtod.Bounds(0, 0, |whole|, p, p + |fraction|, q, q + |sign|, q + |sign| + |exponent|)
    }
  }

  // The parts stand where the bounds say.
  lemma PartsStand(x: Spelling)
    ensures
      var s, b := x.Text(), x.Bounds();
      && |s| == b.end && s[0..b.whole] == x.whole && s[b.whole..b.point] == x.point && s[b.point..b.fraction] == x.fraction
      && s[b.fraction..b.mark] == x.mark && s[b.mark..b.exponentSign] == x.sign && s[b.exponentSign..b.end] == x.exponent
  {}

  lemma RunStands(k: Kind, s: string, p: nat, q: nat, t: string)
    requires p <= q <= |s| && s[p..q] == t && forall i :: 0 <= i < |t| ==> Is(k, t[i])
    ensures Run(k, s, p, q)
  {
    forall i | p <= i < q ensures Is(k, s[i]) {
      assert s[i] == t[i - p];
    }
  }

  lemma SpellingIsNumeral(x: Spelling)
    requires x.Valid()
    ensures Numeral(x.Text(), x.Bounds()) && |x.Text()| == x.Bounds().end
  {
    var s, b := x.Text(), x.Bounds();
    PartsStand(x);
    RunStands(Digit, s, 0, b.whole, x.whole);
    RunStands(Point, s, b.whole, b.point, x.point);
    RunStands(Digit, s, b.point, b.fraction, x.fraction);
    RunStands(Mark, s, b.fraction, b.mark, x.mark);
    RunStands(Sign, s, b.mark, b.exponentSign, x.sign);
    RunStands(Digit, s, b.exponentSign, b.end, x.exponent);
  }

  lemma SpellingMeans(x: Spelling)
    requires x.Valid()
    ensures Adjusted(x.Text(), x.Bounds()) == x.Power10()
    ensures SignedDigits(x.Text(), x.Bounds()) == DigitsValue(x.whole + x.fraction) as real
  {
    hide DigitsValue;
    PartsStand(x);
    var s, b := x.Text(), x.Bounds();
    assert x.sign != "" ==> s[b.mark] == x.sign[0] by {
      assert s[b.mark..b.exponentSign] == x.sign;
    }
  }

  lemma WholeIsConverted(s: string, b: Bounds)
    requires Numeral(s, b) && b.end == |s|
    ensures Converted(s) == Meaning(s, b)
  {
    hide Converted, Meaning;
    LongestIsConverted(s, b);
  }

  lemma MeaningInRange(s: string, b: Bounds)
    requires Ordered(s, b)
    ensures Meaning(s, b) == if Adjusted(s, b) < -1021 || Adjusted(s, b) > 1024 then ConversionError
                             else Number(Scaled(SignedDigits(s, b), Adjusted(s, b)), b.end)
  {}

  lemma ScaledBack(x: real, e: int)
    ensures e >= 0 ==> Scaled(x, e) == x * Power(10.0, e)
    ensures e < 0 ==> Scaled(x, e) * Power(10.0, -e) == x
  {
    if e < 0 {
      PowerPositive(10.0, -e);
    }
  }

  // A spelled numeral is converted as a whole: its digits, read as one number, times a power of ten,
  // which has to lie between -1021 and 1024.
  lemma SpelledNumber(x: Spelling)
    requires x.Valid()
    ensures
      var e, d := x.Power10(), DigitsValue(x.whole + x.fraction) as real;
      && (Converted(x.Text()).ConversionError? <==> e < -1021 || e > 1024)
      && (-1021 <= e <= 1024 ==> Converted(x.Text()).end == |x.Text()|)
      && (0 <= e <= 1024 ==> Converted(x.Text()).value == d * Power(10.0, e))
      && (-1021 <= e < 0 ==> Converted(x.Text()).value * Power(10.0, -e) == d)
  {
    hide Converted, Meaning, Numeral, Adjusted, SignedDigits, Scaled, DigitsValue, Power;
    SpellingIsNumeral(x);
    SpellingMeans(x);
    WholeIsConverted(x.Text(), x.Bounds());
    MeaningInRange(x.Text(), x.Bounds());
    ScaledBack(DigitsValue(x.whole + x.fraction) as real, x.Power10());
  }

  // One more digit.
  lemma DigitsValueOf(t: string, c: char)
    requires '0' <= c <= '9'
    ensures DigitsValue("") == 0 && DigitsValue(t + [c]) == 10 * DigitsValue(t) + (c as int - 48)
  {
    DigitsValueStep(t, c);
  }

  lemma DigitsExample()
    ensures DigitsValue("125") == 125 && DigitsValue("1") == 1 && Power(10.0, 2) == 100.0
  {
    hide DigitsValue;
    DigitsValueOf("", '1');
    DigitsValueOf("1", '2');
    DigitsValueOf("12", '5');
    assert "" + ['1'] == "1" && "1" + ['2'] == "12" && "12" + ['5'] == "125";
  }

  // Digits, decimals and a negative exponent.
  lemma SpelledExample()
    ensures Converted("12.5e-1") == Number(1.25, 7)
  {
    hide Converted, DigitsValue, Power;
    var x := Spelling("12", ".", "5", "e", "-", "1");
    assert x.Text() == "12.5e-1" && x.whole + x.fraction == "125";
    SpelledNumber(x);
    DigitsExample();
  }

  // White space and a sign in front of it.
  lemma SignedExample()
    ensures Converted(" -12.5e-1") == Number(-1.25, 9)
  {
    hide Converted;
    SpelledExample();
    SignedNumber("12.5e-1");
    WhiteIsSkipped(' ', "-12.5e-1");
    assert "-" + "12.5e-1" == "-12.5e-1" && [' '] + "-12.5e-1" == " -12.5e-1";
  }

  // A text that begins with none of the characters of a number is refused.
  lemma NothingToConvert(s: string)
    requires s != "" ==> !('0' <= s[0] <= '9') && s[0] !in ".+- \t\n\U{0B}\U{0C}\r"
    ensures Converted(s) == ConversionError
  {
    assert Scan(s).sign == 0 && Scan(s).whole == 0 && Scan(s).fraction == 0;
  }

  lemma PastIs(k: Kind, s: string, p: nat, q: nat)
    requires Run(k, s, p, q) && !Here(k, s, q)
    ensures Past(k, s, p) == q
  {
    RunsAgree(k, s, p, q, Past(k, s, p));
  }

  // Digits are converted up to the first character that does not continue the number.
  lemma NumberEnds(w: string, c: char, rest: string)
    requires w != "" && AllDigits(w) && !('0' <= c <= '9') && c != '.' && c != 'e' && c != 'E'
    ensures Converted(w + [c] + rest) == Number(DigitsValue(w) as real, |w|)
  {
    hide Past, DigitsValue;
    var s, n := w + [c] + rest, |w|;
    assert s[0] == w[0] && s[n] == c && s[0..n] == w && s[n..n] == "" && w + "" == w;
    RunStands(Digit, s, 0, n, w);
    PastIs(Space, s, 0, 0);
    PastIs(Digit, s, 0, n);
    NoDigits();
    assert Scan(s) == Bounds(0, 0, n, n, n, n, n, n);
  }
}
