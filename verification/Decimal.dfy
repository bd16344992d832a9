/** Decimal text: the digits the dataset writer prints and the reader reads back. */
module Decimal {
  import opened Wrappers

  /** What the writer prints is fixed-point, in units of 1/100000. */
  const UNIT := 100000

  predicate IsDigit(c: char) { '0' <= c <= '9' }
  predicate IsDot(c: char) { c == '.' }

  predicate AllDigits(s: string) {
    s != [] && forall i | 0 <= i < |s| :: IsDigit(s[i])
  }

  function DigitChar(d: int): char
    requires 0 <= d < 10
  {
    d as char + '0'
  }

  function DigitsValue(s: string): int
    requires forall i | 0 <= i < |s| :: IsDigit(s[i])
  {
    if s == [] then 0
    else
      assert IsDigit(s[|s| - 1]);
      DigitsValue(s[..|s| - 1]) * 10 + (s[|s| - 1] as int - '0' as int)
  }

  function Digits(n: nat): string {
    if n < 10 then [DigitChar(n)] else Digits(n / 10) + [DigitChar(n % 10)]
  }

  /** Exactly k digits, with leading zeros. */
  function FixedDigits(n: nat, k: nat): string
    decreases k
  {
    if k == 0 then [] else FixedDigits(n / 10, k - 1) + [DigitChar(n % 10)]
  }

  function Power10(k: nat): (r: nat)
    ensures r > 0
  {
    if k == 0 then 1 else 10 * Power10(k - 1)
  }

  lemma AppendDigit(s: string, d: int)
    requires (forall i | 0 <= i < |s| :: IsDigit(s[i])) && 0 <= d < 10
    ensures AllDigits(s + [DigitChar(d)]) && DigitsValue(s + [DigitChar(d)]) == DigitsValue(s) * 10 + d
  {
    assert (s + [DigitChar(d)])[..|s|] == s;
  }

  lemma {:induction false} DigitsRoundTrip(n: nat)
    ensures AllDigits(Digits(n)) && DigitsValue(Digits(n)) == n
  {
    if n < 10 {
      AppendDigit([], n);
      assert [] + [DigitChar(n)] == [DigitChar(n)];
    } else {
      DigitsRoundTrip(n / 10);
      AppendDigit(Digits(n / 10), n % 10);
    }
  }

  lemma {:induction false} FixedDigitsRoundTrip(n: nat, k: nat)
    requires n < Power10(k)
    ensures |FixedDigits(n, k)| == k && (forall i | 0 <= i < k :: IsDigit(FixedDigits(n, k)[i]))
    ensures DigitsValue(FixedDigits(n, k)) == n
    decreases k
  {
    if k > 0 {
      FixedDigitsRoundTrip(n / 10, k - 1);
      AppendDigit(FixedDigits(n / 10, k - 1), n % 10);
    }
  }

  /** The longest start of s without a stopping character. */
  function TakeUntil(s: string, stop: char -> bool): (r: string)
    ensures |r| <= |s| && r == s[..|r|]
    ensures |r| < |s| ==> stop(s[|r|])
  {
    if s == [] || stop(s[0]) then [] else [s[0]] + TakeUntil(s[1..], stop)
  }

  lemma {:induction false} TakeUntilStop(a: string, b: string, stop: char -> bool)
    requires forall i | 0 <= i < |a| :: !stop(a[i])
    requires b == [] || stop(b[0])
    ensures TakeUntil(a + b, stop) == a
  {
    if a == [] {
      assert a + b == b;
    } else {
      assert (a + b)[0] == a[0] && (a + b)[1..] == a[1..] + b;
      TakeUntilStop(a[1..], b, stop);
    }
  }

  function Unsigned(s: string): (bool, string) {
    if s != [] && s[0] == '-' then (true, s[1..])
    else if s != [] && s[0] == '+' then (false, s[1..])
    else (false, s)
  }

  function WithSign(negative: bool, v: int): int {
    if negative then -v else v
  }

  /** Digits, with single underscores allowed between them. */
  predicate DigitGroup(s: string) {
    && s != [] && IsDigit(s[0]) && IsDigit(s[|s| - 1])
    && (forall i | 0 <= i < |s| :: IsDigit(s[i]) || s[i] == '_')
    && forall i, j | 0 <= i < |s| && 0 <= j < |s| && j == i + 1 :: !(s[i] == '_' && s[j] == '_')
  }

  /** The digits of a group. */
  function Bare(s: string): string {
    if s == [] then [] else Bare(s[..|s| - 1]) + if s[|s| - 1] == '_' then [] else [s[|s| - 1]]
  }

  lemma {:induction false} BareIsDigits(s: string)
    requires forall i | 0 <= i < |s| :: IsDigit(s[i]) || s[i] == '_'
    ensures forall i | 0 <= i < |Bare(s)| :: IsDigit(Bare(s)[i])
  {
    if s != [] {
      BareIsDigits(s[..|s| - 1]);
    }
  }

  lemma {:induction false} DigitsAreBare(s: string)
    requires forall i | 0 <= i < |s| :: IsDigit(s[i])
    ensures Bare(s) == s
  {
    if s != [] {
      DigitsAreBare(s[..|s| - 1]);
    }
  }

  lemma DigitsAreGroup(s: string)
    requires AllDigits(s)
    ensures DigitGroup(s) && Bare(s) == s
  {
    DigitsAreBare(s);
  }

  function ParseInt(s: string): Option<int> {
    var (negative, body) := Unsigned(s);
    if DigitGroup(body) then
      BareIsDigits(body);
      Some(WithSign(negative, DigitsValue(Bare(body))))
    else None
  }

  predicate IsExponentMark(c: char) { c == 'e' || c == 'E' }

  /** v times 10 to the power e. */
  function Shift(v: int, e: int): real {
    if e >= 0 then (v * Power10(e)) as real else v as real / Power10(-e) as real
  }

  /** Digits with at most one point among them, before, behind or between: their value and the decimal places. */
  function ParseMantissa(body: string): Option<(int, nat)> {
    var whole := TakeUntil(body, IsDot);
    var fraction := if |whole| == |body| then [] else body[|whole| + 1..];
    if (whole == [] || DigitGroup(whole)) && (fraction == [] || DigitGroup(fraction)) && whole + fraction != [] then
      BareIsDigits(whole);
      BareIsDigits(fraction);
      Some((DigitsValue(Bare(whole) + Bare(fraction)), |Bare(fraction)|))
    else None
  }

  datatype Number = Finite(value: real) | Infinite(negative: bool) | NotANumber

  const ZERO := Finite(0.0)

  function LowerChar(c: char): char {
    if 'A' <= c <= 'Z' then ((c as int) - ('A' as int) + ('a' as int)) as char else c
  }

  function Lower(s: string): string {
    seq(|s|, i requires 0 <= i < |s| => LowerChar(s[i]))
  }

  /** The digits, and the power of ten they are to be taken times. */
  function Scale(mantissa: Option<(int, nat)>, exponent: Option<int>): Option<(int, int)> {
    match (mantissa, exponent)
    case (Some((digits, places)), Some(e)) => Some((digits, e - places))
    case _ => None
  }

  /** A mantissa and perhaps an exponent. */
  function ParseScientific(body: string): Option<(int, int)> {
    var mantissa := TakeUntil(body, IsExponentMark);
    Scale(ParseMantissa(mantissa), if |mantissa| == |body| then Some(0) else ParseInt(body[|mantissa| + 1..]))
  }

  function ParseDecimal(negative: bool, body: string): Option<Number> {
    match ParseScientific(body)
    case Some((digits, e)) => Some(Finite(Shift(WithSign(negative, digits), e)))
    case None => None
  }

  /** A decimal number with an optional sign, point and exponent, or one of the words for what is not finite. */
  function ParseNumber(s: string): Option<Number> {
    var (negative, body) := Unsigned(s);
    var word := Lower(body);
    if word == "inf" || word == "infinity" then Some(Infinite(negative))
    else if word == "nan" then Some(NotANumber)
    else ParseDecimal(negative, body)
  }

  /** The number that v units are. */
  function Fixed(v: int): Number {
    Finite(v as real / UNIT as real)
  }

  function Magnitude(v: int): nat {
    if v < 0 then -v else v
  }

  function FormatMagnitude(m: nat): string {
    Digits(m / UNIT) + "." + FixedDigits(m % UNIT, 5)
  }

  function FormatFixed(v: int): string {
    (if v < 0 then "-" else "") + FormatMagnitude(Magnitude(v))
  }

  lemma {:induction false} DigitsConcat(a: string, b: string)
    requires (forall i | 0 <= i < |a| :: IsDigit(a[i])) && forall i | 0 <= i < |b| :: IsDigit(b[i])
    ensures forall i | 0 <= i < |a + b| :: IsDigit((a + b)[i])
    ensures DigitsValue(a + b) == DigitsValue(a) * Power10(|b|) + DigitsValue(b)
    decreases |b|
  {
    if b == [] {
      assert a + b == a;
    } else {
      var n := |b| - 1;
      DigitsConcat(a, b[..n]);
      assert (a + b)[..|a + b| - 1] == a + b[..n];
      TimesTen(DigitsValue(a), Power10(n), DigitsValue(b[..n]));
    }
  }

  lemma TimesTen(a: int, p: int, b: int)
    ensures (a * p + b) * 10 == a * (10 * p) + b * 10
  {
  }

  lemma PartsParse(whole: string, fraction: string)
    requires AllDigits(whole) && AllDigits(fraction)
    ensures AllDigits(whole + fraction)
    ensures ParseMantissa(whole + "." + fraction) == Some((DigitsValue(whole + fraction), |fraction|))
  {
    PointSplits(whole, fraction);
    MantissaOf(whole + "." + fraction, whole, fraction);
  }

  lemma PointSplits(whole: string, fraction: string)
    requires AllDigits(whole) && AllDigits(fraction)
    ensures TakeUntil(whole + "." + fraction, IsDot) == whole
    ensures (whole + "." + fraction)[|whole| + 1..] == fraction
    ensures AllDigits(whole + fraction)
  {
    assert whole + "." + fraction == whole + ("." + fraction);
    TakeUntilStop(whole, "." + fraction, IsDot);
  }

  lemma MantissaOf(body: string, whole: string, fraction: string)
    requires TakeUntil(body, IsDot) == whole && |whole| < |body| && body[|whole| + 1..] == fraction
    requires AllDigits(whole) && AllDigits(fraction) && AllDigits(whole + fraction)
    ensures ParseMantissa(body) == Some((DigitsValue(whole + fraction), |fraction|))
  {
    DigitsAreGroup(whole);
    DigitsAreGroup(fraction);
    GroupsRead(body, whole, fraction, whole, fraction);
  }

  lemma GroupsRead(body: string, whole: string, fraction: string, a: string, b: string)
    requires TakeUntil(body, IsDot) == whole && |whole| < |body| && body[|whole| + 1..] == fraction
    requires DigitGroup(whole) && DigitGroup(fraction) && Bare(whole) == a && Bare(fraction) == b
    requires AllDigits(a + b)
    ensures ParseMantissa(body) == Some((DigitsValue(a + b), |b|))
  {
  }

  lemma Recombined(m: nat, whole: int, unit: int, fraction: int, all: int)
    requires unit == UNIT && whole == m / UNIT && fraction == m % UNIT && all == whole * unit + fraction
    ensures all == m
  {
  }

  lemma MagnitudeRoundTrip(m: nat)
    ensures ParseMantissa(FormatMagnitude(m)) == Some((m, 5))
    ensures FormatMagnitude(m) != [] && IsDigit(FormatMagnitude(m)[0])
  {
    var whole, fraction := Digits(m / UNIT), FixedDigits(m % UNIT, 5);
    DigitsRoundTrip(m / UNIT);
    assert Power10(5) == UNIT;
    FixedDigitsRoundTrip(m % UNIT, 5);
    PartsParse(whole, fraction);
    DigitsConcat(whole, fraction);
    Recombined(m, DigitsValue(whole), Power10(5), DigitsValue(fraction), DigitsValue(whole + fraction));
    assert FormatMagnitude(m)[0] == whole[0];
  }

  lemma NoExponent(body: string)
    requires forall i | 0 <= i < |body| :: NumberChar(body[i])
    ensures TakeUntil(body, IsExponentMark) == body
  {
    assert body + [] == body;
    TakeUntilStop(body, [], IsExponentMark);
  }

  lemma ShiftedLeft(v: int, k: nat)
    ensures Shift(v, k) == (v * Power10(k)) as real
  {
  }

  lemma ShiftedRight(v: int, k: nat)
    ensures Shift(v, 0 - k) == v as real / Power10(k) as real
  {
    if k == 0 {
      assert Power10(0) == 1;
    }
  }

  /** s is the body with a sign before it: "-" if negative, else "+" or nothing. */
  predicate Signs(s: string, negative: bool, body: string) {
    if negative then s == "-" + body else s == body || s == "+" + body
  }

  lemma SignIsRead(s: string, negative: bool, body: string)
    requires Signs(s, negative, body) && body != [] && IsDigit(body[0])
    ensures Unsigned(s) == (negative, body)
  {
  }

  lemma DigitIsNoWord(body: string)
    requires body != [] && IsDigit(body[0])
    ensures Lower(body) != "inf" && Lower(body) != "infinity" && Lower(body) != "nan"
  {
    assert Lower(body)[0] == body[0];
  }

  lemma NumberParses(s: string, negative: bool, body: string, m: int, e: int, value: real)
    requires Signs(s, negative, body) && body != [] && IsDigit(body[0])
    requires ParseScientific(body) == Some((m, e)) && value == Shift(WithSign(negative, m), e)
    ensures ParseNumber(s) == Some(Finite(value))
  {
    SignIsRead(s, negative, body);
    NoWordIsDecimal(s, negative, body);
    DecimalReads(negative, body, m, e);
  }

  lemma DecimalReads(negative: bool, body: string, m: int, e: int)
    requires ParseScientific(body) == Some((m, e))
    ensures ParseDecimal(negative, body) == Some(Finite(Shift(WithSign(negative, m), e)))
  {
  }

  lemma NoWordIsDecimal(s: string, negative: bool, body: string)
    requires Unsigned(s) == (negative, body) && body != [] && IsDigit(body[0])
    ensures ParseNumber(s) == ParseDecimal(negative, body)
  {
    DigitIsNoWord(body);
  }

  lemma PlainReads(body: string, m: int, places: nat, power: int)
    requires TakeUntil(body, IsExponentMark) == body && ParseMantissa(body) == Some((m, places))
    requires power == 0 - places
    ensures ParseScientific(body) == Some((m, power))
  {
    Scales(m, places, 0, power);
    PlainScale(body, Some((m, places)));
  }

  lemma PlainScale(body: string, mantissa: Option<(int, nat)>)
    requires TakeUntil(body, IsExponentMark) == body && ParseMantissa(body) == mantissa
    ensures ParseScientific(body) == Scale(mantissa, Some(0))
  {
  }

  lemma MarkedReads(body: string, mantissa: string, m: int, e: int)
    requires TakeUntil(body, IsExponentMark) == mantissa && |mantissa| < |body|
    requires ParseMantissa(mantissa) == Some((m, 0)) && ParseInt(body[|mantissa| + 1..]) == Some(e)
    ensures ParseScientific(body) == Some((m, e))
  {
    Scales(m, 0, e, e);
  }

  lemma Scales(m: int, places: nat, e: int, power: int)
    requires power == e - places
    ensures Scale(Some((m, places)), Some(e)) == Some((m, power))
  {
  }

  /** Every fixed-point value survives printing and reading. */
  lemma FixedRoundTrip(v: int)
    ensures ParseNumber(FormatFixed(v)) == Some(Fixed(v))
  {
    FixedShape(v);
    FixedReads(FormatFixed(v), v, FormatMagnitude(Magnitude(v)), 5);
  }

  lemma FixedShape(v: int)
    ensures var body := FormatMagnitude(Magnitude(v));
      && Signs(FormatFixed(v), v < 0, body) && ParseMantissa(body) == Some((Magnitude(v), 5))
      && body != [] && IsDigit(body[0]) && TakeUntil(body, IsExponentMark) == body
  {
    var body := FormatMagnitude(Magnitude(v));
    MagnitudeRoundTrip(Magnitude(v));
    MagnitudeChars(Magnitude(v));
    NoExponent(body);
    Prefixed(v < 0, body);
  }

  lemma Prefixed(negative: bool, body: string)
    ensures Signs((if negative then "-" else "") + body, negative, body)
  {
    assert "" + body == body;
  }

  lemma FixedReads(s: string, v: int, body: string, places: nat)
    requires Signs(s, v < 0, body) && body != [] && IsDigit(body[0]) && TakeUntil(body, IsExponentMark) == body
    requires places == 5 && ParseMantissa(body) == Some((Magnitude(v), places))
    ensures ParseNumber(s) == Some(Fixed(v))
  {
    PlainReads(body, Magnitude(v), places, 0 - places);
    FixedShift(v, places);
    NumberParses(s, v < 0, body, Magnitude(v), 0 - places, v as real / UNIT as real);
  }

  lemma FixedShift(v: int, places: nat)
    requires places == 5
    ensures v as real / UNIT as real == Shift(v, 0 - places)
  {
    ShiftedRight(v, places);
    assert Power10(5) == UNIT;
  }

  lemma IntRoundTrip(n: nat)
    ensures ParseInt(Digits(n)) == Some(n) && ParseNumber(Digits(n)) == Some(Finite(n as real))
  {
    var digits := Digits(n);
    DigitsRoundTrip(n);
    SignedIntParses(digits, false, digits);
    SignedNumberParses(digits, false, digits);
  }

  /** A leading "+" changes nothing and a leading "-" the sign, in integers. */
  lemma SignedIntParses(s: string, negative: bool, digits: string)
    requires Signs(s, negative, digits) && AllDigits(digits)
    ensures ParseInt(s) == Some(if negative then 0 - DigitsValue(digits) else DigitsValue(digits))
  {
    SignIsRead(s, negative, digits);
    DigitsAreGroup(digits);
  }

  /** And in numbers. */
  lemma SignedNumberParses(s: string, negative: bool, digits: string)
    requires Signs(s, negative, digits) && AllDigits(digits)
    ensures ParseNumber(s) == Some(Finite(WithSign(negative, DigitsValue(digits)) as real))
  {
    NoExponent(digits);
    WholeMantissa(digits);
    WholeReads(s, negative, digits, DigitsValue(digits), 0);
  }

  lemma WholeReads(s: string, negative: bool, body: string, m: int, places: nat)
    requires Signs(s, negative, body) && body != [] && IsDigit(body[0]) && TakeUntil(body, IsExponentMark) == body
    requires places == 0 && ParseMantissa(body) == Some((m, places))
    ensures ParseNumber(s) == Some(Finite(WithSign(negative, m) as real))
  {
    PlainReads(body, m, places, 0);
    NoShift(WithSign(negative, m), 0);
    NumberParses(s, negative, body, m, 0, WithSign(negative, m) as real);
  }

  lemma NoShift(n: int, e: int)
    requires e == 0
    ensures Shift(n, e) == n as real
  {
    assert Power10(0) == 1;
  }

  lemma WholeMantissa(digits: string)
    requires AllDigits(digits)
    ensures ParseMantissa(digits) == Some((DigitsValue(digits), 0))
  {
    DigitsAreGroup(digits);
    assert digits + [] == digits;
    TakeUntilStop(digits, [], IsDot);
    assert Bare(digits) + Bare([]) == digits;
  }

  predicate NumberChar(c: char) {
    IsDigit(c) || c == '-' || c == '.'
  }

  lemma MagnitudeChars(m: nat)
    ensures FormatMagnitude(m) != [] && forall i | 0 <= i < |FormatMagnitude(m)| :: NumberChar(FormatMagnitude(m)[i])
  {
    DigitsRoundTrip(m / UNIT);
    assert Power10(5) == UNIT;
    FixedDigitsRoundTrip(m % UNIT, 5);
  }

  lemma FixedChars(v: int)
    ensures FormatFixed(v) != [] && forall i | 0 <= i < |FormatFixed(v)| :: NumberChar(FormatFixed(v)[i])
  {
    MagnitudeChars(Magnitude(v));
  }

  lemma DigitsChars(n: nat)
    ensures Digits(n) != [] && forall i | 0 <= i < |Digits(n)| :: NumberChar(Digits(n)[i])
  {
    DigitsRoundTrip(n);
  }

  // ---------- Other spellings ----------

  lemma PowersOfTen(k: nat)
    ensures Power10(0) == 1 && Power10(k + 1) == 10 * Power10(k)
  {
  }

  /** Digits before and after a point, however many: the digits together, over ten for each place. */
  lemma PlacesParse(s: string, negative: bool, whole: string, fraction: string)
    requires Signs(s, negative, whole + "." + fraction) && AllDigits(whole) && AllDigits(fraction)
    ensures AllDigits(whole + fraction)
    ensures var n := if negative then 0 - DigitsValue(whole + fraction) else DigitsValue(whole + fraction);
      ParseNumber(s) == Some(Finite(n as real / Power10(|fraction|) as real))
  {
    var body, places := whole + "." + fraction, |fraction|;
    PartsParse(whole, fraction);
    PointIsNumber(whole, fraction);
    NoExponent(body);
    var n := WithSign(negative, DigitsValue(whole + fraction));
    ShiftedRight(n, places);
    PlainReads(body, DigitsValue(whole + fraction), places, 0 - places);
    NumberParses(s, negative, body, DigitsValue(whole + fraction), 0 - places, n as real / Power10(places) as real);
  }

  lemma PointIsNumber(whole: string, fraction: string)
    requires AllDigits(whole) && AllDigits(fraction)
    ensures var body := whole + "." + fraction;
      body != [] && IsDigit(body[0]) && forall i | 0 <= i < |body| :: NumberChar(body[i])
  {
    assert (whole + "." + fraction)[0] == whole[0];
  }

  function Scaled(n: int, down: bool, k: nat): real {
    if down then n as real / Power10(k) as real else (n * Power10(k)) as real
  }

  /** A whole number with an exponent is that many times ten, or that many times a tenth. */
  lemma ExponentParses(s: string, negative: bool, body: string, digits: string, mark: string, tail: string,
                       down: bool, exponent: string, k: nat)
    requires Signs(s, negative, body) && body == digits + mark + tail && AllDigits(digits)
    requires mark == "e" || mark == "E"
    requires Signs(tail, down, exponent) && AllDigits(exponent) && DigitsValue(exponent) == k
    ensures ParseNumber(s) == Some(Finite(Scaled(WithSign(negative, DigitsValue(digits)), down, k)))
  {
    ExponentIsRead(body, digits, mark, tail, down, exponent, k);
    ExponentReads(s, negative, body, DigitsValue(digits), down, k);
  }

  lemma ExponentIsRead(body: string, digits: string, mark: string, tail: string, down: bool, exponent: string, k: nat)
    requires body == digits + mark + tail && AllDigits(digits) && (mark == "e" || mark == "E")
    requires Signs(tail, down, exponent) && AllDigits(exponent) && DigitsValue(exponent) == k
    ensures body != [] && IsDigit(body[0]) && ParseScientific(body) == Some((DigitsValue(digits), WithSign(down, k)))
  {
    WholeMantissa(digits);
    MarkSplits(digits, mark, tail);
    SignedIntParses(tail, down, exponent);
    MarkedReads(body, digits, DigitsValue(digits), WithSign(down, k));
  }

  lemma ExponentReads(s: string, negative: bool, body: string, m: int, down: bool, k: nat)
    requires Signs(s, negative, body) && body != [] && IsDigit(body[0])
    requires ParseScientific(body) == Some((m, WithSign(down, k)))
    ensures ParseNumber(s) == Some(Finite(Scaled(WithSign(negative, m), down, k)))
  {
    var n := WithSign(negative, m);
    ShiftedLeft(n, k);
    ShiftedRight(n, k);
    NumberParses(s, negative, body, m, WithSign(down, k), Scaled(n, down, k));
  }

  lemma MarkSplits(digits: string, mark: string, exponent: string)
    requires AllDigits(digits) && (mark == "e" || mark == "E")
    ensures TakeUntil(digits + mark + exponent, IsExponentMark) == digits
    ensures (digits + mark + exponent)[|digits| + 1..] == exponent
    ensures (digits + mark + exponent)[0] == digits[0]
  {
    assert digits + mark + exponent == digits + (mark + exponent);
    TakeUntilStop(digits, mark + exponent, IsExponentMark);
  }

  /** The words for what is not finite, in any case and with any sign. */
  lemma WordsParse(body: string)
    requires body != [] && body[0] != '+' && body[0] != '-'
    ensures Lower(body) == "inf" || Lower(body) == "infinity" ==>
              ParseNumber(body) == Some(Infinite(false)) && ParseNumber("-" + body) == Some(Infinite(true))
    ensures Lower(body) == "nan" ==>
              ParseNumber(body) == Some(NotANumber) && ParseNumber("+" + body) == Some(NotANumber)
  {
    assert ("-" + body)[1..] == body && ("+" + body)[1..] == body;
  }

  lemma {:induction false} BareConcat(a: string, b: string)
    ensures Bare(a + b) == Bare(a) + Bare(b)
    decreases |b|
  {
    if b == [] {
      assert a + b == a;
    } else {
      assert (a + b)[..|a + b| - 1] == a + b[..|b| - 1];
      BareConcat(a, b[..|b| - 1]);
    }
  }

  /** One underscore between two groups of digits is read over. */
  lemma UnderscoreIsReadOver(a: string, b: string)
    requires AllDigits(a) && AllDigits(b)
    ensures AllDigits(a + b) && ParseInt(a + "_" + b) == Some(DigitsValue(a + b))
  {
    var text := a + "_" + b;
    assert text[0] == a[0] && text[|text| - 1] == b[|b| - 1];
    BareSkips(a, b);
    UnderscoreGroup(a, b);
  }

  lemma BareSkips(a: string, b: string)
    requires AllDigits(a) && AllDigits(b)
    ensures Bare(a + "_" + b) == a + b
  {
    DigitsAreBare(a);
    DigitsAreBare(b);
    BareConcat(a + "_", b);
    assert (a + "_")[..|a + "_"| - 1] == a;
    assert a + [] == a;
  }

  lemma UnderscoreGroup(a: string, b: string)
    requires AllDigits(a) && AllDigits(b)
    ensures DigitGroup(a + "_" + b)
  {
    var text := a + "_" + b;
    assert text[0] == a[0] && text[|text| - 1] == b[|b| - 1];
    assert forall i | 0 <= i < |text| && i != |a| :: IsDigit(text[i]);
  }

  /** At either end, or twice together, it is not allowed. */
  lemma MisplacedUnderscores(a: string, b: string)
    requires AllDigits(a) && AllDigits(b)
    ensures ParseInt("_" + a) == None && ParseInt(a + "_") == None && ParseInt(a + "__" + b) == None
  {
    var twice := a + "__" + b;
    assert ("_" + a)[0] == '_';
    assert twice[|a|] == '_' && twice[|a| + 1] == '_' && twice[0] == a[0];
    assert (a + "_")[|a|] == '_' && (a + "_")[0] == a[0];
  }
}
