/**
 * JavaScript's `Number(x)` applied to a query-string value, and
 * `n.toString()` for an integer, restricted to decimal integers.
 */
module JsNumber {
  import opened Wrappers
  import opened Text

  /** The outcome of `Number(...)`: not-a-number, or an integer value. */
  datatype Number = NaN | Int(value: int)

  /** A decimal digit character. */
  predicate IsDigit(c: char) {
    '0' <= c <= '9'
  }

  /** A non-empty run of decimal digits. */
  predicate IsDigits(s: string) {
    |s| > 0 && forall i :: 0 <= i < |s| ==> IsDigit(s[i])
  }

  /** The decimal value of a digit string, most significant digit first. */
  function DigitsValue(s: string): nat
    requires forall i :: 0 <= i < |s| ==> IsDigit(s[i])
  {
    if s == [] then 0
    else
      var last := s[|s| - 1];
      assert IsDigit(last);
      DigitsValue(s[..|s| - 1]) * 10 + (last as int - '0' as int)
  }

  /** A sign followed by a non-empty run of digits. */
  predicate IsSigned(t: string, sign: char) {
    |t| > 1 && t[0] == sign && IsDigits(t[1..])
  }

  /** The texts `Number` reads as an integer once trimmed: empty, digits,
      or signed digits. */
  predicate IsNumeral(t: string) {
    t == [] || IsDigits(t) || IsSigned(t, '+') || IsSigned(t, '-')
  }

  /** The shortest decimal digit string of `n`. */
  function Digits(n: nat): (s: string)
    ensures IsDigits(s)
    ensures s[0] == '0' ==> n == 0 && |s| == 1
  {
    if n < 10 then ["0123456789"[n]]
    else Digits(n / 10) + ["0123456789"[n % 10]]
  }

  /** `n.toString()` for an integer. */
  function IntToString(n: int): (s: string)
    ensures s != [] && IsTrimmed(s)
    ensures n >= 0 ==> IsDigits(s) && (s[0] == '0' ==> |s| == 1)
    ensures n < 0 ==> |s| >= 2 && s[0] == '-' && IsDigits(s[1..]) && s[1] != '0'
  {
    if n < 0 then "-" + Digits(-n) else Digits(n)
  }

  /** `Number(v)`: `null` and blank text are 0; otherwise an optionally
      signed run of decimal digits between whitespace; anything else NaN. */
  function ToNumber(v: Option<string>): (r: Number)
    ensures v.None? ==> r == Int(0)
    ensures v.Some? && AllSpace(v.value) ==> r == Int(0)
    ensures v.Some? && IsDigits(Trim(v.value)) ==> r == Int(DigitsValue(Trim(v.value)))
    ensures v.Some? && IsSigned(Trim(v.value), '+') ==> r == Int(DigitsValue(Trim(v.value)[1..]))
    ensures v.Some? && IsSigned(Trim(v.value), '-') ==> r == Int(-(DigitsValue(Trim(v.value)[1..]) as int))
    ensures r.NaN? <==> v.Some? && !IsNumeral(Trim(v.value))
  {
    match v
    case None => Int(0)
    case Some(s) =>
      BlankTrimsToEmpty(s);
      TrimmedToNumber(Trim(s))
  }

  /** Blank text trims to nothing. */
  lemma BlankTrimsToEmpty(s: string)
    ensures AllSpace(s) ==> Trim(s) == ""
  {
    if AllSpace(s) {
      assert s == s + "" + "";
      TrimFramed(s, "", "");
    }
  }

  /** `Number` of a text without surrounding whitespace. */
  function TrimmedToNumber(t: string): (r: Number)
    ensures t == [] ==> r == Int(0)
    ensures IsDigits(t) ==> r == Int(DigitsValue(t))
    ensures IsSigned(t, '+') ==> r == Int(DigitsValue(t[1..]))
    ensures IsSigned(t, '-') ==> r == Int(-(DigitsValue(t[1..]) as int))
    ensures r.NaN? <==> !IsNumeral(t)
  {
    if t == [] then Int(0)
    else if IsDigits(t) then Int(DigitsValue(t))
    else if t[0] == '+' && IsDigits(t[1..]) then Int(DigitsValue(t[1..]))
    else if t[0] == '-' && IsDigits(t[1..]) then Int(-(DigitsValue(t[1..]) as int))
    else NaN
  }

  /** Whitespace around the text does not change its number. */
  lemma ToNumberIgnoresFraming(p: string, t: string, q: string)
    requires AllSpace(p) && AllSpace(q) && IsTrimmed(t)
    ensures ToNumber(Some(p + t + q)) == ToNumber(Some(t))
  {
    TrimFramed(p, t, q);
    TrimTrimmed(t);
  }

  /** Reading back the digits of `n` gives `n`. */
  lemma {:induction false} DigitsRoundTrip(n: nat)
    ensures DigitsValue(Digits(n)) == n
  {
    if n >= 10 {
      DigitsRoundTrip(n / 10);
      var s := Digits(n);
      assert s[..|s| - 1] == Digits(n / 10);
    }
  }

  /** A minus sign before digits reads as the negated digits. */
  lemma NegativeValue(d: string)
    requires IsDigits(d)
    ensures IsTrimmed("-" + d)
    ensures TrimmedToNumber("-" + d) == Int(-(DigitsValue(d) as int))
  {
    var s := "-" + d;
    assert s[1..] == d;
    assert s[|s| - 1] == d[|d| - 1];
    assert IsDigit(d[|d| - 1]);
    assert !IsDigits(s) by { assert !IsDigit(s[0]); }
  }

  /** The same, through the whitespace trim of `Number`. */
  lemma ToNumberOfNegative(d: string)
    requires IsDigits(d)
    ensures ToNumber(Some("-" + d)) == Int(-(DigitsValue(d) as int))
  {
    NegativeValue(d);
    TrimTrimmed("-" + d);
  }

  /** `IntToStringRoundTrip` for negative numbers. */
  lemma RoundTripNeg(n: int)
    requires n < 0
    ensures ToNumber(Some(IntToString(n))) == Int(n)
  {
    DigitsRoundTrip(-n);
    ToNumberOfNegative(Digits(-n));
    assert IntToString(n) == "-" + Digits(-n);
  }

  /** `IntToStringRoundTrip` for zero and positive numbers. */
  lemma RoundTripNonNeg(n: int)
    requires n >= 0
    ensures ToNumber(Some(IntToString(n))) == Int(n)
  {
    var s := IntToString(n);
    TrimTrimmed(s);
    DigitsRoundTrip(n);
    assert s == Digits(n);
    assert TrimmedToNumber(s) == Int(DigitsValue(s));
    assert ToNumber(Some(s)) == TrimmedToNumber(s);
  }

  /** `Number(String(n)) === n` for every integer `n`. */
  lemma IntToStringRoundTrip(n: int)
    ensures ToNumber(Some(IntToString(n))) == Int(n)
  {
    if n < 0 { RoundTripNeg(n); } else { RoundTripNonNeg(n); }
  }
}
