/** Text forms of numbers that the pipeline relies on: reading a number out of
    a string (what `float(s)` does for plain decimal strings), writing a
    natural number in decimal (what `str(n)` / `{n}` does), and writing a
    number with two decimals (what the `.2f` format specifier does). */
module NumberText {
  import opened Wrappers

  predicate IsDigit(c: char) { '0' <= c <= '9' }

  function DigitValue(c: char): (d: nat)
    requires IsDigit(c)
    ensures d < 10
  {
    c as int - '0' as int
  }

  function DigitChar(d: nat): (c: char)
    requires d < 10
    ensures IsDigit(c) && DigitValue(c) == d
  {
    ('0' as int + d) as char
  }

  predicate AllDigits(s: string) {
    forall i :: 0 <= i < |s| ==> IsDigit(s[i])
  }

  /** The natural number a string of decimal digits denotes (most significant first). */
  function DigitsValue(s: string): nat
    requires AllDigits(s)
  {
    if s == [] then 0 else 10 * DigitsValue(s[..|s| - 1]) + DigitValue(s[|s| - 1])
  }

  /** `v` divided by 10 raised to `k`. */
  function Shift(v: real, k: nat): real {
    if k == 0 then v else Shift(v, k - 1) / 10.0
  }

  /** Position of the first '.', or |s| when there is none. */
  function FindDot(s: string): (i: nat)
    ensures i <= |s|
    ensures i < |s| ==> s[i] == '.'
    ensures forall j :: 0 <= j < i ==> s[j] != '.'
  {
    if s == [] then 0 else if s[0] == '.' then 0 else 1 + FindDot(s[1..])
  }

  /** The number that a whole part and a fraction part denote, when both are
      digits and not both empty: "12" and "34" denote 1234 / 100. */
  function ParseParts(whole: string, fraction: string): Option<real> {
    var digits := whole + fraction;
    if AllDigits(digits) && |digits| > 0 then
      Some(Shift(DigitsValue(digits) as real, |fraction|))
    else
      None
  }

  /** An unsigned decimal: digits, optionally a '.' and more digits, at least one digit in all. */
  function ParseUnsigned(s: string): Option<real> {
    var dot := FindDot(s);
    if dot < |s| then ParseParts(s[..dot], s[dot + 1..]) else ParseParts(s, [])
  }

  /** A decimal number with an optional sign, or None when `s` is not one. */
  function ParseNumber(s: string): Option<real> {
    if |s| > 0 && s[0] == '-' then
      match ParseUnsigned(s[1..])
      case Some(v) => Some(-v)
      case None => None
    else if |s| > 0 && s[0] == '+' then ParseUnsigned(s[1..])
    else ParseUnsigned(s)
  }

  /** The decimal form of `n`, without leading zeros. */
  function DecimalString(n: nat): (s: string)
    ensures |s| > 0 && AllDigits(s)
    ensures s[0] == '0' ==> n == 0
  {
    if n < 10 then [DigitChar(n)] else DecimalString(n / 10) + [DigitChar(n % 10)]
  }

  /** Rounds a non-negative real to the nearest integer, ties to the even one. */
  function RoundHalfEven(y: real): (k: nat)
    requires y >= 0.0
    ensures y - 0.5 <= k as real <= y + 0.5
    ensures (k as real - y == 0.5 || y - k as real == 0.5) ==> k % 2 == 0
  {
    var f := y.Floor;
    var d := y - f as real;
    if d > 0.5 then f + 1
    else if d < 0.5 then f
    else if f % 2 == 0 then f
    else f + 1
  }

  function Abs(x: real): real { if x < 0.0 then -x else x }

  /** The number of hundredths that `x` shows with two decimals, ignoring the sign. */
  function Cents(x: real): nat {
    RoundHalfEven(Abs(x) * 100.0)
  }

  /** The value that `x` shows with two decimals. */
  function Round2(x: real): real {
    (if x < 0.0 then -1.0 else 1.0) * Cents(x) as real / 100.0
  }

  /** `x` written with exactly two decimals; a negative `x` keeps its '-' even when it rounds to zero. */
  function Fixed2(x: real): string {
    (if x < 0.0 then "-" else "") + CentsText(Cents(x))
  }

  // ---------------------------------------------------------------------------
  // Round trips

  lemma {:induction false} DigitsValueOfDecimal(n: nat)
    ensures DigitsValue(DecimalString(n)) == n
  {
    var s := DecimalString(n);
    if n >= 10 {
      var t := DecimalString(n / 10);
      assert s == t + [DigitChar(n % 10)];
      assert s[..|s| - 1] == t;
      DigitsValueOfDecimal(n / 10);
    }
  }

  lemma FindDotAfterDigits(w: string, rest: string)
    requires AllDigits(w)
    ensures FindDot(w + rest) == |w| + FindDot(rest)
  {
    if w != [] {
      assert (w + rest)[0] == w[0] && IsDigit(w[0]);
      assert (w + rest)[1..] == w[1..] + rest;
      FindDotAfterDigits(w[1..], rest);
    } else {
      assert w + rest == rest;
    }
  }

  lemma ParseDigits(w: string)
    requires |w| > 0 && AllDigits(w)
    ensures ParseUnsigned(w) == Some(DigitsValue(w) as real)
  {
    FindDotAfterDigits(w, []);
    assert w + [] == w;
    assert ParseUnsigned(w) == ParseParts(w, []);
  }

  lemma SplitAtDot(w: string, f: string)
    requires AllDigits(w)
    ensures ParseUnsigned(w + ['.'] + f) == ParseParts(w, f)
  {
    var s := w + (['.'] + f);
    assert w + ['.'] + f == s;
    FindDotAfterDigits(w, ['.'] + f);
    assert s[..|w|] == w;
    assert s[|w| + 1..] == f;
  }

  /** Reading back what `DecimalString` writes gives the number written. */
  lemma ParseDecimalString(n: nat)
    ensures ParseNumber(DecimalString(n)) == Some(n as real)
  {
    var s := DecimalString(n);
    assert IsDigit(s[0]);
    ParseDigits(s);
    DigitsValueOfDecimal(n);
  }

  lemma DigitsValueAppend2(w: string, a: char, b: char)
    requires AllDigits(w) && IsDigit(a) && IsDigit(b)
    ensures AllDigits(w + [a, b])
    ensures DigitsValue(w + [a, b]) == 100 * DigitsValue(w) + 10 * DigitValue(a) + DigitValue(b)
  {
    var s := w + [a, b];
    assert s[..|s| - 1] == w + [a];
    assert (w + [a])[..|w|] == w;
  }

  /** The unsigned text that `Fixed2` writes for `c` hundredths. */
  function CentsText(c: nat): string {
    DecimalString(c / 100) + ['.'] + [DigitChar(c % 100 / 10), DigitChar(c % 10)]
  }

  lemma ParseCentsText(c: nat)
    ensures |CentsText(c)| > 0 && IsDigit(CentsText(c)[0])
    ensures ParseUnsigned(CentsText(c)) == Some(c as real / 100.0)
  {
    var w := DecimalString(c / 100);
    var a, b := DigitChar(c % 100 / 10), DigitChar(c % 10);
    SplitAtDot(w, [a, b]);
    DigitsValueAppend2(w, a, b);
    DigitsValueOfDecimal(c / 100);
    assert DigitsValue(w + [a, b]) == c;
    assert |[a, b]| == 2;
    assert Shift(c as real, 1) == c as real / 10.0;
    assert Shift(c as real, 2) == c as real / 100.0;
  }

  /** Reading back what `Fixed2` writes gives `x` rounded to two decimals. */
  lemma ParseFixed2(x: real)
    ensures ParseNumber(Fixed2(x)) == Some(Round2(x))
  {
    var c := Cents(x);
    var body := CentsText(c);
    ParseCentsText(c);
    if x < 0.0 {
      assert Fixed2(x) == "-" + body;
      assert ("-" + body)[1..] == body;
    } else {
      assert Fixed2(x) == body;
    }
  }

  /** What `Fixed2` shows is within half a hundredth of the value. */
  lemma Round2Accuracy(x: real)
    ensures Abs(Round2(x) - x) <= 0.005
  {
    var c := Cents(x) as real;
    assert Abs(x) * 100.0 - 0.5 <= c <= Abs(x) * 100.0 + 0.5;
  }

  /** A value that is an exact number of hundredths, of either sign, is written without rounding. */
  lemma Fixed2Exact(x: real, c: int)
    requires x == c as real / 100.0
    ensures Fixed2(x) == (if c < 0 then "-" else "") + CentsText(if c < 0 then -c else c)
  {
    var m := if c < 0 then -c else c;
    assert Abs(x) * 100.0 == m as real;
    assert (m as real).Floor == m;
  }
}
