/** Decimal text <-> number conversions used by the storefront: `String(n)`
    for the order-id timestamp, `parseFloat` on a price that has been reduced
    to digits and dots, and `Number.prototype.toFixed(2)` for the amount.
    Numbers are exact reals; binary floating point is not modelled. */
module Decimal {
  import opened JsString
  import opened Optional

  function DigitChar(d: nat): (c: char)
    requires d < 10
    ensures IsDigit(c)
  {
    ('0' as int + d) as char
  }

  function DigitValue(c: char): (d: nat)
    requires IsDigit(c)
    ensures d < 10
  {
    c as int - '0' as int
  }

  /** The value of a string of decimal digits, most significant first. */
  function DigitsValue(s: string): nat
    requires AllDigits(s)
  {
    if |s| == 0 then 0 else DigitsValue(s[..|s| - 1]) * 10 + DigitValue(s[|s| - 1])
  }

  /** `String(n)` for a non-negative integer: its shortest decimal spelling. */
  function NatToDecimal(n: nat): (r: string)
    ensures |r| > 0 && AllDigits(r)
    ensures DigitsValue(r) == n
    ensures |r| == 1 || r[0] != '0'
  {
    if n < 10 then [DigitChar(n)]
    else
      var r := NatToDecimal(n / 10) + [DigitChar(n % 10)];
      assert r[..|r| - 1] == NatToDecimal(n / 10);
      r
  }

  /** Length of the run of digits at the start of `s`. */
  function DigitRun(s: string): (n: nat)
    ensures n <= |s| && AllDigits(s[..n])
    ensures n == |s| || !IsDigit(s[n])
  {
    if |s| == 0 || !IsDigit(s[0]) then 0
    else
      var n := 1 + DigitRun(s[1..]);
      assert s[..n] == [s[0]] + s[1..][..n - 1];
      n
  }

  /** A leading run of digits followed by a non-digit is exactly what
      `DigitRun` measures. */
  lemma {:induction false} DigitRunOf(w: string, rest: string)
    requires AllDigits(w)
    requires rest == "" || !IsDigit(rest[0])
    ensures DigitRun(w + rest) == |w|
  {
    if |w| == 0 {
      assert w + rest == rest;
    } else {
      assert (w + rest)[1..] == w[1..] + rest;
      DigitRunOf(w[1..], rest);
    }
  }

  /** `parseFloat` on a string of digits and dots, which is all `parsePrice`
      ever hands it: the longest prefix of the form `digits [. digits]`
      containing at least one digit, or `None` (NaN) when there is none. */
  function ParseFloat(s: string): (r: Option<real>)
    ensures r.Some? ==> r.value >= 0.0
    ensures r.None? <==> (s == "" || !IsDigit(s[0])) && (|s| < 2 || s[0] != '.' || !IsDigit(s[1]))
  {
    var n := DigitRun(s);
    ReadNumber(s[..n], s[n..])
  }

  /** The number read from a leading digit run `w` and the text `rest`
      after it: a dot and a fraction may follow, and at least one digit
      must be present on either side of the dot. */
  function ReadNumber(w: string, rest: string): (r: Option<real>)
    requires AllDigits(w)
    ensures r.Some? ==> r.value >= 0.0
  {
    if |rest| > 0 && rest[0] == '.' then
      if |w| == 0 && DigitRun(rest[1..]) == 0 then None
      else Some(DigitsValue(w) as real + Fraction(rest[1..]))
    else if |w| == 0 then None
    else Some(DigitsValue(w) as real)
  }

  /** The part after the dot: the leading digits of `t` read as a decimal
      fraction, `0.d1d2...` = `(d1 + 0.d2...) / 10`. */
  function Fraction(t: string): (v: real)
    ensures 0.0 <= v < 1.0
  {
    if |t| == 0 || !IsDigit(t[0]) then 0.0
    else (DigitValue(t[0]) as real + Fraction(t[1..])) / 10.0
  }

  /** The integer `n` such that `x.toFixed(2)` spells `n / 100`: the `n`
      for which `n / 100 - x` is closest to zero, the larger one on a tie. */
  function Cents(x: real): (n: nat)
    requires x >= 0.0
    ensures x * 100.0 - 0.5 < n as real <= x * 100.0 + 0.5
  {
    (x * 100.0 + 0.5).Floor
  }

  /** `x.toFixed(2)` for a non-negative `x` below 10^21. */
  function ToFixed2(x: real): (r: string)
    requires x >= 0.0
    ensures |r| >= 4 && r[|r| - 3] == '.'
    ensures AllDigits(r[..|r| - 3]) && AllDigits(r[|r| - 2..])
    ensures '|' !in r
  {
    var n := Cents(x);
    var r := NatToDecimal(n / 100) + "." + [DigitChar(n % 100 / 10), DigitChar(n % 10)];
    assert r[..|r| - 3] == NatToDecimal(n / 100);
    assert forall i :: 0 <= i < |r| ==> IsDigit(r[i]) || r[i] == '.';
    r
  }

  /** Reading a `toFixed(2)` string back with `parseFloat` gives exactly the
      rounded amount, within half a cent of the original. */
  lemma ToFixed2RoundTrip(x: real)
    requires x >= 0.0
    ensures ParseFloat(ToFixed2(x)) == Some(Cents(x) as real / 100.0)
    ensures -0.005 < Cents(x) as real / 100.0 - x <= 0.005
  {
    var n := Cents(x);
    var w := NatToDecimal(n / 100);
    var f := [DigitChar(n % 100 / 10), DigitChar(n % 10)];
    assert ToFixed2(x) == w + "." + f;
    ParseFixedPoint(w, f);
    CentsSplit(n);
    FractionOfCents(n % 100);
  }

  /** `parseFloat` reads `w.f`, for a non-empty digit string `w`, as `w`
      plus the fraction `f` spells. */
  lemma ParseFixedPoint(w: string, f: string)
    requires |w| > 0 && AllDigits(w)
    ensures ParseFloat(w + "." + f) == Some(DigitsValue(w) as real + Fraction(f))
  {
    SplitAtDot(w, f);
    ReadDotted(w, f);
  }

  /** A non-empty digit run followed by a dot reads as the run plus the
      fraction after the dot. */
  lemma ReadDotted(w: string, t: string)
    requires |w| > 0 && AllDigits(w)
    ensures ReadNumber(w, "." + t) == Some(DigitsValue(w) as real + Fraction(t))
  {
    assert ("." + t)[1..] == t;
  }

  /** In `w.f` the leading digit run is `w`, then the dot and `f`. */
  lemma SplitAtDot(w: string, f: string)
    requires AllDigits(w)
    ensures ParseFloat(w + "." + f) == ReadNumber(w, "." + f)
  {
    var s := w + "." + f;
    assert s == w + ("." + f);
    DigitRunOf(w, "." + f);
  }

  /** The two digits `toFixed(2)` writes after the dot are `m` hundredths. */
  lemma FractionOfCents(m: nat)
    requires m < 100
    ensures Fraction([DigitChar(m / 10), DigitChar(m % 10)]) == m as real / 100.0
  {
    var f := [DigitChar(m / 10), DigitChar(m % 10)];
    assert f[1..] == [DigitChar(m % 10)];
    assert f[1..][1..] == "";
    assert DigitValue(f[0]) == m / 10;
    assert Fraction(f[1..]) == (m % 10) as real / 10.0;
    assert m == (m / 10) * 10 + m % 10;
  }

  /** The cents split into whole units and the two digits after the dot. */
  lemma CentsSplit(n: nat)
    ensures (n / 100) as real + (n % 100) as real / 100.0 == n as real / 100.0
    ensures n % 10 == (n % 100) % 10
  {
    CentsUnits(n / 100, n % 100);
    LastDigit(n / 100, n % 100);
  }

  lemma CentsUnits(q: nat, r: nat)
    ensures q as real + r as real / 100.0 == (100 * q + r) as real / 100.0
  {
  }

  lemma LastDigit(q: nat, r: nat)
    requires r < 100
    ensures (100 * q + r) % 10 == r % 10
  {
    var a, b := r / 10, r % 10;
    assert 100 * q + r == 10 * (10 * q + a) + b;
  }

  /** A single course at 49.99 is sent as "49.99". */
  lemma ToFixed2Example()
    ensures ToFixed2(49.99) == "49.99"
  {
    assert Cents(49.99) == 4999;
    assert NatToDecimal(4) == "4";
    assert NatToDecimal(49) == "49";
  }
}
