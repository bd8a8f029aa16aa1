/**
 * The part of JavaScript's number parsing the frontend depends on, over
 * decimal text: `parseInt(s, 10)`, `parseFloat(s)` and the `Number(s)`
 * conversion that `isNaN(s)` and `s < 18` apply to a string. NaN is `None`.
 * Leading white space, exponents, `Infinity` and hexadecimal text are not
 * part of this model.
 */
module Numbers {
  import opened Wrappers

  predicate IsDigit(c: char) {
    '0' <= c <= '9'
  }

  predicate AllDigits(s: string) {
    forall i :: 0 <= i < |s| ==> IsDigit(s[i])
  }

  function DigitValue(c: char): (d: nat)
    requires IsDigit(c)
    ensures d < 10
  {
    c as int - '0' as int
  }

  function DigitChar(d: nat): (c: char)
    requires d < 10
    ensures IsDigit(c) && DigitValue(c) == d
  {
    ('0' as int + d) as char
  }

  /** The value of a run of decimal digits, most significant digit first. */
  function DigitsValue(s: string): nat
    requires AllDigits(s)
    decreases |s|
  {
    if s == [] then 0 else 10 * DigitsValue(s[..|s| - 1]) + DigitValue(s[|s| - 1])
  }

  function Pow10(n: nat): (p: nat)
    ensures p >= 1
  {
    if n == 0 then 1 else 10 * Pow10(n - 1)
  }

  /** The decimal text of `n`, without leading zeros (`String(n)`). */
  function DecimalString(n: nat): (s: string)
    ensures s != [] && AllDigits(s)
    ensures IsDigit(s[0])
  {
    if n < 10 then [DigitChar(n)] else DecimalString(n / 10) + [DigitChar(n % 10)]
  }

  /** Reading back the decimal text of `n` gives `n`. */
  lemma {:induction false} DecimalStringValue(n: nat)
    ensures DigitsValue(DecimalString(n)) == n
  {
    if n >= 10 {
      var s := DecimalString(n);
      assert s[..|s| - 1] == DecimalString(n / 10);
      DecimalStringValue(n / 10);
    }
  }

  /** The length of the longest prefix of `s` made of decimal digits. */
  function DigitRun(s: string): (k: nat)
    ensures k <= |s| && AllDigits(s[..k])
    ensures k < |s| ==> !IsDigit(s[k])
  {
    if s != [] && IsDigit(s[0]) then
      var k := 1 + DigitRun(s[1..]);
      assert s[..k] == [s[0]] + s[1..][..k - 1];
      k
    else
      0
  }

  lemma {:induction false} DigitRunOfDigits(s: string, rest: string)
    requires AllDigits(s)
    requires rest == [] || !IsDigit(rest[0])
    ensures DigitRun(s + rest) == |s|
    decreases |s|
  {
    if s != [] {
      assert (s + rest)[1..] == s[1..] + rest;
      DigitRunOfDigits(s[1..], rest);
    } else {
      assert s + rest == rest;
    }
  }

  /** 1 when `s` starts with a sign character, 0 otherwise. */
  function SignLength(s: string): (k: nat)
    ensures k <= |s|
  {
    if |s| > 0 && (s[0] == '+' || s[0] == '-') then 1 else 0
  }

  function Negated(s: string): bool {
    SignLength(s) == 1 && s[0] == '-'
  }

  /**
   * `parseInt(s, 10)`: an optional sign, then the longest run of digits;
   * NaN when that run is empty. Text after the run is ignored.
   */
  function ParseInt(s: string): (r: Option<int>)
    ensures r.None? <==> DigitRun(s[SignLength(s)..]) == 0
    ensures r.Some? && !Negated(s) ==> r.value >= 0
  {
    var k := SignLength(s);
    var n := DigitRun(s[k..]);
    if n == 0 then None
    else
      var v: int := DigitsValue(s[k..][..n]);
      Some(if Negated(s) then -v else v)
  }

  /**
   * Text that starts with neither a sign, a digit nor a point, such as
   * "undefined", reads as NaN under both `parseInt` and `parseFloat`.
   */
  lemma NotANumber(s: string)
    requires |s| > 0 && !IsDigit(s[0]) && s[0] !in {'+', '-', '.'}
    ensures ParseInt(s).None? && ParseFloat(s).None?
  {
    assert SignLength(s) == 0 && s[0..] == s;
  }

  /** `parseInt` reads back the decimal text of `n`, whatever non-digit text follows it. */
  lemma ParseIntDecimal(n: nat, rest: string)
    requires rest == [] || !IsDigit(rest[0])
    ensures ParseInt(DecimalString(n) + rest) == Some(n)
  {
    var d := DecimalString(n);
    var s := d + rest;
    assert SignLength(s) == 0 && s[0..] == s;
    DigitRunOfDigits(d, rest);
    assert s[0..][..|d|] == d;
    DecimalStringValue(n);
  }

  /** The value of the digits after a decimal point. */
  function Fraction(s: string): (f: real)
    requires AllDigits(s)
    ensures 0.0 <= f
  {
    DigitsValue(s) as real / Pow10(|s|) as real
  }

  /**
   * The longest prefix of `s` that reads as a decimal number: an optional
   * sign, digits, and an optional point with more digits, at least one digit
   * in all. Gives the value and the length of that prefix.
   */
  function DecimalPrefix(s: string): (r: Option<(real, nat)>)
    ensures r.Some? ==> r.value.1 <= |s|
  {
    var k := SignLength(s);
    var t := s[k..];
    var i := DigitRun(t);
    var whole := DigitsValue(t[..i]) as real;
    var magnitude: Option<(real, nat)> :=
      if i < |t| && t[i] == '.' then
        var f := DigitRun(t[i + 1..]);
        if i == 0 && f == 0 then None
        else Some((whole + Fraction(t[i + 1..][..f]), k + i + 1 + f))
      else if i == 0 then None
      else Some((whole, k + i));
    match magnitude
    case None => None
    case Some((v, n)) => Some((if Negated(s) then -v else v, n))
  }

  /** `parseFloat(s)`: the value of the longest decimal prefix; NaN when there is none. */
  function ParseFloat(s: string): (r: Option<real>)
    ensures r.None? <==> DecimalPrefix(s).None?
  {
    match DecimalPrefix(s)
    case None => None
    case Some((v, _)) => Some(v)
  }

  /**
   * `Number(s)`: the empty text is 0; otherwise the whole text must read as
   * a decimal number, or the result is NaN.
   */
  function StringToNumber(s: string): (r: Option<real>)
    ensures s != [] && r.Some? ==> ParseFloat(s) == r
  {
    if s == [] then Some(0.0)
    else
      match DecimalPrefix(s)
      case Some((v, n)) => if n == |s| then Some(v) else None
      case None => None
  }

  /** `parseFloat` and `Number` both read the decimal text of `n` as `n`. */
  lemma DecimalNumber(n: nat)
    ensures ParseFloat(DecimalString(n)) == Some(n as real)
    ensures StringToNumber(DecimalString(n)) == Some(n as real)
  {
    var s := DecimalString(n);
    assert SignLength(s) == 0 && s[0..] == s;
    assert s + [] == s;
    DigitRunOfDigits(s, []);
    assert s[..|s|] == s;
    DecimalStringValue(n);
  }

  /** Restates the value `PointedAt` gives through the parts its slices equal. */
  lemma PointedValue(s: string, w: string, ds: string, i: nat, f: nat)
    requires AllDigits(w) && AllDigits(ds) && i + 1 + f <= |s|
    requires s[0..][..i] == w && s[0..][i + 1..][..f] == ds
    requires DecimalPrefix(s) ==
      Some((DigitsValue(s[0..][..i]) as real + Fraction(s[0..][i + 1..][..f]), i + 1 + f))
    ensures DecimalPrefix(s) == Some((DigitsValue(w) as real + Fraction(ds), i + 1 + f))
  {
  }

  /** The digit runs of `w + "." + ds + rest` and the parts they cover. */
  lemma PointedSlices(w: string, ds: string, rest: string)
    requires w != [] && AllDigits(w) && AllDigits(ds)
    requires rest == [] || !IsDigit(rest[0])
    ensures var s := w + "." + ds + rest;
      && SignLength(s) == 0 && DigitRun(s[0..]) == |w| && s[0..][|w|] == '.'
      && DigitRun(s[0..][|w| + 1..]) == |ds|
      && s[0..][..|w|] == w && s[0..][|w| + 1..][..|ds|] == ds
  {
    var s := w + "." + ds + rest;
    PointedParts(w, ds, rest);
    var u := s[0..];
    DigitRunPrefix(u, |w|);
    var t := u[|w| + 1..];
    DigitRunPrefix(t, |ds|);
    assert t[..|ds|] == ds;
  }

  /**
   * The decimal prefix of unsigned text `s` whose digit run of length
   * `i > 0` is followed by a point and a digit run of length `f`.
   */
  lemma PointedAt(s: string, i: nat, f: nat)
    requires SignLength(s) == 0
    requires 0 < i < |s| && DigitRun(s[0..]) == i && s[0..][i] == '.'
    requires DigitRun(s[0..][i + 1..]) == f
    ensures DecimalPrefix(s) ==
      Some((DigitsValue(s[0..][..i]) as real + Fraction(s[0..][i + 1..][..f]), i + 1 + f))
  {
  }

  /** Where the whole digits, the point and the rest lie in `w + "." + ds + rest`. */
  lemma PointedParts(w: string, ds: string, rest: string)
    requires w != [] && AllDigits(w)
    ensures SignLength(w + "." + ds + rest) == 0
    ensures (w + "." + ds + rest)[0..][..|w|] == w
    ensures (w + "." + ds + rest)[0..][|w|] == '.'
    ensures (w + "." + ds + rest)[0..][|w| + 1..] == ds + rest
  {
    assert (w + "." + ds + rest)[0] == w[0];
  }

  /** When `s` starts with `k` digits and no digit follows them, the digit run of `s` is `k` long. */
  lemma DigitRunPrefix(s: string, k: nat)
    requires k <= |s| && AllDigits(s[..k]) && (k == |s| || !IsDigit(s[k]))
    ensures DigitRun(s) == k
  {
    assert s == s[..k] + s[k..];
    DigitRunOfDigits(s[..k], s[k..]);
  }

  /**
   * `parseFloat` reads the decimal text of `n`, a point and fraction digits
   * as `n` plus the fraction, whatever non-digit text follows; with nothing
   * after the digits, `Number` reads the same value.
   */
  lemma DecimalFraction(n: nat, ds: string, rest: string)
    requires AllDigits(ds)
    requires rest == [] || !IsDigit(rest[0])
    ensures ParseFloat(DecimalString(n) + "." + ds + rest) == Some(n as real + Fraction(ds))
    ensures rest == [] ==> StringToNumber(DecimalString(n) + "." + ds + rest) == Some(n as real + Fraction(ds))
  {
    var d := DecimalString(n);
    var s := d + "." + ds + rest;
    PointedSlices(d, ds, rest);
    PointedAt(s, |d|, |ds|);
    PointedValue(s, d, ds, |d|, |ds|);
    DecimalStringValue(n);
  }
}
