/**
 * JavaScript numbers as far as the query codec uses them: the text a number
 * is rendered to (`${n}`), `parseFloat` (the longest numeric prefix) and the
 * unary `+` applied to a string (the whole string must be numeric).
 *
 * A number is a finite decimal: a sign, a whole part and the digits after the
 * point, kept canonical (no trailing zero after the point, no negative zero).
 * Numbers are rendered here in plain decimal notation. JavaScript's
 * exponent rendering (1e+21, 1e-7), double rounding, Infinity, and the
 * hexadecimal, binary and octal literals (`0x…`, `0b…`, `0o…`) that unary `+`
 * accepts are not modelled.
 */
module Numbers {
  import opened Wrappers
  import opened Text

  datatype Decimal = Decimal(negative: bool, whole: nat, frac: string)

  predicate AllDigits(s: string) {
    forall i :: 0 <= i < |s| ==> IsDigit(s[i])
  }

  predicate IsCanonical(d: Decimal) {
    && AllDigits(d.frac)
    && (d.frac == [] || d.frac[|d.frac| - 1] != '0')
    && (d.negative ==> d.whole != 0 || d.frac != [])
  }

  type Number = d: Decimal | IsCanonical(d) witness Decimal(false, 0, "")

  const Zero: Number := Decimal(false, 0, "")

  /** A number is falsy in JavaScript exactly when it is zero (NaN is not a `Number` here). */
  predicate IsZero(n: Number) {
    n.whole == 0 && n.frac == []
  }

  function DigitChar(d: nat): (c: char)
    requires d < 10
    ensures IsDigit(c)
  {
    ('0' as int + d) as char
  }

  function DigitValue(c: char): (d: nat)
    requires IsDigit(c)
    ensures d < 10 && DigitChar(d) == c
  {
    c as int - '0' as int
  }

  /** The decimal digits of `n`, without leading zeros. */
  function NatToDigits(n: nat): (s: string)
    ensures |s| >= 1 && AllDigits(s)
  {
    if n < 10 then [DigitChar(n)] else NatToDigits(n / 10) + [DigitChar(n % 10)]
  }

  /** The natural number a string of decimal digits denotes. */
  function DigitsValue(s: string): nat
    requires AllDigits(s)
  {
    if s == [] then 0 else DigitsValue(s[..|s| - 1]) * 10 + DigitValue(s[|s| - 1])
  }

  lemma {:induction false} DigitsValueOfNat(n: nat)
    ensures DigitsValue(NatToDigits(n)) == n
  {
    var s := NatToDigits(n);
    if n >= 10 {
      assert s[..|s| - 1] == NatToDigits(n / 10);
      DigitsValueOfNat(n / 10);
    }
  }

  /** `${n}`: the JavaScript rendering of a number in plain decimal notation. */
  function Render(n: Number): (s: string)
    ensures |s| >= 1 && (IsDigit(s[0]) || s[0] == '-') && IsDigit(s[|s| - 1])
  {
    if n.negative then "-" + RenderMagnitude(n) else RenderMagnitude(n)
  }

  /** The digits of a number's magnitude, with a point before the fraction digits when there are any. */
  function RenderMagnitude(n: Number): (s: string)
    ensures |s| >= 1 && IsDigit(s[0]) && IsDigit(s[|s| - 1])
  {
    NatToDigits(n.whole) + (if n.frac == [] then "" else "." + n.frac)
  }

  /** The length of the run of digits `s` starts with. */
  function DigitRun(s: string): (k: nat)
    ensures k <= |s| && AllDigits(s[..k])
    ensures k < |s| ==> !IsDigit(s[k])
  {
    if s == [] || !IsDigit(s[0]) then 0 else 1 + DigitRun(s[1..])
  }

  lemma {:induction false} DigitRunOfDigits(digits: string, tail: string)
    requires AllDigits(digits)
    requires tail == [] || !IsDigit(tail[0])
    ensures DigitRun(digits + tail) == |digits|
  {
    if digits != [] {
      assert (digits + tail)[1..] == digits[1..] + tail;
      DigitRunOfDigits(digits[1..], tail);
    }
  }

  function StripTrailingZeros(f: string): (g: string)
    requires AllDigits(f)
    ensures |g| <= |f| && g == f[..|g|] && AllDigits(g)
    ensures g == [] || g[|g| - 1] != '0'
    ensures f != [] && f[|f| - 1] != '0' ==> g == f
  {
    if f == [] || f[|f| - 1] != '0' then f else StripTrailingZeros(f[..|f| - 1])
  }

  /** The canonical number with the given sign, whole part and digits after the point. */
  function MakeNumber(negative: bool, whole: nat, frac: string): (n: Number)
    requires AllDigits(frac)
    ensures n.whole == whole
  {
    var f := StripTrailingZeros(frac);
    Decimal(negative && (whole != 0 || f != []), whole, f)
  }

  /** A numeric prefix: how many characters it takes, and the number it denotes. */
  datatype Scan = Scan(length: nat, value: Number)

  /**
   * The longest prefix of `s` that reads as a decimal literal
   * `[+-]? (digits ('.' digits?)? | '.' digits)`, or None when none does.
   */
  function ScanDecimal(s: string): (r: Option<Scan>)
    ensures r.Some? ==> 1 <= r.value.length <= |s|
  {
    if |s| > 0 && (s[0] == '+' || s[0] == '-') then
      match ScanUnsigned(s[1..], s[0] == '-')
      case None => None
      case Some(scan) => Some(Scan(scan.length + 1, scan.value))
    else
      ScanUnsigned(s, false)
  }

  /** The longest prefix of `s` that reads as `digits ('.' digits?)? | '.' digits`, with the given sign. */
  function ScanUnsigned(s: string, negative: bool): (r: Option<Scan>)
    ensures r.Some? ==> 1 <= r.value.length <= |s|
  {
    var w := DigitRun(s);
    if w < |s| && s[w] == '.' then ScanFraction(s[..w], s[w + 1..], negative)
    else if w == 0 then None
    else Some(Scan(w, MakeNumber(negative, DigitsValue(s[..w]), "")))
  }

  /** The numeric prefix of `intDigits + "." + afterPoint`, given the digits before the point. */
  function ScanFraction(intDigits: string, afterPoint: string, negative: bool): (r: Option<Scan>)
    requires AllDigits(intDigits)
    ensures r.Some? ==> 1 <= r.value.length <= |intDigits| + 1 + |afterPoint|
  {
    var f := DigitRun(afterPoint);
    if |intDigits| == 0 && f == 0 then None
    else Some(Scan(|intDigits| + 1 + f, MakeNumber(negative, DigitsValue(intDigits), afterPoint[..f])))
  }

  /** `parseFloat(s)`: skip leading white space, then read the longest numeric prefix; None is NaN. */
  function ParseFloat(s: string): Option<Number> {
    match ScanDecimal(TrimStart(s))
    case None => None
    case Some(scan) => Some(scan.value)
  }

  /** `+s` (`Number(s)`): a blank string is 0, otherwise the whole trimmed string must be numeric; None is NaN. */
  function ToNumber(s: string): Option<Number> {
    var t := Trim(s);
    if t == [] then Some(Zero)
    else match ScanDecimal(t)
      case None => None
      case Some(scan) => if scan.length == |t| then Some(scan.value) else None
  }

  /** Reading the rendering of a number consumes all of it and gives the number back. */
  lemma RenderScans(n: Number)
    ensures ScanDecimal(Render(n)) == Some(Scan(|Render(n)|, n))
  {
    var digits := NatToDigits(n.whole);
    var unsigned := RenderMagnitude(n);
    var s := Render(n);
    UnsignedScans(n, digits, unsigned);
    if n.negative {
      assert s == "-" + unsigned;
      assert s[0] == '-' && s[1..] == unsigned;
    } else {
      assert s == unsigned && IsDigit(s[0]);
    }
  }

  lemma UnsignedScans(n: Number, digits: string, unsigned: string)
    requires digits == NatToDigits(n.whole)
    requires unsigned == RenderMagnitude(n)
    ensures ScanUnsigned(unsigned, n.negative) == Some(Scan(|unsigned|, n))
  {
    if n.frac == [] {
      assert digits + "" == digits;
      assert unsigned == digits;
      WholeScans(n, digits);
    } else {
      PointScans(n, digits, unsigned);
      FractionScans(n, digits);
    }
  }

  /** A whole number's digits scan to the number. */
  lemma WholeScans(n: Number, digits: string)
    requires digits == NatToDigits(n.whole) && n.frac == []
    ensures ScanUnsigned(digits, n.negative) == Some(Scan(|digits|, n))
  {
    assert digits + "" == digits;
    DigitRunOfDigits(digits, "");
    assert digits[..|digits|] == digits;
    DigitsValueOfNat(n.whole);
    assert StripTrailingZeros("") == "";
  }

  /** The scan of digits, a point and more stops at the point and reads the fraction from there. */
  lemma PointScans(n: Number, digits: string, unsigned: string)
    requires digits == NatToDigits(n.whole) && n.frac != []
    requires unsigned == digits + "." + n.frac
    ensures ScanUnsigned(unsigned, n.negative) == ScanFraction(digits, n.frac, n.negative)
  {
    DigitRunOfDigits(digits, "." + n.frac);
    assert unsigned == digits + ("." + n.frac);
    assert unsigned[|digits|] == '.';
    assert unsigned[..|digits|] == digits;
    assert unsigned[|digits| + 1..] == n.frac;
  }

  lemma FractionScans(n: Number, digits: string)
    requires digits == NatToDigits(n.whole) && n.frac != []
    ensures ScanFraction(digits, n.frac, n.negative) == Some(Scan(|digits| + 1 + |n.frac|, n))
  {
    assert n.frac + "" == n.frac;
    DigitRunOfDigits(n.frac, "");
    assert n.frac[..|n.frac|] == n.frac;
    DigitsValueOfNat(n.whole);
  }

  /** `parseFloat` reads back the number a rendering came from. */
  lemma ParseFloatOfRender(n: Number)
    ensures ParseFloat(Render(n)) == Some(n)
  {
    RenderScans(n);
  }

  /** `+` reads back the number a rendering came from, so pagination survives the trip through text. */
  lemma ToNumberOfRender(n: Number)
    ensures ToNumber(Render(n)) == Some(n)
  {
    var s := Render(n);
    RenderScans(n);
    assert !IsWhiteSpace(s[0]) && !IsWhiteSpace(s[|s| - 1]);
    TrimOfUnblank(s);
  }

  /**
   * A numeric prefix begins with a digit, a sign, a point or the `I` of
   * `Infinity`: `parseFloat` of a string that starts with any other visible
   * character is NaN.
   */
  lemma ParseFloatOfNonNumeric(s: string)
    requires s != [] && !IsWhiteSpace(s[0]) && !IsDigit(s[0]) && s[0] != '+' && s[0] != '-' && s[0] != '.'
    requires s[0] != 'I'
    ensures ParseFloat(s) == None
  {
    assert TrimStart(s) == s;
    assert DigitRun(s) == 0;
  }

  /**
   * The strings `parseFloat` reads as an infinity: after leading white space,
   * an optional sign and then `Infinity`. A `Number` is finite, so the model's
   * `ParseFloat` gives None for them.
   */
  predicate ReadsAsInfinity(s: string) {
    var t := TrimStart(s);
    StartsWith(t, "Infinity") || StartsWith(t, "+Infinity") || StartsWith(t, "-Infinity")
  }

  /** The characters a decimal literal is made of. */
  predicate IsNumberChar(c: char) {
    IsDigit(c) || c == '+' || c == '-' || c == '.'
  }

  /** A scanned prefix holds only digits, signs and points. */
  lemma ScanDecimalChars(s: string)
    requires ScanDecimal(s).Some?
    ensures forall i :: 0 <= i < ScanDecimal(s).value.length ==> IsNumberChar(s[i])
  {
    if |s| > 0 && (s[0] == '+' || s[0] == '-') {
      ScanUnsignedChars(s[1..], s[0] == '-');
    } else {
      ScanUnsignedChars(s, false);
    }
  }

  lemma ScanUnsignedChars(s: string, negative: bool)
    requires ScanUnsigned(s, negative).Some?
    ensures forall i :: 0 <= i < ScanUnsigned(s, negative).value.length ==> IsNumberChar(s[i])
  {
    var w := DigitRun(s);
    assert forall i :: 0 <= i < w ==> s[..w][i] == s[i];
    if w < |s| && s[w] == '.' {
      var rest := s[w + 1..];
      var f := DigitRun(rest);
      assert forall j :: 0 <= j < f ==> rest[..f][j] == s[w + 1 + j];
    }
  }

  /**
   * The modelled unary `+` (plain decimals only) is NaN on a string holding a
   * visible character that no decimal literal contains: trimming keeps that
   * character, and no scan reaches past it.
   */
  lemma ToNumberOfForeignChar(s: string, p: nat)
    requires p < |s| && !IsWhiteSpace(s[p]) && !IsNumberChar(s[p])
    ensures ToNumber(s) == None
  {
    var a := TrimStart(s);
    var off := |s| - |a|;
    assert off <= p;
    assert a[p - off] == s[p];
    var t := TrimEnd(a);
    assert p - off < |t|;
    assert t[p - off] == s[p];
    if ScanDecimal(t).Some? {
      ScanDecimalChars(t);
    }
  }

  /** Unary `+` of a blank string is 0. */
  lemma ToNumberOfBlank(s: string)
    requires forall i :: 0 <= i < |s| ==> IsWhiteSpace(s[i])
    ensures ToNumber(s) == Some(Zero)
  {
  }
}
