/**
 * The boundary between the calculator's text and its numbers.
 *
 * Numbers are modelled as `real`. Integers are rendered the way Java's
 * `String.valueOf(long)` renders them; the display buffer is parsed as a plain
 * decimal literal (a subset of what `Double.parseDouble` accepts: no exponent,
 * "Infinity" or "NaN");
 * `FormatValue` is `State.formatValue`. What the host platform computes in
 * floating point (`Math.sqrt`, and `Double.toString` of every value that
 * fails the `x == (long) x` test) is passed in as a `Host`.
 */
module Numeric {
  import opened Wrappers

  /** The host's square root and its `Double.toString`, used for every value that fails `x == (long) x`. */
  datatype Host = Host(sqrt: real -> real, doubleText: real -> string)

  const LONG_MIN: int := -0x8000_0000_0000_0000
  const LONG_MAX: int := 0x7FFF_FFFF_FFFF_FFFF

  predicate IsDigit(ch: char) { '0' <= ch <= '9' }

  predicate AllDigits(s: string) { forall i :: 0 <= i < |s| ==> IsDigit(s[i]) }

  function DigitChar(d: nat): (ch: char)
    requires d < 10
    ensures IsDigit(ch) && ch as int - '0' as int == d
  {
    ('0' as int + d) as char
  }

  /** The number a string of decimal digits denotes (the empty string denotes 0). */
  function DigitsValue(s: string): nat
    requires AllDigits(s)
  {
    if s == [] then 0 else DigitsValue(s[..|s| - 1]) * 10 + (s[|s| - 1] as int - '0' as int)
  }

  function Pow10(n: nat): (p: nat)
    ensures p >= 1
  {
    if n == 0 then 1 else 10 * Pow10(n - 1)
  }

  /** Decimal digits of `n` without leading zeros; reading them back gives `n`. */
  function NatText(n: nat): (s: string)
    ensures |s| > 0 && AllDigits(s)
    ensures DigitsValue(s) == n
  {
    if n < 10 then [DigitChar(n)]
    else
      var prefix := NatText(n / 10);
      var s := prefix + [DigitChar(n % 10)];
      assert s[..|s| - 1] == prefix;
      s
  }

  /** Java's `String.valueOf` of an integer. */
  function IntText(n: int): string
  {
    if n < 0 then "-" + NatText(-n) else NatText(n)
  }

  /** Index of the first '.' in `s`, or `|s|` when there is none. */
  function DotIndex(s: string): (k: nat)
    ensures k <= |s|
    ensures k < |s| ==> s[k] == '.'
    ensures forall i :: 0 <= i < k ==> s[i] != '.'
  {
    if s == [] || s[0] == '.' then 0 else 1 + DotIndex(s[1..])
  }

  /** An unsigned decimal literal: digits, at most one '.', at least one digit. */
  function UnsignedValue(s: string): (r: Option<real>)
    ensures r.Some? ==> r.value >= 0.0
  {
    var k := DotIndex(s);
    var whole := s[..k];
    var fraction := if k < |s| then s[k + 1..] else "";
    if AllDigits(whole) && AllDigits(fraction) && |whole| + |fraction| > 0 then
      var part := DigitsValue(fraction) as real / Pow10(|fraction|) as real;
      assert part >= 0.0;
      Some(DigitsValue(whole) as real + part)
    else
      None
  }

  /**
   * `Double.parseDouble` on plain decimal literals: an optional '-' or '+',
   * then an unsigned literal. `None` is the NumberFormatException.
   */
  function ParseDecimal(s: string): (r: Option<real>)
    ensures r.Some? ==> |s| > 0
    ensures r.Some? && s[0] != '-' ==> r.value >= 0.0
    ensures r.Some? && r.value < 0.0 ==> s[0] == '-'
  {
    if |s| > 0 && s[0] == '-' then
      match UnsignedValue(s[1..])
      case Some(v) => Some(-v)
      case None => None
    else if |s| > 0 && s[0] == '+' then
      UnsignedValue(s[1..])
    else
      UnsignedValue(s)
  }

  /** 2^63, the double that `(double) Long.MAX_VALUE` rounds to. */
  const LONG_LIMIT: int := LONG_MAX + 1

  /** Integral and within Java's long range. */
  predicate IsLongIntegral(x: real)
  {
    x == x.Floor as real && LONG_MIN <= x.Floor <= LONG_MAX
  }

  /**
   * The `x == (long) x` test of `State.formatValue`. Besides the integral values
   * of the long range it holds for 2^63: the cast saturates it to
   * `Long.MAX_VALUE`, which converts back to the double 2^63.
   */
  predicate IsLongValued(x: real)
  {
    IsLongIntegral(x) || x == LONG_LIMIT as real
  }

  /** `(long) x` for a value that passes the `x == (long) x` test. */
  function LongOf(x: real): (n: int)
    requires IsLongValued(x)
    ensures LONG_MIN <= n <= LONG_MAX
    ensures n as real == x || (x == LONG_LIMIT as real && n == LONG_MAX)
  {
    if x == LONG_LIMIT as real then LONG_MAX else x.Floor
  }

  /**
   * `State.formatValue`: a value that passes the `x == (long) x` test prints as
   * its long, without a fractional part; any other value is printed by the host.
   */
  function FormatValue(x: real, doubleText: real -> string): (r: string)
    ensures IsLongValued(x) ==> '.' !in r && r == IntText(LongOf(x))
    ensures !IsLongValued(x) ==> r == doubleText(x)
  {
    if IsLongValued(x) then
      var n := LongOf(x);
      IntTextHasNoDot(n);
      IntText(n)
    else
      doubleText(x)
  }

  lemma IntTextHasNoDot(n: int)
    ensures '.' !in IntText(n)
  {
    var digits := if n < 0 then NatText(-n) else NatText(n);
    assert forall i :: 0 <= i < |digits| ==> IsDigit(digits[i]);
    assert '.' !in digits;
  }

  lemma AllDigitsHasNoDot(s: string)
    requires AllDigits(s)
    ensures DotIndex(s) == |s|
  {
  }

  /** A non-empty run of digits parses to the number it spells. */
  lemma ParseDigits(s: string)
    requires |s| > 0 && AllDigits(s)
    ensures ParseDecimal(s) == Some(DigitsValue(s) as real)
  {
    AllDigitsHasNoDot(s);
    assert IsDigit(s[0]);
    assert s[..DotIndex(s)] == s;
    assert DigitsValue("") == 0;
    assert UnsignedValue(s) == Some(DigitsValue(s) as real + 0.0 / 1 as real);
  }

  /** Parsing what `IntText` prints gives the integer back. */
  lemma ParseIntText(n: int)
    ensures ParseDecimal(IntText(n)) == Some(n as real)
  {
    if n < 0 {
      var digits := NatText(-n);
      ParseDigits(digits);
      var s := "-" + digits;
      assert s[1..] == digits;
      assert IsDigit(digits[0]);
    } else {
      ParseDigits(NatText(n));
    }
  }

  /** Round trip of `State.formatValue` and `value()` for every integral value of the long range. */
  lemma ParseFormatted(x: real, doubleText: real -> string)
    requires IsLongIntegral(x)
    ensures ParseDecimal(FormatValue(x, doubleText)) == Some(x)
  {
    ParseIntText(x.Floor);
  }

  /**
   * 2^63 prints as `Long.MAX_VALUE`, one less than itself; the exact reading
   * of that text is 2^63 - 1, where Java's `parseDouble` rounds back to 2^63.
   */
  lemma FormatSaturated(doubleText: real -> string)
    ensures FormatValue(LONG_LIMIT as real, doubleText) == IntText(LONG_MAX)
    ensures ParseDecimal(FormatValue(LONG_LIMIT as real, doubleText)) == Some(LONG_MAX as real)
  {
    ParseIntText(LONG_MAX);
  }

  /** Prefixing '-' to an unsigned literal negates what it parses to. */
  lemma ParseNegated(s: string)
    requires s == [] || (s[0] != '-' && s[0] != '+')
    ensures ParseDecimal("-" + s) == (match ParseDecimal(s) case Some(v) => Some(-v) case None => None)
  {
    assert ("-" + s)[1..] == s;
  }
}
