/** The parts of Java's value semantics that the status screen and the daemon
    factory rely on: nullable references, thrown exceptions, 64- and 32-bit
    two's-complement integers, `/` on integers, decimal rendering of a `long`
    (string concatenation), `Integer.parseInt` and `String.equalsIgnoreCase`. */
module JavaLang {

  /** A Java reference that may be `null`. */
  datatype Option<+T> = None | Some(value: T)

  /** The exceptions the modelled code can raise. */
  datatype JavaException =
    | ArrayIndexOutOfBounds(index: int)
    | StringIndexOutOfBounds(index: int)

  /** A Java call either returns a value or throws. */
  datatype Outcome<+T> = Returned(value: T) | Threw(exception: JavaException)

  const MinLong: int := -0x8000_0000_0000_0000
  const MaxLong: int := 0x7fff_ffff_ffff_ffff
  const MinInt: int := -0x8000_0000
  const MaxInt: int := 0x7fff_ffff

  /** Java `long`. */
  type Long = x: int | -0x8000_0000_0000_0000 <= x <= 0x7fff_ffff_ffff_ffff

  /** Java `int`. */
  type Int = x: int | -0x8000_0000 <= x <= 0x7fff_ffff

  /** The `long` that Java arithmetic yields for the mathematical value `x`:
      equal to `x` when it fits, otherwise `x` wrapped modulo 2^64. */
  function WrapLong(x: int): (r: Long)
    ensures MinLong <= x <= MaxLong ==> r == x
    ensures (x - r) % 0x1_0000_0000_0000_0000 == 0
  {
    var m := (x - MinLong) % 0x1_0000_0000_0000_0000;
    assert x - (m + MinLong) == 0x1_0000_0000_0000_0000 * ((x - MinLong) / 0x1_0000_0000_0000_0000);
    m + MinLong
  }

  /** The `int` that Java arithmetic yields for `x`, wrapped modulo 2^32. */
  function WrapInt(x: int): (r: Int)
    ensures MinInt <= x <= MaxInt ==> r == x
    ensures (x - r) % 0x1_0000_0000 == 0
  {
    var m := (x - MinInt) % 0x1_0000_0000;
    assert x - (m + MinInt) == 0x1_0000_0000 * ((x - MinInt) / 0x1_0000_0000);
    m + MinInt
  }

  /** Java's integer `a / d` for a positive divisor: the quotient truncated
      toward zero (Dafny's own `/` rounds toward minus infinity). */
  function TruncDiv(a: int, d: int): (q: int)
    requires d > 0
    ensures a >= 0 ==> 0 <= q && q * d <= a < q * d + d
    ensures a < 0 ==> q <= 0 && a <= q * d < a + d
  {
    if a >= 0 then a / d else -((-a) / d)
  }

  predicate IsDigit(c: char) {
    '0' <= c <= '9'
  }

  predicate AllDigits(s: string) {
    forall i :: 0 <= i < |s| ==> IsDigit(s[i])
  }

  function DigitChar(d: int): (c: char)
    requires 0 <= d <= 9
    ensures IsDigit(c) && c as int - '0' as int == d
  {
    ('0' as int + d) as char
  }

  /** Decimal digits of `n`, without leading zeros. */
  function NatToString(n: nat): (s: string)
    ensures |s| >= 1 && AllDigits(s)
    ensures |s| > 1 ==> s[0] != '0'
  {
    if n < 10 then [DigitChar(n)] else NatToString(n / 10) + [DigitChar(n % 10)]
  }

  /** `Long.toString(n)`, which is what `n + " ..."` concatenates. */
  function LongToString(n: int): (s: string)
    ensures |s| >= 1
    ensures s[0] == '-' <==> n < 0
  {
    if n < 0 then "-" + NatToString(-n) else NatToString(n)
  }

  /** The value of a string of decimal digits, read left to right. */
  function DigitsValue(s: string): nat
    requires AllDigits(s)
  {
    if s == [] then 0 else DigitsValue(s[..|s| - 1]) * 10 + (s[|s| - 1] as int - '0' as int)
  }

  /** The text after an optional leading sign. */
  function Unsigned(s: string): (u: string)
    requires |s| >= 1
    ensures |u| == |s| || |u| == |s| - 1
  {
    if s[0] == '-' || s[0] == '+' then s[1..] else s
  }

  /** The shape of a decimal integer: an optional `-` or `+`, then one or
      more decimal digits. */
  predicate IsDecimalText(s: string) {
    |s| >= 1 && |Unsigned(s)| >= 1 && AllDigits(Unsigned(s))
  }

  /** The value of a decimal integer text, negated after a `-`. */
  function DecimalValue(s: string): int
    requires IsDecimalText(s)
  {
    if s[0] == '-' then -(DigitsValue(Unsigned(s)) as int) else DigitsValue(Unsigned(s))
  }

  /** `Integer.parseInt(s)`, following its steps: a first character below
      '0' must be a sign with something after it, and every later character
      must be a decimal digit, the value staying in the `int` range.
      Anything else is a `NumberFormatException`, modelled as `None`. */
  function ParseInt(s: string): (r: Option<int>)
    ensures r.Some? <==> IsDecimalText(s) && MinInt <= DecimalValue(s) <= MaxInt
    ensures r.Some? ==> r.value == DecimalValue(s)
  {
    if |s| == 0 then None
    else if s[0] == '-' || s[0] == '+' then
      if |s| == 1 || !AllDigits(s[1..]) then None
      else
        var v: int := if s[0] == '-' then -(DigitsValue(s[1..]) as int) else DigitsValue(s[1..]);
        if MinInt <= v <= MaxInt then Some(v) else None
    else if AllDigits(s) && DigitsValue(s) <= MaxInt then Some(DigitsValue(s))
    else None
  }

  /** Leading zeros and a `+` sign are accepted; a trailing non-digit and a
      lone sign are not. */
  lemma ParseIntExamples()
    ensures ParseInt("+007") == Some(7)
    ensures ParseInt("-0") == Some(0)
    ensures ParseInt("1x") == None
    ensures ParseInt("-") == None
    ensures ParseInt("") == None
  {
    assert IsDecimalText("+007") && Unsigned("+007") == "007";
    assert DigitsValue("007") == 7 by {
      assert "007"[..2] == "00" && "00"[..1] == "0" && "0"[..0] == "";
    }
    assert IsDecimalText("-0") && Unsigned("-0") == "0";
    assert DigitsValue("0") == 0 by { assert "0"[..0] == ""; }
    assert !IsDigit("1x"[1]);
  }

  lemma {:induction false} DigitsValueOfNatToString(n: nat)
    ensures DigitsValue(NatToString(n)) == n
  {
    if n >= 10 {
      var s := NatToString(n);
      assert s[..|s| - 1] == NatToString(n / 10);
      DigitsValueOfNatToString(n / 10);
    }
  }

  /** Rendering an `int` and parsing it back gives the same `int`. */
  lemma ParseIntOfLongToString(n: int)
    requires MinInt <= n <= MaxInt
    ensures ParseInt(LongToString(n)) == Some(n)
  {
    var s := LongToString(n);
    if n < 0 {
      assert s[1..] == NatToString(-n);
      DigitsValueOfNatToString(-n);
    } else {
      DigitsValueOfNatToString(n);
    }
  }

  /** `Character.toUpperCase` on the ASCII letters. */
  function AsciiUpper(c: char): char {
    if 'a' <= c <= 'z' then (c as int - 32) as char else c
  }

  /** `a.equalsIgnoreCase(b)` for strings whose letters are ASCII. */
  predicate EqualsIgnoreCase(a: string, b: string) {
    |a| == |b| && forall i :: 0 <= i < |a| ==> AsciiUpper(a[i]) == AsciiUpper(b[i])
  }
}
