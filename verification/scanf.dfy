/**
 * The part of `sscanf` the loader uses: `%d` conversions and ordinary
 * literal characters in the format. Integer overflow, `%n`, width
 * modifiers and the EOF return value are outside this model.
 */
module Scanf {
  import opened Wrappers
  import Text

  predicate IsDigit(c: char) {
    '0' <= c <= '9'
  }

  predicate AllDigits(s: string) {
    forall i :: 0 <= i < |s| ==> IsDigit(s[i])
  }

  function DigitValue(c: char): nat
    requires IsDigit(c)
  {
    c as int - '0' as int
  }

  function DigitChar(d: nat): (c: char)
    requires d < 10
    ensures IsDigit(c) && DigitValue(c) == d
  {
    ('0' as int + d) as char
  }

  /** The value of a decimal numeral, most significant digit first. */
  function NumeralValue(ds: string): nat
    requires AllDigits(ds)
  {
    if |ds| == 0 then 0
    else NumeralValue(ds[..|ds| - 1]) * 10 + DigitValue(ds[|ds| - 1])
  }

  /** The length of the longest run of digits at the start of `s`. */
  function DigitRun(s: string): (n: nat)
    ensures n <= |s|
    ensures AllDigits(s[..n])
    ensures n < |s| ==> !IsDigit(s[n])
  {
    if |s| == 0 || !IsDigit(s[0]) then 0
    else
      var m := DigitRun(s[1..]);
      assert s[..1 + m] == [s[0]] + s[1..][..m];
      1 + m
  }

  /** A successful `%d`: the stored value and the unread rest of the input. */
  datatype Conversion = Conversion(value: int, rest: string)

  /** The longest non-empty run of digits at the start of `s`, read as a numeral. */
  function ScanDigits(s: string): (r: Option<Conversion>)
    ensures r.Some? ==> |r.value.rest| < |s| && r.value.rest == s[|s| - |r.value.rest|..]
    ensures r.Some? ==> r.value.rest == [] || !IsDigit(r.value.rest[0])
  {
    var n := DigitRun(s);
    if n == 0 then None else Some(Conversion(NumeralValue(s[..n]), s[n..]))
  }

  function Negate(c: Option<Conversion>): (r: Option<Conversion>)
    ensures r.Some? <==> c.Some?
    ensures r.Some? ==> r.value.rest == c.value.rest && r.value.value == -c.value.value
  {
    match c
    case None => None
    case Some(Conversion(v, rest)) => Some(Conversion(-v, rest))
  }

  /**
   * `%d`: skip whitespace, accept one optional sign, then the longest
   * non-empty run of decimal digits. Fails when no digit follows.
   */
  function ScanDecimal(input: string): Option<Conversion> {
    var t := Text.SkipSpace(input);
    if |t| > 0 && t[0] == '-' then Negate(ScanDigits(t[1..]))
    else if |t| > 0 && t[0] == '+' then ScanDigits(t[1..])
    else ScanDigits(t)
  }

  /** One directive of a format string. */
  datatype Directive = Decimal | Literal(c: char)

  /** The number of `%d` conversions in a format. */
  function Conversions(format: seq<Directive>): nat {
    if |format| == 0 then 0 else (if format[0] == Decimal then 1 else 0) + Conversions(format[1..])
  }

  /**
   * The values `sscanf(input, format, ...)` stores, in order. Processing
   * stops at the first directive that fails; the call's return value is
   * the number of values stored, never more than the number of
   * conversions. A format that starts with `%d` stores something exactly
   * when `%d` succeeds on the input, and its first value is that number.
   */
  function Sscanf(input: string, format: seq<Directive>): (stored: seq<int>)
    ensures |stored| <= |format|
    decreases |format|
  {
    if |format| == 0 then []
    else match format[0]
      case Literal(c) =>
        if |input| > 0 && input[0] == c then Sscanf(input[1..], format[1..]) else []
      case Decimal =>
        match ScanDecimal(input)
        case None => []
        case Some(conv) => [conv.value] + Sscanf(conv.rest, format[1..])
  }

  /** `rest` is what remains of `input` after reading at least one character and a whole numeral. */
  predicate ReadsNumeral(input: string, rest: string) {
    && |rest| < |input| && rest == input[|input| - |rest|..]
    && (rest == [] || !IsDigit(rest[0]))
  }

  /**
   * A successful `%d` consumes at least one character of the input, leaves
   * a suffix of it unread, and stops where the digits end.
   */
  lemma ScanDecimalConsumes(input: string)
    ensures ScanDecimal(input).Some? ==> ReadsNumeral(input, ScanDecimal(input).value.rest)
  {
    var t := Text.SkipSpace(input);
    if |t| > 0 && (t[0] == '-' || t[0] == '+') {
      SignedConsumes(input, t);
    } else {
      UnsignedConsumes(input, t);
    }
  }

  lemma SignedConsumes(input: string, t: string)
    requires t == Text.SkipSpace(input) && |t| > 0 && (t[0] == '-' || t[0] == '+')
    ensures ScanDecimal(input).Some? ==> ReadsNumeral(input, ScanDecimal(input).value.rest)
  {
    var digits := ScanDigits(t[1..]);
    assert ScanDecimal(input).Some? ==> digits.Some? && ScanDecimal(input).value.rest == digits.value.rest;
    ScanDigitsConsumes(t[1..]);
    if digits.Some? {
      SuffixOfSuffix(input, t, t[1..]);
      SuffixOfSuffix(input, t[1..], digits.value.rest);
    }
  }

  lemma UnsignedConsumes(input: string, t: string)
    requires t == Text.SkipSpace(input) && !(|t| > 0 && (t[0] == '-' || t[0] == '+'))
    ensures ScanDecimal(input).Some? ==> ReadsNumeral(input, ScanDecimal(input).value.rest)
  {
    assert ScanDecimal(input) == ScanDigits(t);
    ScanDigitsConsumes(t);
    if ScanDigits(t).Some? {
      SuffixOfSuffix(input, t, ScanDigits(t).value.rest);
    }
  }

  lemma ScanDigitsConsumes(s: string)
    ensures ScanDigits(s).Some? ==> ReadsNumeral(s, ScanDigits(s).value.rest)
  {
  }

  lemma SuffixOfSuffix(a: string, b: string, c: string)
    requires |b| <= |a| && b == a[|a| - |b|..]
    requires |c| <= |b| && c == b[|b| - |c|..]
    ensures c == a[|a| - |c|..]
  {
  }

  /**
   * `sscanf` stores no more values than the format has conversions. A
   * format that starts with `%d` stores something exactly when `%d`
   * succeeds on the input, and its first value is that number.
   */
  lemma {:induction false} SscanfStores(input: string, format: seq<Directive>)
    ensures |Sscanf(input, format)| <= Conversions(format)
    ensures |format| > 0 && format[0] == Decimal ==>
      (Sscanf(input, format) == [] <==> ScanDecimal(input).None?)
    ensures |format| > 0 && format[0] == Decimal && Sscanf(input, format) != [] ==>
      Sscanf(input, format)[0] == ScanDecimal(input).value.value
    decreases |format|
  {
    if |format| > 0 {
      match format[0]
      case Literal(c) =>
        if |input| > 0 && input[0] == c {
          SscanfStores(input[1..], format[1..]);
        }
      case Decimal =>
        if ScanDecimal(input).Some? {
          SscanfStores(ScanDecimal(input).value.rest, format[1..]);
        }
    }
  }

  /** The decimal numeral of `n` without leading zeros, as `printf("%u")` writes it. */
  function NumeralText(n: nat): (ds: string)
    ensures |ds| > 0 && AllDigits(ds)
  {
    if n < 10 then [DigitChar(n)] else NumeralText(n / 10) + [DigitChar(n % 10)]
  }

  /** The text `printf("%d")` writes for `v`. */
  function IntText(v: int): string {
    if v < 0 then "-" + NumeralText(-v) else NumeralText(v)
  }

  lemma {:induction false} NumeralValueOfText(n: nat)
    ensures NumeralValue(NumeralText(n)) == n
  {
    if n >= 10 {
      var ds := NumeralText(n);
      assert ds[..|ds| - 1] == NumeralText(n / 10);
      NumeralValueOfText(n / 10);
    }
  }

  lemma {:induction false} DigitRunOfNumeral(ds: string, rest: string)
    requires AllDigits(ds)
    requires rest == [] || !IsDigit(rest[0])
    ensures DigitRun(ds + rest) == |ds|
    decreases |ds|
  {
    if |ds| > 0 {
      assert (ds + rest)[1..] == ds[1..] + rest;
      DigitRunOfNumeral(ds[1..], rest);
    }
  }

  lemma ScanNumeral(ds: string, rest: string)
    requires |ds| > 0 && AllDigits(ds)
    requires rest == [] || !IsDigit(rest[0])
    ensures ScanDigits(ds + rest) == Some(Conversion(NumeralValue(ds), rest))
  {
    DigitRunOfNumeral(ds, rest);
    assert (ds + rest)[..|ds|] == ds;
    assert (ds + rest)[|ds|..] == rest;
  }

  lemma SkipNothing(s: string)
    requires |s| > 0 && !Text.IsSpace(s[0])
    ensures Text.SkipSpace(s) == s
  {
  }

  lemma ScanMinusNumeral(ds: string, rest: string)
    requires |ds| > 0 && AllDigits(ds)
    requires rest == [] || !IsDigit(rest[0])
    ensures ScanDecimal("-" + ds + rest) == Negate(Some(Conversion(NumeralValue(ds), rest)))
  {
    var s := "-" + (ds + rest);
    assert s == "-" + ds + rest;
    assert s[0] == '-';
    SkipNothing(s);
    assert s[1..] == ds + rest;
    assert ScanDecimal(s) == Negate(ScanDigits(ds + rest));
    ScanNumeral(ds, rest);
  }

  lemma ScanPlainNumeral(ds: string, rest: string)
    requires |ds| > 0 && AllDigits(ds)
    requires rest == [] || !IsDigit(rest[0])
    ensures ScanDecimal(ds + rest) == Some(Conversion(NumeralValue(ds), rest))
  {
    var s := ds + rest;
    assert s[0] == ds[0];
    SkipNothing(s);
    ScanNumeral(ds, rest);
  }

  /** `%d` reads back the value `printf("%d")` wrote, stopping where the numeral ends. */
  lemma ScanIntText(v: int, rest: string)
    requires rest == [] || !IsDigit(rest[0])
    ensures ScanDecimal(IntText(v) + rest) == Some(Conversion(v, rest))
  {
    if v < 0 {
      ScanNegativeText(v, rest);
    } else {
      ScanNaturalText(v, rest);
    }
  }

  lemma ScanNegativeText(v: int, rest: string)
    requires v < 0
    requires rest == [] || !IsDigit(rest[0])
    ensures ScanDecimal(IntText(v) + rest) == Some(Conversion(v, rest))
  {
    var ds := NumeralText(-v);
    var input := IntText(v) + rest;
    assert input == "-" + ds + rest;
    ScanMinusNumeral(ds, rest);
    NumeralValueOfText(-v);
    assert ScanDecimal(input) == Negate(Some(Conversion(-v, rest)));
  }

  lemma ScanNaturalText(v: nat, rest: string)
    requires rest == [] || !IsDigit(rest[0])
    ensures ScanDecimal(IntText(v) + rest) == Some(Conversion(v, rest))
  {
    assert IntText(v) == NumeralText(v);
    ScanPlainNumeral(NumeralText(v), rest);
    NumeralValueOfText(v);
  }

  /** `%d` fails on input whose first non-blank character is neither a sign nor a digit. */
  lemma ScanDecimalNeedsDigit(input: string)
    requires |input| > 0 && !Text.IsSpace(input[0]) && !IsDigit(input[0])
    requires input[0] != '-' && input[0] != '+'
    ensures ScanDecimal(input) == None
  {
  }
}
