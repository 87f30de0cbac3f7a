/** `resolveUpdateInterval`: the configured `updateInterval` (a number, or a
    string with an "ms" or "s" suffix) turned into a positive poll period in
    milliseconds, with 5000 as the fallback for anything unusable. */
module Interval {
  import opened JsValues
  import opened Decimal

  const DefaultIntervalMs: real := 5000.0

  /** The characters `String.prototype.trim` and `Number.parseFloat` skip:
      ECMAScript's WhiteSpace (tab, vertical tab, form feed, byte-order mark
      and every space separator) and LineTerminator. */
  predicate IsJsWhitespace(c: char) {
    c == '\t' || c == '\n' || c == '\U{0B}' || c == '\U{0C}' || c == '\r'
    || c == ' ' || c == '\U{A0}' || c == '\U{1680}'
    || ('\U{2000}' <= c <= '\U{200A}')
    || c == '\U{2028}' || c == '\U{2029}' || c == '\U{202F}' || c == '\U{205F}'
    || c == '\U{3000}' || c == '\U{FEFF}'
  }

  function TrimStart(s: string): string
  {
    if |s| > 0 && IsJsWhitespace(s[0]) then TrimStart(s[1..]) else s
  }

  function TrimEnd(s: string): string
  {
    if |s| > 0 && IsJsWhitespace(s[|s| - 1]) then TrimEnd(s[..|s| - 1]) else s
  }

  /** `String.prototype.trim` */
  function Trim(s: string): string {
    TrimEnd(TrimStart(s))
  }

  function LowerChar(c: char): char {
    if 'A' <= c <= 'Z' then ((c as int) + 32) as char else c
  }

  /** `String.prototype.toLowerCase`, on the ASCII letters. */
  function ToLower(s: string): (r: string)
    ensures |r| == |s|
  {
    seq(|s|, i requires 0 <= i < |s| => LowerChar(s[i]))
  }

  predicate EndsWith(s: string, suffix: string) {
    |suffix| <= |s| && s[|s| - |suffix|..] == suffix
  }

  predicate StartsWith(s: string, prefix: string) {
    |prefix| <= |s| && s[..|prefix|] == prefix
  }

  /** The number of leading decimal digits of `s`. */
  function DigitRun(s: string): (n: nat)
    ensures n <= |s| && AllDigits(s[..n])
    ensures n < |s| ==> !IsDigit(s[n])
  {
    if |s| > 0 && IsDigit(s[0]) then
      var n := 1 + DigitRun(s[1..]);
      assert s[..n] == [s[0]] + s[1..][..n - 1];
      n
    else 0
  }

  /** `x * 10^e` for a whole exponent of either sign. */
  function Scale(x: real, e: int): real {
    if e >= 0 then x * Pow10(e) as real else x / Pow10(-e) as real
  }

  /** The signed exponent of an `e`/`E` exponent part at the head of `s`,
      0 when there is none (a marker without digits is not an exponent). */
  function ExponentPart(s: string): int {
    if |s| > 0 && (s[0] == 'e' || s[0] == 'E') then
      var signed := |s| > 1 && (s[1] == '+' || s[1] == '-');
      var digits := if signed then s[2..] else s[1..];
      var k := DigitRun(digits);
      if k == 0 then 0
      else if signed && s[1] == '-' then -(DigitsValue(digits[..k]) as int)
      else DigitsValue(digits[..k])
    else 0
  }

  function Negate(n: Number): Number {
    match n
    case Finite(r) => Finite(-r)
    case PosInf => NegInf
    case NegInf => PosInf
    case NaN => NaN
  }

  /** `Number.parseFloat`: the longest prefix of `s`, after leading white
      space, that reads as an optionally signed "Infinity" or decimal literal
      (digits, an optional fraction, an optional exponent); NaN when there is
      none. The value is exact: rounding to a double is not modelled. */
  function ParseFloat(s: string): Number {
    var t := TrimStart(s);
    if |t| > 0 && t[0] == '-' then Negate(ParseUnsigned(t[1..]))
    else if |t| > 0 && t[0] == '+' then ParseUnsigned(t[1..])
    else ParseUnsigned(t)
  }

  function ParseUnsigned(body: string): Number {
    if StartsWith(body, "Infinity") then PosInf else ParseDecimal(body)
  }

  /** Digits, then optionally a point and digits (at least one digit in
      all), then an optional exponent part. */
  function ParseDecimal(body: string): Number {
    var k := DigitRun(body);
    var hasPoint := k < |body| && body[k] == '.';
    var f := if hasPoint then DigitRun(body[k + 1..]) else 0;
    if k + f == 0 then NaN
    else
      var fraction := if hasPoint then body[k + 1..][..f] else "";
      var rest := if hasPoint then body[k + 1..][f..] else body[k..];
      Finite(Scale(LiteralValue(body[..k], fraction), ExponentPart(rest)))
  }

  /** The string the suffix tests look at: trimmed, then lower-cased. */
  function Normalize(s: string): string {
    ToLower(Trim(s))
  }

  /** The resolved poll period in milliseconds. A string is checked for "ms"
      before "s"; a string with neither suffix, like a non-number, falls
      through to the number test and so to the default. */
  function ResolveUpdateInterval(value: JsValue): (ms: real)
    ensures ms > 0.0
  {
    if value.Str? && EndsWith(Normalize(value.s), "ms") then
      var trimmed := Normalize(value.s);
      var parsedMs := ParseFloat(trimmed[..|trimmed| - 2]);
      if parsedMs.Finite? && parsedMs.r > 0.0 then parsedMs.r else DefaultIntervalMs
    else if value.Str? && EndsWith(Normalize(value.s), "s") then
      var trimmed := Normalize(value.s);
      var parsedSeconds := ParseFloat(trimmed[..|trimmed| - 1]);
      if parsedSeconds.Finite? && parsedSeconds.r > 0.0 then parsedSeconds.r * 1000.0 else DefaultIntervalMs
    else if value.Num? && value.n.Finite? && value.n.r > 0.0 then
      if value.n.r < 1000.0 then value.n.r * 1000.0 else value.n.r
    else
      DefaultIntervalMs
  }

  // ---------------------------------------------------------------------
  // Well-formed interval strings: digits, an optional fraction, a unit.

  /** The literal `intDigits` or `intDigits.fracDigits`. */
  function DecimalLiteral(intDigits: string, fracDigits: string): string {
    if fracDigits == [] then intDigits else intDigits + "." + fracDigits
  }

  /** The exact value of `DecimalLiteral(intDigits, fracDigits)`. */
  function LiteralValue(intDigits: string, fracDigits: string): real
    requires AllDigits(intDigits) && AllDigits(fracDigits)
  {
    DigitsValue(intDigits) as real + DigitsValue(fracDigits) as real / Pow10(|fracDigits|) as real
  }

  lemma {:induction false} DigitRunOfDigits(a: string, b: string)
    requires AllDigits(a)
    requires b == [] || !IsDigit(b[0])
    ensures DigitRun(a + b) == |a|
    decreases |a|
  {
    if a != [] {
      assert (a + b)[1..] == a[1..] + b;
      DigitRunOfDigits(a[1..], b);
    } else {
      assert a + b == b;
    }
  }

  /** Without white space or sign in front, `parseFloat` reads a decimal. */
  lemma ParseFloatOfDigitStart(s: string)
    requires |s| > 0 && IsDigit(s[0])
    ensures ParseFloat(s) == ParseDecimal(s)
  {
    assert TrimStart(s) == s;
    assert !StartsWith(s, "Infinity") by { assert s[0] != 'I'; }
  }

  lemma ScaleByNoExponent(x: real)
    ensures Scale(x, ExponentPart([])) == x
  {
    assert Pow10(0) == 1;
  }

  lemma ParseDecimalWhole(intDigits: string)
    requires |intDigits| > 0 && AllDigits(intDigits)
    ensures ParseDecimal(intDigits) == Finite(LiteralValue(intDigits, ""))
  {
    DigitRunOfDigits(intDigits, []);
    assert intDigits + [] == intDigits;
    assert intDigits[..|intDigits|] == intDigits;
    ScaleByNoExponent(LiteralValue(intDigits, ""));
  }

  lemma ParseDecimalFraction(intDigits: string, fracDigits: string)
    requires |intDigits| > 0 && AllDigits(intDigits) && AllDigits(fracDigits) && fracDigits != []
    ensures ParseDecimal(intDigits + "." + fracDigits) == Finite(LiteralValue(intDigits, fracDigits))
  {
    var lit := intDigits + "." + fracDigits;
    var tail := "." + fracDigits;
    assert lit == intDigits + tail;
    DigitRunOfDigits(intDigits, tail);
    var after := lit[|intDigits| + 1..];
    assert lit[..|intDigits|] == intDigits;
    assert after == fracDigits;
    DigitRunOfDigits(fracDigits, []);
    assert fracDigits + [] == fracDigits;
    assert after[..|fracDigits|] == fracDigits;
    assert after[|fracDigits|..] == [];
    ScaleByNoExponent(LiteralValue(intDigits, fracDigits));
  }

  /** `parseFloat` reads a well-formed literal exactly. */
  lemma ParseDecimalLiteral(intDigits: string, fracDigits: string)
    requires |intDigits| > 0 && AllDigits(intDigits) && AllDigits(fracDigits)
    ensures ParseFloat(DecimalLiteral(intDigits, fracDigits)) == Finite(LiteralValue(intDigits, fracDigits))
  {
    var lit := DecimalLiteral(intDigits, fracDigits);
    assert lit[0] == intDigits[0];
    ParseFloatOfDigitStart(lit);
    if fracDigits == [] {
      ParseDecimalWhole(intDigits);
    } else {
      ParseDecimalFraction(intDigits, fracDigits);
    }
  }

  /** Every character of a well-formed literal followed by a unit. */
  predicate IsLiteralChar(c: char) {
    IsDigit(c) || c == '.' || c == 'm' || c == 's'
  }

  lemma LiteralWithUnitChars(intDigits: string, fracDigits: string, unit: string)
    requires AllDigits(intDigits) && AllDigits(fracDigits)
    requires unit == "ms" || unit == "s"
    ensures forall i | 0 <= i < |DecimalLiteral(intDigits, fracDigits) + unit| ::
      IsLiteralChar((DecimalLiteral(intDigits, fracDigits) + unit)[i])
  {
    var s := DecimalLiteral(intDigits, fracDigits) + unit;
    if fracDigits == [] {
      assert s == intDigits + unit;
    } else {
      assert s == intDigits + ("." + fracDigits) + unit;
    }
  }

  lemma ToLowerUnchanged(s: string)
    requires forall i | 0 <= i < |s| :: IsLiteralChar(s[i])
    ensures ToLower(s) == s
  {
  }

  /** A well-formed literal followed by `unit` is left alone by trimming and
      lower-casing. */
  lemma NormalizeLiteralWithUnit(intDigits: string, fracDigits: string, unit: string)
    requires |intDigits| > 0 && AllDigits(intDigits) && AllDigits(fracDigits)
    requires unit == "ms" || unit == "s"
    ensures Normalize(DecimalLiteral(intDigits, fracDigits) + unit) == DecimalLiteral(intDigits, fracDigits) + unit
  {
    var s := DecimalLiteral(intDigits, fracDigits) + unit;
    assert s[0] == intDigits[0];
    assert s[|s| - 1] == 's';
    assert TrimStart(s) == s;
    assert TrimEnd(s) == s;
    LiteralWithUnitChars(intDigits, fracDigits, unit);
    ToLowerUnchanged(s);
  }

  /** The "ms" branch decides every string whose normalized form ends in
      "ms". */
  lemma ResolveMsBranch(s: string, t: string)
    requires t == Normalize(s) && EndsWith(t, "ms")
    ensures var parsed := ParseFloat(t[..|t| - 2]);
      ResolveUpdateInterval(Str(s)) == if parsed.Finite? && parsed.r > 0.0 then parsed.r else DefaultIntervalMs
  {
  }

  /** The "s" branch decides the strings that end in "s" but not "ms". */
  lemma ResolveSecondsBranch(s: string, t: string)
    requires t == Normalize(s) && EndsWith(t, "s") && !EndsWith(t, "ms")
    ensures var parsed := ParseFloat(t[..|t| - 1]);
      ResolveUpdateInterval(Str(s)) == if parsed.Finite? && parsed.r > 0.0 then parsed.r * 1000.0 else DefaultIntervalMs
  {
  }

  /** An interval written `<n>ms` or `<n.f>ms` resolves to n milliseconds
      when that is positive; it is never multiplied by 1000. */
  lemma ResolveMilliseconds(intDigits: string, fracDigits: string)
    requires |intDigits| > 0 && AllDigits(intDigits) && AllDigits(fracDigits)
    ensures var v := LiteralValue(intDigits, fracDigits);
      ResolveUpdateInterval(Str(DecimalLiteral(intDigits, fracDigits) + "ms"))
        == if v > 0.0 then v else DefaultIntervalMs
  {
    var lit := DecimalLiteral(intDigits, fracDigits);
    var s := lit + "ms";
    NormalizeLiteralWithUnit(intDigits, fracDigits, "ms");
    assert EndsWith(s, "ms") by { assert s[|s| - 2..] == "ms"; }
    assert s[..|s| - 2] == lit;
    ParseDecimalLiteral(intDigits, fracDigits);
    ResolveMsBranch(s, s);
  }

  /** An interval written `<n>s` or `<n.f>s` resolves to n * 1000
      milliseconds when n is positive. */
  lemma ResolveSeconds(intDigits: string, fracDigits: string)
    requires |intDigits| > 0 && AllDigits(intDigits) && AllDigits(fracDigits)
    ensures var v := LiteralValue(intDigits, fracDigits);
      ResolveUpdateInterval(Str(DecimalLiteral(intDigits, fracDigits) + "s"))
        == if v > 0.0 then v * 1000.0 else DefaultIntervalMs
  {
    var lit := DecimalLiteral(intDigits, fracDigits);
    var s := lit + "s";
    NormalizeLiteralWithUnit(intDigits, fracDigits, "s");
    assert EndsWith(s, "s") by { assert s[|s| - 1..] == "s"; }
    assert !EndsWith(s, "ms") by {
      var last := if fracDigits == [] then intDigits[|intDigits| - 1] else fracDigits[|fracDigits| - 1];
      assert s[|s| - 2] == last;
    }
    assert s[..|s| - 1] == lit;
    ParseDecimalLiteral(intDigits, fracDigits);
    ResolveSecondsBranch(s, s);
  }

  /** A bare number: positive finite values below 1000 are read as seconds,
      the others as milliseconds; every other number gives the default. */
  lemma ResolveNumber(x: Number)
    ensures ResolveUpdateInterval(Num(x)) ==
      if x.Finite? && x.r > 0.0 then (if x.r < 1000.0 then x.r * 1000.0 else x.r) else DefaultIntervalMs
  {
  }

  /** Anything that is neither a string nor a number gives the default, and
      so does a string whose trimmed, lower-cased form ends in neither "ms"
      nor "s" (a bare numeric string included). */
  lemma ResolveFallback(value: JsValue)
    requires !value.Num?
    requires value.Str? ==> !EndsWith(Normalize(value.s), "s")
    ensures ResolveUpdateInterval(value) == DefaultIntervalMs
  {
  }

  /** "250ms" is read by the "ms" branch, not as 250 seconds. */
  lemma ResolveExampleMs()
    ensures ResolveUpdateInterval(Str("250ms")) == 250.0
  {
    ResolveMilliseconds("250", "");
    assert DecimalLiteral("250", "") + "ms" == "250ms";
    assert "250"[..2] == "25" && "25"[..1] == "2" && "2"[..0] == "";
    assert DigitsValue("250") == 250;
  }

  lemma ResolveExampleFractionalSeconds()
    ensures ResolveUpdateInterval(Str("1.5s")) == 1500.0
  {
    ResolveSeconds("1", "5");
    assert DecimalLiteral("1", "5") + "s" == "1.5s";
  }

  lemma ResolveExampleZeroMs()
    ensures ResolveUpdateInterval(Str("0ms")) == DefaultIntervalMs
  {
    ResolveMilliseconds("0", "");
    assert DecimalLiteral("0", "") + "ms" == "0ms";
  }
}
