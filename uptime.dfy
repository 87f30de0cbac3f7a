/** `formatUptime`: seconds decomposed by floor division into days, hours
    and minutes, the day part left out when it is not positive. */
module Uptime {
  import opened JsValues
  import opened Decimal

  const SecondsPerDay: real := 86400.0
  const SecondsPerHour: real := 3600.0
  const SecondsPerMinute: real := 60.0

  /** Truncation toward zero. */
  function Trunc(x: real): int {
    if x >= 0.0 then x.Floor else -((-x).Floor)
  }

  /** JavaScript's `a % b` on finite numbers: the remainder of a division
      truncated toward zero, so it takes the sign of `a`. */
  function Rem(a: real, b: real): real
    requires b > 0.0
  {
    a - b * Trunc(a / b) as real
  }

  /** `Math.floor(seconds / 86400)` */
  function Days(x: real): int {
    (x / SecondsPerDay).Floor
  }

  /** `Math.floor((seconds % 86400) / 3600)` */
  function Hours(x: real): int {
    (Rem(x, SecondsPerDay) / SecondsPerHour).Floor
  }

  /** `Math.floor((seconds % 3600) / 60)` */
  function Minutes(x: real): int {
    (Rem(x, SecondsPerHour) / SecondsPerMinute).Floor
  }

  /** The uptime text. A non-number is "N/A"; the non-finite numbers print
      as JavaScript prints the NaN and Infinity the arithmetic produces. */
  function FormatUptime(seconds: JsValue): string {
    if !IsNumber(seconds) then "N/A"
    else
      match seconds.n
      case NaN => "NaNh NaNm"
      case NegInf => "NaNh NaNm"
      case PosInf => "Infinityd NaNh NaNm"
      case Finite(x) =>
        var days := Days(x);
        var hours := Hours(x);
        var minutes := Minutes(x);
        if days > 0 then
          IntToDecimal(days) + "d " + IntToDecimal(hours) + "h " + IntToDecimal(minutes) + "m"
        else
          IntToDecimal(hours) + "h " + IntToDecimal(minutes) + "m"
  }

  lemma FloorShift(n: int, y: real)
    ensures (n as real + y).Floor == n + y.Floor
  {
  }

  /** For a non-negative uptime, the parts are a days/hours/minutes
      decomposition of it: hours below 24, minutes below 60, and together
      they cover the uptime to within the dropped seconds. */
  lemma UptimeDecomposition(x: real)
    requires x >= 0.0
    ensures var d, h, m := Days(x), Hours(x), Minutes(x);
      && d >= 0 && 0 <= h < 24 && 0 <= m < 60
      && (d * 86400 + h * 3600 + m * 60) as real <= x < (d * 86400 + h * 3600 + m * 60 + 60) as real
  {
    var d := Days(x);
    var r1 := Rem(x, SecondsPerDay);
    assert Trunc(x / SecondsPerDay) == d;
    assert r1 == x - (d * 86400) as real;
    assert 0.0 <= r1 < 86400.0;
    var h := Hours(x);
    assert 0 <= h < 24;
    assert (h * 3600) as real <= r1 < (h * 3600 + 3600) as real;
    assert x / SecondsPerHour == (24 * d) as real + r1 / SecondsPerHour;
    FloorShift(24 * d, r1 / SecondsPerHour);
    assert Trunc(x / SecondsPerHour) == 24 * d + h;
    var r2 := Rem(x, SecondsPerHour);
    assert r2 == x - (d * 86400 + h * 3600) as real;
    assert 0.0 <= r2 < 3600.0;
  }

  /** The day part is shown exactly when the uptime is at least one day. */
  lemma DayPartShownIff(x: real)
    requires x >= 0.0
    ensures Days(x) > 0 <==> x >= SecondsPerDay
  {
  }

  /** "N/A" is the text of exactly the non-numbers. */
  lemma NotAvailableIff(seconds: JsValue)
    ensures FormatUptime(seconds) == "N/A" <==> !IsNumber(seconds)
  {
    var text := FormatUptime(seconds);
    if IsNumber(seconds) {
      assert text[|text| - 1] == 'm';
    }
  }

  /** 93725 seconds are one day, two hours and two minutes; below a day the
      day part is left out. */
  lemma UptimeExamples()
    ensures FormatUptime(Num(Finite(93725.0))) == "1d 2h 2m"
    ensures FormatUptime(Num(Finite(7325.0))) == "2h 2m"
  {
    assert Days(93725.0) == 1 && Hours(93725.0) == 2 && Minutes(93725.0) == 2;
    assert Days(7325.0) == 0 && Hours(7325.0) == 2 && Minutes(7325.0) == 2;
    assert IntToDecimal(1) == "1" && IntToDecimal(2) == "2";
  }
}
