/** `getSeverity`: a metric value classified against the normalized
    thresholds of its metric. Both bounds are inclusive, and the critical
    test comes first. */
module Severities {
  import opened JsValues
  import opened Thresholds

  datatype Severity = Neutral | Ok | Warning | Critical

  /** The severity of `value` for the metric named `metricKey`. */
  function GetSeverity(thresholds: map<Metric, Threshold>, metricKey: string, value: JsValue): Severity {
    if !IsNumber(value) then Neutral
    else
      var m := MetricOfKey(metricKey);
      if m.None? || m.value !in thresholds then Neutral
      else
        var t := thresholds[m.value];
        if GreaterOrEqual(value.n, Finite(t.critical)) then Critical
        else if GreaterOrEqual(value.n, Finite(t.warning)) then Warning
        else Ok
  }

  /** The order of the non-neutral severities. */
  function Rank(s: Severity): nat {
    match s
    case Neutral => 0
    case Ok => 0
    case Warning => 1
    case Critical => 2
  }

  /** "neutral" exactly when the value is not a number or there are no
      thresholds for the key. */
  lemma NeutralIff(thresholds: map<Metric, Threshold>, metricKey: string, value: JsValue)
    ensures GetSeverity(thresholds, metricKey, value) == Neutral <==>
      !IsNumber(value) || MetricOfKey(metricKey).None? || MetricOfKey(metricKey).value !in thresholds
  {
  }

  /** For a finite value: "critical" iff value >= critical, "warning" iff
      warning <= value < critical, "ok" iff the value is below both. */
  lemma SeverityBands(thresholds: map<Metric, Threshold>, m: Metric, x: real)
    requires m in thresholds
    ensures var t := thresholds[m];
      var s := GetSeverity(thresholds, Key(m), Num(Finite(x)));
      && (s == Critical <==> x >= t.critical)
      && (s == Warning <==> t.warning <= x < t.critical)
      && (s == Ok <==> x < t.warning && x < t.critical)
  {
    MetricOfKeyInverse(m);
  }

  /** The non-finite numbers: NaN compares false with everything and so is
      "ok", +Infinity is "critical", -Infinity is "ok". */
  lemma SeverityNonFinite(thresholds: map<Metric, Threshold>, m: Metric)
    requires m in thresholds
    ensures GetSeverity(thresholds, Key(m), Num(NaN)) == Ok
    ensures GetSeverity(thresholds, Key(m), Num(PosInf)) == Critical
    ensures GetSeverity(thresholds, Key(m), Num(NegInf)) == Ok
  {
    MetricOfKeyInverse(m);
  }

  /** A larger value never has a lower severity. */
  lemma SeverityMonotone(thresholds: map<Metric, Threshold>, m: Metric, x: real, y: real)
    requires m in thresholds
    requires x <= y
    ensures Rank(GetSeverity(thresholds, Key(m), Num(Finite(x)))) <= Rank(GetSeverity(thresholds, Key(m), Num(Finite(y))))
  {
    MetricOfKeyInverse(m);
  }

  /** With the default thresholds, a RAM use of 88.1% is a warning (at
      least 70, below 90), and exactly 90% is critical. */
  lemma DefaultRamExamples()
    ensures GetSeverity(Normalized(Undefined), "ram", Num(Finite(88.1))) == Warning
    ensures GetSeverity(Normalized(Undefined), "ram", Num(Finite(90.0))) == Critical
    ensures GetSeverity(Normalized(Undefined), "ram", Num(Finite(69.9))) == Ok
  {
    NormalizedDefaults(Undefined, Ram);
    MetricOfKeyInverse(Ram);
  }
}
