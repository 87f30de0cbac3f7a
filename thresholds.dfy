/** `normalizeThresholds`: the configured per-metric warning/critical bounds
    merged field by field over the built-in defaults, with the critical bound
    raised to the warning bound when it lies below it. */
module Thresholds {
  import opened JsValues

  datatype Threshold = Threshold(warning: real, critical: real)

  /** The metrics that carry thresholds. */
  datatype Metric = Cpu | Temp | Ram | Disk

  /** The property name of a metric in the thresholds objects. */
  function Key(m: Metric): string {
    match m
    case Cpu => "cpu"
    case Temp => "temp"
    case Ram => "ram"
    case Disk => "disk"
  }

  /** The metric a property name stands for, if any. */
  function MetricOfKey(key: string): (m: Option<Metric>)
    ensures m.Some? ==> Key(m.value) == key
  {
    if key == "cpu" then Some(Cpu)
    else if key == "temp" then Some(Temp)
    else if key == "ram" then Some(Ram)
    else if key == "disk" then Some(Disk)
    else None
  }

  lemma MetricOfKeyInverse(m: Metric)
    ensures MetricOfKey(Key(m)) == Some(m)
  {
    match m
    case Cpu =>
    case Temp => assert "temp" != "cpu" by { assert "temp"[0] != "cpu"[0]; }
    case Ram =>
      assert "ram" != "cpu" by { assert "ram"[0] != "cpu"[0]; }
      assert "ram" != "temp" by { assert "ram"[0] != "temp"[0]; }
    case Disk =>
      assert "disk" != "cpu" by { assert "disk"[0] != "cpu"[0]; }
      assert "disk" != "temp" by { assert "disk"[0] != "temp"[0]; }
      assert "disk" != "ram" by { assert "disk"[0] != "ram"[0]; }
  }

  /** The metrics, in the order the source iterates over their keys. */
  const MetricKeys: seq<Metric> := [Cpu, Temp, Ram, Disk]

  /** The fallback table. */
  function Default(m: Metric): Threshold {
    match m
    case Cpu => Threshold(60.0, 85.0)
    case Temp => Threshold(65.0, 80.0)
    case Ram => Threshold(70.0, 90.0)
    case Disk => Threshold(80.0, 95.0)
  }

  /** The configured thresholds object, or `{}` when it is falsy or not an
      object. */
  function SafeThresholds(thresholds: JsValue): JsValue {
    if Truthy(thresholds) && IsObjectType(thresholds) then thresholds else Obj(map[])
  }

  /** `safeThresholds[key] || {}` */
  function ConfigEntry(safe: JsValue, m: Metric): JsValue {
    var entry := Prop(safe, Key(m));
    if Truthy(entry) then entry else Obj(map[])
  }

  /** A configured field when it is a finite number, else the fallback. */
  function FieldOr(v: JsValue, fallback: real): real {
    if IsFiniteNumber(v) then v.n.r else fallback
  }

  /** The normalized entry for one key. */
  function NormalizeEntry(safe: JsValue, m: Metric): (t: Threshold)
    ensures t.critical >= t.warning
  {
    var fallback := Default(m);
    var fromConfig := ConfigEntry(safe, m);
    var warning := FieldOr(Prop(fromConfig, "warning"), fallback.warning);
    var critical := FieldOr(Prop(fromConfig, "critical"), fallback.critical);
    Threshold(warning, if critical >= warning then critical else warning)
  }

  /** The entries for `keys`, added one key after another: exactly the
      listed metrics, each with its own normalized entry. */
  function NormalizedOver(safe: JsValue, keys: seq<Metric>): (r: map<Metric, Threshold>)
    ensures forall m :: m in r <==> m in keys
    ensures forall m | m in r :: r[m] == NormalizeEntry(safe, m)
  {
    if keys == [] then map[]
    else
      var m := keys[|keys| - 1];
      var init := keys[..|keys| - 1];
      assert keys == init + [m];
      NormalizedOver(safe, init)[m := NormalizeEntry(safe, m)]
  }

  /** The normalized threshold set: an entry for every metric, each with
      critical >= warning, whatever the configuration. */
  function Normalized(thresholds: JsValue): (r: map<Metric, Threshold>)
    ensures forall m: Metric :: m in r && r[m].critical >= r[m].warning
  {
    AllMetricsListed();
    NormalizedOver(SafeThresholds(thresholds), MetricKeys)
  }

  lemma AllMetricsListed()
    ensures forall m: Metric :: m in MetricKeys
  {
    forall m: Metric
      ensures m in MetricKeys
    {
      match m
      case Cpu => assert MetricKeys[0] == m;
      case Temp => assert MetricKeys[1] == m;
      case Ram => assert MetricKeys[2] == m;
      case Disk => assert MetricKeys[3] == m;
    }
  }

  /** The source's `forEach` over the keys, filling the result one key at a
      time. */
  method NormalizeThresholds(thresholds: JsValue) returns (normalized: map<Metric, Threshold>)
    ensures normalized == Normalized(thresholds)
  {
    var safe := if Truthy(thresholds) && IsObjectType(thresholds) then thresholds else Obj(map[]);
    normalized := map[];
    var keys := MetricKeys;
    for i := 0 to |keys|
      invariant normalized == NormalizedOver(safe, keys[..i])
    {
      var m := keys[i];
      var entry := Prop(safe, Key(m));
      var fromConfig := if Truthy(entry) then entry else Obj(map[]);
      var configWarning := Prop(fromConfig, "warning");
      var configCritical := Prop(fromConfig, "critical");
      var warning := if IsFiniteNumber(configWarning) then configWarning.n.r else Default(m).warning;
      var critical := if IsFiniteNumber(configCritical) then configCritical.n.r else Default(m).critical;
      normalized := normalized[m := Threshold(warning, if critical >= warning then critical else warning)];
      assert normalized[m] == NormalizeEntry(safe, m);
      assert keys[..i + 1][..i] == keys[..i];
      assert keys[..i + 1] != [] && keys[..i + 1][i] == m;
    }
    assert keys[..|keys|] == keys;
  }

  /** A field is taken from the configuration exactly when it is a finite
      number there; otherwise the default stands in for it. The warning
      bound is that field as is; the critical bound is that field raised to
      the warning bound. */
  lemma NormalizedFieldSource(thresholds: JsValue, m: Metric)
    ensures var entry := ConfigEntry(SafeThresholds(thresholds), m);
      var w := Prop(entry, "warning");
      var c := Prop(entry, "critical");
      var t := Normalized(thresholds)[m];
      var critical := if IsFiniteNumber(c) then c.n.r else Default(m).critical;
      && t.warning == (if IsFiniteNumber(w) then w.n.r else Default(m).warning)
      && (critical >= t.warning ==> t.critical == critical)
      && (critical < t.warning ==> t.critical == t.warning)
  {
  }

  /** Without a usable entry for the metric (no thresholds object, or a
      falsy entry) the default comes out unchanged. */
  lemma NormalizedDefaults(thresholds: JsValue, m: Metric)
    requires !Truthy(Prop(SafeThresholds(thresholds), Key(m)))
    ensures Normalized(thresholds)[m] == Default(m)
  {
  }

  lemma KeyInjective(a: Metric, b: Metric)
    ensures Key(a) == Key(b) ==> a == b
  {
    if Key(a) == Key(b) {
      assert Key(a)[0] == Key(b)[0];
    }
  }

  /** A threshold as the configuration writes it. */
  function AsConfigEntry(t: Threshold): JsValue {
    Obj(map["warning" := Num(Finite(t.warning)), "critical" := Num(Finite(t.critical))])
  }

  /** The configuration as the source reads it back: an object with a
      `warning` and a `critical` number per key. */
  function AsConfig(normalized: map<Metric, Threshold>): JsValue {
    forall a: Metric, b: Metric ensures Key(a) == Key(b) ==> a == b {
      KeyInjective(a, b);
    }
    Obj(map m | m in normalized :: Key(m) := AsConfigEntry(normalized[m]))
  }

  lemma AsConfigLookup(normalized: map<Metric, Threshold>, m: Metric)
    requires m in normalized
    ensures ConfigEntry(SafeThresholds(AsConfig(normalized)), m) == AsConfigEntry(normalized[m])
  {
    forall a: Metric ensures Key(a) == Key(m) ==> a == m {
      KeyInjective(a, m);
    }
    assert Key(m) in AsConfig(normalized).props;
  }

  /** A configured entry that already satisfies critical >= warning is
      taken over unchanged. */
  lemma NormalizeConfiguredEntry(safe: JsValue, m: Metric, t: Threshold)
    requires ConfigEntry(safe, m) == AsConfigEntry(t)
    requires t.critical >= t.warning
    ensures NormalizeEntry(safe, m) == t
  {
    assert "warning" != "critical" by { assert "warning"[0] != "critical"[0]; }
    var entry := AsConfigEntry(t);
    assert Prop(entry, "warning") == Num(Finite(t.warning));
    assert Prop(entry, "critical") == Num(Finite(t.critical));
  }

  /** Normalizing is idempotent: feeding a normalized set back in as the
      configuration gives the same set. */
  lemma NormalizedIdempotent(thresholds: JsValue)
    ensures Normalized(AsConfig(Normalized(thresholds))) == Normalized(thresholds)
  {
    var n := Normalized(thresholds);
    var config := AsConfig(n);
    var again := Normalized(config);
    forall m: Metric
      ensures again[m] == n[m]
    {
      AsConfigLookup(n, m);
      NormalizeConfiguredEntry(SafeThresholds(config), m, n[m]);
      NormalizedEntry(config, m);
    }
    assert again.Keys == n.Keys;
  }
  lemma NormalizedEntry(thresholds: JsValue, m: Metric)
    ensures Normalized(thresholds)[m] == NormalizeEntry(SafeThresholds(thresholds), m)
  {
    AllMetricsListed();
  }
}
