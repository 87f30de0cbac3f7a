/** `getDom`: what the module shows for its state. An error wins over
    everything, no stats means the loading text, and otherwise there is one
    row per metric, each with its severity, and an uptime row. Labels,
    icons and the percent and temperature texts are not modelled. */
module Display {
  import opened JsValues
  import opened Thresholds
  import opened Severities
  import opened Uptime
  import opened Validation
  import opened Scheduler

  /** A metric row: its icon name and the severity its value is marked
      with. */
  datatype Row = Row(icon: string, severity: Severity)

  datatype View =
    | ErrorView(message: JsValue)
    | LoadingView
    | StatsView(rows: seq<Row>, uptime: string)

  /** The payload field a metric row shows. */
  function Field(m: Metric): string {
    match m
    case Cpu => "cpuLoad"
    case Temp => "cpuTemp"
    case Ram => "ramUsedPercent"
    case Disk => "diskUsedPercent"
  }

  function MetricRow(thresholds: map<Metric, Threshold>, stats: JsValue, m: Metric): Row {
    Row(Key(m), GetSeverity(thresholds, Key(m), Prop(stats, Field(m))))
  }

  /** The view of the module's `error` and `stats` fields. */
  function Render(error: JsValue, stats: JsValue, thresholds: map<Metric, Threshold>): View {
    if Truthy(error) then ErrorView(error)
    else if !Truthy(stats) then LoadingView
    else
      StatsView(
        [MetricRow(thresholds, stats, Cpu), MetricRow(thresholds, stats, Temp),
         MetricRow(thresholds, stats, Ram), MetricRow(thresholds, stats, Disk)],
        FormatUptime(Prop(stats, "uptimeSeconds")))
  }

  /** Exactly one of the three views, chosen by the error first and the
      stats second. */
  lemma ViewChoice(error: JsValue, stats: JsValue, thresholds: map<Metric, Threshold>)
    ensures var v := Render(error, stats, thresholds);
      && (v.ErrorView? <==> Truthy(error))
      && (v.LoadingView? <==> !Truthy(error) && !Truthy(stats))
      && (v.StatsView? <==> !Truthy(error) && Truthy(stats))
      && (v.ErrorView? ==> v.message == error)
      && (v.StatsView? ==> |v.rows| == 4)
  {
  }

  /** Right after `start` the loading text is shown. */
  lemma StartShowsLoading(updateIntervalMs: real, thresholds: map<Metric, Threshold>)
    requires updateIntervalMs > 0.0
    ensures var s := Start(updateIntervalMs);
      Render(s.error, s.stats, thresholds) == LoadingView
  {
  }

  /** After a failure the error line is shown: the fixed text for an
      invalid payload, the payload's message or "Unknown error" for
      STATS_ERROR. */
  lemma FailureShowsError(s: State, notification: string, payload: JsValue, maxBackoffFactor: real, thresholds: map<Metric, Threshold>)
    requires Consistent(s)
    requires notification == StatsError || (notification == StatsUpdate && !IsValidStats(payload))
    ensures var r := Receive(s, notification, payload, maxBackoffFactor);
      Render(r.error, r.stats, thresholds)
        == ErrorView(if notification == StatsUpdate then Str(InvalidPayloadMessage) else ErrorMessage(payload))
  {
    FailureStep(s, notification, payload, maxBackoffFactor);
  }

  /** After a valid update the stats view is shown for that payload,
      whatever error was shown before. */
  lemma SuccessShowsStats(s: State, payload: JsValue, maxBackoffFactor: real, thresholds: map<Metric, Threshold>)
    requires Consistent(s)
    requires IsValidStats(payload)
    ensures var r := Receive(s, StatsUpdate, payload, maxBackoffFactor);
      Render(r.error, r.stats, thresholds) == Render(Null, payload, thresholds)
    ensures Render(Null, payload, thresholds).StatsView?
  {
    SuccessStep(s, payload, maxBackoffFactor);
  }

  /** With thresholds for the metric, a value is neutral exactly when it
      is not a number. */
  lemma NeutralOnlyForNonNumbers(thresholds: map<Metric, Threshold>, m: Metric, value: JsValue)
    requires m in thresholds
    ensures GetSeverity(thresholds, Key(m), value) == Neutral <==> !IsNumber(value)
  {
    MetricOfKeyInverse(m);
  }

  /** For an accepted payload and thresholds for every metric (which
      `Normalized` always gives), the CPU and RAM rows always carry a real
      severity, the temperature and disk rows are neutral exactly when their
      value is null, and the uptime is never "N/A". */
  lemma AcceptedPayloadView(thresholds: map<Metric, Threshold>, stats: JsValue)
    requires forall m: Metric :: m in thresholds
    requires IsValidStats(stats)
    ensures var v := Render(Null, stats, thresholds);
      && v.StatsView?
      && v.rows[0].severity != Neutral
      && (v.rows[1].severity == Neutral <==> Prop(stats, "cpuTemp") == Null)
      && v.rows[2].severity != Neutral
      && (v.rows[3].severity == Neutral <==> Prop(stats, "diskUsedPercent") == Null)
      && v.uptime != "N/A"
  {
    var th := thresholds;
    var rows := [MetricRow(th, stats, Cpu), MetricRow(th, stats, Temp),
                 MetricRow(th, stats, Ram), MetricRow(th, stats, Disk)];
    assert Render(Null, stats, th) == StatsView(rows, FormatUptime(Prop(stats, "uptimeSeconds")));
    NeutralOnlyForNonNumbers(th, Cpu, Prop(stats, Field(Cpu)));
    NeutralOnlyForNonNumbers(th, Temp, Prop(stats, Field(Temp)));
    NeutralOnlyForNonNumbers(th, Ram, Prop(stats, Field(Ram)));
    NeutralOnlyForNonNumbers(th, Disk, Prop(stats, Field(Disk)));
    NotAvailableIff(Prop(stats, "uptimeSeconds"));
  }
}
