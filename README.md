# MMM-SystemStats: polling, backoff and display logic in Dafny

MMM-SystemStats is a MagicMirror² module that shows CPU load, CPU
temperature, RAM use, disk use and uptime. Its front-end module
(`MMM-SystemStats.js`) asks its node helper for metrics with a GET_STATS
notification. It does this once at start and then on a repeating timer. A
failure arrives as a STATS_ERROR notification or as a STATS_UPDATE whose
payload has the wrong shape. After a failure the module arms a one-shot retry
timer whose delay doubles with each further failure, up to a configured cap.
A valid update resets the failure count. Each metric value is marked `ok`,
`warning` or `critical` against per-metric thresholds.

This project models that front-end module:

- `js_values.dfy` (`JsValues`): the JavaScript values the module handles.
  A number is a finite real, NaN or ±Infinity. The file also defines
  truthiness, property lookup and `>=` with NaN.
- `decimal.dfy` (`Decimal`): decimal digit strings, and integers printed
  as JavaScript prints them in template strings.
- `interval.dfy` (`Interval`): `resolveUpdateInterval`. It includes
  `trim`, ASCII `toLowerCase`, and `Number.parseFloat` on a sign,
  `Infinity`, and decimal digits with an optional fraction and exponent.
- `thresholds.dfy` (`Thresholds`): `normalizeThresholds`. A pure
  specification function describes the result, and a method with the
  source's loop over the keys is proved equal to it.
- `validation.dfy` (`Validation`): `isValidStats`. The accepted payloads
  are shown to be exactly the encodings of a metrics snapshot.
- `severity.dfy` (`Severities`): `getSeverity`.
- `uptime.dfy` (`Uptime`): `formatUptime`.
- `scheduler.dfy` (`Scheduler`): the polling and backoff state machine as
  pure transitions over the module's fields. The state also holds the
  host's live timers, the number of requests sent and the number of
  display refreshes. The invariant `Consistent` says the live timers are
  exactly the ones the module holds. The file also has runs of events from
  `start`.
- `display.dfy` (`Display`): the view choice in `getDom`, and the
  severities and uptime text of the rows it builds.
- `system_stats.dfy` (`SystemStatsModule`): the module as a class. Its
  fields are updated in place by `start` (the constructor), `startScheduler`,
  `clearRetryTimeout`, `scheduleRetry`, `socketNotificationReceived`,
  `suspend`, `resume`, `stop` and the two timer callbacks. Every method is
  proved to change the fields exactly as the matching `Scheduler`
  transition does.

The host is reduced to parameters and counters. `setInterval` and
`setTimeout` hand out fresh ids, counting from 1 so every id is truthy.
`clearInterval` and `clearTimeout` remove a live timer.
`sendSocketNotification("GET_STATS")` and `updateDom` are counters.

## Model

| member | source | states |
|---|---|---|
| Interval.ResolveUpdateInterval | MMM-SystemStats.js:29-47 | the resolved interval is always positive |
| Interval.ResolveMsBranch | MMM-SystemStats.js:30-35 | a string whose trimmed, lower-cased form ends in "ms" gives the parsed prefix when it is finite and positive, else 5000 |
| Interval.ResolveSecondsBranch | MMM-SystemStats.js:36-39 | a string ending in "s" but not "ms" gives 1000 times the parsed prefix when it is finite and positive, else 5000 |
| Interval.ResolveMilliseconds | MMM-SystemStats.js:32-34 | `<n>ms` resolves to n when n > 0 and to 5000 otherwise; the "ms" test comes first, so no factor of 1000 is applied |
| Interval.ResolveSeconds | MMM-SystemStats.js:36-38 | `<n>s` resolves to n·1000 when n > 0 and to 5000 otherwise |
| Interval.ResolveNumber | MMM-SystemStats.js:42-44 | a finite positive number below 1000 is multiplied by 1000, one at or above 1000 is kept, and NaN, ±Infinity and non-positive numbers give 5000 |
| Interval.ResolveFallback | MMM-SystemStats.js:29-46 | a value that is neither a number nor a string, and a string ending in neither unit, give 5000 |
| Interval.ParseDecimalLiteral | MMM-SystemStats.js:33 | `parseFloat` reads a well-formed decimal literal as its exact value |
| Interval.NormalizeLiteralWithUnit | MMM-SystemStats.js:31 | trimming and lower-casing leave a literal followed by its unit unchanged |
| Interval.ResolveExampleMs | MMM-SystemStats.js:32-34 | "250ms" resolves to 250 |
| Interval.ResolveExampleFractionalSeconds | MMM-SystemStats.js:36-38 | "1.5s" resolves to 1500 |
| Interval.ResolveExampleZeroMs | MMM-SystemStats.js:34 | "0ms" falls back to 5000 |
| Thresholds.MetricOfKey | MMM-SystemStats.js:198 | a key names a metric only if it is that metric's property name |
| Thresholds.MetricOfKeyInverse | MMM-SystemStats.js:198 | each metric's property name looks up that metric |
| Thresholds.NormalizeEntry | MMM-SystemStats.js:62-73 | every normalized entry has critical >= warning |
| Thresholds.NormalizedOver | MMM-SystemStats.js:60-74 | the entries built for a key list are exactly the listed metrics, each with its own normalized entry |
| Thresholds.Normalized | MMM-SystemStats.js:49-77 | the result has an entry for each of cpu, temp, ram and disk, each with critical >= warning, whatever the configuration |
| Thresholds.NormalizeThresholds | MMM-SystemStats.js:49-77 | the loop over the keys builds exactly the specified normalized map |
| Thresholds.NormalizedFieldSource | MMM-SystemStats.js:62-72 | a bound comes from the configuration exactly when it is a finite number there, and otherwise from the default; the critical bound is then raised to the warning bound |
| Thresholds.NormalizedDefaults | MMM-SystemStats.js:50-62 | without a usable entry for a metric, its default pair (60/85, 65/80, 70/90, 80/95) comes out unchanged |
| Thresholds.NormalizedIdempotent | MMM-SystemStats.js:49-77 | normalizing a normalized set again, fed back as configuration, gives the same set |
| Validation.EncodeAccepted | MMM-SystemStats.js:153-167 | every payload carrying a snapshot's five fields is accepted, whatever other properties it has, and reads back as that snapshot |
| Validation.AcceptedIsEncoded | MMM-SystemStats.js:153-167 | every accepted payload is its own snapshot over its own properties |
| Validation.ValidIffEncoded | MMM-SystemStats.js:153-167 | a payload is accepted if and only if it encodes some snapshot |
| Validation.RejectedExamples | MMM-SystemStats.js:154-165 | null, a string, a non-number load and a missing (undefined, not null) temperature are rejected |
| Severities.NeutralIff | MMM-SystemStats.js:194-201 | "neutral" exactly for a non-number or a key without thresholds |
| Severities.SeverityBands | MMM-SystemStats.js:203-211 | for a finite value: critical iff value >= critical, warning iff warning <= value < critical, ok iff below both; equality rounds up |
| Severities.SeverityNonFinite | MMM-SystemStats.js:203-211 | NaN is "ok", +Infinity is "critical", -Infinity is "ok" |
| Severities.SeverityMonotone | MMM-SystemStats.js:203-211 | a larger value never gets a lower severity |
| Severities.DefaultRamExamples | MMM-SystemStats.js:193-212 | with default thresholds, RAM at 88.1% is a warning, at 90% critical and at 69.9% ok |
| Decimal.NatToDecimalRoundTrip | MMM-SystemStats.js:187 | the printed digits of a natural number read back as that number |
| Decimal.IntToDecimalInjective | MMM-SystemStats.js:187 | distinct integers print differently |
| Uptime.UptimeDecomposition | MMM-SystemStats.js:182-184 | for a non-negative uptime, days >= 0, hours < 24, minutes < 60, and together they cover the uptime to within one minute |
| Uptime.DayPartShownIff | MMM-SystemStats.js:186-187 | the day part is shown exactly when the uptime is at least 86400 s |
| Uptime.NotAvailableIff | MMM-SystemStats.js:178-180 | the text is "N/A" exactly for non-numbers |
| Uptime.UptimeExamples | MMM-SystemStats.js:177-191 | 93725 s is "1d 2h 2m" and 7325 s is "2h 2m" |
| Scheduler.AtMostOneTimerOfEachKind | MMM-SystemStats.js:79-112 | in a consistent state at most one interval timer and one retry timer are live, so at most two timers in all |
| Scheduler.Pow2Monotone | MMM-SystemStats.js:104-105 | 2^j <= 2^k for j <= k |
| Scheduler.BackoffBounds | MMM-SystemStats.js:102-106 | the retry delay never shrinks as failures accumulate and never exceeds the interval times the cap |
| Scheduler.DefaultBackoffSequence | MMM-SystemStats.js:102-106 | with 5000 ms and cap 8, failures one to four wait 5000, 10000, 20000 and 40000 ms, and every later one 40000 ms |
| Scheduler.Initial | MMM-SystemStats.js:17-23 | the freshly reset fields are consistent |
| Scheduler.ClearRetryTimeout | MMM-SystemStats.js:95-100 | the retry timer is cleared and forgotten, and no other field or live timer changes |
| Scheduler.StartScheduler | MMM-SystemStats.js:79-89 | no retry is left, exactly one repeating timer at the poll period is live, and the error count, stats and error are unchanged |
| Scheduler.Start | MMM-SystemStats.js:17-27 | after `start` there are no stats, no error, no failures, one request sent, the resolved interval, no retry pending, and exactly one repeating timer with that period, held in `intervalHandle` |
| Scheduler.ScheduleRetry | MMM-SystemStats.js:102-112 | the old retry is gone and exactly one new one-shot timer is armed with delay interval·min(2^max(0, errors-1), cap); the interval timer is untouched |
| Scheduler.ErrorMessage | MMM-SystemStats.js:135 | the error set by STATS_ERROR is always truthy |
| Scheduler.Fail | MMM-SystemStats.js:116-122 | the failure path keeps the invariant |
| Scheduler.Succeed | MMM-SystemStats.js:125-129 | the success path keeps the invariant |
| Scheduler.Receive | MMM-SystemStats.js:114-140 | every notification keeps the invariant |
| Scheduler.Suspend | MMM-SystemStats.js:305-312 | both handles are cleared and no timer is left live; the error count and requests are unchanged. Notifications are still handled afterwards, so a late failure reply re-arms a retry: "no requests while suspended" does not hold of the source |
| Scheduler.Resume | MMM-SystemStats.js:314-317 | `resume` keeps the invariant |
| Scheduler.Stop | MMM-SystemStats.js:319-321 | `stop` keeps the invariant; it is `suspend`, so a late failure reply still re-arms a retry |
| Scheduler.RetryFired | MMM-SystemStats.js:108-111 | the retry callback keeps the invariant |
| Scheduler.FailureStep | MMM-SystemStats.js:114-139 | an invalid payload or STATS_ERROR raises the count by exactly one, drops the stats, sets "Invalid metrics payload" or the payload's message or "Unknown error", arms a single retry with the delay for the new count, removes the old retry and keeps the interval timer |
| Scheduler.SuccessStep | MMM-SystemStats.js:124-130 | a valid STATS_UPDATE resets the count, leaves no retry, clears the error, stores the payload and keeps only the interval timer |
| Scheduler.OtherNotificationIgnored | MMM-SystemStats.js:114-140 | any other notification changes nothing |
| Scheduler.ResumeRearms | MMM-SystemStats.js:314-317 | `resume` sends one request and leaves exactly one repeating timer at the poll period, no retry, and the error count unchanged |
| Scheduler.Step | MMM-SystemStats.js:79-321 | every event keeps the invariant; a timer fires only while it is live |
| Scheduler.Run | MMM-SystemStats.js:79-321 | every sequence of events keeps the invariant |
| Scheduler.ReachableStatesHoldTheirTimers | MMM-SystemStats.js:79-112 | in every state reachable from `start`, the live timers are exactly the held handles, at most two of them |
| Scheduler.SuspendedStaysQuiet | MMM-SystemStats.js:305-312 | once suspended, no timer fires and no request is sent until a lifecycle call or notification |
| Scheduler.RepeatedFailures | MMM-SystemStats.js:102-139 | over any run of failure notifications with interval ticks and retry timeouts between them, the count rises by the number of failures, a pending retry always waits the backoff delay for the current count, the interval handle and period are kept, and after a failure a retry is pending |
| Scheduler.LateFailureAfterSuspendRearms | MMM-SystemStats.js:114-140 | a failure reply arriving after `suspend` or `stop` arms a retry timer although no timer was live; when it fires one request goes out |
| Scheduler.SuspendedFailuresKeepPolling | MMM-SystemStats.js:102-140 | after `suspend` or `stop`, n late failures each followed by its retry send n requests, with no lifecycle call in between |
| Display.ViewChoice | MMM-SystemStats.js:251-261 | the error view exactly when the error is truthy, loading exactly when neither is truthy, the four metric rows otherwise |
| Display.StartShowsLoading | MMM-SystemStats.js:257-261 | right after `start` the loading text is shown |
| Display.FailureShowsError | MMM-SystemStats.js:251-255 | after a failure the error line shows the message that was set |
| Display.SuccessShowsStats | MMM-SystemStats.js:263-301 | after a valid update the rows of that payload are shown, whatever error was shown before |
| Display.NeutralOnlyForNonNumbers | MMM-SystemStats.js:194-201 | with thresholds for the metric, a row is neutral exactly when its value is not a number |
| Display.AcceptedPayloadView | MMM-SystemStats.js:263-301 | for an accepted payload the CPU and RAM rows always have a real severity, the temperature and disk rows are neutral exactly when null, and the uptime is never "N/A" |
| SystemStatsModule.SystemStats.constructor | MMM-SystemStats.js:17-27 | `start` yields the specified start state, the normalized thresholds and the configured cap |
| SystemStatsModule.SystemStats.ClearRetryTimeout | MMM-SystemStats.js:95-100 | the fields change as `Scheduler.ClearRetryTimeout` says, and stay valid |
| SystemStatsModule.SystemStats.StartScheduler | MMM-SystemStats.js:79-89 | the fields change as `Scheduler.StartScheduler` says, and stay valid |
| SystemStatsModule.SystemStats.ScheduleRetry | MMM-SystemStats.js:102-112 | the fields change as `Scheduler.ScheduleRetry` says, and stay valid |
| SystemStatsModule.SystemStats.RecordFailure | MMM-SystemStats.js:116-122 | the fields change as `Scheduler.Fail` says |
| SystemStatsModule.SystemStats.RecordSuccess | MMM-SystemStats.js:125-129 | the fields change as `Scheduler.Succeed` says |
| SystemStatsModule.SystemStats.SocketNotificationReceived | MMM-SystemStats.js:114-140 | the fields change as `Scheduler.Receive` says, and stay valid |
| SystemStatsModule.SystemStats.Suspend | MMM-SystemStats.js:305-312 | the fields change as `Scheduler.Suspend` says |
| SystemStatsModule.SystemStats.Resume | MMM-SystemStats.js:314-317 | the fields change as `Scheduler.Resume` says |
| SystemStatsModule.SystemStats.Stop | MMM-SystemStats.js:319-321 | the fields change as `Scheduler.Stop` says |
| SystemStatsModule.SystemStats.OnIntervalTick | MMM-SystemStats.js:86-88 | the interval callback sends one request and changes nothing else |
| SystemStatsModule.SystemStats.OnRetryTimeout | MMM-SystemStats.js:108-111 | the retry callback forgets the fired timer and sends one request |
| SystemStatsModule.DeliverError | MMM-SystemStats.js:133-139 | one STATS_ERROR raises the count by one, clears the stats, keeps the interval handle, and leaves a live one-shot retry timer under `retryTimeout` whose delay is the returned backoff delay for the new count |
| SystemStatsModule.DeliverUpdate | MMM-SystemStats.js:124-130 | one valid update resets the count, leaves no retry and stores the payload |
| SystemStatsModule.DeliverFiveErrors | MMM-SystemStats.js:102-139 | five failures in a row at 5000 ms with cap 8 arm retry timers of 5000, 10000, 20000, 40000 and 40000 ms; afterwards the count is 5, the stats are null, and the live retry timer waits 40000 ms |
| SystemStatsModule.FailingCollectorScenario | MMM-SystemStats.js:17-139 | from `start` with the defaults, five failures arm retry timers of 5000, 10000, 20000, 40000 and 40000 ms, and the next valid payload resets the count with no retry pending |

## Left out

- `node_helper.js` is not part of this model. It collects the metrics through the `systeminformation` library and forwards them over the socket. That is I/O, and its percentages are floating-point arithmetic rounded with `toFixed`.
- The lint configuration files have no behaviour.
- DOM building is not modelled: `createRow`, element creation in `getDom`, icons, labels, `getStyles`, `getTranslations` and `translate`. `updateDom` is a counter of refresh requests, and the animation speed is dropped.
- `formatPercent` and `formatTemperature` are not modelled. They print floating-point numbers with `toFixed(1)`, so the metric rows carry only their icon name and severity.
- Real timer timing is not modelled. A timer firing is an event that can happen at any time while the timer is live. Replies to overlapping requests are taken one at a time, in whatever order they arrive.
- Interval.ResolveUpdateInterval: numbers are exact reals. The model has no double rounding, overflow to Infinity in `parseFloat`, or rounding in the ×1000 product. `toLowerCase` is modelled on ASCII letters only.
- Scheduler.BackoffFactor: the cap is a real number. The model does not cover `Math.min` with a non-numeric or NaN cap from the configuration, or the host clamping a delay larger than 2^31-1 ms.
- Severities.GetSeverity: only the four metric keys find thresholds. A key such as "toString" that JavaScript would find on the object's prototype is treated as unknown. The display only ever passes the four metric keys.
- Uptime.FormatUptime: integers are printed in plain decimal. JavaScript's exponent form for magnitudes of 10^21 and above is not modelled, and neither is the sign of -0.
- SystemStatsModule.SystemStats.constructor: `start` is modelled only as the constructor, so it runs once on a fresh module, as the host calls it. The source resets `intervalHandle` and `retryTimeout` to null without clearing their timers, so a second `start` on a running module would leave the old interval timer live and unheld. The model does not cover that case.
- The model does not promise that a suspended or stopped module stays quiet. `socketNotificationReceived` keeps handling replies after `suspend` and `stop`, so a failure reply to an earlier request arms a retry, which sends another request. The model follows that code: `Scheduler.SuspendedStaysQuiet` covers only runs of timer events, and `Scheduler.SuspendedFailuresKeepPolling` states the repeated polling.
- Thresholds.Normalized: a configured bound is used exactly when it is a finite number. Inherited properties of the thresholds object are not looked up.
