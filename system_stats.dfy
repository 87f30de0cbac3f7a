/** The display module itself: its fields, updated in place by its
    lifecycle calls, its notification handler and its timer callbacks. Each
    method is proved to move the fields exactly as the matching transition
    of `Scheduler` says, and to keep `Valid`. The host is reduced to what
    the module sees of it: the live timers and the ids they get, the
    GET_STATS requests sent, and the display refreshes asked for. */
module SystemStatsModule {
  import opened JsValues
  import opened Interval
  import opened Thresholds
  import opened Validation
  import Scheduler

  /** The configuration the module reads. */
  datatype Config = Config(updateInterval: JsValue, maxBackoffFactor: real, thresholds: JsValue)

  class SystemStats {
    const maxBackoffFactor: real
    const thresholds: map<Metric, Threshold>

    var stats: JsValue
    var error: JsValue
    var intervalHandle: Option<Scheduler.TimerId>
    var retryTimeout: Option<Scheduler.TimerId>
    var consecutiveErrors: nat
    var updateIntervalMs: real

    // The host's side.
    var timers: map<Scheduler.TimerId, Scheduler.Timer>
    var nextTimerId: Scheduler.TimerId
    var requests: nat
    var refreshes: nat

    function State(): Scheduler.State
      reads this
    {
      Scheduler.State(stats, error, intervalHandle, retryTimeout, consecutiveErrors,
                      updateIntervalMs, timers, nextTimerId, requests, refreshes)
    }

    predicate Valid()
      reads this
    {
      Scheduler.Consistent(State())
    }

    /** `start`: the fields are reset, the interval resolved, the thresholds
        normalized, one request sent and the scheduler started. */
    constructor (config: Config)
      ensures Valid()
      ensures State() == Scheduler.Start(ResolveUpdateInterval(config.updateInterval))
      ensures thresholds == Normalized(config.thresholds)
      ensures maxBackoffFactor == config.maxBackoffFactor
    {
      maxBackoffFactor := config.maxBackoffFactor;
      stats := Null;
      error := Null;
      intervalHandle := None;
      retryTimeout := None;
      consecutiveErrors := 0;
      updateIntervalMs := ResolveUpdateInterval(config.updateInterval);
      var normalized := NormalizeThresholds(config.thresholds);
      thresholds := normalized;
      timers := map[];
      nextTimerId := 1;
      requests := 0;
      refreshes := 0;
      new;
      RequestStats();
      StartScheduler();
    }

    // ---------------------------------------------------------------
    // The host

    /** `setInterval`: a new repeating timer under a fresh id. */
    method SetInterval(period: real) returns (id: Scheduler.TimerId)
      modifies this`timers, this`nextTimerId
      ensures id == old(nextTimerId) && nextTimerId == id + 1
      ensures timers == old(timers)[id := Scheduler.Repeating(period)]
    {
      id := nextTimerId;
      timers := timers[id := Scheduler.Repeating(period)];
      nextTimerId := id + 1;
    }

    /** `setTimeout`: a new one-shot timer under a fresh id. */
    method SetTimeout(delay: real) returns (id: Scheduler.TimerId)
      modifies this`timers, this`nextTimerId
      ensures id == old(nextTimerId) && nextTimerId == id + 1
      ensures timers == old(timers)[id := Scheduler.OneShot(delay)]
    {
      id := nextTimerId;
      timers := timers[id := Scheduler.OneShot(delay)];
      nextTimerId := id + 1;
    }

    /** `clearInterval` and `clearTimeout`, which share the ids: the timer
        stops, and an id that is not live is ignored. */
    method ClearTimer(id: Scheduler.TimerId)
      modifies this`timers
      ensures timers == old(timers) - {id}
    {
      timers := timers - {id};
    }

    /** `sendSocketNotification("GET_STATS")` */
    method RequestStats()
      modifies this`requests
      ensures requests == old(requests) + 1
    {
      requests := requests + 1;
    }

    /** `updateDom` */
    method UpdateDom()
      modifies this`refreshes
      ensures refreshes == old(refreshes) + 1
    {
      refreshes := refreshes + 1;
    }

    // ---------------------------------------------------------------
    // The module's methods

    method ClearRetryTimeout()
      requires Valid()
      modifies this`timers, this`retryTimeout
      ensures Valid()
      ensures State() == Scheduler.ClearRetryTimeout(old(State()))
    {
      if retryTimeout.Some? {
        ClearTimer(retryTimeout.value);
        retryTimeout := None;
      }
    }

    method StartScheduler()
      requires Valid()
      modifies this
      ensures Valid()
      ensures State() == Scheduler.StartScheduler(old(State()))
    {
      ClearRetryTimeout();
      if intervalHandle.Some? {
        ClearTimer(intervalHandle.value);
      }
      var id := SetInterval(updateIntervalMs);
      intervalHandle := Some(id);
    }

    method ScheduleRetry()
      requires Valid()
      modifies this
      ensures Valid()
      ensures State() == Scheduler.ScheduleRetry(old(State()), maxBackoffFactor)
    {
      ClearRetryTimeout();
      ghost var cleared := State();
      var exponent := consecutiveErrors - 1;
      if exponent < 0 {
        exponent := 0;
      }
      var power := Scheduler.Pow2(exponent) as real;
      var backoffFactor := if power <= maxBackoffFactor then power else maxBackoffFactor;
      assert backoffFactor == Scheduler.BackoffFactor(consecutiveErrors, maxBackoffFactor);
      var delay := updateIntervalMs * backoffFactor;
      assert delay == Scheduler.RetryDelay(cleared.updateIntervalMs, cleared.consecutiveErrors, maxBackoffFactor);
      var id := SetTimeout(delay);
      retryTimeout := Some(id);
      assert State() == cleared.(timers := cleared.timers[id := Scheduler.OneShot(delay)], retryTimeout := Some(id), nextTimerId := id + 1);
    }

    /** The failure path of `socketNotificationReceived`. */
    method RecordFailure(message: JsValue)
      requires Valid()
      modifies this
      ensures Valid()
      ensures State() == Scheduler.Fail(old(State()), message, maxBackoffFactor)
    {
      consecutiveErrors := consecutiveErrors + 1;
      error := message;
      stats := Null;
      ScheduleRetry();
      UpdateDom();
    }

    /** The success path of `socketNotificationReceived`. */
    method RecordSuccess(payload: JsValue)
      requires Valid()
      modifies this
      ensures Valid()
      ensures State() == Scheduler.Succeed(old(State()), payload)
    {
      consecutiveErrors := 0;
      ClearRetryTimeout();
      error := Null;
      stats := payload;
      UpdateDom();
    }

    /** `socketNotificationReceived` */
    method SocketNotificationReceived(notification: string, payload: JsValue)
      requires Valid()
      modifies this
      ensures Valid()
      ensures State() == Scheduler.Receive(old(State()), notification, payload, maxBackoffFactor)
    {
      if notification == Scheduler.StatsUpdate {
        if !IsValidStats(payload) {
          RecordFailure(Str(Scheduler.InvalidPayloadMessage));
          return;
        }
        RecordSuccess(payload);
        return;
      }
      if notification == Scheduler.StatsError {
        var message := Prop(payload, "message");
        RecordFailure(if Truthy(message) then message else Str(Scheduler.UnknownErrorMessage));
      }
    }

    method Suspend()
      requires Valid()
      modifies this
      ensures Valid()
      ensures State() == Scheduler.Suspend(old(State()))
    {
      if intervalHandle.Some? {
        ClearTimer(intervalHandle.value);
        intervalHandle := None;
      }
      ClearRetryTimeout();
    }

    method Resume()
      requires Valid()
      modifies this
      ensures Valid()
      ensures State() == Scheduler.Resume(old(State()))
    {
      RequestStats();
      StartScheduler();
    }

    method Stop()
      requires Valid()
      modifies this
      ensures Valid()
      ensures State() == Scheduler.Stop(old(State()))
    {
      Suspend();
    }

    /** The interval timer's callback. */
    method OnIntervalTick()
      requires Valid() && intervalHandle.Some?
      modifies this
      ensures Valid()
      ensures State() == Scheduler.IntervalFired(old(State()))
    {
      RequestStats();
    }

    /** The retry timer's callback. The host drops a one-shot timer once it
        has fired; the callback then forgets the handle and sends a
        request. */
    method OnRetryTimeout()
      requires Valid() && retryTimeout.Some?
      modifies this
      ensures Valid()
      ensures State() == Scheduler.RetryFired(old(State()))
    {
      ClearTimer(retryTimeout.value);
      retryTimeout := None;
      RequestStats();
    }
  }

  /** One STATS_ERROR delivered to the module; the delay of the retry it
      arms. */
  method DeliverError(m: SystemStats, payload: JsValue) returns (delay: real)
    requires m.Valid()
    modifies m
    ensures m.Valid()
    ensures m.consecutiveErrors == old(m.consecutiveErrors) + 1
    ensures m.updateIntervalMs == old(m.updateIntervalMs)
    ensures m.stats == Null && m.intervalHandle == old(m.intervalHandle)
    ensures m.retryTimeout.Some? && m.timers[m.retryTimeout.value] == Scheduler.OneShot(delay)
    ensures delay == Scheduler.RetryDelay(m.updateIntervalMs, m.consecutiveErrors, m.maxBackoffFactor)
  {
    ghost var before := m.State();
    m.SocketNotificationReceived(Scheduler.StatsError, payload);
    Scheduler.FailureStep(before, Scheduler.StatsError, payload, m.maxBackoffFactor);
    delay := m.timers[m.retryTimeout.value].delay;
  }

  /** One valid STATS_UPDATE delivered to the module. */
  method DeliverUpdate(m: SystemStats, payload: JsValue)
    requires m.Valid() && IsValidStats(payload)
    modifies m
    ensures m.Valid()
    ensures m.consecutiveErrors == 0 && m.retryTimeout == None && m.stats == payload
  {
    ghost var before := m.State();
    m.SocketNotificationReceived(Scheduler.StatsUpdate, payload);
    Scheduler.SuccessStep(before, payload, m.maxBackoffFactor);
  }

  /** Five STATS_ERRORs in a row from a fresh module with a 5000 ms
      interval and cap 8: the retries wait 5000, 10000, 20000, 40000 and
      40000 ms. */
  method DeliverFiveErrors(m: SystemStats, failure: JsValue) returns (delays: seq<real>)
    requires m.Valid()
    requires m.consecutiveErrors == 0 && m.updateIntervalMs == 5000.0 && m.maxBackoffFactor == 8.0
    modifies m
    ensures m.Valid()
    ensures m.consecutiveErrors == 5 && m.stats == Null
    ensures m.retryTimeout.Some? && m.timers[m.retryTimeout.value] == Scheduler.OneShot(40000.0)
    ensures delays == [5000.0, 10000.0, 20000.0, 40000.0, 40000.0]
  {
    var d1 := DeliverError(m, failure);
    assert m.consecutiveErrors == 1 && m.updateIntervalMs == 5000.0;
    assert d1 == Scheduler.RetryDelay(5000.0, 1, 8.0);
    var d2 := DeliverError(m, failure);
    assert m.consecutiveErrors == 2 && m.updateIntervalMs == 5000.0;
    assert d2 == Scheduler.RetryDelay(5000.0, 2, 8.0);
    var d3 := DeliverError(m, failure);
    assert m.consecutiveErrors == 3 && m.updateIntervalMs == 5000.0;
    assert d3 == Scheduler.RetryDelay(5000.0, 3, 8.0);
    var d4 := DeliverError(m, failure);
    assert m.consecutiveErrors == 4 && m.updateIntervalMs == 5000.0;
    assert d4 == Scheduler.RetryDelay(5000.0, 4, 8.0);
    var d5 := DeliverError(m, failure);
    assert m.consecutiveErrors == 5 && m.updateIntervalMs == 5000.0;
    assert d5 == Scheduler.RetryDelay(5000.0, 5, 8.0);
    Scheduler.DefaultBackoffSequence(4);
    Scheduler.DefaultBackoffSequence(5);
    delays := [d1, d2, d3, d4, d5];
  }

  /** A collector that fails five times in a row and then recovers, with
      the default 5000 ms interval and cap 8: the retries back off as
      above, and the first valid payload resets the count and leaves no
      retry pending. */
  method FailingCollectorScenario(snapshot: Snapshot) returns (delays: seq<real>, errorsAfterRecovery: nat, retryPending: bool)
    ensures delays == [5000.0, 10000.0, 20000.0, 40000.0, 40000.0]
    ensures errorsAfterRecovery == 0 && !retryPending
  {
    ResolveNumber(Finite(5000.0));
    var m := new SystemStats(Config(Num(Finite(5000.0)), 8.0, Undefined));
    assert m.updateIntervalMs == 5000.0 && m.consecutiveErrors == 0 && m.maxBackoffFactor == 8.0;
    delays := DeliverFiveErrors(m, Obj(map["message" := Str("collector failed")]));
    var payload := Encode(snapshot, map[]);
    EncodeAccepted(snapshot, map[]);
    DeliverUpdate(m, payload);
    errorsAfterRecovery := m.consecutiveErrors;
    retryPending := m.retryTimeout.Some?;
  }
}
