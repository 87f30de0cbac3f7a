/** The polling and backoff state machine of the display module, as
    transitions over its state. The timers the host keeps for it are part of
    the state: `timers` holds every live timer by id, so a timer that the
    module lost its handle to without clearing it would still show up there.
    The invariant `Consistent` says that never happens. */
module Scheduler {
  import opened JsValues
  import opened Validation

  type TimerId = nat

  /** A live host timer: a repeating one with its period, or a one-shot one
      with its delay, both in milliseconds. */
  datatype Timer = Repeating(period: real) | OneShot(delay: real)

  /** The module's fields, and on the host's side the live timers, the next
      timer id, and the number of GET_STATS requests and display refreshes
      made so far. */
  datatype State = State(
    stats: JsValue,
    error: JsValue,
    intervalHandle: Option<TimerId>,
    retryTimeout: Option<TimerId>,
    consecutiveErrors: nat,
    updateIntervalMs: real,
    timers: map<TimerId, Timer>,
    nextTimerId: TimerId,
    requests: nat,
    refreshes: nat)

  const InvalidPayloadMessage: string := "Invalid metrics payload"
  const UnknownErrorMessage: string := "Unknown error"
  const StatsUpdate: string := "STATS_UPDATE"
  const StatsError: string := "STATS_ERROR"

  /** The timer ids the module holds. */
  function Handles(s: State): set<TimerId> {
    (if s.intervalHandle.Some? then {s.intervalHandle.value} else {})
    + (if s.retryTimeout.Some? then {s.retryTimeout.value} else {})
  }

  /** The live timers are exactly the ones the module holds: the interval
      timer repeats at the poll period, the retry timer is one-shot, and
      both ids were handed out already. */
  predicate Consistent(s: State) {
    && s.updateIntervalMs > 0.0
    && s.timers.Keys == Handles(s)
    && (s.intervalHandle.Some? ==>
          s.intervalHandle.value < s.nextTimerId
          && s.timers[s.intervalHandle.value] == Repeating(s.updateIntervalMs))
    && (s.retryTimeout.Some? ==>
          s.retryTimeout.value < s.nextTimerId
          && s.timers[s.retryTimeout.value].OneShot?)
    && (s.intervalHandle.Some? && s.retryTimeout.Some? ==>
          s.intervalHandle.value != s.retryTimeout.value)
  }

  /** At most one live timer of each kind, and so at most two in all. */
  lemma AtMostOneTimerOfEachKind(s: State)
    requires Consistent(s)
    ensures forall a, b | a in s.timers && b in s.timers && s.timers[a].OneShot? == s.timers[b].OneShot? :: a == b
    ensures |s.timers| <= 2
  {
    var i := if s.intervalHandle.Some? then {s.intervalHandle.value} else {};
    var r := if s.retryTimeout.Some? then {s.retryTimeout.value} else {};
    assert s.timers.Keys == i + r;
    assert |i + r| <= |i| + |r|;
  }

  // ---------------------------------------------------------------------
  // Backoff

  function Pow2(k: nat): (p: nat)
    ensures p >= 1
  {
    if k == 0 then 1 else 2 * Pow2(k - 1)
  }

  /** `Math.min(2 ** Math.max(0, consecutiveErrors - 1), maxBackoffFactor)` */
  function BackoffFactor(consecutiveErrors: nat, maxBackoffFactor: real): real {
    var exponent := if consecutiveErrors >= 1 then consecutiveErrors - 1 else 0;
    var power := Pow2(exponent) as real;
    if power <= maxBackoffFactor then power else maxBackoffFactor
  }

  /** The retry delay after `consecutiveErrors` failures in a row. */
  function RetryDelay(updateIntervalMs: real, consecutiveErrors: nat, maxBackoffFactor: real): real {
    updateIntervalMs * BackoffFactor(consecutiveErrors, maxBackoffFactor)
  }

  lemma {:induction false} Pow2Monotone(j: nat, k: nat)
    requires j <= k
    ensures Pow2(j) <= Pow2(k)
    decreases k
  {
    if j < k {
      Pow2Monotone(j, k - 1);
    }
  }

  /** The delay never shrinks as failures accumulate, and never exceeds
      the cap times the base interval. */
  lemma BackoffBounds(updateIntervalMs: real, n: nat, m: nat, maxBackoffFactor: real)
    requires updateIntervalMs >= 0.0 && n <= m
    ensures RetryDelay(updateIntervalMs, n, maxBackoffFactor) <= RetryDelay(updateIntervalMs, m, maxBackoffFactor)
    ensures RetryDelay(updateIntervalMs, n, maxBackoffFactor) <= updateIntervalMs * maxBackoffFactor
  {
    var en := if n >= 1 then n - 1 else 0;
    var em := if m >= 1 then m - 1 else 0;
    Pow2Monotone(en, em);
    var fn := BackoffFactor(n, maxBackoffFactor);
    var fm := BackoffFactor(m, maxBackoffFactor);
    assert fn <= fm;
    assert fn <= maxBackoffFactor;
    assert updateIntervalMs * fn <= updateIntervalMs * fm by {
      assert updateIntervalMs * (fm - fn) >= 0.0;
    }
    assert updateIntervalMs * fn <= updateIntervalMs * maxBackoffFactor by {
      assert updateIntervalMs * (maxBackoffFactor - fn) >= 0.0;
    }
  }

  /** With the default 5000 ms and cap 8, failures one to four wait 5000,
      10000, 20000 and 40000 ms, and every later one 40000 ms. */
  lemma DefaultBackoffSequence(n: nat)
    requires n >= 4
    ensures RetryDelay(5000.0, 1, 8.0) == 5000.0
    ensures RetryDelay(5000.0, 2, 8.0) == 10000.0
    ensures RetryDelay(5000.0, 3, 8.0) == 20000.0
    ensures RetryDelay(5000.0, n, 8.0) == 40000.0
  {
    Pow2Monotone(3, n - 1);
    assert Pow2(3) == 8;
  }

  // ---------------------------------------------------------------------
  // Transitions

  /** The state right after the fields are initialised in `start`. */
  function Initial(updateIntervalMs: real): (s: State)
    requires updateIntervalMs > 0.0
    ensures Consistent(s)
  {
    State(Null, Null, None, None, 0, updateIntervalMs, map[], 1, 0, 0)
  }

  /** `requestStats`: one more GET_STATS request. */
  function RequestStats(s: State): State {
    s.(requests := s.requests + 1)
  }

  /** `clearRetryTimeout`: the retry timer, if any, is cleared and
      forgotten; nothing else changes. */
  function ClearRetryTimeout(s: State): (r: State)
    requires Consistent(s)
    ensures Consistent(r)
    ensures r.retryTimeout == None
    ensures r == s.(timers := r.timers, retryTimeout := None)
    ensures forall id | id in r.timers :: id in s.timers && r.timers[id] == s.timers[id]
    ensures s.retryTimeout.Some? ==> s.retryTimeout.value !in r.timers
  {
    if s.retryTimeout.Some? then
      s.(timers := s.timers - {s.retryTimeout.value}, retryTimeout := None)
    else s
  }

  /** `startScheduler`: any retry is cleared, the old interval timer is
      replaced by a fresh one, and then exactly that one timer is live. */
  function StartScheduler(s: State): (r: State)
    requires Consistent(s)
    ensures Consistent(r)
    ensures r.retryTimeout == None && r.intervalHandle.Some?
    ensures r.timers == map[r.intervalHandle.value := Repeating(s.updateIntervalMs)]
    ensures r.consecutiveErrors == s.consecutiveErrors && r.stats == s.stats && r.error == s.error
  {
    var cleared := ClearRetryTimeout(s);
    var timers := if cleared.intervalHandle.Some? then cleared.timers - {cleared.intervalHandle.value} else cleared.timers;
    var id := cleared.nextTimerId;
    cleared.(timers := timers[id := Repeating(cleared.updateIntervalMs)],
             intervalHandle := Some(id),
             nextTimerId := id + 1)
  }

  /** `start` after the fields are initialised: one request, then the
      scheduler. */
  function Start(updateIntervalMs: real): (s: State)
    requires updateIntervalMs > 0.0
    ensures Consistent(s)
    ensures s.stats == Null && s.error == Null && s.consecutiveErrors == 0 && s.requests == 1
    ensures s.updateIntervalMs == updateIntervalMs
    ensures s.retryTimeout == None && s.intervalHandle.Some?
    ensures s.timers == map[s.intervalHandle.value := Repeating(updateIntervalMs)]
  {
    StartScheduler(RequestStats(Initial(updateIntervalMs)))
  }

  /** `scheduleRetry`: the previous retry is cleared and a single new one is
      armed with the backoff delay; the interval timer is untouched. */
  function ScheduleRetry(s: State, maxBackoffFactor: real): (r: State)
    requires Consistent(s)
    ensures Consistent(r)
    ensures r.retryTimeout.Some?
    ensures r.timers[r.retryTimeout.value] == OneShot(RetryDelay(s.updateIntervalMs, s.consecutiveErrors, maxBackoffFactor))
    ensures r.intervalHandle == s.intervalHandle
    ensures s.retryTimeout.Some? ==> s.retryTimeout.value !in r.timers
    ensures r.consecutiveErrors == s.consecutiveErrors && r.stats == s.stats && r.error == s.error
  {
    var cleared := ClearRetryTimeout(s);
    var delay := RetryDelay(cleared.updateIntervalMs, cleared.consecutiveErrors, maxBackoffFactor);
    var id := cleared.nextTimerId;
    cleared.(timers := cleared.timers[id := OneShot(delay)],
             retryTimeout := Some(id),
             nextTimerId := id + 1)
  }

  /** `payload?.message || "Unknown error"` */
  function ErrorMessage(payload: JsValue): (message: JsValue)
    ensures Truthy(message)
  {
    var m := Prop(payload, "message");
    if Truthy(m) then m else Str(UnknownErrorMessage)
  }

  /** The failure path shared by an invalid payload and STATS_ERROR. */
  function Fail(s: State, message: JsValue, maxBackoffFactor: real): (r: State)
    requires Consistent(s)
    ensures Consistent(r)
  {
    var failed := s.(consecutiveErrors := s.consecutiveErrors + 1, error := message, stats := Null);
    var retried := ScheduleRetry(failed, maxBackoffFactor);
    retried.(refreshes := retried.refreshes + 1)
  }

  /** The success path: the counter and the retry are reset, the payload
      is shown. */
  function Succeed(s: State, payload: JsValue): (r: State)
    requires Consistent(s)
    ensures Consistent(r)
  {
    var reset := ClearRetryTimeout(s.(consecutiveErrors := 0));
    reset.(error := Null, stats := payload, refreshes := reset.refreshes + 1)
  }

  /** `socketNotificationReceived` */
  function Receive(s: State, notification: string, payload: JsValue, maxBackoffFactor: real): (r: State)
    requires Consistent(s)
    ensures Consistent(r)
  {
    if notification == StatsUpdate then
      if !IsValidStats(payload) then Fail(s, Str(InvalidPayloadMessage), maxBackoffFactor)
      else Succeed(s, payload)
    else if notification == StatsError then
      Fail(s, ErrorMessage(payload), maxBackoffFactor)
    else s
  }

  /** `suspend`: both timers are cleared and forgotten. */
  function Suspend(s: State): (r: State)
    requires Consistent(s)
    ensures Consistent(r)
    ensures r.intervalHandle == None && r.retryTimeout == None && r.timers == map[]
    ensures r.consecutiveErrors == s.consecutiveErrors && r.requests == s.requests
  {
    var stopped :=
      if s.intervalHandle.Some? then s.(timers := s.timers - {s.intervalHandle.value}, intervalHandle := None)
      else s;
    ClearRetryTimeout(stopped)
  }

  /** `resume`: one request, then the scheduler; the error count stays. */
  function Resume(s: State): (r: State)
    requires Consistent(s)
    ensures Consistent(r)
  {
    StartScheduler(RequestStats(s))
  }

  /** `stop` is `suspend`. */
  function Stop(s: State): (r: State)
    requires Consistent(s)
    ensures Consistent(r)
  {
    Suspend(s)
  }

  /** The interval timer's callback: one more request. */
  function IntervalFired(s: State): State {
    RequestStats(s)
  }

  /** The retry timer's callback: the fired timer is gone, the handle is
      forgotten, one more request is made. */
  function RetryFired(s: State): (r: State)
    requires Consistent(s) && s.retryTimeout.Some?
    ensures Consistent(r)
  {
    s.(timers := s.timers - {s.retryTimeout.value}, retryTimeout := None, requests := s.requests + 1)
  }

  // ---------------------------------------------------------------------
  // What one notification does

  /** An invalid payload or STATS_ERROR: the counter goes up by exactly one,
      the stats are dropped, the error is set, exactly one retry is armed
      with the delay for the new count, and the interval timer stays. */
  lemma FailureStep(s: State, notification: string, payload: JsValue, maxBackoffFactor: real)
    requires Consistent(s)
    requires notification == StatsError || (notification == StatsUpdate && !IsValidStats(payload))
    ensures var r := Receive(s, notification, payload, maxBackoffFactor);
      && r.consecutiveErrors == s.consecutiveErrors + 1
      && r.stats == Null
      && r.error == (if notification == StatsUpdate then Str(InvalidPayloadMessage) else ErrorMessage(payload))
      && r.retryTimeout.Some?
      && r.timers[r.retryTimeout.value] == OneShot(RetryDelay(s.updateIntervalMs, r.consecutiveErrors, maxBackoffFactor))
      && r.intervalHandle == s.intervalHandle
      && r.updateIntervalMs == s.updateIntervalMs && r.requests == s.requests
      && (s.intervalHandle.Some? ==> r.timers[s.intervalHandle.value] == s.timers[s.intervalHandle.value])
      && (s.retryTimeout.Some? ==> s.retryTimeout.value !in r.timers)
  {
    assert StatsUpdate != StatsError by { assert StatsUpdate[6] != StatsError[6]; }
  }

  /** A valid STATS_UPDATE: the counter is reset, no retry is pending, the
      error is cleared, the payload becomes the stats, and the interval timer
      stays. */
  lemma SuccessStep(s: State, payload: JsValue, maxBackoffFactor: real)
    requires Consistent(s)
    requires IsValidStats(payload)
    ensures var r := Receive(s, StatsUpdate, payload, maxBackoffFactor);
      && r.consecutiveErrors == 0
      && r.retryTimeout == None
      && r.error == Null
      && r.stats == payload
      && r.intervalHandle == s.intervalHandle
      && r.timers == (if s.intervalHandle.Some? then map[s.intervalHandle.value := s.timers[s.intervalHandle.value]] else map[])
  {
  }

  /** Other notifications change nothing. */
  lemma OtherNotificationIgnored(s: State, notification: string, payload: JsValue, maxBackoffFactor: real)
    requires Consistent(s)
    requires notification != StatsUpdate && notification != StatsError
    ensures Receive(s, notification, payload, maxBackoffFactor) == s
  {
  }

  /** `resume` leaves exactly one repeating timer at the poll period, no
      retry, the error count as it was, and one more request. */
  lemma ResumeRearms(s: State)
    requires Consistent(s)
    ensures var r := Resume(s);
      && r.retryTimeout == None && r.intervalHandle.Some?
      && r.timers == map[r.intervalHandle.value := Repeating(s.updateIntervalMs)]
      && r.consecutiveErrors == s.consecutiveErrors
      && r.requests == s.requests + 1
  {
  }

  // ---------------------------------------------------------------------
  // Runs of events

  /** What can happen to the module: a notification, a lifecycle call, or
      one of its timers firing. */
  datatype Event =
    | Notify(notification: string, payload: JsValue)
    | SuspendCall
    | ResumeCall
    | StopCall
    | IntervalTick
    | RetryTimeout

  /** One event. A timer fires only while it is live. */
  function Step(s: State, e: Event, maxBackoffFactor: real): (r: State)
    requires Consistent(s)
    ensures Consistent(r)
  {
    match e
    case Notify(n, p) => Receive(s, n, p, maxBackoffFactor)
    case SuspendCall => Suspend(s)
    case ResumeCall => Resume(s)
    case StopCall => Stop(s)
    case IntervalTick => if s.intervalHandle.Some? then IntervalFired(s) else s
    case RetryTimeout => if s.retryTimeout.Some? then RetryFired(s) else s
  }

  /** A sequence of events, in order. */
  function Run(s: State, events: seq<Event>, maxBackoffFactor: real): (r: State)
    requires Consistent(s)
    ensures Consistent(r)
    decreases |events|
  {
    if events == [] then s
    else Run(Step(s, events[0], maxBackoffFactor), events[1..], maxBackoffFactor)
  }

  /** In every state reachable from `start`, at most one interval timer and
      at most one retry timer are live, and they are the ones the module
      holds. */
  lemma ReachableStatesHoldTheirTimers(updateIntervalMs: real, events: seq<Event>, maxBackoffFactor: real)
    requires updateIntervalMs > 0.0
    ensures var r := Run(Start(updateIntervalMs), events, maxBackoffFactor);
      && r.timers.Keys == Handles(r)
      && |r.timers| <= 2
  {
    AtMostOneTimerOfEachKind(Run(Start(updateIntervalMs), events, maxBackoffFactor));
  }

  predicate IsTimerEvent(e: Event) {
    e.IntervalTick? || e.RetryTimeout?
  }

  /** Once suspended, timers alone never issue a request: nothing is live
      to fire. */
  lemma {:induction false} SuspendedStaysQuiet(s: State, events: seq<Event>, maxBackoffFactor: real)
    requires Consistent(s) && s.timers == map[]
    requires forall i | 0 <= i < |events| :: IsTimerEvent(events[i])
    ensures Run(s, events, maxBackoffFactor) == s
    decreases |events|
  {
    if events != [] {
      assert Step(s, events[0], maxBackoffFactor) == s;
      SuspendedStaysQuiet(s, events[1..], maxBackoffFactor);
    }
  }

  /** A notification the module treats as a failure: STATS_ERROR, or a
      STATS_UPDATE whose payload is rejected. */
  predicate IsFailureEvent(e: Event) {
    e.Notify? && (e.notification == StatsError || (e.notification == StatsUpdate && !IsValidStats(e.payload)))
  }

  /** How many of the events are failures. */
  function Failures(events: seq<Event>): nat
    decreases |events|
  {
    if events == [] then 0
    else (if IsFailureEvent(events[0]) then 1 else 0) + Failures(events[1..])
  }

  /** A pending retry waits the backoff delay for the current count. */
  predicate RetryMatchesCount(s: State, maxBackoffFactor: real) {
    s.retryTimeout.Some? ==>
      && s.retryTimeout.value in s.timers
      && s.timers[s.retryTimeout.value] == OneShot(RetryDelay(s.updateIntervalMs, s.consecutiveErrors, maxBackoffFactor))
  }

  /** Failures in a row, with any interval ticks and retry timeouts between
      them (each failure answers a request one of those sent): the count
      rises by the number of failures, a pending retry always waits the
      delay for the current count, and after a failure a retry is
      pending. */
  lemma {:induction false} RepeatedFailures(s: State, events: seq<Event>, maxBackoffFactor: real)
    requires Consistent(s) && RetryMatchesCount(s, maxBackoffFactor)
    requires forall i | 0 <= i < |events| :: IsFailureEvent(events[i]) || IsTimerEvent(events[i])
    ensures var r := Run(s, events, maxBackoffFactor);
      && r.consecutiveErrors == s.consecutiveErrors + Failures(events)
      && r.updateIntervalMs == s.updateIntervalMs
      && r.intervalHandle == s.intervalHandle
      && RetryMatchesCount(r, maxBackoffFactor)
      && (events != [] && IsFailureEvent(events[|events| - 1]) ==> r.retryTimeout.Some?)
    decreases |events|
  {
    if events != [] {
      var e := events[0];
      var next := Step(s, e, maxBackoffFactor);
      if IsFailureEvent(e) {
        FailureStep(s, e.notification, e.payload, maxBackoffFactor);
      }
      assert next.consecutiveErrors == s.consecutiveErrors + (if IsFailureEvent(e) then 1 else 0);
      assert forall i | 0 <= i < |events[1..]| :: IsFailureEvent(events[1..][i]) || IsTimerEvent(events[1..][i]) by {
        forall i | 0 <= i < |events[1..]| ensures IsFailureEvent(events[1..][i]) || IsTimerEvent(events[1..][i]) {
          assert events[1..][i] == events[i + 1];
        }
      }
      RepeatedFailures(next, events[1..], maxBackoffFactor);
      if |events| > 1 {
        assert events[1..][|events[1..]| - 1] == events[|events| - 1];
      }
    }
  }

  /** A reply that arrives after `suspend` or `stop`, answering a request
      sent before it, still arms a retry when it is a failure: the module
      has no live timer, yet a retry timer appears, and when it fires a
      request goes out. */
  lemma LateFailureAfterSuspendRearms(s: State, notification: string, payload: JsValue, maxBackoffFactor: real)
    requires Consistent(s)
    requires notification == StatsError || (notification == StatsUpdate && !IsValidStats(payload))
    ensures var q := Suspend(s);
      var r := Step(q, Notify(notification, payload), maxBackoffFactor);
      var t := Step(r, RetryTimeout, maxBackoffFactor);
      && q.timers == map[]
      && r.intervalHandle == None && r.retryTimeout.Some?
      && r.timers == map[r.retryTimeout.value := OneShot(RetryDelay(s.updateIntervalMs, s.consecutiveErrors + 1, maxBackoffFactor))]
      && t.requests == s.requests + 1
      && t.timers == map[] && t.intervalHandle == None && t.retryTimeout == None
  {
    var q := Suspend(s);
    FailureStep(q, notification, payload, maxBackoffFactor);
    var r := Step(q, Notify(notification, payload), maxBackoffFactor);
    assert r.timers.Keys == {r.retryTimeout.value};
  }

  /** `n` late failures after `suspend`, each followed by its retry firing. */
  function LateFailureCycles(n: nat): seq<Event> {
    if n == 0 then [] else [Notify(StatsError, Null), RetryTimeout] + LateFailureCycles(n - 1)
  }

  /** While the collector keeps failing, a suspended or stopped module goes
      on sending one request per failure with no lifecycle call in
      between. */
  lemma {:induction false} SuspendedFailuresKeepPolling(s: State, n: nat, maxBackoffFactor: real)
    requires Consistent(s) && s.timers == map[]
    ensures var r := Run(s, LateFailureCycles(n), maxBackoffFactor);
      && r.requests == s.requests + n
      && r.consecutiveErrors == s.consecutiveErrors + n
      && r.timers == map[] && r.intervalHandle == None && r.retryTimeout == None
      && r.updateIntervalMs == s.updateIntervalMs
    decreases n
  {
    if n > 0 {
      var fail := Notify(StatsError, Null);
      var rest := LateFailureCycles(n - 1);
      assert Suspend(s) == s;
      LateFailureAfterSuspendRearms(s, StatsError, Null, maxBackoffFactor);
      FailureStep(s, StatsError, Null, maxBackoffFactor);
      var r1 := Step(s, fail, maxBackoffFactor);
      var t := Step(r1, RetryTimeout, maxBackoffFactor);
      RunAppend(s, [fail, RetryTimeout], rest, maxBackoffFactor);
      assert LateFailureCycles(n) == [fail, RetryTimeout] + rest;
      assert Run(s, [fail, RetryTimeout], maxBackoffFactor) == t by {
        assert [fail, RetryTimeout][1..] == [RetryTimeout];
        assert [RetryTimeout][1..] == [];
      }
      SuspendedFailuresKeepPolling(t, n - 1, maxBackoffFactor);
    }
  }

  lemma {:induction false} RunAppend(s: State, a: seq<Event>, b: seq<Event>, maxBackoffFactor: real)
    requires Consistent(s)
    ensures Run(s, a + b, maxBackoffFactor) == Run(Run(s, a, maxBackoffFactor), b, maxBackoffFactor)
    decreases |a|
  {
    if a != [] {
      assert (a + b)[0] == a[0];
      assert (a + b)[1..] == a[1..] + b;
      RunAppend(Step(s, a[0], maxBackoffFactor), a[1..], b, maxBackoffFactor);
    } else {
      assert a + b == b;
    }
  }
}
