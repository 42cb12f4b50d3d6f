/** When Connected=true is reported: the MQTT event handler and its one-shot timer, over timed runs
    (esp_rmaker_connectivity.c). Times are in microseconds, as esp_timer counts them. */
module ReportDelay {
  import opened Basics

  // Expired: the timer callback runs. Other: any other event.
  datatype Input = Connected | Disconnected | Expired | Other
  datatype Timed = Timed(at: nat, input: Input)

  /** delay: CONFIG_ESP_RMAKER_CONNECTIVITY_REPORT_DELAY, in seconds. hasTimer: the timer was created.
      coreFirst: for one event, the core's handler, which keeps mqtt_connected, runs before this one. */
  datatype Setup = Setup(delay: nat, hasTimer: bool, coreFirst: bool)

  datatype Service = Service(timer: Option<nat>, mqttConnected: bool)
  datatype Outcome = Outcome(service: Service, reported: bool)

  const START := Service(None, false)

  ghost predicate Delayed(c: Setup) { 0 < c.delay <= 30 && c.hasTimer }

  /** One event dispatched to both handlers, or the timer callback. */
  function Step(c: Setup, s: Service, x: Timed): Outcome {
    match x.input
    case Connected =>
      if c.delay > 0 && c.hasTimer
      then Outcome(Service(Some(x.at + c.delay * 1_000_000), true), false)
      else Outcome(s.(mqttConnected := true), c.coreFirst || s.mqttConnected)
    case Disconnected => Outcome(Service(if c.hasTimer then None else s.timer, false), false)
    case Expired => Outcome(s.(timer := None), s.mqttConnected)
    case Other => Outcome(s, false)
  }

  /** The timer runs out only when it is armed, and not before its time. */
  predicate Possible(s: Service, x: Timed) {
    x.input.Expired? ==> s.timer.Some? && s.timer.value <= x.at
  }

  function After(c: Setup, run: seq<Timed>, n: nat): Service
    requires n <= |run|
  {
    if n == 0 then START else Step(c, After(c, run, n - 1), run[n - 1]).service
  }

  predicate Reports(c: Setup, run: seq<Timed>, k: nat)
    requires k < |run|
  {
    Step(c, After(c, run, k), run[k]).reported
  }

  ghost predicate RealRun(c: Setup, run: seq<Timed>) {
    && (forall i, j :: 0 <= i < j < |run| ==> run[i].at <= run[j].at)
    && forall k :: 0 <= k < |run| ==> Possible(After(c, run, k), run[k])
  }

  /** The connection at i is the last thing that happened to the service before step n. */
  ghost predicate LastEvent(run: seq<Timed>, i: int, n: int) {
    && 0 <= i < n <= |run| && run[i].input.Connected?
    && forall j :: i < j < n ==> run[j].input.Other?
  }

  /** An armed timer means: connected, and set by the connection that happened last. */
  lemma {:induction false} TimerIsArmed(c: Setup, run: seq<Timed>, n: nat)
    requires Delayed(c) && n <= |run|
    ensures var s := After(c, run, n);
            s.timer.Some? ==> s.mqttConnected
                              && exists i :: LastEvent(run, i, n) && s.timer.value == run[i].at + c.delay * 1_000_000
  {
    if n == 0 {
    } else {
      TimerIsArmed(c, run, n - 1);
      var s, x := After(c, run, n - 1), run[n - 1];
      if x.input.Connected? {
        assert LastEvent(run, n - 1, n);
      } else if x.input.Other? && s.timer.Some? {
        var i :| LastEvent(run, i, n - 1) && s.timer.value == run[i].at + c.delay * 1_000_000;
        assert LastEvent(run, i, n);
      }
    }
  }

  /** Delayed reporting: with a timer and a positive delay, a report comes only when the timer runs
      out, at least the delay after a connection with no connect, disconnect or report in between. */
  lemma {:induction false} ReportsAreDelayed(c: Setup, run: seq<Timed>, k: nat)
    requires Delayed(c) && RealRun(c, run) && k < |run| && Reports(c, run, k)
    ensures run[k].input.Expired?
    ensures exists i :: LastEvent(run, i, k) && run[i].at + c.delay * 1_000_000 <= run[k].at
  {
    TimerIsArmed(c, run, k);
    assert Possible(After(c, run, k), run[k]);
  }

  /** So each connection is reported at most once. */
  lemma {:induction false} OneReportPerConnection(c: Setup, run: seq<Timed>, i: nat, k: nat, l: nat)
    requires Delayed(c) && RealRun(c, run) && k < |run| && l < |run|
    requires Reports(c, run, k) && Reports(c, run, l)
    requires LastEvent(run, i, k) && LastEvent(run, i, l)
    ensures k == l
  {
    ReportsAreDelayed(c, run, k);
    ReportsAreDelayed(c, run, l);
  }

  lemma {:induction false} ArmedUntilEvent(c: Setup, run: seq<Timed>, i: nat, n: nat)
    requires Delayed(c) && LastEvent(run, i, n)
    ensures After(c, run, n) == Service(Some(run[i].at + c.delay * 1_000_000), true)
  {
    if n > i + 1 {
      ArmedUntilEvent(c, run, i, n - 1);
    }
  }

  /** Conversely, a connection that stays undisturbed is reported when its timer runs out. */
  lemma {:induction false} UndisturbedIsReported(c: Setup, run: seq<Timed>, i: nat, k: nat)
    requires Delayed(c) && LastEvent(run, i, k) && k < |run| && run[k].input.Expired?
    ensures Reports(c, run, k)
  {
    ArmedUntilEvent(c, run, i, k);
  }

  /** The report looks at the link again: from any state of the service, nothing is reported while MQTT is
      down, except by a connection that the core's handler has already recorded. */
  lemma {:induction false} NoReportWhileDown(c: Setup, s: Service, x: Timed)
    requires !s.mqttConnected
    ensures Step(c, s, x).reported ==> x.input.Connected? && c.coreFirst
  {
  }

  // ---- Without a delay ----

  /** The last connect or disconnect event before step n was a connect. */
  predicate Up(run: seq<Timed>, n: nat)
    requires n <= |run|
  {
    n > 0 && (run[n - 1].input.Connected? || (!run[n - 1].input.Disconnected? && Up(run, n - 1)))
  }

  /** Every connection comes when the link is down. */
  ghost predicate Alternating(run: seq<Timed>) {
    forall j :: 0 <= j < |run| && run[j].input.Connected? ==> !Up(run, j)
  }

  lemma {:induction false} ConnectedIsUp(c: Setup, run: seq<Timed>, n: nat)
    requires !(c.delay > 0 && c.hasTimer) && n <= |run|
    ensures After(c, run, n).timer == None
    ensures After(c, run, n).mqttConnected == Up(run, n)
  {
    if n == 0 {
    } else {
      ConnectedIsUp(c, run, n - 1);
    }
  }

  /** Without a delay, over every run: a step reports exactly if it is a connection, and either the core's
      handler runs first or the last connect or disconnect event before it was a connect, too. The option
      promises a report for every connection. */
  lemma {:induction false} ImmediateReportIff(c: Setup, run: seq<Timed>, k: nat)
    requires !(c.delay > 0 && c.hasTimer) && RealRun(c, run) && k < |run|
    ensures Reports(c, run, k) <==> run[k].input.Connected? && (c.coreFirst || Up(run, k))
  {
    ConnectedIsUp(c, run, k);
    assert Possible(After(c, run, k), run[k]);
  }

  /** The service is enabled before the agent is started, so that its handler is registered before the
      core's. If events reach handlers in that order, then no connection that comes when the link is down
      is ever reported. */
  lemma {:induction false} NoImmediateReport(c: Setup, run: seq<Timed>, k: nat)
    requires !(c.delay > 0 && c.hasTimer) && !c.coreFirst && RealRun(c, run) && Alternating(run) && k < |run|
    ensures !Reports(c, run, k)
  {
    ImmediateReportIff(c, run, k);
  }
}
