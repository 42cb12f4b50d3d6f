/** Order of start-up over every interleaving of events and queued tasks. */
module LifecycleProofs {
  import opened Basics
  import opened Lifecycle

  // ---- What the log must contain ----

  /** params_mqtt_init was called after the configuration was reported. */
  ghost predicate ParamsCalled(log: seq<Act>, n: int) {
    exists i, j :: 0 <= i < j < n <= |log| && log[i] == PostConfigReported && log[j].CallParamsInit?
  }

  /** STARTED is posted at most once, after the configuration was reported and then params_mqtt_init called. */
  ghost predicate StartOrdered(log: seq<Act>) {
    && (forall k, l :: 0 <= k < l < |log| && log[k] == PostStarted ==> log[l] != PostStarted)
    && forall k :: 0 <= k < |log| && log[k] == PostStarted ==> ParamsCalled(log, k)
  }

  ghost predicate InitBefore(log: seq<Act>, k: int) {
    exists i :: 0 <= i < k <= |log| && log[i] == MqttInit(Params(true))
  }

  ghost predicate ConnectsOrdered(log: seq<Act>) {
    forall k :: 0 <= k < |log| && log[k] == MqttConnect ==> InitBefore(log, k)
  }

  // ---- The same, act by act: an automaton that reads the log ----

  datatype Progress = Nothing | Reported | Called
  datatype Monitor = Monitor(progress: Progress, started: nat, startsOk: bool, initialised: bool, connectsOk: bool)

  function Read(m: Monitor, a: Act): Monitor {
    match a
    case PostConfigReported => if m.progress.Nothing? then m.(progress := Reported) else m
    case CallParamsInit(_) => if m.progress.Reported? then m.(progress := Called) else m
    case PostStarted => m.(started := m.started + 1, startsOk := m.startsOk && m.progress.Called?)
    case MqttInit(p) => m.(initialised := m.initialised || p.claimed)
    case MqttDeinit => m
    case MqttDisconnect => m
    case MqttConnect => m.(connectsOk := m.connectsOk && m.initialised)
  }

  function Monitored(log: seq<Act>, n: nat): Monitor
    requires n <= |log|
  {
    if n == 0 then Monitor(Nothing, 0, true, false, true) else Read(Monitored(log, n - 1), log[n - 1])
  }

  function Seen(s: Agent): Monitor { Monitored(s.log, |s.log|) }

  lemma {:induction false} MonitoredPrefix(log: seq<Act>, more: seq<Act>, n: nat)
    requires n <= |log|
    ensures Monitored(log + more, n) == Monitored(log, n)
  {
    if n == 0 {
    } else {
      MonitoredPrefix(log, more, n - 1);
    }
  }

  lemma {:induction false} LogGrows(log: seq<Act>, a: Act)
    ensures Monitored(log + [a], |log + [a]|) == Read(Monitored(log, |log|), a)
  {
    MonitoredPrefix(log, [a], |log|);
  }

  lemma {:induction false} MonitorMeans(log: seq<Act>, n: nat)
    requires n <= |log|
    ensures !Monitored(log, n).progress.Nothing? ==> exists i :: 0 <= i < n && log[i] == PostConfigReported
    ensures Monitored(log, n).progress.Called? ==> ParamsCalled(log, n)
    ensures Monitored(log, n).initialised ==> InitBefore(log, n)
    ensures Monitored(log, n).started == 0 ==> forall k :: 0 <= k < n ==> log[k] != PostStarted
    ensures Monitored(log, n).started <= 1 ==>
              forall k, l :: 0 <= k < l < n && log[k] == PostStarted ==> log[l] != PostStarted
    ensures Monitored(log, n).startsOk ==> forall k :: 0 <= k < n && log[k] == PostStarted ==> ParamsCalled(log, k)
    ensures Monitored(log, n).connectsOk ==> forall k :: 0 <= k < n && log[k] == MqttConnect ==> InitBefore(log, k)
  {
    if n == 0 {
    } else {
      MonitorMeans(log, n - 1);
    }
  }

  // ---- The right to finish the start is passed on, never copied ----

  function One(b: bool): nat { if b then 1 else 0 }

  function InQueue(s: Agent, t: Task): nat { multiset(s.queue)[t] }

  /** Holders of the right before the configuration is reported. */
  function EarlyTokens(s: Agent): nat {
    InQueue(s, RmakerTask) + One(s.at.Register?) + One(s.handlers.connected)
    + InQueue(s, PostMqttConnectTask) + One(s.at.ReportConfig?)
  }

  /** Holders of it afterwards, with the STARTED events already posted. */
  function LateTokens(s: Agent): nat {
    One(s.at.AskMapping?) + One(s.at.FinishStart?)
    + One(s.handlers.mappingDone) + One(s.handlers.mappingReset)
    + InQueue(s, ParamsInitTask) + One(s.at.InitParams?) + One(s.at.FinishCallback?)
    + Seen(s).started
  }

  ghost predicate StartInv(s: Agent) {
    && EarlyTokens(s) + LateTokens(s) <= 1
    && (LateTokens(s) > 0 ==> !Seen(s).progress.Nothing?)
    && (s.at.FinishStart? || s.at.FinishCallback? ==> Seen(s).progress.Called?)
    && Seen(s).startsOk
  }

  ghost predicate InStart(at: Point) {
    at.Register? || at.AskAssisted? || at.WaitAssisted? || at.AskSelf? || at.DoSelf? || at.AskInit?
    || at.DoInit? || at.ClearFlags? || at.EnableServices? || at.Connect?
  }

  /** Taking a task from the queue passes on what the task stands for. */
  lemma {:induction false} TakeKeepsStart(s: Agent)
    requires StartInv(s) && s.at.Idle?
    ensures StartInv(Take(s))
  {
    if s.queue != [] {
      HeadCounts(s.queue);
    }
  }

  lemma {:induction false} HeadCounts(q: seq<Task>)
    requires q != []
    ensures multiset(q) == multiset(q[1..]) + multiset{q[0]}
  {
    assert q == [q[0]] + q[1..];
  }

  ghost predicate QuietPoint(at: Point) { at.Idle? || (InStart(at) && !at.Register?) }
  ghost predicate QuietAct(a: Act) { a.MqttInit? || a.MqttDeinit? || a.MqttConnect? || a.MqttDisconnect? }

  /** A move between points that do not hold the right, with nothing logged that matters here. */
  lemma {:induction false} QuietMove(s: Agent, t: Agent)
    requires StartInv(s) && t.queue == s.queue
    requires t.handlers.(claim := false) == s.handlers.(claim := false)
    requires t.at == s.at || ((QuietPoint(s.at) || s.at.Register?) && QuietPoint(t.at))
    requires t.log == s.log || exists a :: QuietAct(a) && t.log == s.log + [a]
    ensures StartInv(t)
  {
    if t.log != s.log {
      var a :| QuietAct(a) && t.log == s.log + [a];
      LogGrows(s.log, a);
    }
  }

  /** The start task up to the registration of the CONNECTED handler. */
  lemma {:induction false} RegisterKeepsStart(s: Agent, ok: bool, mapping: Mapping)
    requires StartInv(s) && s.at.Register?
    ensures StartInv(WorkStep(s, ok, mapping))
  {
    var t := WorkStep(s, ok, mapping);
    assert t.queue == s.queue && t.log == s.log;
  }

  /** Its other points are quiet. */
  lemma {:induction false} StartPointIsQuiet(s: Agent, ok: bool, mapping: Mapping)
    requires InStart(s.at) && !s.at.Register?
    ensures var t := WorkStep(s, ok, mapping);
            && t.queue == s.queue && t.handlers == s.handlers && QuietPoint(t.at)
            && (t.log == s.log || exists a :: QuietAct(a) && t.log == s.log + [a])
  {
    var a := if s.at.DoInit? && s.claim.params.Some? then MqttInit(s.claim.params.value) else MqttConnect;
    assert QuietAct(a);
    assert WorkStep(s, ok, mapping).log == s.log || WorkStep(s, ok, mapping).log == s.log + [a];
  }

  lemma {:induction false} StartTaskKeepsStart(s: Agent, ok: bool, mapping: Mapping)
    requires StartInv(s) && InStart(s.at)
    ensures StartInv(WorkStep(s, ok, mapping))
  {
    if s.at.Register? {
      RegisterKeepsStart(s, ok, mapping);
    } else {
      StartPointIsQuiet(s, ok, mapping);
      QuietMove(s, WorkStep(s, ok, mapping));
    }
  }

  lemma {:induction false} PostTaskKeepsStart(s: Agent, ok: bool, mapping: Mapping)
    requires StartInv(s) && (s.at.ReportConfig? || s.at.FinishStart?)
    ensures StartInv(WorkStep(s, ok, mapping))
  {
    LogGrows(s.log, if s.at.FinishStart? then PostStarted else if ok then PostConfigReported else MqttDisconnect);
  }

  lemma {:induction false} MappingKeepsStart(s: Agent, ok: bool, mapping: Mapping)
    requires StartInv(s) && s.at.AskMapping?
    ensures StartInv(WorkStep(s, ok, mapping))
  {
    var log := if mapping == MappingDone then s.log + [CallParamsInit(ok)] else s.log;
    LogGrows(s.log, CallParamsInit(ok));
    LogGrows(log, MqttDisconnect);
  }

  lemma {:induction false} CallbackKeepsStart(s: Agent, ok: bool, mapping: Mapping)
    requires StartInv(s) && (s.at.InitParams? || s.at.FinishCallback?)
    ensures StartInv(WorkStep(s, ok, mapping))
  {
    LogGrows(s.log, if s.at.InitParams? then CallParamsInit(ok) else PostStarted);
  }

  lemma {:induction false} WorkKeepsStart(s: Agent, ok: bool, mapping: Mapping)
    requires StartInv(s)
    ensures StartInv(WorkStep(s, ok, mapping))
  {
    match s.at
    case Idle => TakeKeepsStart(s);
    case ReportConfig => PostTaskKeepsStart(s, ok, mapping);
    case FinishStart => PostTaskKeepsStart(s, ok, mapping);
    case AskMapping => MappingKeepsStart(s, ok, mapping);
    case InitParams => CallbackKeepsStart(s, ok, mapping);
    case FinishCallback => CallbackKeepsStart(s, ok, mapping);
    case _ => StartTaskKeepsStart(s, ok, mapping);
  }

  lemma {:induction false} ConnectedKeepsStart(s: Agent, queued: bool)
    requires StartInv(s)
    ensures StartInv(OnConnected(s, queued))
  {
  }

  lemma {:induction false} UserMappingKeepsStart(s: Agent, reset: bool, queued: bool)
    requires StartInv(s)
    ensures StartInv(OnUserMapping(s, reset, queued))
  {
  }

  lemma {:induction false} ClaimKeepsStart(s: Agent, reconfigure: bool, fetchOk: bool, initOk: bool)
    requires StartInv(s)
    ensures StartInv(OnClaimSuccess(s, reconfigure, fetchOk, initOk))
  {
    var t := OnClaimSuccess(s, reconfigure, fetchOk, initOk);
    if t.log == s.log {
      QuietMove(s, t);
    } else {
      var down := s.(log := s.log + [MqttDeinit]);
      QuietMove(s, down);
      assert t.log == down.log || t.log == down.log + [MqttInit(Params(s.claim.stored))];
      QuietMove(down, t);
    }
  }

  lemma {:induction false} StepKeepsStart(s: Agent, a: Action)
    requires StartInv(s)
    ensures StartInv(Step(s, a))
  {
    match a
    case Work(ok, mapping) => WorkKeepsStart(s, ok, mapping);
    case MqttConnected(queued) => ConnectedKeepsStart(s, queued);
    case MqttDisconnected => QuietMove(s, Step(s, a));
    case UserMapping(reset, queued) => UserMappingKeepsStart(s, reset, queued);
    case ClaimSucceeded(reconfigure, fetchOk, initOk) => ClaimKeepsStart(s, reconfigure, fetchOk, initOk);
    case ClaimFailedEvent => QuietMove(s, Step(s, a));
    case CredentialsStored => QuietMove(s, Step(s, a));
    case Submit =>
  }

  lemma {:induction false} RunsKeepStart(kind: ClaimKind, resetReporting: bool, needClaim: bool, actions: seq<Action>)
    ensures StartInv(RunAll(Initial(kind, resetReporting, needClaim), actions))
    decreases |actions|
  {
    var s := Initial(kind, resetReporting, needClaim);
    if actions == [] {
    } else {
      var before := actions[..|actions| - 1];
      RunsKeepStart(kind, resetReporting, needClaim, before);
      StepKeepsStart(RunAll(s, before), actions[|actions| - 1]);
    }
  }

  /** Start ordering: after one start, whatever the interleaving, STARTED is posted at most once, and
      only after the configuration was reported and then params_mqtt_init was called. */
  lemma {:induction false} StartOrder(kind: ClaimKind, resetReporting: bool, needClaim: bool, actions: seq<Action>)
    ensures StartOrdered(RunAll(Initial(kind, resetReporting, needClaim), actions).log)
  {
    RunsKeepStart(kind, resetReporting, needClaim, actions);
    var log := RunAll(Initial(kind, resetReporting, needClaim), actions).log;
    MonitorMeans(log, |log|);
  }

  // ---- Claiming comes before connecting ----

  /** Past the initialisation of MQTT, if it was needed, and before the connection. */
  predicate AfterInit(at: Point) { at.ClearFlags? || at.EnableServices? || at.Connect? }

  ghost predicate ClaimInv(s: Agent) {
    && InQueue(s, RmakerTask) + One(InStart(s.at)) <= 1
    && (s.claim.params.Some? ==> s.claim.params.value.claimed && s.claim.stored)
    // The flags, until the start task has acted on them.
    && (InQueue(s, RmakerTask) > 0 || (InStart(s.at) && !AfterInit(s.at)) ==>
          (s.claim.need || s.claim.done) && (!s.claim.need ==> s.claim.stored))
    && (s.at.DoSelf? ==> s.config.kind.SelfClaim?)
    && (s.at.AskSelf? && s.config.kind.AssistedClaim? ==> s.claim.stored)
    && (s.at.AskInit? || s.at.DoInit? ==> s.claim.stored)
    && (AfterInit(s.at) ==> Seen(s).initialised)
    && Seen(s).connectsOk
  }

  lemma {:induction false} ClaimingKeepsClaim(s: Agent, ok: bool, mapping: Mapping)
    requires ClaimInv(s) && Possible(s, Work(ok, mapping))
    requires s.at.Register? || s.at.AskAssisted? || s.at.WaitAssisted? || s.at.AskSelf? || s.at.DoSelf?
    ensures ClaimInv(WorkStep(s, ok, mapping))
  {
  }

  lemma {:induction false} InitKeepsClaim(s: Agent, ok: bool, mapping: Mapping)
    requires ClaimInv(s) && (s.at.AskInit? || s.at.DoInit?)
    ensures ClaimInv(WorkStep(s, ok, mapping))
  {
    if s.at.DoInit? && s.claim.params.Some? {
      LogGrows(s.log, MqttInit(s.claim.params.value));
    }
  }

  lemma {:induction false} ConnectKeepsClaim(s: Agent, ok: bool, mapping: Mapping)
    requires ClaimInv(s) && AfterInit(s.at)
    ensures ClaimInv(WorkStep(s, ok, mapping))
  {
    if s.at.Connect? {
      LogGrows(s.log, MqttConnect);
    }
  }

  lemma {:induction false} StartTaskKeepsClaim(s: Agent, ok: bool, mapping: Mapping)
    requires ClaimInv(s) && Possible(s, Work(ok, mapping)) && InStart(s.at)
    ensures ClaimInv(WorkStep(s, ok, mapping))
  {
    if AfterInit(s.at) {
      ConnectKeepsClaim(s, ok, mapping);
    } else if s.at.AskInit? || s.at.DoInit? {
      InitKeepsClaim(s, ok, mapping);
    } else {
      ClaimingKeepsClaim(s, ok, mapping);
    }
  }

  /** Outside the start task the flags and parameters stay, and MQTT is neither set up nor connected. */
  lemma {:induction false} OutsideKeepsClaim(s: Agent, t: Agent)
    requires ClaimInv(s) && !InStart(s.at) && !InStart(t.at)
    requires InQueue(t, RmakerTask) == InQueue(s, RmakerTask)
    requires t.claim == s.claim && t.config == s.config
    requires t.log == s.log || exists a: Act :: !a.MqttConnect? && t.log == s.log + [a]
    ensures ClaimInv(t)
  {
    if t.log != s.log {
      var a: Act :| !a.MqttConnect? && t.log == s.log + [a];
      LogGrows(s.log, a);
    }
  }

  lemma {:induction false} TakeKeepsClaim(s: Agent)
    requires ClaimInv(s) && s.at.Idle?
    ensures ClaimInv(Take(s))
  {
    if s.queue != [] {
      HeadCounts(s.queue);
    }
  }

  lemma {:induction false} OtherTasksKeepClaim(s: Agent, ok: bool, mapping: Mapping)
    requires ClaimInv(s) && !InStart(s.at) && !s.at.Idle?
    ensures ClaimInv(WorkStep(s, ok, mapping))
  {
    var t := WorkStep(s, ok, mapping);
    var a := if s.at.FinishStart? || s.at.FinishCallback? then PostStarted
             else if !s.at.ReportConfig? then CallParamsInit(ok)
             else if ok then PostConfigReported else MqttDisconnect;
    if s.at.AskMapping? && mapping == MappingDone && !ok {
      var called := s.(log := s.log + [a]);
      OutsideKeepsClaim(s, called);
      assert t.log == called.log || t.log == called.log + [MqttDisconnect];
      OutsideKeepsClaim(called, t);
    } else {
      assert t.log == s.log || t.log == s.log + [a] || t.log == s.log + [MqttDisconnect];
      OutsideKeepsClaim(s, t);
    }
  }

  lemma {:induction false} ReinitKeepsClaim(s: Agent, fetchOk: bool, initOk: bool)
    requires ClaimInv(s) && s.claim.stored
    ensures ClaimInv(Reinit(s, fetchOk, initOk))
  {
    if s.claim.params.Some? {
      LogGrows(s.log, MqttDeinit);
      LogGrows(s.log + [MqttDeinit], MqttInit(Params(true)));
    }
  }

  /** Nothing that claiming depends on changes. */
  lemma {:induction false} UnrelatedKeepsClaim(s: Agent, t: Agent)
    requires ClaimInv(s) && t.at == s.at && t.log == s.log && t.config == s.config
    requires InQueue(t, RmakerTask) == InQueue(s, RmakerTask)
    requires t.claim == s.claim || t.claim == s.claim.(stored := true)
    ensures ClaimInv(t)
  {
  }

  lemma {:induction false} ClaimEventKeepsClaim(s: Agent, reconfigure: bool, fetchOk: bool, initOk: bool)
    requires ClaimInv(s) && s.claim.stored
    ensures ClaimInv(OnClaimSuccess(s, reconfigure, fetchOk, initOk))
  {
    if s.handlers.claim {
      var t := s.(claim := s.claim.(need := false, done := true));
      assert ClaimInv(t);
      ReinitKeepsClaim(t, fetchOk, initOk);
      var u := if s.config.kind.AssistedClaim? && reconfigure then Reinit(t, fetchOk, initOk) else t;
      UnrelatedKeepsClaim(u, OnClaimSuccess(s, reconfigure, fetchOk, initOk));
    }
  }

  lemma {:induction false} EventKeepsClaim(s: Agent, a: Action)
    requires ClaimInv(s) && !a.Work? && !a.ClaimSucceeded?
    ensures ClaimInv(Step(s, a))
  {
    match a
    case MqttConnected(queued) => UnrelatedKeepsClaim(s, OnConnected(s, queued));
    case UserMapping(reset, queued) => UnrelatedKeepsClaim(s, OnUserMapping(s, reset, queued));
    case _ => UnrelatedKeepsClaim(s, Step(s, a));
  }

  lemma {:induction false} WorkKeepsClaim(s: Agent, ok: bool, mapping: Mapping)
    requires ClaimInv(s) && Possible(s, Work(ok, mapping))
    ensures ClaimInv(WorkStep(s, ok, mapping))
  {
    if InStart(s.at) {
      StartTaskKeepsClaim(s, ok, mapping);
    } else if s.at.Idle? {
      TakeKeepsClaim(s);
    } else {
      OtherTasksKeepClaim(s, ok, mapping);
    }
  }

  lemma {:induction false} StepKeepsClaim(s: Agent, a: Action)
    requires ClaimInv(s) && Possible(s, a)
    ensures ClaimInv(Step(s, a))
  {
    match a
    case Work(ok, mapping) => WorkKeepsClaim(s, ok, mapping);
    case ClaimSucceeded(reconfigure, fetchOk, initOk) => ClaimEventKeepsClaim(s, reconfigure, fetchOk, initOk);
    case _ => EventKeepsClaim(s, a);
  }

  lemma {:induction false} RunsKeepClaim(kind: ClaimKind, resetReporting: bool, actions: seq<Action>)
    requires AllPossible(Initial(kind, resetReporting, true), actions)
    ensures ClaimInv(RunAll(Initial(kind, resetReporting, true), actions))
    decreases |actions|
  {
    var s := Initial(kind, resetReporting, true);
    if actions == [] {
    } else {
      var before := actions[..|actions| - 1];
      RunsKeepClaim(kind, resetReporting, before);
      StepKeepsClaim(RunAll(s, before), actions[|actions| - 1]);
    }
  }

  /** Claim before connect: a node that starts unclaimed initialises MQTT with parameters fetched after
      the claimed credentials were stored before its start task connects, whether the success event
      is handled before, between or after the task's own tests. */
  lemma {:induction false} ClaimBeforeConnect(kind: ClaimKind, resetReporting: bool, actions: seq<Action>)
    requires AllPossible(Initial(kind, resetReporting, true), actions)
    ensures ConnectsOrdered(RunAll(Initial(kind, resetReporting, true), actions).log)
  {
    RunsKeepClaim(kind, resetReporting, actions);
    var log := RunAll(Initial(kind, resetReporting, true), actions).log;
    MonitorMeans(log, |log|);
  }
}
