/** What STARTED and a connection are worth: when params_mqtt_init has succeeded before STARTED, when MQTT
    is up at the connection, and runs that show both outcomes. */
module LifecycleOutcomes {
  import opened Basics
  import opened Lifecycle
  import opened LifecycleProofs

  // ---- Events of a run ----

  /** Some step of the run was of this kind, in the state in which it was made. */
  ghost predicate Ever(kind: (Agent, Action) -> bool, s: Agent, actions: seq<Action>) {
    exists j :: 0 <= j < |actions| && kind(RunAll(s, actions[..j]), actions[j])
  }

  lemma {:induction false} EverStays(kind: (Agent, Action) -> bool, s: Agent, actions: seq<Action>)
    requires actions != [] && Ever(kind, s, actions[..|actions| - 1])
    ensures Ever(kind, s, actions)
  {
    var before := actions[..|actions| - 1];
    var j :| 0 <= j < |before| && kind(RunAll(s, before[..j]), before[j]);
    assert before[..j] == actions[..j] && before[j] == actions[j];
  }

  lemma {:induction false} EverWas(kind: (Agent, Action) -> bool, s: Agent, actions: seq<Action>)
    requires actions != [] && Ever(kind, s, actions)
    ensures var before, last := actions[..|actions| - 1], actions[|actions| - 1];
            Ever(kind, s, before) || kind(RunAll(s, before), last)
  {
    var before := actions[..|actions| - 1];
    var j :| 0 <= j < |actions| && kind(RunAll(s, actions[..j]), actions[j]);
    if j < |before| {
      assert before[..j] == actions[..j] && before[j] == actions[j];
    }
  }

  lemma {:induction false} EverNext(kind: (Agent, Action) -> bool, s: Agent, actions: seq<Action>)
    requires actions != []
    ensures var before, last := actions[..|actions| - 1], actions[|actions| - 1];
            Ever(kind, s, actions) <==> Ever(kind, s, before) || kind(RunAll(s, before), last)
  {
    var before, last := actions[..|actions| - 1], actions[|actions| - 1];
    if Ever(kind, s, before) {
      EverStays(kind, s, actions);
    } else if Ever(kind, s, actions) {
      EverWas(kind, s, actions);
    }
  }

  // ---- MQTT at the connection ----

  /** The last initialisation or deinitialisation before position n is an initialisation. */
  predicate UpAt(log: seq<Act>, n: nat)
    requires n <= |log|
  {
    n > 0 && (log[n - 1].MqttInit? || (!log[n - 1].MqttDeinit? && UpAt(log, n - 1)))
  }

  lemma {:induction false} UpGrows(log: seq<Act>, a: Act, n: nat)
    requires n <= |log|
    ensures UpAt(log + [a], n) == UpAt(log, n)
  {
    if n == 0 {
    } else {
      UpGrows(log, a, n - 1);
    }
  }

  /** The success handler takes MQTT down and fails to bring it up again, after the start task's own
      initialisation and before its connection. */
  predicate Breaks(s: Agent, a: Action) {
    && a.ClaimSucceeded? && a.reconfigure && !(a.fetchOk && a.initOk)
    && s.config.kind.AssistedClaim? && s.handlers.claim && AfterInit(s.at)
  }

  ghost predicate ConnectsAre(up: bool, log: seq<Act>) {
    forall k :: 0 <= k < |log| && log[k] == MqttConnect ==> UpAt(log, k) == up
  }

  ghost predicate UpInv(s: Agent, broken: bool) {
    && ClaimInv(s)
    && (broken ==> !s.handlers.claim && InQueue(s, RmakerTask) == 0 && (InStart(s.at) ==> AfterInit(s.at)))
    && (AfterInit(s.at) ==> UpAt(s.log, |s.log|) == !broken && (!broken ==> s.claim.params.Some?))
    && (InQueue(s, RmakerTask) > 0 || InStart(s.at) ==> MqttConnect !in s.log)
    && ConnectsAre(!broken, s.log)
  }

  /** A longer log, with nothing in it that concerns earlier connections. */
  lemma {:induction false} UpAfter(log: seq<Act>, a: Act, up: bool)
    requires ConnectsAre(up, log) && (a.MqttConnect? ==> UpAt(log, |log|) == up)
    ensures ConnectsAre(up, log + [a])
    ensures UpAt(log + [a], |log| + 1) == (a.MqttInit? || (!a.MqttDeinit? && UpAt(log, |log|)))
  {
    UpGrows(log, a, |log|);
    forall k | 0 <= k < |log + [a]| && (log + [a])[k] == MqttConnect ensures UpAt(log + [a], k) == up {
      UpGrows(log, a, k);
    }
  }

  /** No connection yet: any value may be claimed of them. */
  lemma {:induction false} NoConnects(log: seq<Act>, up: bool)
    requires MqttConnect !in log
    ensures ConnectsAre(up, log)
  {
  }

  lemma {:induction false} StartTaskKeepsUp(s: Agent, ok: bool, mapping: Mapping, broken: bool)
    requires UpInv(s, broken) && Possible(s, Work(ok, mapping)) && InStart(s.at)
    ensures UpInv(WorkStep(s, ok, mapping), broken)
  {
    StartTaskKeepsClaim(s, ok, mapping);
    if s.at.Connect? {
      UpAfter(s.log, MqttConnect, !broken);
    } else if s.at.DoInit? && s.claim.params.Some? {
      UpAfter(s.log, MqttInit(s.claim.params.value), !broken);
    }
  }

  /** Outside the start task nothing connects. */
  lemma {:induction false} LogKeepsUp(s: Agent, t: Agent, a: Act, broken: bool)
    requires UpInv(s, broken) && ClaimInv(t) && !InStart(s.at) && !InStart(t.at)
    requires !a.MqttConnect? && t.handlers.claim == s.handlers.claim && InQueue(t, RmakerTask) == InQueue(s, RmakerTask)
    requires t.log == s.log || t.log == s.log + [a]
    ensures UpInv(t, broken)
  {
    if t.log != s.log {
      UpAfter(s.log, a, !broken);
    }
  }

  lemma {:induction false} MappingKeepsUp(s: Agent, ok: bool, broken: bool)
    requires UpInv(s, broken) && s.at.AskMapping?
    ensures UpInv(WorkStep(s, ok, MappingDone), broken)
  {
    var t := WorkStep(s, ok, MappingDone);
    var called := s.(log := s.log + [CallParamsInit(ok)]);
    OtherTasksKeepClaim(s, ok, MappingDone);
    OutsideKeepsClaim(s, called);
    LogKeepsUp(s, called, CallParamsInit(ok), broken);
    LogKeepsUp(called, t, MqttDisconnect, broken);
  }

  lemma {:induction false} OtherTasksKeepUp(s: Agent, ok: bool, mapping: Mapping, broken: bool)
    requires UpInv(s, broken) && !InStart(s.at) && !s.at.Idle? && !(s.at.AskMapping? && mapping == MappingDone)
    ensures UpInv(WorkStep(s, ok, mapping), broken)
  {
    var a := if s.at.FinishStart? || s.at.FinishCallback? then PostStarted
             else if s.at.InitParams? then CallParamsInit(ok)
             else if s.at.ReportConfig? && ok then PostConfigReported else MqttDisconnect;
    OtherTasksKeepClaim(s, ok, mapping);
    LogKeepsUp(s, WorkStep(s, ok, mapping), a, broken);
  }

  lemma {:induction false} TakeKeepsUp(s: Agent, broken: bool)
    requires UpInv(s, broken) && s.at.Idle?
    ensures UpInv(Take(s), broken)
  {
    TakeKeepsClaim(s);
    if s.queue != [] {
      HeadCounts(s.queue);
    }
  }

  lemma {:induction false} WorkKeepsUp(s: Agent, ok: bool, mapping: Mapping, broken: bool)
    requires UpInv(s, broken) && Possible(s, Work(ok, mapping))
    ensures UpInv(WorkStep(s, ok, mapping), broken)
  {
    if InStart(s.at) {
      StartTaskKeepsUp(s, ok, mapping, broken);
    } else if s.at.Idle? {
      TakeKeepsUp(s, broken);
      assert WorkStep(s, ok, mapping) == Take(s);
    } else if s.at.AskMapping? && mapping == MappingDone {
      MappingKeepsUp(s, ok, broken);
    } else {
      OtherTasksKeepUp(s, ok, mapping, broken);
    }
  }

  /** The log of a re-initialisation. */
  lemma {:induction false} ReinitLog(s: Agent, fetchOk: bool, initOk: bool, up: bool)
    requires s.claim.params.Some? && ConnectsAre(up, s.log)
    ensures var t := Reinit(s, fetchOk, initOk);
            && ConnectsAre(up, t.log) && UpAt(t.log, |t.log|) == (fetchOk && initOk)
            && (MqttConnect in t.log ==> MqttConnect in s.log)
  {
    UpAfter(s.log, MqttDeinit, up);
    UpAfter(s.log + [MqttDeinit], MqttInit(Params(s.claim.stored)), up);
  }

  lemma {:induction false} ClaimEventKeepsUp(s: Agent, reconfigure: bool, fetchOk: bool, initOk: bool, broken: bool)
    requires UpInv(s, broken) && s.claim.stored
    ensures UpInv(OnClaimSuccess(s, reconfigure, fetchOk, initOk),
                  broken || Breaks(s, ClaimSucceeded(reconfigure, fetchOk, initOk)))
  {
    ClaimEventKeepsClaim(s, reconfigure, fetchOk, initOk);
    if s.handlers.claim && s.config.kind.AssistedClaim? && reconfigure && s.claim.params.Some? {
      var t := s.(claim := s.claim.(need := false, done := true));
      ReinitLog(t, fetchOk, initOk, true);
      if Breaks(s, ClaimSucceeded(reconfigure, fetchOk, initOk)) {
        NoConnects(Reinit(t, fetchOk, initOk).log, false);
      }
    }
  }

  /** Nothing that the connection depends on changes. */
  lemma {:induction false} UnrelatedKeepsUp(s: Agent, t: Agent, broken: bool)
    requires UpInv(s, broken) && t.at == s.at && t.log == s.log && t.config == s.config
    requires InQueue(t, RmakerTask) == InQueue(s, RmakerTask)
    requires t.claim == s.claim || t.claim == s.claim.(stored := true)
    requires t.handlers.claim ==> s.handlers.claim
    ensures UpInv(t, broken)
  {
    UnrelatedKeepsClaim(s, t);
  }

  lemma {:induction false} EventKeepsUp(s: Agent, a: Action, broken: bool)
    requires UpInv(s, broken) && !a.Work? && !a.ClaimSucceeded?
    ensures UpInv(Step(s, a), broken)
  {
    match a
    case MqttConnected(queued) => UnrelatedKeepsUp(s, OnConnected(s, queued), broken);
    case UserMapping(reset, queued) => UnrelatedKeepsUp(s, OnUserMapping(s, reset, queued), broken);
    case _ => UnrelatedKeepsUp(s, Step(s, a), broken);
  }

  lemma {:induction false} StepKeepsUp(s: Agent, a: Action, broken: bool)
    requires UpInv(s, broken) && Possible(s, a)
    ensures UpInv(Step(s, a), broken || Breaks(s, a))
  {
    match a
    case Work(ok, mapping) => WorkKeepsUp(s, ok, mapping, broken);
    case ClaimSucceeded(reconfigure, fetchOk, initOk) => ClaimEventKeepsUp(s, reconfigure, fetchOk, initOk, broken);
    case _ => EventKeepsUp(s, a, broken);
  }

  lemma {:induction false} RunsKeepUp(kind: ClaimKind, resetReporting: bool, actions: seq<Action>)
    requires AllPossible(Initial(kind, resetReporting, true), actions)
    ensures var s := Initial(kind, resetReporting, true);
            UpInv(RunAll(s, actions), Ever(Breaks, s, actions))
    decreases |actions|
  {
    var s := Initial(kind, resetReporting, true);
    if actions == [] {
    } else {
      var before := actions[..|actions| - 1];
      RunsKeepUp(kind, resetReporting, before);
      StepKeepsUp(RunAll(s, before), actions[|actions| - 1], Ever(Breaks, s, before));
      EverNext(Breaks, s, actions);
    }
  }

  /** When MQTT is up at the connection of a node that starts unclaimed: in every run, exactly if the
      success handler has not failed to bring it up again between the start task's own initialisation
      and the connection. */
  lemma {:induction false} UpAtConnectIff(kind: ClaimKind, resetReporting: bool, actions: seq<Action>, k: nat)
    requires AllPossible(Initial(kind, resetReporting, true), actions)
    requires var log := RunAll(Initial(kind, resetReporting, true), actions).log;
             k < |log| && log[k] == MqttConnect
    ensures var s := Initial(kind, resetReporting, true);
            UpAt(RunAll(s, actions).log, k) <==> !Ever(Breaks, s, actions)
  {
    RunsKeepUp(kind, resetReporting, actions);
  }

  lemma {:induction false} ConfigStays(s: Agent, actions: seq<Action>)
    ensures RunAll(s, actions).config == s.config
    decreases |actions|
  {
    if actions == [] {
    } else {
      ConfigStays(s, actions[..|actions| - 1]);
    }
  }

  /** With self claiming it always is. */
  lemma {:induction false} SelfClaimingConnectsUp(resetReporting: bool, actions: seq<Action>, k: nat)
    requires AllPossible(Initial(SelfClaim, resetReporting, true), actions)
    requires var log := RunAll(Initial(SelfClaim, resetReporting, true), actions).log;
             k < |log| && log[k] == MqttConnect
    ensures UpAt(RunAll(Initial(SelfClaim, resetReporting, true), actions).log, k)
  {
    var s := Initial(SelfClaim, resetReporting, true);
    UpAtConnectIff(SelfClaim, resetReporting, actions, k);
    forall j | 0 <= j < |actions| ensures !Breaks(RunAll(s, actions[..j]), actions[j]) {
      ConfigStays(s, actions[..j]);
    }
  }

  // ---- params_mqtt_init before STARTED ----

  /** The result of the last call of params_mqtt_init before position n. */
  function LastInit(log: seq<Act>, n: nat): Option<bool>
    requires n <= |log|
  {
    if n == 0 then None
    else if log[n - 1].CallParamsInit? then Some(log[n - 1].ok)
    else LastInit(log, n - 1)
  }

  lemma {:induction false} InitGrows(log: seq<Act>, a: Act, n: nat)
    requires n <= |log|
    ensures LastInit(log + [a], n) == LastInit(log, n)
  {
    if n == 0 {
    } else {
      InitGrows(log, a, n - 1);
    }
  }

  /** params_mqtt_init fails in the callback that the user mapping event has queued. */
  predicate CallbackFails(s: Agent, a: Action) { a.Work? && !a.ok && s.at.InitParams? }

  /** The mapping is already done when the configuration is reported. */
  predicate MappedAlready(s: Agent, a: Action) { a.Work? && s.at.AskMapping? && a.mapping == MappingDone }

  ghost predicate StartsAre(ok: bool, log: seq<Act>) {
    forall k :: 0 <= k < |log| && log[k] == PostStarted ==> LastInit(log, k) == Some(ok)
  }

  ghost predicate InitInv(s: Agent, failed: bool, mapped: bool) {
    && StartInv(s)
    && (failed ==> One(s.at.FinishCallback?) + Seen(s).started == 1 && !mapped)
    && (mapped ==> EarlyTokens(s) == 0 && LateTokens(s) == One(s.at.FinishStart?) + Seen(s).started)
    && (s.at.FinishStart? ==> LastInit(s.log, |s.log|) == Some(true))
    && (s.at.FinishCallback? ==> LastInit(s.log, |s.log|) == Some(!failed))
    && StartsAre(!failed, s.log)
  }

  lemma {:induction false} InitAfter(log: seq<Act>, a: Act, ok: bool)
    requires StartsAre(ok, log) && (a.PostStarted? ==> LastInit(log, |log|) == Some(ok))
    ensures StartsAre(ok, log + [a])
    ensures LastInit(log + [a], |log| + 1) == (if a.CallParamsInit? then Some(a.ok) else LastInit(log, |log|))
  {
    InitGrows(log, a, |log|);
    forall k | 0 <= k < |log + [a]| && (log + [a])[k] == PostStarted ensures LastInit(log + [a], k) == Some(ok) {
      InitGrows(log, a, k);
    }
  }

  /** Without STARTED so far. */
  lemma {:induction false} NoStarts(log: seq<Act>, ok: bool)
    requires Monitored(log, |log|).started == 0
    ensures StartsAre(ok, log)
  {
    MonitorMeans(log, |log|);
  }

  /** A step that touches neither the right to go on nor the calls of params_mqtt_init. */
  lemma {:induction false} QuietKeepsInit(s: Agent, t: Agent, failed: bool, mapped: bool)
    requires InitInv(s, failed, mapped) && t.queue == s.queue
    requires t.handlers.(claim := false) == s.handlers.(claim := false)
    requires t.at == s.at || ((QuietPoint(s.at) || s.at.Register?) && QuietPoint(t.at))
    requires t.log == s.log || exists a :: QuietAct(a) && t.log == s.log + [a]
    ensures InitInv(t, failed, mapped)
  {
    QuietMove(s, t);
    if t.log != s.log {
      var a :| QuietAct(a) && t.log == s.log + [a];
      LogGrows(s.log, a);
      InitAfter(s.log, a, !failed);
    }
  }

  lemma {:induction false} StartTaskKeepsInit(s: Agent, ok: bool, mapping: Mapping, failed: bool, mapped: bool)
    requires InitInv(s, failed, mapped) && InStart(s.at)
    ensures InitInv(WorkStep(s, ok, mapping), failed, mapped)
  {
    if s.at.Register? {
      RegisterKeepsStart(s, ok, mapping);
    } else {
      StartPointIsQuiet(s, ok, mapping);
      QuietKeepsInit(s, WorkStep(s, ok, mapping), failed, mapped);
    }
  }

  lemma {:induction false} TakeKeepsInit(s: Agent, failed: bool, mapped: bool)
    requires InitInv(s, failed, mapped) && s.at.Idle?
    ensures InitInv(Take(s), failed, mapped)
  {
    TakeKeepsStart(s);
    if s.queue != [] {
      HeadCounts(s.queue);
    }
  }

  lemma {:induction false} PostTaskKeepsInit(s: Agent, ok: bool, mapping: Mapping, failed: bool, mapped: bool)
    requires InitInv(s, failed, mapped) && (s.at.ReportConfig? || s.at.FinishStart? || s.at.FinishCallback?)
    ensures InitInv(WorkStep(s, ok, mapping), failed, mapped)
  {
    WorkKeepsStart(s, ok, mapping);
    var a := if !s.at.ReportConfig? then PostStarted else if ok then PostConfigReported else MqttDisconnect;
    LogGrows(s.log, a);
    InitAfter(s.log, a, !failed);
  }

  lemma {:induction false} MappingKeepsInit(s: Agent, ok: bool, mapping: Mapping, failed: bool, mapped: bool)
    requires InitInv(s, failed, mapped) && s.at.AskMapping?
    ensures InitInv(WorkStep(s, ok, mapping), failed, mapped || mapping == MappingDone)
  {
    MappingKeepsStart(s, ok, mapping);
    var log := if mapping == MappingDone then s.log + [CallParamsInit(ok)] else s.log;
    LogGrows(s.log, CallParamsInit(ok));
    InitAfter(s.log, CallParamsInit(ok), !failed);
    LogGrows(log, MqttDisconnect);
    InitAfter(log, MqttDisconnect, !failed);
  }

  lemma {:induction false} CallbackKeepsInit(s: Agent, ok: bool, mapping: Mapping, failed: bool, mapped: bool)
    requires InitInv(s, failed, mapped) && s.at.InitParams?
    ensures InitInv(WorkStep(s, ok, mapping), failed || !ok, mapped)
  {
    CallbackKeepsStart(s, ok, mapping);
    LogGrows(s.log, CallParamsInit(ok));
    NoStarts(s.log, ok);
    InitAfter(s.log, CallParamsInit(ok), ok);
  }

  lemma {:induction false} WorkKeepsInit(s: Agent, ok: bool, mapping: Mapping, failed: bool, mapped: bool)
    requires InitInv(s, failed, mapped)
    ensures InitInv(WorkStep(s, ok, mapping), failed || CallbackFails(s, Work(ok, mapping)),
                    mapped || MappedAlready(s, Work(ok, mapping)))
  {
    match s.at
    case Idle => TakeKeepsInit(s, failed, mapped);
    case ReportConfig => PostTaskKeepsInit(s, ok, mapping, failed, mapped);
    case FinishStart => PostTaskKeepsInit(s, ok, mapping, failed, mapped);
    case FinishCallback => PostTaskKeepsInit(s, ok, mapping, failed, mapped);
    case AskMapping => MappingKeepsInit(s, ok, mapping, failed, mapped);
    case InitParams => CallbackKeepsInit(s, ok, mapping, failed, mapped);
    case _ => StartTaskKeepsInit(s, ok, mapping, failed, mapped);
  }

  lemma {:induction false} ClaimKeepsInit(s: Agent, reconfigure: bool, fetchOk: bool, initOk: bool,
                                              failed: bool, mapped: bool)
    requires InitInv(s, failed, mapped)
    ensures InitInv(OnClaimSuccess(s, reconfigure, fetchOk, initOk), failed, mapped)
  {
    var t := OnClaimSuccess(s, reconfigure, fetchOk, initOk);
    if t.log == s.log {
      QuietKeepsInit(s, t, failed, mapped);
    } else {
      var down := s.(log := s.log + [MqttDeinit]);
      QuietKeepsInit(s, down, failed, mapped);
      assert t.log == down.log || t.log == down.log + [MqttInit(Params(s.claim.stored))];
      QuietKeepsInit(down, t, failed, mapped);
    }
  }

  lemma {:induction false} ConnectedKeepsInit(s: Agent, queued: bool, failed: bool, mapped: bool)
    requires InitInv(s, failed, mapped)
    ensures InitInv(OnConnected(s, queued), failed, mapped)
  {
    ConnectedKeepsStart(s, queued);
  }

  lemma {:induction false} UserMappingKeepsInit(s: Agent, reset: bool, queued: bool, failed: bool, mapped: bool)
    requires InitInv(s, failed, mapped)
    ensures InitInv(OnUserMapping(s, reset, queued), failed, mapped)
  {
    UserMappingKeepsStart(s, reset, queued);
  }

  lemma {:induction false} EventKeepsInit(s: Agent, a: Action, failed: bool, mapped: bool)
    requires InitInv(s, failed, mapped)
    requires a.MqttDisconnected? || a.ClaimFailedEvent? || a.CredentialsStored? || a.Submit?
    ensures InitInv(Step(s, a), failed, mapped)
  {
    StepKeepsStart(s, a);
    var t := Step(s, a);
    assert t.log == s.log && t.at == s.at;
  }

  lemma {:induction false} StepKeepsInit(s: Agent, a: Action, failed: bool, mapped: bool)
    requires InitInv(s, failed, mapped)
    ensures InitInv(Step(s, a), failed || CallbackFails(s, a), mapped || MappedAlready(s, a))
  {
    match a
    case Work(ok, mapping) => WorkKeepsInit(s, ok, mapping, failed, mapped);
    case ClaimSucceeded(reconfigure, fetchOk, initOk) =>
      ClaimKeepsInit(s, reconfigure, fetchOk, initOk, failed, mapped);
    case MqttConnected(queued) => ConnectedKeepsInit(s, queued, failed, mapped);
    case UserMapping(reset, queued) => UserMappingKeepsInit(s, reset, queued, failed, mapped);
    case _ => EventKeepsInit(s, a, failed, mapped);
  }

  lemma {:induction false} RunsKeepInit(kind: ClaimKind, resetReporting: bool, needClaim: bool, actions: seq<Action>)
    ensures var s := Initial(kind, resetReporting, needClaim);
            InitInv(RunAll(s, actions), Ever(CallbackFails, s, actions), Ever(MappedAlready, s, actions))
    decreases |actions|
  {
    var s := Initial(kind, resetReporting, needClaim);
    if actions == [] {
    } else {
      var before, last := actions[..|actions| - 1], actions[|actions| - 1];
      RunsKeepInit(kind, resetReporting, needClaim, before);
      StepKeepsInit(RunAll(s, before), last, Ever(CallbackFails, s, before), Ever(MappedAlready, s, before));
      EverNext(CallbackFails, s, actions);
      EverNext(MappedAlready, s, actions);
    }
  }

  /** What STARTED says of params_mqtt_init: in every run its last call before STARTED has succeeded
      exactly if it has not failed in the callback of the user mapping event. In particular it has if
      the mapping was already done when the configuration was reported. */
  lemma {:induction false} InitAtStartIff(kind: ClaimKind, resetReporting: bool, needClaim: bool,
                                              actions: seq<Action>, k: nat)
    requires var log := RunAll(Initial(kind, resetReporting, needClaim), actions).log;
             k < |log| && log[k] == PostStarted
    ensures var s := Initial(kind, resetReporting, needClaim);
            var log := RunAll(s, actions).log;
            && LastInit(log, k).Some?
            && (LastInit(log, k) == Some(true) <==> !Ever(CallbackFails, s, actions))
            && (Ever(MappedAlready, s, actions) ==> LastInit(log, k) == Some(true))
  {
    RunsKeepInit(kind, resetReporting, needClaim, actions);
  }

  // ---- Runs ----

  ghost predicate Reaches(s: Agent, actions: seq<Action>, t: Agent) {
    AllPossible(s, actions) && RunAll(s, actions) == t
  }

  lemma {:induction false} Extend(s: Agent, actions: seq<Action>, t: Agent, a: Action, u: Agent)
    returns (longer: seq<Action>)
    requires Reaches(s, actions, t) && Possible(t, a) && u == Step(t, a)
    ensures longer == actions + [a] && Reaches(s, longer, u)
  {
    longer := actions + [a];
    assert longer[..|longer| - 1] == actions;
  }

  const GO := Work(true, MappingDone)

  /** The start task is taken and registers its handler. */
  lemma {:induction false} Begin(s: Agent) returns (actions: seq<Action>, t: Agent)
    requires s.at.Idle? && s.queue == [RmakerTask]
    ensures Reaches(s, actions, t)
    ensures t == s.(queue := [], state := Starting, handlers := s.handlers.(connected := true), connected := false,
                    at := AskAssisted)
  {
    var registering := s.(queue := [], at := Register);
    actions := Extend(s, [], s, GO, registering);
    t := s.(queue := [], state := Starting, handlers := s.handlers.(connected := true), connected := false,
            at := AskAssisted);
    actions := Extend(s, actions, registering, GO, t);
  }

  lemma {:induction false} Claimed(s: Agent, before: seq<Action>, t: Agent)
    returns (actions: seq<Action>, u: Agent)
    requires Reaches(s, before, t) && t.at.AskAssisted? && t.claim.need
    ensures Reaches(s, actions, u)
    ensures u == t.(claim := t.claim.(stored := true), at := AskInit)
  {
    var stored := t.claim.(stored := true);
    u := t.(claim := stored, at := AskInit);
    if t.config.kind.AssistedClaim? {
      actions := Extend(s, before, t, GO, t.(at := WaitAssisted));
      actions := Extend(s, actions, t.(at := WaitAssisted), CredentialsStored, t.(claim := stored, at := WaitAssisted));
      actions := Extend(s, actions, t.(claim := stored, at := WaitAssisted), GO, t.(claim := stored, at := AskSelf));
      actions := Extend(s, actions, t.(claim := stored, at := AskSelf), GO, u);
    } else {
      actions := Extend(s, before, t, GO, t.(at := AskSelf));
      actions := Extend(s, actions, t.(at := AskSelf), GO, t.(at := DoSelf));
      actions := Extend(s, actions, t.(at := DoSelf), GO, u);
    }
  }

  lemma {:induction false} Initialised(s: Agent, before: seq<Action>, t: Agent)
    returns (actions: seq<Action>, u: Agent)
    requires Reaches(s, before, t) && t.at.AskInit? && (t.claim.need || t.claim.done) && t.claim.stored
    ensures Reaches(s, actions, u) && before <= actions
    ensures u.at.Connect? && u.queue == t.queue && u.handlers == t.handlers && u.config == t.config
    ensures u.claim == Claim(false, false, Some(Params(true)), true) && u.log == t.log + [MqttInit(Params(true))]
  {
    var fetched := t.(claim := t.claim.(params := Some(Params(true))), at := DoInit);
    var up := fetched.(log := t.log + [MqttInit(Params(true))], at := ClearFlags);
    actions := Extend(s, before, t, GO, fetched);
    actions := Extend(s, actions, fetched, GO, up);
    var cleared := up.(claim := up.claim.(need := false, done := false), at := EnableServices);
    actions := Extend(s, actions, up, GO, cleared);
    u := cleared.(at := Connect);
    actions := Extend(s, actions, cleared, GO, u);
  }

  lemma {:induction false} Connected(s: Agent, before: seq<Action>, t: Agent)
    returns (actions: seq<Action>, u: Agent)
    requires Reaches(s, before, t) && t.at.Connect? && t.queue == [] && t.handlers.connected
    ensures Reaches(s, actions, u) && before <= actions && u.claim == t.claim
    ensures u.at.ReportConfig? && u.queue == [] && u.log == t.log + [MqttConnect]
  {
    var waiting := t.(log := t.log + [MqttConnect], at := Idle);
    var handlers := t.handlers.(connected := false);
    var queued := waiting.(connected := true, handlers := handlers, queue := [PostMqttConnectTask]);
    actions := Extend(s, before, t, GO, waiting);
    actions := Extend(s, actions, waiting, MqttConnected(true), queued);
    u := queued.(queue := [], at := ReportConfig);
    actions := Extend(s, actions, queued, GO, u);
  }

  lemma {:induction false} Finished(s: Agent, before: seq<Action>, t: Agent)
    returns (actions: seq<Action>, u: Agent)
    requires Reaches(s, before, t) && t.at.ReportConfig?
    ensures Reaches(s, actions, u) && before <= actions && u.claim == t.claim
    ensures u.state == Started && u.log == t.log + [PostConfigReported, CallParamsInit(true), PostStarted]
  {
    var reported := t.(state := ConfigReported, log := t.log + [PostConfigReported], at := AskMapping);
    var called := reported.(log := reported.log + [CallParamsInit(true)], at := FinishStart);
    actions := Extend(s, before, t, GO, reported);
    actions := Extend(s, actions, reported, GO, called);
    u := called.(state := Started, log := called.log + [PostStarted], at := Idle);
    actions := Extend(s, actions, called, GO, u);
  }

  /** From the start to the point before the report of the configuration, undisturbed. */
  lemma {:induction false} UpToReport(kind: ClaimKind, resetReporting: bool, needClaim: bool)
    returns (actions: seq<Action>, t: Agent)
    ensures Reaches(Initial(kind, resetReporting, needClaim), actions, t) && t.at.ReportConfig? && t.queue == []
    ensures t.log == (if needClaim then [MqttInit(Params(true))] else []) + [MqttConnect]
    ensures t.claim == Claim(false, false, Some(Params(true)), true)
  {
    var s := Initial(kind, resetReporting, needClaim);
    actions, t := Begin(s);
    if needClaim {
      actions, t := Claimed(s, actions, t);
      actions, t := Initialised(s, actions, t);
    } else {
      var asked, enabling, connecting := t.(at := AskSelf), t.(at := EnableServices), t.(at := Connect);
      actions := Extend(s, actions, t, GO, asked);
      actions := Extend(s, actions, asked, GO, t.(at := AskInit));
      actions := Extend(s, actions, t.(at := AskInit), GO, enabling);
      actions := Extend(s, actions, enabling, GO, connecting);
      t := connecting;
    }
    actions, t := Connected(s, actions, t);
  }

  /** An undisturbed start reaches STARTED, in the order that every start keeps, and claiming is over. */
  lemma {:induction false} UndisturbedStart(kind: ClaimKind, resetReporting: bool, needClaim: bool)
    returns (actions: seq<Action>)
    ensures var s := Initial(kind, resetReporting, needClaim);
            var t := RunAll(s, actions);
            && AllPossible(s, actions) && t.state == Started && !t.claim.need && !t.claim.done
            && t.log == (if needClaim then [MqttInit(Params(true))] else [])
                        + [MqttConnect, PostConfigReported, CallParamsInit(true), PostStarted]
  {
    var t;
    actions, t := UpToReport(kind, resetReporting, needClaim);
    actions, t := Finished(Initial(kind, resetReporting, needClaim), actions, t);
  }

  /** The mapping is awaited, and comes. */
  lemma {:induction false} Mapped(s: Agent, before: seq<Action>, t: Agent)
    returns (actions: seq<Action>, u: Agent)
    requires Reaches(s, before, t) && t.at.AskMapping? && t.queue == []
    ensures Reaches(s, actions, u) && u.at.InitParams? && u.log == t.log
  {
    var waiting := t.(handlers := t.handlers.(mappingDone := true), at := Idle);
    var queued := waiting.(handlers := t.handlers.(mappingDone := false), queue := [ParamsInitTask]);
    actions := Extend(s, before, t, Work(true, MappingStarted), waiting);
    actions := Extend(s, actions, waiting, UserMapping(false, true), queued);
    u := queued.(queue := [], at := InitParams);
    actions := Extend(s, actions, queued, GO, u);
  }

  lemma {:induction false} FinishedByEvent(s: Agent, before: seq<Action>, t: Agent)
    returns (actions: seq<Action>, u: Agent)
    requires Reaches(s, before, t) && t.at.ReportConfig? && t.queue == []
    ensures Reaches(s, actions, u)
    ensures u.state == Started && u.log == t.log + [PostConfigReported, CallParamsInit(false), PostStarted]
  {
    var reported := t.(state := ConfigReported, log := t.log + [PostConfigReported], at := AskMapping);
    actions := Extend(s, before, t, GO, reported);
    var calling;
    actions, calling := Mapped(s, actions, reported);
    var called := calling.(log := reported.log + [CallParamsInit(false)], at := FinishCallback);
    actions := Extend(s, actions, calling, Work(false, MappingDone), called);
    u := called.(state := Started, log := called.log + [PostStarted], at := Idle);
    actions := Extend(s, actions, called, GO, u);
  }

  /** A start through the user mapping event posts STARTED although params_mqtt_init has failed. */
  lemma {:induction false} StartedAfterFailedInit(kind: ClaimKind, resetReporting: bool, needClaim: bool)
    returns (actions: seq<Action>)
    ensures var s := Initial(kind, resetReporting, needClaim);
            var t := RunAll(s, actions);
            && AllPossible(s, actions) && t.state == Started
            && t.log == (if needClaim then [MqttInit(Params(true))] else [])
                        + [MqttConnect, PostConfigReported, CallParamsInit(false), PostStarted]
  {
    var t;
    actions, t := UpToReport(kind, resetReporting, needClaim);
    actions, t := FinishedByEvent(Initial(kind, resetReporting, needClaim), actions, t);
  }

  /** From there the success handler fails to bring MQTT up again, and the start task connects. */
  lemma {:induction false} BrokenOff(s: Agent, before: seq<Action>, t: Agent)
    returns (actions: seq<Action>, u: Agent)
    requires Reaches(s, before, t) && t.at.Connect? && t.config.kind.AssistedClaim? && t.handlers.claim
    requires t.claim.params.Some? && t.claim.stored
    ensures Reaches(s, actions, u) && u.log == t.log + [MqttDeinit, MqttConnect]
  {
    var down := OnClaimSuccess(t, true, false, false);
    actions := Extend(s, before, t, ClaimSucceeded(true, false, false), down);
    u := down.(log := down.log + [MqttConnect], at := Idle);
    actions := Extend(s, actions, down, GO, u);
  }

  /** A node that claims with assistance connects although the success handler has taken MQTT down. */
  lemma {:induction false} ConnectsWhileDown(resetReporting: bool)
    returns (actions: seq<Action>)
    ensures var s := Initial(AssistedClaim, resetReporting, true);
            var log := RunAll(s, actions).log;
            && AllPossible(s, actions) && log == [MqttInit(Params(true)), MqttDeinit, MqttConnect]
            && !UpAt(log, 2)
  {
    var s := Initial(AssistedClaim, resetReporting, true);
    var t;
    actions, t := Begin(s);
    actions, t := Claimed(s, actions, t);
    actions, t := Initialised(s, actions, t);
    actions, t := BrokenOff(s, actions, t);
  }
}
