/** What the agent's state tells at every moment of a start, where a failing step leaves it, and which
    events it listens to. */
module LifecycleStates {
  import opened Basics
  import opened Lifecycle
  import opened LifecycleProofs
  import opened LifecycleOutcomes

  // ---- The state over every run ----

  ghost predicate StateInv(s: Agent) {
    && StartInv(s) && InQueue(s, RmakerTask) + One(InStart(s.at)) <= 1
    && (InQueue(s, RmakerTask) > 0 || InStart(s.at) ==> LateTokens(s) == 0)
    && (InQueue(s, RmakerTask) > 0 || s.at.Register? ==> s.state.InitDone?)
    && (InStart(s.at) && !s.at.Register? ==> s.state.Starting?)
    && (LateTokens(s) > 0 ==> s.state == if Seen(s).started > 0 then Started else ConfigReported)
    && (LateTokens(s) == 0 ==> !s.state.Started?)
    && (s.state.ConfigReported? ==> !Seen(s).progress.Nothing?)
  }

  lemma {:induction false} TakeKeepsState(s: Agent)
    requires StateInv(s) && s.at.Idle?
    ensures StateInv(Take(s))
  {
    TakeKeepsStart(s);
    if s.queue != [] {
      HeadCounts(s.queue);
    }
  }

  /** What has been posted does not change with quiet acts. */
  lemma {:induction false} QuietLog(s: Agent, t: Agent)
    requires t.log == s.log || exists a :: QuietAct(a) && t.log == s.log + [a]
    ensures Seen(t).started == Seen(s).started && Seen(t).progress == Seen(s).progress
  {
    if t.log != s.log {
      var a :| QuietAct(a) && t.log == s.log + [a];
      LogGrows(s.log, a);
    }
  }

  /** A move that neither takes nor queues a task, nor posts, between quiet points. */
  lemma {:induction false} QuietKeepsState(s: Agent, t: Agent)
    requires StateInv(s) && StartInv(t) && t.queue == s.queue && EarlyHandlers(t) == EarlyHandlers(s)
    requires Seen(t).started == Seen(s).started && Seen(t).progress == Seen(s).progress
    requires || (t.at == s.at && t.state == s.state)
             || (QuietPoint(t.at) && InStart(s.at) && !s.at.Register?
                 && (t.state.Starting? || (t.state.InitDone? && t.at.Idle?)))
    ensures StateInv(t)
  {
    assert LateTokens(t) == LateTokens(s);
  }

  function EarlyHandlers(s: Agent): (bool, bool, bool) {
    (s.handlers.connected, s.handlers.mappingDone, s.handlers.mappingReset)
  }

  lemma {:induction false} StartTaskKeepsState(s: Agent, ok: bool, mapping: Mapping)
    requires StateInv(s) && InStart(s.at)
    ensures StateInv(WorkStep(s, ok, mapping))
  {
    StartTaskKeepsStart(s, ok, mapping);
    if s.at.Register? {
      RegisterKeepsState(s, ok, mapping);
    } else {
      StartPointIsQuiet(s, ok, mapping);
      QuietLog(s, WorkStep(s, ok, mapping));
      StartPointState(s, ok, mapping);
      QuietKeepsState(s, WorkStep(s, ok, mapping));
    }
  }

  lemma {:induction false} StartPointState(s: Agent, ok: bool, mapping: Mapping)
    requires InStart(s.at) && !s.at.Register? && s.state.Starting?
    ensures var t := WorkStep(s, ok, mapping); t.state.Starting? || (t.state.InitDone? && t.at.Idle?)
  {
  }

  lemma {:induction false} RegisterKeepsState(s: Agent, ok: bool, mapping: Mapping)
    requires StateInv(s) && s.at.Register? && StartInv(WorkStep(s, ok, mapping))
    ensures StateInv(WorkStep(s, ok, mapping))
  {
  }

  lemma {:induction false} PostTaskKeepsState(s: Agent, ok: bool, mapping: Mapping)
    requires StateInv(s) && (s.at.ReportConfig? || s.at.FinishStart? || s.at.InitParams? || s.at.FinishCallback?)
    ensures StateInv(WorkStep(s, ok, mapping))
  {
    WorkKeepsStart(s, ok, mapping);
    LogGrows(s.log, if s.at.FinishStart? || s.at.FinishCallback? then PostStarted
                    else if s.at.InitParams? then CallParamsInit(ok)
                    else if ok then PostConfigReported else MqttDisconnect);
  }

  lemma {:induction false} MappingKeepsState(s: Agent, ok: bool, mapping: Mapping)
    requires StateInv(s) && s.at.AskMapping?
    ensures StateInv(WorkStep(s, ok, mapping))
  {
    var log := if mapping == MappingDone then s.log + [CallParamsInit(ok)] else s.log;
    MappingKeepsStart(s, ok, mapping);
    LogGrows(s.log, CallParamsInit(ok));
    LogGrows(log, MqttDisconnect);
  }

  lemma {:induction false} WorkKeepsState(s: Agent, ok: bool, mapping: Mapping)
    requires StateInv(s)
    ensures StateInv(WorkStep(s, ok, mapping))
  {
    if InStart(s.at) {
      StartTaskKeepsState(s, ok, mapping);
    } else if s.at.Idle? {
      TakeKeepsState(s);
      assert WorkStep(s, ok, mapping) == Take(s);
    } else if s.at.AskMapping? {
      MappingKeepsState(s, ok, mapping);
    } else {
      PostTaskKeepsState(s, ok, mapping);
    }
  }

  /** Acts of the claim handler do not concern the state. */
  lemma {:induction false} ClaimKeepsState(s: Agent, reconfigure: bool, fetchOk: bool, initOk: bool)
    requires StateInv(s)
    ensures StateInv(OnClaimSuccess(s, reconfigure, fetchOk, initOk))
  {
    var t := OnClaimSuccess(s, reconfigure, fetchOk, initOk);
    ClaimKeepsStart(s, reconfigure, fetchOk, initOk);
    ClaimLog(s, reconfigure, fetchOk, initOk);
    QuietKeepsState(s, t);
  }

  lemma {:induction false} ClaimLog(s: Agent, reconfigure: bool, fetchOk: bool, initOk: bool)
    ensures var t := OnClaimSuccess(s, reconfigure, fetchOk, initOk);
            && Seen(t).started == Seen(s).started && Seen(t).progress == Seen(s).progress
            && t.queue == s.queue && t.at == s.at && t.state == s.state && EarlyHandlers(t) == EarlyHandlers(s)
  {
    LogGrows(s.log, MqttDeinit);
    LogGrows(s.log + [MqttDeinit], MqttInit(Params(s.claim.stored)));
  }

  lemma {:induction false} MqttEventKeepsState(s: Agent, queued: bool)
    requires StateInv(s)
    ensures StateInv(OnConnected(s, queued))
  {
    ConnectedKeepsStart(s, queued);
  }

  lemma {:induction false} MappingEventKeepsState(s: Agent, reset: bool, queued: bool)
    requires StateInv(s)
    ensures StateInv(OnUserMapping(s, reset, queued))
  {
    UserMappingKeepsStart(s, reset, queued);
  }

  lemma {:induction false} SubmitKeepsState(s: Agent)
    requires StateInv(s)
    ensures StateInv(Step(s, Submit))
  {
    StepKeepsStart(s, Submit);
  }

  lemma {:induction false} StepKeepsState(s: Agent, a: Action)
    requires StateInv(s)
    ensures StateInv(Step(s, a))
  {
    match a
    case Work(ok, mapping) => WorkKeepsState(s, ok, mapping);
    case MqttConnected(queued) => MqttEventKeepsState(s, queued);
    case UserMapping(reset, queued) => MappingEventKeepsState(s, reset, queued);
    case ClaimSucceeded(reconfigure, fetchOk, initOk) => ClaimKeepsState(s, reconfigure, fetchOk, initOk);
    case Submit => SubmitKeepsState(s);
    case _ =>
      StepKeepsStart(s, a);
      QuietKeepsState(s, Step(s, a));
  }

  lemma {:induction false} RunsKeepState(kind: ClaimKind, resetReporting: bool, needClaim: bool, actions: seq<Action>)
    ensures StateInv(RunAll(Initial(kind, resetReporting, needClaim), actions))
    decreases |actions|
  {
    var s := Initial(kind, resetReporting, needClaim);
    if actions == [] {
    } else {
      var before := actions[..|actions| - 1];
      RunsKeepState(kind, resetReporting, needClaim, before);
      StepKeepsState(RunAll(s, before), actions[|actions| - 1]);
    }
  }

  lemma {:induction false} StartedCounted(log: seq<Act>, n: nat)
    requires n <= |log|
    ensures Monitored(log, n).started > 0 <==> exists k :: 0 <= k < n && log[k] == PostStarted
  {
    if n == 0 {
    } else {
      StartedCounted(log, n - 1);
      if log[n - 1] != PostStarted && exists k :: 0 <= k < n && log[k] == PostStarted {
        var k :| 0 <= k < n && log[k] == PostStarted;
        assert k < n - 1;
      }
    }
  }

  /** The configuration is reported, and what will finish the start is under way. */
  predicate Finishing(s: Agent) {
    || s.at.AskMapping? || s.at.FinishStart? || s.handlers.mappingDone || s.handlers.mappingReset
    || ParamsInitTask in s.queue || s.at.InitParams? || s.at.FinishCallback?
  }

  /** The state that other components read tells where the start is, over every interleaving: it is
      STARTED exactly when STARTED has been posted, CONFIG_REPORTED while the rest of the start is under
      way after the report, STARTING while the start task is past its registration, and INIT_DONE before. */
  lemma {:induction false} StateTells(kind: ClaimKind, resetReporting: bool, needClaim: bool, actions: seq<Action>)
    ensures var s := RunAll(Initial(kind, resetReporting, needClaim), actions);
            && (s.state.Started? <==> PostStarted in s.log)
            && (Finishing(s) ==> s.state.ConfigReported?)
            && (s.state.ConfigReported? ==> PostConfigReported in s.log)
            && (InStart(s.at) && !s.at.Register? ==> s.state.Starting?)
            && (RmakerTask in s.queue || s.at.Register? ==> s.state.InitDone?)
  {
    RunsKeepState(kind, resetReporting, needClaim, actions);
    var s := RunAll(Initial(kind, resetReporting, needClaim), actions);
    StartedCounted(s.log, |s.log|);
    MonitorMeans(s.log, |s.log|);
    assert ParamsInitTask in s.queue ==> InQueue(s, ParamsInitTask) > 0;
    assert RmakerTask in s.queue ==> InQueue(s, RmakerTask) > 0;
  }

  // ---- Failures ----

  /** The steps of the tasks that end the start with an error. */
  predicate Fails(s: Agent, a: Action) {
    && a.Work?
    && (|| (!a.ok && (s.at.Register? || s.at.WaitAssisted? || s.at.DoSelf? || s.at.EnableServices? || s.at.Connect?))
        || (!a.ok && s.at.AskAssisted? && s.config.kind.AssistedClaim? && s.claim.need)
        || (!a.ok && s.at.AskInit? && (s.claim.need || s.claim.done))
        || (s.at.DoInit? && (!a.ok || s.claim.params.None?))
        || FailsConnected(s, a))
  }

  /** Those of the task that follows the connection. */
  predicate FailsConnected(s: Agent, a: Action) {
    a.Work? && !a.ok && (s.at.ReportConfig? || s.at.AskMapping?)
  }

  /** The last link event is a connection: none of the disconnections, nor the start of the task, which
      clears the flag, came after it. */
  ghost predicate LinkUp(s: Agent, actions: seq<Action>) {
    exists j :: 0 <= j < |actions| && actions[j].MqttConnected? && StaysUp(s, actions, j)
  }

  ghost predicate StaysUp(s: Agent, actions: seq<Action>, j: int) {
    forall k :: 0 <= j < k < |actions| ==> !TakesLinkDown(RunAll(s, actions[..k]), actions[k])
  }

  predicate TakesLinkDown(s: Agent, a: Action) { a.MqttDisconnected? || (a.Work? && s.at.Register?) }

  /** Runs of a prefix are runs of the whole. */
  lemma {:induction false} PrefixSteps(s: Agent, before: seq<Action>, a: Action, k: nat)
    requires k < |before|
    ensures (before + [a])[..k] == before[..k] && (before + [a])[k] == before[k]
  {
  }

  lemma {:induction false} LinkStays(s: Agent, before: seq<Action>, a: Action)
    requires LinkUp(s, before) && !TakesLinkDown(RunAll(s, before), a)
    ensures LinkUp(s, before + [a])
  {
    var actions := before + [a];
    var j :| 0 <= j < |before| && before[j].MqttConnected? && StaysUp(s, before, j);
    forall k | j < k < |actions| ensures !TakesLinkDown(RunAll(s, actions[..k]), actions[k]) {
      if k < |before| {
        PrefixSteps(s, before, a, k);
      } else {
        assert actions[..k] == before;
      }
    }
    assert actions[j] == before[j] && StaysUp(s, actions, j);
  }

  lemma {:induction false} LinkWas(s: Agent, before: seq<Action>, a: Action)
    requires LinkUp(s, before + [a]) && !a.MqttConnected?
    ensures LinkUp(s, before) && !TakesLinkDown(RunAll(s, before), a)
  {
    var actions := before + [a];
    var j :| 0 <= j < |actions| && actions[j].MqttConnected? && StaysUp(s, actions, j);
    assert actions[..|before|] == before && actions[|before|] == a;
    forall k | j < k < |before| ensures !TakesLinkDown(RunAll(s, before[..k]), before[k]) {
      PrefixSteps(s, before, a, k);
    }
    assert before[j] == actions[j] && StaysUp(s, before, j);
  }

  lemma {:induction false} LinkUpNext(s: Agent, before: seq<Action>, a: Action)
    ensures LinkUp(s, before + [a]) <==>
            a.MqttConnected? || (LinkUp(s, before) && !TakesLinkDown(RunAll(s, before), a))
  {
    var actions := before + [a];
    if a.MqttConnected? {
      assert actions[|before|] == a && StaysUp(s, actions, |before|);
    } else {
      if LinkUp(s, actions) {
        LinkWas(s, before, a);
      }
      if LinkUp(s, before) && !TakesLinkDown(RunAll(s, before), a) {
        LinkStays(s, before, a);
      }
    }
  }

  /** mqtt_connected follows the link. */
  lemma {:induction false} ConnectedIff(s: Agent, actions: seq<Action>)
    requires !s.connected
    ensures RunAll(s, actions).connected <==> LinkUp(s, actions)
    decreases |actions|
  {
    if actions == [] {
    } else {
      var before, last := actions[..|actions| - 1], actions[|actions| - 1];
      ConnectedIff(s, before);
      assert actions == before + [last];
      LinkUpNext(s, before, last);
      ConnectedNext(RunAll(s, before), last);
    }
  }

  lemma {:induction false} ConnectedNext(s: Agent, a: Action)
    ensures Step(s, a).connected <==> a.MqttConnected? || (s.connected && !TakesLinkDown(s, a))
  {
  }

  /** What a step adds to the log. */
  function Added(s: Agent, a: Action): seq<Act>
    requires |s.log| <= |Step(s, a).log|
  {
    Step(s, a).log[|s.log|..]
  }

  lemma {:induction false} WorkAdds(s: Agent, ok: bool, mapping: Mapping)
    ensures s.log <= Step(s, Work(ok, mapping)).log
    ensures MqttDisconnect in Added(s, Work(ok, mapping)) <==> FailsConnected(s, Work(ok, mapping)) && s.connected
  {
    var a := Work(ok, mapping);
    if FailsConnected(s, a) && s.connected {
      var log := Step(s, a).log;
      assert log[|log| - 1] == MqttDisconnect && |log| > |s.log|;
    }
  }

  /** Where a failing step leaves the agent: idle, the state back at INIT_DONE, what is queued and
      registered untouched, with what it called and perhaps the disconnection in the log, and without
      parameters if they could not be fetched. No other step leads back to INIT_DONE. */
  lemma {:induction false} FailureExits(s: Agent, a: Action)
    ensures Fails(s, a) ==>
              var t := Step(s, a);
              && t.state.InitDone? && t.at.Idle? && t.queue == s.queue && t.handlers == s.handlers
              && t.claim == (if s.at.AskInit? then s.claim.(params := None) else s.claim)
              && t.log == s.log + (if s.at.Connect? then [MqttConnect]
                                   else if s.at.AskMapping? && a.mapping.MappingDone? then [CallParamsInit(false)]
                                   else [])
                          + (if FailsConnected(s, a) && s.connected then [MqttDisconnect] else [])
    ensures !Fails(s, a) && !s.state.InitDone? ==> !Step(s, a).state.InitDone?
  {
  }

  /** In every run, a step disconnects MQTT exactly if the report of the configuration, or what comes
      after it, fails while the link is up. */
  lemma {:induction false} DisconnectsIff(kind: ClaimKind, resetReporting: bool, needClaim: bool,
                                              actions: seq<Action>, a: Action)
    ensures var s := Initial(kind, resetReporting, needClaim);
            var t := RunAll(s, actions);
            && t.log <= Step(t, a).log
            && (MqttDisconnect in Added(t, a) <==> FailsConnected(t, a) && LinkUp(s, actions))
  {
    var s := Initial(kind, resetReporting, needClaim);
    ConnectedIff(s, actions);
    if a.Work? {
      WorkAdds(RunAll(s, actions), a.ok, a.mapping);
    }
  }

  // ---- The work queue ----

  /** The queue is first in, first out: a step takes the head when the thread is idle, or appends at most
      one task; a task of another component leaves the start alone. */
  lemma {:induction false} QueueOrder(s: Agent, a: Action)
    ensures var t := Step(s, a);
            && (a.Work? && s.at.Idle? && s.queue != [] ==> t.queue == s.queue[1..])
            && (a.Work? && s.at.Idle? && s.queue != [] && s.queue[0].OtherTask? ==> t == s.(queue := s.queue[1..]))
            && (!(a.Work? && s.at.Idle?) ==> s.queue <= t.queue && |t.queue| <= |s.queue| + 1)
            && (a.Submit? ==> t == s.(queue := s.queue + [OtherTask]))
  {
  }

  // ---- Waiting for the user mapping ----

  /** The event that is awaited when the mapping is not done: its reset, if the node has just asked for
      one because no mapping had been started, and otherwise its completion. */
  predicate AwaitsReset(s: Agent, mapping: Mapping) { mapping == MappingNone && s.config.resetReporting }

  ghost predicate Awaiting(s: Agent, reset: bool) {
    && StartInv(s) && s.handlers.mappingReset == reset && s.handlers.mappingDone == !reset
  }

  lemma {:induction false} WaitContinues(s: Agent, reset: bool, a: Action)
    requires Awaiting(s, reset) && !(a.UserMapping? && a.reset == reset)
    ensures Awaiting(Step(s, a), reset)
  {
    StepKeepsStart(s, a);
    assert !s.at.AskMapping?;
  }

  lemma {:induction false} WaitStays(s: Agent, reset: bool, more: seq<Action>)
    requires Awaiting(s, reset)
    requires forall i :: 0 <= i < |more| ==> !(more[i].UserMapping? && more[i].reset == reset)
    ensures Awaiting(RunAll(s, more), reset)
    decreases |more|
  {
    if more == [] {
    } else {
      var before := more[..|more| - 1];
      assert forall i :: 0 <= i < |before| ==> before[i] == more[i];
      WaitStays(s, reset, before);
      WaitContinues(RunAll(s, before), reset, more[|more| - 1]);
    }
  }

  /** Once a start waits for the user mapping, it goes on with the awaited event and with no other,
      whatever else happens in between: that event queues the rest of the start, the other one changes
      nothing. */
  lemma {:induction false} GoesOnIff(kind: ClaimKind, resetReporting: bool, needClaim: bool, actions: seq<Action>,
                                         mapping: Mapping, more: seq<Action>, reset: bool)
    requires RunAll(Initial(kind, resetReporting, needClaim), actions).at.AskMapping? && mapping != MappingDone
    requires var awaited := mapping == MappingNone && resetReporting;
             forall i :: 0 <= i < |more| ==> !(more[i].UserMapping? && more[i].reset == awaited)
    ensures var s := RunAll(Initial(kind, resetReporting, needClaim), actions);
            var t := RunAll(Step(s, Work(true, mapping)), more);
            var u := Step(t, UserMapping(reset, true));
            && (u.queue == t.queue + [ParamsInitTask] <==> reset == (mapping == MappingNone && resetReporting))
            && (reset != (mapping == MappingNone && resetReporting) ==> u == t)
  {
    var initial := Initial(kind, resetReporting, needClaim);
    var s := RunAll(initial, actions);
    var awaited := mapping == MappingNone && resetReporting;
    RunsKeepStart(kind, resetReporting, needClaim, actions);
    ConfigStays(initial, actions);
    MappingKeepsStart(s, true, mapping);
    assert Awaiting(Step(s, Work(true, mapping)), awaited);
    WaitStays(Step(s, Work(true, mapping)), awaited, more);
  }

  /** The wait, and the event that ends it. */
  lemma {:induction false} WaitEnds(s: Agent, before: seq<Action>, t: Agent, mapping: Mapping)
    returns (actions: seq<Action>, u: Agent)
    requires Reaches(s, before, t) && t.at.AskMapping? && t.queue == [] && mapping != MappingDone
    ensures actions == before + [Work(true, mapping), UserMapping(AwaitsReset(t, mapping), true)]
    ensures Reaches(s, actions, u) && u.at.Idle? && u.queue == [ParamsInitTask] && u.log == t.log
  {
    var event := UserMapping(AwaitsReset(t, mapping), true);
    var waiting := Step(t, Work(true, mapping));
    u := Step(waiting, event);
    actions := Extend(s, before, t, Work(true, mapping), waiting);
    actions := Extend(s, actions, waiting, event, u);
  }

  /** The rest of the start. */
  lemma {:induction false} CallbackRuns(s: Agent, before: seq<Action>, t: Agent)
    returns (actions: seq<Action>, u: Agent)
    requires Reaches(s, before, t) && t.at.Idle? && t.queue == [ParamsInitTask]
    ensures actions == before + [GO, GO, GO] && Reaches(s, actions, u)
    ensures u.state == Started && u.log == t.log + [CallParamsInit(true), PostStarted]
  {
    var calling := t.(queue := [], at := InitParams);
    actions := Extend(s, before, t, GO, calling);
    var called := calling.(log := t.log + [CallParamsInit(true)], at := FinishCallback);
    actions := Extend(s, actions, calling, GO, called);
    u := called.(state := Started, log := called.log + [PostStarted], at := Idle);
    actions := Extend(s, actions, called, GO, u);
  }

  /** From the configuration report through the wait to STARTED. */
  lemma {:induction false} Waited(s: Agent, before: seq<Action>, t: Agent, mapping: Mapping)
    returns (actions: seq<Action>, u: Agent)
    requires Reaches(s, before, t) && t.at.ReportConfig? && t.queue == [] && mapping != MappingDone
    ensures actions == before + [GO, Work(true, mapping), UserMapping(AwaitsReset(t, mapping), true), GO, GO, GO]
    ensures Reaches(s, actions, u)
    ensures u.state == Started && u.log == t.log + [PostConfigReported, CallParamsInit(true), PostStarted]
  {
    var reported := t.(state := ConfigReported, log := t.log + [PostConfigReported], at := AskMapping);
    actions := Extend(s, before, t, GO, reported);
    var next;
    actions, next := WaitEnds(s, actions, reported, mapping);
    actions, u := CallbackRuns(s, actions, next);
  }

  /** A start that has to wait reaches STARTED through the awaited event: with reset reporting and no
      mapping started that is the reset of the mapping, in every other case its completion. */
  lemma {:induction false} StartedThroughWait(kind: ClaimKind, resetReporting: bool, needClaim: bool, mapping: Mapping)
    returns (before: seq<Action>)
    requires mapping != MappingDone
    ensures var s := Initial(kind, resetReporting, needClaim);
            var event := UserMapping(mapping == MappingNone && resetReporting, true);
            var actions := before + [GO, Work(true, mapping), event, GO, GO, GO];
            && AllPossible(s, actions) && RunAll(s, actions).state == Started
            && RunAll(s, actions).log ==
               (if needClaim then [MqttInit(Params(true))] else [])
               + [MqttConnect, PostConfigReported, CallParamsInit(true), PostStarted]
  {
    var s := Initial(kind, resetReporting, needClaim);
    var t;
    before, t := UpToReport(kind, resetReporting, needClaim);
    ConfigStays(s, before);
    var actions, u := Waited(s, before, t, mapping);
  }

  // ---- Claim events ----

  predicate ClaimEvent(s: Agent, a: Action) { a.ClaimSucceeded? || a.ClaimFailedEvent? }

  lemma {:induction false} ListensNext(s: Agent, a: Action)
    ensures Step(s, a).handlers.claim <==> s.handlers.claim && !ClaimEvent(s, a)
  {
    match a
    case Work(ok, mapping) => WorkKeepsListening(s, ok, mapping);
    case ClaimSucceeded(reconfigure, fetchOk, initOk) =>
      assert !OnClaimSuccess(s, reconfigure, fetchOk, initOk).handlers.claim;
    case _ =>
  }

  lemma {:induction false} WorkKeepsListening(s: Agent, ok: bool, mapping: Mapping)
    ensures WorkStep(s, ok, mapping).handlers.claim == s.handlers.claim
  {
  }

  /** The claim handler listens until the first claim event, of either kind; from then on a success event
      changes nothing. */
  lemma {:induction false} FirstClaimEventCounts(kind: ClaimKind, resetReporting: bool, needClaim: bool,
                                                     actions: seq<Action>)
    ensures var s := Initial(kind, resetReporting, needClaim);
            var t := RunAll(s, actions);
            && (t.handlers.claim <==> needClaim && !Ever(ClaimEvent, s, actions))
            && (!needClaim || Ever(ClaimEvent, s, actions) ==>
                  forall reconfigure, fetchOk, initOk ::
                    Step(t, ClaimSucceeded(reconfigure, fetchOk, initOk)) == t)
    decreases |actions|
  {
    var s := Initial(kind, resetReporting, needClaim);
    if actions == [] {
    } else {
      var before := actions[..|actions| - 1];
      FirstClaimEventCounts(kind, resetReporting, needClaim, before);
      ListensNext(RunAll(s, before), actions[|actions| - 1]);
      EverNext(ClaimEvent, s, actions);
    }
  }

  /** What the first success event does: claiming is over; with assisted claiming and the last will set
      anew, parameters that are there are dropped and fetched again, with MQTT taken down and up. */
  lemma {:induction false} ClaimHandled(s: Agent, reconfigure: bool, fetchOk: bool, initOk: bool)
    requires s.handlers.claim
    ensures var t := Step(s, ClaimSucceeded(reconfigure, fetchOk, initOk));
            var again := s.config.kind.AssistedClaim? && reconfigure && s.claim.params.Some?;
            && !t.claim.need && t.claim.done && t.claim.stored == s.claim.stored
            && t.claim.params == (if !again then s.claim.params
                                  else if fetchOk then Some(Params(s.claim.stored)) else None)
            && t.log == s.log + (if !again then []
                                 else if fetchOk && initOk then [MqttDeinit, MqttInit(Params(s.claim.stored))]
                                 else [MqttDeinit])
            && t.at == s.at && t.queue == s.queue && t.state == s.state
  {
  }

  /** Claiming is over before the start task asks for it. */
  lemma {:induction false} ClaimedEarly(resetReporting: bool) returns (actions: seq<Action>, t: Agent)
    ensures Reaches(Initial(AssistedClaim, resetReporting, true), actions, t)
    ensures actions == [GO, GO, CredentialsStored, ClaimSucceeded(false, true, true)]
    ensures t.at.AskAssisted? && t.claim == Claim(false, true, None, true) && t.config.kind.AssistedClaim?
    ensures t.handlers.connected && t.queue == [] && t.log == []
  {
    var s := Initial(AssistedClaim, resetReporting, true);
    var registering := s.(queue := [], at := Register);
    var asking := registering.(state := Starting, handlers := s.handlers.(connected := true), at := AskAssisted);
    actions := Extend(s, [], s, GO, registering);
    actions := Extend(s, actions, registering, GO, asking);
    var stored := asking.(claim := Claim(true, false, None, true));
    actions := Extend(s, actions, asking, CredentialsStored, stored);
    t := stored.(claim := Claim(false, true, None, true), handlers := asking.handlers.(claim := false));
    actions := Extend(s, actions, stored, ClaimSucceeded(false, true, true), t);
  }

  /** A success event that comes before the start task asks: the task need not wait for claiming, even if
      it is on a network already, and initialises MQTT with the claimed parameters all the same. */
  lemma {:induction false} ClaimedBeforeAsking(resetReporting: bool) returns (after: seq<Action>)
    ensures var s := Initial(AssistedClaim, resetReporting, true);
            var early := [GO, GO, CredentialsStored, ClaimSucceeded(false, true, true), Work(false, MappingDone)];
            var t := RunAll(s, early + after);
            && AllPossible(s, early + after) && t.state == Started
            && t.log == [MqttInit(Params(true)), MqttConnect, PostConfigReported, CallParamsInit(true), PostStarted]
  {
    var s := Initial(AssistedClaim, resetReporting, true);
    var actions, t := ClaimedEarly(resetReporting);
    var early := Extend(s, actions, t, Work(false, MappingDone), t.(at := AskSelf));
    actions := Extend(s, early, t.(at := AskSelf), GO, t.(at := AskInit));
    var u;
    actions, u := Initialised(s, actions, t.(at := AskInit));
    actions, u := Connected(s, actions, u);
    actions, u := Finished(s, actions, u);
    after := actions[|early|..];
    assert actions == early + after;
    assert early == [GO, GO, CredentialsStored, ClaimSucceeded(false, true, true), Work(false, MappingDone)];
  }
}
