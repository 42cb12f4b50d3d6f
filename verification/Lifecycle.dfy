/** The agent from start to STARTED, on values: the work queue thread runs its tasks step by step while
    the event loop dispatches events to the registered handlers in between (esp_rmaker_core.c). Each
    handler is one step; each task is cut at the points where it waits, calls out, posts, or where its
    flags and the handlers' meet. */
module Lifecycle {
  import opened Basics

  datatype CoreState = InitDone | Starting | ConfigReported | Started
  datatype ClaimKind = SelfClaim | AssistedClaim
  datatype Task = RmakerTask | PostMqttConnectTask | ParamsInitTask | OtherTask
  /** Which of the handlers are registered: for MQTT connected, user mapping done and reset, claim events. */
  datatype Handlers = Handlers(connected: bool, mappingDone: bool, mappingReset: bool, claim: bool)
  datatype Mapping = MappingDone | MappingStarted | MappingNone

  /** MQTT parameters; claimed: the claimed credentials were already stored when they were fetched. */
  datatype Params = Params(claimed: bool)

  datatype Act =
    | PostConfigReported
    | CallParamsInit(ok: bool)
    | PostStarted
    | MqttInit(params: Params)
    | MqttDeinit
    | MqttConnect
    | MqttDisconnect

  /** Where the work queue thread is: idle, or before the named part of a task. */
  datatype Point =
    | Idle
    | Register       // esp_rmaker_task from its start to the registration of the CONNECTED handler
    | AskAssisted    // the need_claim test for assisted claiming
    | WaitAssisted   // esp_rmaker_assisted_claim_perform
    | AskSelf        // after the network wait: the need_claim test for self claiming
    | DoSelf         // esp_rmaker_self_claim_perform
    | AskInit        // the need_claim || claim_done test and fetching the MQTT parameters
    | DoInit         // esp_rmaker_mqtt_init
    | ClearFlags
    | EnableServices // esp_rmaker_cmd_response_enable, esp_rmaker_local_ctrl_enable
    | Connect        // esp_rmaker_mqtt_connect
    | ReportConfig   // esp_rmaker_post_mqtt_connect_task
    | AskMapping
    | FinishStart
    | InitParams     // esp_rmaker_params_mqtt_init_cb
    | FinishCallback

  // resetReporting: CONFIG_ESP_RMAKER_FACTORY_RESET_REPORTING.
  datatype Config = Config(kind: ClaimKind, resetReporting: bool)

  /** need_claim, claim_done, mqtt_conn_params, and whether the claimed credentials are in storage. */
  datatype Claim = Claim(need: bool, done: bool, params: Option<Params>, stored: bool)

  /** connected: mqtt_connected, which the start task clears as it registers the handlers that keep it. */
  datatype Agent = Agent(
    config: Config,
    claim: Claim,
    state: CoreState,
    handlers: Handlers,
    queue: seq<Task>,
    at: Point,
    connected: bool,
    log: seq<Act>)

  /** ok: the call the step makes succeeds. */
  datatype Action =
    | Work(ok: bool, mapping: Mapping)
    | MqttConnected(queued: bool)
    | MqttDisconnected
    | UserMapping(reset: bool, queued: bool)
    | ClaimSucceeded(reconfigure: bool, fetchOk: bool, initOk: bool)
    | ClaimFailedEvent
    | CredentialsStored
    | Submit

  /** After esp_rmaker_node_init and esp_rmaker_start: the start task is the first in the queue. */
  function Initial(kind: ClaimKind, resetReporting: bool, needClaim: bool): Agent {
    Agent(Config(kind, resetReporting),
          Claim(needClaim, false, if needClaim then None else Some(Params(true)), !needClaim),
          InitDone, Handlers(false, false, false, needClaim), [RmakerTask], Idle, false, [])
  }

  // ---- The tasks ----

  /** rmaker_end with an error. */
  function GiveUp(s: Agent): Agent { s.(state := InitDone, at := Idle) }

  /** post_mqtt_end. */
  function GiveUpConnected(s: Agent): Agent {
    GiveUp(if s.connected then s.(log := s.log + [MqttDisconnect]) else s)
  }

  function Take(s: Agent): Agent {
    if s.queue == [] then s
    else
      var t := s.(queue := s.queue[1..]);
      match s.queue[0]
      case RmakerTask => t.(at := Register)
      case PostMqttConnectTask => t.(at := ReportConfig)
      case ParamsInitTask => t.(at := InitParams)
      case OtherTask => t
  }

  function WorkStep(s: Agent, ok: bool, mapping: Mapping): Agent {
    match s.at
    case Idle => Take(s)
    case Register =>
      var t := s.(connected := false);
      if ok then t.(state := Starting, handlers := s.handlers.(connected := true), at := AskAssisted) else GiveUp(t)
    case AskAssisted =>
      // ok: not yet on a network, so that assisted claiming can go on.
      if s.config.kind.AssistedClaim? && s.claim.need then if ok then s.(at := WaitAssisted) else GiveUp(s)
      else s.(at := AskSelf)
    case WaitAssisted => if ok then s.(at := AskSelf) else GiveUp(s)
    case AskSelf => s.(at := if s.config.kind.SelfClaim? && s.claim.need then DoSelf else AskInit)
    case DoSelf => if ok then s.(claim := s.claim.(stored := true), at := AskInit) else GiveUp(s)
    case AskInit =>
      if !(s.claim.need || s.claim.done) then s.(at := EnableServices)
      else if ok then s.(claim := s.claim.(params := Some(Params(s.claim.stored))), at := DoInit)
      else GiveUp(s.(claim := s.claim.(params := None)))
    case DoInit =>
      // Parameters that a handler has withdrawn in the meantime are refused.
      if ok && s.claim.params.Some?
      then s.(log := s.log + [MqttInit(s.claim.params.value)], at := ClearFlags)
      else GiveUp(s)
    case ClearFlags => s.(claim := s.claim.(need := false, done := false), at := EnableServices)
    case EnableServices => if ok then s.(at := Connect) else GiveUp(s)
    case Connect =>
      var t := s.(log := s.log + [MqttConnect]);
      if ok then t.(at := Idle) else GiveUp(t)
    case ReportConfig =>
      if ok then s.(state := ConfigReported, log := s.log + [PostConfigReported], at := AskMapping)
      else GiveUpConnected(s)
    case AskMapping =>
      if mapping == MappingDone then
        var t := s.(log := s.log + [CallParamsInit(ok)]);
        if ok then t.(at := FinishStart) else GiveUpConnected(t)
      else if ok then
        if mapping == MappingNone && s.config.resetReporting
        then s.(handlers := s.handlers.(mappingReset := true), at := Idle)
        else s.(handlers := s.handlers.(mappingDone := true), at := Idle)
      else GiveUpConnected(s)
    case FinishStart => s.(state := Started, log := s.log + [PostStarted], at := Idle)
    // The callback does not look at the result.
    case InitParams => s.(log := s.log + [CallParamsInit(ok)], at := FinishCallback)
    case FinishCallback => s.(state := Started, log := s.log + [PostStarted], at := Idle)
  }

  // ---- The handlers ----

  function Queued(s: Agent, t: Task, queued: bool): Agent {
    if queued then s.(queue := s.queue + [t]) else s
  }

  /** esp_rmaker_mqtt_event_handler and esp_rmaker_event_handler on MQTT connected: the latter
      unregisters, then queues. */
  function OnConnected(s: Agent, queued: bool): Agent {
    var t := s.(connected := true);
    if s.handlers.connected
    then Queued(t.(handlers := s.handlers.(connected := false)), PostMqttConnectTask, queued)
    else t
  }

  /** esp_rmaker_event_handler on user mapping done or reset. */
  function OnUserMapping(s: Agent, reset: bool, queued: bool): Agent {
    if reset && s.handlers.mappingReset
    then Queued(s.(handlers := s.handlers.(mappingReset := false)), ParamsInitTask, queued)
    else if !reset && s.handlers.mappingDone
    then Queued(s.(handlers := s.handlers.(mappingDone := false)), ParamsInitTask, queued)
    else s
  }

  /** esp_rmaker_mqtt_reinit_with_new_params. */
  function Reinit(s: Agent, fetchOk: bool, initOk: bool): Agent {
    if s.claim.params.None? then s
    else
      var down := s.(claim := s.claim.(params := None), log := s.log + [MqttDeinit]);
      if !fetchOk then down
      else
        var newParams := Params(s.claim.stored);
        var up := down.(claim := down.claim.(params := Some(newParams)));
        if initOk then up.(log := up.log + [MqttInit(newParams)]) else up
  }

  /** claim_event_handler on CLAIM_SUCCESSFUL; reconfigure: connectivity is enabled and its last will
      could be set. */
  function OnClaimSuccess(s: Agent, reconfigure: bool, fetchOk: bool, initOk: bool): Agent {
    if !s.handlers.claim then s
    else
      var t := s.(claim := s.claim.(need := false, done := true));
      var u := if s.config.kind.AssistedClaim? && reconfigure then Reinit(t, fetchOk, initOk) else t;
      u.(handlers := u.handlers.(claim := false))
  }

  function Step(s: Agent, a: Action): Agent {
    match a
    case Work(ok, mapping) => WorkStep(s, ok, mapping)
    case MqttConnected(queued) => OnConnected(s, queued)
    case MqttDisconnected => s.(connected := false)
    case UserMapping(reset, queued) => OnUserMapping(s, reset, queued)
    case ClaimSucceeded(reconfigure, fetchOk, initOk) => OnClaimSuccess(s, reconfigure, fetchOk, initOk)
    case ClaimFailedEvent => s.(handlers := s.handlers.(claim := false))
    case CredentialsStored => s.(claim := s.claim.(stored := true))
    case Submit => s.(queue := s.queue + [OtherTask])
  }

  /** What the outside can do: the success event and a successful wait come after the credentials are
      stored. */
  predicate Possible(s: Agent, a: Action) {
    && (a.ClaimSucceeded? ==> s.claim.stored)
    && (a.Work? && s.at.WaitAssisted? && a.ok ==> s.claim.stored)
  }

  function RunAll(s: Agent, actions: seq<Action>): Agent
    decreases |actions|
  {
    if actions == [] then s else Step(RunAll(s, actions[..|actions| - 1]), actions[|actions| - 1])
  }

  predicate AllPossible(s: Agent, actions: seq<Action>)
    decreases |actions|
  {
    actions == [] ||
    (AllPossible(s, actions[..|actions| - 1]) && Possible(RunAll(s, actions[..|actions| - 1]), actions[|actions| - 1]))
  }
}
