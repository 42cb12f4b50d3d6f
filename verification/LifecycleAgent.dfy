/** The agent's private data and its handlers and tasks, changing it field by field (esp_rmaker_core.c). */
module LifecycleAgent {
  import opened Basics
  import opened Lifecycle

  class RainMaker {
    const config: Config
    var state: CoreState
    var needClaim: bool
    var claimDone: bool
    var mqttConnParams: Option<Params>
    var credentialsStored: bool
    var connectedHandler: bool
    var mappingDoneHandler: bool
    var mappingResetHandler: bool
    var claimHandlers: bool
    var workQueue: seq<Task>
    var at: Point
    var mqttConnected: bool
    var log: seq<Act>

    ghost function View(): Agent
      reads this
    {
      Agent(config, Claim(needClaim, claimDone, mqttConnParams, credentialsStored), state,
            Handlers(connectedHandler, mappingDoneHandler, mappingResetHandler, claimHandlers), workQueue, at,
            mqttConnected, log)
    }

    /** esp_rmaker_init followed by esp_rmaker_start. */
    constructor (kind: ClaimKind, resetReporting: bool, unclaimed: bool)
      ensures View() == Initial(kind, resetReporting, unclaimed)
    {
      config := Config(kind, resetReporting);
      state := InitDone;
      needClaim, claimDone := unclaimed, false;
      mqttConnParams := if unclaimed then None else Some(Params(true));
      credentialsStored := !unclaimed;
      connectedHandler, mappingDoneHandler, mappingResetHandler := false, false, false;
      claimHandlers := unclaimed;
      workQueue := [RmakerTask];
      at, mqttConnected, log := Idle, false, [];
    }

    method GiveUp()
      modifies this`state, this`at
      ensures state == InitDone && at == Idle
    {
      state := InitDone;
      at := Idle;
    }

    /** post_mqtt_end. */
    method GiveUpConnected()
      modifies this`state, this`at, this`log
      ensures View() == Lifecycle.GiveUpConnected(old(View()))
    {
      if mqttConnected {
        log := log + [MqttDisconnect];
      }
      GiveUp();
    }

    /** The work queue thread takes the next task. */
    method TakeTask()
      requires at == Idle
      modifies this`workQueue, this`at
      ensures View() == Take(old(View()))
    {
      if workQueue == [] {
        return;
      }
      var task := workQueue[0];
      workQueue := workQueue[1..];
      match task
      case RmakerTask => at := Register;
      case PostMqttConnectTask => at := ReportConfig;
      case ParamsInitTask => at := InitParams;
      case OtherTask =>
    }

    /** esp_rmaker_task, from one point to the next: up to the end of claiming. */
    method ClaimingPart(ok: bool)
      requires at.Register? || at.AskAssisted? || at.WaitAssisted? || at.AskSelf? || at.DoSelf?
      modifies this
      ensures View() == WorkStep(old(View()), ok, MappingDone)
    {
      match at
      case Register =>
        mqttConnected := false;
        if !ok { GiveUp(); return; }
        state := Starting;
        connectedHandler := true;
        at := AskAssisted;
      case AskAssisted =>
        if config.kind.AssistedClaim? && needClaim {
          if !ok { GiveUp(); return; }
          at := WaitAssisted;
        } else {
          at := AskSelf;
        }
      case WaitAssisted =>
        if !ok { GiveUp(); return; }
        at := AskSelf;
      case AskSelf =>
        at := if config.kind.SelfClaim? && needClaim then DoSelf else AskInit;
      case DoSelf =>
        if !ok { GiveUp(); return; }
        credentialsStored := true;
        at := AskInit;
    }

    /** esp_rmaker_task: MQTT is initialised if it was not before. */
    method InitPart(ok: bool)
      requires at.AskInit? || at.DoInit? || at.ClearFlags?
      modifies this`mqttConnParams, this`needClaim, this`claimDone, this`state, this`at, this`log
      ensures View() == WorkStep(old(View()), ok, MappingDone)
    {
      match at
      case AskInit =>
        if needClaim || claimDone {
          mqttConnParams := if ok then Some(Params(credentialsStored)) else None;
          if mqttConnParams.None? { GiveUp(); return; }
          at := DoInit;
        } else {
          at := EnableServices;
        }
      case DoInit =>
        if !ok || mqttConnParams.None? { GiveUp(); return; }
        log := log + [MqttInit(mqttConnParams.value)];
        at := ClearFlags;
      case ClearFlags =>
        needClaim := false;
        claimDone := false;
        at := EnableServices;
    }

    /** The rest of esp_rmaker_task: the services, and the connection. */
    method ConnectingPart(ok: bool)
      requires at.EnableServices? || at.Connect?
      modifies this`state, this`at, this`log
      ensures View() == WorkStep(old(View()), ok, MappingDone)
    {
      if at.Connect? {
        log := log + [MqttConnect];
      }
      if !ok { GiveUp(); return; }
      at := if at.Connect? then Idle else Connect;
    }

    /** The branch that waits for the user mapping. */
    method AwaitMapping(ok: bool, mapping: Mapping)
      requires at.AskMapping? && !mapping.MappingDone?
      modifies this`mappingResetHandler, this`mappingDoneHandler, this`state, this`at, this`log
      ensures View() == WorkStep(old(View()), ok, mapping)
    {
      if !ok { GiveUpConnected(); return; }
      if mapping != MappingStarted && config.resetReporting {
        mappingResetHandler := true;
      } else {
        mappingDoneHandler := true;
      }
      at := Idle;
    }

    /** esp_rmaker_post_mqtt_connect_task, from one point to the next. */
    method PostConnectTask(ok: bool, mapping: Mapping)
      requires at.ReportConfig? || at.AskMapping? || at.FinishStart?
      modifies this
      ensures View() == WorkStep(old(View()), ok, mapping)
    {
      match at
      case ReportConfig =>
        if !ok { GiveUpConnected(); return; }
        state := ConfigReported;
        log := log + [PostConfigReported];
        at := AskMapping;
      case AskMapping =>
        if mapping == MappingDone {
          log := log + [CallParamsInit(ok)];
          if !ok { GiveUpConnected(); return; }
          at := FinishStart;
        } else {
          AwaitMapping(ok, mapping);
        }
      case FinishStart =>
        state := Started;
        log := log + [PostStarted];
        at := Idle;
    }

    /** esp_rmaker_params_mqtt_init_cb, from one point to the next. */
    method ParamsInitCallback(ok: bool)
      requires at.InitParams? || at.FinishCallback?
      modifies this
      ensures View() == WorkStep(old(View()), ok, MappingDone)
    {
      if at.InitParams? {
        log := log + [CallParamsInit(ok)];
        at := FinishCallback;
      } else {
        state := Started;
        log := log + [PostStarted];
        at := Idle;
      }
    }

    /** RMAKER_MQTT_EVENT_CONNECTED: esp_rmaker_mqtt_event_handler, and esp_rmaker_event_handler if it is
        registered. */
    method DispatchConnected(queued: bool)
      modifies this`mqttConnected, this`connectedHandler, this`workQueue
      ensures View() == OnConnected(old(View()), queued)
    {
      mqttConnected := true;
      if connectedHandler {
        connectedHandler := false;
        if queued {
          workQueue := workQueue + [PostMqttConnectTask];
        }
      }
    }

    /** RMAKER_MQTT_EVENT_DISCONNECTED. */
    method DispatchDisconnected()
      modifies this`mqttConnected
      ensures View() == Step(old(View()), MqttDisconnected)
    {
      mqttConnected := false;
    }

    /** esp_rmaker_event_handler on user mapping done or reset, if it is registered for that event. */
    method DispatchUserMapping(reset: bool, queued: bool)
      modifies this`mappingDoneHandler, this`mappingResetHandler, this`workQueue
      ensures View() == OnUserMapping(old(View()), reset, queued)
    {
      if reset && mappingResetHandler {
        mappingResetHandler := false;
      } else if !reset && mappingDoneHandler {
        mappingDoneHandler := false;
      } else {
        return;
      }
      if queued {
        workQueue := workQueue + [ParamsInitTask];
      }
    }

    method MqttReinitWithNewParams(fetchOk: bool, initOk: bool)
      modifies this`mqttConnParams, this`log
      ensures View() == Reinit(old(View()), fetchOk, initOk)
    {
      if mqttConnParams.None? {
        return;
      }
      log := log + [MqttDeinit];
      mqttConnParams := None;
      if fetchOk {
        mqttConnParams := Some(Params(credentialsStored));
        if initOk {
          log := log + [MqttInit(mqttConnParams.value)];
        }
      }
    }

    /** claim_event_handler on RMAKER_EVENT_CLAIM_SUCCESSFUL, if it is registered. */
    method DispatchClaimSuccess(reconfigure: bool, fetchOk: bool, initOk: bool)
      modifies this`needClaim, this`claimDone, this`mqttConnParams, this`log, this`claimHandlers
      ensures View() == OnClaimSuccess(old(View()), reconfigure, fetchOk, initOk)
    {
      if claimHandlers {
        needClaim := false;
        claimDone := true;
        if config.kind.AssistedClaim? && reconfigure {
          MqttReinitWithNewParams(fetchOk, initOk);
        }
        claimHandlers := false;
      }
    }
  }
}
