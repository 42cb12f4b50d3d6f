/** The connectivity service as one object: its timer, its group id and the last-will data it keeps
    (esp_rmaker_connectivity.c). */
module Connectivity {
  import opened Basics
  import opened LastWill
  import ReportDelay

  class ConnectivityService {
    const setup: ReportDelay.Setup
    var connectedTimer: Option<nat>
    var mqttConnected: bool
    var reports: seq<nat>
    var currentGroupId: Option<string>
    var nodeId: Option<string>
    var configuredFor: string
    var lwtTopic: Option<string>

    ghost function Timer(): ReportDelay.Service
      reads this
    {
      ReportDelay.Service(connectedTimer, mqttConnected)
    }

    ghost function View(): Will
      reads this
    {
      Will(currentGroupId, nodeId, configuredFor, lwtTopic)
    }

    /** esp_rmaker_connectivity_enable. */
    constructor (setup: ReportDelay.Setup, nodeId: Option<string>, persisted: Option<string>, memory: bool)
      ensures this.setup == setup && Timer() == ReportDelay.START && reports == []
      ensures View() == Enable(nodeId, persisted, memory)
    {
      this.setup := setup;
      connectedTimer, mqttConnected, reports := None, false, [];
      this.nodeId, configuredFor := nodeId, "";
      currentGroupId := if persisted.Some? && |persisted.value| > MAX_GROUP_ID_LENGTH then None else persisted;
      lwtTopic := None;
      new;
      var ok := ConfigureLwt(currentGroupId, memory);
    }

    /** esp_rmaker_connectivity_report_connected. */
    method ReportConnected(now: nat)
      modifies this`reports
      ensures reports == if mqttConnected then old(reports) + [now] else old(reports)
    {
      if !mqttConnected {
        return;
      }
      reports := reports + [now];
    }

    /** RMAKER_MQTT_EVENT_CONNECTED, dispatched to the core's handler and this one. */
    method DispatchConnected(now: nat)
      modifies this`connectedTimer, this`mqttConnected, this`reports
      ensures var out := ReportDelay.Step(setup, old(Timer()), ReportDelay.Timed(now, ReportDelay.Connected));
              Timer() == out.service && reports == (if out.reported then old(reports) + [now] else old(reports))
    {
      if setup.coreFirst {
        mqttConnected := true;
      }
      if setup.delay > 0 && setup.hasTimer {
        connectedTimer := None;
        connectedTimer := Some(now + setup.delay * 1_000_000);
      } else {
        ReportConnected(now);
      }
      mqttConnected := true;
    }

    /** RMAKER_MQTT_EVENT_DISCONNECTED, dispatched to both. */
    method DispatchDisconnected(now: nat)
      modifies this`connectedTimer, this`mqttConnected
      ensures Timer() ==
              ReportDelay.Step(setup, old(Timer()), ReportDelay.Timed(now, ReportDelay.Disconnected)).service
    {
      mqttConnected := false;
      if setup.hasTimer {
        connectedTimer := None;
      }
    }

    /** The one-shot timer runs out. */
    method TimerExpired(now: nat)
      modifies this`connectedTimer, this`reports
      ensures var out := ReportDelay.Step(setup, old(Timer()), ReportDelay.Timed(now, ReportDelay.Expired));
              Timer() == out.service && reports == (if out.reported then old(reports) + [now] else old(reports))
    {
      connectedTimer := None;
      ReportConnected(now);
    }

    method ConfigureLwt(groupId: Option<string>, memory: bool) returns (ok: bool)
      modifies this`configuredFor, this`lwtTopic
      ensures View() == Configure(old(View()), Group(groupId), memory) && ok == (memory && nodeId.Some?)
    {
      if nodeId.None? {
        return false;
      }
      var id := nodeId.value;
      var topic := if groupId.Some? && |groupId.value| > 0
                   then "node/" + id + "/params/local" + ("/" + groupId.value)
                   else "node/" + id + "/params/local";
      if |topic| >= LWT_TOPIC_BUFFER_SIZE {
        topic := topic[..LWT_TOPIC_BUFFER_SIZE - 1];
      }
      configuredFor := id;
      assert topic == Topic(id, Group(groupId)) by {
        assert "node/" + id + "/params/local" + "" == "node/" + id + "/params/local";
      }
      lwtTopic := None;
      if memory {
        lwtTopic := Some(topic);
      }
      ok := memory;
    }

    /** esp_rmaker_connectivity_update_lwt; ok: it returns ESP_OK. queued: the reconnection that a live
        connection needs can be queued. */
    method UpdateLwt(groupId: Option<string>, groupMemory: bool, memory: bool, queued: bool) returns (ok: bool)
      modifies this`currentGroupId, this`configuredFor, this`lwtTopic
      ensures View() == Update(old(View()), groupId, groupMemory, memory)
      ensures ok <==>
              || Matches(old(currentGroupId), groupId)
              || (memory && nodeId.Some?
                  && (Group(groupId) == "" || (|Group(groupId)| <= MAX_GROUP_ID_LENGTH && groupMemory))
                  && (mqttConnected ==> queued))
    {
      if Matches(currentGroupId, groupId) {
        return true;
      }
      currentGroupId := None;
      if groupId.Some? && |groupId.value| > 0 {
        if |groupId.value| > MAX_GROUP_ID_LENGTH {
          return false;
        }
        if !groupMemory {
          return false;
        }
        currentGroupId := groupId;
      }
      ok := ConfigureLwt(groupId, memory);
      if ok && mqttConnected {
        ok := queued;
      }
    }

    /** esp_rmaker_connectivity_reconfigure_lwt_for_node_id_change. */
    method ReconfigureLwt(memory: bool) returns (ok: bool)
      modifies this`configuredFor, this`lwtTopic
      ensures View() == Step(old(View()), Reconfigure(memory)) && ok == (memory && nodeId.Some?)
    {
      ok := ConfigureLwt(currentGroupId, memory);
    }
  }
}
