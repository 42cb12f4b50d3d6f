/** The MQTT last-will topic against the stored group id (esp_rmaker_connectivity.c and
    esp_rmaker_client_data.c). */
module LastWill {
  import opened Basics

  const MAX_GROUP_ID_LENGTH := 32
  const LWT_TOPIC_BUFFER_SIZE := 128

  /** group: current_group_id. nodeId: the node's id now, if the agent has one. configuredFor: the node id
      read when the last will was last configured. topic: the stored topic, if any. */
  datatype Will = Will(group: Option<string>, nodeId: Option<string>, configuredFor: string, topic: Option<string>)

  /** A null and an empty group id mean the same. */
  function Group(id: Option<string>): string { if id.Some? then id.value else "" }

  function FullTopic(nodeId: string, group: string): string {
    "node/" + nodeId + "/params/local" + (if group == "" then "" else "/" + group)
  }

  /** snprintf into a buffer of LWT_TOPIC_BUFFER_SIZE. */
  function Topic(nodeId: string, group: string): string {
    var full := FullTopic(nodeId, group);
    if |full| < LWT_TOPIC_BUFFER_SIZE then full else full[..LWT_TOPIC_BUFFER_SIZE - 1]
  }

  /** esp_rmaker_connectivity_configure_lwt; memory: the copies can be allocated. */
  function Configure(w: Will, group: string, memory: bool): Will {
    if w.nodeId.None? then w
    else w.(configuredFor := w.nodeId.value, topic := if memory then Some(Topic(w.nodeId.value, group)) else None)
  }

  /** esp_rmaker_connectivity_group_id_matches. */
  predicate Matches(current: Option<string>, id: Option<string>) {
    if Group(id) == "" && Group(current) == "" then true
    else if (Group(id) == "") != (Group(current) == "") then false
    else if |Group(id)| > MAX_GROUP_ID_LENGTH then false
    else Group(id) == Group(current)
  }

  datatype Op =
    | UpdateGroup(id: Option<string>, groupMemory: bool, memory: bool)
    | Reconfigure(memory: bool)
    | ChangeNodeId(nodeId: string)

  /** esp_rmaker_connectivity_update_lwt. */
  function Update(w: Will, id: Option<string>, groupMemory: bool, memory: bool): Will {
    if Matches(w.group, id) then w
    else if Group(id) == "" then Configure(w.(group := None), "", memory)
    else if |Group(id)| > MAX_GROUP_ID_LENGTH || !groupMemory then w.(group := None)
    else Configure(w.(group := Some(Group(id))), Group(id), memory)
  }

  function Step(w: Will, op: Op): Will {
    match op
    case UpdateGroup(id, groupMemory, memory) => Update(w, id, groupMemory, memory)
    case Reconfigure(memory) => Configure(w, Group(w.group), memory)
    case ChangeNodeId(nodeId) => w.(nodeId := Some(nodeId))
  }

  /** esp_rmaker_connectivity_enable with the persisted group id; an over-long one is ignored. */
  function Enable(nodeId: Option<string>, persisted: Option<string>, memory: bool): Will {
    var group := if |Group(persisted)| > MAX_GROUP_ID_LENGTH then None else persisted;
    Configure(Will(group, nodeId, "", None), Group(group), memory)
  }

  function RunAll(w: Will, ops: seq<Op>): Will
    decreases |ops|
  {
    if ops == [] then w else RunAll(Step(w, ops[0]), ops[1..])
  }

  // ---- Agreement ----

  /** The configured topic is that of the node id last configured for and of the stored group. */
  ghost predicate Agrees(w: Will) {
    w.topic == Some(Topic(w.configuredFor, Group(w.group)))
  }

  ghost predicate ShortIds(w: Will) {
    (w.nodeId.Some? ==> |w.nodeId.value| <= 32) && |w.configuredFor| <= 32 && |Group(w.group)| <= MAX_GROUP_ID_LENGTH
  }

  /** Ids of at most 32 characters are never cut off. */
  lemma {:induction false} ShortTopic(nodeId: string, group: string)
    requires |nodeId| <= 32 && |group| <= MAX_GROUP_ID_LENGTH
    ensures Topic(nodeId, group) == FullTopic(nodeId, group)
  {
  }

  /** The topic in full, and cut off by snprintf. */
  lemma {:induction false} TopicIsPrefix(nodeId: string, group: string)
    ensures Topic(nodeId, group) <= FullTopic(nodeId, group)
    ensures Topic(nodeId, group) == FullTopic(nodeId, group) || |Topic(nodeId, group)| == 127
    ensures FullTopic("n1", "") == "node/n1/params/local" && FullTopic("n1", "g") == "node/n1/params/local/g"
  {
  }

  lemma {:induction false} FullTopicNode(nodeId: string, group: string)
    requires '/' !in nodeId
    ensures |FullTopic(nodeId, group)| > 5 + |nodeId|
    ensures FullTopic(nodeId, group)[5..][..|nodeId|] == nodeId && FullTopic(nodeId, group)[5..][|nodeId|] == '/'
    ensures '/' !in FullTopic(nodeId, group)[5..][..|nodeId|]
  {
  }

  /** The topic in full tells the node id, which holds no slash, and the group. */
  lemma {:induction false} TopicDeterminesIds(nodeId: string, group: string, nodeId': string, group': string)
    requires '/' !in nodeId && '/' !in nodeId'
    ensures FullTopic(nodeId, group) == FullTopic(nodeId', group') <==> nodeId == nodeId' && group == group'
  {
    var t := FullTopic(nodeId, group)[5..];
    if FullTopic(nodeId, group) == FullTopic(nodeId', group') {
      FullTopicNode(nodeId, group);
      FullTopicNode(nodeId', group');
      SlashAt(t, |nodeId|, |nodeId'|);
      SlashAt(t, |nodeId'|, |nodeId|);
      var head := "node/" + nodeId + "/params/local";
      if group != "" && group' != "" {
        assert FullTopic(nodeId, group)[|head| + 1..] == group;
        assert FullTopic(nodeId', group')[|head| + 1..] == group';
      }
    }
  }

  lemma {:induction false} SlashAt(t: string, n: nat, n': nat)
    requires n < |t| && n' < |t| && '/' !in t[..n]
    ensures n <= n' || t[n'] != '/'
  {
    if n' < n {
      assert t[n'] == t[..n][n'];
    }
  }

  /** The topic tells the group. */
  lemma {:induction false} TopicDeterminesGroup(nodeId: string, group: string, group': string)
    requires |nodeId| <= 32 && |group| <= MAX_GROUP_ID_LENGTH && |group'| <= MAX_GROUP_ID_LENGTH
    ensures Topic(nodeId, group) == Topic(nodeId, group') <==> group == group'
  {
    ShortTopic(nodeId, group);
    ShortTopic(nodeId, group');
    var head := "node/" + nodeId + "/params/local";
    var t, t' := FullTopic(nodeId, group), FullTopic(nodeId, group');
    if t == t' && group != "" && group' != "" {
      assert t[|head| + 1..] == group;
      assert t'[|head| + 1..] == group';
    }
  }

  /** For ids of legal length, a match is equality. */
  lemma {:induction false} MatchesIff(current: Option<string>, id: Option<string>)
    requires |Group(id)| <= MAX_GROUP_ID_LENGTH
    ensures Matches(current, id) <==> Group(current) == Group(id)
  {
  }

  /** One operation keeps agreement exactly when there is a node id and its copies can be made, an
      unchanged group id being skipped without any; and an over-long group id, or one there is no memory
      for, breaks it exactly when a group was stored before, because that is dropped while the topic
      stays. */
  lemma {:induction false} StepAgreesIff(w: Will, op: Op)
    requires Agrees(w) && ShortIds(w)
    ensures Agrees(Step(w, op)) <==>
            match op
            case UpdateGroup(id, groupMemory, memory) =>
              if Group(id) == Group(w.group) then true
              else if Group(id) != "" && (|Group(id)| > MAX_GROUP_ID_LENGTH || !groupMemory) then Group(w.group) == ""
              else memory && w.nodeId.Some?
            case Reconfigure(memory) => memory || w.nodeId.None?
            case ChangeNodeId(_) => true
  {
    if op.UpdateGroup? && Group(op.id) != Group(w.group) {
      var stored := Group(Step(w, op).group);
      TopicDeterminesGroup(w.configuredFor, Group(w.group), stored);
    }
  }

  ghost predicate Legal(op: Op) {
    match op
    case UpdateGroup(id, groupMemory, memory) => |Group(id)| <= MAX_GROUP_ID_LENGTH && groupMemory && memory
    case Reconfigure(memory) => memory
    case ChangeNodeId(nodeId) => |nodeId| <= 32
  }

  /** Last-will agreement over every run with legal ids and memory; the topic is never cut off. */
  lemma {:induction false} RunAgrees(nodeId: string, persisted: Option<string>, ops: seq<Op>)
    requires |nodeId| <= 32 && forall i :: 0 <= i < |ops| ==> Legal(ops[i])
    ensures var w := RunAll(Enable(Some(nodeId), persisted, true), ops);
            Agrees(w) && ShortIds(w) && w.topic == Some(FullTopic(w.configuredFor, Group(w.group)))
  {
    var w := Enable(Some(nodeId), persisted, true);
    RunAgreesFrom(w, ops);
    var end := RunAll(w, ops);
    ShortTopic(end.configuredFor, Group(end.group));
  }

  lemma {:induction false} RunAgreesFrom(w: Will, ops: seq<Op>)
    requires Agrees(w) && ShortIds(w) && w.nodeId.Some? && forall i :: 0 <= i < |ops| ==> Legal(ops[i])
    ensures Agrees(RunAll(w, ops)) && ShortIds(RunAll(w, ops))
    decreases |ops|
  {
    if ops == [] {
    } else {
      assert Legal(ops[0]);
      RunAgreesFrom(Step(w, ops[0]), ops[1..]);
    }
  }

  /** After a group update that is accepted, the topic is the one of the new group on the present node
      id, unless the group was the stored one already: then the topic keeps the node id it had. Without
      memory for its copies a new group leaves no topic. */
  lemma {:induction false} UpdateTopic(w: Will, id: Option<string>, memory: bool)
    requires Agrees(w) && ShortIds(w) && w.nodeId.Some? && |Group(id)| <= MAX_GROUP_ID_LENGTH
    ensures var w' := Update(w, id, true, memory);
            && Group(w'.group) == Group(id)
            && w'.topic == (if Group(id) == Group(w.group) then Some(FullTopic(w.configuredFor, Group(id)))
                            else if memory then Some(FullTopic(w.nodeId.value, Group(id))) else None)
  {
    ShortTopic(w.configuredFor, Group(id));
    ShortTopic(w.nodeId.value, Group(id));
  }

  // ---- The present node id ----

  /** The node id after the operations. */
  function LastNode(nodeId: Option<string>, ops: seq<Op>): Option<string>
    decreases |ops|
  {
    if ops == [] then nodeId
    else
      var last := ops[|ops| - 1];
      if last.ChangeNodeId? then Some(last.nodeId) else LastNode(nodeId, ops[..|ops| - 1])
  }

  predicate Storable(op: Op) {
    op.UpdateGroup? && 0 < |Group(op.id)| <= MAX_GROUP_ID_LENGTH && op.groupMemory
  }

  /** The group after the operations: that of the last update to a different one, if it could be stored. */
  function LastGroup(group: string, ops: seq<Op>): string
    decreases |ops|
  {
    if ops == [] then group
    else
      var last, before := ops[|ops| - 1], LastGroup(group, ops[..|ops| - 1]);
      if !last.UpdateGroup? || Group(last.id) == before then before
      else if Storable(last) then Group(last.id) else ""
  }

  lemma {:induction false} RunSplits(w: Will, before: seq<Op>, op: Op)
    ensures RunAll(w, before + [op]) == Step(RunAll(w, before), op)
    decreases |before|
  {
    if before == [] {
      assert [op][1..] == [];
    } else {
      assert (before + [op])[1..] == before[1..] + [op];
      RunSplits(Step(w, before[0]), before[1..], op);
    }
  }

  /** Every run keeps the last node id and the last group that could be stored, whatever fails. */
  lemma {:induction false} RunRemembers(w: Will, ops: seq<Op>)
    requires |Group(w.group)| <= MAX_GROUP_ID_LENGTH
    ensures var end := RunAll(w, ops);
            && end.nodeId == LastNode(w.nodeId, ops)
            && Group(end.group) == LastGroup(Group(w.group), ops) && |Group(end.group)| <= MAX_GROUP_ID_LENGTH
    decreases |ops|
  {
    if ops == [] {
    } else {
      var before, last := ops[..|ops| - 1], ops[|ops| - 1];
      assert ops == before + [last];
      RunSplits(w, before, last);
      RunRemembers(w, before);
    }
  }

  /** What enabling configures: the given node id and the persisted group, unless that is too long. */
  lemma {:induction false} EnableTopic(nodeId: Option<string>, persisted: Option<string>, memory: bool)
    requires nodeId.Some? ==> |nodeId.value| <= 32
    ensures var w := Enable(nodeId, persisted, memory);
            var group := if |Group(persisted)| <= MAX_GROUP_ID_LENGTH then Group(persisted) else "";
            && w.nodeId == nodeId && Group(w.group) == group
            && w.topic == if memory && nodeId.Some? then Some(FullTopic(nodeId.value, group)) else None
  {
    if nodeId.Some? && |Group(persisted)| <= MAX_GROUP_ID_LENGTH {
      ShortTopic(nodeId.value, Group(persisted));
    }
  }

  /** Reconfiguring takes up the present node id. After every run of operations from enabling, failed ones
      included, the topic is that of the last node id and the last group that could be stored. */
  lemma {:induction false} ReconfigureTakesUp(nodeId: Option<string>, persisted: Option<string>, memory: bool,
                                                  ops: seq<Op>)
    requires var node := LastNode(nodeId, ops); node.Some? && |node.value| <= 32
    ensures var group := if |Group(persisted)| <= MAX_GROUP_ID_LENGTH then Group(persisted) else "";
            var w := RunAll(Enable(nodeId, persisted, memory), ops + [Reconfigure(true)]);
            && w.topic == Some(FullTopic(LastNode(nodeId, ops).value, LastGroup(group, ops)))
            && RunAll(Enable(nodeId, persisted, memory), ops + [Reconfigure(false)]).topic == None
  {
    var w := Enable(nodeId, persisted, memory);
    RunRemembers(w, ops);
    RunSplits(w, ops, Reconfigure(true));
    RunSplits(w, ops, Reconfigure(false));
    ShortTopic(LastNode(nodeId, ops).value, Group(RunAll(w, ops).group));
  }

  /** Without a node id there is nothing to configure. */
  lemma {:induction false} NoNodeNoTopic(w: Will, op: Op)
    requires w.nodeId.None? && !op.ChangeNodeId?
    ensures Step(w, op).topic == w.topic && Step(w, op).configuredFor == w.configuredFor
  {
  }

  /** A group id that is refused drops the stored one and leaves the topic. */
  lemma {:induction false} RefusedGroup(w: Will, id: Option<string>, groupMemory: bool, memory: bool)
    requires Group(id) != "" && (|Group(id)| > MAX_GROUP_ID_LENGTH || (!groupMemory && Group(id) != Group(w.group)))
    ensures var w' := Update(w, id, groupMemory, memory);
            Group(w'.group) == "" && w'.topic == w.topic && w'.configuredFor == w.configuredFor
  {
  }
}
