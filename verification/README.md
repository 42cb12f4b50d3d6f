# Verified models of ESP RainMaker components

This project models the parts of the ESP RainMaker agent and its examples that hold protocols,
persistent tables, linked structures and codecs, and proves what they keep over every run, every
interleaving, every crash point or every input.

How it is organised. Code that changes state is modelled by classes and loops in the source's own form
(`Claim`, `GatewayApp`, `LifecycleAgent`, `Connectivity`, `UserApi`, `DeviceParams`, `MatterList`, the
loops of `Newlines`, `HexText`, `JsonEscape` and `Ws2812`). Each of their methods is proved to do what a
function on values says, and the properties of whole runs are lemmas about those functions, in modules of
their own. Calls into code outside these files (cryptography, JSON, MQTT, NVS, HTTP, the event loop) are
parameters that say how the call turns out. All inductions are written out: every lemma carries
`{:induction false}`.

- **Assisted claiming** (`ClaimProtocol`, `ClaimTransfer`, `ClaimRuns`, `ClaimSession`, `Claim`). One
  3072-byte buffer serves the outgoing 200-byte fragments and the incoming reassembly. The invariant of
  every reachable state, safety of CLAIM_SUCCESSFUL over every command sequence, sender progress, the
  fragment round trip for every claim-verify text, success of an honest session with every answer in it,
  and that an abort makes room for the next one.
- **Zigbee device table** (`GatewayTable`, `GatewayProofs`, `GatewayKeys`, `GatewayApp`). Linked list,
  16 slots, counter and NVS. Every NVS image between two writes of any run of joins, deletes, crashes
  and restarts is consistent; each operation is atomic for crashes; list, slots, counter and NVS agree
  while at most 16 devices join; a restart restores them; no key is left behind without a crash.
- **Start of the agent** (`Lifecycle`, `LifecycleProofs`, `LifecycleOutcomes`, `LifecycleStates`,
  `LifecycleAgent`). The work queue thread runs its tasks step by step while handlers are dispatched in
  between. STARTED comes at most once and in order; an unclaimed node sets up MQTT with claimed
  credentials before it connects; exactly when MQTT is up at the connection, and exactly when
  `params_mqtt_init` has succeeded before STARTED; what the state tells at every moment, which event a
  waiting start goes on with, and where failures lead.
- **Connectivity service** (`ReportDelay`, `LastWill`, `Connectivity`). Delayed reports over timed runs,
  and agreement of the last-will topic with node id and group id, the present ones after a
  reconfiguration.
- **User API** (`UserApiCalls`, `UserApiProofs`, `UserApiReplies`, `UserApiPass`, `UserApiLock`,
  `UserApi`). Three mutually recursive calls over one recursive lock: termination on every server
  script, lock accounting, exactly when the lock is given back, a bound on the HTTP opens by the number
  of expired tokens, and which reply the caller gets.
- **Parameter and device lists** (`ParamList`, `DeviceParams`, `MatterNodes`, `MatterList`). Shape,
  order and uniqueness of a linked list on the heap; a double reversal; which cells are live.
- **Codecs** (`Newlines`, `HexText`, `JsonEscape`, `Ws2812`). Escaping and unescaping, hex text and
  addresses, and the LED bit stream.

## Where the code does less than it says

The models keep the code as it is. Where an expected property is false of it, a lemma gives the input and
another the exact condition.

- The completion test of claim-verify looks only at the last piece, so that a reply with gaps is taken
  for complete and parsed (`CompletionIgnoresGaps`). It succeeds when the text before the first zero
  happens to be acceptable: a start of the reply and any last piece behind a gap succeed exactly if the
  start alone is accepted (`GapSucceedsIff`). A last piece alone is parsed behind the request text that
  was sent (`TailAloneCompletes`). `payload_len` does not tell, because it still counts that text when
  the reply does not start at offset 0 (`LengthMisleadsIff`); a reply in increasing order is whole
  exactly when it starts at offset 0 and `payload_len` equals the total.
- A claim-init reply must be whole, but its offset is only checked through a sum that wraps: some offsets
  near 2^32 pass (`InitAnswers`).
- `unescape_new_line` copies the character after a backslash or a translated newline without looking at
  it. It undoes the escaping exactly for the texts of `Survives`; two newlines in a row, a final newline
  or most backslashes are lost. `deformat_cert` undoes it exactly for texts without a backslash-n pair.
- The Zigbee info keys carry the short address only. A delete keeps the stored table consistent exactly
  when no second slot holds the address (`DeleteImagesIff`); nothing in a join prevents that
  (`SecondEndpointBreaksTable`).
- A crash between the writes of a Zigbee join or delete leaves info keys behind that no slot needs
  (`JoinCrashKeys`, `DeleteCrashKeys`); they do no harm to the table.
- A Zigbee join that finds the slots full is listed but neither stored nor counted (`JoinAgreesIff`);
  its delete then leaves the counter one short until a restart (`OverflowLosesCount`).
- STARTED is posted after the user-mapping event whatever `params_mqtt_init` returned
  (`StartedAfterFailedInit`). It means a successful call exactly if the callback of that event has not
  failed (`InitAtStartIff`).
- A re-initialisation that fails between the start task's own MQTT set-up and its connect leaves it to
  connect all the same (`ConnectsWhileDown`). That is the only way in which MQTT is not up at the
  connection (`UpAtConnectIff`).
- With the delay set to 0 the option's help text says that a connection is reported immediately. It is
  exactly when the core's handler for the event has run before the service's, or the event before it was
  a connect as well (`ImmediateReportIff`); but the service must be enabled before the agent is started,
  and so registers first (`NoImmediateReport`).
- A group id that is too long, or that there is no memory for, drops the stored id but keeps the topic
  (`StepAgreesIff`).
- The API lock stays held after a call that had to log in, retry a kept client or refresh a token: it is
  given back exactly if nothing had to be tried again (`BalancedIff`), which is to say that no request
  failed on a kept client and every login that had to be made failed (`CalmBalancedIff`). How often it
  is left held: `Accounts`, `SixOpens`.
- Rejected credentials are tried again for as long as the server answers 401 (`RejectedCredentials`).
- `parse_address` skips a second prefix too, so that `0x0x12` is a short address (`AddressAcceptsIff`,
  `TwoPrefixesAccepted`).
- The filter for the own node is a test for a prefix of the id (`LeftOutIff`).
- `param_count` is one byte: it is the length of the list modulo 256, and so the length exactly below
  256 (`CountIsLengthIff`).

## Model

| member | source | states |
|---|---|---|
| `ClaimProtocol.Step` | components/esp_rainmaker/src/core/esp_rmaker_claim.c:879-923 | Every command keeps the invariant: in INIT_DONE there is something sent and something left, 0 < payload_offset < payload_len below the buffer size, at a multiple of 200; CSR_GENERATED is never seen between commands. |
| `ClaimProtocol.OutOfOrder` | components/esp_rainmaker/src/core/esp_rmaker_claim.c:702-709 | Exactly which commands get InvalidState (also 759-764, 815-819), and that such a refusal leaves buffer, offsets and state alone and posts nothing. |
| `ClaimProtocol.SuccessfulIff` | components/esp_rainmaker/src/core/esp_rmaker_claim.c:839-847 | CLAIM_SUCCESSFUL is posted exactly by a claim-verify in VERIFY or VERIFY_DONE whose piece reaches the announced total and after which the text in the buffer, up to the first zero, is accepted by the parser. |
| `ClaimProtocol.FailedIff` | components/esp_rainmaker/src/core/esp_rmaker_claim.c:848-855 | CLAIM_FAILED is posted exactly by an abort, or by such a completing piece after which the text is not accepted. |
| `ClaimTransfer.ChunkCount` | components/esp_rainmaker/src/core/esp_rmaker_claim.c:791-806 | A text of length n from an offset on is ceil((n - offset) / 200) fragments. |
| `ClaimTransfer.PollSendsChunks` | components/esp_rainmaker/src/core/esp_rmaker_claim.c:791-806 | Enough claim-init commands in INIT_DONE, each with its own content, send exactly the remaining pieces of the text in the buffer; VERIFY is reached with the last of them, and the buffer is untouched. |
| `ClaimTransfer.AcceptedInitSendsAll` | components/esp_rainmaker/src/core/esp_rmaker_claim.c:765-806 | An accepted claim-init reply and the polls after it send the whole claim-verify text in ceil(L / 200) responses, counting the first, and end in VERIFY with the text in the buffer and payload_len L. |
| `ClaimTransfer.PieceCounted` | components/esp_rainmaker/src/core/esp_rmaker_claim.c:832-839 | One valid claim-verify piece from any waiting state: payload_len counts its bytes modulo 2^32, from zero again at offset 0; the completion test without wrap-around. |
| `ClaimTransfer.PieceReceived` | components/esp_rainmaker/src/core/esp_rmaker_claim.c:832-838 | One contiguous piece makes the buffer hold the bytes so far followed by it, zeros behind, with payload_len their number. |
| `ClaimTransfer.FeedReassembles` | components/esp_rainmaker/src/core/esp_rmaker_claim.c:832-838 | Any contiguous reply, however it is cut, is reassembled exactly, zero-filled, with payload_len its length. |
| `ClaimTransfer.OnlyLastCompletes` | components/esp_rainmaker/src/core/esp_rmaker_claim.c:840 | In a contiguous reply the completion test holds for the last piece and for no other. |
| `ClaimTransfer.ContiguousHonest` | components/esp_rainmaker/src/core/esp_rmaker_claim.c:736-750 | The pieces of a contiguous reply below the buffer size meet the precondition on clients and are never refused. |
| `ClaimTransfer.FeedSuccess` | components/esp_rainmaker/src/core/esp_rmaker_claim.c:815-847 | While pieces are fed, CLAIM_SUCCESSFUL is posted exactly at the valid, completing ones after which the text in the buffer is accepted. |
| `ClaimTransfer.ChunksRebuild` | components/esp_rainmaker/src/core/esp_rmaker_claim.c:791-842 | The fragments of any text of length 1 to 3071 rebuild it in a waiting device; only the last one completes. |
| `ClaimTransfer.FragmentRoundTrip` | components/esp_rainmaker/src/core/esp_rmaker_claim.c:765-842 | The round trip: whatever a device sends after accepting a claim-init reply, fed in order to a device in VERIFY, rebuilds exactly that text followed by zeros, payload_len its length, complete with the last fragment only. |
| `ClaimTransfer.CountMeetsTotalIffContiguous` | components/esp_rainmaker/src/core/esp_rmaker_claim.c:838-840 | Of pieces in increasing order up to the total, the byte count equals the total exactly when nothing is missing. |
| `ClaimTransfer.FeedCounts` | components/esp_rainmaker/src/core/esp_rmaker_claim.c:832-838 | From any waiting state, what payload_len is after pieces in increasing order: their bytes, on top of its old value unless they start at offset 0. |
| `ClaimTransfer.CompletionIgnoresGaps` | components/esp_rainmaker/src/core/esp_rmaker_claim.c:838-844 | From any waiting state a reply in increasing order is taken for complete, gaps or not: it succeeds if and only if the text then in the buffer is accepted. Nothing is missing if and only if it starts at offset 0 and payload_len equals the total. |
| `ClaimTransfer.GapSucceedsIff` | components/esp_rainmaker/src/core/esp_rmaker_claim.c:304-344 | From any waiting state, a start of a reply and a last piece anywhere behind it leave the start alone as the text (308), so that CLAIM_SUCCESSFUL is posted if and only if the start is accepted, though announced bytes never came. |
| `ClaimTransfer.TailAloneCompletes` | components/esp_rainmaker/src/core/esp_rmaker_claim.c:765-844 | After every transfer of a text, one piece that starts where the text ended completes a reply, with payload_len equal to the announced total though nothing before the piece was received; what is parsed is the sent text and the piece, and success depends on that. |
| `ClaimTransfer.LengthMisleadsIff` | components/esp_rainmaker/src/core/esp_rmaker_claim.c:832-844 | payload_len equals the total although something is missing if and only if the reply does not start at offset 0 and its bytes make up the total together with the old payload_len. |
| `ClaimRuns.RunsKeepHistory` | components/esp_rainmaker/src/core/esp_rmaker_claim.c:702-923 | Over every command sequence from a fresh device, what each state tells of the log: a successful Start since the last Start or Abort, and how much of which text was sent in this attempt. |
| `ClaimRuns.ClaimSafety` | components/esp_rainmaker/src/core/esp_rmaker_claim.c:839-847 | Claim safety: CLAIM_SUCCESSFUL is posted only if, since the last successful Start and with no Abort, the whole claim-verify text of the last accepted claim-init reply was sent fragment by fragment, and a completing piece came after which the text in the buffer is accepted. |
| `ClaimRuns.SenderProgress` | components/esp_rainmaker/src/core/esp_rmaker_claim.c:791-806 | In every reachable INIT_DONE state, whatever commands came in between: something sent, something left, offset a multiple of 200, and the buffer holds the text of which exactly payload_offset bytes were sent. |
| `ClaimSession.StartAnswers` | components/esp_rainmaker/src/core/esp_rmaker_claim.c:702-722 | Exactly how Start is answered: InvalidState without a key, Fail without a claim-init text, and otherwise Success with the whole text, which is then the text in the buffer, the rest of the buffer being kept. A Start that does not succeed changes nothing. |
| `ClaimSession.InitAnswers` | components/esp_rainmaker/src/core/esp_rmaker_claim.c:765-789 | Outside a transfer a claim-init is answered Success if and only if it is one whole piece that fits the buffer and the claim-verify text can be made; the refusals with their status, and that they keep state, offset and length. An offset other than zero is taken when its sum with the length wraps to at most the total (736). |
| `ClaimSession.PieceRefusedIff` | components/esp_rainmaker/src/core/esp_rmaker_claim.c:727-752 | A claim-verify piece in order is refused, with InvalidParam and without any change, if and only if there is none or it ends behind the total it announces; every other piece is in the buffer at its offset. |
| `ClaimSession.FeedAnswers` | components/esp_rainmaker/src/core/esp_rmaker_claim.c:839-862 | The answer, the events and the state after each of a sequence of pieces: Success unless it completes a text that is refused, which is answered InvalidParam. |
| `ClaimSession.ReplyAccepted` | components/esp_rainmaker/src/core/esp_rmaker_claim.c:832-862 | A claim-verify reply, cut in any way: every piece before the last is answered Success and posts nothing; the last one is answered Success, posts CLAIM_SUCCESSFUL and moves to VERIFY_DONE if the whole text is accepted, and otherwise is answered InvalidParam, posts CLAIM_FAILED and leaves the device waiting. |
| `ClaimSession.HonestSessionSucceeds` | components/esp_rainmaker/src/core/esp_rmaker_claim.c:702-862 | From any state with a key, an honest client gets the whole claim-init text from Start, is sent exactly the chunks of the claim-verify text in answer to its reply and its polls, and has its own contiguous claim-verify reply answered and judged as a whole. |
| `ClaimSession.AbortRestarts` | components/esp_rainmaker/src/core/esp_rmaker_claim.c:907-919 | From every state an Abort is answered Success and posts CLAIM_FAILED, and the next honest session succeeds: claiming can restart. |
| `ClaimSession.AbortForgets` | components/esp_rainmaker/src/core/esp_rmaker_claim.c:907-923 | In every command sequence, all that follows an Abort, answers, events and claim data, is as on a device that has a key and has not been claiming. |
| `Claim.ClaimData.Memset` | components/esp_rainmaker/src/core/esp_rmaker_claim.c:835 | The whole buffer is zero. |
| `Claim.ClaimData.Memcpy` | components/esp_rainmaker/src/core/esp_rmaker_claim.c:837 | The data is written at the offset, the rest of the buffer is kept. |
| `Claim.ClaimData.HandleStart` | components/esp_rainmaker/src/core/esp_rmaker_claim.c:702-722 | The Start handler on the object: new state, response and events are those of the protocol function. |
| `Claim.ClaimData.HandleInit` | components/esp_rainmaker/src/core/esp_rmaker_claim.c:756-807 | The claim-init handler likewise: a poll sends the next fragment, a reply is taken in first; nothing is posted. |
| `Claim.ClaimData.HandleInitReply` | components/esp_rainmaker/src/core/esp_rmaker_claim.c:765-789 | The reply is validated, must be whole, and is replaced in the buffer by the claim-verify text; on each refusal what was changed so far. |
| `Claim.ClaimData.NextFragment` | components/esp_rainmaker/src/core/esp_rmaker_claim.c:791-806 | At most 200 bytes from the offset are sent and the state moves to VERIFY at the end. |
| `Claim.ClaimData.HandleVerify` | components/esp_rainmaker/src/core/esp_rmaker_claim.c:811-862 | The claim-verify handler: refusal, reassembly, completion and the events. |
| `Claim.ClaimData.ReceiveFragment` | components/esp_rainmaker/src/core/esp_rmaker_claim.c:832-838 | The buffer is cleared at offset 0, the piece written, and the bookkeeping done. |
| `Claim.ClaimData.HandleAbort` | components/esp_rainmaker/src/core/esp_rmaker_claim.c:907-919 | Abort zeroes the buffer, returns to PK_GENERATED and posts CLAIM_FAILED. |
| `Claim.ClaimData.Handle` | components/esp_rainmaker/src/core/esp_rmaker_claim.c:895-923 | The dispatcher: an unknown command changes nothing and answers Fail. |
| `Newlines.EscapeLength` | components/esp_rainmaker/src/core/esp_rmaker_claim.c:105-125 | Escaping yields length plus number of newlines, at most twice the length; with its terminator it fits the csr field if and only if that is below 1024. |
| `Newlines.StripFinalOnly` | components/esp_rainmaker/src/core/esp_rmaker_claim.c:107-112 | Exactly one newline is taken off the end of a text, and nothing else. |
| `Newlines.DeformatUndoesEscape` | examples/common/rmaker_matter_controller/app_rmaker_matter_controller_api.c:98-117 | deformat_cert gives back an escaped text if and only if the text has no backslash-n pair. |
| `Newlines.UnescapeUndoesEscape` | components/esp_rainmaker/src/core/esp_rmaker_claim.c:128-142 | unescape_new_line gives back an escaped text if and only if every newline is followed by another character than a newline and a backslash stands only directly after a newline. |
| `Newlines.PlainTextSurvives` | components/esp_rainmaker/src/core/esp_rmaker_claim.c:128-142 | In particular a text without backslash, without adjacent newlines and without final newline comes back. |
| `Newlines.NoExtraSlashes` | components/esp_rainmaker/src/core/esp_rmaker_claim.c:128-142 | Unescaping an escaped text never yields it with extra backslashes in front, the case on which the exact condition turns. |
| `Newlines.EscapeNewLine` | components/esp_rainmaker/src/core/esp_rmaker_claim.c:105-126 | In the csr and payload buffers: one final newline is dropped, both buffers end up with the escaped text, the payload zero-filled behind it. |
| `Newlines.EscapeInto` | components/esp_rainmaker/src/core/esp_rmaker_claim.c:114-123 | The escaping loop writes the escaped text and its terminator into the cleared buffer. |
| `Newlines.UnescapeNewLine` | components/esp_rainmaker/src/core/esp_rmaker_claim.c:128-142 | The in-place loop leaves the unescaped text and its terminator. |
| `Newlines.UnescapeInto` | components/esp_rainmaker/src/core/esp_rmaker_claim.c:130-140 | Writing never overtakes reading, and what is written is the unescaped text. |
| `Newlines.DeformatCert` | examples/common/rmaker_matter_controller/app_rmaker_matter_controller_api.c:98-117 | A fresh buffer of length n + 1 with the text in which every backslash-n pair is a newline. |
| `GatewayProofs.JoinImages` | examples/zigbee_gateway/main/esp_app_rainmaker.c:441-458 | Every NVS image of a join is consistent, since the info keys are written before the table. |
| `GatewayProofs.DeleteImagesIff` | examples/zigbee_gateway/main/esp_app_rainmaker.c:365-377 | Every NVS image of the delete of a listed device is consistent if and only if no second slot holds its address. |
| `GatewayProofs.SecondEndpointBreaksTable` | examples/zigbee_gateway/main/esp_app_rainmaker.c:498-508 | From full agreement, joining a second endpoint of a listed address and deleting it leaves an address in the stored table whose keys are gone. |
| `GatewayProofs.JoinIsAtomic` | examples/zigbee_gateway/main/esp_app_rainmaker.c:441-458 | A crash before the last write of a join leaves the devices stored before, after it those plus the new one. |
| `GatewayProofs.DeleteIsAtomic` | examples/zigbee_gateway/main/esp_app_rainmaker.c:365-377 | A crash after any write of a delete leaves the stored devices without that address. |
| `GatewayProofs.SoundKept` | examples/zigbee_gateway/main/esp_app_rainmaker.c:365-460 | Joins and deletes with one endpoint per address keep the table sound, also when it is full. |
| `GatewayProofs.JoinAgreesIff` | examples/zigbee_gateway/main/esp_app_rainmaker.c:400-460 | A join keeps full agreement of list, slots, counter and NVS if and only if the device is listed already, or its address is new and real and a slot is free. |
| `GatewayProofs.DeleteAgrees` | examples/zigbee_gateway/main/esp_app_rainmaker.c:365-395 | A delete keeps full agreement, always. |
| `GatewayProofs.OverflowLosesCount` | examples/zigbee_gateway/main/esp_app_rainmaker.c:375-376 | With the table full, joining a new device and deleting it restores list and slots and leaves the counter at 15 with 16 slots in use; a restart makes them agree again, with the same devices. |
| `GatewayProofs.ResumedList` | examples/zigbee_gateway/main/esp_app_rainmaker.c:462-474 | The list resumed from the first n slots: their addresses, distinct, as many as are in use, each with the stored endpoint and type. |
| `GatewayProofs.RecoverAgrees` | examples/zigbee_gateway/main/esp_app_rainmaker.c:462-478 | From a well-formed partition a restart reaches full agreement with exactly the stored devices. |
| `GatewayProofs.RestartRestores` | examples/zigbee_gateway/main/esp_app_rainmaker.c:462-478 | Losing RAM and restarting restores device set, slots and counter. |
| `GatewayProofs.CrashAtomicity` | examples/zigbee_gateway/main/esp_app_rainmaker.c:365-478 | Whatever the number of writes done before a crash, the restart agrees and has the devices from before the operation or from after it. |
| `GatewayProofs.RunsStayConsistent` | examples/zigbee_gateway/main/esp_app_rainmaker.c:365-478 | Over every run of joins, deletes, crashes and restarts with one endpoint per short address, every NVS image ever written is well formed: each address of the stored table has both its keys. |
| `GatewayProofs.RunsAgree` | examples/zigbee_gateway/main/esp_app_rainmaker.c:365-478 | Over every such run in which no join exceeds 16 devices, list, slots, counter and NVS agree in the end, and so after every event. |
| `GatewayKeys.EmptyPartition` | examples/zigbee_gateway/main/esp_app_rainmaker.c:596-598 | Starting on an empty partition there are sixteen slots marked 0xfffe, no device, no key, and full agreement. |
| `GatewayKeys.Capacity` | examples/zigbee_gateway/main/esp_app_rainmaker.c:441-454 | While list and slots agree, a join finds a slot if and only if fewer than sixteen devices are listed. |
| `GatewayKeys.JoinCounts` | examples/zigbee_gateway/main/esp_app_rainmaker.c:451-455 | The counter as a byte: a join counts the device exactly if it is new and gets a slot, 255 being followed by 0. |
| `GatewayKeys.DeleteCounts` | examples/zigbee_gateway/main/esp_app_rainmaker.c:375 | A delete uncounts every listed device, 0 being preceded by 255. |
| `GatewayKeys.RestartCounts` | examples/zigbee_gateway/main/esp_app_rainmaker.c:462-474 | A restart counts the devices that it finds with both their keys. |
| `GatewayKeys.NoStrayKeys` | examples/zigbee_gateway/main/esp_app_rainmaker.c:365-460 | Over every run of joins and deletes without a crash, with one endpoint per address and also beyond the capacity, the partition holds info keys for the addresses in use and for no others. |
| `GatewayKeys.JoinCrashKeys` | examples/zigbee_gateway/main/esp_app_rainmaker.c:451-458 | Exactly which info keys a crash in a join leaves behind after each number of writes. |
| `GatewayKeys.DeleteCrashKeys` | examples/zigbee_gateway/main/esp_app_rainmaker.c:375-377 | The same for a delete, whose slot is already free after the first write. |
| `GatewayApp.Zigbee.constructor` | examples/zigbee_gateway/main/esp_app_rainmaker.c:43-48 | After a restart the list is empty, the counter zero, all slots free. |
| `GatewayApp.Zigbee.StoreDeviceInfo` | examples/zigbee_gateway/main/esp_app_rainmaker.c:55-77 | Endpoint key, then type key. |
| `GatewayApp.Zigbee.RemoveDeviceInfo` | examples/zigbee_gateway/main/esp_app_rainmaker.c:79-106 | Erases the endpoint key, then the type key. |
| `GatewayApp.Zigbee.StoreDeviceAddrs` | examples/zigbee_gateway/main/esp_app_rainmaker.c:139-157 | Writes the slots under one key. |
| `GatewayApp.Zigbee.ReadDeviceAddrs` | examples/zigbee_gateway/main/esp_app_rainmaker.c:159-176 | Reads them back; without the key the slots stay as they are. |
| `GatewayApp.Zigbee.AddEndDevice` | examples/zigbee_gateway/main/esp_app_rainmaker.c:400-460 | The device is linked at the head first; with storage the slot, the counter and the three writes follow, or ESP_ERR_NO_MEM; the whole new state in every case. |
| `GatewayApp.Zigbee.StoreDevice` | examples/zigbee_gateway/main/esp_app_rainmaker.c:441-458 | The first free slot, the counter as a byte, info before table; with no free slot nothing changes. |
| `GatewayApp.Zigbee.Search` | examples/zigbee_gateway/main/esp_app_rainmaker.c:365-395 | The walk stops at the first node with this address and endpoint and has its predecessor. |
| `GatewayApp.Zigbee.AddJoiningDevice` | examples/zigbee_gateway/main/esp_app_rainmaker.c:498-508 | A join on the heap: the list keeps its shape, and state and writes are those of the join. |
| `GatewayApp.Zigbee.DeleteDevice` | examples/zigbee_gateway/main/esp_app_rainmaker.c:347-396 | A delete on the heap likewise; without an IEEE address nothing happens. |
| `GatewayApp.Zigbee.Remove` | examples/zigbee_gateway/main/esp_app_rainmaker.c:369-391 | What is done for a listed device: slot, counter, writes, and the list. |
| `GatewayApp.Zigbee.ForgetDevice` | examples/zigbee_gateway/main/esp_app_rainmaker.c:369-377 | Slot freed, counter decreased as a byte, table written before the keys are erased. |
| `GatewayApp.Zigbee.Unlink` | examples/zigbee_gateway/main/esp_app_rainmaker.c:381-385 | The node is taken out, at the head or behind its predecessor; the rest keeps its order. |
| `GatewayApp.Zigbee.ResumeDevice` | examples/zigbee_gateway/main/esp_app_rainmaker.c:462-478 | The loop over the slots rebuilds list and counter from NVS and writes nothing. |
| `LifecycleProofs.StartOrder` | components/esp_rainmaker/src/core/esp_rmaker_core.c:331-476 | In every interleaving after one start: STARTED at most once, only after CONFIG_REPORTED, and params_mqtt_init was called in between, because the right to go on is passed on and never copied. |
| `LifecycleProofs.RunsKeepStart` | components/esp_rainmaker/src/core/esp_rmaker_core.c:331-476 | In every interleaving there is at most one holder of the right to go on, or STARTED was posted; the reason for the start order. |
| `LifecycleProofs.RunsKeepClaim` | components/esp_rainmaker/src/core/esp_rmaker_core.c:195-764 | In every interleaving from an unclaimed start: until the start task has acted, need_claim or claim_done is set, and fetched parameters are always those of stored credentials. |
| `LifecycleProofs.ClaimBeforeConnect` | components/esp_rainmaker/src/core/esp_rmaker_core.c:605-764 | A node that starts unclaimed runs MQTT init on parameters fetched after the credentials were stored before its start task connects, wherever the success event falls. |
| `LifecycleOutcomes.UpAtConnectIff` | components/esp_rainmaker/src/core/esp_rmaker_core.c:725-764 | In every run of a node that starts unclaimed, MQTT is up when it is connected if and only if the success handler has not taken it down without bringing it up again between the initialisation by the start task and the connection. |
| `LifecycleOutcomes.RunsKeepUp` | components/esp_rainmaker/src/core/esp_rmaker_core.c:195-764 | The invariant behind it, over every run: up or broken off, and that the handler is gone once it has broken off. |
| `LifecycleOutcomes.SelfClaimingConnectsUp` | components/esp_rainmaker/src/core/esp_rmaker_core.c:204-213 | With self claiming MQTT is up at every connection of every run. |
| `LifecycleOutcomes.ConnectsWhileDown` | components/esp_rainmaker/src/core/esp_rmaker_core.c:812-843 | A run from the start of an unclaimed node to a connection with MQTT taken down. |
| `LifecycleOutcomes.InitAtStartIff` | components/esp_rainmaker/src/core/esp_rmaker_core.c:331-374 | In every run params_mqtt_init was called before STARTED, and its last call there has succeeded if and only if it has not failed in the callback of the user mapping event; it has if the mapping was done when the configuration was reported. |
| `LifecycleOutcomes.RunsKeepInit` | components/esp_rainmaker/src/core/esp_rmaker_core.c:331-475 | The invariant behind it, over every run, on top of the single right to go on. |
| `LifecycleOutcomes.StartedAfterFailedInit` | components/esp_rainmaker/src/core/esp_rmaker_core.c:331-336 | For every configuration a run that posts STARTED after a failed params_mqtt_init. |
| `LifecycleOutcomes.UndisturbedStart` | components/esp_rainmaker/src/core/esp_rmaker_core.c:346-476 | For either claiming method, claimed or not, a run exists that reaches STARTED, with init, connect, CONFIG_REPORTED, params_mqtt_init and STARTED in this order; claiming is over in the end. |
| `LifecycleStates.StateTells` | components/esp_rainmaker/src/core/esp_rmaker_core.c:331-476 | Over every interleaving: the state is STARTED if and only if STARTED has been posted, CONFIG_REPORTED while the rest of the start is under way after the report, STARTING in the start task past its registration, INIT_DONE before it. |
| `LifecycleStates.RunsKeepState` | components/esp_rainmaker/src/core/esp_rmaker_core.c:331-782 | The invariant behind it, over every run. |
| `LifecycleStates.FailureExits` | components/esp_rainmaker/src/core/esp_rmaker_core.c:773-782 | Exactly which steps end the start with an error: they leave the thread idle, the state at INIT_DONE, and queue and handlers untouched, with exactly the calls made in the log; no other step leads back to INIT_DONE. |
| `LifecycleStates.ConnectedIff` | components/esp_rainmaker/src/core/esp_rmaker_core.c:226-236 | In every run mqtt_connected tells whether the last link event since the start task began (565) was a connection. |
| `LifecycleStates.DisconnectsIff` | components/esp_rainmaker/src/core/esp_rmaker_core.c:402-407 | In every run a step disconnects MQTT if and only if the report of the configuration, or what follows it, fails while the link is up. |
| `LifecycleStates.QueueOrder` | components/esp_rainmaker/src/core/esp_rmaker_core.c:466-475 | The work queue is first in, first out, one task at a time, and a task of another component leaves the start alone. |
| `LifecycleStates.GoesOnIff` | components/esp_rainmaker/src/core/esp_rmaker_core.c:370-400 | Once the start waits for the user mapping, whatever else happens in between, the event that queues the rest of the start is the reset of the mapping if none had been started and reset reporting is on, and its completion otherwise; the other event changes nothing. |
| `LifecycleStates.StartedThroughWait` | components/esp_rainmaker/src/core/esp_rmaker_core.c:370-400 | For every configuration and both results of the mapping test, a run through the wait and exactly that event to STARTED. |
| `LifecycleStates.FirstClaimEventCounts` | components/esp_rainmaker/src/core/esp_rmaker_core.c:195-222 | In every run the claim handler listens if and only if the node started unclaimed and no claim event, success or failure, has come; afterwards a success event changes nothing. |
| `LifecycleStates.ClaimHandled` | components/esp_rainmaker/src/core/esp_rmaker_core.c:201-217 | What the first success event does to flags, parameters and MQTT, for each outcome of the re-initialisation. |
| `LifecycleStates.ClaimedBeforeAsking` | components/esp_rainmaker/src/core/esp_rmaker_core.c:605-733 | A run in which the success event comes before the test for assisted claiming: the task does not wait, not even if it is on a network already, and reaches STARTED with claimed parameters. |
| `LifecycleAgent.RainMaker.constructor` | components/esp_rainmaker/src/core/esp_rmaker_core.c:984-998 | After init and start: claim handlers only for an unclaimed node, the start task first in the queue. |
| `LifecycleAgent.RainMaker.TakeTask` | components/esp_rainmaker/src/core/esp_rmaker_core.c:996 | The oldest task is taken from the queue. |
| `LifecycleAgent.RainMaker.ClaimingPart` | components/esp_rainmaker/src/core/esp_rmaker_core.c:599-715 | esp_rmaker_task up to the end of claiming, one point at a time. |
| `LifecycleAgent.RainMaker.InitPart` | components/esp_rainmaker/src/core/esp_rmaker_core.c:716-733 | MQTT init if claiming was needed, and the flags, and the way out of each. |
| `LifecycleAgent.RainMaker.ConnectingPart` | components/esp_rainmaker/src/core/esp_rmaker_core.c:734-782 | Command-response and local control, connect, and the way out of each. |
| `LifecycleAgent.RainMaker.PostConnectTask` | components/esp_rainmaker/src/core/esp_rmaker_core.c:346-407 | The continuation after MQTT is connected, one point at a time; on an error it disconnects if connected. |
| `LifecycleAgent.RainMaker.AwaitMapping` | components/esp_rainmaker/src/core/esp_rmaker_core.c:370-399 | Its branch that registers for the mapping event, or gives up. |
| `LifecycleAgent.RainMaker.GiveUpConnected` | components/esp_rainmaker/src/core/esp_rmaker_core.c:402-407 | The error exit of the continuation. |
| `LifecycleAgent.RainMaker.ParamsInitCallback` | components/esp_rainmaker/src/core/esp_rmaker_core.c:331-336 | The result of params_mqtt_init is not looked at. |
| `LifecycleAgent.RainMaker.DispatchConnected` | components/esp_rainmaker/src/core/esp_rmaker_core.c:472-475 | Sets mqtt_connected (232-233); unregisters, then queues the continuation. |
| `LifecycleAgent.RainMaker.DispatchDisconnected` | components/esp_rainmaker/src/core/esp_rmaker_core.c:234-236 | Clears mqtt_connected and nothing else. |
| `LifecycleAgent.RainMaker.DispatchUserMapping` | components/esp_rainmaker/src/core/esp_rmaker_core.c:466-471 | Unregisters for that event, then queues the callback. |
| `LifecycleAgent.RainMaker.MqttReinitWithNewParams` | components/esp_rainmaker/src/core/esp_rmaker_core.c:812-850 | Takes MQTT down, drops the parameters, fetches new ones and initialises, as far as each succeeds. |
| `LifecycleAgent.RainMaker.DispatchClaimSuccess` | components/esp_rainmaker/src/core/esp_rmaker_core.c:195-217 | need_claim to claim_done, re-initialisation for assisted claiming, unregister. |
| `ReportDelay.TimerIsArmed` | components/esp_rainmaker/src/core/esp_rmaker_connectivity.c:97-118 | In every run, an armed timer means connected, and set by the connect event that happened last. |
| `ReportDelay.ReportsAreDelayed` | components/esp_rainmaker/src/core/esp_rmaker_connectivity.c:52-106 | With a timer and a positive delay every report comes when the timer runs out, at least the delay after a connect event with no connect, disconnect or report in between. |
| `ReportDelay.OneReportPerConnection` | components/esp_rainmaker/src/core/esp_rmaker_connectivity.c:52-106 | So there is at most one report per connect event. |
| `ReportDelay.UndisturbedIsReported` | components/esp_rainmaker/src/core/esp_rmaker_connectivity.c:97-106 | Conversely an undisturbed connection is reported when its timer runs out. |
| `ReportDelay.NoReportWhileDown` | components/esp_rainmaker/src/core/esp_rmaker_connectivity.c:58-61 | From any state of the service nothing is reported while MQTT is down, except by a connection that the core has already recorded. |
| `ReportDelay.ImmediateReportIff` | components/esp_rainmaker/src/core/esp_rmaker_connectivity.c:52-118 | Without a delay, over every run: a step reports if and only if it is a connect event and the core handler ran first or the last connect or disconnect event before it was a connect as well. |
| `ReportDelay.NoImmediateReport` | components/esp_rainmaker/Kconfig.projbuild:707-717 | If handlers run in the order of registration and connects alternate with disconnects, no connection is ever reported without a delay. |
| `LastWill.TopicIsPrefix` | components/esp_rainmaker/src/core/esp_rmaker_connectivity.c:79-83 | The topic of a node, and of a group of it, in full, and that an over-long one is cut off at 127 characters. |
| `LastWill.TopicDeterminesIds` | components/esp_rainmaker/src/core/esp_rmaker_connectivity.c:79-83 | In full, the topic tells the node id, which holds no slash, and the group. |
| `LastWill.TopicDeterminesGroup` | components/esp_rainmaker/src/core/esp_rmaker_connectivity.c:79-83 | For ids of at most 32 characters two groups have the same topic if and only if they are the same. |
| `LastWill.MatchesIff` | components/esp_rainmaker/src/core/esp_rmaker_connectivity.c:150-176 | For a new id of legal length, a match is equality, null and empty being the same. |
| `LastWill.StepAgreesIff` | components/esp_rainmaker/src/core/esp_rmaker_connectivity.c:178-213 | Exactly when an update, a reconfiguration or a change of node id keeps topic and stored group in agreement, with the failing family of over-long or unallocatable ids. |
| `LastWill.RunAgrees` | components/esp_rainmaker/src/core/esp_rmaker_connectivity.c:178-244 | Over every run with ids of at most 32 characters and memory, the topic is the untruncated topic of the node id last configured for and the stored group. |
| `LastWill.UpdateTopic` | components/esp_rainmaker/src/core/esp_rmaker_connectivity.c:178-213 | After an update to a legal group the stored group is the new one; the topic is that of the new group on the present node id, or gone without memory, or unchanged if the group was the stored one already. |
| `LastWill.EnableTopic` | components/esp_rainmaker/src/core/esp_rmaker_connectivity.c:338-374 | Enabling configures the topic of the given node id and the persisted group, an over-long one being ignored; without node id or memory there is none. |
| `LastWill.ReconfigureTakesUp` | components/esp_rainmaker/src/core/esp_rmaker_connectivity.c:236-244 | After every run of operations, failed ones included, a reconfiguration sets the topic of the last node id and of the last group that could be stored; without memory it leaves no topic. |
| `LastWill.RunRemembers` | components/esp_rainmaker/src/core/esp_rmaker_connectivity.c:178-213 | Every run, whatever fails, keeps the last node id and the last group that could be stored. |
| `LastWill.RefusedGroup` | components/esp_rainmaker/src/core/esp_rmaker_connectivity.c:194-209 | A group id that is refused drops the stored one and leaves the topic. |
| `Connectivity.ConnectivityService.constructor` | components/esp_rainmaker/src/core/esp_rmaker_connectivity.c:338-374 | Enabling: an over-long persisted group id is ignored, and the last will configured. |
| `Connectivity.ConnectivityService.ReportConnected` | components/esp_rainmaker/src/core/esp_rmaker_connectivity.c:52-67 | A report only while MQTT is connected. |
| `Connectivity.ConnectivityService.DispatchConnected` | components/esp_rainmaker/src/core/esp_rmaker_connectivity.c:97-111 | The timer is restarted, or the report made at once. |
| `Connectivity.ConnectivityService.DispatchDisconnected` | components/esp_rainmaker/src/core/esp_rmaker_connectivity.c:113-118 | The timer is stopped. |
| `Connectivity.ConnectivityService.TimerExpired` | components/esp_rainmaker/src/core/esp_rmaker_connectivity.c:52-67 | The one-shot timer is spent and the report made if still connected. |
| `Connectivity.ConnectivityService.ConfigureLwt` | components/esp_rainmaker/src/core/esp_rmaker_client_data.c:247-286 | The old topic is dropped first, the new one kept if it can be allocated. |
| `Connectivity.ConnectivityService.UpdateLwt` | components/esp_rainmaker/src/core/esp_rmaker_connectivity.c:178-229 | Skip, clear, refuse or configure; exactly when it returns ESP_OK, a missing node id and the reconnection of a live connection included. |
| `Connectivity.ConnectivityService.ReconfigureLwt` | components/esp_rainmaker/src/core/esp_rmaker_connectivity.c:236-244 | Configures again for the stored group and the present node id. |
| `UserApiCalls.Generic` | examples/common/rmaker_user_api/app_rmaker_user_api.c:589-755 | Lock accounting for every call tree: on return the lock is held as often as before plus once per re-entry at the three early returns (644, 721, 743) anywhere below, so it is balanced exactly without them; terminates on every script. |
| `UserApiCalls.Authorize` | examples/common/rmaker_user_api/app_rmaker_user_api.c:636-646 | The same from the authorization check on. |
| `UserApiCalls.Exchange` | examples/common/rmaker_user_api/app_rmaker_user_api.c:660-732 | The same for the HTTP exchange, with the retry of a kept client. |
| `UserApiCalls.Answer` | examples/common/rmaker_user_api/app_rmaker_user_api.c:214-235 | The same for a reply, with login and retry when the token has expired. |
| `UserApiCalls.Login` | examples/common/rmaker_user_api/app_rmaker_user_api.c:454-509 | The same for login; success uses up part of the script. |
| `UserApiCalls.GetApiVersion` | examples/common/rmaker_user_api/app_rmaker_user_api.c:405-451 | The same for the version fetch; success means that a list of versions was found. |
| `UserApiProofs.BoundedRetry` | examples/common/rmaker_user_api/app_rmaker_user_api.c:627-722 | When no reply is an expired token and allocation succeeds, a call makes at most six HTTP opens, three without session reuse. |
| `UserApiProofs.RetriesBounded` | examples/common/rmaker_user_api/app_rmaker_user_api.c:589-755 | On every script whose received tokens can be stored, at most six opens and 22 more for every reply that says the token has expired; three and 11 without session reuse. |
| `UserApiProofs.RejectedCredentials` | examples/common/rmaker_user_api/app_rmaker_user_api.c:224-232 | No bound holds without them: a login answered n times with an expired token makes at least n opens, since it logs in again to retry itself. |
| `UserApiProofs.SixOpens` | examples/common/rmaker_user_api/app_rmaker_user_api.c:627-722 | The bound is reached: version, login and request each fail once on the kept client; the lock is left held four more times. |
| `UserApiProofs.ReusedClientFails` | examples/common/rmaker_user_api/app_rmaker_user_api.c:715-722 | A kept client that fails costs exactly a second open and one lock level. |
| `UserApiProofs.LockLeftHeldIff` | examples/common/rmaker_user_api/app_rmaker_user_api.c:636-646 | When nothing fails, the call succeeds with exactly the opens it needs and returns the reply to the last of them, and the lock is left held if and only if it had to log in. |
| `UserApiReplies.ReplyIsReceived` | examples/common/rmaker_user_api/app_rmaker_user_api.c:627-755 | On every script: a reply that is returned was received in an attempt that the call has used up, its last one unless the reply says that the token has expired; an error tells what happened in the last attempt, or that there are no credentials. |
| `UserApiReplies.RefusedIff` | examples/common/rmaker_user_api/app_rmaker_user_api.c:598-620 | Exactly which requests are refused as invalid: of no known kind, POST or PUT without payload, DELETE without query; nothing is changed. |
| `UserApiReplies.NoCredentialsIff` | examples/common/rmaker_user_api/app_rmaker_user_api.c:96-112 | A login is refused if and only if there is no base URL, or neither a password nor a refresh token; it then tries nothing. |
| `UserApiReplies.LoginBringsTokens` | examples/common/rmaker_user_api/app_rmaker_user_api.c:454-509 | On every script, a login that succeeds has received its tokens in its last attempt, with status 200, and they are in the context. |
| `UserApiReplies.SettledLogin` | examples/common/rmaker_user_api/app_rmaker_user_api.c:268-311 | A login whose version is settled, in full: opens, script, and which parts of the context are set afterwards. |
| `UserApiReplies.BuiltInOpens` | examples/common/rmaker_user_api/app_rmaker_user_api.c:405-509 | The login and the version call make one open where the version is settled and two where it is not. |
| `UserApiReplies.OtherRepliesReturned` | examples/common/rmaker_user_api/app_rmaker_user_api.c:214-235 | Every reply other than a 401 that says the token is not authorized is what the caller gets, after one open. |
| `UserApiReplies.ExpiredIsRetried` | examples/common/rmaker_user_api/app_rmaker_user_api.c:726-755 | After such a 401 the call logs in and makes the request again: the caller gets the reply to that, after three opens, and the lock stays held once more. |
| `UserApiPass.BalancedIff` | examples/common/rmaker_user_api/app_rmaker_user_api.c:589-755 | On every script, the lock is held on return as often as before if and only if a single pass over the script, without a lock and without trying anything again, goes through; and then the call is that pass. |
| `UserApiLock.CalmBalancedIff` | examples/common/rmaker_user_api/app_rmaker_user_api.c:625-754 | In closed form, if only the request itself may be told that its token expired: the lock is given back if and only if no request fails on a kept client and every login that has to be made fails. |
| `UserApiPass.SettledBalancedIff` | examples/common/rmaker_user_api/app_rmaker_user_api.c:715-744 | On every script, for a call that needs neither version nor login: if and only if it does not fail on a kept client and, if its token has expired, the login for a new one fails without trying again. |
| `UserApiPass.LoginAgrees` | examples/common/rmaker_user_api/app_rmaker_user_api.c:454-509 | On every script a login either is its single pass, with the lock as before, or leaves the lock held more often. |
| `UserApi.UserApiContext.constructor` | examples/common/rmaker_user_api/app_rmaker_user_api.c:339-364 | A configured API version counts as checked. |
| `UserApi.UserApiContext.Generic` | examples/common/rmaker_user_api/app_rmaker_user_api.c:589-634 | The method on the context equals the function on values, through the recursion. |
| `UserApi.UserApiContext.Authorize` | examples/common/rmaker_user_api/app_rmaker_user_api.c:636-646 | Likewise from the authorization check on. |
| `UserApi.UserApiContext.Exchange` | examples/common/rmaker_user_api/app_rmaker_user_api.c:660-732 | Likewise for the exchange. |
| `UserApi.UserApiContext.Answer` | examples/common/rmaker_user_api/app_rmaker_user_api.c:726-755 | Likewise for the reply: the client is kept after the nested login and before the retry. |
| `UserApi.UserApiContext.Login` | examples/common/rmaker_user_api/app_rmaker_user_api.c:454-509 | Likewise for login. |
| `UserApi.UserApiContext.ParseLogin` | examples/common/rmaker_user_api/app_rmaker_user_api.c:268-311 | Likewise for the parsing of its reply: which tokens are stored. |
| `UserApi.UserApiContext.GetApiVersion` | examples/common/rmaker_user_api/app_rmaker_user_api.c:405-451 | Likewise for the version fetch. |
| `ParamList.AddsKeepFirstOffers` | components/esp_rainmaker/src/core/esp_rmaker_device.c:139-166 | Over any sequence of additions the list is what was offered, in insertion order, without names offered before; names are unique. |
| `ParamList.NameLookup` | components/esp_rainmaker/src/core/esp_rmaker_device.c:366-379 | Lookup by name finds the first parameter ever offered under the name, the only one listed, and fails exactly when none was. |
| `ParamList.KindLookup` | components/esp_rainmaker/src/core/esp_rmaker_device.c:349-364 | Lookup by type finds the one of that type that was added earliest. |
| `DeviceParams.Device.AddParam` | components/esp_rainmaker/src/core/esp_rmaker_device.c:139-166 | On the heap: the chain stays acyclic, unshared and terminated, a fresh parameter goes to its end unless its name is taken, the counter follows as a byte. |
| `DeviceParams.Device.Append` | components/esp_rainmaker/src/core/esp_rmaker_device.c:159-166 | Linking behind the last parameter keeps the shape, sets the parent and counts in a byte. |
| `DeviceParams.Device.CountIsLengthIff` | components/esp_rainmaker/src/core/esp_rmaker_internal.h:66 | param_count is the length of the list if and only if that is below 256. |
| `DeviceParams.Device.LastUnless` | components/esp_rainmaker/src/core/esp_rmaker_device.c:147-158 | The walk ends at the last parameter, or finds the name. |
| `DeviceParams.Device.GetParamByName` | components/esp_rainmaker/src/core/esp_rmaker_device.c:366-379 | The first parameter of the chain with the name, or null. |
| `DeviceParams.Device.GetParamByType` | components/esp_rainmaker/src/core/esp_rmaker_device.c:349-364 | The first parameter of the chain with the type, or null, if the types before it are set. |
| `HexText.AcceptsIff` | examples/zigbee_gateway/main/esp_gateway_param_parser.c:45-88 | parse_hex_str accepts exactly at most two digits per byte and nothing but digits, alone or behind "0x"; a prefix that nothing follows is refused. |
| `HexText.ParseRoundTrip` | examples/zigbee_gateway/main/esp_gateway_param_parser.c:45-88 | On hex text of n bytes forward parsing returns them, reverse parsing returns them reversed, and the rest of the buffer is zero. |
| `HexText.PrefixIsSkipped` | examples/zigbee_gateway/main/esp_gateway_param_parser.c:52-56 | A prefix makes no difference. |
| `HexText.ParsersAgreeIff` | examples/common/rmaker_matter_controller/app_rmaker_matter_controller_api.c:79-93 | On texts of exactly two digits per byte the two parsers agree if and only if it is not a prefix followed by digits. |
| `HexText.AddressRoundTrip` | examples/zigbee_gateway/main/esp_gateway_param_parser.c:90-116 | The text of a 2- or 8-byte address, prefixed or not, gives its bytes reversed exactly for the kinds that were asked for. |
| `HexText.AddressAcceptsIff` | examples/zigbee_gateway/main/esp_gateway_param_parser.c:90-116 | Exactly what parse_address accepts, two prefixes included. |
| `HexText.TwoPrefixesAccepted` | examples/zigbee_gateway/main/esp_gateway_param_parser.c:99-115 | A byte after two prefixes is accepted as a short address. |
| `HexText.HexOfDenotes` | examples/zigbee_gateway/main/esp_gateway_param_parser.c:30-43 | Writing bytes as digits of either case gives hex text of these bytes. |
| `HexText.DigitReads` | examples/zigbee_gateway/main/esp_gateway_param_parser.c:30-43 | The digits of either case have their values, and no other character is a digit. |
| `HexText.OddDigit` | examples/zigbee_gateway/main/esp_gateway_param_parser.c:69-87 | A digit left over is the high half of the last byte when reading forwards and its low half when reading backwards. |
| `HexText.ParseHexStr` | examples/zigbee_gateway/main/esp_gateway_param_parser.c:45-88 | The method: result, and the buffer in every case, with the digits before the first other character. |
| `HexText.ReadDigits` | examples/zigbee_gateway/main/esp_gateway_param_parser.c:69-87 | The loop in either direction reads the digits up to the first other character into zeroed bytes. |
| `HexText.ConvertHexString` | examples/common/rmaker_matter_controller/app_rmaker_matter_controller_api.c:79-93 | The other parser, as a loop over byte positions. |
| `JsonEscape.UnslashedUndoes` | examples/zigbee_gateway/main/esp_gateway_param_parser.c:123-135 | A text in which every backslash, and any other characters, are escaped with a backslash comes back. |
| `JsonEscape.UnslashedOnly` | examples/zigbee_gateway/main/esp_gateway_param_parser.c:123-135 | Conversely every text from which s is left is s with such backslashes. |
| `JsonEscape.RemoveEscapeChar` | examples/zigbee_gateway/main/esp_gateway_param_parser.c:123-135 | The in-place loop leaves that text and its terminator. |
| `Ws2812.Translated` | examples/common/ws2812_led/led_strip_rmt_ws2812.c:78 | One call translates min(source, ceil(wanted / 8)) bytes. |
| `Ws2812.RmtAdapter` | examples/common/ws2812_led/led_strip_rmt_ws2812.c:64-94 | Eight symbols per translated byte, most significant bit first; the destination behind them is untouched. |
| `Ws2812.ResumedIsOneShot` | examples/common/ws2812_led/led_strip_rmt_ws2812.c:64-94 | Resumed calls, each for any number of symbols, concatenate to the one-shot stream of the bytes they cover. |
| `Ws2812.StreamDecodes` | examples/common/ws2812_led/led_strip_rmt_ws2812.c:79-88 | Every byte can be read back from its eight symbols, and each of these is the symbol for zero or the one for one. |
| `Ws2812.BufferHoldsLastColor` | examples/common/ws2812_led/led_strip_rmt_ws2812.c:96-128 | After any operations the buffer holds green, red and blue of each pixel as last set or cleared. |
| `Ws2812.RefreshShowsLastColor` | examples/common/ws2812_led/led_strip_rmt_ws2812.c:64-128 | So symbols 24p to 24p + 23 of a refresh decode to them. |
| `Ws2812.Strip.constructor` | examples/common/ws2812_led/led_strip_rmt_ws2812.c:137-161 | A new strip is dark. |
| `Ws2812.Strip.SetPixel` | examples/common/ws2812_led/led_strip_rmt_ws2812.c:96-109 | Three bytes in the order green, red, blue, each cut to a byte; an index past the strip is refused. |
| `Ws2812.Strip.Clear` | examples/common/ws2812_led/led_strip_rmt_ws2812.c:122-126 | All pixels off. |
| `MatterNodes.FetchedIsReversed` | examples/common/rmaker_matter_controller/app_rmaker_matter_controller_api.c:605-632 | Fetching leaves the kept nodes in reverse order of the cloud. |
| `MatterNodes.CloneOfFetched` | examples/common/rmaker_matter_controller/app_rmaker_matter_controller.c:420-442 | Double reversal: a caller gets one entry for each kept node, in the cloud order, with the Matter id of that node and its id, of which 35 characters are kept. |
| `MatterNodes.LeftOutIff` | examples/common/rmaker_matter_controller/app_rmaker_matter_controller_api.c:617-618 | A node is left out if and only if one of its ids is missing or its id starts with the own id. |
| `MatterNodes.FailedAllocation` | examples/common/rmaker_matter_controller/app_rmaker_matter_controller_api.c:619-626 | A node for which no cell can be allocated is passed over, and all others are there. |
| `MatterList.Controller.Fetch` | examples/common/rmaker_matter_controller/app_rmaker_matter_controller_api.c:605-632 | A fresh list of the kept nodes, pushed at the head; a node for which there is no memory is passed over. |
| `MatterList.Controller.Push` | examples/common/rmaker_matter_controller/app_rmaker_matter_controller_api.c:619-625 | A fresh cell in front of a list that keeps its shape. |
| `MatterList.Controller.FreeList` | examples/common/rmaker_matter_controller/app_rmaker_matter_controller.c:371-379 | Frees exactly the cells of the list, each once and while it is live. |
| `MatterList.Controller.UpdateDeviceList` | examples/common/rmaker_matter_controller/app_rmaker_matter_controller.c:351-369 | The old cells are freed and the new list takes their place; on failure the controller keeps its list and no fetched cell is left. |
| `MatterList.Controller.GetDeviceList` | examples/common/rmaker_matter_controller/app_rmaker_matter_controller.c:420-442 | A fresh clone of the list; when memory runs out the partial clone is freed and the controller list is untouched. |
| `MatterList.UpdateGetFree` | examples/common/rmaker_matter_controller/app_rmaker_matter_controller.c:351-442 | What the caller sees is one entry for each kept node for which there was memory, in the cloud order and with the ids of that node; freeing it leaves the list of the controller and no cell behind. |

## Left out

- ClaimProtocol.Step: a client that announces a total of 3072 bytes or more, or an end of fragment beyond 32 bits, is excluded by precondition, as the device relies on it.
- ClaimRuns.ClaimSafety: nothing is said about pieces of the reply before the last, since the code does not check them; `CompletionIgnoresGaps` and `GapSucceedsIff` say exactly what that means.
- LastWill.RunAgrees: over-long ids and failed allocations are excluded; `StepAgreesIff` says exactly what they do.
- Newlines.EscapeNewLine: a CSR whose escaped form does not fit the csr field is excluded, because the source copies past its end; `EscapeLength` says exactly which.
- Newlines.UnescapeNewLine: a text in which the character after the last backslash or translated newline is the terminator is excluded, because the source reads past its end.
- Newlines.UnescapeInto: the same.
- JsonEscape.RemoveEscapeChar: a text that ends in a lone backslash is excluded, because the source reads past its end.
- Connectivity.ConnectivityService.constructor: the failures of creating the service and the re-initialisation of MQTT at its end are not in it; the latter is a step of the agent.
- UserApiLock.CalmBalancedIff: tokens that expire during version and login exchanges are left to `BalancedIff`, which has no condition.
- UserApiProofs.RetriesBounded: a token that is received but cannot be stored is excluded; then a login is needed again at once.
- UserApi.UserApiContext.Answer: the kept client is present or not; its identity, and whether a nested login that fails has disposed of it, are not modelled.
- DeviceParams.Device.GetParamByType: a null type before the match is excluded, because the source compares it.
- DeviceParams.Device.AddParam: the parameter must be in no list yet, as the source relies on it.
- Key and CSR generation, signing, certificates, and the JSON and protobuf libraries: results of calls, given with each command. The self-claiming exchange over HTTP is one call that succeeds or fails.
- The event bits and the timeout by which the start task waits for assisted claiming, and the freeing of the claim data afterwards: one wait that succeeds or fails.
- The claim buffer after a claim-verify text is generated over the escaped CSR: modelled as that text followed by zeros.
- NVS failures: writes succeed, each key is atomic, and the names made from an address are distinct.
- Device creation, reporting, leave requests and display events of the Zigbee gateway.
- The network wait, time synchronisation, command-response and local control in the start task: they fail or succeed at a point that is modelled. `esp_rmaker_stop`, deinitialisation and liveness of user mapping are not modelled.
- `esp_rmaker_mqtt_init` on parameters that a handler has withdrawn is taken to fail; the MQTT glue is not part of this model.
- Statement-level interleaving inside a handler: each handler is one step.
- Renewal of the last will on a live connection: `esp_rmaker_mqtt_update_config` is not part of this model. The order in which the event loop calls handlers is a parameter.
- URLs, headers, bodies and token values of the user API, its setters and callbacks: the context records which values are present.
- Stored parameter values and the callback with them when a parameter is added; attributes, whose list is extended by the same loop; deletion of devices.
- The JSON part of `esp_zb_prase_ic_obj`; the bytes that `convert_hex_string_to_bytes` has written when it fails.
- The RMT driver, the tick computation in floating point, and strips so long that three times an index exceeds 32 bits.
- Metadata of Matter devices (one flag says whether all could be fetched), node ids as numbers, and the list mutex.
- Colour conversion in the LED driver and the console: these would add only easy facts.
