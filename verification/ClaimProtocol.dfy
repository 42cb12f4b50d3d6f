/** Assisted claiming, as a state machine on values: what one command does to the claim data
    (esp_rmaker_claim.c, esp_rmaker_claim.h). The class in Claim.dfy is proved against it, and
    ClaimRuns.dfy and ClaimTransfer.dfy prove the protocol properties. */
module ClaimProtocol {
  import opened Basics

  const MAX_PAYLOAD_SIZE := 3072
  const CLAIM_FRAGMENT_SIZE := 200

  type UInt32 = x: int | 0 <= x < 0x1_0000_0000

  /** Sums of size_t and uint32_t values are taken modulo 2^32. */
  function Wrap32(n: nat): (r: nat)
    ensures 0 <= n < 0x1_0000_0000 ==> r == n
  {
    n % 0x1_0000_0000
  }

  // Unready is the zero left by calloc; the others are the values of esp_rmaker_claim_state_t.
  datatype ClaimState = Unready | PkGenerated | InitState | InitDone | CsrGenerated | Verify | VerifyDone {
    function Rank(): nat {
      match this
      case Unready => 0
      case PkGenerated => 1
      case InitState => 2
      case InitDone => 3
      case CsrGenerated => 4
      case Verify => 5
      case VerifyDone => 6
    }
  }

  datatype Status = Success | Fail | InvalidParam | InvalidState | NoMemory
  datatype Event = ClaimStarted | ClaimSuccessful | ClaimFailed
  datatype PayloadBuf = PayloadBuf(offset: UInt32, totallen: UInt32, data: seq<Byte>)

  // NoPayload: another payload case is set. NullPayload: the case is right, the payload is NULL.
  datatype Body = NoPayload | NullPayload | Fragment(buf: PayloadBuf)
  datatype Command = CmdStart | CmdInit(body: Body) | CmdVerify(body: Body) | CmdAbort | CmdUnknown

  /** What the outside answers while one command is handled: the claim-init text (None: the MAC
      address cannot be read), the claim-verify text built from an accepted claim-init reply
      (None: the reply is malformed or no CSR could be made), and for which claim-verify reply
      texts in the buffer the parser finds a certificate that can be stored. */
  datatype Env = Env(initRequest: Option<seq<Byte>>, verifyRequest: Option<seq<Byte>>, accepts: seq<Byte> -> bool)

  ghost predicate IsText(s: seq<Byte>) { 0 < |s| < MAX_PAYLOAD_SIZE }

  ghost predicate GoodEnv(env: Env) {
    && (env.initRequest.Some? ==> IsText(env.initRequest.value))
    && (env.verifyRequest.Some? ==> IsText(env.verifyRequest.value))
  }

  /** What the device asks of a client that sends claim-verify fragments: a total below the buffer
      size, and an end of fragment that a 32-bit sum can hold. */
  predicate HonestPiece(b: PayloadBuf) {
    b.totallen < MAX_PAYLOAD_SIZE && b.offset + |b.data| < 0x1_0000_0000
  }

  predicate HonestClient(cmd: Command) { cmd.CmdVerify? && cmd.body.Fragment? ==> HonestPiece(cmd.body.buf) }

  /** The claim data: state, payload buffer, payload_offset, payload_len. */
  datatype Data = Data(state: ClaimState, payload: seq<Byte>, offset: nat, len: nat)

  datatype Response = Response(status: Status, buf: PayloadBuf)
  datatype Outcome = Outcome(data: Data, response: Response, events: seq<Event>)

  const EMPTY_BUF := PayloadBuf(0, 0, [])

  function Zeros(n: nat): (z: seq<Byte>)
    ensures |z| == n && forall i :: 0 <= i < n ==> z[i] == 0
  {
    seq(n, _ => 0)
  }

  /** The buffer after memset to zero and writing data at its start. */
  function Padded(data: seq<Byte>): (p: seq<Byte>)
    requires |data| <= MAX_PAYLOAD_SIZE
    ensures |p| == MAX_PAYLOAD_SIZE && p[..|data|] == data
  {
    data + Zeros(MAX_PAYLOAD_SIZE - |data|)
  }

  /** memcpy of data into the buffer at offset. */
  function Written(payload: seq<Byte>, offset: nat, data: seq<Byte>): (p: seq<Byte>)
    requires offset + |data| <= |payload|
    ensures |p| == |payload|
  {
    payload[..offset] + data + payload[offset + |data|..]
  }

  /** The text in the buffer, as strlen sees it: what precedes the first zero. */
  function TextOf(payload: seq<Byte>): seq<Byte> {
    if payload == [] || payload[0] == 0 then [] else [payload[0]] + TextOf(payload[1..])
  }

  // ---- What holds of the claim data between two commands ----

  ghost predicate Inv(d: Data) {
    && |d.payload| == MAX_PAYLOAD_SIZE
    && d.state != CsrGenerated
    && (d.state == InitDone ==>
          0 < d.offset < d.len < MAX_PAYLOAD_SIZE && d.offset % CLAIM_FRAGMENT_SIZE == 0)
  }

  /** Claim-verify is in order. */
  predicate AwaitsReply(d: Data) { d.state.Verify? || d.state.VerifyDone? }

  // ---- The handlers ----

  function Reject(d: Data, status: Status): Outcome {
    Outcome(d, Response(status, EMPTY_BUF), [])
  }

  function StartStep(d: Data, env: Env): (out: Outcome)
    requires |d.payload| == MAX_PAYLOAD_SIZE && GoodEnv(env)
    ensures Inv(d) ==> Inv(out.data)
  {
    if d.state.Rank() < PkGenerated.Rank() then Reject(d, InvalidState)
    else if env.initRequest.None? then Reject(d, Fail)
    else
      var text := env.initRequest.value;
      Outcome(Data(InitState, Written(d.payload, 0, text + [0]), 0, |text|),
              Response(Success, PayloadBuf(0, |text|, text)), [ClaimStarted])
  }

  /** esp_rmaker_assisted_claim_validate_data: Success, or the status of the refusal. */
  function Validate(body: Body): Status {
    match body
    case NoPayload => InvalidParam
    case NullPayload => InvalidParam
    case Fragment(buf) =>
      if Wrap32(|buf.data| + buf.offset) > buf.totallen then InvalidParam
      else if |buf.data| >= MAX_PAYLOAD_SIZE then NoMemory
      else Success
  }

  /** The common tail of the claim-init handler: the next fragment of the claim-verify request. */
  function SendFragment(d: Data): Outcome
    requires |d.payload| == MAX_PAYLOAD_SIZE && d.offset < d.len < MAX_PAYLOAD_SIZE
  {
    var n := if d.len - d.offset > CLAIM_FRAGMENT_SIZE then CLAIM_FRAGMENT_SIZE else d.len - d.offset;
    var buf := PayloadBuf(d.offset, d.len, d.payload[d.offset..d.offset + n]);
    var next := d.(offset := d.offset + n);
    Outcome(if next.offset == next.len then next.(state := Verify) else next, Response(Success, buf), [])
  }

  /** A claim-init reply outside a transfer: the status, and the claim data with the claim-verify
      request in the buffer if it is Success. */
  function LoadRequest(d: Data, body: Body, env: Env): (Status, Data)
    requires |d.payload| == MAX_PAYLOAD_SIZE && GoodEnv(env)
  {
    if Validate(body) != Success then (Validate(body), d)
    else if |body.buf.data| != body.buf.totallen then (InvalidParam, d)
    else if env.verifyRequest.None? then (InvalidParam, d.(payload := Padded(body.buf.data)))
    else (Success, Data(InitDone, Padded(env.verifyRequest.value), 0, |env.verifyRequest.value|))
  }

  function InitStep(d: Data, body: Body, env: Env): (out: Outcome)
    requires Inv(d) && GoodEnv(env)
    ensures Inv(out.data)
  {
    if d.state.Rank() < InitState.Rank() then Reject(d, InvalidState)
    else if d.state == InitDone then SendFragment(d)
    else
      var (status, next) := LoadRequest(d, body, env);
      if status != Success then Reject(next, status) else SendFragment(next)
  }

  predicate Completes(buf: PayloadBuf) {
    Wrap32(buf.offset + |buf.data|) == buf.totallen
  }

  /** memset when the fragment is the first one, then memcpy and the bookkeeping. */
  function Receive(d: Data, buf: PayloadBuf): Data
    requires |d.payload| == MAX_PAYLOAD_SIZE && buf.offset + |buf.data| <= MAX_PAYLOAD_SIZE
  {
    var cleared := if buf.offset == 0 then Data(d.state, Padded([]), 0, 0) else d;
    cleared.(payload := Written(cleared.payload, buf.offset, buf.data),
             offset := buf.offset,
             len := Wrap32(cleared.len + |buf.data|))
  }

  function VerifyStep(d: Data, body: Body, env: Env): (out: Outcome)
    requires |d.payload| == MAX_PAYLOAD_SIZE && (body.Fragment? ==> HonestPiece(body.buf))
    ensures Inv(d) ==> Inv(out.data)
  {
    if d.state.Rank() < Verify.Rank() then Reject(d, InvalidState)
    else if Validate(body) != Success then Reject(d, Validate(body))
    else
      var received := Receive(d, body.buf);
      if !Completes(body.buf) then Outcome(received, Response(Success, EMPTY_BUF), [])
      else if env.accepts(TextOf(received.payload)) then
        Outcome(received.(state := VerifyDone), Response(Success, EMPTY_BUF), [ClaimSuccessful])
      else Outcome(received, Response(InvalidParam, EMPTY_BUF), [ClaimFailed])
  }

  function AbortStep(d: Data): Outcome {
    Outcome(Data(PkGenerated, Padded([]), 0, 0), Response(Success, EMPTY_BUF), [ClaimFailed])
  }

  /** esp_rmaker_claiming_handler on one decoded command. Every command keeps the invariant, so in
      INIT_DONE there is always something left to send, at a multiple of the fragment size. */
  function Step(d: Data, cmd: Command, env: Env): (out: Outcome)
    requires Inv(d) && GoodEnv(env) && HonestClient(cmd)
    ensures Inv(out.data)
  {
    match cmd
    case CmdStart => StartStep(d, env)
    case CmdInit(body) => InitStep(d, body, env)
    case CmdVerify(body) => VerifyStep(d, body, env)
    case CmdAbort => AbortStep(d)
    case CmdUnknown => Reject(d, Fail)
  }

  // ---- One-step properties ----

  /** Exactly which commands are refused as out of order, and that a refusal changes nothing: in
      particular a claim-verify sent while fragments are outstanding leaves buffer and offsets. */
  lemma {:induction false} OutOfOrder(d: Data, cmd: Command, env: Env)
    requires Inv(d) && GoodEnv(env) && HonestClient(cmd)
    ensures Step(d, cmd, env).response.status == InvalidState <==>
            || (cmd.CmdStart? && d.state == Unready)
            || (cmd.CmdInit? && d.state.Rank() < InitState.Rank())
            || (cmd.CmdVerify? && !AwaitsReply(d))
    ensures Step(d, cmd, env).response.status == InvalidState ==>
            Step(d, cmd, env).data == d && Step(d, cmd, env).events == []
  {
  }

  /** The events of a claim-verify command. */
  lemma {:induction false} VerifyEvents(d: Data, body: Body, env: Env)
    requires Inv(d) && GoodEnv(env) && (body.Fragment? ==> HonestPiece(body.buf))
    ensures var out := VerifyStep(d, body, env);
            var completes := AwaitsReply(d) && body.Fragment? && Completes(body.buf);
            && (completes && env.accepts(TextOf(out.data.payload)) ==> out.events == [ClaimSuccessful])
            && (completes && !env.accepts(TextOf(out.data.payload)) ==> out.events == [ClaimFailed])
            && (!completes ==> out.events == [])
  {
  }

  /** Each event is posted by exactly one kind of command. */
  lemma {:induction false} SuccessfulIff(d: Data, cmd: Command, env: Env)
    requires Inv(d) && GoodEnv(env) && HonestClient(cmd)
    ensures ClaimSuccessful in Step(d, cmd, env).events <==>
            && cmd.CmdVerify? && AwaitsReply(d)
            && cmd.body.Fragment? && Completes(cmd.body.buf)
            && env.accepts(TextOf(Step(d, cmd, env).data.payload))
  {
    if cmd.CmdVerify? {
      assert Step(d, cmd, env) == VerifyStep(d, cmd.body, env);
      VerifyEvents(d, cmd.body, env);
    }
  }

  lemma {:induction false} FailedIff(d: Data, cmd: Command, env: Env)
    requires Inv(d) && GoodEnv(env) && HonestClient(cmd)
    ensures ClaimFailed in Step(d, cmd, env).events <==>
            || cmd.CmdAbort?
            || (cmd.CmdVerify? && AwaitsReply(d) && cmd.body.Fragment? && Completes(cmd.body.buf)
                && !env.accepts(TextOf(Step(d, cmd, env).data.payload)))
  {
    if cmd.CmdVerify? {
      assert Step(d, cmd, env) == VerifyStep(d, cmd.body, env);
      VerifyEvents(d, cmd.body, env);
    } else if cmd.CmdAbort? {
      assert Step(d, cmd, env).events == [ClaimFailed];
    }
  }
}
