/** The claim data as the device keeps it: one object with one payload buffer, updated in place by
    the command handlers (esp_rmaker_claim.c). */
module Claim {
  import opened Basics
  import opened ClaimProtocol

  class ClaimData {
    var state: ClaimState
    const payload: array<Byte>
    var payloadOffset: nat
    var payloadLen: nat
    // Events given to esp_rmaker_post_event, oldest first.
    var posted: seq<Event>

    ghost predicate Valid()
      reads this, payload
    {
      payload.Length == MAX_PAYLOAD_SIZE && Inv(View())
    }

    ghost function View(): Data
      reads this, payload
    {
      Data(state, payload[..], payloadOffset, payloadLen)
    }

    /** Claim data with its private key in place. */
    constructor ()
      ensures Valid() && state == PkGenerated && posted == [] && fresh(payload)
    {
      state := PkGenerated;
      payload := new Byte[MAX_PAYLOAD_SIZE](_ => 0);
      payloadOffset, payloadLen := 0, 0;
      posted := [];
    }

    method Memset()
      requires payload.Length == MAX_PAYLOAD_SIZE
      modifies payload
      ensures payload[..] == Padded([])
    {
      forall i | 0 <= i < payload.Length {
        payload[i] := 0;
      }
    }

    method Memcpy(offset: nat, data: seq<Byte>)
      requires offset + |data| <= payload.Length
      modifies payload
      ensures payload[..] == Written(old(payload[..]), offset, data)
    {
      forall i | 0 <= i < |data| {
        payload[offset + i] := data[i];
      }
    }

    /** memset of the whole buffer, then memcpy to its start. */
    method Fill(data: seq<Byte>)
      requires payload.Length == MAX_PAYLOAD_SIZE && |data| <= MAX_PAYLOAD_SIZE
      modifies payload
      ensures payload[..] == Padded(data)
    {
      Memset();
      Memcpy(0, data);
      CopyIntoZeros(data);
    }

    lemma {:induction false} CopyIntoZeros(data: seq<Byte>)
      requires |data| <= MAX_PAYLOAD_SIZE
      ensures Written(Padded([]), 0, data) == Padded(data)
    {
      var z := Zeros(MAX_PAYLOAD_SIZE);
      assert Padded([]) == z && z[..0] == [];
      assert z[|data|..] == Zeros(MAX_PAYLOAD_SIZE - |data|);
    }

    method HandleStart(env: Env) returns (response: Response)
      requires Valid() && GoodEnv(env)
      modifies this, payload
      ensures View() == StartStep(old(View()), env).data && Valid()
      ensures response == StartStep(old(View()), env).response
      ensures posted == old(posted) + StartStep(old(View()), env).events
    {
      response := Response(Fail, EMPTY_BUF);
      if state.Rank() < PkGenerated.Rank() {
        return Response(InvalidState, EMPTY_BUF);
      }
      if env.initRequest.None? {
        return;
      }
      var text := env.initRequest.value;
      Memcpy(0, text + [0]);
      payloadLen := |text|;
      payloadOffset := 0;
      assert payload[..payloadLen] == text;
      response := Response(Success, PayloadBuf(0, payloadLen, payload[..payloadLen]));
      state := InitState;
      posted := posted + [ClaimStarted];
    }

    method HandleInit(body: Body, env: Env) returns (response: Response)
      requires Valid() && GoodEnv(env)
      modifies this, payload
      ensures View() == InitStep(old(View()), body, env).data && Valid()
      ensures response == InitStep(old(View()), body, env).response
      ensures posted == old(posted)
    {
      if state.Rank() < InitState.Rank() {
        return Response(InvalidState, EMPTY_BUF);
      } else if state != InitDone {
        var status := HandleInitReply(body, env);
        if status != Success {
          return Response(status, EMPTY_BUF);
        }
      }
      response := NextFragment();
    }

    /** The reply to claim-init is taken in, and the claim-verify request made from it. */
    method HandleInitReply(body: Body, env: Env) returns (status: Status)
      requires payload.Length == MAX_PAYLOAD_SIZE && GoodEnv(env)
      modifies this, payload
      ensures (status, View()) == LoadRequest(old(View()), body, env) && posted == old(posted)
    {
      status := Validate(body);
      if status != Success {
        return;
      }
      var buf := body.buf;
      if |buf.data| != buf.totallen {
        return InvalidParam;
      }
      Fill(buf.data);
      if env.verifyRequest.None? {
        return InvalidParam;
      }
      // The CSR is escaped into the cleared buffer; the request text then covers all of it.
      var text := env.verifyRequest.value;
      Fill(text);
      payloadLen := |text|;
      payloadOffset := 0;
      state := InitDone;
    }

    method NextFragment() returns (response: Response)
      requires payload.Length == MAX_PAYLOAD_SIZE && payloadOffset < payloadLen < MAX_PAYLOAD_SIZE
      modifies this`payloadOffset, this`state
      ensures View() == SendFragment(old(View())).data
      ensures response == SendFragment(old(View())).response
    {
      var left := payloadLen - payloadOffset;
      var n := if left > CLAIM_FRAGMENT_SIZE then CLAIM_FRAGMENT_SIZE else left;
      response := Response(Success, PayloadBuf(payloadOffset, payloadLen, payload[payloadOffset..payloadOffset + n]));
      payloadOffset := payloadOffset + n;
      if payloadOffset == payloadLen {
        state := Verify;
      }
    }

    method HandleVerify(body: Body, env: Env) returns (response: Response)
      requires Valid() && GoodEnv(env) && HonestClient(CmdVerify(body))
      modifies this, payload
      ensures View() == VerifyStep(old(View()), body, env).data && Valid()
      ensures response == VerifyStep(old(View()), body, env).response
      ensures posted == old(posted) + VerifyStep(old(View()), body, env).events
    {
      if state.Rank() < Verify.Rank() {
        return Response(InvalidState, EMPTY_BUF);
      }
      var valid := Validate(body);
      if valid != Success {
        return Response(valid, EMPTY_BUF);
      }
      ReceiveFragment(body.buf);
      if Completes(body.buf) {
        if env.accepts(TextOf(payload[..])) {
          state := VerifyDone;
          posted := posted + [ClaimSuccessful];
        } else {
          posted := posted + [ClaimFailed];
          return Response(InvalidParam, EMPTY_BUF);
        }
      }
      response := Response(Success, EMPTY_BUF);
    }

    method ReceiveFragment(buf: PayloadBuf)
      requires payload.Length == MAX_PAYLOAD_SIZE && buf.offset + |buf.data| <= MAX_PAYLOAD_SIZE
      modifies this`payloadOffset, this`payloadLen, payload
      ensures View() == Receive(old(View()), buf)
    {
      if buf.offset == 0 {
        Memset();
        payloadOffset := 0;
        payloadLen := 0;
      }
      payloadOffset := buf.offset;
      Memcpy(payloadOffset, buf.data);
      payloadLen := Wrap32(payloadLen + |buf.data|);
    }

    method HandleAbort() returns (response: Response)
      requires Valid()
      modifies this, payload
      ensures View() == AbortStep(old(View())).data && Valid()
      ensures response == AbortStep(old(View())).response
      ensures posted == old(posted) + AbortStep(old(View())).events
    {
      Memset();
      payloadLen := 0;
      payloadOffset := 0;
      state := PkGenerated;
      posted := posted + [ClaimFailed];
      response := Response(Success, EMPTY_BUF);
    }

    /** esp_rmaker_claiming_handler. */
    method Handle(cmd: Command, env: Env) returns (response: Response)
      requires Valid() && GoodEnv(env) && HonestClient(cmd)
      modifies this, payload
      ensures View() == Step(old(View()), cmd, env).data && Valid()
      ensures response == Step(old(View()), cmd, env).response
      ensures posted == old(posted) + Step(old(View()), cmd, env).events
    {
      match cmd
      case CmdStart => response := HandleStart(env);
      case CmdInit(body) => response := HandleInit(body, env);
      case CmdVerify(body) => response := HandleVerify(body, env);
      case CmdAbort => response := HandleAbort();
      case CmdUnknown => response := Response(Fail, EMPTY_BUF);
    }
  }
}
