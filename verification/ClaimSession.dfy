/** Whole claiming sessions: what a client that follows the protocol is answered from Start to the last
    piece of its claim-verify reply, and that Abort makes room for the next session. */
module ClaimSession {
  import opened Basics
  import opened ClaimProtocol
  import opened ClaimTransfer
  import opened ClaimRuns

  // ---- What one command answers ----

  /** Start is refused without a private key, fails without a claim-init text, and otherwise hands that
      text out and leaves it as the text in the buffer. */
  lemma {:induction false} StartAnswers(d: Data, env: Env)
    requires Inv(d) && GoodEnv(env)
    ensures var out := Step(d, CmdStart, env);
            && (out.response.status == Success <==> d.state != Unready && env.initRequest.Some?)
            && (out.response.status == Fail <==> d.state != Unready && env.initRequest.None?)
            && (out.response.status != Success ==> out.data == d && out.events == [] && out.response.buf == EMPTY_BUF)
            && (out.response.status == Success ==>
                  && out.response.buf == PayloadBuf(0, |env.initRequest.value|, env.initRequest.value)
                  && TextOf(out.data.payload) == TextOf(env.initRequest.value)
                  && (forall i :: |env.initRequest.value| < i < MAX_PAYLOAD_SIZE ==>
                        out.data.payload[i] == d.payload[i])
                  && out.data.state == InitState && out.data.offset == 0 && out.data.len == |env.initRequest.value|
                  && out.events == [ClaimStarted])
  {
    if d.state != Unready && env.initRequest.Some? {
      var text := env.initRequest.value;
      var p := StartStep(d, env).data.payload;
      assert p == text + p[|text|..] && p[|text|] == 0;
      TextStops(text, p[|text|..]);
    }
  }

  /** Exactly which claim-init replies are accepted outside a transfer: one whole piece that fits the
      buffer. Its offset need not be zero, since the sum that is compared with the total wraps. */
  predicate WholeReply(body: Body) {
    && body.Fragment? && |body.buf.data| == body.buf.totallen < MAX_PAYLOAD_SIZE
    && (body.buf.offset == 0 || body.buf.offset + |body.buf.data| >= 0x1_0000_0000)
  }

  lemma {:induction false} WholeReplyIff(body: Body)
    ensures WholeReply(body) <==> Validate(body) == Success && |body.buf.data| == body.buf.totallen
  {
    if body.Fragment? && |body.buf.data| < MAX_PAYLOAD_SIZE {
      var sum := body.buf.offset + |body.buf.data|;
      if sum >= 0x1_0000_0000 {
        assert Wrap32(sum) == sum - 0x1_0000_0000;
      }
    }
  }

  lemma {:induction false} InitAnswers(d: Data, body: Body, env: Env)
    requires Inv(d) && GoodEnv(env) && d.state.Rank() >= InitState.Rank() && d.state != InitDone
    ensures var out := Step(d, CmdInit(body), env);
            && (out.response.status == Success <==> WholeReply(body) && env.verifyRequest.Some?)
            && (out.response.status == NoMemory <==>
                  body.Fragment? && |body.buf.data| >= MAX_PAYLOAD_SIZE
                  && Wrap32(body.buf.offset + |body.buf.data|) <= body.buf.totallen)
            && out.response.status in {Success, InvalidParam, NoMemory} && out.events == []
            && (out.response.status != Success ==>
                  && out.data.state == d.state && out.data.offset == d.offset && out.data.len == d.len
                  && out.response.buf == EMPTY_BUF
                  && out.data.payload == if WholeReply(body) then Padded(body.buf.data) else d.payload)
  {
    WholeReplyIff(body);
    var (status, next) := LoadRequest(d, body, env);
    assert Step(d, CmdInit(body), env) == if status != Success then Reject(next, status) else SendFragment(next);
  }

  lemma {:induction false} VerifyAnswers(d: Data, b: PayloadBuf, env: Env)
    requires Inv(d) && AwaitsReply(d) && GoodEnv(env) && Within(b)
    ensures var out := VerifyStep(d, Fragment(b), env);
            var refused := b.offset + |b.data| == b.totallen && !env.accepts(TextOf(out.data.payload));
            && out.response == Response(if refused then InvalidParam else Success, EMPTY_BUF)
            && out.data.state == if ClaimSuccessful in out.events then VerifyDone else d.state
  {
    assert HonestPiece(b) && Validate(Fragment(b)) == Success;
  }

  lemma {:induction false} WrittenAt(payload: seq<Byte>, offset: nat, data: seq<Byte>)
    requires offset + |data| <= |payload|
    ensures Written(payload, offset, data)[offset..offset + |data|] == data
  {
  }

  /** Exactly which claim-verify pieces are refused: none, or one that ends behind the total it announces.
      A refused piece leaves buffer, offsets and state alone and posts nothing; any other is in the buffer
      at its offset. */
  lemma {:induction false} PieceRefusedIff(d: Data, body: Body, env: Env)
    requires Inv(d) && AwaitsReply(d) && GoodEnv(env) && HonestClient(CmdVerify(body))
    ensures var out := VerifyStep(d, body, env);
            var refused := !body.Fragment? || body.buf.offset + |body.buf.data| > body.buf.totallen;
            && (refused ==> out == Outcome(d, Response(InvalidParam, EMPTY_BUF), []))
            && (!refused ==>
                  && out.data.offset == body.buf.offset
                  && out.data.payload[body.buf.offset..body.buf.offset + |body.buf.data|] == body.buf.data)
  {
    if body.Fragment? && body.buf.offset + |body.buf.data| <= body.buf.totallen {
      var cleared := if body.buf.offset == 0 then Padded([]) else d.payload;
      WrittenAt(cleared, body.buf.offset, body.buf.data);
      assert VerifyStep(d, body, env).data.payload == Written(cleared, body.buf.offset, body.buf.data);
    }
  }

  /** A message of no known kind fails and changes nothing. */
  lemma {:induction false} UnknownAnswers(d: Data, env: Env)
    requires Inv(d) && GoodEnv(env)
    ensures Step(d, CmdUnknown, env) == Outcome(d, Response(Fail, PayloadBuf(0, 0, [])), [])
  {
  }

  // ---- A claim-verify reply from its first piece to its last ----

  /** How the last piece is answered: whether its text is accepted decides everything. */
  predicate Judged(last: Outcome, accepted: bool) {
    && last.response == Response(if accepted then Success else InvalidParam, EMPTY_BUF)
    && last.events == [if accepted then ClaimSuccessful else ClaimFailed]
    && AwaitsReply(last.data) && (accepted ==> last.data.state == VerifyDone)
  }

  /** How the pieces of a reply are answered. */
  ghost predicate Answered(outs: seq<Outcome>, envs: seq<Env>, reply: seq<Byte>) {
    && |outs| == |envs| > 0 && Holds(outs[|outs| - 1].data, reply)
    && (forall i :: 0 <= i < |outs| - 1 ==>
          outs[i].response == Response(Success, EMPTY_BUF) && outs[i].events == [])
    && Judged(outs[|outs| - 1], envs[|outs| - 1].accepts(TextOf(reply)))
  }

  /** One piece, completely: its answer, what it posts, and the state. */
  ghost predicate AnsweredAs(out: Outcome, b: PayloadBuf, env: Env) {
    var completes := b.offset + |b.data| == b.totallen;
    var accepted := env.accepts(TextOf(out.data.payload));
    && AwaitsReply(out.data) && (completes && accepted ==> out.data.state == VerifyDone)
    && out.response == Response(if completes && !accepted then InvalidParam else Success, EMPTY_BUF)
    && out.events == (if !completes then [] else if accepted then [ClaimSuccessful] else [ClaimFailed])
  }

  lemma {:induction false} PieceAnswer(d: Data, b: PayloadBuf, env: Env)
    requires Inv(d) && AwaitsReply(d) && GoodEnv(env) && Within(b)
    ensures HonestPiece(b) && AnsweredAs(VerifyStep(d, Fragment(b), env), b, env)
  {
    PieceCounted(d, b, env);
    VerifyEvents(d, Fragment(b), env);
    VerifyAnswers(d, b, env);
  }

  lemma {:induction false} FeedAnswers(d: Data, bufs: seq<PayloadBuf>, envs: seq<Env>, i: nat)
    requires Inv(d) && AwaitsReply(d) && i < |bufs| == |envs|
    requires forall j :: 0 <= j < |bufs| ==> GoodEnv(envs[j]) && HonestPiece(bufs[j])
    requires forall j :: 0 <= j < |bufs| ==> Within(bufs[j])
    ensures AnsweredAs(Feed(d, bufs, envs)[i], bufs[i], envs[i])
    decreases |bufs|
  {
    var first := VerifyStep(d, Fragment(bufs[0]), envs[0]);
    PieceAnswer(d, bufs[0], envs[0]);
    if i > 0 {
      var bufs', envs' := bufs[1..], envs[1..];
      assert bufs'[i - 1] == bufs[i] && envs'[i - 1] == envs[i];
      FeedAnswers(first.data, bufs', envs', i - 1);
      assert Feed(d, bufs, envs)[i] == Feed(first.data, bufs', envs')[i - 1];
    }
  }

  lemma {:induction false} InnerAnswer(d: Data, bufs: seq<PayloadBuf>, envs: seq<Env>, i: nat)
    requires Inv(d) && AwaitsReply(d) && i < |bufs| - 1 && |bufs| == |envs|
    requires forall j :: 0 <= j < |bufs| ==> GoodEnv(envs[j]) && HonestPiece(bufs[j])
    requires forall j :: 0 <= j < |bufs| ==> Within(bufs[j])
    requires !Completes(bufs[i])
    ensures Feed(d, bufs, envs)[i].response == Response(Success, EMPTY_BUF) && Feed(d, bufs, envs)[i].events == []
  {
    FeedAnswers(d, bufs, envs, i);
  }

  lemma {:induction false} LastAnswer(d: Data, bufs: seq<PayloadBuf>, envs: seq<Env>, reply: seq<Byte>)
    requires Inv(d) && AwaitsReply(d) && |bufs| == |envs| > 0
    requires forall j :: 0 <= j < |bufs| ==> GoodEnv(envs[j]) && HonestPiece(bufs[j])
    requires forall j :: 0 <= j < |bufs| ==> Within(bufs[j])
    requires Completes(bufs[|bufs| - 1]) && Holds(Feed(d, bufs, envs)[|bufs| - 1].data, reply)
    ensures Judged(Feed(d, bufs, envs)[|bufs| - 1], envs[|bufs| - 1].accepts(TextOf(reply)))
  {
    FeedAnswers(d, bufs, envs, |bufs| - 1);
    TextOfPadded(reply);
  }

  /** A reply that is cut into pieces in any way is answered Success piece by piece, except that a last
      piece whose text is refused is answered InvalidParam; its end posts success or failure. */
  lemma {:induction false} ReplyAccepted(d: Data, bufs: seq<PayloadBuf>, envs: seq<Env>)
    requires Inv(d) && AwaitsReply(d)
    requires Contiguous(bufs, 0, |Concat(bufs)|) && IsText(Concat(bufs))
    requires |envs| == |bufs| > 0 && forall i :: 0 <= i < |envs| ==> GoodEnv(envs[i])
    ensures forall i :: 0 <= i < |bufs| ==> HonestPiece(bufs[i])
    ensures Answered(Feed(d, bufs, envs), envs, Concat(bufs))
  {
    var total := |Concat(bufs)|;
    ContiguousHonest(bufs, 0, total);
    ContiguousWithin(bufs, 0, total);
    OnlyLastCompletes(bufs, 0, total);
    FeedReassembles(d, [], bufs, envs, total);
    EmptyBefore(Concat(bufs));
    LastAnswer(d, bufs, envs, Concat(bufs));
    forall i | 0 <= i < |bufs| - 1
      ensures Feed(d, bufs, envs)[i].response == Response(Success, EMPTY_BUF) && Feed(d, bufs, envs)[i].events == []
    {
      InnerAnswer(d, bufs, envs, i);
    }
  }

  lemma {:induction false} EmptyBefore(s: seq<Byte>)
    ensures [] + s == s
  {
  }

  lemma {:induction false} ContiguousWithin(bufs: seq<PayloadBuf>, offset: nat, total: nat)
    requires Contiguous(bufs, offset, total) && total < MAX_PAYLOAD_SIZE
    ensures forall i :: 0 <= i < |bufs| ==> Within(bufs[i])
  {
    if bufs == [] {
    } else {
      ContiguousWithin(bufs[1..], offset + |bufs[0].data|, total);
      assert forall i :: 0 < i < |bufs| ==> bufs[i] == bufs[1..][i - 1];
    }
  }

  // ---- Sessions ----

  /** What an honest client brings: its claim-init reply, the polls that follow, and its claim-verify
      reply in contiguous pieces, with what the outside answers while each is handled. */
  datatype Client = Client(start: Env, initReply: seq<Byte>, init: Env, polls: seq<Again>,
                           bufs: seq<PayloadBuf>, envs: seq<Env>)

  ghost predicate Honest(c: Client) {
    && GoodEnv(c.start) && c.start.initRequest.Some?
    && |c.initReply| < MAX_PAYLOAD_SIZE && GoodEnv(c.init) && c.init.verifyRequest.Some?
    && GoodPolls(c.polls) && |c.polls| + 1 >= CeilDiv(|c.init.verifyRequest.value|)
    && Contiguous(c.bufs, 0, |Concat(c.bufs)|) && IsText(Concat(c.bufs))
    && |c.envs| == |c.bufs| > 0 && forall i :: 0 <= i < |c.envs| ==> GoodEnv(c.envs[i])
  }

  function WholeBody(reply: seq<Byte>): Body
    requires |reply| < MAX_PAYLOAD_SIZE
  {
    Fragment(PayloadBuf(0, |reply|, reply))
  }

  /** A session that succeeds: Start hands out the whole claim-init text, the claim-init reply and the
      polls are answered with the chunks of the claim-verify text, and the reply to that is answered
      and judged as a whole. */
  ghost predicate SessionSucceeds(d: Data, c: Client)
    requires Inv(d) && Honest(c)
  {
    var started := Step(d, CmdStart, c.start);
    var reply := WholeBody(c.initReply);
    var waiting := Sent(started.data, reply, c.init, c.polls);
    && started.response == Response(Success, PayloadBuf(0, |c.start.initRequest.value|, c.start.initRequest.value))
    && started.events == [ClaimStarted]
    && AcceptsInit(started.data, reply, c.init, c.polls)
    && Emitted(started.data, reply, c.init, c.polls) == Chunks(c.init.verifyRequest.value, 0)
    && AwaitsReply(waiting) && (forall i :: 0 <= i < |c.bufs| ==> HonestPiece(c.bufs[i]))
    && Answered(Feed(waiting, c.bufs, c.envs), c.envs, Concat(c.bufs))
  }

  /** Claiming succeeds with an honest client, from every state in which there is a private key. */
  lemma {:induction false} HonestSessionSucceeds(d: Data, c: Client)
    requires Inv(d) && d.state != Unready && Honest(c)
    ensures SessionSucceeds(d, c)
  {
    StartAnswers(d, c.start);
    var started := StartStep(d, c.start).data;
    var reply := WholeBody(c.initReply);
    assert InitStep(started, reply, c.init).response.status == Success by {
      InitAnswers(started, reply, c.init);
    }
    AcceptedInitSendsAll(started, reply, c.init, c.polls);
    ReplyAccepted(Sent(started, reply, c.init, c.polls), c.bufs, c.envs);
  }

  // ---- Abort ----

  /** The claim data of a device whose private key is in place and that has not been claiming. */
  function NotClaiming(): (d: Data)
    ensures Inv(d)
  {
    Data(PkGenerated, Zeros(MAX_PAYLOAD_SIZE), 0, 0)
  }

  /** From every state an Abort is acknowledged, and claiming can start again: the next honest session
      succeeds whatever was going on before. */
  lemma {:induction false} AbortRestarts(d: Data, env: Env, c: Client)
    requires Inv(d) && GoodEnv(env) && Honest(c)
    ensures var out := Step(d, CmdAbort, env);
            && out.response == Response(Success, EMPTY_BUF) && out.events == [ClaimFailed]
            && SessionSucceeds(out.data, c)
  {
    var out := Step(d, CmdAbort, env);
    assert out.data.state == PkGenerated;
    HonestSessionSucceeds(out.data, c);
  }

  ghost function Then(first: Run, second: Run): Run {
    Run(second.data, first.log + second.log)
  }

  lemma {:induction false} ThenAfter(first: Run, second: Run, x: Input)
    requires Inv(second.data) && GoodEnv(x.env) && HonestClient(x.cmd)
    ensures After(Then(first, second), x) == Then(first, After(second, x))
  {
  }

  lemma {:induction false} SplitInputs(before: seq<Input>, after: seq<Input>)
    requires after != []
    ensures var all := before + after;
            all[..|all| - 1] == before + after[..|after| - 1] && all[|all| - 1] == after[|after| - 1]
  {
  }

  lemma {:induction false} ExecuteLast(d: Data, inputs: seq<Input>)
    requires Inv(d) && GoodInputs(inputs) && inputs != []
    ensures Execute(d, inputs) == After(Execute(d, inputs[..|inputs| - 1]), inputs[|inputs| - 1])
  {
  }

  lemma {:induction false} ExecuteAfter(d: Data, before: seq<Input>, after: seq<Input>)
    requires Inv(d) && GoodInputs(before) && GoodInputs(after) && GoodInputs(before + after)
    ensures Execute(d, before + after) == Then(Execute(d, before), Execute(Execute(d, before).data, after))
    decreases |after|
  {
    var middle := Execute(d, before).data;
    if after == [] {
      assert before + after == before;
    } else {
      var n := |after| - 1;
      SplitInputs(before, after);
      ExecuteAfter(d, before, after[..n]);
      ExecuteLast(d, before + after);
      ExecuteLast(middle, after);
      ThenAfter(Execute(d, before), Execute(middle, after[..n]), after[n]);
    }
  }

  /** Abort forgets: whatever commands came before it, what follows is answered as by a device that has
      not been claiming. */
  lemma {:induction false} AbortForgets(d: Data, before: seq<Input>, env: Env, after: seq<Input>)
    requires Inv(d) && GoodInputs(before) && GoodEnv(env) && GoodInputs(after)
    ensures GoodInputs(before + [Input(CmdAbort, env)] + after)
    ensures var run := Execute(d, before + [Input(CmdAbort, env)] + after);
            && run.data == Execute(NotClaiming(), after).data
            && run.log[|before| + 1..] == Execute(NotClaiming(), after).log
            && run.log[..|before|] == Execute(d, before).log
  {
    var abort := [Input(CmdAbort, env)];
    ExecuteAfter(d, before, abort);
    assert abort[..0] == [];
    assert Execute(Execute(d, before).data, abort).data == NotClaiming();
    ExecuteAfter(d, before + abort, after);
  }
}
