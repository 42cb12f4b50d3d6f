/** Safety of assisted claiming over every run of commands: what the exchange log must contain before
    CLAIM_SUCCESSFUL can be posted. */
module ClaimRuns {
  import opened Basics
  import opened ClaimProtocol

  datatype Input = Input(cmd: Command, env: Env)
  datatype Exchange = Exchange(cmd: Command, env: Env, response: Response, events: seq<Event>)
  datatype Run = Run(data: Data, log: seq<Exchange>)

  ghost predicate GoodInputs(inputs: seq<Input>) {
    forall i :: 0 <= i < |inputs| ==> GoodEnv(inputs[i].env) && HonestClient(inputs[i].cmd)
  }

  /** The claim data and the log after the inputs, one command at a time. */
  ghost function Execute(d: Data, inputs: seq<Input>): (r: Run)
    requires Inv(d) && GoodInputs(inputs)
    ensures Inv(r.data) && |r.log| == |inputs|
    decreases |inputs|
  {
    if inputs == [] then Run(d, [])
    else
      var before := Execute(d, inputs[..|inputs| - 1]);
      var last := inputs[|inputs| - 1];
      var out := Step(before.data, last.cmd, last.env);
      Run(out.data, before.log + [Exchange(last.cmd, last.env, out.response, out.events)])
  }

  // ---- What can be read off the log ----

  predicate StartOk(x: Exchange) { x.cmd.CmdStart? && x.response.status == Success }
  predicate Restart(x: Exchange) { x.cmd.CmdAbort? || StartOk(x) }
  predicate InitOk(x: Exchange) { x.cmd.CmdInit? && x.response.status == Success }
  predicate Opening(x: Exchange) { InitOk(x) && x.response.buf.offset == 0 }

  /** The bytes sent by the successful claim-init responses of a stretch of the log. */
  function SentBytes(log: seq<Exchange>): seq<Byte> {
    if log == [] then []
    else
      var last := log[|log| - 1];
      SentBytes(log[..|log| - 1]) + (if InitOk(last) then last.response.buf.data else [])
  }

  /** The log ends in an attempt begun by the successful Start at s. */
  ghost predicate Begun(log: seq<Exchange>, s: int) {
    && 0 <= s < |log| && StartOk(log[s])
    && forall t :: s < t < |log| ==> !Restart(log[t])
  }

  /** In that attempt, the claim-init at i was the last to open a transfer of a claim-verify text,
      and exactly the first sent bytes of that text have gone out since, in order. */
  ghost predicate Transferred(log: seq<Exchange>, s: int, i: int, sent: nat) {
    && Begun(log, s) && s < i < |log|
    && Opening(log[i]) && log[i].env.verifyRequest.Some?
    && (forall t :: i < t < |log| ==> !Opening(log[t]))
    && sent <= |log[i].env.verifyRequest.value|
    && SentBytes(log[i..]) == log[i].env.verifyRequest.value[..sent]
    && forall t :: i <= t < |log| && InitOk(log[t]) ==>
         log[t].response.buf.offset == |SentBytes(log[i..t])|
         && log[t].response.buf.totallen == |log[i].env.verifyRequest.value|
  }

  ghost predicate SentInFull(log: seq<Exchange>) {
    exists s, i :: Transferred(log, s, i, TextLength(log, i))
  }

  ghost function TextLength(log: seq<Exchange>, i: int): nat {
    if 0 <= i < |log| && log[i].env.verifyRequest.Some? then |log[i].env.verifyRequest.value| else 0
  }

  /** The transfer is open: payload_offset bytes are sent, of the text that is in the buffer. */
  ghost predicate InTransfer(r: Run, s: int, i: int) {
    && Transferred(r.log, s, i, r.data.offset)
    && r.data.len == TextLength(r.log, i) <= |r.data.payload|
    && r.data.payload[..r.data.len] == r.log[i].env.verifyRequest.value
  }

  /** What the log contains in each state. */
  ghost predicate History(r: Run) {
    match r.data.state
    case Unready => true
    case PkGenerated => true
    case InitState => exists s :: Begun(r.log, s)
    case InitDone => exists s, i :: InTransfer(r, s, i)
    case CsrGenerated => false
    case Verify => SentInFull(r.log)
    case VerifyDone => SentInFull(r.log)
  }

  // ---- Logs grow ----

  lemma {:induction false} SentBytesGrows(log: seq<Exchange>, x: Exchange, i: int)
    requires 0 <= i <= |log|
    ensures SentBytes((log + [x])[i..]) == SentBytes(log[i..]) + (if InitOk(x) then x.response.buf.data else [])
    ensures forall t :: i <= t <= |log| ==> (log + [x])[i..t] == log[i..t]
  {
    var longer := (log + [x])[i..];
    assert longer == log[i..] + [x];
    assert longer[..|longer| - 1] == log[i..];
  }

  lemma {:induction false} BegunStays(log: seq<Exchange>, x: Exchange, s: int)
    requires Begun(log, s) && !Restart(x)
    ensures Begun(log + [x], s)
  {
  }

  /** A response that is not a successful claim-init leaves the transfer where it was. */
  lemma {:induction false} TransferStays(log: seq<Exchange>, x: Exchange, s: int, i: int, sent: nat)
    requires Transferred(log, s, i, sent) && !Restart(x) && !InitOk(x)
    ensures Transferred(log + [x], s, i, sent) && TextLength(log + [x], i) == TextLength(log, i)
  {
    BegunStays(log, x, s);
    SentBytesGrows(log, x, i);
  }

  /** The next fragment takes it further. */
  lemma {:induction false} TransferAdvances(log: seq<Exchange>, x: Exchange, s: int, i: int, sent: nat)
    requires Transferred(log, s, i, sent) && InitOk(x) && sent > 0
    requires var text := log[i].env.verifyRequest.value;
             && x.response.buf.offset == sent && x.response.buf.totallen == |text|
             && sent + |x.response.buf.data| <= |text|
             && x.response.buf.data == text[sent..sent + |x.response.buf.data|]
    ensures Transferred(log + [x], s, i, sent + |x.response.buf.data|) && TextLength(log + [x], i) == TextLength(log, i)
  {
    BegunStays(log, x, s);
    SentBytesGrows(log, x, i);
    var text := log[i].env.verifyRequest.value;
    var sent' := sent + |x.response.buf.data|;
    assert text[..sent'] == text[..sent] + text[sent..sent'];
    assert log[i..|log|] == log[i..];
  }

  /** The first fragment opens a transfer. */
  lemma {:induction false} TransferOpens(log: seq<Exchange>, x: Exchange, s: int)
    requires Begun(log, s) && Opening(x) && x.env.verifyRequest.Some?
    requires var text := x.env.verifyRequest.value;
             && x.response.buf.totallen == |text| && |x.response.buf.data| <= |text|
             && x.response.buf.data == text[..|x.response.buf.data|]
    ensures Transferred(log + [x], s, |log|, |x.response.buf.data|)
    ensures TextLength(log + [x], |log|) == |x.env.verifyRequest.value|
  {
    BegunStays(log, x, s);
    SentBytesGrows(log, x, |log|);
    assert log[|log|..] == [];
    assert (log + [x])[|log|..|log|] == [];
  }

  // ---- Every command keeps the history ----

  ghost function After(r: Run, x: Input): Run
    requires Inv(r.data) && GoodEnv(x.env) && HonestClient(x.cmd)
  {
    var out := Step(r.data, x.cmd, x.env);
    Run(out.data, r.log + [Exchange(x.cmd, x.env, out.response, out.events)])
  }

  lemma {:induction false} HistoryWhenUnmoved(r: Run, x: Input)
    requires Inv(r.data) && GoodEnv(x.env) && HonestClient(x.cmd) && History(r)
    requires var r' := After(r, x);
             var last := r'.log[|r.log|];
             && !Restart(last) && !InitOk(last)
             && (r'.data.state == r.data.state || (r.data.state == Verify && r'.data.state == VerifyDone))
             && (r.data.state == InitDone ==> r'.data == r.data)
    ensures History(After(r, x))
  {
    var last := After(r, x).log[|r.log|];
    match r.data.state
    case InitState =>
      var s :| Begun(r.log, s);
      BegunStays(r.log, last, s);
    case InitDone =>
      var s, i :| InTransfer(r, s, i);
      TransferStays(r.log, last, s, i, r.data.offset);
      assert InTransfer(After(r, x), s, i);
    case Verify =>
      var s, i :| Transferred(r.log, s, i, TextLength(r.log, i));
      TransferStays(r.log, last, s, i, TextLength(r.log, i));
    case VerifyDone =>
      var s, i :| Transferred(r.log, s, i, TextLength(r.log, i));
      TransferStays(r.log, last, s, i, TextLength(r.log, i));
    case _ =>
  }

  lemma {:induction false} SomeBegun(r: Run) returns (s: int)
    requires Inv(r.data) && History(r) && r.data.state.Rank() >= InitState.Rank()
    ensures Begun(r.log, s)
  {
    match r.data.state
    case InitState =>
      s :| Begun(r.log, s);
    case InitDone =>
      var i;
      s, i :| InTransfer(r, s, i);
    case Verify =>
      var i;
      s, i :| Transferred(r.log, s, i, TextLength(r.log, i));
    case VerifyDone =>
      var i;
      s, i :| Transferred(r.log, s, i, TextLength(r.log, i));
  }

  lemma {:induction false} SliceOfPrefix(p: seq<Byte>, len: nat, a: nat, b: nat)
    requires a <= b <= len <= |p|
    ensures p[a..b] == p[..len][a..b]
  {
  }

  /** A poll sends the next fragment of what is in the buffer. */
  lemma {:induction false} PollSends(d: Data, body: Body, env: Env)
    requires Inv(d) && GoodEnv(env) && d.state == InitDone
    ensures var out := InitStep(d, body, env);
            var buf := out.response.buf;
            && out.response.status == Success && out.events == []
            && buf.offset == d.offset && buf.totallen == d.len && d.offset + |buf.data| <= d.len
            && buf.data == d.payload[..d.len][d.offset..d.offset + |buf.data|]
            && out.data.payload == d.payload && out.data.len == d.len && out.data.offset == d.offset + |buf.data|
            && (out.data.state == InitDone || (out.data.state == Verify && out.data.offset == d.len))
  {
    SliceOfPrefix(d.payload, d.len, d.offset, d.offset + |InitStep(d, body, env).response.buf.data|);
  }

  lemma {:induction false} HistoryAfterFragment(r: Run, d: Data, last: Exchange)
    requires History(r) && r.data.state.InitDone? && r.data.offset > 0 && InitOk(last)
    requires var buf := last.response.buf;
             && buf.offset == r.data.offset && buf.totallen == r.data.len
             && r.data.offset + |buf.data| <= r.data.len <= |r.data.payload|
             && buf.data == r.data.payload[..r.data.len][r.data.offset..r.data.offset + |buf.data|]
             && d.payload == r.data.payload && d.len == r.data.len && d.offset == r.data.offset + |buf.data|
    requires d.state.InitDone? || (d.state.Verify? && d.offset == d.len)
    ensures History(Run(d, r.log + [last]))
  {
    var s, i :| InTransfer(r, s, i);
    TransferAdvances(r.log, last, s, i, r.data.offset);
    assert (r.log + [last])[i] == r.log[i];
    assert Transferred(r.log + [last], s, i, d.offset);
    if d.state.InitDone? {
      assert InTransfer(Run(d, r.log + [last]), s, i);
    }
  }

  lemma {:induction false} HistoryAfterPoll(r: Run, x: Input)
    requires Inv(r.data) && GoodEnv(x.env) && x.cmd.CmdInit? && History(r) && r.data.state == InitDone
    ensures History(After(r, x))
  {
    var out := InitStep(r.data, x.cmd.body, x.env);
    PollSends(r.data, x.cmd.body, x.env);
    HistoryAfterFragment(r, out.data, Exchange(x.cmd, x.env, out.response, out.events));
  }

  lemma {:induction false} HistoryAfterOpening(r: Run, x: Input)
    requires Inv(r.data) && GoodEnv(x.env) && x.cmd.CmdInit? && History(r) && r.data.state != InitDone
    requires InitOk(After(r, x).log[|r.log|])
    ensures History(After(r, x))
  {
    var r' := After(r, x);
    var last := r'.log[|r.log|];
    var s := SomeBegun(r);
    var text := x.env.verifyRequest.value;
    var n := |last.response.buf.data|;
    assert last.response.buf.data == Padded(text)[0..n] == text[..n];
    TransferOpens(r.log, last, s);
    assert Transferred(r'.log, s, |r.log|, n);
    assert r'.data.state == InitDone ==> InTransfer(r', s, |r.log|);
  }

  lemma {:induction false} HistoryKept(r: Run, x: Input)
    requires Inv(r.data) && GoodEnv(x.env) && HonestClient(x.cmd) && History(r)
    ensures History(After(r, x)) && Inv(After(r, x).data)
  {
    var r' := After(r, x);
    var last := r'.log[|r.log|];
    if StartOk(last) {
      assert Begun(r'.log, |r.log|);
    } else if InitOk(last) {
      if r.data.state == InitDone {
        HistoryAfterPoll(r, x);
      } else {
        HistoryAfterOpening(r, x);
      }
    } else if !x.cmd.CmdAbort? {
      HistoryWhenUnmoved(r, x);
    }
  }

  lemma {:induction false} RunsKeepHistory(d: Data, inputs: seq<Input>)
    requires Inv(d) && d.state.Rank() < InitState.Rank() && GoodInputs(inputs)
    ensures History(Execute(d, inputs))
    decreases |inputs|
  {
    if inputs == [] {
    } else {
      var before := inputs[..|inputs| - 1];
      RunsKeepHistory(d, before);
      HistoryKept(Execute(d, before), inputs[|inputs| - 1]);
    }
  }

  /** Claim safety. In every run from a fresh device, whenever CLAIM_SUCCESSFUL is posted, the log
      before it ends in an attempt with a successful Start, no Abort or new Start since, the whole
      claim-verify text of its last accepted claim-init reply sent fragment by fragment; and the
      command that posts it is a claim-verify whose last piece reaches the announced total and
      after which the text in the buffer is accepted. */
  lemma {:induction false} ClaimSafety(d: Data, inputs: seq<Input>, x: Input)
    requires Inv(d) && d.state.Rank() < InitState.Rank()
    requires GoodInputs(inputs) && GoodEnv(x.env) && HonestClient(x.cmd)
    requires ClaimSuccessful in Step(Execute(d, inputs).data, x.cmd, x.env).events
    ensures SentInFull(Execute(d, inputs).log)
    ensures x.cmd.CmdVerify? && x.cmd.body.Fragment? && Completes(x.cmd.body.buf)
    ensures x.env.accepts(TextOf(Step(Execute(d, inputs).data, x.cmd, x.env).data.payload))
  {
    RunsKeepHistory(d, inputs);
    SuccessfulIff(Execute(d, inputs).data, x.cmd, x.env);
  }

  /** Sender progress in every reachable state: while a transfer is open there is something sent and
      something left, at a multiple of the fragment size, and what is in the buffer is the text that
      is being sent, whatever other commands came in between. */
  lemma {:induction false} SenderProgress(d: Data, inputs: seq<Input>)
    requires Inv(d) && d.state.Rank() < InitState.Rank() && GoodInputs(inputs)
    requires Execute(d, inputs).data.state == InitDone
    ensures var r := Execute(d, inputs);
            && 0 < r.data.offset < r.data.len && r.data.offset % CLAIM_FRAGMENT_SIZE == 0
            && exists s, i :: InTransfer(r, s, i)
  {
    RunsKeepHistory(d, inputs);
  }
}
