/** Fragmenting a claim-verify request and reassembling a claim-verify reply: the two directions
    that share the claim buffer undo each other. */
module ClaimTransfer {
  import opened Basics
  import opened ClaimProtocol

  // ---- Texts in the buffer ----

  lemma {:induction false} TextStops(text: seq<Byte>, rest: seq<Byte>)
    requires rest == [] || rest[0] == 0
    ensures TextOf(text + rest) == TextOf(text)
  {
    if text == [] {
      assert text + rest == rest;
    } else {
      TextStops(text[1..], rest);
      assert (text + rest)[1..] == text[1..] + rest;
    }
  }

  lemma {:induction false} TextOfPadded(text: seq<Byte>)
    requires |text| <= MAX_PAYLOAD_SIZE
    ensures TextOf(Padded(text)) == TextOf(text)
  {
    TextStops(text, Zeros(MAX_PAYLOAD_SIZE - |text|));
  }

  lemma {:induction false} PlainText(text: seq<Byte>)
    requires 0 !in text
    ensures TextOf(text) == text
  {
    if text == [] {
    } else {
      PlainText(text[1..]);
    }
  }

  // ---- The reference: a text cut into pieces of at most CLAIM_FRAGMENT_SIZE ----

  /** The pieces of text from offset on. */
  function Chunks(text: seq<Byte>, offset: nat): (bufs: seq<PayloadBuf>)
    requires offset <= |text| < MAX_PAYLOAD_SIZE
    decreases |text| - offset
  {
    if offset == |text| then []
    else
      var end := if offset + CLAIM_FRAGMENT_SIZE < |text| then offset + CLAIM_FRAGMENT_SIZE else |text|;
      [PayloadBuf(offset, |text|, text[offset..end])] + Chunks(text, end)
  }

  function CeilDiv(n: nat): nat { (n + CLAIM_FRAGMENT_SIZE - 1) / CLAIM_FRAGMENT_SIZE }

  lemma {:induction false} ChunkCount(text: seq<Byte>, offset: nat)
    requires offset <= |text| < MAX_PAYLOAD_SIZE
    ensures |Chunks(text, offset)| == CeilDiv(|text| - offset)
    decreases |text| - offset
  {
    if offset + CLAIM_FRAGMENT_SIZE < |text| {
      ChunkCount(text, offset + CLAIM_FRAGMENT_SIZE);
    } else if offset < |text| {
      assert Chunks(text, |text|) == [];
    }
  }

  // ---- The sender ----

  datatype Sending = Sending(data: Data, bufs: seq<PayloadBuf>)

  /** One more claim-init command: what it carries and what the outside would answer. */
  datatype Again = Again(body: Body, env: Env)

  ghost predicate GoodPolls(polls: seq<Again>) { forall i :: 0 <= i < |polls| ==> GoodEnv(polls[i].env) }

  /** Claim-init commands, each with its own content, until the state leaves INIT_DONE or there are
      no more. */
  function Poll(d: Data, polls: seq<Again>): (s: Sending)
    requires Inv(d) && GoodPolls(polls)
    ensures Inv(s.data)
    decreases |polls|
  {
    if d.state != InitDone || polls == [] then Sending(d, [])
    else
      var out := InitStep(d, polls[0].body, polls[0].env);
      var rest := Poll(out.data, polls[1..]);
      Sending(rest.data, [out.response.buf] + rest.bufs)
  }

  /** Polling in INIT_DONE often enough sends exactly the remaining chunks of the text in the buffer,
      whatever the polls carry, and the state reaches VERIFY with the last of them. */
  lemma {:induction false} PollSendsChunks(d: Data, text: seq<Byte>, polls: seq<Again>)
    requires Inv(d) && GoodPolls(polls) && d.state == InitDone
    requires d.len == |text| && text == d.payload[..|text|] && |polls| >= CeilDiv(d.len - d.offset)
    ensures Poll(d, polls) == Sending(d.(state := Verify, offset := d.len), Chunks(text, d.offset))
    decreases |polls|
  {
    var out := InitStep(d, polls[0].body, polls[0].env);
    var next := out.data;
    assert d.payload[d.offset..next.offset] == text[d.offset..next.offset];
    if next.state == InitDone {
      PollSendsChunks(next, text, polls[1..]);
      assert next.(state := Verify, offset := next.len) == d.(state := Verify, offset := d.len);
    } else {
      assert Chunks(text, |text|) == [];
    }
  }

  /** All that is sent for a claim-init reply: the response to it and to the polls that follow. */
  function Emitted(d: Data, body: Body, env: Env, polls: seq<Again>): seq<PayloadBuf>
    requires Inv(d) && GoodEnv(env) && GoodPolls(polls)
  {
    var out := InitStep(d, body, env);
    [out.response.buf] + Poll(out.data, polls).bufs
  }

  /** The claim data once that transfer is over. */
  function Sent(d: Data, body: Body, env: Env, polls: seq<Again>): (r: Data)
    requires Inv(d) && GoodEnv(env) && GoodPolls(polls)
    ensures Inv(r)
  {
    Poll(InitStep(d, body, env).data, polls).data
  }

  /** A claim-init reply that is accepted, with enough polls to send all that follows from it. */
  ghost predicate AcceptsInit(d: Data, body: Body, env: Env, polls: seq<Again>) {
    && Inv(d) && GoodEnv(env) && GoodPolls(polls)
    && d.state != InitDone && InitStep(d, body, env).response.status == Success
    && env.verifyRequest.Some? && |polls| + 1 >= CeilDiv(|env.verifyRequest.value|)
  }

  /** A claim-init reply that is accepted starts the transfer of the claim-verify text made from it:
      the client receives its chunks, ceil(L / 200) responses in all, and then the state is VERIFY
      with the text still in the buffer and payload_len its length. */
  lemma {:induction false} AcceptedInitSendsAll(d: Data, body: Body, env: Env, polls: seq<Again>)
    requires AcceptsInit(d, body, env, polls)
    ensures var text := env.verifyRequest.value;
            && IsText(text) && Emitted(d, body, env, polls) == Chunks(text, 0) && |Chunks(text, 0)| == CeilDiv(|text|)
            && Sent(d, body, env, polls) == Data(Verify, Padded(text), |text|, |text|)
  {
    var out := InitStep(d, body, env);
    var text := env.verifyRequest.value;
    var n := out.data.offset;
    assert out.response.buf.data == Padded(text)[0..n] == text[0..n];
    if out.data.state == InitDone {
      PollSendsChunks(out.data, text, polls);
    } else {
      assert Chunks(text, |text|) == [];
    }
    ChunkCount(text, 0);
  }

  // ---- The receiver ----

  /** Each piece continues where the previous one ended, all announce the same total, which the
      last one reaches. */
  predicate Contiguous(bufs: seq<PayloadBuf>, offset: nat, total: nat) {
    if bufs == [] then offset == total
    else
      && bufs[0].offset == offset && bufs[0].totallen == total
      && bufs[0].data != []
      && offset + |bufs[0].data| <= total
      && Contiguous(bufs[1..], offset + |bufs[0].data|, total)
  }

  function Concat(bufs: seq<PayloadBuf>): seq<Byte> {
    if bufs == [] then [] else bufs[0].data + Concat(bufs[1..])
  }

  lemma {:induction false} ConcatStep(received: seq<Byte>, bufs: seq<PayloadBuf>)
    requires bufs != []
    ensures received + Concat(bufs) == received + bufs[0].data + Concat(bufs[1..])
    ensures |bufs| == 1 ==> received + Concat(bufs) == received + bufs[0].data
  {
    Associative(received, bufs[0].data, Concat(bufs[1..]));
    if |bufs| == 1 {
      assert Concat(bufs[1..]) == [];
    }
  }

  lemma {:induction false} Associative(a: seq<Byte>, b: seq<Byte>, c: seq<Byte>)
    ensures a + (b + c) == a + b + c
  {
  }

  lemma {:induction false} ChunksContiguous(text: seq<Byte>, offset: nat)
    requires offset <= |text| < MAX_PAYLOAD_SIZE
    ensures Contiguous(Chunks(text, offset), offset, |text|)
    ensures Concat(Chunks(text, offset)) == text[offset..]
    decreases |text| - offset
  {
    if offset < |text| {
      var bufs := Chunks(text, offset);
      var end := offset + |bufs[0].data|;
      assert bufs[1..] == Chunks(text, end);
      ChunksContiguous(text, end);
      assert text[offset..] == text[offset..end] + text[end..];
    }
  }

  /** The claim data after each piece, given as a claim-verify command, with the responses. */
  function Feed(d: Data, bufs: seq<PayloadBuf>, envs: seq<Env>): (outs: seq<Outcome>)
    requires Inv(d) && |envs| == |bufs|
    requires forall i :: 0 <= i < |bufs| ==> GoodEnv(envs[i]) && HonestPiece(bufs[i])
    ensures |outs| == |bufs| && forall i :: 0 <= i < |outs| ==> Inv(outs[i].data)
    decreases |bufs|
  {
    if bufs == [] then []
    else
      var out := VerifyStep(d, Fragment(bufs[0]), envs[0]);
      [out] + Feed(out.data, bufs[1..], envs[1..])
  }

  /** What the buffer holds after the first n bytes of a reply. */
  ghost predicate Holds(d: Data, received: seq<Byte>) {
    |received| <= MAX_PAYLOAD_SIZE && d.payload == Padded(received) && d.len == |received|
  }

  lemma {:induction false} WrittenExtends(received: seq<Byte>, data: seq<Byte>)
    requires |received| + |data| <= MAX_PAYLOAD_SIZE
    ensures Written(Padded(received), |received|, data) == Padded(received + data)
  {
    var z := Zeros(MAX_PAYLOAD_SIZE - |received|);
    assert Padded(received)[|received| + |data|..] == z[|data|..];
    assert z[|data|..] == Zeros(MAX_PAYLOAD_SIZE - |received + data|);
    assert Written(Padded(received), |received|, data) == Padded(received + data);
  }

  /** A piece lies within the total it announces, and that within the buffer. */
  predicate Within(b: PayloadBuf) { b.offset + |b.data| <= b.totallen < MAX_PAYLOAD_SIZE }

  /** One piece, in numbers, from any waiting state: payload_len counts its bytes, from zero again when
      the offset is zero. */
  lemma {:induction false} PieceCounted(d: Data, b: PayloadBuf, env: Env)
    requires Inv(d) && AwaitsReply(d) && GoodEnv(env) && Within(b)
    ensures var out := VerifyStep(d, Fragment(b), env);
            && out.data.len == Wrap32((if b.offset == 0 then 0 else d.len) + |b.data|)
            && AwaitsReply(out.data) && Inv(out.data)
            && Completes(b) == (b.offset + |b.data| == b.totallen)
            && (ClaimSuccessful in out.events <==> Completes(b) && env.accepts(TextOf(out.data.payload)))
  {
    VerifyEvents(d, Fragment(b), env);
  }

  lemma {:induction false} ReceiveExtends(d: Data, received: seq<Byte>, b: PayloadBuf)
    requires |d.payload| == MAX_PAYLOAD_SIZE && b.offset == |received| && |received| + |b.data| <= MAX_PAYLOAD_SIZE
    requires received != [] ==> Holds(d, received)
    ensures Holds(Receive(d, b), received + b.data)
  {
    WrittenExtends(received, b.data);
  }

  /** One piece, in content: the bytes so far grow by it. */
  lemma {:induction false} PieceReceived(d: Data, received: seq<Byte>, b: PayloadBuf, env: Env)
    requires Inv(d) && AwaitsReply(d) && GoodEnv(env)
    requires b.totallen < MAX_PAYLOAD_SIZE && b.offset == |received| && |received| + |b.data| <= b.totallen
    requires received != [] ==> Holds(d, received)
    ensures Holds(VerifyStep(d, Fragment(b), env).data, received + b.data)
  {
    ReceiveExtends(d, received, b);
  }

  /** Any contiguous reply, however it is cut, is reassembled: in the end the buffer holds its bytes
      followed by zeros. */
  lemma {:induction false} FeedReassembles(d: Data, received: seq<Byte>, bufs: seq<PayloadBuf>,
                                               envs: seq<Env>, total: nat)
    requires Inv(d) && AwaitsReply(d)
    requires Contiguous(bufs, |received|, total) && bufs != [] && total < MAX_PAYLOAD_SIZE
    requires received != [] ==> Holds(d, received)
    requires |envs| == |bufs|
    requires forall i :: 0 <= i < |bufs| ==> GoodEnv(envs[i]) && HonestPiece(bufs[i])
    ensures Holds(Feed(d, bufs, envs)[|bufs| - 1].data, received + Concat(bufs))
    decreases |bufs|
  {
    var b := bufs[0];
    var out := VerifyStep(d, Fragment(b), envs[0]);
    PieceReceived(d, received, b, envs[0]);
    PieceCounted(d, b, envs[0]);
    ConcatStep(received, bufs);
    if |bufs| > 1 {
      var bufs', envs' := bufs[1..], envs[1..];
      FeedReassembles(out.data, received + b.data, bufs', envs', total);
      assert Feed(d, bufs, envs)[|bufs| - 1] == Feed(out.data, bufs', envs')[|bufs'| - 1];
    }
  }

  /** The completion test is true on the last piece and on no other. */
  lemma {:induction false} OnlyLastCompletes(bufs: seq<PayloadBuf>, offset: nat, total: nat)
    requires Contiguous(bufs, offset, total) && total < MAX_PAYLOAD_SIZE
    ensures forall i :: 0 <= i < |bufs| ==> Completes(bufs[i]) == (i == |bufs| - 1)
  {
    if |bufs| > 1 {
      assert bufs[1].data != [];
      OnlyLastCompletes(bufs[1..], offset + |bufs[0].data|, total);
      assert forall i :: 0 < i < |bufs| ==> bufs[i] == bufs[1..][i - 1];
    } else if |bufs| == 1 {
      assert bufs[1..] == [];
    }
  }

  /** Such pieces are what the device asks of a client, and are never refused as invalid. */
  lemma {:induction false} ContiguousHonest(bufs: seq<PayloadBuf>, offset: nat, total: nat)
    requires Contiguous(bufs, offset, total) && total < MAX_PAYLOAD_SIZE
    ensures forall i :: 0 <= i < |bufs| ==>
              HonestPiece(bufs[i]) && Validate(Fragment(bufs[i])) == Success
  {
    if bufs == [] {
    } else {
      ContiguousHonest(bufs[1..], offset + |bufs[0].data|, total);
      assert forall i :: 0 < i < |bufs| ==> bufs[i] == bufs[1..][i - 1];
    }
  }

  /** While replies are fed, CLAIM_SUCCESSFUL is posted exactly at a valid completing piece after which
      the text in the buffer is accepted. */
  lemma {:induction false} FeedSuccess(d: Data, bufs: seq<PayloadBuf>, envs: seq<Env>, i: nat)
    requires Inv(d) && AwaitsReply(d) && i < |bufs| == |envs|
    requires forall j :: 0 <= j < |bufs| ==> GoodEnv(envs[j]) && HonestPiece(bufs[j])
    ensures ClaimSuccessful in Feed(d, bufs, envs)[i].events <==>
            && Completes(bufs[i]) && Validate(Fragment(bufs[i])) == Success
            && envs[i].accepts(TextOf(Feed(d, bufs, envs)[i].data.payload))
    decreases |bufs|
  {
    var out := VerifyStep(d, Fragment(bufs[0]), envs[0]);
    if i == 0 {
      SuccessfulIff(d, CmdVerify(Fragment(bufs[0])), envs[0]);
    } else {
      var bufs', envs' := bufs[1..], envs[1..];
      assert bufs'[i - 1] == bufs[i] && envs'[i - 1] == envs[i];
      assert AwaitsReply(out.data);
      FeedSuccess(out.data, bufs', envs', i - 1);
      assert Feed(d, bufs, envs)[i] == Feed(out.data, bufs', envs')[i - 1];
    }
  }

  lemma {:induction false} ChunksRebuild(text: seq<Byte>, receiver: Data, envs: seq<Env>)
    requires IsText(text) && Inv(receiver) && AwaitsReply(receiver)
    requires |envs| == |Chunks(text, 0)| && forall i :: 0 <= i < |envs| ==> GoodEnv(envs[i])
    ensures forall i :: 0 <= i < |envs| ==> HonestPiece(Chunks(text, 0)[i])
    ensures |envs| > 0 && Holds(Feed(receiver, Chunks(text, 0), envs)[|envs| - 1].data, text)
    ensures forall i :: 0 <= i < |envs| ==> Completes(Chunks(text, 0)[i]) == (i == |envs| - 1)
  {
    var bufs := Chunks(text, 0);
    ChunksContiguous(text, 0);
    ContiguousHonest(bufs, 0, |text|);
    FeedReassembles(receiver, [], bufs, envs, |text|);
    OnlyLastCompletes(bufs, 0, |text|);
    assert [] + Concat(bufs) == text;
  }

  /** The round trip. Whatever text a device starts sending when it accepts a claim-init reply, its
      fragments, given in order to a device that waits in VERIFY, rebuild exactly that text followed
      by zeros, with payload_len its length; only the last one counts as complete. */
  lemma {:induction false} FragmentRoundTrip(sender: Data, body: Body, env: Env, polls: seq<Again>,
                                                 receiver: Data, envs: seq<Env>)
    requires AcceptsInit(sender, body, env, polls)
    requires Inv(receiver) && AwaitsReply(receiver)
    requires |envs| == |Emitted(sender, body, env, polls)|
    requires forall i :: 0 <= i < |envs| ==> GoodEnv(envs[i])
    ensures |envs| == CeilDiv(|env.verifyRequest.value|) > 0
    ensures var bufs := Emitted(sender, body, env, polls);
            && (forall i :: 0 <= i < |bufs| ==> HonestPiece(bufs[i]))
            && Holds(Feed(receiver, bufs, envs)[|bufs| - 1].data, env.verifyRequest.value)
            && (forall i :: 0 <= i < |bufs| ==> Completes(bufs[i]) == (i == |bufs| - 1))
  {
    AcceptedInitSendsAll(sender, body, env, polls);
    ChunksRebuild(env.verifyRequest.value, receiver, envs);
  }

  // ---- Replies with gaps ----

  /** Pieces in increasing order from offset on that need not touch, the last one reaching total. */
  predicate Increasing(bufs: seq<PayloadBuf>, offset: nat, total: nat) {
    if bufs == [] then offset == total
    else
      && offset <= bufs[0].offset && bufs[0].totallen == total
      && bufs[0].data != []
      && bufs[0].offset + |bufs[0].data| <= total
      && (|bufs| == 1 || bufs[0].offset + |bufs[0].data| < total)
      && Increasing(bufs[1..], bufs[0].offset + |bufs[0].data|, total)
  }

  function ByteCount(bufs: seq<PayloadBuf>): nat {
    if bufs == [] then 0 else |bufs[0].data| + ByteCount(bufs[1..])
  }

  lemma {:induction false} CountMeetsTotalIffContiguous(bufs: seq<PayloadBuf>, offset: nat, total: nat)
    requires Increasing(bufs, offset, total)
    ensures ByteCount(bufs) <= total - offset
    ensures ByteCount(bufs) == total - offset <==> Contiguous(bufs, offset, total)
  {
    if bufs == [] {
    } else {
      CountMeetsTotalIffContiguous(bufs[1..], bufs[0].offset + |bufs[0].data|, total);
    }
  }

  lemma {:induction false} IncreasingWithin(bufs: seq<PayloadBuf>, offset: nat, total: nat)
    requires Increasing(bufs, offset, total) && total < MAX_PAYLOAD_SIZE
    ensures forall i :: 0 <= i < |bufs| ==> Within(bufs[i])
    ensures bufs != [] ==> Completes(bufs[|bufs| - 1])
  {
    if |bufs| == 1 {
      assert bufs[1..] == [];
    } else if bufs != [] {
      IncreasingWithin(bufs[1..], bufs[0].offset + |bufs[0].data|, total);
      assert forall i :: 0 < i < |bufs| ==> bufs[i] == bufs[1..][i - 1];
    }
  }

  lemma {:induction false} WrapAdds(a: nat, b: nat)
    ensures Wrap32(Wrap32(a) + b) == Wrap32(a + b)
  {
  }

  /** After the first of several pieces. */
  lemma {:induction false} FeedNext(d: Data, bufs: seq<PayloadBuf>, envs: seq<Env>) returns (next: Data)
    requires Inv(d) && AwaitsReply(d) && |envs| == |bufs| > 1
    requires forall i :: 0 <= i < |bufs| ==> GoodEnv(envs[i]) && HonestPiece(bufs[i])
    requires Within(bufs[0])
    ensures Inv(next) && AwaitsReply(next)
    ensures next.len == Wrap32((if bufs[0].offset == 0 then 0 else d.len) + |bufs[0].data|)
    ensures Feed(d, bufs, envs)[|bufs| - 1] == Feed(next, bufs[1..], envs[1..])[|bufs| - 2]
  {
    next := VerifyStep(d, Fragment(bufs[0]), envs[0]).data;
    PieceCounted(d, bufs[0], envs[0]);
  }

  lemma {:induction false} FeedOne(d: Data, bufs: seq<PayloadBuf>, envs: seq<Env>)
    requires Inv(d) && AwaitsReply(d) && |envs| == |bufs| == 1 && Within(bufs[0])
    requires GoodEnv(envs[0]) && HonestPiece(bufs[0])
    ensures Feed(d, bufs, envs)[0].data.len == Wrap32((if bufs[0].offset == 0 then 0 else d.len) + |bufs[0].data|)
  {
    PieceCounted(d, bufs[0], envs[0]);
  }

  /** payload_len after pieces of these lengths. */
  function Counted(len: nat, bufs: seq<PayloadBuf>): nat
    decreases |bufs|
  {
    if bufs == [] then len
    else Counted(Wrap32((if bufs[0].offset == 0 then 0 else len) + |bufs[0].data|), bufs[1..])
  }

  lemma {:induction false} CountedIs(len: nat, bufs: seq<PayloadBuf>, offset: nat, total: nat)
    requires Increasing(bufs, offset, total) && bufs != []
    ensures Counted(len, bufs) == Wrap32((if bufs[0].offset == 0 then 0 else len) + ByteCount(bufs))
    decreases |bufs|
  {
    var len' := (if bufs[0].offset == 0 then 0 else len) + |bufs[0].data|;
    if bufs[1..] != [] {
      CountedIs(Wrap32(len'), bufs[1..], bufs[0].offset + |bufs[0].data|, total);
      WrapAdds(len', ByteCount(bufs[1..]));
    }
  }

  lemma {:induction false} FeedCounted(d: Data, bufs: seq<PayloadBuf>, envs: seq<Env>)
    requires Inv(d) && AwaitsReply(d) && |envs| == |bufs| > 0
    requires forall i :: 0 <= i < |bufs| ==> Within(bufs[i])
    requires forall i :: 0 <= i < |bufs| ==> GoodEnv(envs[i]) && HonestPiece(bufs[i])
    ensures Feed(d, bufs, envs)[|bufs| - 1].data.len == Counted(d.len, bufs)
    decreases |bufs|
  {
    if |bufs| == 1 {
      FeedOne(d, bufs, envs);
      assert bufs[1..] == [];
    } else {
      var next := FeedNext(d, bufs, envs);
      FeedCounted(next, bufs[1..], envs[1..]);
    }
  }

  /** payload_len counts the bytes of the pieces: from zero if they start at offset 0, and otherwise on
      top of what it was. */
  lemma {:induction false} FeedCounts(d: Data, bufs: seq<PayloadBuf>, envs: seq<Env>, offset: nat, total: nat)
    requires Inv(d) && AwaitsReply(d)
    requires Increasing(bufs, offset, total) && bufs != [] && total < MAX_PAYLOAD_SIZE
    requires |envs| == |bufs|
    requires forall i :: 0 <= i < |bufs| ==> GoodEnv(envs[i]) && HonestPiece(bufs[i])
    ensures Feed(d, bufs, envs)[|bufs| - 1].data.len ==
            Wrap32((if bufs[0].offset == 0 then 0 else d.len) + ByteCount(bufs))
  {
    IncreasingWithin(bufs, offset, total);
    FeedCounted(d, bufs, envs);
    CountedIs(d.len, bufs, offset, total);
  }

  /** The completion test looks at the last piece only: from every waiting state a reply sent in
      increasing order is taken for complete, gaps or not, so that it succeeds exactly if the text that
      happens to be in the buffer is accepted. payload_len would tell only together with the offset of
      the first piece: nothing is missing exactly when the pieces start at offset 0 and payload_len
      equals the total. */
  lemma {:induction false} CompletionIgnoresGaps(d: Data, bufs: seq<PayloadBuf>, envs: seq<Env>, total: nat)
    requires Inv(d) && AwaitsReply(d)
    requires Increasing(bufs, 0, total) && 0 < total < MAX_PAYLOAD_SIZE
    requires |envs| == |bufs|
    requires forall i :: 0 <= i < |bufs| ==> GoodEnv(envs[i]) && HonestPiece(bufs[i])
    ensures var out := Feed(d, bufs, envs)[|bufs| - 1];
            && (ClaimSuccessful in out.events <==> envs[|bufs| - 1].accepts(TextOf(out.data.payload)))
            && (bufs[0].offset == 0 && out.data.len == total <==> Contiguous(bufs, 0, total))
  {
    IncreasingWithin(bufs, 0, total);
    FeedSuccess(d, bufs, envs, |bufs| - 1);
    FeedCounts(d, bufs, envs, 0, total);
    CountMeetsTotalIffContiguous(bufs, 0, total);
  }

  /** The buffer after a start of a reply and a piece further on. */
  lemma {:induction false} GapInBuffer(start: seq<Byte>, at: nat, tail: seq<Byte>)
    requires 0 !in start && |start| < at && at + |tail| <= MAX_PAYLOAD_SIZE
    ensures TextOf(Written(Padded(start), at, tail)) == start
  {
    var p := Written(Padded(start), at, tail);
    assert p[..|start|] == start && p[|start|] == 0;
    assert p == start + p[|start|..];
    TextStops(start, p[|start|..]);
    PlainText(start);
  }

  /** A start of a reply, and a last piece further on. */
  function GapReply(start: seq<Byte>, at: nat, tail: seq<Byte>): (bufs: seq<PayloadBuf>)
    requires at + |tail| < MAX_PAYLOAD_SIZE
  {
    [PayloadBuf(0, at + |tail|, start), PayloadBuf(at, at + |tail|, tail)]
  }

  /** So a reply with a gap can succeed. From every waiting state, a start of a reply and a last piece
      anywhere behind it make a complete reply whose text is the start alone: success is posted exactly
      if that is accepted, though the bytes between were announced and never came. */
  lemma {:induction false} GapSucceedsIff(d: Data, start: seq<Byte>, at: nat, tail: seq<Byte>, envs: seq<Env>)
    requires Inv(d) && AwaitsReply(d) && |envs| == 2 && GoodEnv(envs[0]) && GoodEnv(envs[1])
    requires 0 !in start && |start| < at && tail != [] && at + |tail| < MAX_PAYLOAD_SIZE
    ensures var bufs := GapReply(start, at, tail);
            && (forall i :: 0 <= i < 2 ==> HonestPiece(bufs[i]))
            && !Contiguous(bufs, 0, at + |tail|)
            && Feed(d, bufs, envs)[0].events == []
            && TextOf(Feed(d, bufs, envs)[1].data.payload) == start
            && (ClaimSuccessful in Feed(d, bufs, envs)[1].events <==> envs[1].accepts(start))
  {
    var bufs := GapReply(start, at, tail);
    var next := VerifyStep(d, Fragment(bufs[0]), envs[0]);
    PieceCounted(d, bufs[0], envs[0]);
    VerifyEvents(d, Fragment(bufs[0]), envs[0]);
    ReceiveExtends(d, [], bufs[0]);
    assert [] + start == start;
    PieceCounted(next.data, bufs[1], envs[1]);
    GapInBuffer(start, at, tail);
    assert bufs[1..] == [bufs[1]] && envs[1..] == [envs[1]];
    assert Feed(d, bufs, envs)[1] == VerifyStep(next.data, Fragment(bufs[1]), envs[1]);
  }

  /** payload_len alone does not tell, because it still counts the text that was sent. After every
      transfer, one piece that starts where that text ends is taken for a whole reply with payload_len
      the announced total, though no byte before the piece was received: what is parsed is the sent
      text with the piece behind it. */
  lemma {:induction false} TailAloneCompletes(d: Data, body: Body, env: Env, polls: seq<Again>,
                                                  tail: seq<Byte>, last: Env)
    requires AcceptsInit(d, body, env, polls) && GoodEnv(last)
    requires tail != [] && |env.verifyRequest.value| + |tail| < MAX_PAYLOAD_SIZE
    ensures var text := env.verifyRequest.value;
            var buf := PayloadBuf(|text|, |text| + |tail|, tail);
            var out := VerifyStep(Sent(d, body, env, polls), Fragment(buf), last);
            && Sent(d, body, env, polls).state == Verify && HonestPiece(buf)
            && !Contiguous([buf], 0, buf.totallen) && Completes(buf)
            && out.data.len == buf.totallen && out.data.payload == Padded(text + tail)
            && (ClaimSuccessful in out.events <==> last.accepts(TextOf(text + tail)))
  {
    var text := env.verifyRequest.value;
    var buf := PayloadBuf(|text|, |text| + |tail|, tail);
    AcceptedInitSendsAll(d, body, env, polls);
    var waiting := Sent(d, body, env, polls);
    PieceCounted(waiting, buf, last);
    ReceiveExtends(waiting, text, buf);
    TextOfPadded(text + tail);
  }

  /** Exactly when payload_len equals the total although something is missing. */
  lemma {:induction false} LengthMisleadsIff(d: Data, bufs: seq<PayloadBuf>, envs: seq<Env>, total: nat)
    requires Inv(d) && AwaitsReply(d)
    requires Increasing(bufs, 0, total) && 0 < total < MAX_PAYLOAD_SIZE
    requires |envs| == |bufs|
    requires forall i :: 0 <= i < |bufs| ==> GoodEnv(envs[i]) && HonestPiece(bufs[i])
    ensures Feed(d, bufs, envs)[|bufs| - 1].data.len == total && !Contiguous(bufs, 0, total) <==>
            bufs[0].offset != 0 && Wrap32(d.len + ByteCount(bufs)) == total
  {
    FeedCounts(d, bufs, envs, 0, total);
    CountMeetsTotalIffContiguous(bufs, 0, total);
  }
}
