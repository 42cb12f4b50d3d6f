/** Exactly when a call of generic gives the lock back as often as it has taken it, on every script: when a
    single pass over the script goes through. */
module UserApiPass {
  import opened UserApiCalls
  import opened UserApiProofs

  // ---- One exchange ----

  /** The request fails on the client that was kept. */
  predicate KeptFails(w: World, r: Request) { Reuses(w, r) && NextAttempt(w.script).outcome.RequestFails? }

  /** There is a client, and it gets a reply. */
  predicate Answers(w: World, r: Request) {
    var attempt := NextAttempt(w.script);
    attempt.outcome.Replies? && (Reuses(w, r) || attempt.initOk)
  }

  function Answered(w: World, r: Request): World { KeepClient(Opened(Consume(w)), r) }

  function NextReply(w: World): Reply {
    var attempt := NextAttempt(w.script);
    if attempt.outcome.Replies? then attempt.outcome.reply else NO_REPLY
  }

  predicate Expired(w: World, r: Request) { Answers(w, r) && TokenExpired(NextReply(w)) }

  predicate Settled(ctx: Context, r: Request) { Acceptable(r) && !NeedsVersion(ctx, r) && !NeedsLogin(ctx, r) }

  function Checked(w: World): World { w.(ctx := w.ctx.(versionChecked := true)) }

  // ---- A single pass: the call without a lock and without tries again ----

  /** Again: something has to be tried again. */
  datatype Pass = Again | Done(result: Result)

  /** The end of an exchange that gets no reply. */
  function NoReply(w: World, r: Request): Result {
    var attempt := NextAttempt(w.script);
    if !Reuses(w, r) && !attempt.initOk then Result(Fail, Consume(w), NO_REPLY)
    else if attempt.outcome.RequestFails? then Result(RequestError, Opened(Consume(w)), NO_REPLY)
    else
      var tried := Opened(Consume(w));
      Result(ResponseError, if Reuses(w, r) then WithClient(tried, false) else tried, NO_REPLY)
  }

  function PassExchange(w: World, r: Request): (p: Pass)
    ensures p.Done? ==> |p.result.w.script| <= |w.script| && p.result.w.depth == w.depth
    decreases |w.script|, 0
  {
    if KeptFails(w, r) then Again
    else if !Answers(w, r) then Done(NoReply(w, r))
    else if !TokenExpired(NextReply(w)) then Done(Result(Ok, Answered(w, r), NextReply(w)))
    else
      var l := PassLogin(Opened(Consume(w)));
      if l.Again? || l.result.err.Ok? then Again else Done(Result(Ok, KeepClient(l.result.w, r), NextReply(w)))
  }

  function PassVersion(w: World): (p: Pass)
    ensures p.Done? ==> |p.result.w.script| <= |w.script| && p.result.w.depth == w.depth
    decreases |w.script|, 1
  {
    var p := PassExchange(w, VERSION_REQUEST);
    if p.Done? && p.result.err.Ok? && p.result.reply.versions.NoVersions?
    then Done(Result(Fail, p.result.w, NO_REPLY)) else p
  }

  /** Up to the point where the version is settled. */
  function PassStart(w: World, r: Request): (p: Pass)
    ensures p.Done? ==> |p.result.w.script| <= |w.script| && p.result.w.depth == w.depth
    decreases |w.script|, 2
  {
    if !NeedsVersion(w.ctx, r) then Done(Result(Ok, w, NO_REPLY))
    else
      var v := PassVersion(Checked(w));
      if v.Again? then Again
      else if !v.result.err.Ok? then
        Done(Result(v.result.err, v.result.w.(ctx := v.result.w.ctx.(versionChecked := false)), NO_REPLY))
      else
        var found := v.result.reply.versions;
        Done(Result(Ok, v.result.w.(ctx := v.result.w.ctx.(version := found.Versions? && found.first)), NO_REPLY))
  }

  function PassLogin(w: World): (p: Pass)
    ensures p.Done? ==> |p.result.w.script| <= |w.script| && p.result.w.depth == w.depth
    decreases |w.script|, 3
  {
    if !CredentialsSet(w.ctx) then Done(Result(InvalidState, w, NO_REPLY))
    else
      var start := PassStart(w, LoginRequest(w.ctx));
      if start.Again? then Again
      else if !start.result.err.Ok? then start
      else
        var p := PassExchange(start.result.w, LoginRequest(w.ctx));
        if p.Again? then Again
        else if !p.result.err.Ok? then p
        else if p.result.reply.status != 200 then Done(Result(Fail, p.result.w, NO_REPLY))
        else Done(ParseLogin(p.result.w, p.result.reply))
  }

  /** From the point where the version is settled. */
  function PassFinish(w: World, r: Request): (p: Pass)
    ensures p.Done? ==> p.result.w.depth == w.depth
  {
    if !NeedsLogin(w.ctx, r) then PassExchange(w, r)
    else
      var l := PassLogin(w);
      if l.Again? || l.result.err.Ok? then Again else l
  }

  function PassGeneric(w: World, r: Request): (p: Pass)
    ensures p.Done? ==> p.result.w.depth == w.depth
  {
    if !Acceptable(r) then Done(Result(InvalidArg, w, NO_REPLY))
    else
      var start := PassStart(w, r);
      if start.Again? || !start.result.err.Ok? then start else PassFinish(start.result.w, r)
  }

  // ---- It agrees with the call, however often the lock is held ----

  function Raised(w: World, n: nat): World { w.(depth := w.depth + n) }

  /** What the call gives with the lock held n more times on return. */
  ghost predicate Agrees(p: Pass, n: nat, depth: nat, out: Result) {
    if p.Done? then out == p.result.(w := Raised(p.result.w, n)) else out.w.depth > depth + n
  }

  lemma {:induction false} ExchangeAgrees(w: World, r: Request, n: nat)
    ensures Agrees(PassExchange(w, r), n, w.depth, Exchange(Raised(w, n + 1), r))
    decreases |w.script|, 0
  {
    var held := Raised(w, n + 1);
    var tried := Opened(Consume(w));
    if KeptFails(w, r) {
      KeptFailureReenters(held, r);
    } else if Answers(w, r) {
      assert Opened(Consume(held)) == Raised(tried, n + 1);
      assert Exchange(held, r) == Answer(Raised(tried, n + 1), r, NextReply(w));
      if Expired(w, r) {
        ExpiredAgrees(w, r, n);
      } else {
        PlainAnswer(Raised(tried, n + 1), r, NextReply(w));
      }
    }
  }

  lemma {:induction false} ExpiredAgrees(w: World, r: Request, n: nat)
    requires Expired(w, r)
    ensures Agrees(PassExchange(w, r), n, w.depth, Answer(Raised(Opened(Consume(w)), n + 1), r, NextReply(w)))
    decreases |w.script| - 1, 5
  {
    var tried := Opened(Consume(w));
    LoginAgrees(tried, n + 1);
    ExpiredAnswer(Raised(tried, n + 1), r, NextReply(w));
  }

  /** After an expired token the call is given back only if the login fails. */
  lemma {:induction false} ExpiredAnswer(w: World, r: Request, reply: Reply)
    requires w.depth > 0 && TokenExpired(reply)
    ensures var l := Login(w);
            && (l.err.Ok? ==> Answer(w, r, reply).w.depth >= l.w.depth)
            && (!l.err.Ok? ==> Answer(w, r, reply) == Unlocked(Ok, KeepClient(l.w, r), reply))
  {
    var l := Login(w);
    if l.err.Ok? {
      assert Answer(w, r, reply) == Generic(Reenter(KeepClient(l.w, r)), r);
    }
  }

  lemma {:induction false} KeptFailureReenters(w: World, r: Request)
    requires w.depth > 0 && KeptFails(w, r)
    ensures Exchange(w, r).w.depth >= w.depth
  {
    var tried := Reenter(WithClient(Opened(Consume(w)), false));
    assert Exchange(w, r) == Generic(tried, r);
  }

  lemma {:induction false} VersionAgrees(w: World, n: nat)
    requires w.ctx.versionChecked
    ensures Agrees(PassVersion(w), n, w.depth, GetApiVersion(Raised(w, n)))
    decreases |w.script|, 1
  {
    GenericIsExchange(Raised(w, n), VERSION_REQUEST);
    assert Lock(Raised(w, n)) == Raised(w, n + 1);
    ExchangeAgrees(w, VERSION_REQUEST, n);
  }

  lemma {:induction false} StartAgrees(w: World, r: Request, n: nat)
    requires Acceptable(r)
    ensures var start := PassStart(w, r);
            var out := Generic(Raised(w, n), r);
            && (start.Done? && start.result.err.Ok? ==> out == Authorize(Raised(start.result.w, n + 1), r))
            && (start.Again? || !start.result.err.Ok? ==> Agrees(start, n, w.depth, out))
    decreases |w.script|, 2
  {
    var held := Lock(Raised(w, n));
    assert held == Raised(w, n + 1);
    if NeedsVersion(w.ctx, r) {
      VersionAgrees(Checked(w), n + 1);
      assert held.(ctx := held.ctx.(versionChecked := true)) == Raised(Checked(w), n + 1);
      var v := GetApiVersion(Raised(Checked(w), n + 1));
      if v.err.Ok? {
        var next := v.w.(ctx := v.w.ctx.(version := v.reply.versions.first));
        assert Generic(Raised(w, n), r) == Authorize(next, r);
      }
    }
  }

  /** The request that a login makes. */
  lemma {:induction false} LoginCallAgrees(w: World, n: nat)
    ensures var r := LoginRequest(w.ctx);
            var start := PassStart(w, r);
            && (start.Done? && start.result.err.Ok? ==>
                  Agrees(PassExchange(start.result.w, r), n, w.depth, Generic(Raised(w, n), r)))
            && (start.Again? || !start.result.err.Ok? ==> Agrees(start, n, w.depth, Generic(Raised(w, n), r)))
    decreases |w.script|, 3
  {
    var r := LoginRequest(w.ctx);
    var start := PassStart(w, r);
    StartAgrees(w, r, n);
    if start.Done? && start.result.err.Ok? {
      var next := Raised(start.result.w, n + 1);
      assert Authorize(next, r) == Exchange(next, r);
      ExchangeAgrees(start.result.w, r, n);
    }
  }

  lemma {:induction false} LoginAgrees(w: World, n: nat)
    ensures Agrees(PassLogin(w), n, w.depth, Login(Raised(w, n)))
    decreases |w.script|, 4
  {
    if CredentialsSet(w.ctx) {
      LoginCallAgrees(w, n);
    }
  }

  lemma {:induction false} FinishAgrees(w: World, r: Request, n: nat)
    ensures Agrees(PassFinish(w, r), n, w.depth, Authorize(Raised(w, n + 1), r))
  {
    var held := Raised(w, n + 1);
    if NeedsLogin(w.ctx, r) {
      LoginAgrees(w, n + 1);
      var l := Login(held);
      if l.err.Ok? {
        assert Authorize(held, r) == Generic(Reenter(l.w), r);
      }
    } else {
      ExchangeAgrees(w, r, n);
    }
  }

  /** When the lock is given back. On every script, a call leaves it held as often as it was exactly if a
      single pass over the script, without a lock and without trying anything again, goes through; and
      then it is that pass. */
  lemma {:induction false} BalancedIff(w: World, r: Request)
    ensures Generic(w, r).w.depth == w.depth <==> PassGeneric(w, r).Done?
    ensures PassGeneric(w, r).Done? ==> Generic(w, r) == PassGeneric(w, r).result
  {
    assert Raised(w, 0) == w;
    if Acceptable(r) {
      StartAgrees(w, r, 0);
      var start := PassStart(w, r);
      if start.Done? && start.result.err.Ok? {
        FinishAgrees(start.result.w, r, 0);
      }
    }
  }

  /** In particular a call that needs neither version nor login leaves it held exactly if it fails on a
      kept client, or its token has expired and the login for a new one works or tries again. */
  lemma {:induction false} SettledBalancedIff(w: World, r: Request)
    requires Settled(w.ctx, r)
    ensures Generic(w, r).w.depth == w.depth <==>
              && !KeptFails(w, r)
              && (Expired(w, r) ==>
                    var l := PassLogin(Opened(Consume(w)));
                    l.Done? && !l.result.err.Ok?)
  {
    BalancedIff(w, r);
  }
}
