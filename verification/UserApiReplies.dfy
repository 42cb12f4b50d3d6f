/** Which reply a call returns, and which attempt at the server an error comes from, over every script. */
module UserApiReplies {
  import opened UserApiCalls
  import opened UserApiProofs

  // ---- What a call has used up ----

  /** out comes after w: it has used up a prefix of the script, and lost no credentials. */
  ghost predicate Follows(w: World, out: World) {
    && |out.script| <= |w.script| && out.script == w.script[|w.script| - |out.script|..]
    && out.ctx.baseUrl == w.ctx.baseUrl && out.ctx.password == w.ctx.password
    && (w.ctx.refreshToken ==> out.ctx.refreshToken)
  }

  /** Attempt i was used up on the way from w to out, and it got this reply. */
  ghost predicate RepliedAt(w: World, out: World, i: int, reply: Reply) {
    && |out.script| <= |w.script| && 0 <= i < |w.script| - |out.script|
    && w.script[i].outcome == Replies(reply)
  }

  predicate IsLast(w: World, out: World, i: int) { i == |w.script| - |out.script| - 1 }

  /** The reply is one that was received: in the last attempt, unless it says that the token has expired. */
  ghost predicate Received(w: World, out: World, reply: Reply) {
    exists i :: RepliedAt(w, out, i, reply) && (IsLast(w, out, i) || TokenExpired(reply))
  }

  /** A reply that the parsers of the built-in calls do not take. */
  predicate Unusable(reply: Reply) { reply.status != 200 || reply.login.Refused? || reply.versions.NoVersions? }

  ghost predicate ReceivedUnusable(w: World, out: World) {
    exists reply :: Received(w, out, reply) && Unusable(reply)
  }

  /** Something was used up, and this last. */
  predicate LastUsed(w: World, out: World, a: Attempt) {
    |out.script| < |w.script| && w.script[|w.script| - |out.script| - 1] == a
  }

  /** An error tells what happened in the last attempt, or that there are no credentials. */
  ghost predicate Explains(w: World, out: World, err: Err) {
    match err
    case Ok => true
    case InvalidArg => false
    case InvalidState => !CredentialsSet(w.ctx)
    case RequestError => out.script == [] || exists a :: LastUsed(w, out, a) && a.outcome.RequestFails?
    case ResponseError => exists a :: LastUsed(w, out, a) && a.outcome.ResponseFails?
    case Fail => ReceivedUnusable(w, out) || exists a :: LastUsed(w, out, a) && !a.initOk
  }

  ghost predicate Serves(w: World, out: Result) {
    && Follows(w, out.w) && Explains(w, out.w, out.err)
    && (out.err.Ok? ==> Received(w, out.w, out.reply))
  }

  // ---- Composition ----

  lemma {:induction false} FollowsOn(w: World, mid: World, out: World)
    requires Follows(w, mid) && Follows(mid, out)
    ensures Follows(w, out)
  {
  }

  lemma {:induction false} ExplainsOn(w: World, mid: World, out: World, err: Err)
    requires Follows(w, mid) && Follows(mid, out) && Explains(mid, out, err)
    ensures Explains(w, out, err)
  {
    if |out.script| < |mid.script| {
      var a := mid.script[|mid.script| - |out.script| - 1];
      assert LastUsed(mid, out, a) && LastUsed(w, out, a);
    }
    if err.Fail? && ReceivedUnusable(mid, out) {
      var reply :| Received(mid, out, reply) && Unusable(reply);
      ReceivedOn(w, mid, out, reply);
    }
  }

  lemma {:induction false} ReceivedOn(w: World, mid: World, out: World, reply: Reply)
    requires Follows(w, mid) && Follows(mid, out) && Received(mid, out, reply)
    ensures Received(w, out, reply)
  {
    var i :| RepliedAt(mid, out, i, reply) && (IsLast(mid, out, i) || TokenExpired(reply));
    var j := |w.script| - |mid.script| + i;
    assert w.script[j] == mid.script[i];
    assert RepliedAt(w, out, j, reply);
  }

  lemma {:induction false} ServesOn(w: World, mid: World, out: Result)
    requires Follows(w, mid) && Serves(mid, out)
    ensures Serves(w, out)
  {
    FollowsOn(w, mid, out.w);
    ExplainsOn(w, mid, out.w, out.err);
    if out.err.Ok? {
      ReceivedOn(w, mid, out.w, out.reply);
    }
  }

  // ---- The calls ----

  lemma {:induction false} ConsumeFollows(w: World)
    ensures Follows(w, Consume(w))
  {
  }

  /** An attempt without a reply. */
  lemma {:induction false} FailedTryServes(w: World, out: Result)
    requires Follows(w, out.w) && out.w.script == Consume(w).script
    requires var a := NextAttempt(w.script);
             match out.err
             case RequestError => a.outcome.RequestFails?
             case ResponseError => a.outcome.ResponseFails?
             case Fail => !a.initOk
             case _ => false
    ensures Serves(w, out)
  {
    if w.script != [] {
      assert LastUsed(w, out.w, NextAttempt(w.script));
    }
  }

  lemma {:induction false} ExchangeServes(w: World, r: Request)
    requires w.depth > 0 && Acceptable(r)
    ensures Serves(w, Exchange(w, r))
    decreases |w.script|, if r.authorize then 2 else 0, if w.ctx.versionChecked then 0 else 2, w.ctx.client, 1
  {
    if NextAttempt(w.script).outcome.Replies? && (Reuses(w, r) || NextAttempt(w.script).initOk) {
      RepliedServes(w, r);
    } else if NextAttempt(w.script).outcome.RequestFails? && Reuses(w, r) {
      KeptFailureServes(w, r);
    } else {
      UnansweredServes(w, r);
    }
  }

  /** No reply, and nothing to try again. */
  lemma {:induction false} UnansweredServes(w: World, r: Request)
    requires w.depth > 0
    requires !(NextAttempt(w.script).outcome.Replies? && (Reuses(w, r) || NextAttempt(w.script).initOk))
    requires !(NextAttempt(w.script).outcome.RequestFails? && Reuses(w, r))
    ensures Serves(w, Exchange(w, r))
  {
    ConsumeFollows(w);
    FailedTryServes(w, Exchange(w, r));
  }

  lemma {:induction false} ExchangeIsAnswer(w: World, r: Request)
    requires w.depth > 0
    requires NextAttempt(w.script).outcome.Replies? && (Reuses(w, r) || NextAttempt(w.script).initOk)
    ensures Exchange(w, r) == Answer(Opened(Consume(w)), r, NextAttempt(w.script).outcome.reply)
  {
  }

  lemma {:induction false} RepliedServes(w: World, r: Request)
    requires w.depth > 0 && Acceptable(r)
    requires NextAttempt(w.script).outcome.Replies? && (Reuses(w, r) || NextAttempt(w.script).initOk)
    ensures Serves(w, Exchange(w, r))
    decreases |w.script|, if r.authorize then 2 else 0, if w.ctx.versionChecked then 0 else 2, w.ctx.client, 0
  {
    var reply := NextAttempt(w.script).outcome.reply;
    var tried := Opened(Consume(w));
    ExchangeIsAnswer(w, r);
    assert tried.script == w.script[1..] && tried.depth > 0 && w.script[0].outcome == Replies(reply);
    AnswerServes(tried, r, reply);
    FirstReplyServes(w, tried, Answer(tried, r, reply), reply);
  }

  lemma {:induction false} KeptFailureServes(w: World, r: Request)
    requires w.depth > 0 && Acceptable(r) && Reuses(w, r) && NextAttempt(w.script).outcome.RequestFails?
    ensures Serves(w, Exchange(w, r))
    decreases |w.script|, if r.authorize then 2 else 0, if w.ctx.versionChecked then 0 else 2, w.ctx.client, 0
  {
    var again := Reenter(WithClient(Opened(Consume(w)), false));
    ConsumeFollows(w);
    assert Exchange(w, r) == Generic(again, r);
    GenericServes(again, r);
    ServesOn(w, again, Generic(again, r));
  }

  /** From the reply on: it is returned, at once or because the login for a new token has failed, or the
      request is tried again. */
  ghost predicate AnswersWith(w: World, out: Result, reply: Reply) {
    && Follows(w, out.w)
    && if out.err.Ok? && out.reply == reply && (TokenExpired(reply) || out.w.script == w.script) then true
       else Serves(w, out)
  }

  lemma {:induction false} AnsweredServes(w: World, tried: World, out: Result, reply: Reply)
    requires w.script != [] && w.script[0].outcome == Replies(reply)
    requires Follows(w, tried) && tried.script == w.script[1..] && AnswersWith(tried, out, reply)
    ensures Serves(w, out)
  {
    if out.err.Ok? && out.reply == reply && (TokenExpired(reply) || out.w.script == tried.script) {
      FollowsOn(w, tried, out.w);
      assert RepliedAt(w, out.w, 0, reply);
    } else {
      ServesOn(w, tried, out);
    }
  }

  /** The login went through, and the request is made again. */
  lemma {:induction false} RetryServes(w: World, l: Result, again: World, out: Result)
    requires LogsIn(w, l) && again.script == l.w.script && Credentials(again.ctx, l.w.ctx) && Serves(again, out)
    ensures Serves(w, out)
  {
    ServesOn(w, again, out);
  }

  predicate Credentials(c: Context, d: Context) {
    c.baseUrl == d.baseUrl && c.password == d.password && c.refreshToken == d.refreshToken
  }

  lemma {:induction false} FirstReplyServes(w: World, tried: World, out: Result, reply: Reply)
    requires w.script != [] && w.script[0].outcome == Replies(reply) && tried == Opened(Consume(w))
    requires AnswersWith(tried, out, reply)
    ensures Serves(w, out)
  {
    ConsumeFollows(w);
    AnsweredServes(w, tried, out, reply);
  }

  lemma {:induction false} AnswerServes(w: World, r: Request, reply: Reply)
    requires w.depth > 0 && Acceptable(r)
    ensures AnswersWith(w, Answer(w, r, reply), reply)
    decreases |w.script|, 3
  {
    if !TokenExpired(reply) {
      PlainAnswer(w, r, reply);
    } else {
      LoginServes(w);
      var l := Login(w);
      var kept := KeepClient(l.w, r);
      if l.err.Ok? {
        assert Answer(w, r, reply) == Generic(Reenter(kept), r);
        GenericServes(Reenter(kept), r);
        RetryServes(w, l, Reenter(kept), Generic(Reenter(kept), r));
      } else {
        assert Answer(w, r, reply) == Unlocked(Ok, kept, reply);
      }
    }
  }

  /** A login that fails ends the call. */
  lemma {:induction false} LoginFailureServes(w: World, l: Result, out: Result)
    requires LogsIn(w, l) && !l.err.Ok? && out.err == l.err && out.w.script == l.w.script && out.w.ctx == l.w.ctx
    ensures Serves(w, out)
  {
    SameEnd(w, l.w, out.w, l.err);
  }

  lemma {:induction false} SameEnd(w: World, out: World, out': World, err: Err)
    requires Explains(w, out, err) && out'.script == out.script && Follows(w, out)
    ensures Explains(w, out', err)
  {
    if |out.script| < |w.script| {
      var a := w.script[|w.script| - |out.script| - 1];
      assert LastUsed(w, out, a) && LastUsed(w, out', a);
    }
    if err.Fail? && ReceivedUnusable(w, out) {
      var reply :| Received(w, out, reply) && Unusable(reply);
      SameScript(w, out, out', reply);
    }
  }

  lemma {:induction false} AuthorizeServes(w: World, r: Request)
    requires w.depth > 0 && Acceptable(r)
    ensures Serves(w, Authorize(w, r))
    decreases |w.script|, if r.authorize then 2 else 0, if w.ctx.versionChecked then 0 else 2, w.ctx.client, 2
  {
    if !NeedsLogin(w.ctx, r) {
      ExchangeServes(w, r);
    } else {
      LoginServes(w);
      var l := Login(w);
      if l.err.Ok? {
        assert Authorize(w, r) == Generic(Reenter(l.w), r);
        GenericServes(Reenter(l.w), r);
        RetryServes(w, l, Reenter(l.w), Generic(Reenter(l.w), r));
      } else {
        LoginFailureServes(w, l, Authorize(w, r));
      }
    }
  }

  /** The end of generic after the version call. */
  lemma {:induction false} AfterVersionServes(w: World, v: Result, next: World, out: Result)
    requires Serves(w, v) && next.script == v.w.script && Credentials(next.ctx, v.w.ctx)
    requires if v.err.Ok? then Serves(next, out)
             else out.err == v.err && out.w.script == v.w.script && Credentials(out.w.ctx, v.w.ctx)
    ensures Serves(w, out)
  {
    if v.err.Ok? {
      ServesOn(w, next, out);
    } else {
      SameEnd(w, v.w, out.w, v.err);
    }
  }

  lemma {:induction false} SameStart(w: World, w': World, out: Result)
    requires Serves(w', out) && w'.script == w.script && Credentials(w'.ctx, w.ctx)
    ensures Serves(w, out)
  {
    ServesOn(w, w', out);
  }

  lemma {:induction false} GenericServes(w: World, r: Request)
    requires Acceptable(r)
    ensures Serves(w, Generic(w, r))
    decreases |w.script|, if r.authorize then 2 else 0, if w.ctx.versionChecked then 0 else 2, w.ctx.client, 3
  {
    if !NeedsVersion(w.ctx, r) {
      AuthorizeServes(Lock(w), r);
      SameStart(w, Lock(w), Generic(w, r));
    } else {
      VersionedServes(w, r);
    }
  }

  lemma {:induction false} VersionedServes(w: World, r: Request)
    requires Acceptable(r) && NeedsVersion(w.ctx, r)
    ensures Serves(w, Generic(w, r))
    decreases |w.script|, if r.authorize then 2 else 0, 2, w.ctx.client, 2
  {
    var start := Lock(w).(ctx := w.ctx.(versionChecked := true));
    VersionServes(start);
    var v := GetApiVersion(start);
    var next := v.w.(ctx := v.w.ctx.(version := v.reply.versions.Versions? && v.reply.versions.first));
    if v.err.Ok? {
      assert Generic(w, r) == Authorize(next, r);
      AuthorizeServes(next, r);
    }
    AfterVersionServes(start, v, next, Generic(w, r));
    SameStart(w, start, Generic(w, r));
  }

  /** The last attempt got a reply with status 200 and an accepted login, whose tokens are in the context. */
  ghost predicate LoggedInBy(w: World, out: World, reply: Reply) {
    && (exists i :: RepliedAt(w, out, i, reply) && IsLast(w, out, i))
    && reply.status == 200 && reply.login.Accepted?
    && out.ctx.accessToken == reply.login.stored && (reply.login.newRefresh ==> out.ctx.refreshToken)
  }

  ghost predicate LogsIn(w: World, l: Result) {
    && Follows(w, l.w) && Explains(w, l.w, l.err) && l.reply == NO_REPLY
    && (l.err.Ok? ==> exists reply :: LoggedInBy(w, l.w, reply))
  }

  lemma {:induction false} SameScript(w: World, out: World, out': World, reply: Reply)
    requires Follows(w, out) && Received(w, out, reply) && out'.script == out.script
    ensures Received(w, out', reply)
    ensures !TokenExpired(reply) ==> exists i :: RepliedAt(w, out', i, reply) && IsLast(w, out', i)
  {
    var i :| RepliedAt(w, out, i, reply) && (IsLast(w, out, i) || TokenExpired(reply));
    assert RepliedAt(w, out', i, reply) && IsLast(w, out', i) == IsLast(w, out, i);
  }

  /** What the login makes of the reply to its request. */
  function LoginEnds(g: Result): Result {
    if !g.err.Ok? then Result(g.err, g.w, NO_REPLY)
    else if g.reply.status != 200 then Result(Fail, g.w, NO_REPLY)
    else ParseLogin(g.w, g.reply)
  }

  lemma {:induction false} LoginEndsIn(w: World, g: Result)
    requires Serves(w, g)
    ensures LogsIn(w, LoginEnds(g))
  {
    if g.err.Ok? {
      SameScript(w, g.w, LoginEnds(g).w, g.reply);
      if LoginEnds(g).err.Ok? {
        assert LoggedInBy(w, LoginEnds(g).w, g.reply);
      } else {
        assert Unusable(g.reply);
      }
    }
  }

  /** A login returns no reply; it succeeds by the last attempt, which brings the token. */
  lemma {:induction false} LoginServes(w: World)
    ensures LogsIn(w, Login(w))
    decreases |w.script|, 1, 0, false, 0
  {
    if CredentialsSet(w.ctx) {
      GenericServes(w, LoginRequest(w.ctx));
      LoginEndsIn(w, Generic(w, LoginRequest(w.ctx)));
    }
  }

  /** What the version call makes of the reply to its request. */
  function VersionEnds(g: Result): Result {
    if !g.err.Ok? then Result(g.err, g.w, NO_REPLY)
    else if g.reply.versions.NoVersions? then Result(Fail, g.w, NO_REPLY)
    else g
  }

  lemma {:induction false} VersionEndsIn(w: World, g: Result)
    requires Serves(w, g)
    ensures Serves(w, VersionEnds(g))
  {
    if g.err.Ok? && g.reply.versions.NoVersions? {
      assert Unusable(g.reply);
    }
  }

  lemma {:induction false} VersionServes(w: World)
    ensures Serves(w, GetApiVersion(w))
    decreases |w.script|, 0, if w.ctx.versionChecked then 1 else 3, false, 0
  {
    GenericServes(w, VERSION_REQUEST);
    VersionEndsIn(w, Generic(w, VERSION_REQUEST));
  }

  // ---- What the caller gets ----

  /** The reply at position i of the script is the one returned: it is the last used up, or says that the
      token has expired. */
  predicate ReturnedFrom(w: World, out: Result, i: int) {
    && 0 <= i < |w.script| - |out.w.script| && w.script[i].outcome == Replies(out.reply)
    && (i == |w.script| - |out.w.script| - 1 || (out.reply.status == 401 && out.reply.unauthorized))
  }

  predicate Used(w: World, out: Result) { |out.w.script| < |w.script| }

  /** The last attempt that the call has used up. */
  function LastAttempt(w: World, out: Result): Attempt
    requires Used(w, out)
  {
    w.script[|w.script| - |out.w.script| - 1]
  }

  /** What the script says of the result. */
  ghost predicate Told(w: World, out: Result) {
    && |out.w.script| <= |w.script| && out.w.script == w.script[|w.script| - |out.w.script|..]
    && (out.err.Ok? ==> exists i :: ReturnedFrom(w, out, i))
    && (out.err.RequestError? ==> out.w.script == [] || (Used(w, out) && LastAttempt(w, out).outcome.RequestFails?))
    && (out.err.ResponseError? ==> Used(w, out) && LastAttempt(w, out).outcome.ResponseFails?)
    && (out.err.InvalidState? ==> !w.ctx.baseUrl || (!w.ctx.password && !w.ctx.refreshToken))
  }

  lemma {:induction false} ServesTold(w: World, out: Result)
    requires Serves(w, out)
    ensures Told(w, out)
  {
    if out.err.Ok? {
      ReceivedTold(w, out);
    }
  }

  lemma {:induction false} ReceivedTold(w: World, out: Result)
    requires Received(w, out.w, out.reply)
    ensures exists i :: ReturnedFrom(w, out, i)
  {
    var i :| RepliedAt(w, out.w, i, out.reply) && (IsLast(w, out.w, i) || TokenExpired(out.reply));
    assert ReturnedFrom(w, out, i);
  }

  /** Every reply that a call returns was received from the server, in an attempt that the call has used
      up: in its last one, unless the reply says that the token has expired. Every error tells what
      happened in that last attempt, or what the call was short of. */
  lemma {:induction false} ReplyIsReceived(w: World, r: Request)
    ensures Told(w, Generic(w, r))
  {
    if Acceptable(r) {
      GenericServes(w, r);
      ServesTold(w, Generic(w, r));
    }
  }

  /** Exactly which requests are refused as invalid: those of no known kind, a POST or PUT without a
      payload, and a DELETE without a query. They change nothing. */
  lemma {:induction false} RefusedIff(w: World, r: Request)
    ensures Generic(w, r).err.InvalidArg? <==>
            || r.kind.OtherKind?
            || ((r.kind.Post? || r.kind.Put?) && !r.hasPayload)
            || (r.kind.Delete? && !r.hasQuery)
    ensures Generic(w, r).err.InvalidArg? ==> Generic(w, r).w == w
  {
    if Acceptable(r) {
      GenericServes(w, r);
    }
  }

  /** Exactly when a login is refused for want of credentials: without a base URL, or with neither a
      password nor a refresh token. It then tries nothing. */
  lemma {:induction false} NoCredentialsIff(w: World)
    ensures Login(w).err.InvalidState? <==> !w.ctx.baseUrl || (!w.ctx.password && !w.ctx.refreshToken)
    ensures Login(w).err.InvalidState? ==> Login(w).w == w
  {
    LoginServes(w);
  }

  /** A login that succeeds has received its tokens in its last attempt, with status 200. */
  lemma {:induction false} LoginBringsTokens(w: World)
    requires Login(w).err.Ok?
    ensures var out := Login(w).w;
            var used := |w.script| - |out.script|;
            && used > 0 && w.script[used - 1].outcome.Replies?
            && var reply := w.script[used - 1].outcome.reply;
            && reply.status == 200 && reply.login.Accepted?
            && out.ctx.accessToken == reply.login.stored && (reply.login.newRefresh ==> out.ctx.refreshToken)
  {
    LoginServes(w);
    var reply :| LoggedInBy(w, Login(w).w, reply);
  }

  /** A settled login, in full. */
  lemma {:induction false} SettledLogin(w: World, reply: Reply)
    requires CredentialsSet(w.ctx) && (w.ctx.version || w.ctx.versionChecked) && w.script != []
    requires w.script[0] == Attempt(true, Replies(reply)) && reply.status == 200 && reply.login.Accepted?
    ensures var l := Login(w);
            && l.err.Ok? && l.w.opens == w.opens + 1 && l.w.depth == w.depth && l.w.script == w.script[1..]
            && l.w.ctx == w.ctx.(accessToken := reply.login.stored,
                                 refreshToken := w.ctx.refreshToken || reply.login.newRefresh,
                                 client := w.ctx.client || w.reuseSupported)
  {
    var r := LoginRequest(w.ctx);
    GenericIsExchange(w, r);
    PlainAnswer(Opened(Consume(Lock(w))), r, reply);
    assert Exchange(Lock(w), r) == Answer(Opened(Consume(Lock(w))), r, reply);
  }

  /** The built-in calls get the version first where it is not settled: a login, which is a POST with a
      payload, then makes two opens, and so does the version call itself. */
  lemma {:induction false} BuiltInOpens(w: World)
    requires AllWell(w, 2)
    ensures var settled := w.ctx.version || w.ctx.versionChecked;
            && GetApiVersion(w).w.opens == w.opens + (if settled then 1 else 2)
            && (CredentialsSet(w.ctx) ==>
                  Login(w).err.Ok? && Login(w).w.opens == w.opens + (if settled then 1 else 2))
    ensures LoginRequest(w.ctx).kind.Post? && LoginRequest(w.ctx).hasPayload && !LoginRequest(w.ctx).authorize
  {
    var settled := w.ctx.version || w.ctx.versionChecked;
    OpenWell(w, VERSION_REQUEST, if settled then 1 else 0);
    if CredentialsSet(w.ctx) {
      LoginWell(w, if settled then 1 else 0);
    }
  }

  // ---- An expired token ----

  /** The version is named, known or asked for already, no token is missing, and a reply comes. */
  predicate SettledCall(w: World, r: Request) {
    && Acceptable(r) && (r.hasVersion || w.ctx.version || w.ctx.versionChecked) && (!r.authorize || w.ctx.accessToken)
    && w.script != [] && w.script[0].initOk && w.script[0].outcome.Replies?
  }

  /** Only a 401 that says the token is not authorized is taken for an expired token: every other reply,
      whatever its status, is what the caller gets. */
  lemma {:induction false} OtherRepliesReturned(w: World, r: Request)
    requires SettledCall(w, r)
    requires var reply := w.script[0].outcome.reply; reply.status != 401 || !reply.unauthorized
    ensures var out := Generic(w, r);
            && out.err.Ok? && out.reply == w.script[0].outcome.reply
            && out.w.opens == w.opens + 1 && out.w.depth == w.depth && out.w.script == w.script[1..]
  {
    GenericIsExchange(w, r);
    var tried := Opened(Consume(Lock(w)));
    assert Exchange(Lock(w), r) == Answer(tried, r, w.script[0].outcome.reply);
    PlainAnswer(tried, r, w.script[0].outcome.reply);
  }

  /** After such a reply the call logs in for a new token and makes the request again, so that the caller
      gets the reply to that; the lock stays held once more. */
  lemma {:induction false} ExpiredIsRetried(w: World, r: Request)
    requires SettledCall(w, r) && CredentialsSet(w.ctx) && (w.ctx.version || w.ctx.versionChecked)
    requires var reply := w.script[0].outcome.reply; reply.status == 401 && reply.unauthorized
    requires |w.script| >= 3 && WellAttempt(w.script[1]) && WellAttempt(w.script[2])
    ensures var out := Generic(w, r);
            && out.err.Ok? && out.reply == w.script[2].outcome.reply
            && out.w.opens == w.opens + 3 && out.w.depth == w.depth + 1 && out.w.script == w.script[3..]
  {
    var tried := Opened(Consume(Lock(w)));
    GenericIsExchange(w, r);
    assert Exchange(Lock(w), r) == Answer(tried, r, w.script[0].outcome.reply);
    assert tried.script[0] == w.script[1];
    SettledLogin(tried, w.script[1].outcome.reply);
    var again := Reenter(KeepClient(Login(tried).w, r));
    assert Answer(tried, r, w.script[0].outcome.reply) == Generic(again, r);
    assert again.script[0] == w.script[2] && again.script[1..] == w.script[3..];
    OtherRepliesReturned(again, r);
  }
}
