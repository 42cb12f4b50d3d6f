/** How often a call opens the connection, and when it leaves the lock held. */
module UserApiProofs {
  import opened UserApiCalls

  // ---- Calm scripts: no reply is an expired token, and allocation succeeds ----

  predicate CalmAttempt(a: Attempt) {
    a.outcome.Replies? ==>
      !TokenExpired(a.outcome.reply) && (a.outcome.reply.login.Accepted? ==> a.outcome.reply.login.stored)
  }

  ghost predicate Calm(w: World) { forall i :: 0 <= i < |w.script| ==> CalmAttempt(w.script[i]) }

  // ---- The number of opens ----

  /** The most opens one exchange can take without an expired token. */
  function PerExchange(w: World): nat { if w.reuseSupported then 2 else 1 }

  predicate Expires(a: Attempt) { a.outcome.Replies? && TokenExpired(a.outcome.reply) }

  /** What the expired tokens of a script may cost: eleven exchanges each. */
  function Debt(script: seq<Attempt>, per: nat): nat {
    if script == [] then 0 else (if Expires(script[0]) then 11 * per else 0) + Debt(script[1..], per)
  }

  function Owed(w: World): nat { Debt(w.script, PerExchange(w)) }

  /** An access token that is received can be stored. */
  ghost predicate Storing(w: World) {
    forall i :: 0 <= i < |w.script| && w.script[i].outcome.Replies? && w.script[i].outcome.reply.login.Accepted? ==>
      w.script[i].outcome.reply.login.stored
  }

  ghost predicate StoredIn(reply: Reply) { reply.login.Accepted? ==> reply.login.stored }

  ghost predicate SameFlags(c: Context, d: Context) {
    c.version == d.version && c.versionChecked == d.versionChecked && c.accessToken == d.accessToken
  }

  /** A call opens at most bound times, unless it meets expired tokens: then what they may cost pays for
      all further opens, and slack is left over. */
  ghost predicate Pays(w: World, out: Result, bound: nat, slack: nat) {
    && Storing(out.w) && out.w.reuseSupported == w.reuseSupported && StoredIn(out.reply)
    && Owed(out.w) <= Owed(w)
    && (Owed(out.w) == Owed(w) ==> out.w.opens <= w.opens + bound)
    && (Owed(out.w) < Owed(w) ==> out.w.opens + Owed(out.w) + slack <= w.opens + bound + Owed(w))
  }

  /** No expired token was met. */
  ghost predicate Undisturbed(w: World, out: Result) { Owed(out.w) == Owed(w) }

  lemma {:induction false} ConsumePays(w: World)
    requires Storing(w)
    ensures Storing(Consume(w))
    ensures Owed(w) == Owed(Consume(w)) + (if Expires(NextAttempt(w.script)) then 11 * PerExchange(w) else 0)
    ensures NextAttempt(w.script).outcome.Replies? ==> StoredIn(NextAttempt(w.script).outcome.reply)
  {
    if w.script != [] {
      assert w.script[0] == NextAttempt(w.script);
    }
  }

  /** With version and token settled, generic is one exchange under the lock. */
  lemma {:induction false} GenericIsExchange(w: World, r: Request)
    requires Acceptable(r) && !NeedsVersion(w.ctx, r) && !NeedsLogin(w.ctx, r)
    ensures Generic(w, r) == Exchange(Lock(w), r)
  {
    assert Generic(w, r) == Authorize(Lock(w), r);
  }

  /** A reply without an expired token is returned as it is. */
  lemma {:induction false} PlainAnswer(w: World, r: Request, reply: Reply)
    requires w.depth > 0 && !TokenExpired(reply)
    ensures Answer(w, r, reply) == Unlocked(Ok, KeepClient(w, r), reply)
  {
  }

  /** After an expired token: a login, and perhaps the request again. */
  lemma {:induction false} AnswerPays(w: World, r: Request, reply: Reply)
    requires w.depth > 0 && Storing(w) && TokenExpired(reply) && StoredIn(reply)
    ensures Pays(w, Answer(w, r, reply), 5 * PerExchange(w), 0)
    decreases |w.script|, 3
  {
    LoginPays(w);
    var l := Login(w);
    var kept := KeepClient(l.w, r);
    if l.err.Ok? {
      GenericPays(Reenter(kept), r);
      assert Answer(w, r, reply) == Generic(Reenter(kept), r);
    } else {
      assert Answer(w, r, reply) == Unlocked(Ok, kept, reply);
    }
  }

  /** An exchange that is not tried again. */
  lemma {:induction false} TryPays(w: World, r: Request)
    requires w.depth > 0 && Storing(w) && !(Reuses(w, r) && NextAttempt(w.script).outcome.RequestFails?)
    ensures Pays(w, Exchange(w, r), 1, 6 * PerExchange(w))
    ensures Undisturbed(w, Exchange(w, r)) ==> SameFlags(w.ctx, Exchange(w, r).w.ctx)
    decreases |w.script|, if r.authorize then 2 else 0, if w.ctx.versionChecked then 0 else 2, w.ctx.client, 0
  {
    var attempt := NextAttempt(w.script);
    var tried := Opened(Consume(w));
    ConsumePays(w);
    if attempt.outcome.Replies? && (Reuses(w, r) || attempt.initOk) {
      var reply := attempt.outcome.reply;
      assert Exchange(w, r) == Answer(tried, r, reply);
      if TokenExpired(reply) {
        AnswerPays(tried, r, reply);
      } else {
        PlainAnswer(tried, r, reply);
      }
    }
  }

  /** One exchange is tried twice only if the first try reused a client. */
  lemma {:induction false} SettledPays(w: World, r: Request)
    requires w.depth > 0 && Storing(w) && Acceptable(r) && !NeedsVersion(w.ctx, r) && !NeedsLogin(w.ctx, r)
    ensures Pays(w, Exchange(w, r), PerExchange(w), 6 * PerExchange(w))
    ensures Undisturbed(w, Exchange(w, r)) ==> SameFlags(w.ctx, Exchange(w, r).w.ctx)
    decreases |w.script|, if r.authorize then 2 else 0, if w.ctx.versionChecked then 0 else 2, w.ctx.client, 1
  {
    if Reuses(w, r) && NextAttempt(w.script).outcome.RequestFails? {
      var again := Reenter(WithClient(Opened(Consume(w)), false));
      ConsumePays(w);
      GenericIsExchange(again, r);
      TryPays(Lock(again), r);
      assert Exchange(w, r) == Exchange(Lock(again), r);
    } else {
      TryPays(w, r);
    }
  }

  /** The same when version or token may have been lost. */
  lemma {:induction false} AnyExchangePays(w: World, r: Request)
    requires w.depth > 0 && Storing(w)
    ensures Pays(w, Exchange(w, r), 4 * PerExchange(w), 0)
    decreases |w.script|, if r.authorize then 2 else 0, if w.ctx.versionChecked then 0 else 2, w.ctx.client, 1
  {
    if Reuses(w, r) && NextAttempt(w.script).outcome.RequestFails? {
      var again := Reenter(WithClient(Opened(Consume(w)), false));
      ConsumePays(w);
      GenericPays(again, r);
      assert Exchange(w, r) == Generic(again, r);
    } else {
      TryPays(w, r);
    }
  }

  lemma {:induction false} VersionPays(w: World)
    requires Storing(w) && w.ctx.versionChecked
    ensures Pays(w, GetApiVersion(w), PerExchange(w), 6 * PerExchange(w))
    ensures Undisturbed(w, GetApiVersion(w)) ==> SameFlags(w.ctx, GetApiVersion(w).w.ctx)
    decreases |w.script|, 0, 1, false, 0
  {
    GenericIsExchange(w, VERSION_REQUEST);
    SettledPays(Lock(w), VERSION_REQUEST);
  }

  /** What an open request leaves settled, if no expired token was met. */
  ghost predicate Settles(w: World, out: Result, r: Request) {
    Undisturbed(w, out) && out.err.Ok? ==>
      && !NeedsVersion(out.w.ctx, r) && (w.ctx.versionChecked ==> out.w.ctx.versionChecked)
      && (w.ctx.version ==> out.w.ctx.version)
  }

  /** The exchange after the version was fetched: next is what the fetch v has left. */
  lemma {:induction false} AfterVersionPays(start: World, v: Result, next: World, r: Request)
    requires Storing(start) && start.ctx.versionChecked
    requires Pays(start, v, PerExchange(start), 6 * PerExchange(start))
    requires Undisturbed(start, v) ==> SameFlags(start.ctx, v.w.ctx)
    requires next == v.w.(ctx := v.w.ctx.(version := v.reply.versions.Versions? && v.reply.versions.first))
    requires next.depth > 0 && !r.authorize && Acceptable(r)
    ensures Pays(start, Exchange(next, r), 2 * PerExchange(start), 3 * PerExchange(start))
    ensures Undisturbed(start, Exchange(next, r)) ==> Exchange(next, r).w.ctx.versionChecked
    decreases |next.script|, 0, if next.ctx.versionChecked then 0 else 2, next.ctx.client, 2
  {
    if Undisturbed(start, v) {
      SettledPays(next, r);
    } else {
      AnyExchangePays(next, r);
    }
  }

  /** A request without authorization: at most the version fetch and its own exchange. */
  lemma {:induction false} OpenPays(w: World, r: Request)
    requires Storing(w) && !r.authorize
    ensures Pays(w, Generic(w, r), (if NeedsVersion(w.ctx, r) then 2 else 1) * PerExchange(w), 3 * PerExchange(w))
    ensures Settles(w, Generic(w, r), r)
    decreases |w.script|, 0, if w.ctx.versionChecked then 0 else 2, w.ctx.client, 3
  {
    if !Acceptable(r) {
    } else if NeedsVersion(w.ctx, r) {
      var start := Lock(w).(ctx := w.ctx.(versionChecked := true));
      VersionPays(start);
      var v := GetApiVersion(start);
      if v.err.Ok? {
        var next := v.w.(ctx := v.w.ctx.(version := v.reply.versions.first));
        assert Generic(w, r) == Exchange(next, r);
        AfterVersionPays(start, v, next, r);
      }
    } else {
      GenericIsExchange(w, r);
      SettledPays(Lock(w), r);
    }
  }

  lemma {:induction false} LoginPays(w: World)
    requires Storing(w)
    ensures var out := Login(w);
            && Pays(w, out, (if NeedsVersion(w.ctx, LoginRequest(w.ctx)) then 2 else 1) * PerExchange(w),
                    3 * PerExchange(w))
            && (Undisturbed(w, out) && out.err.Ok? ==>
                  && out.w.ctx.accessToken && !NeedsVersion(out.w.ctx, LoginRequest(w.ctx))
                  && (w.ctx.versionChecked ==> out.w.ctx.versionChecked) && (w.ctx.version ==> out.w.ctx.version))
    decreases |w.script|, 1, 0, false, 0
  {
    if CredentialsSet(w.ctx) {
      OpenPays(w, LoginRequest(w.ctx));
    }
  }

  /** Once the version is settled. */
  lemma {:induction false} AuthorizePays(w: World, r: Request)
    requires w.depth > 0 && Storing(w) && Acceptable(r) && !NeedsVersion(w.ctx, r)
    ensures Pays(w, Authorize(w, r), (if NeedsVersion(w.ctx, LoginRequest(w.ctx)) then 3 else 2) * PerExchange(w), 0)
    decreases |w.script|, if r.authorize then 2 else 0, if w.ctx.versionChecked then 0 else 2, w.ctx.client, 2
  {
    if !NeedsLogin(w.ctx, r) {
      SettledPays(w, r);
    } else {
      LoginPays(w);
      var l := Login(w);
      if l.err.Ok? {
        var again := Reenter(l.w);
        assert Authorize(w, r) == Generic(again, r);
        AfterLoginPays(again, r, Undisturbed(w, l));
      }
    }
  }

  /** The request again after a login. */
  lemma {:induction false} AfterLoginPays(w: World, r: Request, undisturbed: bool)
    requires Storing(w) && Acceptable(r)
    requires undisturbed ==> !NeedsVersion(w.ctx, r) && !NeedsLogin(w.ctx, r)
    ensures undisturbed ==> Pays(w, Generic(w, r), PerExchange(w), 6 * PerExchange(w))
    ensures !undisturbed ==> Pays(w, Generic(w, r), 3 * PerExchange(w), 0)
    decreases |w.script|, if r.authorize then 2 else 0, if w.ctx.versionChecked then 0 else 2, w.ctx.client, 4
  {
    if undisturbed {
      GenericIsExchange(w, r);
      SettledPays(Lock(w), r);
    } else {
      GenericPays(w, r);
    }
  }

  lemma {:induction false} AnyAuthorizePays(w: World, r: Request)
    requires w.depth > 0 && Storing(w)
    ensures Pays(w, Authorize(w, r), 5 * PerExchange(w), 0)
    decreases |w.script|, if r.authorize then 2 else 0, if w.ctx.versionChecked then 0 else 2, w.ctx.client, 2
  {
    if !NeedsLogin(w.ctx, r) {
      AnyExchangePays(w, r);
    } else {
      LoginPays(w);
      var l := Login(w);
      if l.err.Ok? {
        assert Authorize(w, r) == Generic(Reenter(l.w), r);
        GenericPays(Reenter(l.w), r);
      }
    }
  }

  /** Any call: version, login and the request. */
  lemma {:induction false} GenericPays(w: World, r: Request)
    requires Storing(w)
    ensures Pays(w, Generic(w, r), 3 * PerExchange(w), 0)
    decreases |w.script|, if r.authorize then 2 else 0, if w.ctx.versionChecked then 0 else 2, w.ctx.client, 3
  {
    if !Acceptable(r) {
    } else if !NeedsVersion(w.ctx, r) {
      AuthorizePays(Lock(w), r);
    } else {
      var start := Lock(w).(ctx := w.ctx.(versionChecked := true));
      VersionPays(start);
      var v := GetApiVersion(start);
      if v.err.Ok? {
        var next := v.w.(ctx := v.w.ctx.(version := v.reply.versions.first));
        assert Generic(w, r) == Authorize(next, r);
        if Undisturbed(start, v) {
          AuthorizePays(next, r);
        } else {
          AnyAuthorizePays(next, r);
        }
      }
    }
  }

  /** How many replies of a script say that the token has expired. */
  function Expirations(script: seq<Attempt>): nat {
    if script == [] then 0 else (if Expires(script[0]) then 1 else 0) + Expirations(script[1..])
  }

  lemma {:induction false} DebtCounts(script: seq<Attempt>)
    ensures Debt(script, 1) == 11 * Expirations(script) && Debt(script, 2) == 22 * Expirations(script)
  {
    if script == [] {
    } else {
      DebtCounts(script[1..]);
    }
  }

  /** The retries are bounded by the expired tokens: when every token received can be stored, a call makes
      at most six HTTP opens, two each for version, login and the request, and 22 more for every reply
      that the token has expired; half as many without session reuse. */
  lemma {:induction false} RetriesBounded(w: World, r: Request)
    requires Storing(w)
    ensures Generic(w, r).w.opens <=
            w.opens + (if w.reuseSupported then 6 + 22 * Expirations(w.script) else 3 + 11 * Expirations(w.script))
  {
    GenericPays(w, r);
    DebtCounts(w.script);
  }

  lemma {:induction false} CalmNeverExpires(script: seq<Attempt>)
    requires forall i :: 0 <= i < |script| ==> CalmAttempt(script[i])
    ensures Expirations(script) == 0
  {
    if script == [] {
    } else {
      CalmNeverExpires(script[1..]);
    }
  }

  /** Bounded retry: when no reply is an expired token and allocation succeeds, a call makes at most
      six HTTP opens; three without session reuse. */
  lemma {:induction false} BoundedRetry(w: World, r: Request)
    requires Calm(w)
    ensures Generic(w, r).w.opens <= w.opens + (if w.reuseSupported then 6 else 3)
  {
    CalmNeverExpires(w.script);
    RetriesBounded(w, r);
  }

  /** There is no bound without them: rejected credentials, answered n times with an expired token, make
      at least n opens, because the login logs in again to retry itself. */
  lemma {:induction false} RejectedCredentials(w: World, n: nat)
    requires CredentialsSet(w.ctx) && n <= |w.script|
    requires forall i :: 0 <= i < n ==> w.script[i].initOk && Expires(w.script[i])
    ensures Login(w).w.opens >= w.opens + n
    decreases n
  {
    if n == 0 {
    } else {
      assert Expires(w.script[0]);
      var held, first := FirstRejected(w);
      var tried := Opened(Consume(held));
      RejectedCredentials(tried, n - 1);
    }
  }

  /** The first exchange of such a login, for the version or for the login itself, leads to another. */
  lemma {:induction false} FirstRejected(w: World) returns (held: World, first: Request)
    requires CredentialsSet(w.ctx) && w.script != [] && w.script[0].initOk && Expires(w.script[0])
    ensures held.script == w.script && held.opens == w.opens && CredentialsSet(held.ctx)
    ensures Login(w).w.opens >= Login(Opened(Consume(held))).w.opens
  {
    var r := LoginRequest(w.ctx);
    var start := Lock(w).(ctx := w.ctx.(versionChecked := true));
    if NeedsVersion(w.ctx, r) {
      held, first := Lock(start), VERSION_REQUEST;
      GenericIsExchange(start, VERSION_REQUEST);
      OpensAfterVersion(w, r);
    } else {
      held, first := Lock(w), r;
      GenericIsExchange(w, r);
    }
    RejectedExchange(held, first);
  }

  lemma {:induction false} RejectedExchange(w: World, r: Request)
    requires w.depth > 0 && w.script != [] && w.script[0].initOk && Expires(w.script[0])
    ensures Exchange(w, r).w.opens >= Login(Opened(Consume(w))).w.opens
  {
    var tried := Opened(Consume(w));
    var l := Login(tried);
    assert Exchange(w, r) == Answer(tried, r, w.script[0].outcome.reply);
    if l.err.Ok? {
      assert Exchange(w, r) == Generic(Reenter(KeepClient(l.w, r)), r);
    }
  }

  lemma {:induction false} OpensAfterVersion(w: World, r: Request)
    requires Acceptable(r) && NeedsVersion(w.ctx, r)
    ensures Generic(w, r).w.opens >= GetApiVersion(Lock(w).(ctx := w.ctx.(versionChecked := true))).w.opens
  {
    var v := GetApiVersion(Lock(w).(ctx := w.ctx.(versionChecked := true)));
    if v.err.Ok? {
      var next := v.w.(ctx := v.w.ctx.(version := v.reply.versions.first));
      assert Generic(w, r) == Authorize(next, r);
    }
  }

  // ---- Everything goes well ----

  predicate WellAttempt(a: Attempt) {
    && a.initOk && a.outcome.Replies? && a.outcome.reply.status == 200
    && a.outcome.reply.versions == Versions(true)
    && a.outcome.reply.login.Accepted? && a.outcome.reply.login.stored
  }

  ghost predicate AllWell(w: World, n: nat) {
    n <= |w.script| && forall i :: 0 <= i < |w.script| ==> WellAttempt(w.script[i])
  }

  lemma {:induction false} ExchangeWell(w: World, r: Request, n: nat)
    requires w.depth > 0 && AllWell(w, n + 1)
    ensures var out := Exchange(w, r);
            && out.err.Ok? && out.reply == w.script[0].outcome.reply && out.w.script == w.script[1..]
            && AllWell(out.w, n) && SameFlags(w.ctx, out.w.ctx) && CredentialsSet(out.w.ctx) == CredentialsSet(w.ctx)
            && out.w.opens == w.opens + 1 && out.w.depth == w.depth - 1
  {
    assert WellAttempt(w.script[0]);
  }

  lemma {:induction false} VersionWell(w: World, n: nat)
    requires AllWell(w, n + 1) && w.ctx.versionChecked
    ensures var out := GetApiVersion(w);
            && out.err.Ok? && out.reply.versions == Versions(true) && out.w.script == w.script[1..]
            && AllWell(out.w, n) && SameFlags(w.ctx, out.w.ctx) && CredentialsSet(out.w.ctx) == CredentialsSet(w.ctx)
            && out.w.opens == w.opens + 1 && out.w.depth == w.depth
  {
    GenericIsExchange(w, VERSION_REQUEST);
    ExchangeWell(Lock(w), VERSION_REQUEST, n);
  }

  function VersionOpens(ctx: Context, r: Request): nat { if NeedsVersion(ctx, r) then 1 else 0 }

  /** Every attempt used up is an open, and the reply is that of the last one. */
  ghost predicate RepliedBy(w: World, out: Result) {
    && w.opens < out.w.opens && UsedUp(w, out.w)
    && w.script[out.w.opens - w.opens - 1].outcome == Replies(out.reply)
  }

  ghost predicate UsedUp(w: World, out: World) {
    0 <= out.opens - w.opens <= |w.script| && out.script == w.script[out.opens - w.opens..]
  }

  lemma {:induction false} RepliedLater(w: World, mid: World, out: Result)
    requires UsedUp(w, mid) && RepliedBy(mid, out)
    ensures RepliedBy(w, out)
  {
    assert w.script[mid.opens - w.opens..][out.w.opens - mid.opens..] == w.script[out.w.opens - w.opens..];
  }

  lemma {:induction false} OpenWell(w: World, r: Request, n: nat)
    requires AllWell(w, n + 1 + VersionOpens(w.ctx, r)) && Acceptable(r) && !NeedsLogin(w.ctx, r)
    ensures var out := Generic(w, r);
            && out.err.Ok? && AllWell(out.w, n) && RepliedBy(w, out)
            && out.w.opens == w.opens + 1 + VersionOpens(w.ctx, r) && out.w.depth == w.depth
            && out.w.ctx.accessToken == w.ctx.accessToken && CredentialsSet(out.w.ctx) == CredentialsSet(w.ctx)
            && out.w.ctx.version == (w.ctx.version || NeedsVersion(w.ctx, r))
            && out.w.ctx.versionChecked == (w.ctx.versionChecked || NeedsVersion(w.ctx, r))
  {
    if NeedsVersion(w.ctx, r) {
      var start := Lock(w).(ctx := w.ctx.(versionChecked := true));
      VersionWell(start, n + 1);
      var v := GetApiVersion(start);
      var next := v.w.(ctx := v.w.ctx.(version := v.reply.versions.first));
      ExchangeWell(next, r, n);
      assert Generic(w, r) == Exchange(next, r);
      RepliedLater(w, next, Exchange(next, r));
    } else {
      GenericIsExchange(w, r);
      ExchangeWell(Lock(w), r, n);
    }
  }

  lemma {:induction false} LoginWell(w: World, n: nat)
    requires AllWell(w, n + 1 + VersionOpens(w.ctx, LoginRequest(w.ctx))) && CredentialsSet(w.ctx)
    ensures var out := Login(w);
            && out.err.Ok? && AllWell(out.w, n) && out.w.ctx.accessToken && UsedUp(w, out.w)
            && out.w.opens == w.opens + 1 + VersionOpens(w.ctx, LoginRequest(w.ctx)) && out.w.depth == w.depth
            && (w.ctx.version ==> out.w.ctx.version) && (w.ctx.versionChecked ==> out.w.ctx.versionChecked)
  {
    OpenWell(w, LoginRequest(w.ctx), n);
  }

  lemma {:induction false} AuthorizeWell(w: World, r: Request)
    requires w.depth > 0 && Acceptable(r) && CredentialsSet(w.ctx) && !NeedsVersion(w.ctx, r)
    requires AllWell(w, if NeedsLogin(w.ctx, r) then 2 + VersionOpens(w.ctx, LoginRequest(w.ctx)) else 1)
    ensures var out := Authorize(w, r);
            && out.err.Ok? && RepliedBy(w, out)
            && out.w.opens == w.opens + 1
                              + (if NeedsLogin(w.ctx, r) then 1 + VersionOpens(w.ctx, LoginRequest(w.ctx)) else 0)
            && out.w.depth == w.depth - 1 + (if NeedsLogin(w.ctx, r) then 1 else 0)
  {
    if NeedsLogin(w.ctx, r) {
      LoginWell(w, 1);
      var again := Reenter(Login(w).w);
      OpenWell(again, r, 0);
      assert Authorize(w, r) == Generic(again, r);
      RepliedLater(w, again, Generic(again, r));
    } else {
      ExchangeWell(w, r, 0);
    }
  }

  /** When nothing fails, the call succeeds, fetching the version and logging in exactly when needed;
      it returns the reply to its last open, which is the one to the request itself; and it leaves the
      lock held once more than before exactly when it had to log in. */
  lemma {:induction false} LockLeftHeldIff(w: World, r: Request)
    requires AllWell(w, 3) && Acceptable(r) && CredentialsSet(w.ctx)
    ensures var out := Generic(w, r);
            && out.err.Ok? && 0 < out.w.opens - w.opens <= |w.script|
            && w.script[out.w.opens - w.opens - 1].outcome == Replies(out.reply)
            && (out.w.depth == w.depth <==> !NeedsLogin(w.ctx, r))
            && (NeedsLogin(w.ctx, r) ==> out.w.depth == w.depth + 1)
            && out.w.opens == w.opens + 1 + (if NeedsLogin(w.ctx, r) then 1 else 0)
                              + (if NeedsVersion(w.ctx, r)
                                    || (NeedsLogin(w.ctx, r) && NeedsVersion(w.ctx, LoginRequest(w.ctx)))
                                 then 1 else 0)
  {
    if !NeedsVersion(w.ctx, r) {
      AuthorizeWell(Lock(w), r);
    } else {
      var start := Lock(w).(ctx := w.ctx.(versionChecked := true));
      VersionWell(start, 2);
      var v := GetApiVersion(start);
      var next := v.w.(ctx := v.w.ctx.(version := v.reply.versions.first));
      AuthorizeWell(next, r);
      assert Generic(w, r) == Authorize(next, r);
      RepliedLater(w, next, Authorize(next, r));
    }
  }

  // ---- The bound is reached ----

  /** A reused client that fails costs a second open, and a lock level. */
  lemma {:induction false} ReusedClientFails(w: World, r: Request)
    requires w.depth > 0 && Reuses(w, r) && Acceptable(r) && !NeedsVersion(w.ctx, r) && !NeedsLogin(w.ctx, r)
    requires |w.script| >= 2 && w.script[0].outcome.RequestFails? && WellAttempt(w.script[1])
    ensures Exchange(w, r) ==
            Result(Ok, w.(script := w.script[2..], opens := w.opens + 2, reentries := w.reentries + 1),
                   w.script[1].outcome.reply)
  {
    var again := Reenter(WithClient(Opened(Consume(w)), false));
    assert again.script[0] == w.script[1] && again.script[1..] == w.script[2..];
    GenericIsExchange(again, r);
    assert Exchange(w, r) == Exchange(Lock(again), r);
    assert Exchange(Lock(again), r) == Answer(Opened(Consume(Lock(again))), r, w.script[1].outcome.reply);
    assert KeepClient(Opened(Consume(Lock(again))), r).ctx == w.ctx;
  }

  ghost predicate FailThenWell(s: seq<Attempt>, n: nat) {
    2 * n <= |s| && forall i :: 0 <= i < 2 * n ==> if i % 2 == 0 then s[i].outcome.RequestFails? else WellAttempt(s[i])
  }

  lemma {:induction false} FailThenWellTail(s: seq<Attempt>, n: nat)
    requires FailThenWell(s, n + 1)
    ensures s[0].outcome.RequestFails? && WellAttempt(s[1]) && FailThenWell(s[2..], n)
  {
    assert s[0].outcome.RequestFails? && WellAttempt(s[1]);
    forall i | 0 <= i < 2 * n
      ensures if i % 2 == 0 then s[2..][i].outcome.RequestFails? else WellAttempt(s[2..][i])
    {
      assert s[2..][i] == s[i + 2] && i % 2 == (i + 2) % 2;
    }
  }

  /** A settled request with such a client. */
  lemma {:induction false} SettledFailsOnce(w: World, r: Request)
    requires w.reuseSupported && w.ctx.client && r.reuse && Acceptable(r)
    requires !NeedsVersion(w.ctx, r) && !NeedsLogin(w.ctx, r) && FailThenWell(w.script, 1)
    ensures Generic(w, r) == Result(Ok, w.(script := w.script[2..], opens := w.opens + 2, depth := w.depth + 1,
                                           reentries := w.reentries + 1), w.script[1].outcome.reply)
  {
    FailThenWellTail(w.script, 0);
    GenericIsExchange(w, r);
    ReusedClientFails(Lock(w), r);
  }

  lemma {:induction false} LoginThenRequest(w: World, r: Request)
    requires w.reuseSupported && w.ctx.client && r.reuse && Acceptable(r) && CredentialsSet(w.ctx) && w.depth > 0
    requires !NeedsVersion(w.ctx, r) && !NeedsVersion(w.ctx, LoginRequest(w.ctx)) && NeedsLogin(w.ctx, r)
    requires FailThenWell(w.script, 2)
    ensures var out := Authorize(w, r);
            out.err == Ok && out.w.opens == w.opens + 4 && out.w.depth == w.depth + 2
  {
    FailThenWellTail(w.script, 1);
    SettledFailsOnce(w, LoginRequest(w.ctx));
    SettledFailsOnce(Reenter(Login(w).w), r);
  }

  /** The bound is reached: with a kept client that fails each time, an authorized call that needs both
      version and login opens six connections, and leaves the lock held four more times. */
  lemma {:induction false} SixOpens(w: World, r: Request)
    requires w.reuseSupported && w.ctx.client && r.reuse && Acceptable(r) && CredentialsSet(w.ctx)
    requires NeedsVersion(w.ctx, r) && NeedsLogin(w.ctx, r) && FailThenWell(w.script, 3)
    ensures Generic(w, r).err == Ok && Generic(w, r).w.opens == w.opens + 6 && Generic(w, r).w.depth == w.depth + 4
  {
    FailThenWellTail(w.script, 2);
    var start := Lock(w).(ctx := w.ctx.(versionChecked := true));
    SettledFailsOnce(start, VERSION_REQUEST);
    var v := GetApiVersion(start);
    LoginThenRequest(v.w.(ctx := v.w.ctx.(version := true)), r);
  }
}
