/** The RainMaker user API request engine on values: generic, login and get_api_version call each other
    over one recursive lock, with retries (app_rmaker_user_api.c). The server is a finite script. */
module UserApiCalls {

  datatype Err = Ok | Fail | InvalidArg | InvalidState | RequestError | ResponseError

  datatype Kind = Get | Post | Put | Delete | OtherKind
  datatype Request = Request(
    kind: Kind, hasVersion: bool, reuse: bool, authorize: bool, hasQuery: bool, hasPayload: bool)

  /** What a reply holds for the parsers of the two built-in calls. */
  datatype VersionAnswer = NoVersions | Versions(first: bool)
  datatype LoginAnswer = Refused | Accepted(stored: bool, newRefresh: bool)
  datatype Reply = Reply(status: nat, unauthorized: bool, versions: VersionAnswer, login: LoginAnswer)

  /** One attempt at the server. initOk: a new HTTP client can be made, where one is needed. */
  datatype Outcome = RequestFails | ResponseFails | Replies(reply: Reply)
  datatype Attempt = Attempt(initOk: bool, outcome: Outcome)

  /** Which parts of the context are set. */
  datatype Context = Context(
    baseUrl: bool, password: bool, refreshToken: bool, accessToken: bool,
    version: bool, versionChecked: bool, client: bool)

  /** reuseSupported: CONFIG_RM_USER_SUPPORT_REUSE_HTTP_SESSION. depth: how often the lock is held.
      opens, reentries: HTTP opens so far, and returns into generic without an unlock so far. */
  datatype World = World(
    ctx: Context, script: seq<Attempt>, reuseSupported: bool, depth: nat, opens: nat, reentries: nat)

  datatype Result = Result(err: Err, w: World, reply: Reply)

  const NO_REPLY := Reply(0, false, NoVersions, Refused)
  const VERSION_REQUEST := Request(Get, false, true, false, false, false)

  function LoginRequest(ctx: Context): Request { Request(Post, ctx.version, true, false, false, true) }

  predicate Acceptable(r: Request) {
    match r.kind
    case Get => true
    case Post => r.hasPayload
    case Put => r.hasPayload
    case Delete => r.hasQuery
    case OtherKind => false
  }

  predicate CredentialsSet(ctx: Context) { ctx.baseUrl && (ctx.password || ctx.refreshToken) }

  predicate NeedsVersion(ctx: Context, r: Request) { !r.hasVersion && !ctx.version && !ctx.versionChecked }
  predicate NeedsLogin(ctx: Context, r: Request) { r.authorize && !ctx.accessToken }
  predicate TokenExpired(reply: Reply) { reply.status == 401 && reply.unauthorized }
  predicate Reuses(w: World, r: Request) { w.reuseSupported && r.reuse && w.ctx.client }

  function NextAttempt(script: seq<Attempt>): Attempt {
    if script == [] then Attempt(true, RequestFails) else script[0]
  }

  function Consume(w: World): World { if w.script == [] then w else w.(script := w.script[1..]) }

  function Lock(w: World): World { w.(depth := w.depth + 1) }
  function Unlocked(err: Err, w: World, reply: Reply): Result
    requires w.depth > 0
  {
    Result(err, w.(depth := w.depth - 1), reply)
  }
  function Reenter(w: World): World { w.(reentries := w.reentries + 1) }
  function Opened(w: World): World { w.(opens := w.opens + 1) }
  function WithClient(w: World, client: bool): World { w.(ctx := w.ctx.(client := client)) }

  /** Lock accounting of one call from w to out. */
  ghost predicate Accounts(w: World, out: Result) {
    && out.w.reuseSupported == w.reuseSupported
    && w.reentries <= out.w.reentries
    && out.w.depth == w.depth + (out.w.reentries - w.reentries)
    && |out.w.script| <= |w.script|
    && w.opens <= out.w.opens
  }

  /** A call that succeeds has used up part of the script. */
  ghost predicate Progress(w: World, out: Result) { out.err.Ok? ==> |out.w.script| < |w.script| }

  /** app_rmaker_user_api_generic. On return the lock is held as often as before, plus once for every
      re-entry at one of the three early returns anywhere below. */
  function Generic(w: World, r: Request): (out: Result)
    ensures Accounts(w, out) && Progress(w, out)
    decreases |w.script|, if r.authorize then 2 else 0, if w.ctx.versionChecked then 0 else 2, w.ctx.client, 3
  {
    if !Acceptable(r) then Result(InvalidArg, w, NO_REPLY)
    else if !NeedsVersion(w.ctx, r) then Authorize(Lock(w), r)
    else
      var v := GetApiVersion(Lock(w).(ctx := w.ctx.(versionChecked := true)));
      if !v.err.Ok? then Unlocked(v.err, v.w.(ctx := v.w.ctx.(versionChecked := false)), NO_REPLY)
      else Authorize(v.w.(ctx := v.w.ctx.(version := v.reply.versions.first)), r)
  }

  /** The rest of generic once the version is settled; the lock is held. */
  function Authorize(w: World, r: Request): (out: Result)
    requires w.depth > 0
    ensures Accounts(w.(depth := w.depth - 1), out) && Progress(w, out)
    decreases |w.script|, if r.authorize then 2 else 0, if w.ctx.versionChecked then 0 else 2, w.ctx.client, 2
  {
    if !NeedsLogin(w.ctx, r) then Exchange(w, r)
    else
      var l := Login(w);
      if !l.err.Ok? then Unlocked(l.err, l.w, NO_REPLY) else Generic(Reenter(l.w), r)
  }

  /** The rest of generic once authorization is settled: the HTTP exchange; the lock is held. */
  function Exchange(w: World, r: Request): (out: Result)
    requires w.depth > 0
    ensures Accounts(w.(depth := w.depth - 1), out) && Progress(w, out)
    decreases |w.script|, if r.authorize then 2 else 0, if w.ctx.versionChecked then 0 else 2, w.ctx.client, 1
  {
    var attempt := NextAttempt(w.script);
    var reuses := Reuses(w, r);
    var next := Consume(w);
    if !reuses && !attempt.initOk then Unlocked(Fail, next, NO_REPLY)
    else
      var tried := Opened(next);
      match attempt.outcome
      case RequestFails =>
        if reuses then Generic(Reenter(WithClient(tried, false)), r) else Unlocked(RequestError, tried, NO_REPLY)
      case ResponseFails =>
        Unlocked(ResponseError, if reuses then WithClient(tried, false) else tried, NO_REPLY)
      case Replies(reply) => Answer(tried, r, reply)
  }

  /** The reply is in: log in again and retry if the token has expired. */
  function Answer(w: World, r: Request, reply: Reply): (out: Result)
    requires w.depth > 0
    ensures Accounts(w.(depth := w.depth - 1), out)
    decreases |w.script|, 3
  {
    if !TokenExpired(reply) then Unlocked(Ok, KeepClient(w, r), reply)
    else
      var l := Login(w);
      var kept := KeepClient(l.w, r);
      if l.err.Ok? then Generic(Reenter(kept), r) else Unlocked(Ok, kept, reply)
  }

  /** A session to be reused stays in the context. */
  function KeepClient(w: World, r: Request): World {
    if w.reuseSupported && r.reuse then WithClient(w, true) else w
  }

  /** app_rmaker_user_api_login. */
  function Login(w: World): (out: Result)
    ensures Accounts(w, out) && Progress(w, out)
    decreases |w.script|, 1, 0, false, 0
  {
    if !CredentialsSet(w.ctx) then Result(InvalidState, w, NO_REPLY)
    else
      var g := Generic(w, LoginRequest(w.ctx));
      if !g.err.Ok? then Result(g.err, g.w, NO_REPLY)
      else if g.reply.status != 200 then Result(Fail, g.w, NO_REPLY)
      else ParseLogin(g.w, g.reply)
  }

  /** app_rmaker_user_api_parse_login_response. */
  function ParseLogin(w: World, reply: Reply): Result {
    match reply.login
    case Refused => Result(Fail, w, NO_REPLY)
    case Accepted(stored, newRefresh) =>
      Result(Ok, w.(ctx := w.ctx.(accessToken := stored, refreshToken := w.ctx.refreshToken || newRefresh)), NO_REPLY)
  }

  /** app_rmaker_user_api_get_api_version; the reply carries the version found. */
  function GetApiVersion(w: World): (out: Result)
    ensures Accounts(w, out) && Progress(w, out)
    ensures out.err.Ok? ==> out.reply.versions.Versions?
    decreases |w.script|, 0, if w.ctx.versionChecked then 1 else 3, false, 0
  {
    var g := Generic(w, VERSION_REQUEST);
    if !g.err.Ok? then Result(g.err, g.w, NO_REPLY)
    else if g.reply.versions.NoVersions? then Result(Fail, g.w, NO_REPLY)
    else g
  }
}
