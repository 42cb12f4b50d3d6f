/** The user API context and its calls, updating it across the recursion (app_rmaker_user_api.c). The
    body of generic is cut in three at the points where the version and the token are settled. */
module UserApi {
  import opened UserApiCalls

  class UserApiContext {
    const reuseSupported: bool
    var ctx: Context
    var lockDepth: nat
    // What the server will answer.
    var script: seq<Attempt>
    ghost var opens: nat
    ghost var reentries: nat

    ghost function View(): World
      reads this
    {
      World(ctx, script, reuseSupported, lockDepth, opens, reentries)
    }

    /** app_rmaker_user_api_init: a given version counts as checked. */
    constructor (reuseSupported: bool, password: bool, refreshToken: bool, apiVersion: bool, script: seq<Attempt>)
      ensures View() == World(Context(true, password, refreshToken, false, apiVersion, apiVersion, false),
                              script, reuseSupported, 0, 0, 0)
    {
      this.reuseSupported := reuseSupported;
      ctx := Context(true, password, refreshToken, false, apiVersion, apiVersion, false);
      lockDepth := 0;
      this.script := script;
      opens, reentries := 0, 0;
    }

    method TakeLock()
      modifies this`lockDepth
      ensures lockDepth == old(lockDepth) + 1
    {
      lockDepth := lockDepth + 1;
    }

    method GiveLock()
      requires lockDepth > 0
      modifies this`lockDepth
      ensures lockDepth == old(lockDepth) - 1
    {
      lockDepth := lockDepth - 1;
    }

    method Generic(r: Request) returns (err: Err, reply: Reply)
      modifies this
      ensures Result(err, View(), reply) == UserApiCalls.Generic(old(View()), r)
      decreases |script|, if r.authorize then 2 else 0, if ctx.versionChecked then 0 else 2, ctx.client, 3
    {
      reply := NO_REPLY;
      if !Acceptable(r) {
        return InvalidArg, NO_REPLY;
      }
      ghost var w := View();
      TakeLock();
      assert View() == Lock(w);
      if !r.hasVersion && !ctx.version && !ctx.versionChecked {
        ctx := ctx.(versionChecked := true);
        assert View() == Lock(w).(ctx := w.ctx.(versionChecked := true));
        var found;
        err, found := GetApiVersion();
        if !err.Ok? {
          ctx := ctx.(versionChecked := false);
          GiveLock();
          return;
        }
        ctx := ctx.(version := found.versions.first);
      }
      err, reply := Authorize(r);
    }

    method Authorize(r: Request) returns (err: Err, reply: Reply)
      requires lockDepth > 0
      modifies this
      ensures Result(err, View(), reply) == UserApiCalls.Authorize(old(View()), r)
      decreases |script|, if r.authorize then 2 else 0, if ctx.versionChecked then 0 else 2, ctx.client, 2
    {
      reply := NO_REPLY;
      if r.authorize {
        if !ctx.accessToken {
          err := Login();
          if !err.Ok? {
            GiveLock();
            return;
          }
          reentries := reentries + 1;
          err, reply := Generic(r);
          return;
        }
      }
      err, reply := Exchange(r);
    }

    method Exchange(r: Request) returns (err: Err, reply: Reply)
      requires lockDepth > 0
      modifies this
      ensures Result(err, View(), reply) == UserApiCalls.Exchange(old(View()), r)
      decreases |script|, if r.authorize then 2 else 0, if ctx.versionChecked then 0 else 2, ctx.client, 1
    {
      reply := NO_REPLY;
      ghost var w := View();
      var attempt := NextAttempt(script);
      var reuseConnection := reuseSupported && r.reuse && ctx.client;
      if script != [] {
        script := script[1..];
      }
      assert View() == Consume(w);
      if !reuseConnection && !attempt.initOk {
        GiveLock();
        return Fail, NO_REPLY;
      }
      opens := opens + 1;
      assert View() == Opened(Consume(w));
      match attempt.outcome
      case RequestFails =>
        if reuseConnection {
          ctx := ctx.(client := false);
          reentries := reentries + 1;
          err, reply := Generic(r);
          return;
        }
        GiveLock();
        err := RequestError;
      case ResponseFails =>
        if reuseConnection {
          ctx := ctx.(client := false);
        }
        GiveLock();
        err := ResponseError;
      case Replies(answer) =>
        err, reply := Answer(r, answer);
    }

    method Answer(r: Request, answer: Reply) returns (err: Err, reply: Reply)
      requires lockDepth > 0
      modifies this
      ensures Result(err, View(), reply) == UserApiCalls.Answer(old(View()), r, answer)
      decreases |script|, 3
    {
      var needRetry := false;
      if answer.status == 401 && answer.unauthorized {
        var loginErr := Login();
        needRetry := loginErr.Ok?;
      }
      if reuseSupported && r.reuse {
        ctx := ctx.(client := true);
      }
      if needRetry {
        reentries := reentries + 1;
        err, reply := Generic(r);
        return;
      }
      GiveLock();
      return Ok, answer;
    }

    method Login() returns (err: Err)
      modifies this
      ensures Result(err, View(), NO_REPLY) == UserApiCalls.Login(old(View()))
      decreases |script|, 1, 0, false, 0
    {
      if !ctx.baseUrl || (!ctx.password && !ctx.refreshToken) {
        return InvalidState;
      }
      var reply;
      err, reply := Generic(Request(Post, ctx.version, true, false, false, true));
      if !err.Ok? {
        return;
      }
      if reply.status != 200 {
        return Fail;
      }
      err := ParseLogin(reply);
    }

    method ParseLogin(reply: Reply) returns (err: Err)
      modifies this`ctx
      ensures Result(err, View(), NO_REPLY) == UserApiCalls.ParseLogin(old(View()), reply)
    {
      if reply.login.Refused? {
        return Fail;
      }
      ctx := ctx.(accessToken := reply.login.stored);
      if reply.login.newRefresh {
        ctx := ctx.(refreshToken := true);
      }
      err := Ok;
    }

    method GetApiVersion() returns (err: Err, reply: Reply)
      modifies this
      ensures Result(err, View(), reply) == UserApiCalls.GetApiVersion(old(View()))
      decreases |script|, 0, if ctx.versionChecked then 1 else 3, false, 0
    {
      err, reply := Generic(VERSION_REQUEST);
      if !err.Ok? {
        return err, NO_REPLY;
      }
      if reply.versions.NoVersions? {
        return Fail, NO_REPLY;
      }
    }
  }
}
