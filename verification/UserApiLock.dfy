/** The same in closed form, where only the request itself may find its token expired: in terms of what the
    call is asked, what the context holds and what the server answers. */
module UserApiLock {
  import opened UserApiCalls
  import opened UserApiProofs
  import opened UserApiPass

  // ---- The condition ----

  predicate FindsVersion(w: World) { Answers(w, VERSION_REQUEST) && NextReply(w).versions.Versions? }

  function Versioned(w: World): World
    requires FindsVersion(w)
  {
    var next := Answered(Checked(w), VERSION_REQUEST);
    next.(ctx := next.ctx.(version := NextReply(w).versions.first))
  }

  /** The world in which a request that needs no login is exchanged, once the version is settled. */
  function Ready(w: World, r: Request): World {
    if NeedsVersion(w.ctx, r) && FindsVersion(w) then Versioned(w) else w
  }

  predicate VersionQuiet(w: World, r: Request) { NeedsVersion(w.ctx, r) ==> !KeptFails(w, VERSION_REQUEST) }
  predicate VersionSettles(w: World, r: Request) { NeedsVersion(w.ctx, r) ==> FindsVersion(w) }

  /** A login never fails on a kept client. */
  predicate LoginQuiet(w: World) {
    var r := LoginRequest(w.ctx);
    CredentialsSet(w.ctx) ==> VersionQuiet(w, r) && (VersionSettles(w, r) ==> !KeptFails(Ready(w, r), r))
  }

  predicate LoginWorks(w: World) {
    var r := LoginRequest(w.ctx);
    && CredentialsSet(w.ctx) && VersionSettles(w, r) && Answers(Ready(w, r), r)
    && NextReply(Ready(w, r)).status == 200 && NextReply(Ready(w, r)).login.Accepted?
  }

  /** A login is tried, and fails on no kept client, but fails. */
  predicate LoginFailsQuietly(w: World) { LoginQuiet(w) && !LoginWorks(w) }

  predicate Finishes(w: World, r: Request) {
    if NeedsLogin(w.ctx, r) then LoginFailsQuietly(w)
    else !KeptFails(w, r) && (Expired(w, r) ==> LoginFailsQuietly(Opened(Consume(w))))
  }

  /** No request fails on a kept client, and every login that has to be made, for want of a token or
      because it has expired, fails. */
  predicate Balanced(w: World, r: Request) {
    Acceptable(r) ==> VersionQuiet(w, r) && (VersionSettles(w, r) ==> Finishes(Ready(w, r), r))
  }

  /** The attempt that answers the request itself, if no login is needed. */
  function RequestAt(ctx: Context, r: Request): nat { if NeedsVersion(ctx, r) then 1 else 0 }

  /** Only the request itself may be told that the token has expired. */
  ghost predicate RestCalm(w: World, r: Request) {
    forall i :: 0 <= i < |w.script| && (i != RequestAt(w.ctx, r) || NeedsLogin(w.ctx, r)) ==> CalmAttempt(w.script[i])
  }

  // ---- The proof ----

  lemma {:induction false} ExchangeQuiet(w: World, r: Request)
    requires w.depth > 0 && !Expired(w, r)
    ensures Exchange(w, r).w.depth == w.depth - 1 <==> !KeptFails(w, r)
    ensures !KeptFails(w, r) ==> (Exchange(w, r).err.Ok? <==> Answers(w, r))
    ensures Answers(w, r) ==> Exchange(w, r) == Unlocked(Ok, Answered(w, r), NextReply(w))
  {
    if KeptFails(w, r) {
      KeptFailureReenters(w, r);
    } else if Answers(w, r) {
      PlainAnswer(Opened(Consume(w)), r, NextReply(w));
    }
  }

  lemma {:induction false} SettledQuiet(w: World, r: Request)
    requires Settled(w.ctx, r) && !Expired(w, r)
    ensures Generic(w, r).w.depth == w.depth <==> !KeptFails(w, r)
    ensures !KeptFails(w, r) ==> (Generic(w, r).err.Ok? <==> Answers(w, r))
    ensures Answers(w, r) ==> Generic(w, r) == Result(Ok, Answered(w, r), NextReply(w))
  {
    GenericIsExchange(w, r);
    ExchangeQuiet(Lock(w), r);
  }

  lemma {:induction false} VersionIsQuiet(w: World)
    requires !Expired(w, VERSION_REQUEST)
    ensures var v := GetApiVersion(Checked(w));
            && (v.w.depth == w.depth <==> !KeptFails(w, VERSION_REQUEST))
            && (!KeptFails(w, VERSION_REQUEST) ==> (v.err.Ok? <==> FindsVersion(w)))
            && (FindsVersion(w) ==> v == Result(Ok, Answered(Checked(w), VERSION_REQUEST), NextReply(w)))
  {
    SettledQuiet(Checked(w), VERSION_REQUEST);
  }

  /** Generic up to the point where the version is settled. */
  lemma {:induction false} VersionStage(w: World, r: Request)
    requires Acceptable(r) && (NeedsVersion(w.ctx, r) ==> !Expired(w, VERSION_REQUEST))
    ensures VersionQuiet(w, r) && VersionSettles(w, r) ==> Generic(w, r) == Authorize(Lock(Ready(w, r)), r)
    ensures VersionQuiet(w, r) && !VersionSettles(w, r) ==> !Generic(w, r).err.Ok? && Generic(w, r).w.depth == w.depth
    ensures !VersionQuiet(w, r) ==> Generic(w, r).w.depth > w.depth
  {
    if NeedsVersion(w.ctx, r) {
      VersionIsQuiet(Lock(w));
      var v := GetApiVersion(Checked(Lock(w)));
      if FindsVersion(w) {
        assert v.w.(ctx := v.w.ctx.(version := v.reply.versions.first)) == Lock(Versioned(w));
      }
    }
  }

  lemma {:induction false} LoginIsQuiet(w: World)
    requires Calm(w)
    ensures Login(w).w.depth == w.depth <==> LoginQuiet(w)
    ensures LoginQuiet(w) ==> (Login(w).err.Ok? <==> LoginWorks(w))
  {
    if CredentialsSet(w.ctx) {
      var r := LoginRequest(w.ctx);
      FirstCalm(w);
      VersionStage(w, r);
      if VersionQuiet(w, r) && VersionSettles(w, r) {
        var ready := Ready(w, r);
        ReadyCalm(w, r);
        FirstCalm(ready);
        assert Authorize(Lock(ready), r) == Exchange(Lock(ready), r);
        ExchangeQuiet(Lock(ready), r);
      }
    }
  }

  lemma {:induction false} FirstCalm(w: World)
    requires w.script != [] ==> CalmAttempt(w.script[0])
    ensures forall r :: !Expired(w, r)
  {
  }

  lemma {:induction false} ReadyCalm(w: World, r: Request)
    requires Calm(w)
    ensures Calm(Ready(w, r))
  {
  }

  /** The last exchange may meet an expired token: then it ends with a login. */
  lemma {:induction false} ExpiredEnds(w: World, r: Request)
    requires w.depth > 0 && Expired(w, r) && Calm(Opened(Consume(w)))
    ensures Exchange(w, r).w.depth == w.depth - 1 <==> LoginFailsQuietly(Opened(Consume(w)))
  {
    var tried := Opened(Consume(w));
    LoginIsQuiet(tried);
    assert Exchange(w, r) == Answer(tried, r, NextReply(w));
  }

  lemma {:induction false} AuthorizeEnds(w: World, r: Request)
    requires w.depth > 0 && Calm(if NeedsLogin(w.ctx, r) then w else Consume(w))
    ensures Authorize(w, r).w.depth == w.depth - 1 <==> Finishes(w, r)
  {
    if NeedsLogin(w.ctx, r) {
      LoginIsQuiet(w);
    } else if Expired(w, r) {
      ExpiredEnds(w, r);
    } else {
      ExchangeQuiet(w, r);
    }
  }

  lemma {:induction false} RestAfterVersion(w: World, r: Request)
    requires RestCalm(w, r) && VersionSettles(w, r)
    ensures Calm(if NeedsLogin(w.ctx, r) then Ready(w, r) else Consume(Ready(w, r)))
    ensures NeedsLogin(Ready(w, r).ctx, r) == NeedsLogin(w.ctx, r)
    ensures NeedsVersion(w.ctx, r) && w.script != [] ==> CalmAttempt(w.script[0])
  {
  }

  lemma {:induction false} LockedReady(w: World, r: Request)
    ensures Ready(Lock(w), r) == Lock(Ready(w, r))
    ensures VersionQuiet(Lock(w), r) == VersionQuiet(w, r) && VersionSettles(Lock(w), r) == VersionSettles(w, r)
  {
  }

  lemma {:induction false} LockedLogin(w: World)
    ensures LoginFailsQuietly(Lock(w)) == LoginFailsQuietly(w)
  {
    var r := LoginRequest(w.ctx);
    LockedReady(w, r);
    assert KeptFails(Lock(Ready(w, r)), r) == KeptFails(Ready(w, r), r);
    assert Answers(Lock(Ready(w, r)), r) == Answers(Ready(w, r), r);
    assert NextReply(Lock(Ready(w, r))) == NextReply(Ready(w, r));
    assert LoginQuiet(Lock(w)) == LoginQuiet(w);
    assert LoginWorks(Lock(w)) == LoginWorks(w);
  }

  lemma {:induction false} LockedFinishes(w: World, r: Request)
    ensures Finishes(Lock(w), r) == Finishes(w, r)
  {
    var next := Opened(Consume(w));
    assert Opened(Consume(Lock(w))) == Lock(next);
    LockedLogin(w);
    LockedLogin(next);
    assert KeptFails(Lock(w), r) == KeptFails(w, r) && Expired(Lock(w), r) == Expired(w, r);
  }

  lemma {:induction false} SettledVersionEnds(w: World, r: Request)
    requires RestCalm(w, r) && Acceptable(r) && VersionQuiet(w, r) && VersionSettles(w, r)
    ensures Generic(w, r).w.depth == w.depth <==> Finishes(Ready(w, r), r)
  {
    var ready := Ready(w, r);
    RestAfterVersion(w, r);
    if NeedsVersion(w.ctx, r) {
      FirstCalm(w);
    }
    VersionStage(w, r);
    AuthorizeEnds(Lock(ready), r);
    LockedFinishes(ready, r);
  }

  lemma {:induction false} VersionEnds(w: World, r: Request)
    requires RestCalm(w, r) && Acceptable(r) && !(VersionQuiet(w, r) && VersionSettles(w, r))
    ensures Generic(w, r).w.depth == w.depth <==> VersionQuiet(w, r)
  {
    if w.script != [] {
      assert CalmAttempt(w.script[0]);
    }
    FirstCalm(w);
    VersionStage(w, r);
  }

  /** In closed form, if only the request itself may be told that its token has expired: a call leaves the
      lock held as often as it was exactly if no request fails on a kept client and every login it has to
      make fails. */
  lemma {:induction false} CalmBalancedIff(w: World, r: Request)
    requires RestCalm(w, r)
    ensures Generic(w, r).w.depth == w.depth <==> Balanced(w, r)
  {
    if Acceptable(r) {
      if VersionQuiet(w, r) && VersionSettles(w, r) {
        SettledVersionEnds(w, r);
      } else {
        VersionEnds(w, r);
      }
    }
  }
}
