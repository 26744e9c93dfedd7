/** Properties of the Google session component that relate its
    operations, or spell out one branch of the resolution chain. */
module AuthProperties {
  import opened Php
  import opened Session
  import opened Auth

  // ---------------------------------------------------------------------
  // CSRF state

  /** The CSRF state is single use: once a code has been extracted, the
      same request yields no code any more. */
  lemma CodeIsSingleUse(req: Request, rec: Record)
    requires Code(req, rec).0.Some?
    ensures Code(req, Code(req, rec).1).0.None?
    ensures Code(req, Code(req, rec).1).1 == Code(req, rec).1
  {
  }

  // ---------------------------------------------------------------------
  // The access-token resolution chain, branch by branch

  /** A new CSRF-valid code whose exchange succeeds replaces the session's
      credentials: the code is remembered, the cached claims dropped, the
      refresh token overwritten by the new token's (null if it has none)
      and the new token stored and returned. */
  lemma NewCodeExchanged(req: Request, rec: Record, env: Env)
    requires NewCode(req, rec)
    requires AccessTokenFromCode(GetRequest(req, "code").value, env).Some?
    ensures var t := AccessTokenFromCode(GetRequest(req, "code").value, env).value;
      UserAccessToken(req, rec, env) ==
        (Some(t), rec.(state := None, code := GetRequest(req, "code"), tokenPayload := None,
                       refreshToken := Lookup(t, RefreshTokenKey), accessToken := Some(t)))
  {
  }

  /** A new code the provider does not exchange invalidates the session. */
  lemma NewCodeRejected(req: Request, rec: Record, env: Env)
    requires NewCode(req, rec)
    requires AccessTokenFromCode(GetRequest(req, "code").value, env).None?
    ensures UserAccessToken(req, rec, env) == (None, Cleared)
  {
  }

  /** A code equal to the one already exchanged is not exchanged again:
      resolution goes on as for a request without a code, the CSRF state
      being used up all the same. */
  lemma SameCodeFallsThrough(req: Request, rec: Record, env: Env)
    requires CsrfMatch(req, rec) && GetRequest(req, "code") == rec.code
    ensures UserAccessToken(req, rec, env) == UserAccessToken(Request(map[], map[]), rec.(state := None), env)
  {
  }

  /** The refresh-token grant: on success the new token carries the stored
      refresh token, the remembered code is dropped and the token is stored
      and returned; any failure (a throw, an empty or non-array answer)
      clears the session. */
  lemma RefreshPath(req: Request, rec: Record, env: Env)
    requires !NewCode(req, rec) && RefreshApplies(rec)
    ensures var r := UserAccessToken(req, rec, env);
      var reply := env.refresh(rec.refreshToken);
      if reply.Ok? && FilledArray(reply.value) then
        && r.0.Some?
        && r.0.value == reply.value.entries[RefreshTokenKey := rec.refreshToken]
        && r.0.value[RefreshTokenKey] == rec.refreshToken
        && r.1 == Code(req, rec).1.(code := None, accessToken := r.0)
      else
        r == (None, Cleared)
  {
  }

  /** A stored token that has expired (less than 30 seconds of lifetime
      left) clears the session; otherwise the stored token is returned
      unchanged. */
  lemma ExpiryCheck(req: Request, rec: Record, env: Env)
    requires !NewCode(req, rec) && !RefreshApplies(rec)
    ensures Filled(rec.accessToken) && Expired(rec.accessToken.value, env.now) ==>
      UserAccessToken(req, rec, env) == (None, Cleared)
    ensures !(Filled(rec.accessToken) && Expired(rec.accessToken.value, env.now)) ==>
      UserAccessToken(req, rec, env) == (rec.accessToken, Code(req, rec).1)
  {
  }

  /** The expiry margin: a token with `created` and `expires_in` counts as
      expired exactly when fewer than 30 seconds of its lifetime remain. */
  lemma ExpiredMeansUnderMargin(t: Token, now: int, created: int, expiresIn: int)
    requires CreatedKey in t && t[CreatedKey] == Int(created)
    requires ExpiresInKey in t && t[ExpiresInKey] == Int(expiresIn)
    ensures Expired(t, now) <==> created + expiresIn - now < ExpiryMargin
  {
  }

  // ---------------------------------------------------------------------
  // Memoisation

  /** Resolving the access token a second time in the same request
      repeats the first answer and changes nothing, whatever the provider
      or the clock would now say: a memoised token is returned as is, and
      when nothing was memoised the first call has already left the session
      in a state where the chain finds nothing new. */
  lemma AccessTokenIdempotent(s: State, req: Request, env: Env, later: Env)
    ensures AccessToken(s, req, env).0.Ok? ==>
      AccessToken(AccessToken(s, req, env).1, req, later) == AccessToken(s, req, env)
  {
    var (o, s1) := AccessToken(s, req, env);
    if o.Ok? && s.accessToken.None? && s1.accessToken.None? {
      var (t, rec) := UserAccessToken(req, s.session, env);
      assert s1 == s.(session := rec) && !Filled(t);
      var (code, rec1) := Code(req, s.session);
      if rec != Cleared {
        assert rec == rec1;
        assert Code(req, rec).0.None?;
        assert !NewCode(req, rec);
        assert !RefreshApplies(rec);
      }
      assert UserAccessToken(req, rec, later) == (t, rec);
    }
  }

  /** getUser derives a non-null user at most once: a second call
      returns the memoised id and changes nothing. */
  lemma UserIsMemoised(s: State, req: Request, env: Env, later: Env)
    requires User(s, req, env).0.Ok? && User(s, req, env).0.value != Null
    ensures User(User(s, req, env).1, req, later) == User(s, req, env)
  {
  }

  /** A derived null is not memoised: the memo stays undetermined, so the
      next getUser derives the user again, with whatever the provider then
      answers. */
  lemma NullUserDerivedAgain(s: State, req: Request, env: Env, later: Env)
    requires s.user.None? && User(s, req, env).0 == Ok(Null)
    ensures User(s, req, env).1.user.None?
    ensures User(User(s, req, env).1, req, later).0 == UserFromAvailableData(User(s, req, env).1, req, later).0
  {
  }

  /** A token the chain returns without `access_token` (the code exchange
      stores any non-empty answer) is rejected by `setAccessToken`, and the
      rejection leaves `getUser` and `getIdToken`; the chain's session
      writes stay. */
  lemma TokenWithoutAccessTokenThrows(s: State, req: Request, env: Env, key: Option<string>)
    requires s.accessToken.None? && s.user.None?
    requires var t := UserAccessToken(req, s.session, env).0; Filled(t) && !Isset(t.value, AccessTokenKey)
    ensures User(s, req, env) == (Threw(InvalidArgument), s.(session := UserAccessToken(req, s.session, env).1))
    ensures IdToken(s, req, env, key) == User(s, req, env)
  {
  }

  // ---------------------------------------------------------------------
  // Verified ID-token claims

  /** Cached claims are returned without asking the provider to verify
      again: the result does not depend on the verification answer. */
  lemma CachedClaimsReused(s: State, req: Request, env: Env, t: Token)
    requires s.accessToken == Some(t) && Isset(t, IdTokenKey) && Filled(s.session.tokenPayload)
    ensures VerifiedIdToken(s, req, env) == (Ok(s.session.tokenPayload), s)
  {
  }

  /** Without a verified ID token in the token, no claims. */
  lemma NoIdTokenNoClaims(s: State, req: Request, env: Env, t: Token)
    requires s.accessToken == Some(t) && !Isset(t, IdTokenKey)
    ensures VerifiedIdToken(s, req, env) == (Ok(None), s)
  {
  }

  /** A verification that fails stores and returns null; one that succeeds
      stores and returns the claims; one that throws passes the throw on
      and changes nothing. */
  lemma VerificationCached(s: State, req: Request, env: Env, t: Token)
    requires s.accessToken == Some(t) && Isset(t, IdTokenKey) && !Filled(s.session.tokenPayload)
    ensures env.verifyIdToken(t).Ok? && !Filled(env.verifyIdToken(t).value) ==>
      VerifiedIdToken(s, req, env) == (Ok(None), s.(session := s.session.(tokenPayload := None)))
    ensures env.verifyIdToken(t).Ok? && Filled(env.verifyIdToken(t).value) ==>
      VerifiedIdToken(s, req, env) ==
        (env.verifyIdToken(t), s.(session := s.session.(tokenPayload := env.verifyIdToken(t).value)))
    ensures env.verifyIdToken(t).Threw? ==>
      VerifiedIdToken(s, req, env) == (Threw(env.verifyIdToken(t).exception), s)
  {
  }

  // ---------------------------------------------------------------------
  // User derivation

  /** The provider's profile answer plays no part in resolving the token
      or verifying its claims. */
  lemma VerifyIgnoresProfile(s: State, req: Request, env: Env, profile: Outcome<Value>)
    ensures VerifiedIdToken(s, req, env.(profileId := profile)) == VerifiedIdToken(s, req, env)
  {
    var env' := env.(profileId := profile);
    var code := Code(req, s.session).0;
    if code.Some? {
      assert AccessTokenFromCode(code.value, env') == AccessTokenFromCode(code.value, env);
    }
    assert UserAccessToken(req, s.session, env') == UserAccessToken(req, s.session, env);
    assert AccessToken(s, req, env') == AccessToken(s, req, env);
  }

  /** The derived user: the `sub` claim when the verified claims have one;
      0 when they lack it, and then the profile is not consulted; the
      profile's id when there are no claims; 0 when verification or the
      profile fetch throws. */
  lemma UserDerivation(s: State, req: Request, env: Env, profile: Outcome<Value>)
    ensures var (claims, s1) := VerifiedIdToken(s, req, env);
      && (claims.Ok? && Filled(claims.value) && SubKey in claims.value.value ==>
            UserFromAccessToken(s, req, env) == (claims.value.value[SubKey], s1))
      && (claims.Ok? && Filled(claims.value) && SubKey !in claims.value.value ==>
            UserFromAccessToken(s, req, env) == (Int(0), s1)
            && UserFromAccessToken(s, req, env.(profileId := profile)) == UserFromAccessToken(s, req, env))
      && (claims.Ok? && !Filled(claims.value) ==>
            UserFromAccessToken(s, req, env) == (if env.profileId.Ok? then env.profileId.value else Int(0), s1))
      && (claims.Threw? ==> UserFromAccessToken(s, req, env) == (Int(0), s1))
  {
    VerifyIgnoresProfile(s, req, env, profile);
  }

  /** The cached user id is kept as is when no access token can be
      resolved. */
  lemma NoTokenKeepsCachedUser(s: State, req: Request, env: Env)
    requires AccessToken(s, req, env).0 == Ok(None)
    ensures UserFromAvailableData(s, req, env) == (Ok(s.session.UserId()), AccessToken(s, req, env).1)
  {
  }

  /** A user re-derived from the token: a falsy result clears the session,
      a truthy one is cached as `user_id`. */
  lemma DerivedUserStoredOrCleared(s: State, req: Request, env: Env)
    requires var (o, s1) := AccessToken(s, req, env);
      o.Ok? && Filled(o.value) && !(Truthy(s.session.UserId()) && s.session.accessToken == o.value)
    ensures var s1 := AccessToken(s, req, env).1;
      var (u, s2) := UserFromAccessToken(s1, req, env);
      UserFromAvailableData(s, req, env) ==
        if Truthy(u) then (Ok(u), s2.(session := s2.session.(userId := Some(u))))
        else (Ok(u), s2.(session := Cleared))
  {
  }

  /** A stored token that has expired clears the session, yet getUser
      still answers with the user id cached before: the id is read before
      the token is resolved. */
  lemma CachedUserSurvivesExpiry(s: State, req: Request, env: Env)
    requires s.accessToken.None? && s.user.None?
    requires !CsrfMatch(req, s.session) && !RefreshApplies(s.session)
    requires Filled(s.session.accessToken) && Expired(s.session.accessToken.value, env.now)
    ensures User(s, req, env) == (Ok(s.session.UserId()), State(None, UserMemo(s.session.UserId()), Cleared))
  {
  }

  // ---------------------------------------------------------------------
  // Logout

  /** After destroySession no user is logged in, whatever the request
      and the provider: getUser answers 0. */
  lemma LoggedOutAfterDestroy(s: State, req: Request, env: Env)
    ensures User(DestroySession(s), req, env) == (Ok(Int(0)), State(None, Some(Int(0)), Cleared))
  {
    assert Code(req, Cleared).0.None?;
  }
  // ---------------------------------------------------------------------
  // Re-deriving the user when the token changes

  /** With the intended comparison, whenever the token in use is not the
      one the session held before the call, the user is derived afresh
      from it; the cached id is reused only for the same token. */
  lemma ChangedTokenRederives(s: State, req: Request, env: Env)
    requires var o := AccessToken(s, req, env).0;
      o.Ok? && Filled(o.value) && o.value != s.session.accessToken
    ensures UserFromAvailableData(s, req, env).0 == Ok(UserFromAccessToken(AccessToken(s, req, env).1, req, env).0)
  {
  }

  /** The converse: while the token in use is the one the session already
      held, a truthy cached id is returned as it is, with no identity call
      and no change beyond resolving the token. */
  lemma CachedUserReused(s: State, req: Request, env: Env)
    requires var o := AccessToken(s, req, env).0;
      o.Ok? && Filled(o.value) && Truthy(s.session.UserId()) && o.value == s.session.accessToken
    ensures UserFromAvailableData(s, req, env) == (Ok(s.session.UserId()), AccessToken(s, req, env).1)
  {
  }

  /** As written, once the chain has resolved a token and stored it in the
      session, the comparison sees that token on both sides: the user is
      derived again exactly when no user id is cached, and then a falsy
      user clears the session and a truthy one is cached. */
  lemma AsWrittenRederivesOnlyWithoutCachedUser(s: State, req: Request, env: Env)
    requires s.accessToken.None?
    requires var o := AccessToken(s, req, env).0; o.Ok? && Filled(o.value)
    ensures var s1 := AccessToken(s, req, env).1;
      var (u, s2) := UserFromAccessToken(s1, req, env);
      UserFromAvailableDataAsWritten(s, req, env) ==
        if Truthy(s.session.UserId()) then (Ok(s.session.UserId()), s1)
        else if Truthy(u) then (Ok(u), s2.(session := s2.session.(userId := Some(u))))
        else (Ok(u), s2.(session := Cleared))
  {
  }

  /** As written, a token memoised out of band that differs from the
      session's token does make the user be derived again from it. */
  lemma AsWrittenRederivesForOutOfBandToken(s: State, req: Request, env: Env)
    requires Filled(s.accessToken) && s.accessToken != s.session.accessToken
    ensures var (u, s2) := UserFromAccessToken(s, req, env);
      UserFromAvailableDataAsWritten(s, req, env) ==
        if Truthy(u) then (Ok(u), s2.(session := s2.session.(userId := Some(u))))
        else (Ok(u), s2.(session := Cleared))
  {
  }

  /** A session of one user ("alice", token TA) that receives a login
      with a new code for another user ("bob", token TB). */
  function SwitchState(): State {
    State(None, None, Record(None, Some("xyz"), Some(map[AccessTokenKey := Str("TA")]), Null, None, Some(Str("alice"))))
  }

  function SwitchRequest(): Request {
    Request(map["code" := "c2", "state" := "xyz"], map[])
  }

  function SwitchEnv(): Env {
    Env(code => Ok(Arr(map[AccessTokenKey := Str("TB")])), rt => Threw(ClientError), t => Ok(None), Ok(Str("bob")), 0)
  }

  /** As written, the comparison reads the session's token after it has
      been replaced by the new one, so a login with a new code keeps the
      previous user's cached id; the intended comparison derives the new
      user. */
  lemma StaleUserAfterNewCode()
    ensures UserFromAvailableDataAsWritten(SwitchState(), SwitchRequest(), SwitchEnv()).0 == Ok(Str("alice"))
    ensures UserFromAvailableData(SwitchState(), SwitchRequest(), SwitchEnv()).0 == Ok(Str("bob"))
  {
    var s, req, env := SwitchState(), SwitchRequest(), SwitchEnv();
    assert GetRequest(req, "code") == Some("c2");
    assert GetRequest(req, "state") == Some("xyz");
    var tb := map[AccessTokenKey := Str("TB")];
    assert AccessTokenFromCode("c2", env) == Some(tb);
    assert AccessToken(s, req, env).0 == Ok(Some(tb));
    assert VerifiedIdToken(AccessToken(s, req, env).1, req, env).0 == Ok(None);
  }

  // ---------------------------------------------------------------------
  // End-to-end scenarios

  /** A login: the request brings code "abc" with the expected state
      "xyz"; the code is exchanged for a token with refresh token "R1" and
      no ID token, so the user comes from the profile ("u1"). */
  lemma CodeLoginScenario()
    ensures
      var req := Request(map[], map["code" := "abc", "state" := "xyz"]);
      var t1 := map[AccessTokenKey := Str("T1"), RefreshTokenKey := Str("R1")];
      var env := Env(code => if code == "abc" then Ok(Arr(t1)) else Threw(ClientError),
                     rt => Threw(ClientError), t => Ok(None), Ok(Str("u1")), 0);
      var r := User(State(None, None, Cleared.(state := Some("xyz"))), req, env);
      && r.0 == Ok(Str("u1"))
      && r.1.session == Record(Some("abc"), None, Some(t1), Str("R1"), None, Some(Str("u1")))
  {
    var req := Request(map[], map["code" := "abc", "state" := "xyz"]);
    var t1 := map[AccessTokenKey := Str("T1"), RefreshTokenKey := Str("R1")];
    var env := Env(code => if code == "abc" then Ok(Arr(t1)) else Threw(ClientError),
                   rt => Threw(ClientError), t => Ok(None), Ok(Str("u1")), 0);
    var s := State(None, None, Cleared.(state := Some("xyz")));
    assert GetRequest(req, "code") == Some("abc");
    assert GetRequest(req, "state") == Some("xyz");
    assert AccessTokenFromCode("abc", env) == Some(t1);
    assert AccessToken(s, req, env).0 == Ok(Some(t1));
    assert VerifiedIdToken(AccessToken(s, req, env).1, req, env).0 == Ok(None);
  }

  /** A silent refresh: no code and no access token, refresh token "R1";
      the refreshed token gets "R1" attached and the code is forgotten. */
  lemma RefreshScenario()
    ensures
      var rec := Record(Some("old"), None, None, Str("R1"), None, None);
      var t2 := map[AccessTokenKey := Str("T2")];
      var env := Env(code => Threw(ClientError), rt => Ok(Arr(t2)), t => Ok(None), Threw(ClientError), 0);
      var r := AccessToken(State(None, None, rec), Request(map[], map[]), env);
      && r.0 == Ok(Some(t2[RefreshTokenKey := Str("R1")]))
      && r.1.session.code.None?
  {
    var req := Request(map[], map[]);
    assert GetRequest(req, "code").None?;
  }

  /** A refresh the provider refuses: no token, and the session is wiped. */
  lemma RefreshFailureScenario()
    ensures
      var rec := Record(Some("old"), None, None, Str("R1"), None, Some(Str("u1")));
      var env := Env(code => Threw(ClientError), rt => Threw(ClientError), t => Ok(None), Threw(ClientError), 0);
      AccessToken(State(None, None, rec), Request(map[], map[]), env) == (Ok(None), State(None, None, Cleared))
  {
    var req := Request(map[], map[]);
    assert GetRequest(req, "code").None?;
  }
}
