/** The Google session component as the object it is: two memo fields
    updated in place, and a session record whose fields it assigns. Each
    method performs the source's steps and is proved to end in the state
    (and with the result) the matching function of module Auth describes. */
module Client {
  import opened Php
  import opened Session
  import opened Auth

  class Google {
    const request: Request
    const session: SessionStorage
    /** The access token, None while it has yet to be determined. */
    var accessToken: Option<Token>
    /** The user id (0 when logged out), None while it has yet to be determined. */
    var user: Option<Value>

    function Snapshot(): State
      reads this, session
    {
      State(accessToken, user, session.Snapshot())
    }

    constructor (request: Request, session: SessionStorage)
      ensures this.request == request && this.session == session
      ensures Snapshot() == State(None, None, old(session.Snapshot()))
    {
      this.request := request;
      this.session := session;
      accessToken := None;
      user := None;
    }

    /** Accepts a token obtained out of band: it must decode to an array
        carrying `access_token`, else InvalidArgument is thrown and nothing
        changes; its `refresh_token`, if any, goes to the session. */
    method SetAccessToken(token: TokenInput) returns (r: Outcome<()>)
      modifies this, session
      ensures (r, Snapshot()) == Auth.SetAccessToken(old(Snapshot()), token)
    {
      var decoded := Decoded(token);
      if decoded.None? {
        return Threw(InvalidArgument);
      }
      var t := decoded.value;
      if !(t.Arr? && Isset(t.entries, AccessTokenKey)) {
        return Threw(InvalidArgument);
      }
      if Isset(t.entries, RefreshTokenKey) {
        SetRefreshToken(t.entries[RefreshTokenKey]);
      }
      accessToken := Some(t.entries);
      return Ok(());
    }

    /** The memoised access token; while there is none the resolution
        chain runs and a truthy result is memoised. */
    method GetAccessToken(env: Env) returns (r: Outcome<Option<Token>>)
      modifies this, session
      ensures (r, Snapshot()) == Auth.AccessToken(old(Snapshot()), request, env)
    {
      if accessToken.None? {
        var t := GetUserAccessToken(env);
        if Filled(t) {
          var o := SetAccessToken(ArrayToken(t.value));
          if o.Threw? {
            return Threw(o.exception);
          }
        }
      }
      return Ok(accessToken);
    }

    /** One entry of the access token, null when it is missing; a
        TypeError when there is no token to look in. */
    method GetAccessTokenEntry(env: Env, key: string) returns (r: Outcome<Value>)
      modifies this, session
      ensures (r, Snapshot()) == Auth.AccessTokenEntry(old(Snapshot()), request, env, key)
    {
      var o := GetAccessToken(env);
      if o.Threw? {
        return Threw(o.exception);
      }
      if accessToken.None? {
        return Threw(TypeError);
      }
      return Ok(Lookup(accessToken.value, Name(key)));
    }

    method SetRefreshToken(token: Value)
      modifies session
      ensures session.Snapshot() == old(session.Snapshot()).(refreshToken := token)
    {
      session.refreshToken := token;
    }

    method GetRefreshToken() returns (r: Value)
      ensures r == session.refreshToken
    {
      return session.refreshToken;
    }

    /** One of the logged-in user's verified ID-token claims (all of them
        when `key` is None), or null. */
    method GetIdToken(env: Env, key: Option<string>) returns (r: Outcome<Value>)
      modifies this, session
      ensures (r, Snapshot()) == Auth.IdToken(old(Snapshot()), request, env, key)
    {
      var u := GetUser(env);
      if u.Threw? {
        return Threw(u.exception);
      }
      if !Truthy(u.value) {
        return Ok(Null);
      }
      var c := GetVerifiedIdToken(env);
      if c.Threw? {
        return Threw(c.exception);
      }
      if !Filled(c.value) {
        return Ok(Null);
      }
      if key.None? {
        return Ok(Arr(c.value.value));
      }
      return Ok(Lookup(c.value.value, Name(key.value)));
    }

    /** The memoised user id; while there is none it is derived and
        memoised, a derived null leaving the memo undetermined. */
    method GetUser(env: Env) returns (r: Outcome<Value>)
      modifies this, session
      ensures (r, Snapshot()) == Auth.User(old(Snapshot()), request, env)
    {
      if user.None? {
        var o := GetUserFromAvailableData(env);
        if o.Threw? {
          return Threw(o.exception);
        }
        user := UserMemo(o.value);
        return Ok(o.value);
      }
      return Ok(user.value);
    }

    /** The access-token resolution chain: code exchange, refresh, expiry
        check, stored token. */
    method GetUserAccessToken(env: Env) returns (r: Option<Token>)
      modifies session
      ensures (r, session.Snapshot()) == Auth.UserAccessToken(request, old(session.Snapshot()), env)
    {
      var code := GetCode();
      if code.Some? && code != session.code {
        var t := AccessTokenFromCode(code.value, env);
        if t.Some? {
          session.code := code;
          session.tokenPayload := None;
          session.refreshToken := Lookup(t.value, RefreshTokenKey);
          session.accessToken := t;
          return t;
        }
        // the code was bogus: everything based on it is invalidated
        session.ClearAll();
        return None;
      }

      if !Filled(session.accessToken) && Truthy(session.refreshToken) {
        var reply := env.refresh(session.refreshToken);
        if reply.Ok? && FilledArray(reply.value) {
          var t := reply.value.entries[RefreshTokenKey := session.refreshToken];
          session.code := None;
          session.accessToken := Some(t);
          return Some(t);
        }
        session.ClearAll();
        return None;
      }

      if Filled(session.accessToken) && Expired(session.accessToken.value, env.now) {
        session.ClearAll();
        return None;
      }

      return session.accessToken;
    }

    /** The user id: re-derived from the token when there is one and the
        cached id is missing or belongs to another token. */
    method GetUserFromAvailableData(env: Env) returns (r: Outcome<Value>)
      modifies this, session
      ensures (r, Snapshot()) == Auth.UserFromAvailableData(old(Snapshot()), request, env)
    {
      var cached := session.Snapshot().UserId();
      var persisted := session.accessToken;
      var o := GetAccessToken(env);
      if o.Threw? {
        return Threw(o.exception);
      }
      if Filled(o.value) && !(Truthy(cached) && persisted == o.value) {
        var u := GetUserFromAccessToken(env);
        if !Truthy(u) {
          session.ClearAll();
        } else {
          session.userId := Some(u);
        }
        return Ok(u);
      }
      return Ok(cached);
    }

    /** The authorization code of the request, only when the request's
        state is the one the session expects; that state is then used up. */
    method GetCode() returns (r: Option<string>)
      modifies session
      ensures (r, session.Snapshot()) == Auth.Code(request, old(session.Snapshot()))
    {
      var state := GetRequest(request, "state");
      var code := GetRequest(request, "code");
      if code.Some? && state.Some? && session.state == state {
        session.state := None;  // the CSRF state has done its job
        return code;
      }
      return None;
    }

    /** The user id from the verified ID token's `sub` claim, or from the
        profile when there are no claims; 0 on any failure. */
    method GetUserFromAccessToken(env: Env) returns (r: Value)
      modifies this, session
      ensures (r, Snapshot()) == Auth.UserFromAccessToken(old(Snapshot()), request, env)
    {
      var claims := GetVerifiedIdToken(env);
      if claims.Threw? {
        return Int(0);
      }
      if !Filled(claims.value) {
        return match env.profileId
          case Ok(id) => id
          case Threw(_) => Int(0);
      }
      if SubKey !in claims.value.value {
        return Int(0);
      }
      return claims.value.value[SubKey];
    }

    /** The verified ID-token claims, cached in the session. */
    method GetVerifiedIdToken(env: Env) returns (r: Outcome<Option<Claims>>)
      modifies this, session
      ensures (r, Snapshot()) == Auth.VerifiedIdToken(old(Snapshot()), request, env)
    {
      var o := GetAccessToken(env);
      if o.Threw? {
        return Threw(o.exception);
      }
      if !Filled(o.value) {
        return Ok(None);
      }
      var token := o.value.value;
      if !Isset(token, IdTokenKey) {
        return Ok(None);
      }
      if Filled(session.tokenPayload) {
        return Ok(session.tokenPayload);
      }
      var payload := env.verifyIdToken(token);
      if payload.Threw? {
        return Threw(payload.exception);
      }
      if !Filled(payload.value) {
        session.tokenPayload := None;
        return Ok(None);
      }
      session.tokenPayload := payload.value;
      return Ok(session.tokenPayload);
    }

    /** Logs out: forgets both memos and clears the session. */
    method DestroySession()
      modifies this, session
      ensures Snapshot() == Auth.DestroySession(old(Snapshot()))
    {
      accessToken := None;
      user := None;
      session.ClearAll();
    }
  }
}
