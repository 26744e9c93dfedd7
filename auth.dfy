/** The credential and identity state machine of the Google session
    component, as pure functions from a snapshot of its state (the two
    in-memory memo fields and the session record) to the call's result and
    the next snapshot. The class in module Client runs the same steps in
    place and is proved equal to these functions; the properties of the
    component are proved here. */
module Auth {
  import opened Php
  import opened Session

  const AccessTokenKey := Name("access_token")
  const RefreshTokenKey := Name("refresh_token")
  const IdTokenKey := Name("id_token")
  const CreatedKey := Name("created")
  const ExpiresInKey := Name("expires_in")
  const SubKey := Name("sub")

  /** A token whose remaining lifetime is below this many seconds is treated as expired. */
  const ExpiryMargin := 30

  /** The inbound HTTP request's POST body and query string. */
  datatype Request = Request(post: map<string, string>, query: map<string, string>)

  /** What the component sees of the outside world during one call: the
      identity provider's answers and the clock.
      - authenticate: exchanging an authorization code; the decoded response or a throw;
      - refresh: the refresh-token grant followed by decoding the client's new token;
      - verifyIdToken: verifying the ID token of the token set on the client (None for `false`);
      - profileId: the id of the fetched user profile, or a throw;
      - now: the current time in seconds.
      A throw in these answers stands for an `\Exception` the API client
      raised: where the code catches `\Exception`, the model swallows it.
      An `\Error` raised inside the client is not part of this model. */
  datatype Env = Env(
    authenticate: string -> Outcome<Value>,
    refresh: Value -> Outcome<Value>,
    verifyIdToken: Token -> Outcome<Option<Claims>>,
    profileId: Outcome<Value>,
    now: int)

  /** The component's state: the memoised access token and user id
      (None while not yet determined) and the session record. */
  datatype State = State(accessToken: Option<Token>, user: Option<Value>, session: Record)

  /** The argument of `setAccessToken`: an array, or a serialized token
      given as what decoding it yields (None when it is not valid JSON). */
  datatype TokenInput = ArrayToken(entries: Token) | JsonToken(decoded: Option<Value>)

  /** What every operation keeps: the memoised token carries an
      `access_token`, a memoised user is never null (PHP cannot tell a
      memoised null from an undetermined memo), and the session stores
      only non-empty tokens and claims and only a non-zero user id. */
  predicate ValidRecord(rec: Record) {
    && (rec.accessToken.Some? ==> |rec.accessToken.value| > 0)
    && (rec.tokenPayload.Some? ==> |rec.tokenPayload.value| > 0)
    && (rec.userId.Some? ==> Truthy(rec.userId.value))
  }

  predicate Valid(s: State) {
    && (s.accessToken.Some? ==> Isset(s.accessToken.value, AccessTokenKey))
    && (s.user.Some? ==> s.user.value != Null)
    && ValidRecord(s.session)
  }

  /** `!empty($v) && is_array($v)`. */
  predicate FilledArray(v: Value) {
    v.Arr? && |v.entries| > 0
  }

  /** A request parameter is given when it is present and truthy. */
  predicate Given(params: map<string, string>, key: string) {
    key in params && TruthyString(params[key])
  }

  // ---------------------------------------------------------------------
  // Request and CSRF-checked code

  /** `getRequest`: a request parameter, POST first, then the query
      string; a falsy value counts as absent and falls through. */
  function GetRequest(req: Request, key: string): (r: Option<string>)
    ensures r.None? <==> !Given(req.post, key) && !Given(req.query, key)
    ensures r.Some? ==> TruthyString(r.value)
    ensures Given(req.post, key) ==> r == Some(req.post[key])
    ensures !Given(req.post, key) && r.Some? ==> r == Some(req.query[key])
  {
    if Given(req.post, key) then Some(req.post[key])
    else if Given(req.query, key) then Some(req.query[key])
    else None
  }

  /** The request passes the CSRF check: it carries a code, and the
      session expects exactly the state the request carries. */
  predicate CsrfMatch(req: Request, rec: Record) {
    && GetRequest(req, "code").Some?
    && rec.state.Some?
    && GetRequest(req, "state") == rec.state
  }

  /** `getCode`: the request's authorization code, only when the CSRF
      check passes; the session's state is then used up. */
  function Code(req: Request, rec: Record): (r: (Option<string>, Record))
    ensures r.0.Some? <==> CsrfMatch(req, rec)
    ensures r.0.Some? ==> r.0 == GetRequest(req, "code") && r.1 == rec.(state := None)
    ensures r.0.None? ==> r.1 == rec
  {
    var state := GetRequest(req, "state");
    var code := GetRequest(req, "code");
    if code.Some? && state.Some? && rec.state == state then (code, rec.(state := None))
    else (None, rec)
  }

  // ---------------------------------------------------------------------
  // Access-token resolution

  /** `getAccessTokenFromCode`: the provider's answer to the code, when it
      is a non-empty array; false (None) for an empty code, an empty or
      non-array answer, or a throw. */
  function AccessTokenFromCode(code: string, env: Env): (r: Option<Token>)
    ensures r.Some? <==> TruthyString(code) && env.authenticate(code).Ok? && FilledArray(env.authenticate(code).value)
    ensures r.Some? ==> env.authenticate(code) == Ok(Arr(r.value))
  {
    if !TruthyString(code) then None
    else
      match env.authenticate(code)
      case Ok(response) => if FilledArray(response) then Some(response.entries) else None
      case Threw(_) => None
  }

  /** The token has both `created` and `expires_in`, and less than the
      margin of its lifetime is left at time `now`. */
  predicate Expired(t: Token, now: int) {
    && Isset(t, CreatedKey) && Isset(t, ExpiresInKey)
    && t[CreatedKey].Int? && t[ExpiresInKey].Int?
    && t[CreatedKey].i + (t[ExpiresInKey].i - ExpiryMargin) < now
  }

  /** The request brings a CSRF-valid code the session has not exchanged yet. */
  predicate NewCode(req: Request, rec: Record) {
    CsrfMatch(req, rec) && GetRequest(req, "code") != rec.code
  }

  /** The refresh-token grant applies: no stored access token, but a refresh token. */
  predicate RefreshApplies(rec: Record) {
    !Filled(rec.accessToken) && Truthy(rec.refreshToken)
  }

  /** `getUserAccessToken`: a new code is exchanged; else a stored refresh
      token is used when no access token is stored; else a stored token
      that has expired is dropped; else the stored token is returned.
      A failed exchange, a failed refresh and an expired token each clear
      the whole session. */
  function UserAccessToken(req: Request, rec: Record, env: Env): (r: (Option<Token>, Record))
    ensures ValidRecord(rec) ==> ValidRecord(r.1)
    ensures r.0.Some? ==> r.1.accessToken == r.0
    ensures r.0.None? ==> r.1 == Cleared || r.1 == Code(req, rec).1
    ensures r.1 == Cleared || r.1.userId == rec.userId
    ensures r.0 != rec.accessToken ==> r.1 == Cleared || NewCode(req, rec) || RefreshApplies(rec)
  {
    var (code, rec1) := Code(req, rec);
    if code.Some? && code != rec1.code then
      var t := AccessTokenFromCode(code.value, env);
      if t.Some? then
        (t, rec1.(code := code, tokenPayload := None,
                  refreshToken := Lookup(t.value, RefreshTokenKey), accessToken := t))
      else
        (None, Cleared)
    else if !Filled(rec1.accessToken) && Truthy(rec1.refreshToken) then
      var reply := env.refresh(rec1.refreshToken);
      if reply.Ok? && FilledArray(reply.value) then
        var t := reply.value.entries[RefreshTokenKey := rec1.refreshToken];
        (Some(t), rec1.(code := None, accessToken := Some(t)))
      else
        (None, Cleared)
    else if Filled(rec1.accessToken) && Expired(rec1.accessToken.value, env.now) then
      (None, Cleared)
    else
      (rec1.accessToken, rec1)
  }

  /** The array or decoded value `setAccessToken` works on. */
  function Decoded(token: TokenInput): Option<Value> {
    match token
    case ArrayToken(m) => Some(Arr(m))
    case JsonToken(d) => d
  }

  /** `setAccessToken` accepts the token: it decodes to an array with an `access_token`. */
  predicate CarriesAccessToken(token: TokenInput) {
    Decoded(token).Some? && Decoded(token).value.Arr? && Isset(Decoded(token).value.entries, AccessTokenKey)
  }

  /** `setAccessToken`: rejects a token that does not decode to an array
      with `access_token`, changing nothing; otherwise stores its
      `refresh_token` (if any) in the session and memoises the token. */
  function SetAccessToken(s: State, token: TokenInput): (r: (Outcome<()>, State))
    ensures r.0.Threw? <==> !CarriesAccessToken(token)
    ensures r.0.Threw? ==> r.0.exception == InvalidArgument && r.1 == s
    ensures r.0.Ok? ==> r.1.accessToken.Some? && Some(Arr(r.1.accessToken.value)) == Decoded(token)
    ensures r.0.Ok? ==>
      r.1.session.refreshToken ==
        if Isset(r.1.accessToken.value, RefreshTokenKey) then r.1.accessToken.value[RefreshTokenKey]
        else s.session.refreshToken
    ensures r.1.user == s.user
    ensures r.1.session == s.session.(refreshToken := r.1.session.refreshToken)
    ensures Valid(s) ==> Valid(r.1)
  {
    var decoded := Decoded(token);
    if decoded.None? then (Threw(InvalidArgument), s)
    else if !(decoded.value.Arr? && Isset(decoded.value.entries, AccessTokenKey)) then (Threw(InvalidArgument), s)
    else
      var t := decoded.value.entries;
      var s1 := if Isset(t, RefreshTokenKey) then s.(session := s.session.(refreshToken := t[RefreshTokenKey])) else s;
      (Ok(()), s1.(accessToken := Some(t)))
  }

  /** `getAccessToken()`: the memoised token; while none is memoised the
      resolution chain runs and a truthy result is memoised through
      `setAccessToken` (whose rejection propagates). */
  function AccessToken(s: State, req: Request, env: Env): (r: (Outcome<Option<Token>>, State))
    ensures s.accessToken.Some? ==> r == (Ok(s.accessToken), s)
    ensures s.accessToken.None? ==>
      var (t, rec) := UserAccessToken(req, s.session, env);
      && (!Filled(t) ==> r == (Ok(None), s.(session := rec)))
      && (Filled(t) && !Isset(t.value, AccessTokenKey) ==> r == (Threw(InvalidArgument), s.(session := rec)))
      && (Filled(t) && Isset(t.value, AccessTokenKey) ==>
            && r.0 == Ok(t)
            && r.1 == State(t, s.user,
                            if Isset(t.value, RefreshTokenKey) then rec.(refreshToken := t.value[RefreshTokenKey]) else rec))
    ensures r.0.Ok? ==> r.0.value == r.1.accessToken
    ensures r.0.Ok? && r.0.value.Some? && s.accessToken.None? ==> Isset(r.0.value.value, AccessTokenKey)
    ensures r.1.user == s.user
    ensures Valid(s) ==> Valid(r.1)
  {
    if s.accessToken.Some? then (Ok(s.accessToken), s)
    else
      var (t, rec) := UserAccessToken(req, s.session, env);
      var s1 := s.(session := rec);
      if Filled(t) then
        var (o, s2) := SetAccessToken(s1, ArrayToken(t.value));
        if o.Threw? then (Threw(o.exception), s2) else (Ok(s2.accessToken), s2)
      else
        (Ok(None), s1)
  }

  /** `getAccessToken($key)`: one entry of the memoised token, null when
      the key is missing; with no token memoised, `array_key_exists` on
      null raises a TypeError. */
  function AccessTokenEntry(s: State, req: Request, env: Env, key: string): (r: (Outcome<Value>, State))
    ensures r.0.Ok? && r.0.value != Null ==> r.1.accessToken.Some? && Isset(r.1.accessToken.value, Name(key))
    ensures r.0.Ok? <==> AccessToken(s, req, env).0.Ok? && r.1.accessToken.Some?
    ensures r.0.Ok? ==> r.0.value == Lookup(r.1.accessToken.value, Name(key))
    ensures AccessToken(s, req, env).0 == Ok(None) ==> r.0 == Threw(TypeError)
    ensures r.1 == AccessToken(s, req, env).1
  {
    var (o, s1) := AccessToken(s, req, env);
    if o.Threw? then (Threw(o.exception), s1)
    else if s1.accessToken.None? then (Threw(TypeError), s1)
    else (Ok(Lookup(s1.accessToken.value, Name(key))), s1)
  }

  // ---------------------------------------------------------------------
  // Identity

  /** `getVerifiedIdToken`: no claims without a token or without an
      `id_token`; cached claims when the session holds some; otherwise the
      provider verifies the ID token and the answer is cached (null on
      failure). */
  function VerifiedIdToken(s: State, req: Request, env: Env): (r: (Outcome<Option<Claims>>, State))
    ensures r.0.Ok? && r.0.value.Some? ==> |r.0.value.value| > 0 && r.1.session.tokenPayload == r.0.value
    ensures r.0.Ok? && r.0.value.Some? ==> r.1.accessToken.Some? && Isset(r.1.accessToken.value, IdTokenKey)
    ensures AccessToken(s, req, env).0.Threw? ==> r == (Threw(AccessToken(s, req, env).0.exception), AccessToken(s, req, env).1)
    ensures var (o, s1) := AccessToken(s, req, env);
      o.Ok? && Filled(o.value) && Isset(o.value.value, IdTokenKey) && !Filled(s1.session.tokenPayload)
      && env.verifyIdToken(o.value.value).Threw? ==>
        r == (Threw(env.verifyIdToken(o.value.value).exception), s1)
    ensures r.1.user == s.user
    ensures Valid(s) ==> Valid(r.1)
  {
    var (o, s1) := AccessToken(s, req, env);
    if o.Threw? then (Threw(o.exception), s1)
    else if !Filled(o.value) then (Ok(None), s1)
    else if !Isset(o.value.value, IdTokenKey) then (Ok(None), s1)
    else if Filled(s1.session.tokenPayload) then (Ok(s1.session.tokenPayload), s1)
    else
      match env.verifyIdToken(o.value.value)
      case Threw(e) => (Threw(e), s1)
      case Ok(payload) =>
        if !Filled(payload) then (Ok(None), s1.(session := s1.session.(tokenPayload := None)))
        else (Ok(payload), s1.(session := s1.session.(tokenPayload := payload)))
  }

  /** `getUserFromAccessToken`: the `sub` claim of the verified ID token;
      0 when the claims lack it; the profile's id when there are no
      claims; 0 when anything throws. */
  function UserFromAccessToken(s: State, req: Request, env: Env): (r: (Value, State))
    ensures r.1 == VerifiedIdToken(s, req, env).1
    ensures Valid(s) ==> Valid(r.1)
  {
    var (claims, s1) := VerifiedIdToken(s, req, env);
    match claims
    case Threw(_) => (Int(0), s1)
    case Ok(c) =>
      if !Filled(c) then
        match env.profileId
        case Ok(id) => (id, s1)
        case Threw(_) => (Int(0), s1)
      else if SubKey !in c.value then (Int(0), s1)
      else (c.value[SubKey], s1)
  }

  /** `getUserFromAvailableData` as written: the comparison that decides
      whether the cached user id is still good reads the session's token
      AFTER the token was resolved, so once the resolution chain has stored
      a new token it compares that token with itself. */
  function UserFromAvailableDataAsWritten(s: State, req: Request, env: Env): (r: (Outcome<Value>, State))
    ensures AccessToken(s, req, env).0.Threw? ==> r == (Threw(AccessToken(s, req, env).0.exception), AccessToken(s, req, env).1)
    ensures r.0.Ok? && r.1.accessToken.None? ==> r.0.value == s.session.UserId()
    ensures Valid(s) ==> Valid(r.1)
  {
    var user := s.session.UserId();
    var (o, s1) := AccessToken(s, req, env);
    if o.Threw? then (Threw(o.exception), s1)
    else if Filled(o.value) && !(Truthy(user) && s1.session.accessToken == o.value) then
      var (u, s2) := UserFromAccessToken(s1, req, env);
      if !Truthy(u) then (Ok(u), s2.(session := Cleared))
      else (Ok(u), s2.(session := s2.session.(userId := Some(u))))
    else
      (Ok(user), s1)
  }

  /** `getUserFromAvailableData`, with the evidently intended comparison:
      the cached user id is reused only when the token in use is the one
      the session held before this call; otherwise the user is derived
      again from the token, a derived 0 clearing the session and a
      non-zero id being cached. */
  function UserFromAvailableData(s: State, req: Request, env: Env): (r: (Outcome<Value>, State))
    ensures AccessToken(s, req, env).0.Threw? ==> r == (Threw(AccessToken(s, req, env).0.exception), AccessToken(s, req, env).1)
    ensures r.0.Ok? && r.1.accessToken.None? ==> r.0.value == s.session.UserId()
    ensures r.0.Ok? && Truthy(r.0.value) && r.1.accessToken.Some? ==> r.1.session.userId == Some(r.0.value)
    ensures r.1.user == s.user
    ensures Valid(s) ==> Valid(r.1)
  {
    var user := s.session.UserId();
    var persisted := s.session.accessToken;
    var (o, s1) := AccessToken(s, req, env);
    if o.Threw? then (Threw(o.exception), s1)
    else if Filled(o.value) && !(Truthy(user) && persisted == o.value) then
      var (u, s2) := UserFromAccessToken(s1, req, env);
      if !Truthy(u) then (Ok(u), s2.(session := Cleared))
      else (Ok(u), s2.(session := s2.session.(userId := Some(u))))
    else
      (Ok(user), s1)
  }

  /** The memo a derived user leaves: a null user leaves it undetermined. */
  function UserMemo(u: Value): (m: Option<Value>)
    ensures m.None? <==> u == Null
    ensures m.Some? ==> m.value == u
  {
    if u == Null then None else Some(u)
  }

  /** `getUser`: the memoised user id; while none is memoised it is
      derived and memoised (a derived null leaves the memo undetermined,
      so the next call derives again). */
  function User(s: State, req: Request, env: Env): (r: (Outcome<Value>, State))
    ensures s.user.Some? ==> r == (Ok(s.user.value), s)
    ensures r.0.Ok? && r.0.value != Null ==> r.1.user == Some(r.0.value)
    ensures r.0.Ok? && r.0.value == Null && s.user.None? ==> r.1.user.None?
    ensures r.0.Threw? ==> r.1.user == s.user
    ensures s.user.None? ==> r.0 == UserFromAvailableData(s, req, env).0
    ensures s.user.None? ==>
      var (o, s1) := UserFromAvailableData(s, req, env);
      r.1 == if o.Ok? then s1.(user := UserMemo(o.value)) else s1
    ensures Valid(s) ==> Valid(r.1)
  {
    if s.user.Some? then (Ok(s.user.value), s)
    else
      var (o, s1) := UserFromAvailableData(s, req, env);
      if o.Threw? then (Threw(o.exception), s1)
      else (o, s1.(user := UserMemo(o.value)))
  }

  /** `getIdToken($key)`: the verified claims (or one claim) of a
      logged-in user; null when there is no user or no verified claims. */
  function IdToken(s: State, req: Request, env: Env, key: Option<string>): (r: (Outcome<Value>, State))
    ensures r.0.Ok? && r.0.value != Null ==> r.1.user.Some? && Truthy(r.1.user.value) && Filled(r.1.session.tokenPayload)
    ensures r.0.Ok? && r.0.value != Null && key.None? ==> r.0.value == Arr(r.1.session.tokenPayload.value)
    ensures r.0.Ok? && r.0.value != Null && key.Some? ==>
      && Isset(r.1.session.tokenPayload.value, Name(key.value))
      && r.0.value == r.1.session.tokenPayload.value[Name(key.value)]
    ensures var (u, s1) := User(s, req, env);
      && (u.Threw? ==> r == (Threw(u.exception), s1))
      && (u.Ok? && !Truthy(u.value) ==> r == (Ok(Null), s1))
      && (u.Ok? && Truthy(u.value) ==>
            var (c, s2) := VerifiedIdToken(s1, req, env);
            && (c.Threw? ==> r == (Threw(c.exception), s2))
            && (c.Ok? && Filled(c.value) && key.None? ==> r == (Ok(Arr(c.value.value)), s2))
            && (c.Ok? && Filled(c.value) && key.Some? ==> r == (Ok(Lookup(c.value.value, Name(key.value))), s2))
            && (c.Ok? && !Filled(c.value) ==> r == (Ok(Null), s2)))
    ensures Valid(s) ==> Valid(r.1)
  {
    var (u, s1) := User(s, req, env);
    if u.Threw? then (Threw(u.exception), s1)
    else if !Truthy(u.value) then (Ok(Null), s1)
    else
      var (c, s2) := VerifiedIdToken(s1, req, env);
      if c.Threw? then (Threw(c.exception), s2)
      else if !Filled(c.value) then (Ok(Null), s2)
      else if key.None? then (Ok(Arr(c.value.value)), s2)
      else (Ok(Lookup(c.value.value, Name(key.value))), s2)
  }

  /** `destroySession`: forget both memos and clear the session. */
  function DestroySession(s: State): (r: State)
    ensures r.accessToken.None? && r.user.None?
    ensures r.session == Cleared && !Filled(r.session.accessToken) && r.session.UserId() == Int(0)
    ensures Valid(r)
  {
    State(None, None, Cleared)
  }
}
