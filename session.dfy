/** The per-browser-session record the authentication code keeps
    (SessionStorage). Every field is optional; `clearAll` resets them all. */
module Session {
  import opened Php

  /** A snapshot of the session record. `refreshToken` is any PHP value,
      null when unset; the other fields are null (None) when unset. */
  datatype Record = Record(
    code: Option<string>,          // the last authorization code exchanged
    state: Option<string>,         // the pending CSRF state
    accessToken: Option<Token>,    // the persisted access token
    refreshToken: Value,           // the refresh token, may outlive the access token
    tokenPayload: Option<Claims>,  // cached verified ID-token claims
    userId: Option<Value>)         // cached user id
  {
    /** `get('user_id', 0)`: the cached user id, 0 meaning "no user". */
    function UserId(): (u: Value)
      ensures userId.None? ==> u == Int(0)
      ensures userId.Some? ==> u == userId.value
    {
      userId.GetOr(Int(0))
    }
  }

  /** The record after `clearAll`. */
  const Cleared := Record(None, None, None, Null, None, None)

  class SessionStorage {
    var code: Option<string>
    var state: Option<string>
    var accessToken: Option<Token>
    var refreshToken: Value
    var tokenPayload: Option<Claims>
    var userId: Option<Value>

    function Snapshot(): Record
      reads this
    {
      Record(code, state, accessToken, refreshToken, tokenPayload, userId)
    }

    /** A session nothing has been stored in yet. */
    constructor ()
      ensures Snapshot() == Cleared
    {
      code, state, accessToken := None, None, None;
      refreshToken, tokenPayload, userId := Null, None, None;
    }

    /** Forgets every field of the session. */
    method ClearAll()
      modifies this
      ensures Snapshot() == Cleared
    {
      code, state, accessToken := None, None, None;
      refreshToken, tokenPayload, userId := Null, None, None;
    }
  }
}
