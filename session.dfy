/** The per-user session record the bot keeps between messages, and the
  * accessors every handler goes through (`src/utils/session.ts`). The record
  * is a class whose fields the handlers update in place; `SessionState` is a
  * snapshot of those fields, and the functions on snapshots below are the
  * specification of the accessors. */
module Sessions {
  import opened Common

  /** The scratch space a flow keeps between steps. */
  type TempData = map<string, Value>

  /** A snapshot of a session (`SessionData`). */
  datatype SessionState = SessionState(
    userId: Option<int>,
    token: Option<string>,
    refreshToken: Option<string>,
    email: Option<string>,
    organizationId: Option<string>,
    authenticated: bool,
    currentStep: Option<string>,
    tempData: Option<TempData>)

  /** The session a new user starts with: `{ authenticated: false }`. */
  function Fresh(): (s: SessionState)
    ensures !s.authenticated && s.token == None && s.currentStep == None && s.tempData == None
  {
    SessionState(None, None, None, None, None, false, None, None)
  }

  /** `isAuthenticated`: the flag is set and a non-empty token is present. */
  predicate IsAuthenticated(s: SessionState)
  {
    s.authenticated && s.token.Some? && s.token.value != ""
  }

  /** `getTempData(key)`: nothing when there is no scratch map, else the
    * stored value if any. */
  function TempGet(s: SessionState, key: string): (r: Option<Value>)
    ensures s.tempData == None ==> r == None
    ensures r.Some? <==> (s.tempData.Some? && key in s.tempData.value)
  {
    match s.tempData
    case None => None
    case Some(m) => if key in m then Some(m[key]) else None
  }

  /** `setTempData(key, value)`: the map is created when absent, then `key`
    * is bound. */
  function WithTemp(s: SessionState, key: string, v: Value): (r: SessionState)
    ensures r.tempData.Some? && r.tempData.value == s.tempData.GetOr(map[])[key := v]
    ensures r == s.(tempData := r.tempData)
  {
    s.(tempData := Some(s.tempData.GetOr(map[])[key := v]))
  }

  /** `clearTempData(key?)`: nothing happens without a map; a non-empty key
    * is deleted; no key (or the empty key, which is falsy) empties the map. */
  function ClearedTemp(s: SessionState, key: Option<string>): (r: SessionState)
    ensures r == s.(tempData := r.tempData)
    ensures s.tempData == None ==> r == s
    ensures s.tempData.Some? && key.Some? && key.value != "" ==>
              r.tempData == Some(s.tempData.value - {key.value})
    ensures s.tempData.Some? && (key == None || key.value == "") ==> r.tempData == Some(map[])
  {
    match s.tempData
    case None => s
    case Some(m) =>
      if key.Some? && key.value != "" then s.(tempData := Some(m - {key.value}))
      else s.(tempData := Some(map[]))
  }

  /** `clearSession`: every field deleted, then `authenticated = false`. */
  function Cleared(): (r: SessionState)
    ensures r == Fresh()
  {
    SessionState(None, None, None, None, None, false, None, None)
  }

  /** `setAuthData`: the five credentials and the flag; the step and the
    * scratch space are kept. */
  function WithAuth(s: SessionState, token: string, refreshToken: string, userId: int,
                    email: string, organizationId: string): (r: SessionState)
    ensures r.token == Some(token) && r.refreshToken == Some(refreshToken)
    ensures r.userId == Some(userId) && r.email == Some(email)
    ensures r.organizationId == Some(organizationId) && r.authenticated
    ensures r.currentStep == s.currentStep && r.tempData == s.tempData
  {
    s.(token := Some(token), refreshToken := Some(refreshToken), userId := Some(userId),
       email := Some(email), organizationId := Some(organizationId), authenticated := true)
  }

  /** After `setTempData(k, v)`, `getTempData(k)` is `v`, every other key
    * reads as before, and nothing outside the scratch space changed. */
  lemma TempSetThenGet(s: SessionState, k: string, v: Value, other: string)
    requires other != k
    ensures TempGet(WithTemp(s, k, v), k) == Some(v)
    ensures TempGet(WithTemp(s, k, v), other) == TempGet(s, other)
    ensures WithTemp(s, k, v).currentStep == s.currentStep
    ensures WithTemp(s, k, v).authenticated == s.authenticated
  {
  }

  /** `clearTempData(k)` removes `k` and keeps every other key. */
  lemma ClearKeyKeepsOthers(s: SessionState, k: string, other: string)
    requires k != "" && other != k
    ensures TempGet(ClearedTemp(s, Some(k)), k) == None
    ensures TempGet(ClearedTemp(s, Some(k)), other) == TempGet(s, other)
  {
  }

  /** `clearTempData()` leaves no key readable, and keeps an absent map absent. */
  lemma ClearAllEmpties(s: SessionState, other: string)
    ensures TempGet(ClearedTemp(s, None), other) == None
    ensures (ClearedTemp(s, None).tempData == None) == (s.tempData == None)
  {
  }

  /** After `clearSession` the user is logged out, and logged out in the
    * stronger sense too. */
  lemma ClearedIsLoggedOut()
    ensures !Cleared().authenticated && !IsAuthenticated(Cleared())
    ensures Cleared().token == None && Cleared().currentStep == None && Cleared().tempData == None
  {
  }

  /** `setAuthData` with a non-empty token makes the session authenticated;
    * with the empty token it does not. */
  lemma AuthDataAuthenticates(s: SessionState, token: string, refreshToken: string, userId: int,
                              email: string, organizationId: string)
    ensures IsAuthenticated(WithAuth(s, token, refreshToken, userId, email, organizationId)) <==> token != ""
  {
  }

  /** The session record of one user. */
  class Session {
    var userId: Option<int>
    var token: Option<string>
    var refreshToken: Option<string>
    var email: Option<string>
    var organizationId: Option<string>
    var authenticated: bool
    var currentStep: Option<string>
    var tempData: Option<TempData>

    /** The snapshot of all fields. */
    function State(): SessionState
      reads this
    {
      SessionState(userId, token, refreshToken, email, organizationId, authenticated, currentStep, tempData)
    }

    /** The default session `{ authenticated: false }`. */
    constructor ()
      ensures State() == Fresh()
    {
      userId, token, refreshToken, email, organizationId := None, None, None, None, None;
      authenticated := false;
      currentStep, tempData := None, None;
    }

    /** `clearSession`: deletes every field, then resets the flag. */
    method ClearSession()
      modifies this
      ensures State() == Cleared()
    {
      userId, token, refreshToken, email, organizationId := None, None, None, None, None;
      currentStep, tempData := None, None;
      authenticated := false;
    }

    /** `setAuthData`. */
    method SetAuthData(newToken: string, newRefreshToken: string, newUserId: int,
                       newEmail: string, newOrganizationId: string)
      modifies this
      ensures State() == WithAuth(old(State()), newToken, newRefreshToken, newUserId, newEmail, newOrganizationId)
    {
      token := Some(newToken);
      refreshToken := Some(newRefreshToken);
      userId := Some(newUserId);
      email := Some(newEmail);
      organizationId := Some(newOrganizationId);
      authenticated := true;
    }

    /** `setTempData`. */
    method SetTempData(key: string, v: Value)
      modifies this
      ensures State() == WithTemp(old(State()), key, v)
    {
      if tempData == None {
        tempData := Some(map[]);
      }
      tempData := Some(tempData.value[key := v]);
    }

    /** `clearTempData`. */
    method ClearTempData(key: Option<string>)
      modifies this
      ensures State() == ClearedTemp(old(State()), key)
    {
      if tempData == None {
        return;
      }
      if key.Some? && key.value != "" {
        tempData := Some(tempData.value - {key.value});
      } else {
        tempData := Some(map[]);
      }
    }

    /** `getTempData`. */
    method GetTempData(key: string) returns (r: Option<Value>)
      ensures r == TempGet(State(), key)
    {
      if tempData == None {
        return None;
      }
      r := if key in tempData.value then Some(tempData.value[key]) else None;
    }
  }
}
