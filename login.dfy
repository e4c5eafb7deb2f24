/** The `/login` command and the two-step login conversation
  * (`src/bot/commands/login.ts`): `login_email` asks for an OTP,
  * `login_otp` exchanges it for credentials. */
module Login {
  import opened Common
  import opened Strings
  import opened Sessions
  import opened Bot

  /** The user record of an authentication response. */
  datatype User = User(id: int, email: string, organizationId: string)

  /** What `authenticateWithOtp` resolves to. */
  datatype AuthResponse = AuthResponse(
    accessToken: string, accessTokenId: Option<string>, refreshToken: Option<string>, user: User)

  /** `/login`: nothing changes for a session already flagged
    * authenticated; otherwise the email prompt, and the step `login_email`. */
  function LoginCommand(s: SessionState): (r: Step)
    ensures s.authenticated ==> r == Step(s, Consumed, [Reply(AlreadyLoggedIn)])
    ensures !s.authenticated ==> r.events == [Reply(AskLoginEmail)]
    ensures !s.authenticated ==> r.state == s.(currentStep := Some("login_email"))
  {
    if s.authenticated then Step(s, Consumed, [Reply(AlreadyLoggedIn)])
    else Step(s.(currentStep := Some("login_email")), Consumed, [Reply(AskLoginEmail)])
  }

  /** `response.refreshToken || accessTokenId || accessToken`. */
  function RefreshTokenOf(resp: AuthResponse): (t: string)
    ensures resp.refreshToken.Some? && resp.refreshToken.value != "" ==> t == resp.refreshToken.value
    ensures (resp.refreshToken == None || resp.refreshToken == Some("")) ==>
              resp.accessTokenId.Some? && resp.accessTokenId.value != "" ==> t == resp.accessTokenId.value
    ensures (resp.refreshToken == None || resp.refreshToken == Some("")) ==>
              (resp.accessTokenId == None || resp.accessTokenId == Some("")) ==> t == resp.accessToken
  {
    if resp.refreshToken.Some? && resp.refreshToken.value != "" then resp.refreshToken.value
    else if resp.accessTokenId.Some? && resp.accessTokenId.value != "" then resp.accessTokenId.value
    else resp.accessToken
  }

  /** The reply for a failed authentication, by the first pattern its
    * message contains. */
  function AuthErrorPrompt(message: string): (p: Prompt)
    ensures p == InvalidOtp <==> Contains(message, "Invalid OTP") || Contains(message, "expired")
    ensures p == EmailNotRegistered <==>
              !Contains(message, "Invalid OTP") && !Contains(message, "expired")
              && (Contains(message, "not found") || Contains(message, "email"))
    ensures p != InvalidOtp && p != EmailNotRegistered ==> p == AuthenticationFailed(message)
  {
    if Contains(message, "Invalid OTP") || Contains(message, "expired") then InvalidOtp
    else if Contains(message, "not found") || Contains(message, "email") then EmailNotRegistered
    else AuthenticationFailed(message)
  }

  /** The `login_email` step. `otp` is what `requestEmailOtp` delivered: the
    * response's `sid` (None when the response or its `sid` is missing), or
    * the message of the error it threw. */
  function EmailStep(s: SessionState, text: string, otp: Outcome<Option<string>>): (r: Step)
  {
    if !LooseEmail(text) then Step(s, Consumed, [Reply(InvalidEmail)])
    else
      var stored := WithTemp(s, "email", Text(text));
      var asked := [Reply(RequestingOtp), RequestOtp(text)];
      match otp
      case Success(Some(sid)) =>
        if sid != "" then
          Step(WithTemp(stored, "sid", Text(sid)).(currentStep := Some("login_otp")), Consumed,
               asked + [Reply(OtpSent(text))])
        else Step(stored.(currentStep := None), Consumed, asked + [Reply(MissingSid)])
      case Success(None) => Step(stored.(currentStep := None), Consumed, asked + [Reply(MissingSid)])
      case Failure(m) => Step(stored.(currentStep := None), Consumed, asked + [Reply(OtpRequestFailed(m))])
  }

  /** The session after a successful authentication: credentials set, the
    * scratch space emptied and the step reset. */
  function LoggedIn(s: SessionState, resp: AuthResponse): (t: SessionState)
  {
    var u := resp.user;
    ClearedTemp(WithAuth(s, resp.accessToken, RefreshTokenOf(resp), u.id, u.email, u.organizationId), None)
      .(currentStep := None)
  }

  /** The `login_otp` step. `auth` is what `authenticateWithOtp` delivered;
    * `chat` is the chat id of the update, if any. */
  function OtpStep(s: SessionState, text: string, auth: Outcome<AuthResponse>, chat: Option<int>): (r: Step)
  {
    if !NumericText(text) then Step(s, Consumed, [Reply(InvalidOtpFormat)])
    else
      var email, sid := TempGet(s, "email"), TempGet(s, "sid");
      if !Truthy(email) || !Truthy(sid) then Step(s.(currentStep := None), Consumed, [Reply(LoginError)])
      else
        var asked := [Reply(Authenticating), Authenticate(email.value, text, sid.value)];
        match auth
        case Success(resp) =>
          var notify := if ChatPresent(chat)
                        then [SetupNotifications(chat.value, resp.accessToken, resp.user.organizationId)]
                        else [];
          Step(LoggedIn(s, resp), Consumed, asked + [Reply(LoggedInAs(resp.user.email))] + notify + [Reply(MainMenu)])
        case Failure(m) => Step(s.(currentStep := None), Consumed, asked + [Reply(AuthErrorPrompt(m))])
  }

  /** `loginFlow` on a text message: only steps starting with `login_` are
    * claimed, and of those only the two it knows. */
  function LoginFlow(s: SessionState, raw: string, otp: Outcome<Option<string>>,
                     auth: Outcome<AuthResponse>, chat: Option<int>): (r: Step)
    ensures !InFlow(s, "login_") ==> r == Step(s, PassedOn, [])
  {
    if !InFlow(s, "login_") then Step(s, PassedOn, [])
    else if s.currentStep == Some("login_email") then EmailStep(s, Trim(raw), otp)
    else if s.currentStep == Some("login_otp") then OtpStep(s, Trim(raw), auth, chat)
    else Step(s, PassedOn, [])
  }

  /** `/login` while authenticated changes nothing; otherwise only the step
    * moves, to `login_email`. */
  lemma LoginCommandSteps(s: SessionState)
    ensures s.authenticated ==> LoginCommand(s).state == s
    ensures !s.authenticated ==> LoginCommand(s).state.currentStep == Some("login_email")
                                 && LoginCommand(s).state.tempData == s.tempData
  {
  }

  /** An address the pattern refuses is asked for again: nothing is stored,
    * the step stays and no OTP is requested. */
  lemma InvalidEmailReprompts(s: SessionState, raw: string, otp: Outcome<Option<string>>,
                              auth: Outcome<AuthResponse>, chat: Option<int>)
    requires s.currentStep == Some("login_email") && !LooseEmail(Trim(raw))
    ensures LoginFlow(s, raw, otp, auth, chat) == Step(s, Consumed, [Reply(InvalidEmail)])
  {
    LoginDispatch(s, raw, otp, auth, chat);
  }

  /** Each of the two steps hands the trimmed text to its own handler. */
  lemma LoginDispatch(s: SessionState, raw: string, otp: Outcome<Option<string>>,
                      auth: Outcome<AuthResponse>, chat: Option<int>)
    ensures s.currentStep == Some("login_email") ==> LoginFlow(s, raw, otp, auth, chat) == EmailStep(s, Trim(raw), otp)
    ensures s.currentStep == Some("login_otp") ==> LoginFlow(s, raw, otp, auth, chat) == OtpStep(s, Trim(raw), auth, chat)
  {
    LoginStepNames();
  }

  lemma LoginStepNames()
    ensures StartsWith("login_email", "login_") && StartsWith("login_otp", "login_")
    ensures "login_otp" != "login_email"
  {
    assert "login_email"[..6] == "login_" && "login_otp"[..6] == "login_";
    assert |"login_otp"| != |"login_email"|;
  }

  /** After an accepted address the step is `login_otp` exactly when the OTP
    * request delivered a non-empty `sid`; in every other case it is reset.
    * The address is stored either way, and the sid only on success. */
  lemma EmailStepOutcome(s: SessionState, text: string, otp: Outcome<Option<string>>)
    requires LooseEmail(text)
    ensures var t := EmailStep(s, text, otp).state;
            (t.currentStep == Some("login_otp") <==> otp.Success? && otp.value.Some? && otp.value.value != "")
            && (t.currentStep != Some("login_otp") ==> t.currentStep == None)
            && TempGet(t, "email") == Some(Text(text))
            && (t.currentStep == Some("login_otp") ==> TempGet(t, "sid") == Some(Text(otp.value.value)))
    ensures RequestOtp(text) in EmailStep(s, text, otp).events
  {
  }

  /** Text that is not all digits is asked for again with the step kept. */
  lemma NonNumericOtpReprompts(s: SessionState, text: string, auth: Outcome<AuthResponse>, chat: Option<int>)
    requires !NumericText(text)
    ensures OtpStep(s, text, auth, chat) == Step(s, Consumed, [Reply(InvalidOtpFormat)])
  {
  }

  /** A missing stored email or sid aborts: the step is reset, nothing else
    * changes and no authentication is attempted. */
  lemma MissingLoginDataAborts(s: SessionState, text: string, auth: Outcome<AuthResponse>, chat: Option<int>)
    requires NumericText(text)
    requires !Truthy(TempGet(s, "email")) || !Truthy(TempGet(s, "sid"))
    ensures OtpStep(s, text, auth, chat) == Step(s.(currentStep := None), Consumed, [Reply(LoginError)])
  {
  }

  /** A successful authentication leaves the session authenticated (given a
    * non-empty access token), with the response's credentials, an emptied
    * scratch space and no step. */
  lemma SuccessfulLogin(s: SessionState, text: string, resp: AuthResponse, chat: Option<int>)
    requires NumericText(text) && Truthy(TempGet(s, "email")) && Truthy(TempGet(s, "sid"))
    ensures var t := OtpStep(s, text, Success(resp), chat).state;
            (IsAuthenticated(t) <==> resp.accessToken != "")
            && t.authenticated && t.token == Some(resp.accessToken)
            && t.refreshToken == Some(RefreshTokenOf(resp))
            && t.userId == Some(resp.user.id) && t.email == Some(resp.user.email)
            && t.organizationId == Some(resp.user.organizationId)
            && t.tempData == Some(map[]) && t.currentStep == None
  {
  }

  /** Notifications are set up on success exactly when a chat is present. */
  lemma NotificationsOnlyForChat(s: SessionState, text: string, resp: AuthResponse, chat: Option<int>)
    requires NumericText(text) && Truthy(TempGet(s, "email")) && Truthy(TempGet(s, "sid"))
    ensures ChatPresent(chat) ==>
              SetupNotifications(chat.value, resp.accessToken, resp.user.organizationId) in OtpStep(s, text, Success(resp), chat).events
    ensures !ChatPresent(chat) ==>
              forall e :: e in OtpStep(s, text, Success(resp), chat).events ==> !e.SetupNotifications?
  {
  }

  /** A failed authentication only resets the step; the stored address and
    * sid stay for a retry, and the reply follows the message's pattern. */
  lemma FailedLogin(s: SessionState, text: string, m: string, chat: Option<int>)
    requires NumericText(text) && Truthy(TempGet(s, "email")) && Truthy(TempGet(s, "sid"))
    ensures var r := OtpStep(s, text, Failure(m), chat);
            r.state == s.(currentStep := None) && r.events[|r.events| - 1] == Reply(AuthErrorPrompt(m))
  {
  }

  /** A message mentioning an expired OTP is classed as an invalid OTP even
    * when it also mentions the email. */
  lemma ExpiredBeatsEmail()
    ensures AuthErrorPrompt("email OTP expired") == InvalidOtp
  {
    var m := "email OTP expired";
    assert OccursAt(m, "expired", 10);
    ContainsAt(m, "expired");
  }

  /** The handler of `/login` on the session record. */
  method RunLoginCommand(s: Session) returns (handled: Handled, events: seq<Event>)
    modifies s
    ensures Step(s.State(), handled, events) == LoginCommand(old(s.State()))
  {
    if s.authenticated {
      return Consumed, [Reply(AlreadyLoggedIn)];
    }
    events := [Reply(AskLoginEmail)];
    s.currentStep := Some("login_email");
    handled := Consumed;
  }

  /** The `login_email` step on the session record. */
  method RunEmailStep(s: Session, text: string, otp: Outcome<Option<string>>)
    returns (handled: Handled, events: seq<Event>)
    modifies s
    ensures Step(s.State(), handled, events) == EmailStep(old(s.State()), text, otp)
  {
    handled := Consumed;
    if !LooseEmail(text) {
      return handled, [Reply(InvalidEmail)];
    }
    s.SetTempData("email", Text(text));
    events := [Reply(RequestingOtp), RequestOtp(text)];
    match otp {
      case Success(sid) =>
        if sid.Some? && sid.value != "" {
          s.SetTempData("sid", Text(sid.value));
          events := events + [Reply(OtpSent(text))];
          s.currentStep := Some("login_otp");
        } else {
          events := events + [Reply(MissingSid)];
          s.currentStep := None;
        }
      case Failure(m) =>
        events := events + [Reply(OtpRequestFailed(m))];
        s.currentStep := None;
    }
  }

  /** The `login_otp` step on the session record. */
  method RunOtpStep(s: Session, text: string, auth: Outcome<AuthResponse>, chat: Option<int>)
    returns (handled: Handled, events: seq<Event>)
    modifies s
    ensures Step(s.State(), handled, events) == OtpStep(old(s.State()), text, auth, chat)
  {
    handled := Consumed;
    if !NumericText(text) {
      return handled, [Reply(InvalidOtpFormat)];
    }
    var email := s.GetTempData("email");
    var sid := s.GetTempData("sid");
    if !Truthy(email) || !Truthy(sid) {
      s.currentStep := None;
      return handled, [Reply(LoginError)];
    }
    events := [Reply(Authenticating), Authenticate(email.value, text, sid.value)];
    match auth {
      case Success(resp) =>
        var u := resp.user;
        s.SetAuthData(resp.accessToken, RefreshTokenOf(resp), u.id, u.email, u.organizationId);
        s.ClearTempData(None);
        events := events + [Reply(LoggedInAs(u.email))];
        if chat.Some? && chat.value != 0 {
          events := events + [SetupNotifications(chat.value, resp.accessToken, u.organizationId)];
        }
        events := events + [Reply(MainMenu)];
        s.currentStep := None;
      case Failure(m) =>
        events := events + [Reply(AuthErrorPrompt(m))];
        s.currentStep := None;
    }
  }

  /** `loginFlow` on the session record. */
  method RunLoginFlow(s: Session, raw: string, otp: Outcome<Option<string>>,
                      auth: Outcome<AuthResponse>, chat: Option<int>)
    returns (handled: Handled, events: seq<Event>)
    modifies s
    ensures Step(s.State(), handled, events) == LoginFlow(old(s.State()), raw, otp, auth, chat)
  {
    if !InFlow(s.State(), "login_") {
      return PassedOn, [];
    }
    var text := Trim(raw);
    if s.currentStep == Some("login_email") {
      handled, events := RunEmailStep(s, text, otp);
    } else if s.currentStep == Some("login_otp") {
      handled, events := RunOtpStep(s, text, auth, chat);
    } else {
      handled, events := PassedOn, [];
    }
  }
}
