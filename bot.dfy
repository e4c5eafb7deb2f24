/** What every handler of the bot shares: the replies it sends (as abstract
  * prompt tags rather than Telegram text), the calls it makes to its
  * collaborators, how a handler ends, and the authentication gate of
  * `src/bot/middleware/auth.ts`. */
module Bot {
  import opened Common
  import opened Strings
  import opened Numbers
  import opened Sessions
  import Transfers
  import Format

  /** One line of a token menu: the symbol and the balance as delivered;
    * the line shows the balance through `formatAmount` (`MenuLineText`). */
  datatype TokenLine = TokenLine(symbol: string, balance: string)

  /** The replies the handlers send, by meaning. */
  datatype Prompt =
    // authentication gate, login and logout
    | LoginRequired | NotLoggedIn | LoggedOut | AlreadyLoggedIn | AskLoginEmail
    | InvalidEmail | RequestingOtp | MissingSid | OtpSent(email: string)
    | OtpRequestFailed(reason: string) | InvalidOtpFormat | Authenticating
    | LoggedInAs(userEmail: string) | MainMenu | InvalidOtp | EmailNotRegistered
    | AuthenticationFailed(detail: string) | LoginError
    // send
    | AskRecipientEmail | AskRecipientWallet | InvalidWalletAddress | NoTokens
    | ReturnToMenu | NetworkMenu(networks: seq<string>) | NetworksFailed(reason: string)
    | InvalidSelection(count: nat) | TokenMenu(lines: seq<TokenLine>)
    | TokensFailed(reason: string) | AskAmount | InvalidAmount | AskNote
    | ConfirmSend(toEmail: bool, recipient: string, network: string, token: string,
                  amount: string, note: Option<string>)
    | ProcessingTransfer | TransferSucceeded(id: string) | TransferFailed(reason: string)
    | TransferCancelled
    // withdraw
    | WithdrawIntro | WithdrawStartFailed(reason: string) | InvalidAmountFormat
    | AmountNotPositive | DefaultBankAccount | WithdrawTokenMenu(withdrawLines: seq<TokenLine>)
    | AskWithdrawAmount
    | ConfirmWithdrawal(network: string, token: string, amount: string)
    | ProcessingWithdrawal | WithdrawalSubmitted | WithdrawalCancelled
    // the bot's error handler
    | ProcessingError

  /** The text of the `index`-th menu line (0-based):
    * `<index + 1>. <symbol> (Balance: <formatAmount(balance)>)`. */
  function MenuLineText(index: nat, line: TokenLine): (r: string)
  {
    NatToString(index + 1) + ". " + line.symbol + " (Balance: " + Format.FormatAmount2(AmountText(line.balance)) + ")"
  }

  /** The number at the head of a menu line is the one that selects it: typed
    * back, `parseInt` reads `index + 1`, the choice the token steps turn into
    * `index`. */
  lemma MenuLineSelects(index: nat, line: TokenLine)
    ensures ParseInt(MenuLineText(index, line)) == Some(index + 1)
  {
    LineSelects(NatToString(index + 1), line.symbol, Format.FormatAmount2(AmountText(line.balance)));
  }

  lemma LineSelects(ns: string, symbol: string, b: string)
    requires |ns| >= 1 && AllDigits(ns)
    ensures ParseInt(ns + ". " + symbol + " (Balance: " + b + ")") == Some(DigitsValue(ns))
  {
    var rest := ". " + symbol + " (Balance: " + b + ")";
    assert ns + ". " + symbol + " (Balance: " + b + ")" == ns + rest;
    assert rest[0] == '.';
    ParseIntLeadingDigits(ns, rest);
  }

  /** The network menu of the send and withdraw flows: each network
    * upper-cased. */
  function NetworkLines(networks: seq<string>): (r: seq<string>)
    ensures |r| == |networks| && forall i :: 0 <= i < |networks| ==> r[i] == ToUpper(networks[i])
  {
    seq(|networks|, i requires 0 <= i < |networks| => ToUpper(networks[i]))
  }

  /** The network menu, built line by line. */
  method BuildNetworkMenu(networks: seq<string>) returns (lines: seq<string>)
    ensures lines == NetworkLines(networks)
  {
    lines := [];
    for i := 0 to |networks|
      invariant lines == NetworkLines(networks[..i])
    {
      assert networks[..i + 1] == networks[..i] + [networks[i]];
      lines := lines + [ToUpper(networks[i])];
    }
    assert networks[..|networks|] == networks;
  }

  /** What a handler does to the outside world, in order. */
  datatype Event =
    | Reply(prompt: Prompt)
    | AnswerCallback
    | FetchBalances
    | RequestOtp(address: string)
    | Authenticate(email: Value, otp: string, sid: Value)
    | PostTransfer(body: Transfers.RequestBody)
    | SetupNotifications(chat: int, accessToken: string, organizationId: string)
    | CleanupNotifications(chat: int)

  /** How a handler ends: it handled the update, it called `next()`, or an
    * uncaught TypeError escaped it (the bot's error handler replies). */
  datatype Handled = Consumed | PassedOn | Threw

  /** The session after a handler, how it ended and what it did. */
  datatype Step = Step(state: SessionState, handled: Handled, events: seq<Event>)

  /** `authMiddleware`: `next()` for an authenticated session, otherwise one
    * login-required reply; the session is never touched. */
  function AuthMiddleware(s: SessionState): (r: Step)
    ensures r.state == s
    ensures r.handled == PassedOn <==> IsAuthenticated(s)
    ensures !IsAuthenticated(s) ==> r.handled == Consumed && r.events == [Reply(LoginRequired)]
    ensures IsAuthenticated(s) ==> r.events == []
  {
    if !IsAuthenticated(s) then Step(s, Consumed, [Reply(LoginRequired)]) else Step(s, PassedOn, [])
  }

  /** A session flagged authenticated but holding no token is stopped at the
    * gate. */
  lemma FlaggedWithoutTokenRejected(s: SessionState)
    requires s.authenticated && (s.token == None || s.token == Some(""))
    ensures AuthMiddleware(s).handled == Consumed
    ensures AuthMiddleware(s).events == [Reply(LoginRequired)]
  {
  }

  /** A handler registered behind the gate: the handler's own step when the
    * gate lets the update through, the gate's refusal otherwise. */
  function Gated(s: SessionState, inner: Step): (r: Step)
    ensures IsAuthenticated(s) ==> r == inner
    ensures !IsAuthenticated(s) ==> r == Step(s, Consumed, [Reply(LoginRequired)])
  {
    var gate := AuthMiddleware(s);
    if gate.handled == PassedOn then inner else gate
  }

  /** The current step starts with a flow's prefix. */
  predicate InFlow(s: SessionState, prefix: string)
  {
    s.currentStep.Some? && StartsWith(s.currentStep.value, prefix)
  }

  /** The three flow prefixes exclude one another. */
  lemma PrefixesExclusive(s: SessionState)
    ensures !(InFlow(s, "login_") && InFlow(s, "send_"))
    ensures !(InFlow(s, "login_") && InFlow(s, "withdraw_"))
    ensures !(InFlow(s, "send_") && InFlow(s, "withdraw_"))
  {
    if InFlow(s, "login_") {
      assert s.currentStep.value[0] == "login_"[0];
    }
    if InFlow(s, "send_") {
      assert s.currentStep.value[0] == "send_"[0];
    }
  }

  /** A character the pattern class `[^\s@]` matches. */
  predicate PlainChar(c: char)
  {
    !IsSpace(c) && c != '@'
  }

  /** The pattern `^[^\s@]+@[^\s@]+\.[^\s@]+$` of the login and send flows:
    * exactly one `@` with something before it, and after it a dot that has
    * something on either side, and no white space anywhere. */
  predicate LooseEmail(s: string)
  {
    exists at :: 0 < at < |s| && s[at] == '@'
      && (forall j :: 0 <= j < |s| && j != at ==> PlainChar(s[j]))
      && (exists dot :: at + 1 < dot < |s| - 1 && s[dot] == '.')
  }

  /** The pattern `^\d+$`. */
  predicate NumericText(s: string)
  {
    s != [] && AllDigits(s)
  }

  /** `ctx.chat && ctx.chat.id`: a chat whose id is truthy. */
  predicate ChatPresent(chat: Option<int>)
  {
    chat.Some? && chat.value != 0
  }

  /** A stored list as an indexed collection: an array as it is, a string as
    * its one-character strings, and nothing (a TypeError on `.length`)
    * when the key is missing. */
  function Listing(v: Option<Value>): (r: Option<seq<string>>)
    ensures v.Some? && v.value.List? ==> r == Some(v.value.items)
    ensures r == None <==> v == None
  {
    match v
    case None => None
    case Some(List(xs)) => Some(xs)
    case Some(Text(t)) => Some(seq(|t|, i requires 0 <= i < |t| => [t[i]]))
  }

  /** `parseInt(text, 10) - 1` as an index into a list of `n` entries: None
    * for NaN and for anything outside `[0, n)`. */
  function Selection(text: string, n: nat): (r: Option<nat>)
    ensures r.Some? <==> ParseInt(text).Some? && 1 <= ParseInt(text).value <= n
    ensures r.Some? ==> r.value < n && r.value == ParseInt(text).value - 1
  {
    var p := ParseInt(text);
    if p.None? || p.value - 1 < 0 || p.value - 1 >= n then None else Some(p.value - 1)
  }

  /** Only the leading digits count: "2abc" picks the second entry. */
  lemma TrailingTextIgnored()
    ensures Selection("2abc", 3) == Some(1)
  {
    assert TrimStart("2abc") == "2abc";
    assert SignEnd("2abc") == 0;
    assert DigitRun("2abc", 0) == 1 by {
      DigitRunIs("2abc", 0, 1);
    }
    assert "2abc"[0..1] == "2";
    assert DigitsValue("2") == 2 by {
      assert "2"[..0] == "";
    }
  }
}
