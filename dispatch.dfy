/** How a text message travels through the bot (`src/index.ts`): the login,
  * send and withdraw composers are registered in that order, and each text
  * handler calls `next()` unless the current step carries its prefix. An
  * uncaught error reaches the handler given to `bot.catch`. */
module Dispatch {
  import opened Common
  import opened Strings
  import opened Sessions
  import opened Bot
  import Login
  import Send
  import Withdraw

  /** A text message that no command handler claimed, through `loginFlow`,
    * `sendFlow` and `withdrawFlow`: each later handler sees the session its
    * predecessor left, and the events add up in order. */
  function TextUpdate(s: SessionState, raw: string, otp: Outcome<Option<string>>,
                      auth: Outcome<Login.AuthResponse>, chat: Option<int>,
                      balances: Send.BalancesOutcome, wallets: Withdraw.WalletsOutcome): (r: Step)
    ensures !InFlow(s, "login_") && !InFlow(s, "send_") && !InFlow(s, "withdraw_") ==>
              r == Step(s, PassedOn, [])
  {
    var l := Login.LoginFlow(s, raw, otp, auth, chat);
    if l.handled != PassedOn then l
    else
      var d := Send.SendFlow(l.state, raw, balances);
      if d.handled != PassedOn then Step(d.state, d.handled, l.events + d.events)
      else
        var w := Withdraw.WithdrawFlow(d.state, raw, wallets);
        Step(w.state, w.handled, l.events + d.events + w.events)
  }

  /** `loginFlow` calls `next()` only without touching anything. */
  lemma LoginPassOnIdle(s: SessionState, raw: string, otp: Outcome<Option<string>>,
                        auth: Outcome<Login.AuthResponse>, chat: Option<int>)
    ensures var l := Login.LoginFlow(s, raw, otp, auth, chat);
            l.handled == PassedOn ==> l == Step(s, PassedOn, [])
  {
  }

  /** `withdrawFlow` calls `next()` only without touching anything. */
  lemma WithdrawPassOnIdle(s: SessionState, raw: string, wallets: Withdraw.WalletsOutcome)
    ensures var w := Withdraw.WithdrawFlow(s, raw, wallets);
            w.handled == PassedOn ==> w == Step(s, PassedOn, [])
  {
    if s.currentStep.Some? {
      var text := Trim(raw);
      match Withdraw.Route(s.currentStep.value)
      case ToNetwork => NetworkChoicePassOn(s, text, wallets);
      case ToToken => TokenChoicePassOn(s, text);
      case ToAmount => AmountEntryPassOn(s, text);
      case NotWithdraw =>
    }
  }

  lemma NetworkChoicePassOn(s: SessionState, text: string, wallets: Withdraw.WalletsOutcome)
    ensures var w := Withdraw.NetworkChoice(s, text, wallets);
            w.handled == PassedOn ==> w == Step(s, PassedOn, [])
  {
  }

  lemma TokenChoicePassOn(s: SessionState, text: string)
    ensures var w := Withdraw.TokenChoice(s, text);
            w.handled == PassedOn ==> w == Step(s, PassedOn, [])
  {
  }

  lemma AmountEntryPassOn(s: SessionState, text: string)
    ensures var w := Withdraw.AmountEntry(s, text);
            w.handled == PassedOn ==> w == Step(s, PassedOn, [])
  {
  }

  /** Exactly the flow that owns the current step's prefix decides the
    * update; a session outside all three flows passes the message on
    * untouched. */
  lemma OwnerDecides(s: SessionState, raw: string, otp: Outcome<Option<string>>,
                     auth: Outcome<Login.AuthResponse>, chat: Option<int>,
                     balances: Send.BalancesOutcome, wallets: Withdraw.WalletsOutcome)
    ensures var r := TextUpdate(s, raw, otp, auth, chat, balances, wallets);
            && (InFlow(s, "login_") ==> r == Login.LoginFlow(s, raw, otp, auth, chat))
            && (InFlow(s, "send_") ==> r == Send.SendFlow(s, raw, balances))
            && (InFlow(s, "withdraw_") ==> r == Withdraw.WithdrawFlow(s, raw, wallets))
  {
    PrefixesExclusive(s);
    LoginPassOnIdle(s, raw, otp, auth, chat);
    WithdrawPassOnIdle(s, raw, wallets);
  }

  /** An update passed on by all three flows leaves the session as it was. */
  lemma PassedOnIsIdle(s: SessionState, raw: string, otp: Outcome<Option<string>>,
                       auth: Outcome<Login.AuthResponse>, chat: Option<int>,
                       balances: Send.BalancesOutcome, wallets: Withdraw.WalletsOutcome)
    ensures var r := TextUpdate(s, raw, otp, auth, chat, balances, wallets);
            r.handled == PassedOn ==> r == Step(s, PassedOn, [])
  {
    LoginPassOnIdle(s, raw, otp, auth, chat);
    WithdrawPassOnIdle(s, raw, wallets);
  }

  /** `bot.catch`: an update whose handler threw gets one generic error
    * reply after whatever the handler had done; the session keeps the
    * changes made before the error (the session object is updated in
    * place). */
  function Caught(st: Step): (r: seq<Event>)
    ensures |r| >= |st.events| && r[..|st.events|] == st.events
    ensures st.handled == Threw ==> |r| == |st.events| + 1 && r[|st.events|] == Reply(ProcessingError)
    ensures st.handled != Threw ==> r == st.events
  {
    if st.handled == Threw then st.events + [Reply(ProcessingError)] else st.events
  }

  /** The text handlers of the three composers run one after another on
    * the same session until one of them does not call `next()`. */
  method RunTextUpdate(s: Session, raw: string, otp: Outcome<Option<string>>,
                       auth: Outcome<Login.AuthResponse>, chat: Option<int>,
                       balances: Send.BalancesOutcome, wallets: Withdraw.WalletsOutcome)
    returns (handled: Handled, events: seq<Event>)
    modifies s
    ensures Step(s.State(), handled, events) == TextUpdate(old(s.State()), raw, otp, auth, chat, balances, wallets)
  {
    handled, events := Login.RunLoginFlow(s, raw, otp, auth, chat);
    if handled == PassedOn {
      var before := events;
      handled, events := Send.RunSendFlow(s, raw, balances);
      events := before + events;
      if handled == PassedOn {
        var sofar := events;
        handled, events := Withdraw.RunWithdrawFlow(s, raw, wallets);
        events := sofar + events;
      }
    }
  }
}
