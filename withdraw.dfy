/** The withdraw conversation (`src/bot/commands/withdraw.ts`): the start
  * command and button, the text step machine
  * `withdraw_network` → `withdraw_token` → `withdraw_amount` →
  * `withdraw_confirm`, and the confirm and cancel actions. */
module Withdraw {
  import opened Common
  import opened Strings
  import opened Numbers
  import opened Sessions
  import opened Bot
  import opened WithdrawTokens

  /** What `walletApi.getBalances` delivered here: the wallets as they came
    * (None for a missing response), or the message of the Error it threw. */
  type WalletsOutcome = Outcome<Option<seq<WalletBalances>>>

  /** The message of the TypeError `undefined.length` raises. */
  const LengthOfUndefined := "Cannot read properties of undefined (reading 'length')"

  /** The placeholder account every withdrawal uses. */
  const DefaultBankAccountId := "default_bank_account_id"

  const NetworkStep := "withdraw_network"
  const TokenStep := "withdraw_token"
  const AmountStep := "withdraw_amount"
  const ConfirmStep := "withdraw_confirm"

  /** The text steps, in order. */
  const WithdrawOrder: seq<string> := [NetworkStep, TokenStep, AmountStep, ConfirmStep]

  /** The token menu: each collected token with its balance. */
  function MenuLines(list: seq<TokenBalance>): (r: seq<TokenLine>)
    ensures |r| == |list|
    ensures forall i :: 0 <= i < |list| ==> r[i] == TokenLine(list[i].symbol, list[i].balance)
  {
    seq(|list|, i requires 0 <= i < |list| => TokenLine(list[i].symbol, list[i].balance))
  }

  /** `startWithdrawal`: the scratch space is cleared before anything else;
    * then the balances are fetched and their networks offered. A failure or
    * an empty list ends the start without touching the step. */
  function StartWithdrawal(s: SessionState, wallets: WalletsOutcome): (r: Step)
  {
    var s1 := ClearedTemp(s, None);
    var asked := [Reply(WithdrawIntro), FetchBalances];
    match wallets
    case Failure(m) => Step(s1, Consumed, asked + [Reply(WithdrawStartFailed(m)), Reply(ReturnToMenu)])
    case Success(None) =>
      Step(s1, Consumed, asked + [Reply(WithdrawStartFailed(LengthOfUndefined)), Reply(ReturnToMenu)])
    case Success(Some(ws)) =>
      if ws == [] then Step(s1, Consumed, asked + [Reply(NoTokens), Reply(ReturnToMenu)])
      else
        var networks := Dedup(WalletNetworks(ws));
        Step(WithTemp(s1, "networks", List(networks)).(currentStep := Some(NetworkStep)), Consumed,
             asked + [Reply(NetworkMenu(NetworkLines(networks)))])
  }

  /** `withdrawCommand` and (`viaButton`) `withdrawAction`, behind the gate;
    * the button's callback is answered first. */
  function WithdrawStart(s: SessionState, viaButton: bool, wallets: WalletsOutcome): (r: Step)
  {
    var inner := StartWithdrawal(s, wallets);
    Gated(s, if viaButton then Step(inner.state, inner.handled, [AnswerCallback] + inner.events) else inner)
  }

  /** The `withdraw_network` step: a 1-based choice from the stored networks,
    * then the tokens held on it. */
  function NetworkChoice(s: SessionState, text: string, wallets: WalletsOutcome): (r: Step)
    ensures r.state.currentStep in {s.currentStep, None, Some(TokenStep)}
  {
    var networks := Listing(TempGet(s, "networks"));
    if networks == None then Step(s, Threw, [])
    else
      match Selection(text, |networks.value|)
      case None => Step(s, Consumed, [Reply(InvalidSelection(|networks.value|))])
      case Some(i) =>
        var chosen := networks.value[i];
        OfferTokens(WithTemp(s, "network", Text(chosen)), chosen, wallets)
  }

  /** After the network is stored: fetch the wallets again and offer the
    * tokens collected from those on the network. A failure resets the step
    * and leaves the scratch space as it is. */
  function OfferTokens(s: SessionState, network: string, wallets: WalletsOutcome): (r: Step)
    ensures r.state.currentStep in {None, Some(TokenStep)}
  {
    match wallets
    case Failure(m) => Step(s.(currentStep := None), Consumed, [FetchBalances, Reply(TokensFailed(m)), Reply(ReturnToMenu)])
    case Success(None) =>
      Step(s.(currentStep := None), Consumed, [FetchBalances, Reply(TokensFailed(LengthOfUndefined)), Reply(ReturnToMenu)])
    case Success(Some(ws)) =>
      var list := Gather(OnNetworkW(ws, network));
      Step(WithTemp(s, "tokens", List(Symbols(list))).(currentStep := Some(TokenStep)), Consumed,
           [FetchBalances, Reply(WithdrawTokenMenu(MenuLines(list)))])
  }

  /** The `withdraw_token` step: a 1-based choice from the stored tokens. */
  function TokenChoice(s: SessionState, text: string): (r: Step)
    ensures r.state.currentStep in {s.currentStep, Some(AmountStep)}
  {
    var tokens := Listing(TempGet(s, "tokens"));
    if tokens == None then Step(s, Threw, [])
    else
      match Selection(text, |tokens.value|)
      case None => Step(s, Consumed, [Reply(InvalidSelection(|tokens.value|))])
      case Some(i) =>
        Step(WithTemp(s, "token", Text(tokens.value[i])).(currentStep := Some(AmountStep)), Consumed,
             [Reply(AskWithdrawAmount)])
  }

  /** The pattern `^\d+(\.\d+)?$`: digits, optionally followed by a point and
    * more digits. */
  predicate AmountPattern(t: string)
  {
    NumericText(t)
    || exists i :: 0 < i < |t| - 1 && t[i] == '.' && NumericText(t[..i]) && NumericText(t[i + 1..])
  }

  /** The scratch space after an accepted amount. */
  function WithAmount(s: SessionState, text: string): SessionState
  {
    WithTemp(WithTemp(s, "amount", Text(text)), "bankAccountId", Text(DefaultBankAccountId))
  }

  /** The `withdraw_amount` step: the format is checked first, then the sign;
    * an accepted amount is stored as typed together with the placeholder
    * bank account, and the summary is shown at once. */
  function AmountEntry(s: SessionState, text: string): (r: Step)
    ensures r.state.currentStep in {s.currentStep, Some(ConfirmStep)}
  {
    if !AmountPattern(text) then Step(s, Consumed, [Reply(InvalidAmountFormat)])
    else if AtMost(ParseFloat(text), 0.0) then Step(s, Consumed, [Reply(AmountNotPositive)])
    else AcceptAmount(s, text)
  }

  /** An accepted amount: stored with the placeholder account, then the
    * summary read back from the scratch space. */
  function AcceptAmount(s: SessionState, text: string): (r: Step)
    ensures r.state.currentStep == Some(ConfirmStep)
  {
    var s1 := WithAmount(s, text);
    var summary := ConfirmWithdrawal(ToUpper(Display(TempGet(s1, "network"))), Display(TempGet(s1, "token")),
                                     Display(TempGet(s1, "amount")));
    Step(s1.(currentStep := Some(ConfirmStep)), Consumed, [Reply(DefaultBankAccount), Reply(summary)])
  }

  /** Which handler a current step selects. */
  datatype WithdrawRoute = ToNetwork | ToToken | ToAmount | NotWithdraw

  /** The step names `withdrawFlow` compares against; `withdraw_confirm`,
    * unknown names and names outside the prefix select nothing. */
  function Route(step: string): (r: WithdrawRoute)
    ensures !StartsWith(step, "withdraw_") ==> r == NotWithdraw
  {
    if !StartsWith(step, "withdraw_") then NotWithdraw
    else if step == NetworkStep then ToNetwork
    else if step == TokenStep then ToToken
    else if step == AmountStep then ToAmount
    else NotWithdraw
  }

  /** The route of every named step. */
  lemma RouteOfNames()
    ensures Route(NetworkStep) == ToNetwork && Route(TokenStep) == ToToken
    ensures Route(AmountStep) == ToAmount && Route(ConfirmStep) == NotWithdraw
  {
    assert NetworkStep[..9] == "withdraw_" && TokenStep[..9] == "withdraw_";
    assert AmountStep[..9] == "withdraw_" && ConfirmStep[..9] == "withdraw_";
    assert ConfirmStep != NetworkStep by {
      assert ConfirmStep[9] != NetworkStep[9];
    }
    assert ConfirmStep != AmountStep by {
      assert ConfirmStep[9] != AmountStep[9];
    }
    assert |ConfirmStep| != |TokenStep|;
  }

  /** `withdrawFlow` on a text message: only steps starting with `withdraw_`
    * are claimed; `withdraw_confirm` and unknown ones are passed on. */
  function WithdrawFlow(s: SessionState, raw: string, wallets: WalletsOutcome): (r: Step)
    ensures !InFlow(s, "withdraw_") ==> r == Step(s, PassedOn, [])
  {
    if s.currentStep == None then Step(s, PassedOn, [])
    else
      var text := Trim(raw);
      match Route(s.currentStep.value)
      case ToNetwork => NetworkChoice(s, text, wallets)
      case ToToken => TokenChoice(s, text)
      case ToAmount => AmountEntry(s, text)
      case NotWithdraw => Step(s, PassedOn, [])
  }

  /** `withdrawConfirmAction`, behind the gate but whatever the step: no
    * withdrawal is requested anywhere; the scratch space and the step are
    * cleared. */
  function WithdrawConfirm(s: SessionState): (r: Step)
  {
    Gated(s, Step(ClearedTemp(s, None).(currentStep := None), Consumed,
                  [AnswerCallback, Reply(ProcessingWithdrawal), Reply(WithdrawalSubmitted), Reply(ReturnToMenu)]))
  }

  /** `withdrawCancelAction`, behind the gate. */
  function WithdrawCancel(s: SessionState): (r: Step)
  {
    Gated(s, Step(ClearedTemp(s, None).(currentStep := None), Consumed,
                  [AnswerCallback, Reply(WithdrawalCancelled), Reply(ReturnToMenu)]))
  }

  // ---------------------------------------------------------------------
  // Properties

  /** Whatever the fetch delivers, nothing of the old scratch space survives
    * the start: at most the new network list is there. A failure or an empty
    * list leaves the step as it was. */
  lemma StartClearsScratch(s: SessionState, wallets: WalletsOutcome, key: string)
    requires key != "networks"
    ensures TempGet(StartWithdrawal(s, wallets).state, key) == None
    ensures wallets.Failure? || wallets.value == None || wallets.value == Some([]) ==>
              StartWithdrawal(s, wallets).state == ClearedTemp(s, None)
  {
    if wallets.Success? && wallets.value.Some? && wallets.value.value != [] {
      TempSetThenGet(ClearedTemp(s, None), "networks", List(Dedup(WalletNetworks(wallets.value.value))), key);
    }
  }

  /** With wallets delivered, the step becomes `withdraw_network` and the
    * stored list names every network of the wallets once, in the order of
    * first appearance. */
  lemma StartOffersNetworks(s: SessionState, ws: seq<WalletBalances>)
    requires ws != []
    ensures var t := StartWithdrawal(s, Success(Some(ws))).state;
            t.currentStep == Some(NetworkStep) && TempGet(t, "networks") == Some(List(Dedup(WalletNetworks(ws))))
    ensures var d := Dedup(WalletNetworks(ws));
            (forall n :: n in d <==> exists w :: w in ws && w.network == n)
            && (forall i, j :: 0 <= i < j < |d| ==> d[i] != d[j])
  {
    var ns := WalletNetworks(ws);
    DedupSpec(ns);
    forall n | n in Dedup(ns)
      ensures exists w :: w in ws && w.network == n
    {
      var k :| 0 <= k < |ns| && ns[k] == n;
      assert ws[k] in ws;
    }
    forall n | exists w :: w in ws && w.network == n
      ensures n in Dedup(ns)
    {
      var w :| w in ws && w.network == n;
      var k :| 0 <= k < |ws| && ws[k] == w;
      assert ns[k] == n;
    }
  }

  /** Without a login the command, the button and both actions change
    * nothing. */
  lemma ActionsGated(s: SessionState, viaButton: bool, wallets: WalletsOutcome)
    requires !IsAuthenticated(s)
    ensures WithdrawStart(s, viaButton, wallets) == Step(s, Consumed, [Reply(LoginRequired)])
    ensures WithdrawConfirm(s) == Step(s, Consumed, [Reply(LoginRequired)])
    ensures WithdrawCancel(s) == Step(s, Consumed, [Reply(LoginRequired)])
  {
  }

  /** Each named step hands the trimmed text to its own handler;
    * `withdraw_confirm` passes the text on. */
  lemma StepDispatch(s: SessionState, raw: string, wallets: WalletsOutcome)
    requires s.currentStep.Some?
    ensures var text, step := Trim(raw), s.currentStep.value;
            && (step == NetworkStep ==> WithdrawFlow(s, raw, wallets) == NetworkChoice(s, text, wallets))
            && (step == TokenStep ==> WithdrawFlow(s, raw, wallets) == TokenChoice(s, text))
            && (step == AmountStep ==> WithdrawFlow(s, raw, wallets) == AmountEntry(s, text))
            && (step == ConfirmStep ==> WithdrawFlow(s, raw, wallets) == Step(s, PassedOn, []))
  {
    RouteOfNames();
  }

  /** A network or token choice is taken exactly when `parseInt(text) - 1`
    * indexes the stored list; otherwise nothing changes. */
  lemma ChoiceAcceptedIff(s: SessionState, text: string, wallets: WalletsOutcome, key: string)
    requires key == "networks" || key == "tokens"
    requires s.currentStep == Some(if key == "networks" then NetworkStep else TokenStep)
    requires Listing(TempGet(s, key)).Some?
    ensures var choose := if key == "networks" then NetworkChoice(s, text, wallets) else TokenChoice(s, text);
            var n := |Listing(TempGet(s, key)).value|;
            (choose.state == s <==> !(ParseInt(text).Some? && 1 <= ParseInt(text).value <= n))
            && (choose.state == s ==> choose.events == [Reply(InvalidSelection(n))])
  {
  }

  lemma NetworkChoiceState(s: SessionState, text: string, ws: seq<WalletBalances>)
    requires Listing(TempGet(s, "networks")).Some?
    requires Selection(text, |Listing(TempGet(s, "networks")).value|).Some?
    ensures var nets := Listing(TempGet(s, "networks")).value;
            var chosen := nets[Selection(text, |nets|).value];
            NetworkChoice(s, text, Success(Some(ws))).state
              == WithTemp(WithTemp(s, "network", Text(chosen)), "tokens",
                          List(Symbols(Gather(OnNetworkW(ws, chosen))))).(currentStep := Some(TokenStep))
  {
  }

  lemma StoredChoice(s: SessionState, chosen: string, tokens: seq<string>)
    ensures var t := WithTemp(WithTemp(s, "network", Text(chosen)), "tokens", List(tokens)).(currentStep := Some(TokenStep));
            TempGet(t, "network") == Some(Text(chosen))
            && TempGet(t, "tokens") == Some(List(tokens))
            && t.currentStep == Some(TokenStep)
  {
    var s1 := WithTemp(s, "network", Text(chosen));
    assert "tokens" != "network" by {
      assert |"tokens"| != |"network"|;
    }
    TempSetThenGet(s1, "tokens", List(tokens), "network");
    TempSetThenGet(s, "network", Text(chosen), "tokens");
  }

  /** The chosen network is stored, and the stored token list names each
    * symbol held in a wallet on that network once, in the order of first
    * appearance. */
  lemma NetworkChoiceStores(s: SessionState, text: string, ws: seq<WalletBalances>)
    requires Listing(TempGet(s, "networks")).Some?
    requires Selection(text, |Listing(TempGet(s, "networks")).value|).Some?
    ensures var nets := Listing(TempGet(s, "networks")).value;
            var chosen := nets[Selection(text, |nets|).value];
            var t := NetworkChoice(s, text, Success(Some(ws))).state;
            TempGet(t, "network") == Some(Text(chosen))
            && TempGet(t, "tokens") == Some(List(Dedup(Symbols(AllEntries(OnNetworkW(ws, chosen))))))
            && t.currentStep == Some(TokenStep)
  {
    var nets := Listing(TempGet(s, "networks")).value;
    var chosen := nets[Selection(text, |nets|).value];
    NetworkChoiceState(s, text, ws);
    StoredChoice(s, chosen, Symbols(Gather(OnNetworkW(ws, chosen))));
    GatherSpec(OnNetworkW(ws, chosen));
  }

  /** A failed token fetch resets the step but keeps the scratch space,
    * the chosen network included. */
  lemma TokenFetchFailureKeepsScratch(s: SessionState, text: string, m: string)
    requires Listing(TempGet(s, "networks")).Some?
    requires Selection(text, |Listing(TempGet(s, "networks")).value|).Some?
    ensures var nets := Listing(TempGet(s, "networks")).value;
            var chosen := nets[Selection(text, |nets|).value];
            NetworkChoice(s, text, Failure(m)).state == WithTemp(s, "network", Text(chosen)).(currentStep := None)
  {
  }

  /** A text of digits reads as that whole number. */
  lemma WholeAmountValue(t: string)
    requires NumericText(t)
    ensures ParseFloat(t) == Finite(Decimal(DigitsValue(t), 0))
  {
    IntegerTextParses("", t, false);
    assert "" + t == t;
  }

  /** Digits, a point and digits read as the decimal of all the digits. */
  lemma FractionAmountValue(t: string, i: nat)
    requires 0 < i < |t| - 1 && t[i] == '.' && NumericText(t[..i]) && NumericText(t[i + 1..])
    ensures ParseFloat(t) == Finite(Decimal(DigitsValue(t[..i] + t[i + 1..]), -(|t| - i - 1)))
  {
    var qs, rs := t[..i], t[i + 1..];
    assert t == qs + "." + rs;
    assert "" + qs + "." + rs == t;
    AllDigitsConcat(qs, rs);
    SignedTextStart("", qs + "." + rs, false);
    assert "" + (qs + "." + rs) == t;
    FractionTextParses("", qs, rs, false);
  }

  /** Every digit of the text is `0`. */
  predicate ZeroDigits(t: string)
  {
    forall i :: 0 <= i < |t| && IsDigit(t[i]) ==> t[i] == '0'
  }

  /** The digits on both sides of the point are those of the text. */
  lemma FractionDigitsZero(t: string, i: nat)
    requires 0 < i < |t| - 1 && t[i] == '.' && NumericText(t[..i]) && NumericText(t[i + 1..])
    ensures AllDigits(t[..i] + t[i + 1..])
    ensures var u := t[..i] + t[i + 1..];
            (forall j :: 0 <= j < |u| ==> u[j] == '0') <==> ZeroDigits(t)
  {
    var u := t[..i] + t[i + 1..];
    AllDigitsConcat(t[..i], t[i + 1..]);
    assert forall j :: 0 <= j < i ==> u[j] == t[j];
    assert forall j :: i <= j < |t| - 1 ==> u[j] == t[j + 1];
    if ZeroDigits(t) {
      forall j | 0 <= j < |t| - 1
        ensures u[j] == '0'
      {
        if j < i {
          assert t[..i][j] == t[j];
        } else {
          assert t[i + 1..][j - i] == t[j + 1];
        }
      }
    }
    if forall j :: 0 <= j < |t| - 1 ==> u[j] == '0' {
      forall j | 0 <= j < |t| && IsDigit(t[j])
        ensures t[j] == '0'
      {
        if j > i {
          assert u[j - 1] == t[j];
        }
      }
    }
  }

  /** A text matching the pattern always reads as a number that is not
    * negative, and it is refused as not positive exactly when all its digits
    * are `0`. */
  lemma PatternAmountSign(t: string)
    requires AmountPattern(t)
    ensures ParseFloat(t).Finite? && ParseFloat(t).d.mantissa >= 0
    ensures AtMost(ParseFloat(t), 0.0) <==> ZeroDigits(t)
  {
    if NumericText(t) {
      WholeAmountValue(t);
      DigitsValueZero(t);
    } else {
      var i :| 0 < i < |t| - 1 && t[i] == '.' && NumericText(t[..i]) && NumericText(t[i + 1..]);
      FractionAmountValue(t, i);
      FractionDigitsZero(t, i);
      DigitsValueZero(t[..i] + t[i + 1..]);
    }
    ValueSign(ParseFloat(t).d.mantissa, ParseFloat(t).d.exponent);
  }

  /** An amount is taken exactly when it matches the pattern and not all of
    * its digits are `0`; a refused one leaves the session as it was, with
    * the format complaint taking precedence. */
  lemma AmountAcceptedIff(s: SessionState, text: string)
    requires s.currentStep == Some(AmountStep)
    ensures AmountEntry(s, text).state == s <==> !AmountPattern(text) || ZeroDigits(text)
    ensures !AmountPattern(text) ==> AmountEntry(s, text).events == [Reply(InvalidAmountFormat)]
    ensures AmountPattern(text) && ZeroDigits(text) ==> AmountEntry(s, text).events == [Reply(AmountNotPositive)]
  {
    if AmountPattern(text) {
      PatternAmountSign(text);
      if !ZeroDigits(text) {
        assert ConfirmStep != AmountStep by {
          assert ConfirmStep[9] != AmountStep[9];
        }
      }
    }
  }

  lemma WithAmountReads(s: SessionState, text: string, key: string)
    requires key != "amount" && key != "bankAccountId"
    ensures TempGet(WithAmount(s, text), "amount") == Some(Text(text))
    ensures TempGet(WithAmount(s, text), "bankAccountId") == Some(Text(DefaultBankAccountId))
    ensures TempGet(WithAmount(s, text), key) == TempGet(s, key)
  {
    assert "bankAccountId" != "amount" by {
      assert |"bankAccountId"| != |"amount"|;
    }
    TempSetThenGet(s, "amount", Text(text), key);
    TempSetThenGet(WithTemp(s, "amount", Text(text)), "bankAccountId", Text(DefaultBankAccountId), key);
    TempSetThenGet(WithTemp(s, "amount", Text(text)), "bankAccountId", Text(DefaultBankAccountId), "amount");
  }

  /** An accepted amount goes straight to `withdraw_confirm`: the amount as
    * typed and the placeholder account are stored, nothing else in the
    * scratch space changes, and the summary shows the amount typed. */
  lemma AmountJumpsToConfirm(s: SessionState, text: string, key: string)
    requires AmountPattern(text) && !ZeroDigits(text)
    requires key != "amount" && key != "bankAccountId"
    ensures var r := AmountEntry(s, text);
            var t := r.state;
            t.currentStep == Some(ConfirmStep)
            && TempGet(t, "amount") == Some(Text(text))
            && TempGet(t, "bankAccountId") == Some(Text(DefaultBankAccountId))
            && TempGet(t, key) == TempGet(s, key)
            && |r.events| == 2 && r.events[1].prompt.amount == text
  {
    PatternAmountSign(text);
    WithAmountReads(s, text, key);
  }

  /** On any text the step either stays, is reset, or moves exactly one
    * position on; it never skips a step and never goes back. */
  lemma StepAdvancesByOne(s: SessionState, raw: string, wallets: WalletsOutcome, k: nat)
    requires k < 3 && s.currentStep == Some(WithdrawOrder[k])
    ensures var t := WithdrawFlow(s, raw, wallets).state.currentStep;
            t == s.currentStep || t == None || t == Some(WithdrawOrder[k + 1])
  {
    if k == 0 {
      assert WithdrawOrder[k] == NetworkStep && WithdrawOrder[k + 1] == TokenStep;
      NetworkStepMoves(s, raw, wallets);
    } else if k == 1 {
      assert WithdrawOrder[k] == TokenStep && WithdrawOrder[k + 1] == AmountStep;
      TokenStepMoves(s, raw, wallets);
    } else {
      assert WithdrawOrder[k] == AmountStep && WithdrawOrder[k + 1] == ConfirmStep;
      AmountStepMoves(s, raw, wallets);
    }
  }

  lemma NetworkStepMoves(s: SessionState, raw: string, wallets: WalletsOutcome)
    requires s.currentStep == Some(NetworkStep)
    ensures var t := WithdrawFlow(s, raw, wallets).state.currentStep;
            t == s.currentStep || t == None || t == Some(TokenStep)
  {
    RouteOfNames();
    NetworkChoiceMoves(s, Trim(raw), wallets);
  }

  lemma TokenStepMoves(s: SessionState, raw: string, wallets: WalletsOutcome)
    requires s.currentStep == Some(TokenStep)
    ensures var t := WithdrawFlow(s, raw, wallets).state.currentStep;
            t == s.currentStep || t == None || t == Some(AmountStep)
  {
    RouteOfNames();
    TokenChoiceMoves(s, Trim(raw));
  }

  lemma AmountStepMoves(s: SessionState, raw: string, wallets: WalletsOutcome)
    requires s.currentStep == Some(AmountStep)
    ensures var t := WithdrawFlow(s, raw, wallets).state.currentStep;
            t == s.currentStep || t == None || t == Some(ConfirmStep)
  {
    RouteOfNames();
    AmountEntryMoves(s, Trim(raw));
  }

  lemma NetworkChoiceMoves(s: SessionState, text: string, wallets: WalletsOutcome)
    ensures var t := NetworkChoice(s, text, wallets).state.currentStep;
            t == s.currentStep || t == None || t == Some(TokenStep)
  {
  }

  lemma TokenChoiceMoves(s: SessionState, text: string)
    ensures var t := TokenChoice(s, text).state.currentStep;
            t == s.currentStep || t == None || t == Some(AmountStep)
  {
  }

  lemma AmountEntryMoves(s: SessionState, text: string)
    ensures var t := AmountEntry(s, text).state.currentStep;
            t == s.currentStep || t == None || t == Some(ConfirmStep)
  {
  }

  /** Confirming and cancelling both end the flow with the scratch space
    * emptied. */
  lemma ConfirmAndCancelClear(s: SessionState, key: string)
    requires IsAuthenticated(s)
    ensures WithdrawConfirm(s).state.currentStep == None && TempGet(WithdrawConfirm(s).state, key) == None
    ensures WithdrawCancel(s).state.currentStep == None && TempGet(WithdrawCancel(s).state, key) == None
    ensures WithdrawConfirm(s).state == WithdrawCancel(s).state
  {
  }

  // ---------------------------------------------------------------------
  // The handlers on the session record

  /** The withdraw token menu, built line by line. */
  method BuildMenu(list: seq<TokenBalance>) returns (lines: seq<TokenLine>)
    ensures lines == MenuLines(list)
  {
    lines := [];
    for i := 0 to |list|
      invariant lines == MenuLines(list[..i])
    {
      assert list[..i + 1] == list[..i] + [list[i]];
      lines := lines + [TokenLine(list[i].symbol, list[i].balance)];
    }
    assert list[..|list|] == list;
  }

  method RunStartWithdrawal(s: Session, wallets: WalletsOutcome) returns (handled: Handled, events: seq<Event>)
    modifies s
    ensures Step(s.State(), handled, events) == StartWithdrawal(old(s.State()), wallets)
  {
    s.ClearTempData(None);
    events := [Reply(WithdrawIntro), FetchBalances];
    handled := Consumed;
    match wallets {
      case Failure(m) =>
        events := events + [Reply(WithdrawStartFailed(m)), Reply(ReturnToMenu)];
      case Success(data) =>
        if data == None {
          events := events + [Reply(WithdrawStartFailed(LengthOfUndefined)), Reply(ReturnToMenu)];
          return;
        }
        if data.value == [] {
          events := events + [Reply(NoTokens), Reply(ReturnToMenu)];
          return;
        }
        var networks := Dedup(WalletNetworks(data.value));
        s.SetTempData("networks", List(networks));
        var lines := BuildNetworkMenu(networks);
        events := events + [Reply(NetworkMenu(lines))];
        s.currentStep := Some(NetworkStep);
    }
  }

  /** The command and the button on the session record. */
  method RunWithdrawStart(s: Session, viaButton: bool, wallets: WalletsOutcome)
    returns (handled: Handled, events: seq<Event>)
    modifies s
    ensures Step(s.State(), handled, events) == WithdrawStart(old(s.State()), viaButton, wallets)
  {
    if !(s.authenticated && s.token.Some? && s.token.value != "") {
      return Consumed, [Reply(LoginRequired)];
    }
    var started;
    handled, started := RunStartWithdrawal(s, wallets);
    events := if viaButton then [AnswerCallback] + started else started;
  }

  method RunOfferTokens(s: Session, network: string, wallets: WalletsOutcome)
    returns (handled: Handled, events: seq<Event>)
    modifies s
    ensures Step(s.State(), handled, events) == OfferTokens(old(s.State()), network, wallets)
  {
    handled := Consumed;
    events := [FetchBalances];
    match wallets {
      case Failure(m) =>
        events := events + [Reply(TokensFailed(m))];
        s.currentStep := None;
        events := events + [Reply(ReturnToMenu)];
      case Success(data) =>
        if data == None {
          events := events + [Reply(TokensFailed(LengthOfUndefined))];
          s.currentStep := None;
          events := events + [Reply(ReturnToMenu)];
          return;
        }
        var list := CollectTokens(OnNetworkW(data.value, network));
        s.SetTempData("tokens", List(Symbols(list)));
        var lines := BuildMenu(list);
        events := events + [Reply(WithdrawTokenMenu(lines))];
        s.currentStep := Some(TokenStep);
    }
  }

  method RunNetworkChoice(s: Session, text: string, wallets: WalletsOutcome)
    returns (handled: Handled, events: seq<Event>)
    modifies s
    ensures Step(s.State(), handled, events) == NetworkChoice(old(s.State()), text, wallets)
  {
    var stored := s.GetTempData("networks");
    var networks := Listing(stored);
    if networks == None {
      return Threw, [];
    }
    var index := Selection(text, |networks.value|);
    if index == None {
      return Consumed, [Reply(InvalidSelection(|networks.value|))];
    }
    var chosen := networks.value[index.value];
    s.SetTempData("network", Text(chosen));
    handled, events := RunOfferTokens(s, chosen, wallets);
  }

  method RunTokenChoice(s: Session, text: string) returns (handled: Handled, events: seq<Event>)
    modifies s
    ensures Step(s.State(), handled, events) == TokenChoice(old(s.State()), text)
  {
    var stored := s.GetTempData("tokens");
    var tokens := Listing(stored);
    if tokens == None {
      return Threw, [];
    }
    var index := Selection(text, |tokens.value|);
    if index == None {
      return Consumed, [Reply(InvalidSelection(|tokens.value|))];
    }
    s.SetTempData("token", Text(tokens.value[index.value]));
    events := [Reply(AskWithdrawAmount)];
    s.currentStep := Some(AmountStep);
    handled := Consumed;
  }

  method RunAmountEntry(s: Session, text: string) returns (handled: Handled, events: seq<Event>)
    modifies s
    ensures Step(s.State(), handled, events) == AmountEntry(old(s.State()), text)
  {
    if !AmountPattern(text) {
      return Consumed, [Reply(InvalidAmountFormat)];
    }
    if AtMost(ParseFloat(text), 0.0) {
      return Consumed, [Reply(AmountNotPositive)];
    }
    handled, events := RunAcceptAmount(s, text);
  }

  method RunAcceptAmount(s: Session, text: string) returns (handled: Handled, events: seq<Event>)
    modifies s
    ensures Step(s.State(), handled, events) == AcceptAmount(old(s.State()), text)
  {
    s.SetTempData("amount", Text(text));
    events := [Reply(DefaultBankAccount)];
    s.SetTempData("bankAccountId", Text(DefaultBankAccountId));
    var network := s.GetTempData("network");
    var token := s.GetTempData("token");
    var amount := s.GetTempData("amount");
    events := events + [Reply(ConfirmWithdrawal(ToUpper(Display(network)), Display(token), Display(amount)))];
    s.currentStep := Some(ConfirmStep);
    handled := Consumed;
  }

  /** `withdrawFlow` on the session record. */
  method RunWithdrawFlow(s: Session, raw: string, wallets: WalletsOutcome) returns (handled: Handled, events: seq<Event>)
    modifies s
    ensures Step(s.State(), handled, events) == WithdrawFlow(old(s.State()), raw, wallets)
  {
    if s.currentStep == None {
      return PassedOn, [];
    }
    var text := Trim(raw);
    match Route(s.currentStep.value)
    case ToNetwork =>
      handled, events := RunNetworkChoice(s, text, wallets);
    case ToToken =>
      handled, events := RunTokenChoice(s, text);
    case ToAmount =>
      handled, events := RunAmountEntry(s, text);
    case NotWithdraw =>
      handled, events := PassedOn, [];
  }

  /** `withdrawConfirmAction` on the session record. */
  method RunWithdrawConfirm(s: Session) returns (handled: Handled, events: seq<Event>)
    modifies s
    ensures Step(s.State(), handled, events) == WithdrawConfirm(old(s.State()))
  {
    if !(s.authenticated && s.token.Some? && s.token.value != "") {
      return Consumed, [Reply(LoginRequired)];
    }
    events := [AnswerCallback, Reply(ProcessingWithdrawal), Reply(WithdrawalSubmitted)];
    s.ClearTempData(None);
    s.currentStep := None;
    events := events + [Reply(ReturnToMenu)];
    handled := Consumed;
  }

  /** `withdrawCancelAction` on the session record. */
  method RunWithdrawCancel(s: Session) returns (handled: Handled, events: seq<Event>)
    modifies s
    ensures Step(s.State(), handled, events) == WithdrawCancel(old(s.State()))
  {
    if !(s.authenticated && s.token.Some? && s.token.value != "") {
      return Consumed, [Reply(LoginRequired)];
    }
    events := [AnswerCallback];
    s.ClearTempData(None);
    s.currentStep := None;
    events := events + [Reply(WithdrawalCancelled), Reply(ReturnToMenu)];
    handled := Consumed;
  }
}
