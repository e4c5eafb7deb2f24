/** The send conversation (`src/bot/commands/send.ts`): the two start
  * actions, the text step machine
  * recipient → `send_network` → `send_token` → `send_amount` → `send_note`
  * → `send_confirm`, and the confirm and cancel actions. */
module Send {
  import opened Common
  import opened Strings
  import opened Numbers
  import opened Sessions
  import opened Bot
  import Format
  import Transfers

  /** What `walletApi.getBalances` delivered: the response's `data` (None
    * when the response has none), or the message of the Error it threw. */
  type BalancesOutcome = Outcome<Option<seq<Balance>>>

  /** The message of the TypeError `undefined.filter(...)` raises. */
  const FilterOnUndefined := "Cannot read properties of undefined (reading 'filter')"

  const EmailRecipientStep := "send_email_recipient"
  const WalletRecipientStep := "send_wallet_recipient"

  const NetworkStep := "send_network"
  const TokenStep := "send_token"
  const AmountStep := "send_amount"
  const NoteStep := "send_note"
  const ConfirmStep := "send_confirm"

  /** The text steps after the recipient, in order. */
  const SendOrder: seq<string> := [NetworkStep, TokenStep, AmountStep, NoteStep, ConfirmStep]

  /** The token menu: each token with its balance. */
  function TokenLines(bs: seq<Balance>): (r: seq<TokenLine>)
    ensures |r| == |bs|
    ensures forall i :: 0 <= i < |bs| ==> r[i] == TokenLine(bs[i].token, bs[i].balance)
  {
    seq(|bs|, i requires 0 <= i < |bs| => TokenLine(bs[i].token, bs[i].balance))
  }

  /** `balances.map((b) => b.token)`. */
  function TokensOf(bs: seq<Balance>): (r: seq<string>)
    ensures |r| == |bs| && forall i :: 0 <= i < |bs| ==> r[i] == bs[i].token
  {
    seq(|bs|, i requires 0 <= i < |bs| => bs[i].token)
  }

  /** `sendEmailAction` (`toEmail`) and `sendWalletAction`, behind the gate:
    * the scratch space is cleared, the transfer type recorded and the
    * recipient step entered. */
  function StartSend(s: SessionState, toEmail: bool): (r: Step)
  {
    var kind := if toEmail then "email" else "wallet";
    var step := if toEmail then EmailRecipientStep else WalletRecipientStep;
    var prepared := WithTemp(ClearedTemp(s, None), "transferType", Text(kind));
    Gated(s, Step(prepared.(currentStep := Some(step)), Consumed,
                  [AnswerCallback, Reply(if toEmail then AskRecipientEmail else AskRecipientWallet)]))
  }

  /** After the recipient is stored: fetch the balances and offer their
    * networks, or give up with the step reset. */
  function OfferNetworks(s: SessionState, balances: BalancesOutcome): (r: Step)
    ensures r.handled != PassedOn
    ensures r.state.currentStep == None || r.state.currentStep == Some(NetworkStep)
  {
    match balances
    case Failure(m) => Step(s.(currentStep := None), Consumed, [FetchBalances, Reply(NetworksFailed(m)), Reply(ReturnToMenu)])
    case Success(data) =>
      if data == None || data.value == [] then
        Step(s.(currentStep := None), Consumed, [FetchBalances, Reply(NoTokens), Reply(ReturnToMenu)])
      else
        var networks := Dedup(NetworksOf(data.value));
        Step(WithTemp(s, "networks", List(networks)).(currentStep := Some(NetworkStep)), Consumed,
             [FetchBalances, Reply(NetworkMenu(NetworkLines(networks)))])
  }

  /** The `send_email_recipient` step. */
  function EmailRecipient(s: SessionState, text: string, balances: BalancesOutcome): (r: Step)
    ensures r.handled != PassedOn
  {
    if !LooseEmail(text) then Step(s, Consumed, [Reply(InvalidEmail)])
    else OfferNetworks(WithTemp(s, "recipient", Text(text)), balances)
  }

  /** The `send_wallet_recipient` step: anything shorter than ten UTF-16
    * code units is refused. */
  function WalletRecipient(s: SessionState, text: string, balances: BalancesOutcome): (r: Step)
    ensures r.handled != PassedOn
  {
    if Utf16Length(text) < 10 then Step(s, Consumed, [Reply(InvalidWalletAddress)])
    else OfferNetworks(WithTemp(s, "recipient", Text(text)), balances)
  }

  /** The `send_network` step: a 1-based choice from the stored networks,
    * then the tokens held on it. */
  function NetworkChoice(s: SessionState, text: string, balances: BalancesOutcome): (r: Step)
    ensures r.handled != PassedOn
    ensures r.state.currentStep in {s.currentStep, None, Some(TokenStep)}
  {
    var networks := Listing(TempGet(s, "networks"));
    if networks == None then Step(s, Threw, [])
    else
      match Selection(text, |networks.value|)
      case None => Step(s, Consumed, [Reply(InvalidSelection(|networks.value|))])
      case Some(i) =>
        var chosen := networks.value[i];
        OfferTokens(WithTemp(s, "network", Text(chosen)), chosen, balances)
  }

  /** After the network is stored: fetch the balances and offer the tokens
    * held on it, or give up with the step reset. */
  function OfferTokens(s: SessionState, network: string, balances: BalancesOutcome): (r: Step)
    ensures r.handled != PassedOn
    ensures r.state.currentStep in {None, Some(TokenStep)}
  {
    match balances
    case Failure(m) => Step(s.(currentStep := None), Consumed, [FetchBalances, Reply(TokensFailed(m)), Reply(ReturnToMenu)])
    case Success(None) =>
      Step(s.(currentStep := None), Consumed, [FetchBalances, Reply(TokensFailed(FilterOnUndefined)), Reply(ReturnToMenu)])
    case Success(Some(bs)) =>
      var mine := OnNetwork(bs, network);
      Step(WithTemp(s, "tokens", List(TokensOf(mine))).(currentStep := Some(TokenStep)), Consumed,
           [FetchBalances, Reply(TokenMenu(TokenLines(mine)))])
  }

  /** The `send_token` step: a 1-based choice from the stored tokens. */
  function TokenChoice(s: SessionState, text: string): (r: Step)
    ensures r.handled != PassedOn
    ensures r.state.currentStep in {s.currentStep, Some(AmountStep)}
  {
    var tokens := Listing(TempGet(s, "tokens"));
    if tokens == None then Step(s, Threw, [])
    else
      match Selection(text, |tokens.value|)
      case None => Step(s, Consumed, [Reply(InvalidSelection(|tokens.value|))])
      case Some(i) =>
        Step(WithTemp(s, "token", Text(tokens.value[i])).(currentStep := Some(AmountStep)), Consumed, [Reply(AskAmount)])
  }

  /** `parseFloat` refuses it or it is not positive. */
  predicate BadAmount(text: string)
  {
    ParseFloat(text) == NaN || AtMost(ParseFloat(text), 0.0)
  }

  /** The `send_amount` step: the text itself is stored, not its value. */
  function AmountEntry(s: SessionState, text: string): (r: Step)
    ensures r.handled != PassedOn
    ensures r.state.currentStep in {s.currentStep, Some(NoteStep)}
  {
    if BadAmount(text) then Step(s, Consumed, [Reply(InvalidAmount)])
    else Step(WithTemp(s, "amount", Text(text)).(currentStep := Some(NoteStep)), Consumed, [Reply(AskNote)])
  }

  /** `note.toLowerCase() !== 'skip'`. */
  predicate KeepsNote(text: string)
  {
    ToLower(text) != "skip"
  }

  /** The `send_note` step: the note is stored unless it is "skip", then the
    * summary is shown. A missing or non-string network makes
    * `network.toUpperCase()` throw after the note was stored. */
  function NoteEntry(s: SessionState, text: string): (r: Step)
    ensures r.handled != PassedOn
    ensures r.state.currentStep in {s.currentStep, Some(ConfirmStep)}
  {
    var s1 := if KeepsNote(text) then WithTemp(s, "note", Text(text)) else s;
    var network := TempGet(s1, "network");
    if network.None? || network.value.List? then Step(s1, Threw, [])
    else
      var note := TempGet(s1, "note");
      var summary := ConfirmSend(TempGet(s1, "transferType") == Some(Text("email")), Display(TempGet(s1, "recipient")),
                                 ToUpper(network.value.s), Display(TempGet(s1, "token")), Display(TempGet(s1, "amount")),
                                 if Truthy(note) then Some(Display(note)) else None);
      Step(s1.(currentStep := Some(ConfirmStep)), Consumed, [Reply(summary)])
  }

  /** Which handler a current step selects. */
  datatype SendRoute =
    | ToEmailRecipient | ToWalletRecipient | ToNetwork | ToToken | ToAmount | ToNote | NotSend

  /** The step names `sendFlow` compares against; `send_confirm`, unknown
    * names and names outside the `send_` prefix select nothing. */
  function Route(step: string): (r: SendRoute)
    ensures !StartsWith(step, "send_") ==> r == NotSend
  {
    if !StartsWith(step, "send_") then NotSend
    else if step == EmailRecipientStep then ToEmailRecipient
    else if step == WalletRecipientStep then ToWalletRecipient
    else if step == NetworkStep then ToNetwork
    else if step == TokenStep then ToToken
    else if step == AmountStep then ToAmount
    else if step == NoteStep then ToNote
    else NotSend
  }

  /** The route of every named step. */
  lemma RouteOfNames()
    ensures Route(EmailRecipientStep) == ToEmailRecipient
    ensures Route(WalletRecipientStep) == ToWalletRecipient
    ensures Route(NetworkStep) == ToNetwork && Route(TokenStep) == ToToken
    ensures Route(AmountStep) == ToAmount && Route(NoteStep) == ToNote
    ensures Route(ConfirmStep) == NotSend
  {
    assert EmailRecipientStep[..5] == "send_" && WalletRecipientStep[..5] == "send_";
    assert NetworkStep[..5] == "send_" && TokenStep[..5] == "send_" && AmountStep[..5] == "send_";
    assert NoteStep[..5] == "send_" && ConfirmStep[..5] == "send_";
    assert |WalletRecipientStep| == 21 && |EmailRecipientStep| == 20;
    assert ConfirmStep != NetworkStep by {
      assert ConfirmStep[5] != NetworkStep[5];
    }
  }

  /** `sendFlow` on a text message: only steps starting with `send_` are
    * claimed; `send_confirm` and unknown ones are passed on. */
  function SendFlow(s: SessionState, raw: string, balances: BalancesOutcome): (r: Step)
    ensures !InFlow(s, "send_") ==> r == Step(s, PassedOn, [])
    ensures r.handled == PassedOn ==> r == Step(s, PassedOn, [])
  {
    if s.currentStep == None then Step(s, PassedOn, [])
    else
      var text := Trim(raw);
      match Route(s.currentStep.value)
      case ToEmailRecipient => EmailRecipient(s, text, balances)
      case ToWalletRecipient => WalletRecipient(s, text, balances)
      case ToNetwork => NetworkChoice(s, text, balances)
      case ToToken => TokenChoice(s, text)
      case ToAmount => AmountEntry(s, text)
      case ToNote => NoteEntry(s, text)
      case NotSend => Step(s, PassedOn, [])
  }

  /** A stored value as the amount handed to the transfer call. */
  function AmountOf(v: Option<Value>): (a: Amount)
    ensures v.Some? && v.value.Text? ==> a == AmountText(v.value.s)
  {
    match v
    case None => AmountNumber(NaN)
    case Some(Text(t)) => AmountText(t)
    case Some(List(xs)) => AmountText(Join(xs))
  }

  /** The details the confirm action reads from the scratch space. */
  function TransferDetails(s: SessionState): Transfers.TransferData
  {
    Transfers.TransferData(AmountOf(TempGet(s, "amount")), TempGet(s, "token"), TempGet(s, "recipient"),
                           TempGet(s, "network"), TempGet(s, "note"))
  }

  /** The body posted: the email endpoint's for the email type, the
    * wallet endpoint's for anything else. */
  function TransferBody(s: SessionState): (b: Transfers.RequestBody)
    ensures b.EmailBody? <==> TempGet(s, "transferType") == Some(Text("email"))
  {
    if TempGet(s, "transferType") == Some(Text("email")) then Transfers.EmailRequestBody(TransferDetails(s))
    else Transfers.WalletRequestBody(TransferDetails(s))
  }

  /** `sendConfirmAction`, behind the gate but whatever the step: success
    * clears the scratch space and the step, failure only the step. A
    * success whose body is `null` or `undefined` has already cleared both
    * when printing its id throws, and the catch reports that as a failure. */
  function SendConfirm(s: SessionState, result: Transfers.TransferResult): (r: Step)
  {
    var asked := [AnswerCallback, Reply(ProcessingTransfer), PostTransfer(TransferBody(s))];
    var after := if result.Posted? then ClearedTemp(s, None).(currentStep := None) else s.(currentStep := None);
    Gated(s, Step(after, Consumed, asked + ConfirmReplies(result)))
  }

  /** The replies after the call: the outcome, then the way back to the menu. */
  function ConfirmReplies(result: Transfers.TransferResult): seq<Event>
  {
    var outcome :=
      match result
      case Posted(body) =>
        (match Transfers.PostedId(body)
         case Some(id) => TransferSucceeded(id)
         case None => TransferFailed(Transfers.ReadIdError(body)))
      case Rejected(e) => TransferFailed(Transfers.TransferErrorMessage(e));
    [Reply(outcome), Reply(ReturnToMenu)]
  }

  /** `sendCancelAction`, behind the gate. */
  function SendCancel(s: SessionState): (r: Step)
  {
    Gated(s, Step(ClearedTemp(s, None).(currentStep := None), Consumed,
                  [AnswerCallback, Reply(TransferCancelled), Reply(ReturnToMenu)]))
  }

  // ---------------------------------------------------------------------
  // Properties

  /** Starting either sub-flow leaves exactly the transfer type in the
    * scratch space, whatever was there, and enters the recipient step;
    * the credentials are kept. */
  lemma StartSendResets(s: SessionState, toEmail: bool)
    requires IsAuthenticated(s)
    ensures var t := StartSend(s, toEmail).state;
            t.tempData == Some(map["transferType" := Text(if toEmail then "email" else "wallet")])
            && t.currentStep == Some(if toEmail then EmailRecipientStep else WalletRecipientStep)
            && t == s.(tempData := t.tempData, currentStep := t.currentStep)
  {
  }

  /** Each named step hands the trimmed text to its own handler. */
  lemma StepDispatch(s: SessionState, raw: string, balances: BalancesOutcome)
    requires s.currentStep.Some?
    ensures var text, step := Trim(raw), s.currentStep.value;
            && (step == EmailRecipientStep ==> SendFlow(s, raw, balances) == EmailRecipient(s, text, balances))
            && (step == WalletRecipientStep ==> SendFlow(s, raw, balances) == WalletRecipient(s, text, balances))
            && (step == NetworkStep ==> SendFlow(s, raw, balances) == NetworkChoice(s, text, balances))
            && (step == TokenStep ==> SendFlow(s, raw, balances) == TokenChoice(s, text))
            && (step == AmountStep ==> SendFlow(s, raw, balances) == AmountEntry(s, text))
            && (step == NoteStep ==> SendFlow(s, raw, balances) == NoteEntry(s, text))
            && (step == ConfirmStep ==> SendFlow(s, raw, balances) == Step(s, PassedOn, []))
  {
    RouteOfNames();
  }

  /** An address that does not pass the email pattern is refused and the
    * session is kept as it was. */
  lemma InvalidEmailRecipientKeepsState(s: SessionState, raw: string, balances: BalancesOutcome)
    requires s.currentStep == Some(EmailRecipientStep) && !LooseEmail(Trim(raw))
    ensures SendFlow(s, raw, balances) == Step(s, Consumed, [Reply(InvalidEmail)])
  {
    StepDispatch(s, raw, balances);
  }

  /** A wallet address shorter than ten UTF-16 code units is refused and
    * the session is kept as it was. */
  lemma InvalidWalletRecipientKeepsState(s: SessionState, raw: string, balances: BalancesOutcome)
    requires s.currentStep == Some(WalletRecipientStep) && Utf16Length(Trim(raw)) < 10
    ensures SendFlow(s, raw, balances) == Step(s, Consumed, [Reply(InvalidWalletAddress)])
  {
    StepDispatch(s, raw, balances);
  }

  lemma OfferedNetworksDeduplicated(s: SessionState, bs: seq<Balance>)
    requires bs != []
    ensures var t := OfferNetworks(s, Success(Some(bs))).state;
            t.currentStep == Some(NetworkStep)
            && TempGet(t, "networks") == Some(List(Dedup(NetworksOf(bs))))
            && TempGet(t, "recipient") == TempGet(s, "recipient")
    ensures var d := Dedup(NetworksOf(bs));
            (forall n :: n in d <==> exists b :: b in bs && b.network == n)
            && (forall i, j :: 0 <= i < j < |d| ==> d[i] != d[j])
  {
    var ns := NetworksOf(bs);
    DedupSpec(ns);
    forall n | n in Dedup(ns)
      ensures exists b :: b in bs && b.network == n
    {
      var k :| 0 <= k < |ns| && ns[k] == n;
      assert bs[k] in bs;
    }
    forall n | exists b :: b in bs && b.network == n
      ensures n in Dedup(ns)
    {
      var b :| b in bs && b.network == n;
      var k :| 0 <= k < |bs| && bs[k] == b;
      assert ns[k] == n;
    }
  }

  /** With no balances, or a failed fetch, the flow ends with the step reset
    * and the recipient kept. */
  lemma NoNetworksEndsFlow(s: SessionState, balances: BalancesOutcome)
    requires balances.Failure? || balances.value == None || balances.value == Some([])
    ensures var t := OfferNetworks(s, balances).state;
            t == s.(currentStep := None)
  {
  }

  /** A network or token choice is taken exactly when `parseInt(text) - 1`
    * indexes the stored list; otherwise nothing changes. */
  lemma ChoiceAcceptedIff(s: SessionState, text: string, balances: BalancesOutcome, key: string)
    requires key == "networks" || key == "tokens"
    requires s.currentStep == Some(if key == "networks" then NetworkStep else TokenStep)
    requires Listing(TempGet(s, key)).Some?
    ensures var choose := if key == "networks" then NetworkChoice(s, text, balances) else TokenChoice(s, text);
            var n := |Listing(TempGet(s, key)).value|;
            (choose.state == s <==> !(ParseInt(text).Some? && 1 <= ParseInt(text).value <= n))
            && (choose.state == s ==> choose.events == [Reply(InvalidSelection(n))])
  {
  }

  lemma NetworkChoiceState(s: SessionState, text: string, bs: seq<Balance>)
    requires Listing(TempGet(s, "networks")).Some?
    requires Selection(text, |Listing(TempGet(s, "networks")).value|).Some?
    ensures var nets := Listing(TempGet(s, "networks")).value;
            var chosen := nets[Selection(text, |nets|).value];
            NetworkChoice(s, text, Success(Some(bs))).state
              == WithTemp(WithTemp(s, "network", Text(chosen)), "tokens", List(TokensOf(OnNetwork(bs, chosen))))
                   .(currentStep := Some(TokenStep))
  {
  }

  /** The chosen network is the stored list's entry at the chosen position,
    * and the tokens offered are exactly those held on it. */
  lemma NetworkChoiceStores(s: SessionState, text: string, bs: seq<Balance>)
    requires Listing(TempGet(s, "networks")).Some?
    requires Selection(text, |Listing(TempGet(s, "networks")).value|).Some?
    ensures var nets := Listing(TempGet(s, "networks")).value;
            var chosen := nets[Selection(text, |nets|).value];
            var t := NetworkChoice(s, text, Success(Some(bs))).state;
            TempGet(t, "network") == Some(Text(chosen))
            && TempGet(t, "tokens") == Some(List(TokensOf(OnNetwork(bs, chosen))))
            && t.currentStep == Some(TokenStep)
  {
    var nets := Listing(TempGet(s, "networks")).value;
    var chosen := nets[Selection(text, |nets|).value];
    NetworkChoiceState(s, text, bs);
    StoredChoice(s, chosen, TokensOf(OnNetwork(bs, chosen)));
  }

  lemma StoredChoice(s: SessionState, chosen: string, tokens: seq<string>)
    ensures var t := WithTemp(WithTemp(s, "network", Text(chosen)), "tokens", List(tokens)).(currentStep := Some(TokenStep));
            TempGet(t, "network") == Some(Text(chosen))
            && TempGet(t, "tokens") == Some(List(tokens))
            && t.currentStep == Some(TokenStep)
  {
    var s1 := WithTemp(s, "network", Text(chosen));
    assert "tokens" != "network" by {
      assert |"tokens"| != |"network"|;
    }
    TempSetThenGet(s1, "tokens", List(tokens), "network");
    TempSetThenGet(s, "network", Text(chosen), "tokens");
  }

  /** A failed token fetch resets the step and keeps the chosen network. */
  lemma TokenFetchFailureKeepsScratch(s: SessionState, text: string, m: string)
    requires Listing(TempGet(s, "networks")).Some?
    requires Selection(text, |Listing(TempGet(s, "networks")).value|).Some?
    ensures var t := NetworkChoice(s, text, Failure(m)).state;
            t.currentStep == None && t.tempData.Some? && "network" in t.tempData.value
            && forall k :: k in s.tempData.GetOr(map[]) && k != "network" ==> k in t.tempData.value
  {
  }

  /** An amount is refused exactly when `parseFloat` gives NaN or a value
    * at most zero; an accepted one is stored as typed. */
  lemma AmountAcceptedIff(s: SessionState, text: string)
    requires s.currentStep == Some(AmountStep)
    ensures AmountEntry(s, text).state == s <==> BadAmount(text)
    ensures !BadAmount(text) ==> TempGet(AmountEntry(s, text).state, "amount") == Some(Text(text))
  {
    if !BadAmount(text) {
      var t := AmountEntry(s, text).state;
      assert t == WithTemp(s, "amount", Text(text)).(currentStep := Some(NoteStep));
      assert NoteStep != AmountStep by {
        assert |NoteStep| != |AmountStep|;
      }
      TempSetThenGet(s, "amount", Text(text), "");
    }
  }

  /** "skip", in any letter case, writes no note. */
  lemma SkipStoresNoNote(s: SessionState, text: string)
    requires ToLower(text) == "skip"
    ensures NoteEntry(s, text).state.tempData == s.tempData
  {
  }

  /** Any other text is stored as the note. */
  lemma NoteStored(s: SessionState, text: string)
    requires KeepsNote(text)
    ensures TempGet(NoteEntry(s, text).state, "note") == Some(Text(text))
  {
  }

  /** On any text the step either stays, is reset, or moves exactly one
    * position on; it never skips a step and never goes back. */
  lemma StepAdvancesByOne(s: SessionState, raw: string, balances: BalancesOutcome, k: nat)
    requires k < 4 && s.currentStep == Some(SendOrder[k])
    ensures var t := SendFlow(s, raw, balances).state.currentStep;
            t == s.currentStep || t == None || t == Some(SendOrder[k + 1])
  {
    StepDispatch(s, raw, balances);
  }

  /** The recipient steps lead only to the network step. */
  lemma RecipientLeadsToNetwork(s: SessionState, raw: string, balances: BalancesOutcome)
    requires s.currentStep == Some(EmailRecipientStep) || s.currentStep == Some(WalletRecipientStep)
    ensures var t := SendFlow(s, raw, balances).state.currentStep;
            t == s.currentStep || t == None || t == Some(NetworkStep)
  {
    StepDispatch(s, raw, balances);
  }

  /** Some reply of `events` announces a created transfer. */
  predicate Succeeded(events: seq<Event>)
  {
    exists i :: 0 <= i < |events| && events[i].Reply? && events[i].prompt.TransferSucceeded?
  }

  /** The confirm action ignores the current step: a success clears the
    * scratch space and the step, a failure resets only the step. */
  lemma ConfirmOutcome(s: SessionState, result: Transfers.TransferResult)
    requires IsAuthenticated(s)
    ensures result.Posted? ==> SendConfirm(s, result).state == ClearedTemp(s, None).(currentStep := None)
    ensures result.Rejected? ==> SendConfirm(s, result).state == s.(currentStep := None)
    ensures PostTransfer(TransferBody(s)) in SendConfirm(s, result).events
    ensures Succeeded(SendConfirm(s, result).events) <==> result.Posted? && result.body.Body?
    ensures result.Posted? && result.body.Body? ==>
              Reply(TransferSucceeded(Transfers.PostedId(result.body).value)) in SendConfirm(s, result).events
    ensures result.Posted? && !result.body.Body? ==>
              Reply(TransferFailed(Transfers.ReadIdError(result.body))) in SendConfirm(s, result).events
    ensures Reply(ReturnToMenu) in SendConfirm(s, result).events
  {
    var asked := [AnswerCallback, Reply(ProcessingTransfer), PostTransfer(TransferBody(s))];
    assert SendConfirm(s, result).events == asked + ConfirmReplies(result);
    assert asked[2] == PostTransfer(TransferBody(s));
    SucceededAfter(asked, ConfirmReplies(result));
    RepliesOutcome(result);
  }

  /** Events before a tail that announce nothing leave the announcement to
    * the tail. */
  lemma SucceededAfter(asked: seq<Event>, tail: seq<Event>)
    requires forall i :: 0 <= i < |asked| ==> !(asked[i].Reply? && asked[i].prompt.TransferSucceeded?)
    ensures Succeeded(asked + tail) <==> Succeeded(tail)
  {
    if Succeeded(asked + tail) {
      var i :| 0 <= i < |asked + tail| && (asked + tail)[i].Reply? && (asked + tail)[i].prompt.TransferSucceeded?;
      assert tail[i - |asked|] == (asked + tail)[i];
    }
    if Succeeded(tail) {
      var i :| 0 <= i < |tail| && tail[i].Reply? && tail[i].prompt.TransferSucceeded?;
      assert (asked + tail)[i + |asked|] == tail[i];
    }
  }

  /** The success reply comes exactly from a body that is an object; a
    * `null` or `undefined` body gets the failure reply instead. */
  lemma RepliesOutcome(result: Transfers.TransferResult)
    ensures Succeeded(ConfirmReplies(result)) <==> result.Posted? && result.body.Body?
    ensures result.Posted? && result.body.Body? ==>
              ConfirmReplies(result)[0] == Reply(TransferSucceeded(Transfers.PostedId(result.body).value))
    ensures result.Posted? && !result.body.Body? ==>
              ConfirmReplies(result)[0] == Reply(TransferFailed(Transfers.ReadIdError(result.body)))
    ensures |ConfirmReplies(result)| == 2 && ConfirmReplies(result)[1] == Reply(ReturnToMenu)
  {
    var r := ConfirmReplies(result);
    if Succeeded(r) {
      var i :| 0 <= i < |r| && r[i].Reply? && r[i].prompt.TransferSucceeded?;
      assert i == 0;
    }
    assert r[0] in r;
  }

  /** Cancelling clears the scratch space and the step. */
  lemma CancelClears(s: SessionState)
    requires IsAuthenticated(s)
    ensures SendCancel(s).state.currentStep == None
    ensures SendCancel(s).state.tempData == (if s.tempData == None then None else Some(map[]))
  {
  }

  /** Without a login the actions change nothing. */
  lemma ActionsGated(s: SessionState, toEmail: bool, result: Transfers.TransferResult)
    requires !IsAuthenticated(s)
    ensures StartSend(s, toEmail) == Step(s, Consumed, [Reply(LoginRequired)])
    ensures SendConfirm(s, result) == Step(s, Consumed, [Reply(LoginRequired)])
    ensures SendCancel(s) == Step(s, Consumed, [Reply(LoginRequired)])
  {
  }

  // ---------------------------------------------------------------------
  // The handlers on the session record

  /** The token menu, built line by line. */
  method BuildTokenMenu(bs: seq<Balance>) returns (lines: seq<TokenLine>)
    ensures lines == TokenLines(bs)
  {
    lines := [];
    for i := 0 to |bs|
      invariant lines == TokenLines(bs[..i])
    {
      assert bs[..i + 1] == bs[..i] + [bs[i]];
      lines := lines + [TokenLine(bs[i].token, bs[i].balance)];
    }
    assert bs[..|bs|] == bs;
  }

  method RunStartSend(s: Session, toEmail: bool) returns (handled: Handled, events: seq<Event>)
    modifies s
    ensures Step(s.State(), handled, events) == StartSend(old(s.State()), toEmail)
  {
    if !(s.authenticated && s.token.Some? && s.token.value != "") {
      return Consumed, [Reply(LoginRequired)];
    }
    events := [AnswerCallback];
    s.ClearTempData(None);
    s.SetTempData("transferType", Text(if toEmail then "email" else "wallet"));
    events := events + [Reply(if toEmail then AskRecipientEmail else AskRecipientWallet)];
    s.currentStep := Some(if toEmail then EmailRecipientStep else WalletRecipientStep);
    handled := Consumed;
  }

  method RunOfferNetworks(s: Session, balances: BalancesOutcome) returns (handled: Handled, events: seq<Event>)
    modifies s
    ensures Step(s.State(), handled, events) == OfferNetworks(old(s.State()), balances)
  {
    handled := Consumed;
    events := [FetchBalances];
    match balances {
      case Failure(m) =>
        s.currentStep := None;
        events := events + [Reply(NetworksFailed(m)), Reply(ReturnToMenu)];
      case Success(data) =>
        if data == None || data.value == [] {
          s.currentStep := None;
          events := events + [Reply(NoTokens), Reply(ReturnToMenu)];
          return;
        }
        var networks := Dedup(NetworksOf(data.value));
        s.SetTempData("networks", List(networks));
        var lines := BuildNetworkMenu(networks);
        events := events + [Reply(NetworkMenu(lines))];
        s.currentStep := Some(NetworkStep);
    }
  }

  method RunNetworkChoice(s: Session, text: string, balances: BalancesOutcome)
    returns (handled: Handled, events: seq<Event>)
    modifies s
    ensures Step(s.State(), handled, events) == NetworkChoice(old(s.State()), text, balances)
  {
    var stored := s.GetTempData("networks");
    var networks := Listing(stored);
    if networks == None {
      return Threw, [];
    }
    var index := Selection(text, |networks.value|);
    if index == None {
      return Consumed, [Reply(InvalidSelection(|networks.value|))];
    }
    var chosen := networks.value[index.value];
    s.SetTempData("network", Text(chosen));
    handled, events := RunOfferTokens(s, chosen, balances);
  }

  method RunOfferTokens(s: Session, network: string, balances: BalancesOutcome)
    returns (handled: Handled, events: seq<Event>)
    modifies s
    ensures Step(s.State(), handled, events) == OfferTokens(old(s.State()), network, balances)
  {
    handled := Consumed;
    events := [FetchBalances];
    match balances {
      case Failure(m) =>
        events := events + [Reply(TokensFailed(m))];
        s.currentStep := None;
        events := events + [Reply(ReturnToMenu)];
      case Success(data) =>
        if data == None {
          events := events + [Reply(TokensFailed(FilterOnUndefined))];
          s.currentStep := None;
          events := events + [Reply(ReturnToMenu)];
          return;
        }
        var mine := OnNetwork(data.value, network);
        s.SetTempData("tokens", List(TokensOf(mine)));
        var lines := BuildTokenMenu(mine);
        events := events + [Reply(TokenMenu(lines))];
        s.currentStep := Some(TokenStep);
    }
  }

  method RunTokenChoice(s: Session, text: string) returns (handled: Handled, events: seq<Event>)
    modifies s
    ensures Step(s.State(), handled, events) == TokenChoice(old(s.State()), text)
  {
    var stored := s.GetTempData("tokens");
    var tokens := Listing(stored);
    if tokens == None {
      return Threw, [];
    }
    var index := Selection(text, |tokens.value|);
    if index == None {
      return Consumed, [Reply(InvalidSelection(|tokens.value|))];
    }
    s.SetTempData("token", Text(tokens.value[index.value]));
    events := [Reply(AskAmount)];
    s.currentStep := Some(AmountStep);
    handled := Consumed;
  }

  method RunAmountEntry(s: Session, text: string) returns (handled: Handled, events: seq<Event>)
    modifies s
    ensures Step(s.State(), handled, events) == AmountEntry(old(s.State()), text)
  {
    if BadAmount(text) {
      return Consumed, [Reply(InvalidAmount)];
    }
    s.SetTempData("amount", Text(text));
    events := [Reply(AskNote)];
    s.currentStep := Some(NoteStep);
    handled := Consumed;
  }

  method RunNoteEntry(s: Session, text: string) returns (handled: Handled, events: seq<Event>)
    modifies s
    ensures Step(s.State(), handled, events) == NoteEntry(old(s.State()), text)
  {
    if ToLower(text) != "skip" {
      s.SetTempData("note", Text(text));
    }
    var transferType := s.GetTempData("transferType");
    var recipient := s.GetTempData("recipient");
    var network := s.GetTempData("network");
    var token := s.GetTempData("token");
    var amount := s.GetTempData("amount");
    var note := s.GetTempData("note");
    if network.None? || network.value.List? {
      return Threw, [];
    }
    var summary := ConfirmSend(transferType == Some(Text("email")), Display(recipient), ToUpper(network.value.s),
                               Display(token), Display(amount), if Truthy(note) then Some(Display(note)) else None);
    events := [Reply(summary)];
    s.currentStep := Some(ConfirmStep);
    handled := Consumed;
  }

  /** `sendFlow` on the session record. */
  method RunSendFlow(s: Session, raw: string, balances: BalancesOutcome) returns (handled: Handled, events: seq<Event>)
    modifies s
    ensures Step(s.State(), handled, events) == SendFlow(old(s.State()), raw, balances)
  {
    if s.currentStep == None {
      return PassedOn, [];
    }
    var text := Trim(raw);
    match Route(s.currentStep.value)
    case ToEmailRecipient =>
      if !LooseEmail(text) {
        return Consumed, [Reply(InvalidEmail)];
      }
      s.SetTempData("recipient", Text(text));
      handled, events := RunOfferNetworks(s, balances);
    case ToWalletRecipient =>
      if Utf16Length(text) < 10 {
        return Consumed, [Reply(InvalidWalletAddress)];
      }
      s.SetTempData("recipient", Text(text));
      handled, events := RunOfferNetworks(s, balances);
    case ToNetwork =>
      handled, events := RunNetworkChoice(s, text, balances);
    case ToToken =>
      handled, events := RunTokenChoice(s, text);
    case ToAmount =>
      handled, events := RunAmountEntry(s, text);
    case ToNote =>
      handled, events := RunNoteEntry(s, text);
    case NotSend =>
      handled, events := PassedOn, [];
  }

  /** `sendConfirmAction` on the session record. */
  method RunSendConfirm(s: Session, result: Transfers.TransferResult) returns (handled: Handled, events: seq<Event>)
    modifies s
    ensures Step(s.State(), handled, events) == SendConfirm(old(s.State()), result)
  {
    if !(s.authenticated && s.token.Some? && s.token.value != "") {
      return Consumed, [Reply(LoginRequired)];
    }
    events := [AnswerCallback, Reply(ProcessingTransfer), PostTransfer(TransferBody(s.State()))];
    handled := Consumed;
    match result {
      case Posted(body) =>
        s.ClearTempData(None);
        s.currentStep := None;
        match Transfers.PostedId(body) {
          case Some(id) =>
            events := events + [Reply(TransferSucceeded(id)), Reply(ReturnToMenu)];
          case None =>
            events := events + [Reply(TransferFailed(Transfers.ReadIdError(body)))];
            s.currentStep := None;
            events := events + [Reply(ReturnToMenu)];
        }
      case Rejected(e) =>
        events := events + [Reply(TransferFailed(Transfers.TransferErrorMessage(e)))];
        s.currentStep := None;
        events := events + [Reply(ReturnToMenu)];
    }
  }

  /** `sendCancelAction` on the session record. */
  method RunSendCancel(s: Session) returns (handled: Handled, events: seq<Event>)
    modifies s
    ensures Step(s.State(), handled, events) == SendCancel(old(s.State()))
  {
    if !(s.authenticated && s.token.Some? && s.token.value != "") {
      return Consumed, [Reply(LoginRequired)];
    }
    events := [AnswerCallback];
    s.ClearTempData(None);
    s.currentStep := None;
    events := events + [Reply(TransferCancelled), Reply(ReturnToMenu)];
    handled := Consumed;
  }
}
