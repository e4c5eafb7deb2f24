# CopperX Telegram bot: a verified model of its conversation core

This project models, in Dafny, the core of the CopperX Telegram bot. That core is
the per-user conversation engine and the pure helpers it relies on.

**The session.** The bot keeps one record per user, `Sessions.Session`. It holds the
authentication flag, the API token, the current step and a scratch map (`tempData`).
The accessors of `src/utils/session.ts` are methods on that class. Each one is
specified by a function on a snapshot of the record, `SessionState`.

**Three step machines share the session:**
- **send**: recipient, network, token, amount, note, confirm (module `Send`);
- **withdraw**: network, token, amount, confirm (modules `Withdraw` and `WithdrawTokens`);
- **login**: email, then one-time password (module `Login`).

Each text handler is a method on the session, proved equal to a step function. The
step function gives the new snapshot, how the handler ended (it consumed the
message, passed it on with `next()`, or threw) and the events it caused: replies
as abstract prompt tags, and calls to the bot's collaborators. The auth gate (`Bot`)
and `/logout` (`Logout`) complete this part. `Dispatch` models how a text message
passes through the three composers in the order the bot registers them.

**Collaborators are parameters.** The wallet, auth, OTP, transfer and price
services, and the wallet-address library, are outcomes passed in: success with
data, or failure with a message. Nothing here performs I/O.

**The pure helpers:**
- email and address validation (`Validation`), with the Levenshtein matrix filled
  by nested loops over a two-dimensional array (`EditDistance`);
- the conversion of amounts to the smallest unit and the API error text (`Transfers`);
- the KYC status and the withdrawal fee estimate (`Kyc`);
- amount, address and Markdown formatting (`Format`);
- the two sets of network tables (`NetworkUtils`, `NetworkNames`), network icons
  (`Icons`) and message decorators (`Theme`);
- both keyboard files (`Keyboards`, `KeyboardIndex`);
- the history and balance messages (`History`, `BalanceView`).

**Building blocks.** JavaScript numbers are modelled by `Numbers`: `parseFloat`
and `parseInt` are prefix parsers, and finite values are exact decimals. The
string built-ins the bot uses are in `Strings`. The stable sort behind
`Array.prototype.sort` is in `Sorting`.

Where the code builds something step by step, the model does too: a
`for` loop over `+=` concatenation, or a dictionary filled in a loop. Each such
method is proved equal to a function, and the function's properties are lemmas.

**Where the code differs from its documentation, the model follows the code:**
- `formatCryptoAmount` of a text that is not a number returns `"NaN"`, not the
  original text: `parseFloat` yields NaN, and nothing throws
  (`Transfers.NotANumberAmount`).
- The confirm action of the send flow does not check that the current step is
  `send_confirm`.
- The withdraw confirm action calls no API.

## Model

| member | source | states |
|---|---|---|
| Strings.TrimStart | src/bot/commands/send.ts:84 | trimming the front leaves a suffix of the text |
| Strings.TrimStartShape | src/bot/commands/send.ts:84 | only white space is removed from the front, and what is left does not start with white space |
| Strings.TrimEnd | src/bot/commands/send.ts:84 | trimming the end leaves a prefix of the text |
| Strings.TrimEndShape | src/bot/commands/send.ts:84 | only white space is removed from the end, and what is left does not end with white space |
| Strings.TrimShape | src/bot/commands/send.ts:84 | `trim` keeps one contiguous piece of the text and removes only white space around it |
| Strings.TrimEnds | src/bot/commands/send.ts:84 | a trimmed text is empty or starts and ends with something other than white space |
| Strings.TrimOfTrimmed | src/bot/commands/send.ts:84 | a text with no white space at either end is its own trim, so trimming twice changes nothing |
| Strings.ToLower | src/utils/networks.ts:38 | lower-casing keeps the length |
| Strings.ToUpper | src/utils/networks.ts:29 | upper-casing keeps the length |
| Strings.Utf16Length | src/bot/commands/send.ts:145 | the JavaScript length lies between the number of characters and twice that |
| Strings.Utf16LengthPlain | src/bot/commands/send.ts:145 | the JavaScript length is the number of characters exactly when no character lies outside the Basic Multilingual Plane |
| Strings.LowerAfterCaseChange | src/utils/networks.ts:38 | lower-casing forgets an earlier change of case and is idempotent |
| Strings.UpperAfterCaseChange | src/utils/networks.ts:29 | upper-casing forgets an earlier change of case and is idempotent |
| Strings.ContainsAt | src/constants/icons/index.ts:59-64 | `includes` holds exactly when the text occurs at some position |
| Strings.ContainsPrefixOf | src/constants/icons/index.ts:59-64 | a text that contains a word contains every prefix of that word |
| Strings.UpperFirst | src/bot/commands/history.ts:66-67 | upper-casing the first letter keeps the length |
| Strings.Capitalize | src/utils/networks.ts:66-68 | capitalizing keeps the length |
| Strings.CapitalizeIgnoresCase | src/utils/networks.ts:66-68 | capitalizing gives the same result whatever case the input came in |
| Strings.FirstIndex | src/bot/keyboards/index.ts:71 | the position found holds the element, and no earlier position does |
| Strings.FirstIndexOfPrefix | src/bot/keyboards/index.ts:71 | the first position of an element is the same in a list and in any prefix that holds it |
| Strings.DedupSpec | src/bot/keyboards/index.ts:71 | `[...new Set(xs)]` holds exactly the elements of xs, each once, in order of first appearance |
| Strings.DedupMembers | src/bot/commands/send.ts:113 | the distinct list holds exactly the elements of the input and repeats none |
| Strings.DedupSnoc | src/bot/commands/send.ts:113 | one more element is added at the end exactly when it is new |
| Strings.DedupLength | src/bot/commands/send.ts:113 | removing repetitions never lengthens a list |
| Numbers.DigitChar | src/bot/commands/history.ts:69 | a digit character denotes its digit |
| Numbers.NatToString | src/bot/commands/history.ts:69 | a count prints as decimal digits, without leading zeros, that denote it |
| Numbers.PadDigits | src/utils/format.ts:14 | a fraction prints with exactly the asked number of digits, zeros in front, denoting its value |
| Numbers.DigitsValueConcat | src/utils/format.ts:14 | the value of joined digit strings is the first value shifted by the second's length plus the second value |
| Numbers.DigitsValueZero | src/utils/format.ts:14 | a digit string denotes zero exactly when all its digits are zeros |
| Numbers.AllDigitsConcat | src/utils/format.ts:14 | joined digit strings are digit strings |
| Numbers.Normalize | src/utils/theme.ts:95 | the canonical form of a decimal has the same value and no trailing fraction zeros |
| Numbers.NormalizeIdempotent | src/utils/theme.ts:95 | a canonical decimal is its own canonical form |
| Numbers.DigitRun | src/bot/commands/withdraw.ts:96 | the digit run starting at a position consists of digits only |
| Numbers.ParseLiteralOfDigits | src/bot/commands/withdraw.ts:203 | a literal with a digit right after its optional sign is read as digits, never as Infinity |
| Numbers.IntegerTextParses | src/bot/commands/withdraw.ts:203 | a signed integer text reads back as its value |
| Numbers.FractionTextParses | src/bot/commands/withdraw.ts:203 | a signed text with a fraction reads back as its value |
| Numbers.PlainDecimalParses | src/bot/commands/withdraw.ts:203 | a plain decimal text, with or without fraction digits, reads back as its exact value |
| Numbers.RenderRoundTrip | src/bot/commands/withdraw.ts:129 | `parseFloat` of a printed finite number gives that number back, in canonical form |
| Numbers.PlainOfParses | src/bot/commands/withdraw.ts:129 | the plain layout of a magnitude and scale reads back as that decimal |
| Numbers.RenderCanonical | src/bot/commands/withdraw.ts:129 | printing depends only on a number's value, not on how the decimal is written |
| Numbers.OrZero | src/bot/commands/withdraw.ts:127-128 | the fallback to 0 is never NaN, and leaves every other number as it is, a zero becoming plain zero |
| Numbers.AddDecimal | src/bot/commands/withdraw.ts:129 | the sum of two decimals is exact |
| Numbers.Add | src/bot/commands/withdraw.ts:129 | `+` of two finite numbers is their exact sum, and NaN on either side gives NaN |
| Numbers.RoundedScaledNearest | src/utils/format.ts:14 | `toFixed` keeps the multiple of the last digit nearest to the value, halves rounded away from zero |
| Numbers.ToFixedParses | src/utils/format.ts:14 | the text `toFixed` prints reads back as the rounded value with exactly the asked number of fraction digits |
| Numbers.RoundedScaledAtMost | src/api/transfers.ts:128 | rounding to a number of fraction digits never exceeds a bound on the scaled magnitude by more than one last digit |
| Numbers.ParseIntLeadingDigits | src/bot/commands/send.ts:202 | `parseInt` of a text that starts with digits reads exactly those digits, whatever follows that is not a digit |
| Numbers.StripZerosRestores | src/api/transfers.ts:120 | the significant digits of a magnitude, shifted back by the zeros stripped, give the magnitude |
| Numbers.ExponentTextParses | src/api/transfers.ts:120 | the exponent suffix `e+n` or `e-n` reads back as its exponent |
| Numbers.SciTextParses | src/api/transfers.ts:120 | a text in exponent notation reads back as its digits scaled by the exponent less the fraction digits |
| Numbers.SciRoundTrip | src/api/transfers.ts:120 | `parseFloat` of the exponent notation of a canonical non-zero decimal gives that decimal back |
| Numbers.PlainToString | src/api/transfers.ts:120 | `toString` of a value from 10^-6 up to below 10^21 is the plain layout |
| Numbers.SciToString | src/api/transfers.ts:120 | `toString` of a value of 10^21 or more is the exponent notation of its canonical form |
| Numbers.DecimalToStringRoundTrip | src/api/transfers.ts:120 | `parseFloat` of what `toString` prints for any finite number gives the same value, in the same canonical form, in both the plain and the exponent layout |
| Numbers.NumberToStringReads | src/bot/commands/withdraw.ts:129 | the text of a finite number reads back as a finite number of the same value |
| Numbers.LargeExample | src/api/transfers.ts:120 | 10^21 prints as "1e+21" |
| Numbers.SmallExample | src/api/transfers.ts:120 | 10^-7 prints as "1e-7" |
| Sessions.Fresh | src/utils/session.ts:110-111 | a session that was never written to is not authenticated and has no token, step or scratch map |
| Sessions.TempGet | src/utils/session.ts:77-84 | a value is returned exactly when a scratch map exists and binds the key; with no map there is nothing |
| Sessions.WithTemp | src/utils/session.ts:62-69 | the scratch map is created when absent, then the key is bound; no other field changes |
| Sessions.ClearedTemp | src/utils/session.ts:91-102 | with no map nothing changes; a non-empty key is deleted; no key or the empty (falsy) key empties the map; only the map changes |
| Sessions.Cleared | src/utils/session.ts:18-26 | clearing gives the record a new user starts with, `Fresh()`; what that record holds (logged out, no token, step or scratch space) is stated by Sessions.ClearedIsLoggedOut |
| Sessions.WithAuth | src/utils/session.ts:37-54 | the five credentials are stored and the flag is set; the step and the scratch map are kept |
| Sessions.TempSetThenGet | src/utils/session.ts:62-84 | after setting a key, reading it gives the value, every other key reads as before, and neither the step nor the flag changed |
| Sessions.ClearKeyKeepsOthers | src/utils/session.ts:91-102 | clearing one key makes it unreadable and keeps every other key |
| Sessions.ClearAllEmpties | src/utils/session.ts:91-102 | clearing without a key leaves no key readable, and an absent map stays absent |
| Sessions.ClearedIsLoggedOut | src/utils/session.ts:9-26 | after clearing, the user is logged out by both the flag and the token test, with no step and no scratch space |
| Sessions.AuthDataAuthenticates | src/utils/session.ts:9-12 | storing credentials authenticates the session exactly when the token is non-empty |
| Sessions.Session.constructor | src/utils/session.ts:110-111 | a new session record holds the fresh session |
| Sessions.Session.ClearSession | src/utils/session.ts:18-26 | the record's new state is the cleared session |
| Sessions.Session.SetAuthData | src/utils/session.ts:37-54 | the record's new state is the old one with the credentials stored |
| Sessions.Session.SetTempData | src/utils/session.ts:62-69 | the record's new state is the old one with the key bound |
| Sessions.Session.ClearTempData | src/utils/session.ts:91-102 | the record's new state is the old one with the key, or the whole map, cleared |
| Sessions.Session.GetTempData | src/utils/session.ts:77-84 | the value read is the one the specification gives, and the record is unchanged |
| Logout.LogoutCommand | src/bot/commands/logout.ts:6-27 | an unflagged session is refused with the not-logged-in reply and kept; otherwise the session is cleared, notifications are stopped exactly when a chat id is present, and the last reply confirms the logout |
| Logout.LogoutEndsSession | src/bot/commands/logout.ts:20-21 | after a logout there is no token, step or scratch space, and the user is not authenticated in either sense |
| Logout.LogoutTwice | src/bot/commands/logout.ts:10-13 | a second logout takes the not-logged-in branch and changes nothing |
| Logout.RunLogoutCommand | src/bot/commands/logout.ts:6-27 | the handler on the session record does what the specification gives, stopping notifications before clearing |
| Bot.MenuLineSelects | src/bot/commands/send.ts:228 | the number at the head of the `index`-th token line, typed back, is read by `parseInt` as `index + 1`, the choice that selects that line |
| Bot.BuildNetworkMenu | src/bot/commands/send.ts:119-123 | the network menu has one line per network, in order, each the network upper-cased |
| Bot.AuthMiddleware | src/bot/middleware/auth.ts:9-21 | the gate never touches the session; it calls `next()` exactly when the session is authenticated, and otherwise sends the one login-required reply |
| Bot.FlaggedWithoutTokenRejected | src/utils/session.ts:9-12 | a session flagged authenticated but with no token, or the empty token, is stopped at the gate |
| Bot.Gated | src/bot/middleware/auth.ts:9-21 | a handler behind the gate runs exactly for an authenticated session; otherwise the session is kept and the login-required reply sent |
| Bot.PrefixesExclusive | src/bot/commands/send.ts:80 | no step name belongs to two of the login, send and withdraw flows |
| Bot.Listing | src/bot/commands/send.ts:199 | a stored list is read as itself, and a missing key reads as nothing |
| Bot.Selection | src/bot/commands/send.ts:202-206 | a choice is taken exactly when `parseInt` gives a number between 1 and the list length, and it is that number minus one |
| Bot.TrailingTextIgnored | src/bot/commands/send.ts:202 | only the leading digits count: "2abc" picks the second entry |
| Send.TokensOf | src/bot/commands/send.ts:221 | the tokens stored are each balance's token, in order |
| Send.BuildTokenMenu | src/bot/commands/send.ts:224-229 | the token menu has one line per balance, in order, with its token and balance |
| Send.OfferNetworks | src/bot/commands/send.ts:98-139 | after the recipient is stored the update is always handled, and the step either moves to the network step or is reset |
| Send.EmailRecipient | src/bot/commands/send.ts:87-140 | the email recipient step always handles the update |
| Send.WalletRecipient | src/bot/commands/send.ts:143-195 | the wallet recipient step always handles the update; its length test counts UTF-16 code units, as JavaScript does |
| Send.NetworkChoice | src/bot/commands/send.ts:198-246 | the network step always handles the update, and the step stays, is reset, or moves to the token step |
| Send.OfferTokens | src/bot/commands/send.ts:213-245 | after a network is chosen, the step either moves to the token step or is reset |
| Send.TokenChoice | src/bot/commands/send.ts:249-275 | the token step always handles the update, and the step either stays or moves to the amount step |
| Send.AmountEntry | src/bot/commands/send.ts:278-300 | the amount step always handles the update, and the step either stays or moves to the note step |
| Send.NoteEntry | src/bot/commands/send.ts:303-345 | the note step always handles the update, and the step either stays or moves to the confirm step |
| Send.Route | src/bot/commands/send.ts:80-82 | a step outside the `send_` prefix selects no handler |
| Send.RouteOfNames | src/bot/commands/send.ts:87-347 | each named step selects its own handler, and `send_confirm` selects none |
| Send.SendFlow | src/bot/commands/send.ts:77-348 | a session outside the send flow is passed on untouched, and whenever the message is passed on, nothing changed |
| Send.AmountOf | src/bot/commands/send.ts:359 | an amount stored as text is handed to the transfer call as that text |
| Send.TransferBody | src/bot/commands/send.ts:370-388 | the email endpoint is used exactly when the stored transfer type is "email"; any other type uses the wallet endpoint |
| Send.StartSendResets | src/bot/commands/send.ts:33-74 | starting either sub-flow leaves only the transfer type in the scratch space, enters the matching recipient step, and keeps every other field |
| Send.StepDispatch | src/bot/commands/send.ts:84-347 | each named step hands the trimmed text to its own handler, and `send_confirm` passes the message on |
| Send.InvalidEmailRecipientKeepsState | src/bot/commands/send.ts:89-93 | an address that fails the email pattern is refused and the session is kept as it was |
| Send.InvalidWalletRecipientKeepsState | src/bot/commands/send.ts:145-148 | an address shorter than ten UTF-16 code units is refused and the session is kept as it was |
| Send.OfferedNetworksDeduplicated | src/bot/commands/send.ts:112-130 | the stored networks are exactly the networks of the balances, with no repeats, the recipient is kept, and the network step is entered |
| Send.NoNetworksEndsFlow | src/bot/commands/send.ts:103-110 | with no balances or a failed fetch, only the step is reset and the stored recipient is kept |
| Send.ChoiceAcceptedIff | src/bot/commands/send.ts:202-206 | a network or token choice changes the session exactly when `parseInt` gives a number between 1 and the list length; otherwise the one reply names the count |
| Send.NetworkChoiceState | src/bot/commands/send.ts:208-236 | an accepted network choice stores the chosen network and the tokens held on it, and enters the token step |
| Send.NetworkChoiceStores | src/bot/commands/send.ts:208-221 | the stored network is the list entry at the chosen position, and the stored tokens are exactly those held on it |
| Send.StoredChoice | src/bot/commands/send.ts:211-221 | after the two writes, both the network and the tokens read back as written |
| Send.TokenFetchFailureKeepsScratch | src/bot/commands/send.ts:237-244 | a failed token fetch resets the step and keeps the chosen network and every other stored key |
| Send.AmountAcceptedIff | src/bot/commands/send.ts:280-287 | an amount is refused, with nothing changed, exactly when `parseFloat` gives NaN or a value at most zero; an accepted one is stored as typed |
| Send.SkipStoresNoNote | src/bot/commands/send.ts:305-307 | "skip", in any ASCII letter case, writes nothing to the scratch space |
| Send.NoteStored | src/bot/commands/send.ts:305-307 | any other text is stored as the note |
| Send.StepAdvancesByOne | src/bot/commands/send.ts:198-345 | from each step after the recipient, the step stays, is reset, or moves exactly one place on |
| Send.RecipientLeadsToNetwork | src/bot/commands/send.ts:87-195 | the recipient steps lead only to the network step, or stay, or are reset |
| Send.ConfirmOutcome | src/bot/commands/send.ts:351-416 | whatever the step, the transfer is posted and the menu offered; a success clears scratch space and step, a failure resets only the step; the success reply is sent exactly when the success body is an object, and a `null` or `undefined` body, already cleared, gets the failure reply with the TypeError's message |
| Send.CancelClears | src/bot/commands/send.ts:419-430 | cancelling clears the scratch space and the step |
| Send.ActionsGated | src/bot/commands/send.ts:33-74 | without a login, starting, confirming and cancelling each change nothing and send the login-required reply |
| Send.RunStartSend | src/bot/commands/send.ts:33-74 | the start actions on the session record do what the specification gives |
| Send.RunOfferNetworks | src/bot/commands/send.ts:98-139 | offering networks on the session record does what the specification gives |
| Send.RunNetworkChoice | src/bot/commands/send.ts:198-246 | the network step on the session record does what the specification gives |
| Send.RunOfferTokens | src/bot/commands/send.ts:213-245 | offering tokens on the session record does what the specification gives |
| Send.RunTokenChoice | src/bot/commands/send.ts:249-275 | the token step on the session record does what the specification gives |
| Send.RunAmountEntry | src/bot/commands/send.ts:278-300 | the amount step on the session record does what the specification gives |
| Send.RunNoteEntry | src/bot/commands/send.ts:303-345 | the note step on the session record does what the specification gives |
| Send.RunSendFlow | src/bot/commands/send.ts:77-348 | the text handler on the session record does what the specification gives |
| Send.RepliesOutcome | src/bot/commands/send.ts:389-416 | after the call come two replies: the success reply exactly for a body that is an object, the failure reply with the TypeError's message for a `null` or `undefined` body, then the menu |
| Send.SucceededAfter | src/bot/commands/send.ts:370-416 | the notices sent before the call announce no transfer, so only the replies after it can |
| Send.RunSendConfirm | src/bot/commands/send.ts:351-416 | the confirm action on the session record, including the throw after clearing on a `null` or `undefined` body, does what `SendConfirm` gives |
| Send.RunSendCancel | src/bot/commands/send.ts:419-430 | the cancel action on the session record does what the specification gives |
| Withdraw.BuildMenu | src/bot/commands/withdraw.ts:142-147 | the withdraw token menu has one line per collected token, in order, with its symbol and summed balance |
| Withdraw.NetworkChoice | src/bot/commands/withdraw.ts:92-164 | the network step leaves the step where it was, resets it, or moves it to the token step |
| Withdraw.OfferTokens | src/bot/commands/withdraw.ts:107-162 | after a network is chosen, the step either moves to the token step or is reset |
| Withdraw.TokenChoice | src/bot/commands/withdraw.ts:167-193 | the token step either stays or moves to the amount step |
| Withdraw.AmountEntry | src/bot/commands/withdraw.ts:196-254 | the amount step either stays or moves straight to the confirm step |
| Withdraw.AcceptAmount | src/bot/commands/withdraw.ts:211-252 | an accepted amount always ends on the confirm step |
| Withdraw.Route | src/bot/commands/withdraw.ts:85-87 | a step outside the `withdraw_` prefix selects no handler |
| Withdraw.RouteOfNames | src/bot/commands/withdraw.ts:92-256 | each named step selects its own handler, and `withdraw_confirm` selects none |
| Withdraw.WithdrawFlow | src/bot/commands/withdraw.ts:82-257 | a session outside the withdraw flow is passed on untouched |
| Withdraw.StartClearsScratch | src/bot/commands/withdraw.ts:22-79 | nothing of the old scratch space survives a start, whatever the fetch gives; a failure or an empty list leaves exactly the cleared session with the step kept |
| Withdraw.StartOffersNetworks | src/bot/commands/withdraw.ts:53-71 | with wallets delivered, the step becomes the network step and the stored list holds each network of the wallets once |
| Withdraw.ActionsGated | src/bot/commands/withdraw.ts:11-19 | without a login the command, the button and both actions change nothing and send the login-required reply |
| Withdraw.StepDispatch | src/bot/commands/withdraw.ts:89-256 | each named step hands the trimmed text to its own handler, and `withdraw_confirm` passes the message on |
| Withdraw.ChoiceAcceptedIff | src/bot/commands/withdraw.ts:96-100 | a network or token choice changes the session exactly when `parseInt` gives a number between 1 and the list length; otherwise the one reply names the count |
| Withdraw.NetworkChoiceState | src/bot/commands/withdraw.ts:102-154 | an accepted network choice stores the network and the symbols gathered from its wallets, and enters the token step |
| Withdraw.StoredChoice | src/bot/commands/withdraw.ts:105-139 | after the two writes, both the network and the token list read back as written |
| Withdraw.NetworkChoiceStores | src/bot/commands/withdraw.ts:102-139 | the stored network is the list entry at the chosen position, and the stored token list names each symbol held on that network once, in order of first appearance |
| Withdraw.TokenFetchFailureKeepsScratch | src/bot/commands/withdraw.ts:155-162 | a failed token fetch resets the step and keeps the scratch space, with the chosen network in it |
| Withdraw.WholeAmountValue | src/bot/commands/withdraw.ts:203 | a text of digits reads as that whole number |
| Withdraw.FractionAmountValue | src/bot/commands/withdraw.ts:203 | digits, a point and digits read as the decimal of all those digits |
| Withdraw.FractionDigitsZero | src/bot/commands/withdraw.ts:198-206 | the digits on both sides of the point are all zero exactly when every digit of the text is zero |
| Withdraw.PatternAmountSign | src/bot/commands/withdraw.ts:198-209 | a text matching the pattern reads as a number that is not negative, and it is at most zero exactly when all its digits are zero |
| Withdraw.AmountAcceptedIff | src/bot/commands/withdraw.ts:198-209 | an amount is refused, with nothing changed, exactly when it fails the pattern or all its digits are zero; the format complaint comes first |
| Withdraw.WithAmountReads | src/bot/commands/withdraw.ts:212-227 | after an accepted amount, the amount reads as typed, the account as the placeholder, and every other key as before |
| Withdraw.AmountJumpsToConfirm | src/bot/commands/withdraw.ts:211-252 | an accepted amount enters the confirm step, stores the amount and the placeholder account, keeps the other keys, and the summary shows the amount as typed |
| Withdraw.StepAdvancesByOne | src/bot/commands/withdraw.ts:92-254 | from each text step the step stays, is reset, or moves exactly one place on |
| Withdraw.NetworkStepMoves | src/bot/commands/withdraw.ts:92-164 | from the network step the step stays, is reset, or becomes the token step |
| Withdraw.TokenStepMoves | src/bot/commands/withdraw.ts:167-193 | from the token step the step stays or becomes the amount step |
| Withdraw.AmountStepMoves | src/bot/commands/withdraw.ts:196-254 | from the amount step the step stays or becomes the confirm step |
| Withdraw.NetworkChoiceMoves | src/bot/commands/withdraw.ts:92-164 | the network handler keeps, resets or advances the step by one |
| Withdraw.TokenChoiceMoves | src/bot/commands/withdraw.ts:167-193 | the token handler keeps or advances the step by one |
| Withdraw.AmountEntryMoves | src/bot/commands/withdraw.ts:196-254 | the amount handler keeps or advances the step by one |
| Withdraw.ConfirmAndCancelClear | src/bot/commands/withdraw.ts:260-320 | confirming and cancelling both end the flow with no key readable, and leave the same session |
| Withdraw.RunStartWithdrawal | src/bot/commands/withdraw.ts:22-79 | the start on the session record does what the specification gives |
| Withdraw.RunWithdrawStart | src/bot/commands/withdraw.ts:11-19 | the command and the button on the session record do what the specification gives |
| Withdraw.RunOfferTokens | src/bot/commands/withdraw.ts:107-162 | offering tokens on the session record does what the specification gives |
| Withdraw.RunNetworkChoice | src/bot/commands/withdraw.ts:92-164 | the network step on the session record does what the specification gives |
| Withdraw.RunTokenChoice | src/bot/commands/withdraw.ts:167-193 | the token step on the session record does what the specification gives |
| Withdraw.RunAmountEntry | src/bot/commands/withdraw.ts:196-254 | the amount step on the session record does what the specification gives |
| Withdraw.RunAcceptAmount | src/bot/commands/withdraw.ts:211-252 | storing an accepted amount on the session record does what the specification gives |
| Withdraw.RunWithdrawFlow | src/bot/commands/withdraw.ts:82-257 | the text handler on the session record does what the specification gives |
| Withdraw.RunWithdrawConfirm | src/bot/commands/withdraw.ts:260-306 | the confirm action on the session record does what the specification gives |
| Withdraw.RunWithdrawCancel | src/bot/commands/withdraw.ts:309-320 | the cancel action on the session record does what the specification gives |
| WithdrawTokens.OnNetworkW | src/bot/commands/withdraw.ts:114 | the wallets kept are exactly those on the network |
| WithdrawTokens.WalletNetworks | src/bot/commands/withdraw.ts:54 | each wallet's network, in order |
| WithdrawTokens.SymbolIndex | src/bot/commands/withdraw.ts:123 | the position found is the first entry with the symbol, or -1 when there is none |
| WithdrawTokens.OrZeroWorth | src/bot/commands/withdraw.ts:127-128 | `parseFloat` with the fallback to 0, on a text that is not an infinity is a finite number worth what the text reads as |
| WithdrawTokens.TextWorth | src/bot/commands/withdraw.ts:129 | the text of a finite number, in either layout, reads back as worth that number and never as an infinity |
| WithdrawTokens.SumText | src/bot/commands/withdraw.ts:129 | the text of the sum of two finite numbers reads back as worth their sum |
| WithdrawTokens.CombinedAdds | src/bot/commands/withdraw.ts:127-129 | the text of a sum reads back as the sum of the two balances |
| WithdrawTokens.TotalAbsent | src/bot/commands/withdraw.ts:117-136 | a symbol no entry carries sums to nothing and occurs nowhere |
| WithdrawTokens.MergeSymbols | src/bot/commands/withdraw.ts:123-133 | a step of the walk keeps the old symbols in place and appends the new symbol only when it was not there |
| WithdrawTokens.GatherSymbols | src/bot/commands/withdraw.ts:117-136 | the symbols of the token list are the delivered symbols without repeats, in the order of first appearance |
| WithdrawTokens.TotalStep | src/bot/commands/withdraw.ts:129 | one more entry adds its worth to its own symbol's sum and no other |
| WithdrawTokens.AppendSums | src/bot/commands/withdraw.ts:130-133 | pushing a new symbol keeps every entry worth the sum of its symbol's balances |
| WithdrawTokens.UpdateSums | src/bot/commands/withdraw.ts:125-129 | replacing a known symbol's balance by the sum keeps every entry worth its symbol's total |
| WithdrawTokens.MergeSums | src/bot/commands/withdraw.ts:123-133 | a whole step of the walk keeps every entry worth its symbol's total |
| WithdrawTokens.GatherSums | src/bot/commands/withdraw.ts:117-136 | when no balance reads as an infinity, each entry of the token list is worth the sum of its symbol's delivered balances |
| WithdrawTokens.WalkDistinct | src/bot/commands/withdraw.ts:117-136 | the walk holds each delivered symbol in exactly one entry |
| WithdrawTokens.MergeKeeps | src/bot/commands/withdraw.ts:130-133 | a step of the walk keeps the entries whose symbol was delivered once as delivered |
| WithdrawTokens.OccurrencesPresent | src/bot/commands/withdraw.ts:121 | a delivered symbol occurs at least once |
| WithdrawTokens.GatherKeeps | src/bot/commands/withdraw.ts:130-133 | a symbol delivered once keeps the entry it came with |
| WithdrawTokens.GatherSpec | src/bot/commands/withdraw.ts:114-139 | the token list has one entry per symbol on the wallets of the network, in the order of first appearance; single entries are kept; without infinities each entry is worth its symbol's sum |
| WithdrawTokens.EntriesOfTwo | src/bot/commands/withdraw.ts:119-121 | two wallets contribute their token lists one after the other |
| WithdrawTokens.MergeTwo | src/bot/commands/withdraw.ts:125-129 | two entries of one symbol merge into one entry holding the text of the sum |
| WithdrawTokens.TwoWalletsSum | src/bot/commands/withdraw.ts:117-136 | two wallets holding the same token give one entry worth the sum of both |
| WithdrawTokens.MergeAllConcat | src/bot/commands/withdraw.ts:119-136 | walking two runs of entries is walking the first, then the second |
| WithdrawTokens.MergeEntry | src/bot/commands/withdraw.ts:123-133 | the lookup followed by the update or the push gives the specification's step |
| WithdrawTokens.MergeEntries | src/bot/commands/withdraw.ts:121-134 | one wallet's entries merged in order give the specification's walk |
| WithdrawTokens.CollectTokens | src/bot/commands/withdraw.ts:117-136 | the loop over the wallets, skipping those without a token list, builds exactly the specified token list |
| WithdrawTokens.GatherStep | src/bot/commands/withdraw.ts:119-136 | one more wallet walked merges its entries after the earlier ones |
| Login.LoginCommand | src/bot/commands/login.ts:9-40 | a session flagged authenticated is kept and told so; otherwise the email prompt is sent and only the step changes, to `login_email` |
| Login.RefreshTokenOf | src/bot/commands/login.ts:166 | the refresh token is the response's refresh token when non-empty, else the token id when non-empty, else the access token |
| Login.AuthErrorPrompt | src/bot/commands/login.ts:223-238 | the invalid-OTP reply exactly when the message mentions "Invalid OTP" or "expired"; otherwise the not-registered reply exactly when it mentions "not found" or "email"; otherwise the message itself |
| Login.LoginFlow | src/bot/commands/login.ts:43-51 | a session outside the login flow is passed on untouched |
| Login.LoginCommandSteps | src/bot/commands/login.ts:20-39 | `/login` while authenticated changes nothing; otherwise only the step moves, and the scratch space is kept |
| Login.InvalidEmailReprompts | src/bot/commands/login.ts:61-66 | an address the pattern refuses is asked for again, with nothing stored, the step kept and no OTP requested |
| Login.LoginDispatch | src/bot/commands/login.ts:53-115 | each of the two steps hands the trimmed text to its own handler |
| Login.LoginStepNames | src/bot/commands/login.ts:48-115 | both step names are in the login flow, and they differ |
| Login.EmailStepOutcome | src/bot/commands/login.ts:68-111 | after an accepted address the step is `login_otp` exactly when the OTP request gave a non-empty sid, and is reset otherwise; the address is always stored, the OTP always requested, and the sid stored on success |
| Login.NonNumericOtpReprompts | src/bot/commands/login.ts:119-123 | a code that is not all digits is asked for again, with the session kept |
| Login.MissingLoginDataAborts | src/bot/commands/login.ts:127-138 | a missing stored email or sid resets the step, changes nothing else and attempts no authentication |
| Login.SuccessfulLogin | src/bot/commands/login.ts:164-211 | a successful authentication stores the response's credentials, empties the scratch space and resets the step; the session is authenticated exactly when the access token is non-empty |
| Login.NotificationsOnlyForChat | src/bot/commands/login.ts:195-203 | notifications are set up on success exactly when a chat id is present |
| Login.FailedLogin | src/bot/commands/login.ts:212-242 | a failed authentication only resets the step, and the last reply follows the message's pattern |
| Login.ExpiredBeatsEmail | src/bot/commands/login.ts:223-232 | a message mentioning both an expired OTP and the email is classed as an invalid OTP |
| Login.RunLoginCommand | src/bot/commands/login.ts:9-40 | `/login` on the session record does what the specification gives |
| Login.RunEmailStep | src/bot/commands/login.ts:57-112 | the email step on the session record does what the specification gives |
| Login.RunOtpStep | src/bot/commands/login.ts:115-252 | the OTP step on the session record does what the specification gives |
| Login.RunLoginFlow | src/bot/commands/login.ts:43-256 | the text handler on the session record does what the specification gives |
| Dispatch.TextUpdate | src/index.ts:48-54 | a text message outside all three flows is passed on with nothing changed |
| Dispatch.LoginPassOnIdle | src/bot/commands/login.ts:48-51 | the login handler passes a message on only without touching the session or doing anything |
| Dispatch.WithdrawPassOnIdle | src/bot/commands/withdraw.ts:85-87 | the withdraw handler passes a message on only without touching the session or doing anything |
| Dispatch.NetworkChoicePassOn | src/bot/commands/withdraw.ts:92-164 | the withdraw network step never passes a message on with a change |
| Dispatch.TokenChoicePassOn | src/bot/commands/withdraw.ts:167-193 | the withdraw token step never passes a message on with a change |
| Dispatch.AmountEntryPassOn | src/bot/commands/withdraw.ts:196-254 | the withdraw amount step never passes a message on with a change |
| Dispatch.OwnerDecides | src/index.ts:48-54 | the flow whose prefix the current step carries, and only it, decides the message |
| Dispatch.PassedOnIsIdle | src/index.ts:48-54 | a message passed on by all three flows leaves the session as it was and does nothing |
| Dispatch.Caught | src/index.ts:91-94 | a handler that threw keeps what it had done, and gets exactly one generic error reply after it; otherwise nothing is added |
| Dispatch.RunTextUpdate | src/index.ts:48-54 | the three text handlers, run one after another on the session record, do what the specification gives |
| Validation.Fallback | src/utils/validation.ts:92-125 | an accepted address has 25 to 100 characters, and one starting with `0x` is accepted exactly when it is `0x` and forty hex digits |
| Validation.ShapesAreGeneric | src/utils/validation.ts:104-117 | every base58, bech32 or Tron address is also a generic alphanumeric one |
| Validation.FallbackOutsideHex | src/utils/validation.ts:94-124 | outside the `0x` case the fallback accepts exactly the generic shape within the length bounds, so the three special shapes decide nothing |
| Validation.FallbackAcceptsShapes | src/utils/validation.ts:103-114 | a base58, bech32 or Tron address of acceptable length passes |
| Validation.CurrencyCode | src/utils/validation.ts:28-66 | every network the table knows maps to one of its ten currency codes |
| Validation.EvmCodes | src/utils/validation.ts:29-39 | each EVM-compatible name is checked as an "ETH" address |
| Validation.NormalizeNetwork | src/utils/validation.ts:19 | the normalised name is never longer than the given one |
| Validation.ValidateWalletAddress | src/utils/validation.ts:12-16 | an empty address or an empty network is refused |
| Validation.NetworkNameNormalised | src/utils/validation.ts:19-86 | for a non-empty address, two network names with the same normalised form get the same answer |
| Validation.EvmNetworksShareValidator | src/utils/validation.ts:28-75 | every EVM network gets the library's "ETH" verdict |
| Validation.FallsBack | src/utils/validation.ts:77-86 | an unmapped network, or a library that throws, leaves the answer to the fallback |
| Validation.ValidEmailShape | src/utils/validation.ts:132-138 | a valid address has exactly one `@`, with something before it, and ends in a top-level domain of two or more letters |
| Validation.OneLetterDomainRefused | src/utils/validation.ts:136 | a one-letter top-level domain is refused |
| Validation.Split | src/utils/validation.ts:167 | splitting always gives at least one part |
| Validation.SplitWithout | src/utils/validation.ts:167 | without the separator the only part is the string itself |
| Validation.SplitOnce | src/utils/validation.ts:167 | one separator gives exactly the two parts around it |
| Validation.ValidEmailSplits | src/utils/validation.ts:167-172 | a valid address splits at its `@` into exactly two parts that rebuild it, the first non-empty |
| Validation.SplitAtTheAt | src/utils/validation.ts:167-172 | in a valid address, any `@` is the one it splits at |
| Validation.Prefix3 | src/utils/validation.ts:199-200 | the prefix has three characters, or all of a shorter text |
| Validation.Scan | src/utils/validation.ts:175-210 | the result keeps the input; a typo is reported exactly when there is a suggestion, and a suggestion is the user name at one of the searched domains |
| Validation.TypoSpec | src/utils/validation.ts:145-152 | the result keeps the input, and an address failing the format check has no typo |
| Validation.FirstVerdictDecides | src/utils/validation.ts:175-208 | the first domain in list order whose comparison is decisive settles the result: an exact match gives no typo, a near one suggests that domain |
| Validation.NoVerdictNoTypo | src/utils/validation.ts:208-210 | with no decisive domain there is no typo |
| Validation.MailComParts | src/utils/validation.ts:150-172 | `user@mail.com` passes the format check and splits into `user` and `mail.com` |
| Validation.MailGmailDistance | src/utils/validation.ts:183-187 | `mail.com` is one edit away from `gmail.com` |
| Validation.MailComFlagged | src/utils/validation.ts:154-207 | as written, any valid address at `mail.com` gets the `gmail.com` suggestion, although `mail.com` is in the list |
| Validation.LowerOfLower | src/utils/validation.ts:177 | text without upper-case letters is its own lower case |
| Validation.TypoSpecFixed | src/utils/validation.ts:145-211 | the corrected check keeps the input |
| Validation.KnownDomainNotFlagged | src/utils/validation.ts:154-179 | with the correction, an address at any common domain, in any letter case, has no typo |
| Validation.FixedAgreesElsewhere | src/utils/validation.ts:175-210 | the correction gives the same answer as the code for every domain outside the list |
| Validation.CompareDomain | src/utils/validation.ts:177-207 | the loop body, with the distance computed by the matrix, gives the specified verdict |
| Validation.CheckEmailTypos | src/utils/validation.ts:145-211 | the loop over the domains, returning at the first decisive one, gives the specified result |
| EditDistance.Min3 | src/utils/validation.ts:235-239 | the least of three values is at most each and equal to one of them |
| EditDistance.Distance | src/utils/validation.ts:214-216 | an empty argument gives the other's length |
| EditDistance.Levenshtein | src/utils/validation.ts:214-245 | the reference distance of an empty argument is the other's length |
| EditDistance.DropFirstArgument | src/utils/validation.ts:230-242 | dropping the last character of the first string moves the distance by at most one |
| EditDistance.DropSecondArgument | src/utils/validation.ts:230-242 | dropping the last character of the second string moves the distance by at most one |
| EditDistance.DistanceIsLevenshtein | src/utils/validation.ts:232-239 | the code's matrix, which copies the diagonal on equal characters, holds the textbook Levenshtein distance |
| EditDistance.DistanceToItself | src/utils/validation.ts:214-245 | a string is at distance zero from itself |
| EditDistance.DistanceSymmetric | src/utils/validation.ts:214-245 | the distance does not depend on the order of the arguments |
| EditDistance.DistanceAtMostLonger | src/utils/validation.ts:214-245 | the distance is at most the length of the longer string |
| EditDistance.EntryStep | src/utils/validation.ts:232-239 | each entry follows from its three neighbours by the code's rule |
| EditDistance.CellIsDistance | src/utils/validation.ts:230-242 | the entry the loops store at row `i`, column `j` is the distance between the first `j` characters of `a` and the first `i` of `b` |
| EditDistance.InitMatrix | src/utils/validation.ts:218-227 | the first row and column hold their indices, which are the distances to the empty prefix |
| EditDistance.FillRow | src/utils/validation.ts:231-241 | after a row is filled, it too holds the distances between the prefixes |
| EditDistance.GetEditDistance | src/utils/validation.ts:214-245 | the value returned is the distance of the two strings |
| Transfers.Scale8 | src/api/transfers.ts:124-125 | a finite amount is multiplied exactly by 10^8, and NaN stays NaN |
| Transfers.ValueScale8 | src/api/transfers.ts:124-125 | raising the exponent by eight multiplies the value by 10^8 |
| Transfers.LargeAmountKept | src/api/transfers.ts:115-121 | an amount above one million is printed by `toString`: in the plain layout below 10^21, in exponent notation from 10^21, and either way reads back as the same number |
| Transfers.LargeAmountExponent | src/api/transfers.ts:118-120 | an amount of 10^21 is sent as "1e+21" |
| Transfers.PlainKept | src/api/transfers.ts:115-121 | a plain text above one million and below 10^21 is sent unchanged |
| Transfers.ScaledBelow | src/api/transfers.ts:123-128 | a scaled amount at or below 10^14 rounds to at most 10^17 + 1 thousandths |
| Transfers.PostedId | src/bot/commands/send.ts:397 | reading `id` throws exactly for a `null` or `undefined` body; an object prints its id, or "undefined" without one |
| Transfers.SmallAmountScaled | src/api/transfers.ts:123-128 | an amount at or below one million is printed as 10^8 times itself, rounded to three fraction digits, and reads back as that rounded value |
| Transfers.NotANumberAmount | src/api/transfers.ts:108-110 | a text that is not a number is not converted: the amount sent is "NaN" |
| Transfers.ConvertTwice | src/api/transfers.ts:104-134 | converting twice equals converting once when the first result lands above the threshold |
| Transfers.ThousandthsAbove | src/api/transfers.ts:117-118 | a count of thousandths above 10^9 is above the threshold |
| Transfers.ConvertTwiceNearThreshold | src/api/transfers.ts:117-128 | just above 0.01 the first result is exactly one million, which is not above the threshold, so a second conversion multiplies it again |
| Transfers.FirstConversionNearThreshold | src/api/transfers.ts:123-128 | 0.010000000001 is printed as one million |
| Transfers.SecondConversionNearThreshold | src/api/transfers.ts:117-128 | one million read back is multiplied again |
| Transfers.MillionScaled | src/api/transfers.ts:118 | an amount of exactly one million is not above the threshold, so it is multiplied by 10^8 |
| Transfers.MillionRounded | src/api/transfers.ts:125-128 | one million times 10^8 needs no rounding |
| Transfers.NormalizeMillion | src/api/transfers.ts:120 | 1000000.000 is one million in canonical form |
| Transfers.PlainTextConcat | src/api/transfers.ts:127-128 | text of digits, points and minus signs stays so when joined |
| Transfers.RenderIsPlain | src/api/transfers.ts:127-128 | a printed decimal has only digits, a point and a minus sign: no exponent notation |
| Transfers.PlainDecimalIsPlain | src/api/transfers.ts:127-128 | a whole part, a point and padded fraction digits have no exponent notation |
| Transfers.NoteField | src/api/transfers.ts:165 | the note is left out exactly when it is falsy, and is otherwise sent as given |
| Transfers.EmailRequestBody | src/api/transfers.ts:160-166 | the email body carries the recipient, the token as currency, the converted amount, purpose "self" and the note field |
| Transfers.WalletRequestBody | src/api/transfers.ts:234-240 | the wallet body carries the recipient as address, the token as currency, the converted amount, purpose "self" and the note field |
| Transfers.BodiesAgree | src/api/transfers.ts:160-166 | both bodies carry the same amount, currency, note and recipient, and an empty note is never sent |
| Transfers.ErrorMessagePrecedence | src/api/transfers.ts:191-206 | a string server message wins, even an empty one; without a response body the client's message is used, and without that the fixed text |
| Transfers.ErrorMessageEmpty | src/api/transfers.ts:191-206 | the message is empty only when the server sent an empty string message, or an error list that joins to nothing |
| Kyc.KycErrorMessage | src/api/kyc.ts:47-50 | an error without a response body gives the fixed "Failed to verify KYC status" text |
| Kyc.GetKycStatus | src/api/kyc.ts:9-59 | the summary is approved exactly when its status is "approved" |
| Kyc.KycStatusCases | src/api/kyc.ts:24-58 | the first record decides the status; an empty or missing list is "not_submitted"; any error is an unsuccessful "error"; only a fetched first record with status "approved" approves |
| Kyc.CoinId | src/api/kyc.ts:74-94 | a mapped symbol, in any ASCII letter case, gets its CoinGecko id, and any other currency its lower-case self |
| Kyc.CoinIdIgnoresCase | src/api/kyc.ts:94 | two currencies equal up to ASCII letter case get the same id |
| Kyc.StablecoinIds | src/api/kyc.ts:77-78 | "usdc" maps to "usd-coin" and "USDT" to "tether" |
| Kyc.RoundTo | src/api/kyc.ts:217-219 | rounding a figure that is not negative gives a figure that is not negative |
| Kyc.Rounded | src/api/kyc.ts:217-219 | rounding to a unit keeps a figure that is not negative so |
| Kyc.HalfUp | src/api/kyc.ts:217-219 | half-up rounding keeps a figure that is not negative so |
| Kyc.NonNegativeProduct | src/api/kyc.ts:217 | the product of two figures that are not negative is not negative |
| Kyc.RoundToNearest | src/api/kyc.ts:217-219 | rounding to some places moves a figure by at most half a unit of the last place |
| Kyc.HalfUpNearest | src/api/kyc.ts:217-219 | half-up rounding to a unit moves a figure by at most half that unit |
| Kyc.DivBounds | src/api/kyc.ts:217-219 | scaling back a rounded multiple keeps it within half a unit |
| Kyc.PositiveFactor | src/api/kyc.ts:219 | a positive multiple of a positive scale has a positive factor |
| Kyc.NonNegativeFactor | src/api/kyc.ts:219 | a multiple of a positive scale that is not negative has a factor that is not negative |
| Kyc.RoundHundredths | src/api/kyc.ts:218 | a whole number of cents is its own rounding to two places |
| Kyc.UsdPrice | src/api/kyc.ts:104-111 | the USD price used is never zero |
| Kyc.PricedEstimate | src/api/kyc.ts:135-209 | the priced path gives a priced estimate |
| Kyc.FallbackEstimate | src/api/kyc.ts:210-250 | the catch path gives an estimate marked as estimated |
| Kyc.FeeEstimateFor | src/api/kyc.ts:69-250 | the estimate is the fallback exactly when the price request failed |
| Kyc.PricedFeeFormula | src/api/kyc.ts:135-161 | the fee is $2 plus 1.5% of the USD value, the receive amount is the USD value less the fee, and the amounts in the currency are the same sums at the USD price |
| Kyc.PricedReceiveNotClamped | src/api/kyc.ts:157-158 | nothing clamps the priced receive amount: it is negative exactly when 98.5% of the USD value is below $2 |
| Kyc.OneDollarGoesNegative | src/api/kyc.ts:157 | a one-dollar withdrawal is offered a negative receive amount |
| Kyc.FallbackReceiveNonNegative | src/api/kyc.ts:214-219 | the fallback never offers a negative receive amount, and its total is $2 plus the rounded processing fee |
| Kyc.FallbackProcessingFeeNear | src/api/kyc.ts:217 | the fallback's processing fee is 1.5% of the amount, to the cent |
| Kyc.InrInfoGated | src/api/kyc.ts:181-186 | INR details are attached, on either path, exactly for a country that lower-cases to "ind" or "india" |
| Kyc.IndianCountryNames | src/api/kyc.ts:181 | "IND" and "India" count as Indian, "IN" and a missing country do not |
| Kyc.PriceDefaults | src/api/kyc.ts:104-133 | quoted prices are used when truthy; without a quote the USD price is 1; without a truthy INR price, or after a failed second request, the rate is 83 |
| Kyc.GetWithdrawalFeeEstimate | src/api/kyc.ts:136 | an amount that `parseFloat` reads as NaN or an infinity gives no estimate here; otherwise the estimate is the one for the number read |
| Format.FormatAmount | src/utils/format.ts:7-15 | anything that is not a number gives "0.00"; otherwise the call throws exactly when the digit count is outside 0 to 100 |
| Format.FormatAmount2 | src/utils/format.ts:7 | with the default of two decimals the call never throws |
| Format.NaNAmountIsZero | src/utils/format.ts:10-12 | a NaN gives "0.00", whatever digit count is asked for |
| Format.FormatAmountRounds | src/utils/format.ts:14 | a finite amount comes out as its value rounded half away from zero to the digit count, and the text reads back as exactly that number |
| Format.FiniteAmountFixed | src/utils/format.ts:14 | a finite amount is printed by `toFixed` |
| Format.TruncateAddress | src/utils/format.ts:41-57 | the empty address stays empty, a short one is kept, and a long one becomes its first characters, "..." and its last characters |
| Format.TruncateKeepsEnds | src/utils/format.ts:54-56 | a shortened address starts with the address's first characters, ends with its last ones, and has "..." between them |
| Format.Escape | src/utils/format.ts:64-84 | escaping grows the text by one backslash per special character |
| Format.ReplaceAll | src/utils/format.ts:66 | a global replace grows the text by one backslash per occurrence |
| Format.EscapeConcat | src/utils/format.ts:64-84 | escaping two texts joined is escaping each |
| Format.EscapeNothing | src/utils/format.ts:64-84 | escaping no characters changes nothing |
| Format.EscapeOneMore | src/utils/format.ts:66-83 | one more replace, of a character neither escaped before nor a backslash, gives the escape of all the characters so far: no inserted backslash is matched again |
| Format.CharSet | src/utils/format.ts:66-83 | the set holds exactly the listed characters |
| Format.ReplaceEachIsEscape | src/utils/format.ts:66-83 | the chain of replaces over distinct characters, none a backslash, is the per-character escape of all of them |
| Format.ReplaceEachPerChar | src/utils/format.ts:66-83 | the chain applied to raw text is the per-character escape |
| Format.SpecialsDistinct | src/utils/format.ts:66-83 | the 18 characters are distinct and none is a backslash |
| Format.EscapeMarkdownPerChar | src/utils/format.ts:64-84 | `escapeMarkdown` puts one backslash before each of the 18 special characters and keeps every other character, so the output is the input's length plus the count of special characters |
| NetworkUtils.NetworkById | src/utils/networks.ts:4-11 | every network name in the id table is non-empty |
| NetworkUtils.IdByName | src/utils/networks.ts:14-21 | every id in the name table is non-empty |
| NetworkUtils.IdsHaveNames | src/utils/networks.ts:4-21 | every id the name table hands out has a name in the id table |
| NetworkUtils.GetNetworkName | src/utils/networks.ts:28-30 | a known id gives its table name, anything else its upper-case self |
| NetworkUtils.GetNetworkId | src/utils/networks.ts:37-40 | a name known in lower case gives its id, anything else itself |
| NetworkUtils.NetworkIdIgnoresCase | src/utils/networks.ts:38-39 | a known name gets the same id in any letter case |
| NetworkUtils.FormatNetworkForDisplay | src/utils/networks.ts:47-51 | an id shows as its table name |
| NetworkUtils.DisplayOfNonId | src/utils/networks.ts:53-61 | anything that is not an id shows capitalized with the rest lower-cased, so the known-name branch gives the same text as the fallback, and the length is kept |
| NetworkUtils.IdIsNoName | src/utils/networks.ts:4-21 | no string is both an id and, lower-cased, a name |
| NetworkUtils.NameStartsWithLetter | src/utils/networks.ts:14-21 | every name in the name table starts with a lower-case letter |
| NetworkUtils.NamedKey | src/utils/networks.ts:4-21 | each name in the name table other than "bnb" capitalizes to the name its id has |
| NetworkUtils.Capitalized | src/utils/networks.ts:66-68 | a lower-case word capitalizes to its first letter upper-cased |
| NetworkUtils.DisplayMatchesIdName | src/utils/networks.ts:47-61 | a known name other than "bnb" shows as the table name of its id |
| NetworkUtils.BnbShownDifferently | src/utils/networks.ts:47-61 | "bnb" shows as "Bnb" while its id is named "BNB Chain" |
| NetworkNames.NameFor | src/constants/networks/index.ts:5-18 | every name in the display table is non-empty |
| NetworkNames.IdFor | src/constants/networks/index.ts:21-28 | every id in the id table is non-empty |
| NetworkNames.IdsNamedAlike | src/constants/networks/index.ts:5-28 | the two tables agree: a network name and its id have the same display name |
| NetworkNames.FormatNetworkForDisplay | src/constants/networks/index.ts:35-63 | an input that is a key of the display table, exactly as given, shows as that table entry |
| NetworkNames.LongNamesRedundant | src/constants/networks/index.ts:45-56 | "ethereum", "arbitrum" and "optimism" contain "eth", "arb" and "opt", so the long names in the rules never decide anything |
| NetworkNames.EthWins | src/constants/networks/index.ts:45-47 | outside the table, anything containing "eth" in any letter case shows as Ethereum |
| NetworkNames.CapitalizedNameUsesRules | src/constants/networks/index.ts:40-47 | the table lookup is case-sensitive: "Ethereum" is not a key, but the substring rules still show it as Ethereum |
| NetworkNames.FallbackKeepsRest | src/constants/networks/index.ts:61-62 | an input that no rule matches keeps its length and every character but the first, which is upper-cased |
| NetworkNames.DisplayRange | src/constants/networks/index.ts:35-63 | the result is a table name, one of the five rule names, or the input with its first character upper-cased |
| NetworkNames.GetNetworkId | src/constants/networks/index.ts:70-73 | a name known in lower case gives its id, anything else itself |
| NetworkNames.NetworkIdIgnoresCase | src/constants/networks/index.ts:71-72 | a known name gets the same id in any letter case |
| NetworkNames.GetSupportedNetworks | src/constants/networks/index.ts:79-87 | five entries, each id taken from the id table under its key, each named as the display table names that id, and no id repeated |
| Icons.GetNetworkIcon | src/constants/icons/index.ts:56-67 | the icon is one of the six network icons or the generic network icon |
| Icons.FirstKeywordDecides | src/constants/icons/index.ts:59-64 | a keyword decides the icon exactly when the lower-cased name contains it and none of the keywords tried before it |
| Icons.DefaultIcon | src/constants/icons/index.ts:66 | the generic icon is given exactly when no keyword occurs |
| Icons.IconIgnoresCase | src/constants/icons/index.ts:57 | the icon does not depend on the letter case of the name |
| Icons.FormatNetworkIcon | src/constants/index.ts:14-25 | the copy with its own emoji literals gives the same icon as `getNetworkIcon` for every name |
| Theme.Starred | src/utils/theme.ts:66-72 | a header is the decorator and the text between two asterisks, with nothing else |
| Theme.Flagged | src/utils/theme.ts:74-84 | a verdict is the indicator, then the text between two asterisks |
| Theme.FormatHeader | src/constants/themes/default.ts:36-38 | a header has the starred shape with the header decorator |
| Theme.FormatSubheader | src/constants/themes/default.ts:40-42 | a subheader has the starred shape with the subheader decorator |
| Theme.FormatSuccess | src/constants/themes/default.ts:44-46 | a success has the flagged shape with the tick indicator |
| Theme.FormatError | src/constants/themes/default.ts:48-50 | an error has the flagged shape with the cross |
| Theme.FormatWarning | src/constants/themes/default.ts:52-54 | a warning has the flagged shape with the warning sign |
| Theme.FormatInfo | src/constants/themes/default.ts:56-58 | an info line is the info indicator followed by the text unchanged |
| Theme.FormatLoading | src/constants/themes/default.ts:60-62 | a loading line is the loading indicator followed by the text unchanged |
| Theme.DecoratorsInjective | src/utils/theme.ts:66-92 | each decorator keeps the text recoverable: equal decorated texts mean equal texts |
| Theme.VerdictsDistinct | src/utils/theme.ts:74-84 | a success, an error and a warning can never look the same, whatever their texts |
| Theme.FormatAmountBare | src/constants/themes/default.ts:64-69 | without a symbol the trim removes the trailing space, leaving `*amount*` |
| Theme.FormatAmountWithSymbol | src/utils/theme.ts:94-96 | a symbol that does not end in white space keeps its space: `*amount* symbol` |
| Theme.FormatNetworkIcon | src/utils/theme.ts:98-107 | the theme's copy of the icon rule agrees with `getNetworkIcon` for every name |
| Keyboards.Callbacks | src/bot/keyboards.ts:5-138 | the callback data of an empty keyboard is empty |
| Keyboards.RowCallbacks | src/bot/keyboards.ts:5-138 | a row's callback data lists each button's data in order |
| Keyboards.Slice | src/bot/keyboards.ts:74 | `slice` keeps the run between the bounds when it is in range, and is never longer than the distance between them |
| Keyboards.MainMenuKeyboard | src/bot/keyboards.ts:6-16 | seven rows of one button each |
| Keyboards.MainMenuCallbacksDistinct | src/bot/keyboards.ts:8-14 | no two main-menu buttons send the same callback |
| Keyboards.BackButtonKeyboard | src/bot/keyboards.ts:19-23 | one Back button whose action defaults to the main menu |
| Keyboards.ConfirmationKeyboard | src/bot/keyboards.ts:26-36 | one row, Confirm then Cancel, sending the two given actions in that order |
| Keyboards.PageOf | src/bot/keyboards.ts:71-74 | a page holds at most five networks |
| Keyboards.PaginationButtons | src/bot/keyboards.ts:84-102 | no controls for five networks or fewer, and never more than two |
| Keyboards.PaginatedNetworksKeyboard | src/bot/keyboards.ts:70-108 | a row per network of the page, then the controls row when it is not empty, then Back to Balance |
| Keyboards.PaginationControls | src/bot/keyboards.ts:87-97 | with more than five networks, Previous is shown exactly after the first page and Next exactly when networks remain after this page |
| Keyboards.PagesCoverList | src/bot/keyboards.ts:71-74 | the pages cut the list into consecutive runs of five: network k is entry k mod 5 of page k div 5 |
| Keyboards.NextPageNonEmpty | src/bot/keyboards.ts:93-97 | Next never leads to an empty page |
| Keyboards.NetworkTokensKeyboard | src/bot/keyboards.ts:111-123 | a row per balance as given, showing the token and its formatted balance (`undefined` when missing), then Back to Networks |
| Keyboards.WalletsKeyboard | src/bot/keyboards.ts:126-138 | a row per wallet, sending the action and the wallet id, then Back to Wallet Settings |
| Keyboards.DefaultMarked | src/bot/keyboards.ts:129 | a wallet's label is its network's display name, followed by " (Default)" exactly when it is the default wallet |
| KeyboardIndex.WalletsKeyboard | src/bot/keyboards/index.ts:45-61 | a row per wallet with the upper-cased network, marked when default, then Back to the main menu |
| KeyboardIndex.NetworksKeyboard | src/bot/keyboards/index.ts:69-85 | a row per distinct network in order of first appearance, then Back to the main menu |
| KeyboardIndex.NetworksKeyboardRows | src/bot/keyboards/index.ts:71 | every balance's network has a row, every row belongs to a balance, and no network has two rows |
| KeyboardIndex.ConfirmationKeyboard | src/bot/keyboards/index.ts:93-103 | the same keyboard as the other confirmation builder, with the cancel action defaulting to the main menu |
| KeyboardIndex.CancelDefaultsToMainMenu | src/bot/keyboards/index.ts:95 | without a cancel action, Cancel returns to the main menu |
| KeyboardIndex.TotalPages | src/bot/keyboards/index.ts:163 | the page count is the least number of four-network pages that holds every network |
| KeyboardIndex.PageItems | src/bot/keyboards/index.ts:164-166 | a page holds at most four networks, and is not empty when it starts inside the list |
| KeyboardIndex.PaginatedNetworksKeyboard | src/bot/keyboards/index.ts:161-197 | a row per network of the page, the pagination row when there is more than one page, then Back to Balance |
| KeyboardIndex.PagedIffMoreThanAPage | src/bot/keyboards/index.ts:174 | the pagination row is there exactly for more than four networks |
| KeyboardIndex.NextIffMoreNetworks | src/bot/keyboards/index.ts:185-189 | Next is offered exactly when the next page has networks on it |
| KeyboardIndex.PaginationRowShape | src/bot/keyboards/index.ts:173-191 | Prev exactly after the first page, Next exactly before the last, and always the page indicator between them |
| KeyboardIndex.NetworkTokensKeyboard | src/bot/keyboards/index.ts:205-220 | a row per balance on the chosen network, in order, then Back to Networks |
| KeyboardIndex.TokenRowsOnNetwork | src/bot/keyboards/index.ts:206-213 | every token row belongs to a balance on the chosen network, and every such balance has a row |
| Common.OnNetwork | src/bot/keyboards/index.ts:206 | the filter keeps exactly the balances on the network, and never adds any |
| Common.NetworksOf | src/bot/keyboards/index.ts:71 | the map gives each balance's network, position by position |
| Sorting.Insert | src/bot/commands/history.ts:56-58 | inserting adds exactly the one element |
| Sorting.SortDesc | src/bot/commands/history.ts:56-58 | the sort rearranges its input: same length, same elements with the same multiplicities |
| Sorting.InsertSorted | src/bot/commands/history.ts:56-58 | inserting into a descending list keeps it descending |
| Sorting.InsertMembers | src/bot/commands/history.ts:56-58 | inserting brings in nothing but the inserted element |
| Sorting.SortDescSorted | src/bot/commands/history.ts:56-58 | the result is in descending order of the key |
| Sorting.WithKey | src/bot/commands/history.ts:56-58 | the elements picked for a key are elements of the list that have that key |
| Sorting.WithKeyConcat | src/bot/commands/history.ts:56-58 | picking the elements of one key commutes with joining lists |
| Sorting.WithKeyNone | src/bot/commands/history.ts:56-58 | a list whose keys are all below k has no element with key k |
| Sorting.InsertWithKey | src/bot/commands/history.ts:56-58 | inserting into a sorted list puts the new element after those that share its key |
| Sorting.SortDescStable | src/bot/commands/history.ts:56-58 | the sort is stable: elements with equal keys keep their order from the input |
| Sorting.DistinctOnce | src/bot/commands/balance.ts:57 | a list without repetitions holds every element at most once |
| Sorting.PermutationDistinct | src/bot/commands/balance.ts:57 | a rearrangement of a list without repetitions has none either |
| History.ExtractTransfers | src/bot/commands/history.ts:32-39 | the transfers are `data` when it is an array, `data.items` when that is an array, and none otherwise |
| History.SortedTransfers | src/bot/commands/history.ts:56-58 | the sorted copy is a rearrangement of the transfers |
| History.RecentTransfers | src/bot/commands/history.ts:61 | the shown list is the first ten of the sorted transfers, or all of them when there are fewer |
| History.NewestShown | src/bot/commands/history.ts:56-61 | the shown transfers are newest first, none is older than one left out, and transfers made at the same moment keep their order from the response |
| History.ToLineNamesRecipient | src/bot/commands/history.ts:74-80 | a `To:` line is written exactly when the transfer type has its recipient object, and the line names that recipient |
| History.UpperFirstKeepsRest | src/bot/commands/history.ts:66-67 | the type and status keep their length and everything after the first letter, which is upper-cased |
| History.Footer | src/bot/commands/history.ts:85-87 | the closing line is there exactly when more than ten transfers came back |
| History.BuildHistoryMessage | src/bot/commands/history.ts:53-87 | the message built by appending is the header, one row per shown transfer in order, then the footer |
| History.AppendRows | src/bot/commands/history.ts:63-83 | the `forEach` appends the numbered rows of every shown transfer, in order |
| History.HistoryReplies | src/bot/commands/history.ts:20-101 | there are always three replies: the fetching notice first and the way back to the main menu last |
| History.HistoryOutcomes | src/bot/commands/history.ts:41-100 | the middle reply is the "No transactions" notice exactly when the request succeeded with no transfers, the failure notice with the error message when it failed, and otherwise the history |
| BalanceView.GroupsOf | src/bot/commands/balance.ts:44-52 | the dictionary has exactly the networks of the balances as keys, and each holds that network's balances in list order |
| BalanceView.OnNetworkSnoc | src/bot/commands/balance.ts:46-52 | one more balance joins only its own network's group, at the end |
| BalanceView.GroupByNetwork | src/bot/commands/balance.ts:44-52 | the `forEach` builds that dictionary, and its keys are created in order of the networks' first appearance |
| BalanceView.NetworksOfSnoc | src/bot/commands/balance.ts:46-52 | one more balance adds its network at the end of the network list |
| BalanceView.OnNetworkAbsent | src/bot/commands/balance.ts:47-49 | a network no balance is on has an empty group |
| BalanceView.GroupsOfSnoc | src/bot/commands/balance.ts:47-51 | one more balance creates its group when missing and appends itself to it, leaving every other group as it was |
| BalanceView.KeysOfKind | src/bot/commands/balance.ts:57 | the keys picked are exactly the keys of the list that are, or are not, array indices |
| BalanceView.KeysOfKindSplit | src/bot/commands/balance.ts:57 | the index keys and the other keys together are all the keys |
| BalanceView.EntryOrder | src/bot/commands/balance.ts:57 | the `Object.entries` order is a rearrangement of the creation order |
| BalanceView.EntryOrderSpec | src/bot/commands/balance.ts:57 | in the `Object.entries` order the array-index keys come first and in ascending numeric value, and the other keys follow in creation order |
| BalanceView.KeysOfKindConcat | src/bot/commands/balance.ts:57 | picking keys of one kind commutes with joining lists |
| BalanceView.KeysOfKindNone | src/bot/commands/balance.ts:57 | a list of index keys has no other keys |
| BalanceView.KeysOfKindAll | src/bot/commands/balance.ts:57 | a list with no index keys is all other keys |
| BalanceView.Entries | src/bot/commands/balance.ts:57 | one entry per key, in the entries order |
| BalanceView.AppendGroups | src/bot/commands/balance.ts:57-66 | the outer `forEach` appends, per entry, the upper-case network heading, its token lines and a blank line |
| BalanceView.AppendLines | src/bot/commands/balance.ts:60-63 | the inner `forEach` appends a `token: amount` line per balance of the group, in order |
| BalanceView.BuildBalanceMessage | src/bot/commands/balance.ts:55-66 | the message built by appending is the header followed by every group's text in the entries order |
| BalanceView.CountOnSnoc | src/bot/commands/balance.ts:44-52 | one more balance adds one to the balances on the listed networks when its network is listed, none otherwise |
| BalanceView.CountOnCover | src/bot/commands/balance.ts:44-52 | when every balance's network is listed once, the groups hold all the balances |
| BalanceView.CountOnEmpty | src/bot/commands/balance.ts:44-52 | no balances give empty groups |
| BalanceView.FlattenEntries | src/bot/commands/balance.ts:57-66 | the entries hold as many balances as the groups of their keys |
| BalanceView.EntryKeys | src/bot/commands/balance.ts:44-57 | each network is listed once in the entries, every balance's network is among them, and nothing else is |
| BalanceView.EntriesOfBalances | src/bot/commands/balance.ts:57 | entry i is key i of the entries order paired with that network's balances |
| BalanceView.TokenLinePerBalance | src/bot/commands/balance.ts:57-66 | the message has one token line per fetched balance: none lost, none repeated |
| BalanceView.GroupsNonEmpty | src/bot/commands/balance.ts:57-66 | every group shown has at least one token line, and every balance in it is on that group's network |
| BalanceView.BalanceReplies | src/bot/commands/balance.ts:20-80 | there are always three replies: the fetching notice first and the way back to the main menu last |
| BalanceView.BalanceOutcomes | src/bot/commands/balance.ts:32-79 | the middle reply is the "No balances" notice exactly for a missing or empty list, the failure notice with the error message when the request failed, and otherwise the overview |

## Left out

- HTTP calls to the CopperX API, CoinGecko prices, the Redis session store and the Pusher notification service: their results are parameters of the handlers (success with data, or failure with a message), and the session store is the `Sessions.Session` object itself.
- The error shaping of `src/api/auth.ts`, which depends on the shapes of axios errors and on `JSON.stringify`, is not part of this model; a failed call carries a message.
- The wallet-address library `WAValidator` is a parameter returning a verdict or an error.
- Floating point: values are exact decimals and reals, so the binary rounding of `parseFloat`, of `*` and of `+` is not modelled; `toFixed` and `toLocaleString('fullwide')` are modelled exactly on decimals below 10^21, and `toString` exactly on every finite decimal, in both its plain layout and its exponent notation.
- "-0" is not modelled: a decimal zero has no sign.
- Dates: `createdAt` is an integer timestamp, `toLocaleDateString` is a parameter of the history rows, and `formatDate` of `src/utils/format.ts` is left out.
- The wording of replies: replies of the step machines are prompt tags; the history, balance and menu texts are kept as text.
- Object keys inherited from `Object.prototype` (a `tempData` key or network named `constructor`) are not modelled: maps have only their own keys.
- Static commands (`/start`, `/help`, `/profile`) and the fixed menus `balanceMenuKeyboard`, `walletSettingsKeyboard` and `sendMenuKeyboard` only emit constant text and buttons.
- `withdrawToBank`, `sendBatchTransfers` and `getTransferHistory` are HTTP requests; only the request bodies and error texts of the transfer client are modelled.
- Logging, process lifecycle, configuration and the wiring and launch of the bot are left out; `answerCbQuery` is an event.
- Concurrency: two messages of one user are never handled at the same time in the model.
- Strings.ToLower: maps only the ASCII letters, because the full Unicode case tables are data, not logic of the bot. JavaScript maps every cased letter, so the model differs on non-ASCII input. For example, "s\u212Aip" (with the Kelvin sign) lower-cases to "skip", so src/bot/commands/send.ts:305 treats it as a skip and the model does not. The same applies to the other lower-cased lookups: the network tables, icons and theme at src/utils/networks.ts:38,54,67, src/constants/networks/index.ts:37,71, src/constants/index.ts:15, src/constants/icons/index.ts:57 and src/utils/theme.ts:99; the country test at src/api/kyc.ts:181,227; and the domain comparisons at src/utils/validation.ts:19,177-200.
- Strings.ToUpper: maps only the ASCII letters, for the same reason. In JavaScript "u\u017Fdt" (with the long s) upper-cases to "USDT", so src/api/kyc.ts:94 picks the USDT coin id and the model does not. "ß" upper-cases to "SS", which changes the length of the upper-cased network names in the menus, buttons and headings: src/bot/commands/send.ts:122,177,327, src/bot/commands/withdraw.ts:63,238, src/bot/commands/balance.ts:58, src/bot/keyboards/index.ts:47,76,169 and src/utils/networks.ts:29.
- Strings.LowerAfterCaseChange, Strings.UpperAfterCaseChange, Icons.IconIgnoresCase, Strings.CapitalizeIgnoresCase, Send.SkipStoresNoNote, Kyc.CoinId, Kyc.CoinIdIgnoresCase: proved for the ASCII case mapping only, so the inputs named under Strings.ToLower and Strings.ToUpper fall outside them; under the full Unicode mapping "ß" upper-cases to "SS" and lower-cases back to "ss", so they do not carry over.
- Format.TruncateAddress, EditDistance.Distance: count and index Unicode scalar values, while JavaScript counts UTF-16 code units; the two agree on every text without characters beyond the Basic Multilingual Plane.
- Kyc.GetWithdrawalFeeEstimate: the figures are exact reals, not the texts `toFixed(2)` and `toFixed(6)` make of them in the returned object, because no handler of the bot reads them. An amount `parseFloat` reads as NaN, "Infinity" or "-Infinity" gives None: JavaScript returns texts such as "NaN" and "Infinity" there, which the model does not produce.

## Findings

| source | as written | input that shows it | evidently intended | confidence | as-written member | corrected member |
|---|---|---|---|---|---|---|
| src/utils/validation.ts:154-207 | the common domains are tried in order, and `gmail.com`, tried first, is one edit away from `mail.com`, so an address at `mail.com` gets a suggestion although `mail.com` is itself in the list | `user@mail.com` | an address at a listed domain has no typo | not executed | Validation.MailComFlagged | Validation.KnownDomainNotFlagged |
