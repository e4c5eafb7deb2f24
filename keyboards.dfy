/** The inline keyboards of `src/bot/keyboards.ts`, the module the command
  * files import. `Markup.inlineKeyboard` is the identity: a keyboard is its
  * rows of `(label, callback data)` buttons. */
module Keyboards {
  import opened Common
  import opened Numbers
  import NetworkUtils

  datatype Button = Button(text: string, data: string)

  type Keyboard = seq<seq<Button>>

  /** `Wallet` of `src/types/index.ts`, without its token list. */
  datatype Wallet = Wallet(id: string, address: string, network: string, isDefault: bool)

  /** The callback data of every button of a keyboard, row by row. */
  function Callbacks(kb: Keyboard): (r: seq<string>)
    ensures |kb| == 0 ==> r == []
  {
    if kb == [] then [] else RowCallbacks(kb[0]) + Callbacks(kb[1..])
  }

  function RowCallbacks(row: seq<Button>): (r: seq<string>)
    ensures |r| == |row| && forall i :: 0 <= i < |row| ==> r[i] == row[i].data
  {
    seq(|row|, i requires 0 <= i < |row| => row[i].data)
  }

  /** `Array.prototype.slice(start, end)` for non-negative bounds: both are
    * clipped to the length, and a start at or past the end gives []. */
  function Slice<T>(xs: seq<T>, start: nat, end: nat): (r: seq<T>)
    ensures start < end && end <= |xs| ==> r == xs[start..end]
    ensures |r| <= if end > start then end - start else 0
  {
    var s := if start < |xs| then start else |xs|;
    var e := if end < |xs| then end else |xs|;
    if s < e then xs[s..e] else []
  }

  /** `mainMenuKeyboard`. */
  function MainMenuKeyboard(): (kb: Keyboard)
    ensures |kb| == 7 && forall i :: 0 <= i < 7 ==> |kb[i]| == 1
  {
    [[Button("\U{1F4B0} Balance", "balance")],
     [Button("\U{1F4B8} Send", "send")],
     [Button("\U{1F4E5} Receive", "receive")],
     [Button("\U{1F4CA} History", "history")],
     [Button("\U{1F3E6} Withdraw", "withdraw")],
     [Button("\U{1F464} Profile", "profile")],
     [Button("\U{2753} Help", "help")]]
  }

  /** The seven menu callbacks are the seven features, no two alike. */
  lemma MainMenuCallbacksDistinct()
    ensures var kb := MainMenuKeyboard(); forall i, j :: 0 <= i < j < 7 ==> kb[i][0].data != kb[j][0].data
  {
  }

  const BackLabel := "\U{2B05}\U{FE0F} Back"

  /** `backButtonKeyboard(backAction = 'main_menu')`. */
  function BackButtonKeyboard(backAction: Option<string>): (kb: Keyboard)
    ensures kb == [[Button(BackLabel, backAction.GetOr("main_menu"))]]
  {
    [[Button(BackLabel, if backAction.Some? then backAction.value else "main_menu")]]
  }

  /** `confirmationKeyboard`: one row, Confirm then Cancel, with exactly the
    * two callbacks given. */
  function ConfirmationKeyboard(confirmAction: string, cancelAction: string): (kb: Keyboard)
    ensures |kb| == 1 && |kb[0]| == 2 && Callbacks(kb) == [confirmAction, cancelAction]
    ensures kb[0][0].text == "\U{2705} Confirm" && kb[0][1].text == "\U{274C} Cancel"
  {
    var kb := [[Button("\U{2705} Confirm", confirmAction), Button("\U{274C} Cancel", cancelAction)]];
    assert kb[1..] == [];
    kb
  }

  const NetworksPerPage: nat := 5
  const BackToBalance := Button("\U{2B05}\U{FE0F} Back to Balance", "balance")

  /** The networks page `page` lists. */
  function PageOf(networks: seq<string>, page: nat): (r: seq<string>)
    ensures |r| <= NetworksPerPage
  {
    Slice(networks, page * NetworksPerPage, page * NetworksPerPage + NetworksPerPage)
  }

  function NetworkButton(network: string): Button
  {
    Button(NetworkUtils.FormatNetworkForDisplay(network), "balance_network_" + network)
  }

  function PreviousButton(page: nat): Button
    requires page > 0
  {
    Button("\U{2B05}\U{FE0F} Previous", "network_page_" + NatToString(page - 1))
  }

  function NextButton(page: nat): Button
  {
    Button("\U{27A1}\U{FE0F} Next", "network_page_" + NatToString(page + 1))
  }

  /** The controls: Previous after the first page, Next while networks
    * remain beyond this page, and none at all for five networks or fewer. */
  function PaginationButtons(networks: seq<string>, page: nat): (row: seq<Button>)
    ensures |networks| <= NetworksPerPage ==> row == []
    ensures |row| <= 2
  {
    if |networks| > NetworksPerPage then
      (if page > 0 then [PreviousButton(page)] else [])
      + (if page * NetworksPerPage + NetworksPerPage < |networks| then [NextButton(page)] else [])
    else []
  }

  /** `paginatedNetworksKeyboard(networks, page)`: a row per network of the
    * page, the controls when there are any, and the way back. */
  function PaginatedNetworksKeyboard(networks: seq<string>, page: nat): (kb: Keyboard)
    ensures var items := PageOf(networks, page);
            var controls := PaginationButtons(networks, page);
            && |kb| == |items| + (if controls == [] then 0 else 1) + 1
            && (forall i :: 0 <= i < |items| ==> kb[i] == [NetworkButton(items[i])])
            && (controls != [] ==> kb[|items|] == controls)
            && kb[|kb| - 1] == [BackToBalance]
  {
    var items := PageOf(networks, page);
    var buttons := seq(|items|, i requires 0 <= i < |items| => [NetworkButton(items[i])]);
    var controls := PaginationButtons(networks, page);
    buttons + (if controls == [] then [] else [controls]) + [[BackToBalance]]
  }

  /** Previous is shown exactly after the first page and Next exactly when
    * networks remain after this page, given more than five networks. */
  lemma PaginationControls(networks: seq<string>, page: nat)
    requires |networks| > NetworksPerPage
    ensures var row := PaginationButtons(networks, page);
            && ((exists b :: b in row && b.text == "\U{2B05}\U{FE0F} Previous") <==> page > 0)
            && ((exists b :: b in row && b.text == "\U{27A1}\U{FE0F} Next") <==> (page + 1) * NetworksPerPage < |networks|)
  {
    var row := PaginationButtons(networks, page);
    assert "\U{2B05}\U{FE0F} Previous" != "\U{27A1}\U{FE0F} Next" by {
      assert "\U{2B05}\U{FE0F} Previous"[0] != "\U{27A1}\U{FE0F} Next"[0];
    }
    if page > 0 {
      assert PreviousButton(page) in row;
    }
    if (page + 1) * NetworksPerPage < |networks| {
      assert NextButton(page) in row;
    }
  }

  /** The pages cut the list into consecutive runs of five: network `k` is
    * entry `k % 5` of page `k / 5`. */
  lemma PagesCoverList(networks: seq<string>, k: nat)
    requires k < |networks|
    ensures var page := k / NetworksPerPage;
            k % NetworksPerPage < |PageOf(networks, page)| && PageOf(networks, page)[k % NetworksPerPage] == networks[k]
  {
    var page := k / NetworksPerPage;
    var start := page * NetworksPerPage;
    assert start <= k < start + NetworksPerPage;
    var end := if start + NetworksPerPage < |networks| then start + NetworksPerPage else |networks|;
    assert PageOf(networks, page) == networks[start..end];
    assert k - start == k % NetworksPerPage;
  }

  /** The Next button never leads to an empty page. */
  lemma NextPageNonEmpty(networks: seq<string>, page: nat)
    requires NextButton(page) in PaginationButtons(networks, page)
    ensures PageOf(networks, page + 1) != []
  {
    if page > 0 {
      assert PreviousButton(page).text[0] != NextButton(page).text[0];
    }
    assert (page + 1) * NetworksPerPage < |networks|;
    var start := (page + 1) * NetworksPerPage;
    assert networks[start..if start + NetworksPerPage < |networks| then start + NetworksPerPage else |networks|] != [];
  }

  /** The text `balance.formattedBalance` shows in a template literal. */
  function Shown(v: Option<string>): string
  {
    if v.Some? then v.value else "undefined"
  }

  const BackToNetworks := Button("\U{2B05}\U{FE0F} Back to Networks", "balance_networks")

  /** `networkTokensKeyboard(networkBalances, network)`: a row per balance as
    * given (no filtering here), then the way back to the networks. */
  function NetworkTokensKeyboard(networkBalances: seq<Balance>, network: string): (kb: Keyboard)
    ensures |kb| == |networkBalances| + 1 && kb[|kb| - 1] == [BackToNetworks]
    ensures forall i :: 0 <= i < |networkBalances| ==>
              kb[i] == [Button(networkBalances[i].token + " (" + Shown(networkBalances[i].formattedBalance) + ")",
                               "token_details_" + network + "_" + networkBalances[i].token)]
  {
    seq(|networkBalances|, i requires 0 <= i < |networkBalances| =>
      [Button(networkBalances[i].token + " (" + Shown(networkBalances[i].formattedBalance) + ")",
              "token_details_" + network + "_" + networkBalances[i].token)])
    + [[BackToNetworks]]
  }

  const BackToWalletSettings := Button("\U{2B05}\U{FE0F} Back to Wallet Settings", "wallet_settings")

  /** The label of a wallet: its network's display name, marked when it is
    * the default wallet. */
  function WalletLabel(w: Wallet): string
  {
    NetworkUtils.FormatNetworkForDisplay(w.network) + (if w.isDefault then " (Default)" else "")
  }

  /** `walletsKeyboard(wallets, action)`. */
  function WalletsKeyboard(wallets: seq<Wallet>, action: string): (kb: Keyboard)
    ensures |kb| == |wallets| + 1 && kb[|kb| - 1] == [BackToWalletSettings]
    ensures forall i :: 0 <= i < |wallets| ==> kb[i] == [Button(WalletLabel(wallets[i]), action + "_" + wallets[i].id)]
  {
    seq(|wallets|, i requires 0 <= i < |wallets| => [Button(WalletLabel(wallets[i]), action + "_" + wallets[i].id)])
    + [[BackToWalletSettings]]
  }

  /** The default marker appears exactly on default wallets: the label is
    * the display name, plus " (Default)" when and only when `isDefault`. */
  lemma DefaultMarked(w: Wallet)
    ensures var name := NetworkUtils.FormatNetworkForDisplay(w.network);
            |WalletLabel(w)| == |name| + (if w.isDefault then 10 else 0)
            && WalletLabel(w)[..|name|] == name
            && (w.isDefault ==> WalletLabel(w)[|name|..] == " (Default)")
  {
  }
}
