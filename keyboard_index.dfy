/** The inline keyboards of `src/bot/keyboards/index.ts`, a second set of
  * builders with four networks per page and a page indicator. */
module KeyboardIndex {
  import opened Common
  import opened Strings
  import opened Numbers
  import opened Keyboards

  const BackToMainMenu := Button("\U{2B05}\U{FE0F} Back", "main_menu")

  /** `walletsKeyboard(wallets, actionPrefix)`: the upper-cased network,
    * marked when default, and a final row back to the main menu. */
  function WalletsKeyboard(wallets: seq<Wallet>, actionPrefix: string): (kb: Keyboard)
    ensures |kb| == |wallets| + 1 && kb[|kb| - 1] == [BackToMainMenu]
    ensures forall i :: 0 <= i < |wallets| ==>
              kb[i] == [Button(ToUpper(wallets[i].network) + (if wallets[i].isDefault then " (Default)" else ""),
                               actionPrefix + "_" + wallets[i].id)]
  {
    seq(|wallets|, i requires 0 <= i < |wallets| =>
      [Button(ToUpper(wallets[i].network) + (if wallets[i].isDefault then " (Default)" else ""),
              actionPrefix + "_" + wallets[i].id)])
    + [[BackToMainMenu]]
  }

  /** `networksKeyboard(balances, actionPrefix)`: a row per distinct network
    * in order of first appearance, then the way back. */
  function NetworksKeyboard(balances: seq<Balance>, actionPrefix: string): (kb: Keyboard)
    ensures var networks := Dedup(NetworksOf(balances));
            && |kb| == |networks| + 1 && kb[|kb| - 1] == [BackToMainMenu]
            && forall i :: 0 <= i < |networks| ==> kb[i] == [Button(ToUpper(networks[i]), actionPrefix + "_" + networks[i])]
  {
    var networks := Dedup(NetworksOf(balances));
    seq(|networks|, i requires 0 <= i < |networks| => [Button(ToUpper(networks[i]), actionPrefix + "_" + networks[i])])
    + [[BackToMainMenu]]
  }

  /** Every balance's network has exactly one row, and every row belongs
    * to a balance (the order of first appearance is `DedupSpec`). */
  lemma NetworksKeyboardRows(balances: seq<Balance>, actionPrefix: string)
    ensures var networks := Dedup(NetworksOf(balances));
            && (forall b :: b in balances ==> b.network in networks)
            && (forall n :: n in networks ==> exists b :: b in balances && b.network == n)
            && (forall i, j :: 0 <= i < j < |networks| ==> networks[i] != networks[j])
  {
    var names := NetworksOf(balances);
    DedupSpec(names);
    forall b | b in balances
      ensures b.network in Dedup(names)
    {
      var k :| 0 <= k < |balances| && balances[k] == b;
      assert names[k] == b.network;
    }
    forall n | n in Dedup(names)
      ensures exists b :: b in balances && b.network == n
    {
      var k :| 0 <= k < |names| && names[k] == n;
      assert balances[k] in balances;
    }
  }

  /** `confirmationKeyboard(confirmAction, cancelAction = 'main_menu')`. */
  function ConfirmationKeyboard(confirmAction: string, cancelAction: Option<string>): (kb: Keyboard)
    ensures kb == Keyboards.ConfirmationKeyboard(confirmAction, cancelAction.GetOr("main_menu"))
  {
    [[Button("\U{2705} Confirm", confirmAction),
      Button("\U{274C} Cancel", if cancelAction.Some? then cancelAction.value else "main_menu")]]
  }

  /** Without a cancel action the Cancel button returns to the main menu. */
  lemma CancelDefaultsToMainMenu(confirmAction: string)
    ensures Callbacks(ConfirmationKeyboard(confirmAction, None)) == [confirmAction, "main_menu"]
  {
  }

  const PageSize: nat := 4

  /** `Math.ceil(n / 4)`. */
  function TotalPages(n: nat): (pages: nat)
    ensures pages * PageSize >= n
    ensures n > 0 ==> (pages - 1) * PageSize < n
    ensures n == 0 ==> pages == 0
  {
    (n + PageSize - 1) / PageSize
  }

  /** `networks.slice(startIdx, Math.min(startIdx + 4, n))`. */
  function PageItems(networks: seq<string>, page: nat): (r: seq<string>)
    ensures |r| <= PageSize
    ensures page * PageSize < |networks| ==> |r| > 0
  {
    var startIdx := page * PageSize;
    var endIdx := if startIdx + PageSize < |networks| then startIdx + PageSize else |networks|;
    Slice(networks, startIdx, endIdx)
  }

  /** `page+1/totalPages`, a button that does nothing. */
  function Indicator(page: nat, totalPages: nat): Button
  {
    Button(NatToString(page + 1) + "/" + NatToString(totalPages), "noop")
  }

  const PrevText := "\U{2B05}\U{FE0F} Prev"
  const NextText := "Next \U{27A1}\U{FE0F}"

  /** The pagination row: Prev after the first page, the indicator, and
    * Next before the last page. */
  function PaginationRow(totalPages: nat, page: nat): (row: seq<Button>)
  {
    (if page > 0 then [Button(PrevText, "network_page_" + NatToString(page - 1))] else [])
    + [Indicator(page, totalPages)]
    + (if page + 1 < totalPages then [Button(NextText, "network_page_" + NatToString(page + 1))] else [])
  }

  /** `paginatedNetworksKeyboard(networks, page)`. */
  function PaginatedNetworksKeyboard(networks: seq<string>, page: nat): (kb: Keyboard)
    ensures var items := PageItems(networks, page);
            var paged := TotalPages(|networks|) > 1;
            && |kb| == |items| + (if paged then 1 else 0) + 1
            && (forall i :: 0 <= i < |items| ==> kb[i] == [Button(ToUpper(items[i]), "balance_network_" + items[i])])
            && (paged ==> kb[|items|] == PaginationRow(TotalPages(|networks|), page))
            && kb[|kb| - 1] == [BackToBalance]
  {
    var items := PageItems(networks, page);
    var totalPages := TotalPages(|networks|);
    var buttons := seq(|items|, i requires 0 <= i < |items| => [Button(ToUpper(items[i]), "balance_network_" + items[i])]);
    buttons + (if totalPages > 1 then [PaginationRow(totalPages, page)] else []) + [[BackToBalance]]
  }

  /** The pagination row is there exactly for more than four networks. */
  lemma PagedIffMoreThanAPage(n: nat)
    ensures TotalPages(n) > 1 <==> n > PageSize
  {
  }

  /** Next is offered exactly when the next page has networks on it. */
  lemma NextIffMoreNetworks(networks: seq<string>, page: nat)
    ensures page + 1 < TotalPages(|networks|) <==> PageItems(networks, page + 1) != []
  {
    var n := |networks|;
    var t := TotalPages(n);
    if page + 1 < t {
      assert (page + 1) * PageSize <= (t - 1) * PageSize;
    } else if n > 0 {
      assert (page + 1) * PageSize >= t * PageSize >= n;
      assert PageItems(networks, page + 1) == [];
    }
  }

  /** The row has Prev exactly after the first page, Next exactly before the
    * last, and always the indicator between them. */
  lemma PaginationRowShape(totalPages: nat, page: nat)
    ensures var row := PaginationRow(totalPages, page);
            && |row| == 1 + (if page > 0 then 1 else 0) + (if page + 1 < totalPages then 1 else 0)
            && row[if page > 0 then 1 else 0] == Indicator(page, totalPages)
            && (row[0].text == PrevText <==> page > 0)
            && (row[|row| - 1].text == NextText <==> page + 1 < totalPages)
  {
    var row := PaginationRow(totalPages, page);
    var indicator := Indicator(page, totalPages);
    assert indicator.text != PrevText && indicator.text != NextText by {
      assert '0' <= indicator.text[0] <= '9';
    }
  }

  /** `networkTokensKeyboard(balances, network)`: only the balances on that
    * network, labelled with the formatted balance when it is non-empty and
    * the raw balance otherwise. */
  function NetworkTokensKeyboard(balances: seq<Balance>, network: string): (kb: Keyboard)
    ensures var shown := OnNetwork(balances, network);
            && |kb| == |shown| + 1 && kb[|kb| - 1] == [BackToNetworks]
            && forall i :: 0 <= i < |shown| ==> kb[i] == [TokenButton(shown[i], network)]
  {
    var shown := OnNetwork(balances, network);
    seq(|shown|, i requires 0 <= i < |shown| => [TokenButton(shown[i], network)]) + [[BackToNetworks]]
  }

  /** `${token}: ${formattedBalance || balance}`. */
  function TokenButton(b: Balance, network: string): Button
  {
    var amount := if b.formattedBalance.Some? && b.formattedBalance.value != "" then b.formattedBalance.value else b.balance;
    Button(b.token + ": " + amount, "token_details_" + network + "_" + b.token)
  }

  /** Each token row belongs to a balance on the chosen network, and every
    * such balance has a row. */
  lemma TokenRowsOnNetwork(balances: seq<Balance>, network: string)
    ensures var kb := NetworkTokensKeyboard(balances, network);
            && (forall i :: 0 <= i < |kb| - 1 ==> exists b :: b in balances && b.network == network && kb[i] == [TokenButton(b, network)])
            && (forall b :: b in balances && b.network == network ==> [TokenButton(b, network)] in kb)
  {
    var kb := NetworkTokensKeyboard(balances, network);
    var shown := OnNetwork(balances, network);
    forall i | 0 <= i < |kb| - 1
      ensures exists b :: b in balances && b.network == network && kb[i] == [TokenButton(b, network)]
    {
      var b := shown[i];
      assert b in shown;
      assert b in balances && b.network == network && kb[i] == [TokenButton(b, network)];
    }
    forall b | b in balances && b.network == network
      ensures [TokenButton(b, network)] in kb
    {
      var k :| 0 <= k < |shown| && shown[k] == b;
      assert kb[k] == [TokenButton(b, network)];
    }
    assert forall i :: 0 <= i < |kb| - 1 ==> exists b :: b in balances && b.network == network && kb[i] == [TokenButton(b, network)];
  }
}
