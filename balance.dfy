/** The balance overview of `src/bot/commands/balance.ts`: the balances are
  * grouped by network in a dictionary and written out group by group, in
  * the order `Object.entries` gives the dictionary's keys. */
module BalanceView {
  import opened Common
  import opened Strings
  import opened Numbers
  import opened Sorting
  import Format
  import Keyboards

  /** What the grouping produces: each network of the list, with its
    * balances in list order. */
  function GroupsOf(balances: seq<Balance>): (groups: map<string, seq<Balance>>)
    ensures forall n :: n in groups <==> n in NetworksOf(balances)
    ensures forall n :: n in groups ==> groups[n] == OnNetwork(balances, n)
  {
    map n | n in NetworksOf(balances) :: OnNetwork(balances, n)
  }

  lemma {:induction false} OnNetworkSnoc(bs: seq<Balance>, b: Balance, n: string)
    ensures OnNetwork(bs + [b], n) == OnNetwork(bs, n) + (if b.network == n then [b] else [])
  {
    if bs != [] {
      assert (bs + [b])[1..] == bs[1..] + [b];
      OnNetworkSnoc(bs[1..], b, n);
    } else {
      assert bs + [b] == [b];
    }
  }

  /** The `forEach` that fills `balancesByNetwork`: `groups` is the
    * dictionary and `order` the order in which its keys were created. */
  method GroupByNetwork(balances: seq<Balance>) returns (groups: map<string, seq<Balance>>, order: seq<string>)
    ensures groups == GroupsOf(balances)
    ensures order == Dedup(NetworksOf(balances))
  {
    groups := map[];
    order := [];
    assert balances[..0] == [];
    assert GroupsOf([]) == map[];
    for i := 0 to |balances|
      invariant groups == GroupsOf(balances[..i])
      invariant order == Dedup(NetworksOf(balances[..i]))
    {
      var b := balances[i];
      assert balances[..i + 1] == balances[..i] + [b];
      GroupsOfSnoc(balances[..i], b);
      NetworksOfSnoc(balances[..i], b);
      DedupSnoc(NetworksOf(balances[..i]), b.network);
      var group := if b.network in groups then groups[b.network] else [];
      if b.network !in groups {
        order := order + [b.network];
      }
      groups := groups[b.network := group + [b]];
    }
    assert balances[..|balances|] == balances;
  }

  lemma NetworksOfSnoc(bs: seq<Balance>, b: Balance)
    ensures NetworksOf(bs + [b]) == NetworksOf(bs) + [b.network]
  {
  }

  lemma {:induction false} OnNetworkAbsent(bs: seq<Balance>, n: string)
    requires forall k :: 0 <= k < |bs| ==> bs[k].network != n
    ensures OnNetwork(bs, n) == []
  {
    if bs != [] {
      OnNetworkAbsent(bs[1..], n);
    }
  }

  /** One more balance joins the group of its network, which is created
    * when it is the first balance there. */
  lemma GroupsOfSnoc(bs: seq<Balance>, b: Balance)
    ensures var groups := GroupsOf(bs);
            GroupsOf(bs + [b]) == groups[b.network := (if b.network in groups then groups[b.network] else []) + [b]]
  {
    var groups := GroupsOf(bs);
    var after := GroupsOf(bs + [b]);
    var expected := groups[b.network := (if b.network in groups then groups[b.network] else []) + [b]];
    NetworksOfSnoc(bs, b);
    if b.network !in groups {
      forall k | 0 <= k < |bs|
        ensures bs[k].network != b.network
      {
        assert NetworksOf(bs)[k] == bs[k].network;
      }
      OnNetworkAbsent(bs, b.network);
    }
    forall n | n in after
      ensures n in expected && after[n] == expected[n]
    {
      OnNetworkSnoc(bs, b, n);
    }
    assert after.Keys == expected.Keys;
  }

  const MaxArrayIndex: nat := 0xFFFF_FFFF

  /** A key JavaScript treats as an array index: the canonical decimal
    * form of a number below 2^32 - 1. */
  predicate IsArrayIndex(key: string)
  {
    |key| > 0 && AllDigits(key) && (key[0] == '0' ==> key == "0") && DigitsValue(key) < MaxArrayIndex
  }

  /** The keys of one kind, in their order. */
  function KeysOfKind(keys: seq<string>, index: bool): (r: seq<string>)
    ensures forall k :: k in r <==> k in keys && IsArrayIndex(k) == index
  {
    if keys == [] then []
    else (if IsArrayIndex(keys[0]) == index then [keys[0]] else []) + KeysOfKind(keys[1..], index)
  }

  lemma {:induction false} KeysOfKindSplit(keys: seq<string>)
    ensures multiset(KeysOfKind(keys, true)) + multiset(KeysOfKind(keys, false)) == multiset(keys)
  {
    if keys != [] {
      KeysOfKindSplit(keys[1..]);
      assert keys == [keys[0]] + keys[1..];
    }
  }

  /** The sort key that puts index keys in ascending numeric order. */
  function Descending(key: string): int
  {
    if AllDigits(key) then -(DigitsValue(key) as int) else 0
  }

  /** The order of `Object.entries`: the array-index keys in ascending
    * numeric order, then the other keys in creation order. */
  function EntryOrder(order: seq<string>): (keys: seq<string>)
    ensures multiset(keys) == multiset(order)
  {
    KeysOfKindSplit(order);
    SortDesc(KeysOfKind(order, true), Descending) + KeysOfKind(order, false)
  }

  /** The entries order rearranges the keys: index keys first and in
    * ascending value, the others after them in creation order. */
  lemma EntryOrderSpec(order: seq<string>)
    ensures var keys := EntryOrder(order);
            && (forall i, j :: 0 <= i < j < |keys| && IsArrayIndex(keys[j]) ==> IsArrayIndex(keys[i]))
            && (forall i, j :: 0 <= i < j < |keys| && IsArrayIndex(keys[j]) ==> DigitsValue(keys[i]) <= DigitsValue(keys[j]))
            && KeysOfKind(keys, false) == KeysOfKind(order, false)
  {
    var keys := EntryOrder(order);
    var index := SortDesc(KeysOfKind(order, true), Descending);
    var others := KeysOfKind(order, false);
    assert keys == index + others;
    SortDescSorted(KeysOfKind(order, true), Descending);
    forall k | k in index
      ensures IsArrayIndex(k)
    {
      assert k in multiset(KeysOfKind(order, true));
    }
    forall j | |index| <= j < |keys|
      ensures !IsArrayIndex(keys[j])
    {
      assert keys[j] == others[j - |index|];
    }
    forall i, j | 0 <= i < j < |keys| && IsArrayIndex(keys[j])
      ensures IsArrayIndex(keys[i]) && DigitsValue(keys[i]) <= DigitsValue(keys[j])
    {
      assert keys[i] == index[i] && keys[j] == index[j];
      assert Descending(index[i]) >= Descending(index[j]);
    }
    KeysOfKindConcat(index, others, false);
    KeysOfKindNone(index);
    KeysOfKindAll(others);
  }

  lemma {:induction false} KeysOfKindConcat(a: seq<string>, b: seq<string>, index: bool)
    ensures KeysOfKind(a + b, index) == KeysOfKind(a, index) + KeysOfKind(b, index)
  {
    if a == [] {
      assert a + b == b;
    } else {
      var ab := a + b;
      assert ab[0] == a[0] && ab[1..] == a[1..] + b;
      KeysOfKindConcat(a[1..], b, index);
    }
  }

  lemma {:induction false} KeysOfKindNone(keys: seq<string>)
    requires forall k :: k in keys ==> IsArrayIndex(k)
    ensures KeysOfKind(keys, false) == []
  {
    if keys != [] {
      KeysOfKindNone(keys[1..]);
    }
  }

  lemma {:induction false} KeysOfKindAll(keys: seq<string>)
    requires forall k :: k in keys ==> !IsArrayIndex(k)
    ensures KeysOfKind(keys, false) == keys
  {
    if keys != [] {
      KeysOfKindAll(keys[1..]);
      assert keys == [keys[0]] + keys[1..];
    }
  }

  /** `Object.entries(balancesByNetwork)`. */
  function Entries(groups: map<string, seq<Balance>>, order: seq<string>): (entries: seq<(string, seq<Balance>)>)
    requires forall n :: n in order ==> n in groups
    ensures |entries| == |order|
  {
    var keys := EntryOrder(order);
    assert forall k :: k in keys ==> k in order by {
      forall k | k in keys
        ensures k in order
      {
        assert k in multiset(keys);
      }
    }
    assert |keys| == |multiset(keys)| == |multiset(order)| == |order|;
    seq(|keys|, i requires 0 <= i < |keys| => (keys[i], groups[keys[i]]))
  }

  /** `${balance.token}: ${formatAmount(balance.balance)}`. */
  function TokenLine(b: Balance): string
  {
    b.token + ": " + Format.FormatAmount2(AmountText(b.balance)) + "\n"
  }

  /** A line per balance of a group, in order. */
  function TokenLines(bs: seq<Balance>): string
  {
    if bs == [] then "" else TokenLines(bs[..|bs| - 1]) + TokenLine(bs[|bs| - 1])
  }

  /** The upper-cased network as a bold heading. */
  function GroupHeading(network: string): string
  {
    "*" + ToUpper(network) + "*\n"
  }

  /** The groups one after another: heading, token lines, a blank line. */
  function GroupsText(entries: seq<(string, seq<Balance>)>): string
  {
    if entries == [] then ""
    else
      var last := entries[|entries| - 1];
      GroupsText(entries[..|entries| - 1]) + GroupHeading(last.0) + TokenLines(last.1) + "\n"
  }

  const BalancesHeader := "\U{1F4B0} *Your Wallet Balances*\n\n"

  /** The entries the grouping of the balances yields. */
  function BalanceEntries(balances: seq<Balance>): seq<(string, seq<Balance>)>
  {
    DedupMembers(NetworksOf(balances));
    Entries(GroupsOf(balances), Dedup(NetworksOf(balances)))
  }

  /** The message the balances make. */
  function BalanceMessage(balances: seq<Balance>): string
  {
    BalancesHeader + GroupsText(BalanceEntries(balances))
  }

  /** The nested `forEach`: a heading per entry, a line per balance of the
    * entry, and a blank line after each group. */
  method AppendGroups(prefix: string, entries: seq<(string, seq<Balance>)>) returns (message: string)
    ensures message == prefix + GroupsText(entries)
  {
    message := prefix;
    for i := 0 to |entries|
      invariant message == prefix + GroupsText(entries[..i])
    {
      var network := entries[i].0;
      var networkBalances := entries[i].1;
      ghost var before := GroupsText(entries[..i]);
      var heading := GroupHeading(network);
      Appended(prefix, before, heading);
      message := AppendLines(message + heading, networkBalances);
      Appended(prefix, before + heading, TokenLines(networkBalances));
      Appended(prefix, before + heading + TokenLines(networkBalances), "\n");
      message := message + "\n";
      GroupsTextOneMore(entries, i);
    }
    assert entries[..|entries|] == entries;
  }

  lemma GroupsTextOneMore(entries: seq<(string, seq<Balance>)>, n: nat)
    requires n < |entries|
    ensures GroupsText(entries[..n + 1]) == GroupsText(entries[..n]) + GroupHeading(entries[n].0) + TokenLines(entries[n].1) + "\n"
  {
    assert entries[..n + 1][..n] == entries[..n];
  }

  /** The inner `forEach`: a line per balance of one group. */
  method AppendLines(prefix: string, bs: seq<Balance>) returns (message: string)
    ensures message == prefix + TokenLines(bs)
  {
    message := prefix;
    for j := 0 to |bs|
      invariant message == prefix + TokenLines(bs[..j])
    {
      var line := TokenLine(bs[j]);
      TokenLinesOneMore(bs, j);
      Appended(prefix, TokenLines(bs[..j]), line);
      message := message + line;
    }
    assert bs[..|bs|] == bs;
  }

  lemma TokenLinesOneMore(bs: seq<Balance>, n: nat)
    requires n < |bs|
    ensures TokenLines(bs[..n + 1]) == TokenLines(bs[..n]) + TokenLine(bs[n])
  {
    assert bs[..n + 1][..n] == bs[..n];
  }

  /** `fetchAndDisplayBalances` once the list is non-empty: group, then
    * write the message. */
  method BuildBalanceMessage(balances: seq<Balance>) returns (message: string)
    ensures message == BalanceMessage(balances)
  {
    var groups, order := GroupByNetwork(balances);
    DedupMembers(NetworksOf(balances));
    var entries := Entries(groups, order);
    message := AppendGroups(BalancesHeader, entries);
  }

  /** All balances of every group, entry after entry. */
  function Flatten(entries: seq<(string, seq<Balance>)>): (r: seq<Balance>)
  {
    if entries == [] then [] else Flatten(entries[..|entries| - 1]) + entries[|entries| - 1].1
  }

  /** How many balances the given networks hold together. */
  function CountOn(keys: seq<string>, bs: seq<Balance>): nat
  {
    if keys == [] then 0 else CountOn(keys[..|keys| - 1], bs) + |OnNetwork(bs, keys[|keys| - 1])|
  }

  lemma {:induction false} CountOnSnoc(keys: seq<string>, bs: seq<Balance>, b: Balance)
    requires Distinct(keys)
    ensures CountOn(keys, bs + [b]) == CountOn(keys, bs) + (if b.network in keys then 1 else 0)
  {
    if keys != [] {
      var ks := keys[..|keys| - 1];
      var k := keys[|keys| - 1];
      DistinctInit(keys);
      CountOnSnoc(ks, bs, b);
      OnNetworkSnoc(bs, b, k);
      var added := |OnNetwork(bs + [b], k)| - |OnNetwork(bs, k)|;
      assert added == if b.network == k then 1 else 0;
      assert CountOn(keys, bs + [b]) == CountOn(ks, bs + [b]) + |OnNetwork(bs + [b], k)|;
      assert CountOn(keys, bs) == CountOn(ks, bs) + |OnNetwork(bs, k)|;
      InKeysSnoc(keys, b.network);
    }
  }

  lemma InKeysSnoc(keys: seq<string>, n: string)
    requires keys != []
    ensures (n in keys) == (n in keys[..|keys| - 1] || n == keys[|keys| - 1])
  {
    assert keys == keys[..|keys| - 1] + [keys[|keys| - 1]];
  }

  lemma DistinctInit(keys: seq<string>)
    requires Distinct(keys) && keys != []
    ensures Distinct(keys[..|keys| - 1]) && keys[|keys| - 1] !in keys[..|keys| - 1]
  {
    var ks := keys[..|keys| - 1];
    forall i, j | 0 <= i < j < |ks|
      ensures ks[i] != ks[j]
    {
      assert ks[i] == keys[i] && ks[j] == keys[j];
    }
    forall p | 0 <= p < |ks|
      ensures ks[p] != keys[|keys| - 1]
    {
      assert ks[p] == keys[p];
    }
  }

  /** Distinct networks covering the list hold every balance once. */
  lemma {:induction false} CountOnCover(keys: seq<string>, bs: seq<Balance>)
    requires Distinct(keys)
    requires forall b :: b in bs ==> b.network in keys
    ensures CountOn(keys, bs) == |bs|
  {
    if bs == [] {
      CountOnEmpty(keys);
    } else {
      var pre := bs[..|bs| - 1];
      var b := bs[|bs| - 1];
      assert bs == pre + [b];
      CountOnCover(keys, pre);
      CountOnSnoc(keys, pre, b);
    }
  }

  lemma {:induction false} CountOnEmpty(keys: seq<string>)
    ensures CountOn(keys, []) == 0
  {
    if keys != [] {
      CountOnEmpty(keys[..|keys| - 1]);
    }
  }

  lemma {:induction false} FlattenEntries(keys: seq<string>, bs: seq<Balance>, entries: seq<(string, seq<Balance>)>)
    requires |entries| == |keys|
    requires forall i :: 0 <= i < |keys| ==> entries[i] == (keys[i], OnNetwork(bs, keys[i]))
    ensures |Flatten(entries)| == CountOn(keys, bs)
  {
    if keys != [] {
      var n := |keys| - 1;
      FlattenEntries(keys[..n], bs, entries[..n]);
    }
  }

  /** The entry keys are the networks of the list, each once. */
  lemma EntryKeys(balances: seq<Balance>)
    ensures var keys := EntryOrder(Dedup(NetworksOf(balances)));
            && Distinct(keys)
            && (forall b :: b in balances ==> b.network in keys)
            && (forall k :: k in keys ==> k in NetworksOf(balances))
  {
    var names := NetworksOf(balances);
    DedupMembers(names);
    var order := Dedup(names);
    var keys := EntryOrder(order);
    PermutationDistinct(order, keys);
    forall b | b in balances
      ensures b.network in keys
    {
      var k :| 0 <= k < |balances| && balances[k] == b;
      assert names[k] == b.network;
      assert b.network in order;
      assert b.network in multiset(keys);
    }
    forall k | k in keys
      ensures k in names
    {
      assert k in multiset(order);
    }
  }

  lemma EntriesOfBalances(balances: seq<Balance>)
    ensures var keys := EntryOrder(Dedup(NetworksOf(balances)));
            var entries := BalanceEntries(balances);
            && |entries| == |keys|
            && forall i :: 0 <= i < |keys| ==> entries[i] == (keys[i], OnNetwork(balances, keys[i]))
  {
    EntryKeys(balances);
  }

  /** The message has one token line per balance: its groups hold as many
    * balances as were fetched. */
  lemma TokenLinePerBalance(balances: seq<Balance>)
    ensures |Flatten(BalanceEntries(balances))| == |balances|
  {
    var keys := EntryOrder(Dedup(NetworksOf(balances)));
    EntryKeys(balances);
    EntriesOfBalances(balances);
    FlattenEntries(keys, balances, BalanceEntries(balances));
    CountOnCover(keys, balances);
  }

  /** Every group has a heading and at least one token line, and every
    * balance of a group is on that group's network. */
  lemma GroupsNonEmpty(balances: seq<Balance>)
    ensures var entries := BalanceEntries(balances);
            forall i :: 0 <= i < |entries| ==> entries[i].1 != [] && forall b :: b in entries[i].1 ==> b.network == entries[i].0
  {
    var keys := EntryOrder(Dedup(NetworksOf(balances)));
    var entries := BalanceEntries(balances);
    EntryKeys(balances);
    EntriesOfBalances(balances);
    forall i | 0 <= i < |entries|
      ensures entries[i].1 != []
    {
      GroupNonEmpty(balances, keys[i]);
    }
  }

  /** A network of the list has a balance on it. */
  lemma GroupNonEmpty(balances: seq<Balance>, n: string)
    requires n in NetworksOf(balances)
    ensures OnNetwork(balances, n) != []
  {
    var names := NetworksOf(balances);
    var k :| 0 <= k < |names| && names[k] == n;
    assert balances[k] in OnNetwork(balances, n);
  }

  datatype Reply = Reply(text: string, markdown: bool, keyboard: Option<Keyboards.Keyboard>)

  const FetchingReply := Reply("\U{1F504} Fetching your wallet balances...", false, None)
  const NoBalancesReply := Reply("\U{1F4B0} *No balances found*\n\n" + "You don't have any tokens in your wallets yet.", true, None)
  const BackReply := Reply("Return to main menu:", false, Some(Keyboards.BackButtonKeyboard(None)))

  function FailedReply(message: string): Reply
  {
    Reply("\U{274C} Failed to fetch balances: " + message + "\n\nPlease try again later.", false, None)
  }

  /** `fetchAndDisplayBalances` given the outcome of the balances request:
    * its error message, or the `data` of the response. */
  function BalanceReplies(fetch: Outcome<Option<seq<Balance>>>): (r: seq<Reply>)
    ensures |r| == 3 && r[0] == FetchingReply && r[2] == BackReply
  {
    match fetch
    case Failure(message) => [FetchingReply, FailedReply(message), BackReply]
    case Success(data) =>
      if data.None? || |data.value| == 0 then [FetchingReply, NoBalancesReply, BackReply]
      else [FetchingReply, Reply(BalanceMessage(data.value), true, None), BackReply]
  }

  lemma HeaderLetter(rest: string)
    ensures (BalancesHeader + rest)[3] == 'Y' && NoBalancesReply.text[3] == 'N'
  {
  }

  /** The "No balances" notice comes exactly for a missing or empty list,
    * the failure notice for a failed request, the overview otherwise. */
  lemma BalanceOutcomes(fetch: Outcome<Option<seq<Balance>>>)
    ensures var r := BalanceReplies(fetch);
            && (r[1] == NoBalancesReply <==> fetch.Success? && (fetch.value.None? || fetch.value.value == []))
            && (fetch.Failure? ==> r[1] == FailedReply(fetch.message))
            && (fetch.Success? && fetch.value.Some? && fetch.value.value != [] ==>
                  r[1] == Reply(BalanceMessage(fetch.value.value), true, None))
  {
    var r := BalanceReplies(fetch);
    if fetch.Failure? {
      var prefix := "\U{274C} Failed to fetch balances: ";
      assert FailedReply(fetch.message).text[0] == prefix[0];
    } else if fetch.value.Some? && fetch.value.value != [] {
      var bs := fetch.value.value;
      var rest := GroupsText(BalanceEntries(bs));
      HeaderLetter(rest);
      assert r[1].text == BalancesHeader + rest;
    }
  }
}
