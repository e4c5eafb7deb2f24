/** How the withdraw flow collects the tokens held on one network
  * (`src/bot/commands/withdraw.ts`, network step): the wallets' token lists
  * are walked in order, the first entry of each symbol is kept and a later
  * entry of the same symbol adds its balance to it. */
module WithdrawTokens {
  import opened Common
  import opened Strings
  import opened Numbers

  /** One token of a wallet, as far as the flow looks at it. */
  datatype TokenBalance = TokenBalance(symbol: string, balance: string)

  /** One wallet of the balances response: its network and its token list
    * (None when the list is missing or not an array). */
  datatype WalletBalances = WalletBalances(network: string, balances: Option<seq<TokenBalance>>)

  /** `wallets.filter(wallet => wallet.network === network)`. */
  function OnNetworkW(ws: seq<WalletBalances>, network: string): (r: seq<WalletBalances>)
    ensures |r| <= |ws|
    ensures forall w :: w in r <==> w in ws && w.network == network
  {
    if ws == [] then []
    else (if ws[0].network == network then [ws[0]] else []) + OnNetworkW(ws[1..], network)
  }

  /** `balances.map((balance) => balance.network)`. */
  function WalletNetworks(ws: seq<WalletBalances>): (r: seq<string>)
    ensures |r| == |ws| && forall i :: 0 <= i < |ws| ==> r[i] == ws[i].network
  {
    seq(|ws|, i requires 0 <= i < |ws| => ws[i].network)
  }

  /** The symbols of a token list, in order. */
  function Symbols(list: seq<TokenBalance>): (r: seq<string>)
    ensures |r| == |list| && forall i :: 0 <= i < |list| ==> r[i] == list[i].symbol
  {
    seq(|list|, i requires 0 <= i < |list| => list[i].symbol)
  }

  /** The entries a wallet contributes: its token list when it has one. */
  function WalletEntries(w: WalletBalances): seq<TokenBalance>
  {
    match w.balances
    case None => []
    case Some(xs) => xs
  }

  /** Every wallet's entries, one wallet after the other. */
  function AllEntries(ws: seq<WalletBalances>): seq<TokenBalance>
  {
    if ws == [] then [] else AllEntries(ws[..|ws| - 1]) + WalletEntries(ws[|ws| - 1])
  }

  /** `tokenList.find(t => t.symbol === symbol)` as a position: the first
    * entry with that symbol, or -1. */
  function SymbolIndex(list: seq<TokenBalance>, symbol: string): (k: int)
    ensures -1 <= k < |list|
    ensures k >= 0 ==> list[k].symbol == symbol && forall j :: 0 <= j < k ==> list[j].symbol != symbol
    ensures k == -1 ==> forall j :: 0 <= j < |list| ==> list[j].symbol != symbol
  {
    if list == [] then -1
    else if list[0].symbol == symbol then 0
    else
      var k := SymbolIndex(list[1..], symbol);
      if k < 0 then -1 else k + 1
  }

  /** `((parseFloat(a) || 0) + (parseFloat(b) || 0)).toString()`. */
  function Combined(a: string, b: string): string
  {
    NumberToString(Add(OrZero(ParseFloat(a)), OrZero(ParseFloat(b))))
  }

  /** One step of the walk: a new symbol is appended as delivered; a known
    * one has its balance replaced by the sum. */
  function Merge(list: seq<TokenBalance>, tb: TokenBalance): (r: seq<TokenBalance>)
  {
    var k := SymbolIndex(list, tb.symbol);
    if k < 0 then list + [tb]
    else list[k := TokenBalance(list[k].symbol, Combined(list[k].balance, tb.balance))]
  }

  /** The walk over a sequence of entries. */
  function MergeAll(list: seq<TokenBalance>, es: seq<TokenBalance>): seq<TokenBalance>
  {
    if es == [] then list else Merge(MergeAll(list, es[..|es| - 1]), es[|es| - 1])
  }

  /** The token list built from the wallets of one network. */
  function Gather(ws: seq<WalletBalances>): seq<TokenBalance>
  {
    MergeAll([], AllEntries(ws))
  }

  // ---------------------------------------------------------------------
  // What the walk promises

  /** The value a balance text counts for in a sum: `parseFloat(b) || 0`. */
  function Worth(b: string): real
  {
    match ParseFloat(b)
    case Finite(d) => ToReal(d)
    case _ => 0.0
  }

  /** The text does not read as an infinity. */
  predicate Bounded(b: string)
  {
    !ParseFloat(b).PosInfinity? && !ParseFloat(b).NegInfinity?
  }

  /** No entry's balance reads as an infinity. */
  predicate AllBounded(es: seq<TokenBalance>)
  {
    es == [] || (AllBounded(es[..|es| - 1]) && Bounded(es[|es| - 1].balance))
  }

  /** The sum of the balances of `symbol` among the entries. */
  function Total(es: seq<TokenBalance>, symbol: string): real
  {
    if es == [] then 0.0
    else Total(es[..|es| - 1], symbol) + (if es[|es| - 1].symbol == symbol then Worth(es[|es| - 1].balance) else 0.0)
  }

  /** How many entries carry `symbol`. */
  function Occurrences(es: seq<TokenBalance>, symbol: string): nat
  {
    if es == [] then 0
    else Occurrences(es[..|es| - 1], symbol) + (if es[|es| - 1].symbol == symbol then 1 else 0)
  }

  /** `x || 0` of a bounded text is a finite number worth the same. */
  lemma OrZeroWorth(b: string)
    requires Bounded(b)
    ensures OrZero(ParseFloat(b)).Finite? && ToReal(OrZero(ParseFloat(b)).d) == Worth(b)
  {
    match ParseFloat(b)
    case NaN =>
    case Finite(d) =>
      ValueSign(d.mantissa, d.exponent);
  }

  /** The text of a sum reads back as the sum of the two worths. */
  lemma CombinedAdds(a: string, b: string)
    requires Bounded(a) && Bounded(b)
    ensures Bounded(Combined(a, b)) && Worth(Combined(a, b)) == Worth(a) + Worth(b)
  {
    OrZeroWorth(a);
    OrZeroWorth(b);
    SumText(OrZero(ParseFloat(a)), OrZero(ParseFloat(b)));
  }

  /** The text of a sum of finite numbers is worth the sum. */
  lemma SumText(x: Number, y: Number)
    requires x.Finite? && y.Finite?
    ensures Bounded(NumberToString(Add(x, y))) && Worth(NumberToString(Add(x, y))) == ToReal(x.d) + ToReal(y.d)
  {
    var z := Add(x, y);
    assert z.Finite? && ToReal(z.d) == ToReal(x.d) + ToReal(y.d);
    TextWorth(z);
  }

  /** The text of a finite number is worth that number. */
  lemma TextWorth(z: Number)
    requires z.Finite?
    ensures Bounded(NumberToString(z)) && Worth(NumberToString(z)) == ToReal(z.d)
  {
    NumberToStringReads(z);
  }

  /** Symbols no entry carries sum to nothing. */
  lemma {:induction false} TotalAbsent(es: seq<TokenBalance>, symbol: string)
    requires symbol !in Symbols(es)
    ensures Total(es, symbol) == 0.0 && Occurrences(es, symbol) == 0
  {
    if es != [] {
      var pre := es[..|es| - 1];
      assert Symbols(pre) == Symbols(es)[..|es| - 1];
      TotalAbsent(pre, symbol);
    }
  }

  /** The symbols of the prefix of a list. */
  lemma SymbolsPrefix(es: seq<TokenBalance>)
    requires es != []
    ensures Symbols(es[..|es| - 1]) == Symbols(es)[..|es| - 1]
    ensures Symbols(es) == Symbols(es[..|es| - 1]) + [es[|es| - 1].symbol]
  {
  }

  /** A step of the walk keeps the old symbols in place and appends the new
    * symbol when it was not there. */
  lemma MergeSymbols(list: seq<TokenBalance>, tb: TokenBalance)
    ensures var d := Symbols(list);
            Symbols(Merge(list, tb)) == if tb.symbol in d then d else d + [tb.symbol]
  {
    var k := SymbolIndex(list, tb.symbol);
    if k < 0 {
      assert tb.symbol !in Symbols(list);
      SymbolsAppended(list, tb);
    } else {
      assert Symbols(list)[k] == tb.symbol;
      SymbolsUpdated(list, k, Combined(list[k].balance, tb.balance));
    }
  }

  lemma SymbolsAppended(list: seq<TokenBalance>, tb: TokenBalance)
    ensures Symbols(list + [tb]) == Symbols(list) + [tb.symbol]
  {
  }

  /** A new balance under the same symbol leaves the symbols alone. */
  lemma SymbolsUpdated(list: seq<TokenBalance>, k: nat, balance: string)
    requires k < |list|
    ensures Symbols(list[k := TokenBalance(list[k].symbol, balance)]) == Symbols(list)
  {
  }

  /** The symbols of the token list are the delivered symbols with
    * repetitions removed, in the order of their first appearance. */
  lemma {:induction false} GatherSymbols(es: seq<TokenBalance>)
    ensures Symbols(MergeAll([], es)) == Dedup(Symbols(es))
  {
    if es != [] {
      var pre := es[..|es| - 1];
      GatherSymbols(pre);
      SymbolsPrefix(es);
      MergeSymbols(MergeAll([], pre), es[|es| - 1]);
    }
  }

  /** Every entry of the token list is bounded and holds the sum of all the
    * delivered balances of its symbol. */
  predicate Summed(list: seq<TokenBalance>, es: seq<TokenBalance>)
  {
    forall k :: 0 <= k < |list| ==> Bounded(list[k].balance) && Worth(list[k].balance) == Total(es, list[k].symbol)
  }

  /** Appending one entry adds its worth to its own symbol's sum only. */
  lemma TotalStep(pre: seq<TokenBalance>, tb: TokenBalance, symbol: string)
    ensures Total(pre + [tb], symbol) == Total(pre, symbol) + (if tb.symbol == symbol then Worth(tb.balance) else 0.0)
  {
    assert (pre + [tb])[..|pre|] == pre;
  }

  /** A new symbol appended keeps the sums right. */
  lemma AppendSums(list: seq<TokenBalance>, pre: seq<TokenBalance>, tb: TokenBalance)
    requires Summed(list, pre) && Bounded(tb.balance)
    requires tb.symbol !in Symbols(list) && tb.symbol !in Symbols(pre)
    ensures Summed(list + [tb], pre + [tb])
  {
    var r := list + [tb];
    TotalAbsent(pre, tb.symbol);
    forall j | 0 <= j < |r|
      ensures Bounded(r[j].balance) && Worth(r[j].balance) == Total(pre + [tb], r[j].symbol)
    {
      TotalStep(pre, tb, r[j].symbol);
      if j < |list| {
        assert r[j] == list[j] && Symbols(list)[j] == list[j].symbol;
      }
    }
  }

  /** A known symbol's balance replaced by the sum keeps the sums right. */
  lemma UpdateSums(list: seq<TokenBalance>, pre: seq<TokenBalance>, tb: TokenBalance, k: nat)
    requires Summed(list, pre) && Bounded(tb.balance)
    requires k < |list| && list[k].symbol == tb.symbol
    requires forall i, j :: 0 <= i < j < |list| ==> list[i].symbol != list[j].symbol
    ensures Summed(list[k := TokenBalance(list[k].symbol, Combined(list[k].balance, tb.balance))], pre + [tb])
  {
    CombinedAdds(list[k].balance, tb.balance);
    ReplaceSums(list, pre, tb, k, Combined(list[k].balance, tb.balance));
  }

  /** Any bounded text worth the sum may stand in for the known entry. */
  lemma ReplaceSums(list: seq<TokenBalance>, pre: seq<TokenBalance>, tb: TokenBalance, k: nat, sum: string)
    requires Summed(list, pre)
    requires k < |list| && list[k].symbol == tb.symbol
    requires forall i, j :: 0 <= i < j < |list| ==> list[i].symbol != list[j].symbol
    requires Bounded(sum) && Worth(sum) == Worth(list[k].balance) + Worth(tb.balance)
    ensures Summed(list[k := TokenBalance(list[k].symbol, sum)], pre + [tb])
  {
    var r := list[k := TokenBalance(list[k].symbol, sum)];
    forall j | 0 <= j < |r|
      ensures Bounded(r[j].balance) && Worth(r[j].balance) == Total(pre + [tb], r[j].symbol)
    {
      TotalStep(pre, tb, r[j].symbol);
      if j != k {
        assert r[j] == list[j] && list[j].symbol != tb.symbol;
      }
    }
  }

  /** The list holds the symbols of the entries, each in one entry. */
  ghost predicate OnePerSymbol(list: seq<TokenBalance>, es: seq<TokenBalance>)
  {
    && (forall x :: x in Symbols(list) <==> x in Symbols(es))
    && (forall i, j :: 0 <= i < j < |list| ==> list[i].symbol != list[j].symbol)
  }

  /** A step of the walk keeps the sums right. */
  lemma MergeSums(list: seq<TokenBalance>, pre: seq<TokenBalance>, tb: TokenBalance)
    requires Summed(list, pre) && Bounded(tb.balance)
    requires OnePerSymbol(list, pre)
    ensures Summed(Merge(list, tb), pre + [tb])
  {
    var k := SymbolIndex(list, tb.symbol);
    if k < 0 {
      assert tb.symbol !in Symbols(list);
      AppendSums(list, pre, tb);
    } else {
      UpdateSums(list, pre, tb, k);
    }
  }

  /** When no delivered balance reads as an infinity, each entry of the token
    * list is worth the sum of its symbol's delivered balances. */
  lemma {:induction false} GatherSums(es: seq<TokenBalance>)
    requires AllBounded(es)
    ensures Summed(MergeAll([], es), es)
  {
    if es != [] {
      var pre := es[..|es| - 1];
      var tb := es[|es| - 1];
      FrontLast(es);
      assert AllBounded(pre) && Bounded(tb.balance);
      GatherSums(pre);
      SumsStep(pre, tb);
    }
  }

  /** One more delivered entry keeps the sums of the walk right. */
  lemma SumsStep(pre: seq<TokenBalance>, tb: TokenBalance)
    requires Summed(MergeAll([], pre), pre) && Bounded(tb.balance)
    ensures Summed(MergeAll([], pre + [tb]), pre + [tb])
  {
    assert (pre + [tb])[..|pre|] == pre;
    WalkDistinct(pre);
    MergeSums(MergeAll([], pre), pre, tb);
  }

  /** The walk holds each delivered symbol in one entry. */
  lemma WalkDistinct(es: seq<TokenBalance>)
    ensures OnePerSymbol(MergeAll([], es), es)
  {
    var list := MergeAll([], es);
    GatherSymbols(es);
    DedupMembers(Symbols(es));
    forall i, j | 0 <= i < j < |list|
      ensures list[i].symbol != list[j].symbol
    {
      assert Symbols(list)[i] == list[i].symbol && Symbols(list)[j] == list[j].symbol;
    }
  }

  /** Entries whose symbol was delivered once are kept exactly as delivered. */
  predicate KeptWhenSingle(list: seq<TokenBalance>, es: seq<TokenBalance>)
  {
    forall k :: 0 <= k < |list| && Occurrences(es, list[k].symbol) == 1 ==> list[k] in es
  }

  /** A step of the walk keeps the single entries. */
  lemma MergeKeeps(list: seq<TokenBalance>, pre: seq<TokenBalance>, tb: TokenBalance)
    requires KeptWhenSingle(list, pre)
    requires forall x :: x in Symbols(list) <==> x in Symbols(pre)
    ensures KeptWhenSingle(Merge(list, tb), pre + [tb])
  {
    var es := pre + [tb];
    assert es[..|es| - 1] == pre;
    var r := Merge(list, tb);
    var k := SymbolIndex(list, tb.symbol);
    forall j | 0 <= j < |r| && Occurrences(es, r[j].symbol) == 1
      ensures r[j] in es
    {
      if k < 0 && j == |list| {
        assert r[j] == tb;
      } else if r[j].symbol == tb.symbol {
        // the symbol was already delivered, so this is a second occurrence
        assert r[j].symbol in Symbols(list) by {
          assert Symbols(list)[if k < 0 then j else k] == r[j].symbol;
        }
        assert r[j].symbol in Symbols(pre);
        OccurrencesPresent(pre, r[j].symbol);
        assert false;
      } else {
        assert r[j] == list[j];
      }
    }
  }

  /** A delivered symbol occurs at least once. */
  lemma {:induction false} OccurrencesPresent(es: seq<TokenBalance>, symbol: string)
    requires symbol in Symbols(es)
    ensures Occurrences(es, symbol) >= 1
  {
    var pre := es[..|es| - 1];
    SymbolsPrefix(es);
    if es[|es| - 1].symbol != symbol {
      assert symbol in Symbols(pre);
      OccurrencesPresent(pre, symbol);
    }
  }

  /** A symbol delivered once keeps the entry it was delivered with. */
  lemma {:induction false} GatherKeeps(es: seq<TokenBalance>)
    ensures KeptWhenSingle(MergeAll([], es), es)
  {
    if es != [] {
      var pre := es[..|es| - 1];
      GatherKeeps(pre);
      GatherSymbols(pre);
      DedupSpec(Symbols(pre));
      assert es == pre + [es[|es| - 1]];
      MergeKeeps(MergeAll([], pre), pre, es[|es| - 1]);
    }
  }

  /** What the token list of the network step is: one entry per symbol
    * delivered on the wallets, in the order of first appearance, each symbol
    * once; a symbol delivered once keeps its entry; and without infinities
    * each entry is worth the sum of its symbol's balances. */
  lemma GatherSpec(ws: seq<WalletBalances>)
    ensures var es := AllEntries(ws);
            var list := Gather(ws);
            Symbols(list) == Dedup(Symbols(es))
            && (forall i, j :: 0 <= i < j < |list| ==> list[i].symbol != list[j].symbol)
            && (forall x :: x in Symbols(list) <==> x in Symbols(es))
            && KeptWhenSingle(list, es)
    ensures AllBounded(AllEntries(ws)) ==> Summed(Gather(ws), AllEntries(ws))
  {
    var es := AllEntries(ws);
    GatherSymbols(es);
    DedupSpec(Symbols(es));
    GatherKeeps(es);
    if AllBounded(es) {
      GatherSums(es);
    }
  }

  /** Two wallets' entries, one after the other. */
  lemma EntriesOfTwo(w1: WalletBalances, w2: WalletBalances)
    ensures AllEntries([w1, w2]) == WalletEntries(w1) + WalletEntries(w2)
  {
    assert [w1, w2][..1] == [w1];
    assert [w1][..0] == [];
    assert AllEntries([w1]) == WalletEntries(w1);
  }

  /** Two entries of one symbol merge into one entry holding the sum. */
  lemma MergeTwo(ta: TokenBalance, tb: TokenBalance)
    requires ta.symbol == tb.symbol
    ensures MergeAll([], [ta, tb]) == [TokenBalance(ta.symbol, Combined(ta.balance, tb.balance))]
  {
    assert [ta, tb][..1] == [ta];
    assert [ta][..0] == [];
    assert MergeAll([], [ta]) == [ta];
    assert SymbolIndex([ta], tb.symbol) == 0;
    assert MergeAll([], [ta, tb]) == Merge([ta], tb);
  }

  /** Two wallets holding the same token: one entry, worth the sum. */
  lemma TwoWalletsSum(network: string, symbol: string, a: string, b: string)
    requires Bounded(a) && Bounded(b)
    ensures var ws := [WalletBalances(network, Some([TokenBalance(symbol, a)])),
                       WalletBalances(network, Some([TokenBalance(symbol, b)]))];
            |Gather(ws)| == 1 && Gather(ws)[0].symbol == symbol
            && Worth(Gather(ws)[0].balance) == Worth(a) + Worth(b)
  {
    var ta, tb := TokenBalance(symbol, a), TokenBalance(symbol, b);
    EntriesOfTwo(WalletBalances(network, Some([ta])), WalletBalances(network, Some([tb])));
    assert [ta] + [tb] == [ta, tb];
    MergeTwo(ta, tb);
    CombinedAdds(a, b);
  }

  /** Walking two runs of entries is walking the first, then the second. */
  lemma {:induction false} MergeAllConcat(list: seq<TokenBalance>, a: seq<TokenBalance>, b: seq<TokenBalance>)
    ensures MergeAll(list, a + b) == MergeAll(MergeAll(list, a), b)
  {
    if b == [] {
      assert a + b == a;
    } else {
      var c := a + b;
      assert c[..|c| - 1] == a + b[..|b| - 1] && c[|c| - 1] == b[|b| - 1];
      MergeAllConcat(list, a, b[..|b| - 1]);
    }
  }

  // ---------------------------------------------------------------------
  // The walk as the handler performs it

  /** `tokenList.find(...)` followed by the update or the push. */
  method MergeEntry(list: seq<TokenBalance>, tb: TokenBalance) returns (r: seq<TokenBalance>)
    ensures r == Merge(list, tb)
  {
    var k := 0;
    while k < |list| && list[k].symbol != tb.symbol
      invariant 0 <= k <= |list|
      invariant forall j :: 0 <= j < k ==> list[j].symbol != tb.symbol
    {
      k := k + 1;
    }
    if k == |list| {
      r := list + [tb];
    } else {
      r := list[k := TokenBalance(list[k].symbol, Combined(list[k].balance, tb.balance))];
    }
  }

  /** `wallet.balances.forEach(...)`: one wallet's entries merged in order. */
  method MergeEntries(list: seq<TokenBalance>, entries: seq<TokenBalance>) returns (r: seq<TokenBalance>)
    ensures r == MergeAll(list, entries)
  {
    r := list;
    for j := 0 to |entries|
      invariant r == MergeAll(list, entries[..j])
    {
      assert entries[..j + 1][..j] == entries[..j];
      r := MergeEntry(r, entries[j]);
    }
    assert entries[..|entries|] == entries;
  }

  /** `networkWallets.forEach(...)`: the walk over the wallets, skipping those
    * without a token list. */
  method CollectTokens(wallets: seq<WalletBalances>) returns (list: seq<TokenBalance>)
    ensures list == Gather(wallets)
  {
    list := [];
    for i := 0 to |wallets|
      invariant list == MergeAll([], AllEntries(wallets[..i]))
    {
      GatherStep(wallets, i);
      if wallets[i].balances.Some? {
        list := MergeEntries(list, wallets[i].balances.value);
      }
    }
    assert wallets[..|wallets|] == wallets;
  }

  /** One more wallet walked: its entries merged after the earlier ones. */
  lemma GatherStep(ws: seq<WalletBalances>, i: nat)
    requires i < |ws|
    ensures MergeAll([], AllEntries(ws[..i + 1])) == MergeAll(MergeAll([], AllEntries(ws[..i])), WalletEntries(ws[i]))
  {
    assert ws[..i + 1][..i] == ws[..i];
    MergeAllConcat([], AllEntries(ws[..i]), WalletEntries(ws[i]));
  }
}
